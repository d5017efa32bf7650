/** A run in which releasing the lock shows: the grant runs out while the proof is being checked. */
module LedgerWitness {
  import opened Basics
  import opened AccountingPolicy
  import opened Accounting
  import opened AccountLedgers
  import opened LedgerRuns
  import opened LedgerTheorems

  const ONE: Word := Word([
    0, 0, 0, 0, 0, 0, 0, 0, 0, 0, 0, 0, 0, 0, 0, 0, 0, 0, 0, 0, 0, 0, 0, 0, 0, 0, 0, 0, 0, 0, 0, 1])

  const ACCOUNT: AccountPolicy := AccountPolicy(1, 1, 1, 1, 1, 1, 1000, 1, 100, 1, 1, 1, 1, 100)
  const POLICY: LedgerPolicy := LedgerPolicy(ACCOUNT, 100, 10, 100)
  const TRUST: Trust := Trust(ONE, ONE, ONE)
  const SCOPE: ProofScope := ProofScope(ONE, ONE)

  /** A genesis statement made at second 10, inside the first window and slot. */
  const STATEMENT: AccountStatement := AccountStatement(
    2, ONE, ONE, PolicySha256(ONE, ACCOUNT), ONE, 10, 100, true, 0, 0, ZERO, ONE, ZERO, ACCOUNT)
  const REQUEST: AccountRequest := AccountRequest(STATEMENT, ONE, SCOPE, ONE, 10, 20, [0], [])

  /** The grant ends at second 20, together with the request. */
  const GRANT: AdmissionGrant := AdmissionGrant(ONE, ONE, 1, 20, [])
  const DEVICE: DeviceAuthorization := DeviceAuthorization(ONE, ONE, ONE, 1, 1000, [])

  function Everyone(): Authority {
    Authority(g => true, d => true, r => true, q => true, (s, p) => true)
  }

  const CONFIG: StoredConfig := StoredConfig(TRUST, POLICY, SCOPE, ONE, 0)
  const HANDLE: Handle := Handle(TRUST, POLICY, PolicySha256(ONE, ACCOUNT), CONFIG, 0, SCOPE, ONE)
  const FRESH: Db := Db(CONFIG, 0, map[], map[], {}, map[])
  const ADMITTED: Db := Db(CONFIG, 0, map[0 := ONE], map[], {}, map[])

  const OPEN: Event := Event(OpenStep(0, TRUST, POLICY, SCOPE, ONE), false)
  const ADMIT: Event := Event(AdmitStep(0, 0, ONE), false)
  const BEGIN: Event := Event(BeginStep(0, GRANT, DEVICE, REQUEST, 10, 10), false)
  const FINISH: Event := Event(FinishStep(0, 20), false)

  lemma PolicyIsOk()
    ensures POLICY.Valid() && ACCOUNT.Valid()
  {
  }

  lemma WordsAreOk()
    ensures ONE != ZERO && IsField(ONE, true) && IsField(ZERO, false)
  {
    assert ONE.bytes[31] != ZERO.bytes[31];
    assert BytesBelow(ONE.bytes, MODULUS) && BytesBelow(ZERO.bytes, MODULUS);
  }

  lemma HorizonIsHundred()
    ensures ACCOUNT.ProofValidUntil(10) == Ok(100)
  {
    PolicyIsOk();
  }

  lemma StatementIsOk()
    ensures StatementOk(STATEMENT) && RequestOk(REQUEST)
  {
    hide IsField;
    PolicyIsOk();
    WordsAreOk();
    HorizonIsHundred();
  }

  lemma Created()
    ensures Create(TRUST, POLICY, SCOPE, ONE) == Ok((HANDLE, FRESH))
  {
    hide IsField;
    PolicyIsOk();
    WordsAreOk();
  }

  lemma Opened()
    ensures Next(System(FRESH, map[]), Everyone(), OPEN) == (System(FRESH, map[0 := Seat(HANDLE, None)]), Done)
  {
    hide IsField;
    PolicyIsOk();
    WordsAreOk();
    assert POLICY.Retuned(ACCOUNT.abandonAfter) == POLICY;
    assert Open(FRESH, TRUST, POLICY, SCOPE, ONE) == Ok(HANDLE);
  }

  lemma RootIsAdmitted()
    ensures AdmitCheckpoint(FRESH, HANDLE, 0, ONE) == Ok(ADMITTED)
  {
    hide IsField;
    PolicyIsOk();
    WordsAreOk();
  }

  lemma CheckpointAdmitted()
    ensures Next(System(FRESH, map[0 := Seat(HANDLE, None)]), Everyone(), ADMIT) == (System(ADMITTED, map[0 := Seat(HANDLE, None)]), Done)
  {
    hide AdmitCheckpoint;
    RootIsAdmitted();
  }

  lemma CredentialsPass()
    ensures Everyone().VerifyBoth(GRANT, DEVICE, 10).Ok? && CheckTime(10, 10).Ok? && CheckTime(10, 0).Ok?
    ensures Everyone().proves(STATEMENT, REQUEST.proof) && Everyone().signed(REQUEST)
  {
  }

  lemma CallerPasses()
    ensures CheckCaller(HANDLE, Everyone(), GRANT, DEVICE, REQUEST, 10).Ok?
  {
    hide RequestOk, StatementOk, CheckTime;
    StatementIsOk();
    CredentialsPass();
    assert |REQUEST.proof| == 1 && HANDLE.policy.maxProofBytes == 10;
  }

  lemma NothingStored()
    ensures Retry(ADMITTED, HANDLE, REQUEST) == Ok(None)
  {
  }

  lemma PendingPasses()
    ensures CheckPending(ADMITTED, REQUEST, ONE, GRANT, DEVICE, POLICY, 10).Ok?
  {
  }

  lemma TablesPass()
    ensures HANDLE.policy.Valid() && CheckFresh(ADMITTED, HANDLE, REQUEST, GRANT, DEVICE, 10).Ok?
  {
    hide CheckPending;
    PolicyIsOk();
    PendingPasses();
  }

  lemma ProofIsDue()
    ensures HANDLE.policy.Valid() && BeginApply(ADMITTED, HANDLE, Everyone(), GRANT, DEVICE, REQUEST, 10, 10) == Ok(None)
  {
    hide CheckCaller, CheckFresh, Retry, CheckTime, RequestOk, StatementOk;
    CallerPasses();
    CredentialsPass();
    NothingStored();
    TablesPass();
  }

  lemma Begun()
    ensures Next(System(ADMITTED, map[0 := Seat(HANDLE, None)]), Everyone(), BEGIN)
      == (System(ADMITTED, map[0 := Seat(HANDLE, Some(Pending(GRANT, DEVICE, REQUEST, 10)))]), Silent)
  {
    hide BeginApply;
    ProofIsDue();
    var seat := Seat(HANDLE, None);
    assert map[0 := seat][0 := seat.(pending := Some(Pending(GRANT, DEVICE, REQUEST, 10)))] == map[0 := Seat(HANDLE, Some(Pending(GRANT, DEVICE, REQUEST, 10)))];
  }

  lemma Lapsing()
    ensures var s := System(ADMITTED, map[0 := Seat(HANDLE, Some(Pending(GRANT, DEVICE, REQUEST, 10)))]);
      LapsedStep(s, FINISH) && Next(s, Everyone(), FINISH).1 == Refused(Expired)
  {
    hide IsField;
    PolicyIsOk();
    WordsAreOk();
  }

  /** From creation on: the split ledger answers expired, the one-step ledger not admitted. */
  lemma LapseIsReachable()
    ensures Create(TRUST, POLICY, SCOPE, ONE).Ok?
    ensures var s, events := System(Create(TRUST, POLICY, SCOPE, ONE).value.1, map[]), [OPEN, ADMIT, BEGIN, FINISH];
      && Invariant(s, Everyone())
      && Lapses(s, Everyone(), events) == [false, false, true]
      && Replies(s, Everyone(), events) == [Done, Done, Refused(Expired)]
      && Replies(Erase(s), Everyone(), Linearized(s, Everyone(), events)) == [Done, Done, Refused(Admission)]
  {
    hide BytesBelow, Next, LapsedStep, Invariant, Linearized;
    Created();
    Opened();
    CheckpointAdmitted();
    Begun();
    Lapsing();
    var o, s0 := Everyone(), System(FRESH, map[]);
    var s1, s2 := System(FRESH, map[0 := Seat(HANDLE, None)]), System(ADMITTED, map[0 := Seat(HANDLE, None)]);
    var s3 := System(ADMITTED, map[0 := Seat(HANDLE, Some(Pending(GRANT, DEVICE, REQUEST, 10)))]);
    FreshIsOk();
    OnlyFinishLapses(s0);
    OnlyFinishLapses(s1);
    LastEvent(s3);
    Unfold(s2, o, BEGIN, [FINISH]);
    Unfold(s1, o, ADMIT, [BEGIN, FINISH]);
    Unfold(s0, o, OPEN, [ADMIT, BEGIN, FINISH]);
    EveryRunIsAtomic(s0, o, [OPEN, ADMIT, BEGIN, FINISH]);
  }

  lemma FreshIsOk()
    ensures Invariant(System(FRESH, map[]), Everyone())
  {
    hide IsField;
    PolicyIsOk();
    WordsAreOk();
  }

  lemma OnlyFinishLapses(s: System)
    ensures !LapsedStep(s, OPEN) && !LapsedStep(s, ADMIT)
  {
  }

  lemma LastEvent(s: System)
    ensures Replies(s, Everyone(), [FINISH]) == if Next(s, Everyone(), FINISH).1 == Silent then [] else [Next(s, Everyone(), FINISH).1]
    ensures Lapses(s, Everyone(), [FINISH]) == if Next(s, Everyone(), FINISH).1 == Silent then [] else [LapsedStep(s, FINISH)]
  {
    hide Next, LapsedStep;
    var done := Next(s, Everyone(), FINISH);
    assert [FINISH][1..] == [];
    assert Replies(done.0, Everyone(), []) == [] && Lapses(done.0, Everyone(), []) == [];
  }

  lemma Unfold(s: System, o: Authority, e: Event, rest: seq<Event>)
    ensures Replies(s, o, [e] + rest) == (if Next(s, o, e).1 == Silent then [] else [Next(s, o, e).1]) + Replies(Next(s, o, e).0, o, rest)
    ensures Lapses(s, o, [e] + rest) == (if Next(s, o, e).1 == Silent then [] else [LapsedStep(s, e)]) + Lapses(Next(s, o, e).0, o, rest)
  {
    hide Next, LapsedStep;
    assert ([e] + rest)[1..] == rest;
  }
}
