/** Whole runs of the account ledger: any number of handles over one database, every interleaving
    of their transactions, any reply lost after its commit. */
module LedgerRuns {
  import opened Basics
  import opened AccountingPolicy
  import opened Accounting
  import opened AccountLedgers

  /* ----- the system ----- */

  /** A call of `apply` whose proof is being checked while no lock is held. */
  datatype Pending = Pending(grant: AdmissionGrant, device: DeviceAuthorization, request: AccountRequest, now: U64)

  /** A handle serves one call at a time. */
  datatype Seat = Seat(handle: Handle, pending: Option<Pending>)

  datatype System = System(db: Db, seats: map<nat, Seat>)

  datatype Step =
    | OpenStep(id: nat, trust: Trust, policy: LedgerPolicy, scope: ProofScope, operatorKey: Word)
    | CloseStep(id: nat)
    | BeginStep(id: nat, grant: AdmissionGrant, device: DeviceAuthorization, request: AccountRequest, before: U64, now: U64)
    | FinishStep(id: nat, completed: U64)
    | AtomicStep(id: nat, grant: AdmissionGrant, device: DeviceAuthorization, request: AccountRequest, before: U64, now: U64)
    | StatusStep(id: nat, grant: AdmissionGrant, device: DeviceAuthorization, query: AccountStatusRequest, before: U64, now: U64)
    | AdmitStep(id: nat, slot: U64, root: Word)
    | TuneStep(id: nat, expectedRevision: U64, seconds: U64, before: U64, now: U64)
    | ReloadStep(id: nat)

  /** `lost`: the reply never reached the caller, whatever the transaction did. */
  datatype Event = Event(step: Step, lost: bool)

  datatype Reply =
    | Silent
    | Refused(error: Error)
    | Accepted(acceptance: AccountAcceptance)
    | Reported(response: AccountStatusResponse)
    | Configured(revision: U64)
    | Done

  /** A handle that exists and is not inside a call. */
  predicate Idle(s: System, id: nat) {
    id in s.seats && s.seats[id].pending.None? && s.seats[id].handle.policy.Valid()
  }

  predicate Checking(s: System, id: nat) {
    id in s.seats && s.seats[id].pending.Some? && s.seats[id].handle.policy.Valid()
  }

  /** Whether the step does anything in this state. */
  predicate Enabled(s: System, step: Step) {
    match step
    case OpenStep(id, _, _, _, _) => id !in s.seats
    case CloseStep(id) => true
    case FinishStep(id, _) => Checking(s, id)
    case _ => Idle(s, step.id)
  }

  function Moved(s: System, id: nat, h: Handle): System {
    s.(seats := s.seats[id := Seat(h, None)])
  }

  function ApplyReply(s: System, r: Result<(AccountAcceptance, Db)>): (System, Reply) {
    match r
    case Ok(done) => (s.(db := done.1), Accepted(done.0))
    case Err(e) => (s, Refused(e))
  }

  function Perform(s: System, o: Authority, event: Event): (System, Reply)
    requires Enabled(s, event.step)
  {
    match event.step
    case OpenStep(id, trust, policy, scope, key) =>
      (match Open(s.db, trust, policy, scope, key)
       case Ok(h) => (Moved(s, id, h), Done)
       case Err(e) => (s, Refused(e)))
    case CloseStep(id) => (s.(seats := s.seats - {id}), Done)
    case BeginStep(id, grant, device, request, before, now) =>
      (match BeginApply(s.db, s.seats[id].handle, o, grant, device, request, before, now)
       case Ok(Some(done)) => (s.(db := done.1), Accepted(done.0))
       case Ok(None) =>
         (s.(seats := s.seats[id := s.seats[id].(pending := Some(Pending(grant, device, request, now)))]), Silent)
       case Err(e) => (s, Refused(e)))
    case FinishStep(id, completed) =>
      var p := s.seats[id].pending.value;
      ApplyReply(Moved(s, id, s.seats[id].handle),
                 FinishApply(s.db, s.seats[id].handle, o, p.grant, p.device, p.request, p.now, completed))
    case AtomicStep(id, grant, device, request, before, now) =>
      ApplyReply(s, AtomicApply(s.db, s.seats[id].handle, o, grant, device, request, before, now))
    case StatusStep(id, grant, device, query, before, now) =>
      (match Status(s.db, s.seats[id].handle, o, grant, device, query, before, now)
       case Ok(done) => (s.(db := done.1), Reported(done.0))
       case Err(e) => (s, Refused(e)))
    case AdmitStep(id, slot, root) =>
      (match AdmitCheckpoint(s.db, s.seats[id].handle, slot, root)
       case Ok(db) => (s.(db := db), Done)
       case Err(e) => (s, Refused(e)))
    case TuneStep(id, expected, seconds, before, now) =>
      (match UpdateWaitingPeriod(s.db, s.seats[id].handle, expected, seconds, before, now)
       case Ok(done) =>
         (if event.lost then s.(db := done.1) else Moved(s.(db := done.1), id, done.0), Configured(done.0.tuningRevision))
       case Err(e) => (s, Refused(e)))
    case ReloadStep(id) =>
      (match ReloadPolicy(s.db, s.seats[id].handle)
       case Ok(h) => (Moved(s, id, h), Configured(h.tuningRevision))
       case Err(e) => (s, Refused(e)))
  }

  /** One event; a step that is not enabled changes nothing and answers nothing. */
  function Next(s: System, o: Authority, event: Event): (System, Reply) {
    if !Enabled(s, event.step) then (s, Silent)
    else
      var done := Perform(s, o, event);
      (done.0, if event.lost && done.1 != Silent then Refused(Storage) else done.1)
  }

  function Run(s: System, o: Authority, events: seq<Event>): System
    decreases |events|
  {
    if events == [] then s else Run(Next(s, o, events[0]).0, o, events[1..])
  }

  function Replies(s: System, o: Authority, events: seq<Event>): seq<Reply>
    decreases |events|
  {
    if events == [] then []
    else
      var done := Next(s, o, events[0]);
      (if done.1 == Silent then [] else [done.1]) + Replies(done.0, o, events[1..])
  }

  /* ----- what every run keeps ----- */

  /** The configuration fields no transaction can change. */
  predicate SamePins(a: StoredConfig, b: StoredConfig) {
    && a.trust == b.trust && a.proofScope == b.proofScope && a.operatorKey == b.operatorKey
    && a.policy.Retuned(b.policy.account.abandonAfter) == b.policy
  }

  predicate HandleOk(db: Db, h: Handle) {
    && h.policy.Valid() && h.policy.account.Valid()
    && h == Snapshot(h, h.policy, h.tuningRevision)
    && SamePins(h.config, db.config)
    && h.tuningRevision <= db.config.tuningRevision
  }

  predicate PendingOk(h: Handle, o: Authority, p: Pending) {
    && CheckCaller(h, o, p.grant, p.device, p.request, p.now).Ok?
    && o.proves(p.request.statement, p.request.proof)
  }

  predicate SeatOk(db: Db, o: Authority, seat: Seat) {
    && HandleOk(db, seat.handle)
    && (seat.pending.Some? ==> PendingOk(seat.handle, o, seat.pending.value))
  }

  /** A stored acceptance passes every later check, was accepted in the checkpoint slot of its
      statement under that slot's root, and never lies after the clock floor. */
  predicate StoredOk(db: Db, key: RequestKey, a: AccountAcceptance) {
    var s := a.body.statement;
    var period := db.config.policy.checkpointPeriodSeconds;
    && db.config.policy.Valid()
    && s.owner == key.0 && a.body.requestId == key.1
    && key.0 in db.accounts
    && AcceptanceOk(a.body)
    && a.signature == AcceptanceSigned(db.config.operatorKey, a.body)
    && a.body.acceptedAt <= db.clockFloor
    && s.community == db.config.trust.community
    && RequestOk(a.body.requestDigest.request)
    && a.body.requestDigest.request.statement == s
    && a.body.requestDigest.request.requestId == a.body.requestId
    && a.body.acceptedAt / period == s.now / period
    && s.now / period in db.checkpoints && db.checkpoints[s.now / period] == s.enrollmentRoot
  }

  predicate LinkOk(db: Db, owner: Owner, chain: seq<AccountAcceptance>, i: nat)
    requires i < |chain|
  {
    var s := chain[i].body.statement;
    && (owner, chain[i].body.requestId) in db.requests
    && db.requests[(owner, chain[i].body.requestId)] == chain[i]
    && s.owner == owner && s.nextVersion == i && (s.genesis <==> i == 0)
    && (i > 0 ==> s.previousVersion == i - 1 && s.previousState == chain[i - 1].body.statement.nextState)
  }

  predicate Apart(a: AccountAcceptance, b: AccountAcceptance) {
    && a.body.requestId != b.body.requestId
    && a.body.acceptedAt <= b.body.acceptedAt
    && (a.body.statement.settlementMarker != ZERO ==> a.body.statement.settlementMarker != b.body.statement.settlementMarker)
  }

  ghost predicate MarkerUsed(chain: seq<AccountAcceptance>, m: Word) {
    exists i :: 0 <= i < |chain| && chain[i].body.statement.settlementMarker == m
  }

  /** `chain` is the owner's whole history: one stored acceptance per version 0, 1, ..., each
      continuing the state before it, the account row its last link, and the owner's markers
      exactly its nonzero settlement markers, none used twice. */
  ghost predicate IsChain(db: Db, owner: Owner, chain: seq<AccountAcceptance>) {
    && owner in db.accounts && chain != []
    && (forall i | 0 <= i < |chain| :: LinkOk(db, owner, chain, i))
    && (forall k | k in db.requests && k.0 == owner :: db.requests[k] in chain)
    && (forall i, j | 0 <= i < j < |chain| :: Apart(chain[i], chain[j]))
    && (var last := chain[|chain| - 1].body;
        && db.accounts[owner].version == |chain| - 1
        && db.accounts[owner].state == last.statement.nextState
        && db.accounts[owner].latestRequest == last.requestId)
    && (forall m: Word :: (owner, m) in db.markers <==> m != ZERO && MarkerUsed(chain, m))
  }

  ghost predicate Chained(db: Db, owner: Owner) {
    exists chain :: IsChain(db, owner, chain)
  }

  ghost predicate DbOk(db: Db) {
    && db.config.policy.Valid() && db.config.policy.account.Valid()
    && db.config.tuningRevision <= MAX_INTEGER && db.clockFloor <= MAX_INTEGER
    && (forall k | k in db.requests :: StoredOk(db, k, db.requests[k]))
    && (forall k | k in db.markers :: k.0 in db.accounts)
    && (forall owner | owner in db.accounts :: Chained(db, owner))
  }

  ghost predicate Invariant(s: System, o: Authority) {
    && DbOk(s.db)
    && (forall id | id in s.seats :: SeatOk(s.db, o, s.seats[id]))
  }

  /** Nothing stored is ever lost, replaced or turned back. */
  ghost predicate Grows(a: Db, b: Db) {
    && SamePins(a.config, b.config)
    && a.config.tuningRevision <= b.config.tuningRevision
    && a.clockFloor <= b.clockFloor
    && (forall k | k in a.requests :: k in b.requests && b.requests[k] == a.requests[k])
    && (forall k | k in a.checkpoints :: k in b.checkpoints && b.checkpoints[k] == a.checkpoints[k])
    && (forall w | w in a.accounts :: w in b.accounts && b.accounts[w].rootKey == a.accounts[w].rootKey && a.accounts[w].version <= b.accounts[w].version)
    && a.markers <= b.markers
  }

  /* ----- one transaction at a time ----- */

  /** Once the checks pass, signing cannot fail, and the acceptance lies in its statement's
      checkpoint slot and rate window. */
  lemma FreshAcceptanceIsWellFormed(db: Db, h: Handle, request: AccountRequest, grant: AdmissionGrant, device: DeviceAuthorization, at: U64)
    requires h.policy.Valid() && RequestOk(request)
    requires CheckFresh(db, h, request, grant, device, at).Ok?
    ensures AcceptanceOk(AcceptanceFor(h, request, at).body)
    ensures at / h.policy.checkpointPeriodSeconds == request.statement.now / h.policy.checkpointPeriodSeconds
    ensures at / request.statement.policy.rateWindow == request.statement.now / request.statement.policy.rateWindow
  {
    var s := request.statement;
    HorizonIsTheWindowEnd(s.policy, s.now);
  }

  /** `a` is the next link after `chain`, and its request id, time and marker are new. */
  ghost predicate Continues(db: Db, owner: Owner, chain: seq<AccountAcceptance>, a: AccountAcceptance) {
    var s := a.body.statement;
    && s.owner == owner && s.nextVersion == |chain| && (s.genesis <==> chain == [])
    && (chain != [] ==>
          && s.previousVersion == |chain| - 1
          && s.previousState == chain[|chain| - 1].body.statement.nextState)
    && (owner, a.body.requestId) !in db.requests
    && (forall i | 0 <= i < |chain| :: chain[i].body.acceptedAt <= a.body.acceptedAt)
    && (s.settlementMarker != ZERO ==> (owner, s.settlementMarker) !in db.markers)
  }

  lemma LinksContinue(db: Db, after: Db, owner: Owner, chain: seq<AccountAcceptance>, a: AccountAcceptance)
    requires Continues(db, owner, chain, a)
    requires after.requests == db.requests[(owner, a.body.requestId) := a]
    requires forall i | 0 <= i < |chain| :: LinkOk(db, owner, chain, i)
    ensures forall i | 0 <= i < |chain| + 1 :: LinkOk(after, owner, chain + [a], i)
  {
    var longer := chain + [a];
    forall i | 0 <= i < |longer|
      ensures LinkOk(after, owner, longer, i)
    {
      if i < |chain| {
        assert longer[i] == chain[i];
        assert LinkOk(db, owner, chain, i);
      }
    }
  }

  lemma RequestsContinue(db: Db, after: Db, owner: Owner, chain: seq<AccountAcceptance>, a: AccountAcceptance)
    requires after.requests == db.requests[(owner, a.body.requestId) := a]
    requires forall k | k in db.requests && k.0 == owner :: db.requests[k] in chain
    ensures forall k | k in after.requests && k.0 == owner :: after.requests[k] in chain + [a]
  {
    forall k | k in after.requests && k.0 == owner
      ensures after.requests[k] in chain + [a]
    {
      if k != (owner, a.body.requestId) {
        assert db.requests[k] in chain;
      }
    }
  }

  lemma ApartContinues(db: Db, owner: Owner, chain: seq<AccountAcceptance>, a: AccountAcceptance)
    requires Continues(db, owner, chain, a)
    requires forall i | 0 <= i < |chain| :: LinkOk(db, owner, chain, i)
    requires forall i, j | 0 <= i < j < |chain| :: Apart(chain[i], chain[j])
    requires forall m: Word :: (owner, m) in db.markers <==> m != ZERO && MarkerUsed(chain, m)
    ensures forall i, j | 0 <= i < j < |chain| + 1 :: Apart((chain + [a])[i], (chain + [a])[j])
  {
    var longer := chain + [a];
    forall i, j | 0 <= i < j < |longer|
      ensures Apart(longer[i], longer[j])
    {
      assert longer[i] == chain[i];
      if j == |chain| {
        assert LinkOk(db, owner, chain, i);
        assert MarkerUsed(chain, chain[i].body.statement.settlementMarker);
      } else {
        assert longer[j] == chain[j];
      }
    }
  }

  lemma MarkersContinue(db: Db, after: Db, owner: Owner, chain: seq<AccountAcceptance>, a: AccountAcceptance)
    requires var m := a.body.statement.settlementMarker;
             after.markers == if m != ZERO then db.markers + {(owner, m)} else db.markers
    requires forall m: Word :: (owner, m) in db.markers <==> m != ZERO && MarkerUsed(chain, m)
    ensures forall m: Word :: (owner, m) in after.markers <==> m != ZERO && MarkerUsed(chain + [a], m)
  {
    forall m: Word
      ensures (owner, m) in after.markers <==> m != ZERO && MarkerUsed(chain + [a], m)
    {
      MarkersAfter(chain, a, m);
    }
  }

  lemma MarkersAfter(chain: seq<AccountAcceptance>, a: AccountAcceptance, m: Word)
    ensures MarkerUsed(chain + [a], m) <==> MarkerUsed(chain, m) || a.body.statement.settlementMarker == m
  {
    var longer := chain + [a];
    assert longer[|chain|] == a;
    if MarkerUsed(chain, m) {
      var i :| 0 <= i < |chain| && chain[i].body.statement.settlementMarker == m;
      assert longer[i] == chain[i];
    }
    if MarkerUsed(longer, m) && a.body.statement.settlementMarker != m {
      var i :| 0 <= i < |longer| && longer[i].body.statement.settlementMarker == m;
      assert longer[i] == chain[i];
    }
  }

  /** A history only depends on its owner's rows. */
  lemma ChainFrame(db: Db, after: Db, owner: Owner, chain: seq<AccountAcceptance>)
    requires IsChain(db, owner, chain)
    requires owner in after.accounts && after.accounts[owner] == db.accounts[owner]
    requires forall k | k in db.requests && k.0 == owner :: k in after.requests && after.requests[k] == db.requests[k]
    requires forall k | k in after.requests && k.0 == owner :: k in db.requests
    requires forall m: Word :: (owner, m) in db.markers <==> (owner, m) in after.markers
    ensures IsChain(after, owner, chain)
  {
    forall i | 0 <= i < |chain|
      ensures LinkOk(after, owner, chain, i)
    {
      assert LinkOk(db, owner, chain, i);
    }
  }

  /** The owner's history, empty before genesis. */
  lemma HistoryOf(db: Db, owner: Owner) returns (chain: seq<AccountAcceptance>)
    requires DbOk(db)
    ensures owner in db.accounts ==> IsChain(db, owner, chain)
    ensures owner !in db.accounts <==> chain == []
    ensures forall i | 0 <= i < |chain| :: LinkOk(db, owner, chain, i)
    ensures forall i | 0 <= i < |chain| :: chain[i].body.acceptedAt <= db.clockFloor
    ensures forall k | k in db.requests && k.0 == owner :: db.requests[k] in chain
    ensures forall i, j | 0 <= i < j < |chain| :: Apart(chain[i], chain[j])
    ensures forall m: Word :: (owner, m) in db.markers <==> m != ZERO && MarkerUsed(chain, m)
  {
    hide AcceptanceOk, RequestOk;
    if owner in db.accounts {
      assert Chained(db, owner);
      chain :| IsChain(db, owner, chain);
      forall i | 0 <= i < |chain|
        ensures chain[i].body.acceptedAt <= db.clockFloor
      {
        assert LinkOk(db, owner, chain, i);
        var k := (owner, chain[i].body.requestId);
        assert StoredOk(db, k, db.requests[k]);
      }
    } else {
      chain := [];
      assert forall k | k in db.requests :: StoredOk(db, k, db.requests[k]) && k.0 != owner;
    }
  }

  /** The owner's history grows by exactly the new acceptance. */
  lemma WrittenExtendsChain(db: Db, a: AccountAcceptance, rootKey: Word, chain: seq<AccountAcceptance>)
    requires Continues(db, a.body.statement.owner, chain, a)
    requires a.body.statement.genesis ==> a.body.statement.settlementMarker == ZERO
    requires var owner := a.body.statement.owner;
      && (owner in db.accounts <==> chain != [])
      && (forall i | 0 <= i < |chain| :: LinkOk(db, owner, chain, i))
      && (forall k | k in db.requests && k.0 == owner :: db.requests[k] in chain)
      && (forall i, j | 0 <= i < j < |chain| :: Apart(chain[i], chain[j]))
      && (forall m: Word :: (owner, m) in db.markers <==> m != ZERO && MarkerUsed(chain, m))
    ensures IsChain(Written(db, a, rootKey), a.body.statement.owner, chain + [a])
  {
    var owner, after := a.body.statement.owner, Written(db, a, rootKey);
    LinksContinue(db, after, owner, chain, a);
    RequestsContinue(db, after, owner, chain, a);
    ApartContinues(db, owner, chain, a);
    MarkersContinue(db, after, owner, chain, a);
    assert (chain + [a])[|chain|] == a;
  }

  lemma WrittenKeepsOthers(db: Db, a: AccountAcceptance, rootKey: Word, owner: Owner)
    requires owner in db.accounts && owner != a.body.statement.owner && Chained(db, owner)
    ensures Chained(Written(db, a, rootKey), owner)
  {
    var chain :| IsChain(db, owner, chain);
    ChainFrame(db, Written(db, a, rootKey), owner, chain);
  }

  /** What the checks of `CheckFresh` say about the owner's rows. */
  lemma FreshContinues(db: Db, h: Handle, grant: AdmissionGrant, device: DeviceAuthorization, request: AccountRequest, at: U64, chain: seq<AccountAcceptance>)
    requires h.policy.Valid() && RequestOk(request)
    requires db.clockFloor <= at
    requires (request.statement.owner, request.requestId) !in db.requests
    requires CheckFresh(db, h, request, grant, device, at).Ok?
    requires var owner := request.statement.owner;
      && (owner in db.accounts ==> IsChain(db, owner, chain))
      && (owner !in db.accounts ==> chain == [])
      && (forall i | 0 <= i < |chain| :: chain[i].body.acceptedAt <= db.clockFloor)
    ensures Continues(db, request.statement.owner, chain, AcceptanceFor(h, request, at))
    ensures request.statement.genesis <==> request.statement.owner !in db.accounts
    ensures request.statement.genesis ==> request.statement.settlementMarker == ZERO
  {
    hide RequestOk;
    NumberedAsDeclared(request);
    assert CheckPending(db, request, device.rootPublicKey, grant, device, h.policy, at).Ok?;
  }

  lemma NumberedAsDeclared(request: AccountRequest)
    requires RequestOk(request)
    ensures var s := request.statement;
      && (s.genesis ==> s.previousVersion == 0 && s.nextVersion == 0 && s.settlementMarker == ZERO)
      && (!s.genesis ==> s.previousVersion + 1 == s.nextVersion)
  {
  }

  lemma WrittenKeepsStored(db: Db, a: AccountAcceptance, rootKey: Word)
    requires forall k | k in db.requests :: StoredOk(db, k, db.requests[k])
    requires var after := Written(db, a, rootKey);
      && db.clockFloor <= a.body.acceptedAt
      && (a.body.statement.owner in db.accounts || a.body.statement.genesis)
      && StoredOk(after, (a.body.statement.owner, a.body.requestId), a)
    ensures var after := Written(db, a, rootKey);
      forall k | k in after.requests :: StoredOk(after, k, after.requests[k])
  {
    hide AcceptanceOk, RequestOk;
    var after := Written(db, a, rootKey);
    forall k | k in after.requests
      ensures StoredOk(after, k, after.requests[k])
    {
      if k != (a.body.statement.owner, a.body.requestId) {
        assert StoredOk(db, k, db.requests[k]);
      }
    }
  }

  lemma FreshStoredOk(db: Db, h: Handle, grant: AdmissionGrant, device: DeviceAuthorization, request: AccountRequest, at: U64)
    requires db.config.policy.Valid() && HandleOk(db, h) && RequestOk(request)
    requires request.statement.community == h.trust.community
    requires request.statement.genesis || request.statement.owner in db.accounts
    requires at <= MAX_INTEGER
    requires CheckFresh(db, h, request, grant, device, at).Ok?
    ensures StoredOk(Written(db, AcceptanceFor(h, request, at), device.rootPublicKey), (request.statement.owner, request.requestId), AcceptanceFor(h, request, at))
  {
    hide AcceptanceOk, RequestOk;
    FreshAcceptanceIsWellFormed(db, h, request, grant, device, at);
    assert CheckPending(db, request, device.rootPublicKey, grant, device, h.policy, at).Ok?;
  }

  lemma WrittenKeepsDb(db: Db, h: Handle, grant: AdmissionGrant, device: DeviceAuthorization, request: AccountRequest, at: U64)
    requires DbOk(db) && HandleOk(db, h) && RequestOk(request)
    requires request.statement.community == h.trust.community
    requires db.clockFloor <= at <= MAX_INTEGER
    requires (request.statement.owner, request.requestId) !in db.requests
    requires CheckFresh(db, h, request, grant, device, at).Ok?
    ensures var after := Written(db, AcceptanceFor(h, request, at), device.rootPublicKey);
            DbOk(after) && Grows(db, after) && after.config == db.config
  {
    hide CheckFresh, RequestOk, StoredOk, HandleOk, Continues, IsChain, Chained, Grows;
    var s, a := request.statement, AcceptanceFor(h, request, at);
    var after := Written(db, a, device.rootPublicKey);
    var chain := HistoryOf(db, s.owner);
    PinsHold(db, h);
    FreshContinues(db, h, grant, device, request, at, chain);
    FreshStoredOk(db, h, grant, device, request, at);
    WrittenKeepsStored(db, a, device.rootPublicKey);
    WrittenExtendsChain(db, a, device.rootPublicKey, chain);
    WrittenGrows(db, a, device.rootPublicKey, chain);
    forall owner | owner in after.accounts
      ensures Chained(after, owner)
    {
      if owner != s.owner {
        WrittenKeepsOthers(db, a, device.rootPublicKey, owner);
      } else {
        ChainedBy(after, owner, chain + [a]);
      }
    }
  }

  lemma ChainedBy(db: Db, owner: Owner, chain: seq<AccountAcceptance>)
    requires IsChain(db, owner, chain)
    ensures Chained(db, owner)
  {
  }

  lemma WrittenGrows(db: Db, a: AccountAcceptance, rootKey: Word, chain: seq<AccountAcceptance>)
    requires Continues(db, a.body.statement.owner, chain, a)
    requires db.clockFloor <= a.body.acceptedAt
    requires var owner := a.body.statement.owner;
      && (owner in db.accounts ==> IsChain(db, owner, chain))
      && (owner !in db.accounts ==> chain == [])
    ensures Grows(db, Written(db, a, rootKey))
  {
    hide LinkOk;
  }

  lemma PinsHold(db: Db, h: Handle)
    requires HandleOk(db, h)
    ensures h.policy.Valid() && SamePins(db.config, db.config)
  {
  }

  /** The clock floor may move alone. */
  lemma ClockKeepsDb(db: Db, at: U64)
    requires DbOk(db) && db.clockFloor <= at <= MAX_INTEGER
    ensures DbOk(db.(clockFloor := at)) && Grows(db, db.(clockFloor := at))
  {
    var after := db.(clockFloor := at);
    forall k | k in after.requests
      ensures StoredOk(after, k, after.requests[k])
    {
      assert StoredOk(db, k, db.requests[k]);
    }
    OwnersKept(db, after);
  }

  lemma OwnersKept(db: Db, after: Db)
    requires DbOk(db)
    requires after.accounts == db.accounts && after.requests == db.requests && after.markers == db.markers
    ensures forall owner | owner in after.accounts :: Chained(after, owner)
  {
    hide StoredOk;
    forall owner | owner in after.accounts
      ensures Chained(after, owner)
    {
      var chain :| IsChain(db, owner, chain);
      ChainFrame(db, after, owner, chain);
    }
  }

  /** A stored acceptance survives whatever keeps the pins, accounts and roots it mentions. */
  lemma StoredKept(db: Db, after: Db, k: RequestKey, a: AccountAcceptance)
    requires StoredOk(db, k, a)
    requires after.config.policy.Valid() && SamePins(db.config, after.config) && db.clockFloor <= after.clockFloor
    requires db.accounts.Keys <= after.accounts.Keys
    requires forall slot | slot in db.checkpoints :: slot in after.checkpoints && after.checkpoints[slot] == db.checkpoints[slot]
    ensures StoredOk(after, k, a)
  {
    hide AcceptanceOk, RequestOk;
  }

  lemma AdmitKeepsDb(db: Db, h: Handle, slot: U64, root: Word)
    requires DbOk(db) && AdmitCheckpoint(db, h, slot, root).Ok?
    ensures DbOk(AdmitCheckpoint(db, h, slot, root).value) && Grows(db, AdmitCheckpoint(db, h, slot, root).value)
  {
    hide StoredOk, Chained, IsField;
    var after := AdmitCheckpoint(db, h, slot, root).value;
    forall k | k in after.requests
      ensures StoredOk(after, k, after.requests[k])
    {
      assert StoredOk(db, k, db.requests[k]);
      StoredKept(db, after, k, db.requests[k]);
    }
    OwnersKept(db, after);
  }

  /** A tuning commit moves only the waiting period, the revision (by one) and the clock. */
  lemma TuneKeepsDb(db: Db, h: Handle, expected: U64, seconds: U64, before: U64, now: U64)
    requires DbOk(db) && HandleOk(db, h) && UpdateWaitingPeriod(db, h, expected, seconds, before, now).Ok?
    ensures var next := UpdateWaitingPeriod(db, h, expected, seconds, before, now).value;
            && DbOk(next.1) && Grows(db, next.1) && HandleOk(next.1, next.0)
            && next.1.config == db.config.(policy := db.config.policy.Retuned(seconds), tuningRevision := db.config.tuningRevision + 1)
            && next.0.config == next.1.config
  {
    hide StoredOk, Chained;
    var after := UpdateWaitingPeriod(db, h, expected, seconds, before, now).value.1;
    forall k | k in after.requests
      ensures StoredOk(after, k, after.requests[k])
    {
      assert StoredOk(db, k, db.requests[k]);
      StoredKept(db, after, k, db.requests[k]);
    }
    OwnersKept(db, after);
  }

  lemma CommitKeepsDb(db: Db, h: Handle, grant: AdmissionGrant, device: DeviceAuthorization, request: AccountRequest, at: U64)
    requires DbOk(db) && HandleOk(db, h) && RequestOk(request)
    requires request.statement.community == h.trust.community
    requires db.clockFloor <= at <= MAX_INTEGER
    requires CommitAt(db, h, grant, device, request, at).Ok?
    ensures var after := CommitAt(db, h, grant, device, request, at).value.1;
            DbOk(after) && Grows(db, after) && after.config == db.config
  {
    hide DbOk, HandleOk, RequestOk, AcceptanceOk, CheckFresh, Grows;
    PinsHold(db, h);
    if (request.statement.owner, request.requestId) in db.requests {
      ClockKeepsDb(db, at);
    } else {
      WrittenKeepsDb(db, h, grant, device, request, at);
    }
  }

  lemma SeatsKept(a: Db, b: Db, o: Authority, seat: Seat)
    requires Grows(a, b) && SeatOk(a, o, seat)
    ensures SeatOk(b, o, seat)
  {
    hide PendingOk;
  }

  ghost predicate Kept(s: System, o: Authority, after: System) {
    Invariant(after, o) && Grows(s.db, after.db)
  }

  lemma Unmoved(db: Db)
    requires DbOk(db)
    ensures Grows(db, db)
  {
    hide StoredOk;
  }

  /** Tables moved, seats did not. */
  lemma AllSeatsKept(s: System, o: Authority, after: System)
    requires Invariant(s, o) && DbOk(after.db) && Grows(s.db, after.db)
    requires after.seats.Keys <= s.seats.Keys
    requires forall id | id in after.seats :: after.seats[id] == s.seats[id] || SeatOk(after.db, o, after.seats[id])
    ensures Kept(s, o, after)
  {
    hide DbOk, Grows, SeatOk;
    forall id | id in after.seats
      ensures SeatOk(after.db, o, after.seats[id])
    {
      if after.seats[id] == s.seats[id] {
        SeatsKept(s.db, after.db, o, s.seats[id]);
      }
    }
  }

  lemma BeginKeeps(s: System, o: Authority, event: Event)
    requires Invariant(s, o) && Enabled(s, event.step) && event.step.BeginStep?
    ensures Kept(s, o, Perform(s, o, event).0)
  {
    hide CheckCaller, CheckFresh, Retry, DbOk, Grows, HandleOk;
    var e, id := event.step, event.step.id;
    var h := s.seats[id].handle;
    assert SeatOk(s.db, o, s.seats[id]);
    Unmoved(s.db);
    var r := BeginApply(s.db, h, o, e.grant, e.device, e.request, e.before, e.now);
    if r.Ok? && r.value.Some? {
      ClockMoves(s.db, e.now, e.before);
    } else if r.Ok? {
      CallerLater(h, o, e.grant, e.device, e.request, e.before, e.now);
    }
    AllSeatsKept(s, o, Perform(s, o, event).0);
  }

  lemma ClockMoves(db: Db, now: U64, other: U64)
    requires DbOk(db) && CheckTime(now, Max(db.clockFloor, other)).Ok?
    ensures DbOk(db.(clockFloor := now)) && Grows(db, db.(clockFloor := now))
  {
    hide StoredOk, Chained;
    ClockKeepsDb(db, now);
  }

  /** A caller accepted at one reading and still authorized at a later one is accepted there too. */
  lemma CallerLater(h: Handle, o: Authority, grant: AdmissionGrant, device: DeviceAuthorization, request: AccountRequest, before: U64, now: U64)
    requires CheckCaller(h, o, grant, device, request, before).Ok?
    requires before <= now <= MAX_INTEGER && o.VerifyBoth(grant, device, now).Ok?
    ensures CheckCaller(h, o, grant, device, request, now).Ok?
  {
    hide RequestOk;
  }

  lemma FinishKeeps(s: System, o: Authority, event: Event)
    requires Invariant(s, o) && Enabled(s, event.step) && event.step.FinishStep?
    ensures Kept(s, o, Perform(s, o, event).0)
  {
    hide CommitAt, DbOk, Grows, HandleOk, RequestOk;
    var e, id := event.step, event.step.id;
    var h, p := s.seats[id].handle, s.seats[id].pending.value;
    assert SeatOk(s.db, o, s.seats[id]);
    Unmoved(s.db);
    if FinishApply(s.db, h, o, p.grant, p.device, p.request, p.now, e.completed).Ok? {
      CommitKeepsDb(s.db, h, p.grant, p.device, p.request, e.completed);
    }
    var after := Perform(s, o, event).0;
    assert Grows(s.db, after.db);
    SeatsKept(s.db, after.db, o, Seat(h, None));
    AllSeatsKept(s, o, after);
  }

  lemma AtomicKeeps(s: System, o: Authority, event: Event)
    requires Invariant(s, o) && Enabled(s, event.step) && event.step.AtomicStep?
    ensures Kept(s, o, Perform(s, o, event).0)
  {
    hide CommitAt, Retry, DbOk, Grows, HandleOk, RequestOk;
    var e, id := event.step, event.step.id;
    var h := s.seats[id].handle;
    assert SeatOk(s.db, o, s.seats[id]);
    Unmoved(s.db);
    if AtomicApply(s.db, h, o, e.grant, e.device, e.request, e.before, e.now).Ok? {
      CommitKeepsDb(s.db, h, e.grant, e.device, e.request, e.now);
    }
    AllSeatsKept(s, o, Perform(s, o, event).0);
  }

  lemma StatusKeeps(s: System, o: Authority, event: Event)
    requires Invariant(s, o) && Enabled(s, event.step) && event.step.StatusStep?
    ensures Kept(s, o, Perform(s, o, event).0)
  {
    hide DbOk, Grows, HandleOk, StatusRequestOk, StatusBodyOk, Cached;
    var e, id := event.step, event.step.id;
    Unmoved(s.db);
    if Status(s.db, s.seats[id].handle, o, e.grant, e.device, e.query, e.before, e.now).Ok? {
      ClockMoves(s.db, e.now, e.before);
    }
    AllSeatsKept(s, o, Perform(s, o, event).0);
  }

  lemma TuneKeeps(s: System, o: Authority, event: Event)
    requires Invariant(s, o) && Enabled(s, event.step) && event.step.TuneStep?
    ensures Kept(s, o, Perform(s, o, event).0)
  {
    hide DbOk, Grows, HandleOk, UpdateWaitingPeriod;
    var e, id := event.step, event.step.id;
    assert SeatOk(s.db, o, s.seats[id]);
    Unmoved(s.db);
    if UpdateWaitingPeriod(s.db, s.seats[id].handle, e.expectedRevision, e.seconds, e.before, e.now).Ok? {
      TuneKeepsDb(s.db, s.seats[id].handle, e.expectedRevision, e.seconds, e.before, e.now);
    }
    AllSeatsKept(s, o, Perform(s, o, event).0);
  }

  lemma AdministrationKeeps(s: System, o: Authority, event: Event)
    requires Invariant(s, o) && Enabled(s, event.step)
    requires event.step.AdmitStep? || event.step.CloseStep? || event.step.OpenStep? || event.step.ReloadStep?
    ensures Kept(s, o, Perform(s, o, event).0)
  {
    hide DbOk, Grows, AdmitCheckpoint, Open, ReloadPolicy, HandleOk;
    var step := event.step;
    Unmoved(s.db);
    if step.AdmitStep? {
      if AdmitCheckpoint(s.db, s.seats[step.id].handle, step.slot, step.root).Ok? {
        AdmitKeepsDb(s.db, s.seats[step.id].handle, step.slot, step.root);
      }
      AllSeatsKept(s, o, Perform(s, o, event).0);
    } else if step.OpenStep? {
      OpenedOk(s.db, step.trust, step.policy, step.scope, step.operatorKey);
      assert forall id | id in Perform(s, o, event).0.seats :: SeatOk(s.db, o, Perform(s, o, event).0.seats[id]);
    } else if step.ReloadStep? {
      assert SeatOk(s.db, o, s.seats[step.id]);
      ReloadedOk(s.db, s.seats[step.id].handle);
      AllSeatsKept(s, o, Perform(s, o, event).0);
    } else {
      AllSeatsKept(s, o, Perform(s, o, event).0);
    }
  }

  lemma OpenedOk(db: Db, trust: Trust, policy: LedgerPolicy, scope: ProofScope, operatorKey: Word)
    ensures Open(db, trust, policy, scope, operatorKey).Ok? ==> HandleOk(db, Open(db, trust, policy, scope, operatorKey).value)
  {
  }

  /** In every reachable state a handle may reload: it lands on exactly the stored configuration. */
  lemma ReloadedOk(db: Db, h: Handle)
    requires DbOk(db) && HandleOk(db, h)
    ensures ReloadPolicy(db, h).Ok?
    ensures HandleOk(db, ReloadPolicy(db, h).value) && ReloadPolicy(db, h).value.config == db.config
  {
    hide Chained, StoredOk;
  }

  lemma NextKeeps(s: System, o: Authority, event: Event)
    requires Invariant(s, o)
    ensures Kept(s, o, Next(s, o, event).0)
  {
    hide DbOk, Grows, SeatOk, Perform;
    Unmoved(s.db);
    if Enabled(s, event.step) {
      match event.step {
        case BeginStep(_, _, _, _, _, _) => BeginKeeps(s, o, event);
        case FinishStep(_, _) => FinishKeeps(s, o, event);
        case AtomicStep(_, _, _, _, _, _) => AtomicKeeps(s, o, event);
        case StatusStep(_, _, _, _, _, _) => StatusKeeps(s, o, event);
        case TuneStep(_, _, _, _, _) => TuneKeeps(s, o, event);
        case _ => AdministrationKeeps(s, o, event);
      }
    }
  }

  lemma GrowsOn(a: Db, b: Db, c: Db)
    requires Grows(a, b) && Grows(b, c)
    ensures Grows(a, c)
  {
  }

  lemma {:induction false} RunKeeps(s: System, o: Authority, events: seq<Event>)
    requires Invariant(s, o)
    ensures Kept(s, o, Run(s, o, events))
    decreases |events|
  {
    hide DbOk, Grows, SeatOk, Next;
    if events == [] {
      Unmoved(s.db);
    } else {
      var next := Next(s, o, events[0]).0;
      NextKeeps(s, o, events[0]);
      RunKeeps(next, o, events[1..]);
      GrowsOn(s.db, next.db, Run(next, o, events[1..]).db);
    }
  }
}
