/** What a client, an operator and an administrator may rely on, over every run of the ledger. */
module LedgerTheorems {
  import opened Basics
  import opened AccountingPolicy
  import opened Accounting
  import opened AccountLedgers
  import opened LedgerRuns

  /* ----- histories ----- */

  /** Whatever the handles do, every owner with an account has one acceptance per version, linked
      state to state, and its markers are the history's; nobody else has any row. */
  lemma EveryHistoryIsAChain(
    trust: Trust, policy: LedgerPolicy, scope: ProofScope, operatorKey: Word, o: Authority, events: seq<Event>)
    requires Create(trust, policy, scope, operatorKey).Ok?
    ensures var db := Run(System(Create(trust, policy, scope, operatorKey).value.1, map[]), o, events).db;
      && (forall owner | owner in db.accounts :: Chained(db, owner))
      && (forall k | k in db.requests :: StoredOk(db, k, db.requests[k]))
      && (forall k | k in db.markers :: k.0 in db.accounts)
      && db.config.trust == trust && db.config.operatorKey == operatorKey && db.config.proofScope == scope
  {
    var start := System(Create(trust, policy, scope, operatorKey).value.1, map[]);
    assert Invariant(start, o);
    RunKeeps(start, o, events);
  }

  /** A fresh commit opens the owner's account or continues its row under the row's root key, with
      an unused marker, under the root of its slot and the stored policy, within every deadline, and
      stays inside its statement's checkpoint slot and rate window. */
  lemma FreshCommitMeetsItsState(s: System, o: Authority, id: nat, completed: U64)
    requires Invariant(s, o) && Checking(s, id)
    requires var p := s.seats[id].pending.value;
      && FinishApply(s.db, s.seats[id].handle, o, p.grant, p.device, p.request, p.now, completed).Ok?
      && (p.request.statement.owner, p.request.requestId) !in s.db.requests
    ensures var p := s.seats[id].pending.value;
      var a := FinishApply(s.db, s.seats[id].handle, o, p.grant, p.device, p.request, p.now, completed).value.0;
      var period := s.db.config.policy.checkpointPeriodSeconds;
      var st := a.body.statement;
      && a.body.requestDigest == RequestSha256(p.request) && st == p.request.statement
      && o.proves(st, p.request.proof)
      && s.seats[id].handle.config == s.db.config
      && st.policy == s.db.config.policy.account
      && (st.genesis <==> st.owner !in s.db.accounts)
      && (st.owner in s.db.accounts ==>
            var row := s.db.accounts[st.owner];
            row.rootKey == p.device.rootPublicKey && row.version == st.previousVersion && row.state == st.previousState)
      && (st.settlementMarker != ZERO ==> (st.owner, st.settlementMarker) !in s.db.markers)
      && st.now / period in s.db.checkpoints && s.db.checkpoints[st.now / period] == st.enrollmentRoot
      && p.request.expiresAt - p.request.issuedAt <= s.db.config.policy.maxAuthorizationSeconds
      && p.request.issuedAt <= completed < p.request.expiresAt
      && p.request.expiresAt <= Min(Min(p.grant.expiresAt, p.device.expiresAt), st.policy.policyValidUntil)
      && a.body.acceptedAt == completed
      && completed / period == st.now / period
      && completed / st.policy.rateWindow == st.now / st.policy.rateWindow
  {
    hide DbOk, RequestOk, AcceptanceOk;
    var h, p := s.seats[id].handle, s.seats[id].pending.value;
    assert SeatOk(s.db, o, s.seats[id]);
    FreshAcceptanceIsWellFormed(s.db, h, p.request, p.grant, p.device, completed);
  }

  /** Once stored, an acceptance is what every later authorized presentation of its request gets,
      from any handle and in any state of any continuation; another request under its id never does. */
  lemma PresentedAgain(
    s: System, o: Authority, events: seq<Event>, h: Handle,
    grant: AdmissionGrant, device: DeviceAuthorization, request: AccountRequest, before: U64, now: U64)
    requires Invariant(s, o)
    requires (request.statement.owner, request.requestId) in s.db.requests
    requires var db := Run(s, o, events).db;
      && HandleOk(db, h)
      && CheckCaller(h, o, grant, device, request, before).Ok?
      && CheckTime(now, Max(db.clockFloor, before)).Ok?
      && o.VerifyBoth(grant, device, now).Ok?
    ensures var db := Run(s, o, events).db;
      var stored := s.db.requests[(request.statement.owner, request.requestId)];
      BeginApply(db, h, o, grant, device, request, before, now)
      == if RequestSha256(request) == stored.body.requestDigest
         then Ok(Some((stored, db.(clockFloor := now)))) else Err(Replay)
  {
    hide CheckCaller, Run, DbOk, HandleOk, BeginApply;
    RunKeeps(s, o, events);
    StoredAnswers(Run(s, o, events).db, h, o, grant, device, request, before, now);
  }

  /** The same for a presentation that was already between its two transactions when another handle
      stored the id: with credentials still good, its second transaction answers the same. */
  lemma PresentedMidway(s: System, o: Authority, events: seq<Event>, t: System, id: nat, completed: U64)
    requires Invariant(s, o) && t == Run(s, o, events)
    requires Checking(t, id) && StillGood(t.db, o, t.seats[id].pending.value, completed)
    requires KeyOf(t.seats[id].pending.value) in s.db.requests
    ensures var h, p := t.seats[id].handle, t.seats[id].pending.value;
      FinishApply(t.db, h, o, p.grant, p.device, p.request, p.now, completed)
      == Settled(s.db.requests[KeyOf(p)], p, t.db, completed)
  {
    hide Run, Invariant, DbOk, HandleOk, FinishApply, StillGood, KeyOf, Grows;
    RunKeeps(s, o, events);
    InvariantParts(t, o, id);
    RequestKept(s.db, t.db, KeyOf(t.seats[id].pending.value));
    StoredFinishes(t.db, t.seats[id].handle, o, t.seats[id].pending.value, completed);
  }

  function KeyOf(p: Pending): RequestKey {
    (p.request.statement.owner, p.request.requestId)
  }

  /** The clock is accepted and the credentials are still good when the proof has been checked. */
  predicate StillGood(db: Db, o: Authority, p: Pending, completed: U64) {
    && CheckTime(completed, Max(db.clockFloor, p.now)).Ok?
    && completed < p.grant.expiresAt && completed < p.device.expiresAt
    && o.VerifyBoth(p.grant, p.device, completed).Ok?
  }

  /** The stored acceptance for the identical request, a replay for any other. */
  function Settled(stored: AccountAcceptance, p: Pending, db: Db, completed: U64): Result<(AccountAcceptance, Db)> {
    if RequestSha256(p.request) == stored.body.requestDigest then Ok((stored, db.(clockFloor := completed))) else Err(Replay)
  }

  lemma InvariantParts(s: System, o: Authority, id: nat)
    requires Invariant(s, o) && id in s.seats
    ensures DbOk(s.db) && HandleOk(s.db, s.seats[id].handle)
  {
    hide DbOk, HandleOk, PendingOk;
    assert SeatOk(s.db, o, s.seats[id]);
  }

  lemma RequestKept(a: Db, b: Db, k: RequestKey)
    requires Grows(a, b) && k in a.requests
    ensures k in b.requests && b.requests[k] == a.requests[k]
  {
  }

  lemma StoredFinishes(db: Db, h: Handle, o: Authority, p: Pending, completed: U64)
    requires DbOk(db) && HandleOk(db, h) && KeyOf(p) in db.requests && StillGood(db, o, p, completed)
    ensures FinishApply(db, h, o, p.grant, p.device, p.request, p.now, completed) == Settled(db.requests[KeyOf(p)], p, db, completed)
  {
    hide AcceptanceOk, RequestOk, CheckFresh, DbOk, StoredOk;
    StoredRowPasses(db, h, KeyOf(p));
  }

  lemma StoredAnswers(db: Db, h: Handle, o: Authority, grant: AdmissionGrant, device: DeviceAuthorization, request: AccountRequest, before: U64, now: U64)
    requires DbOk(db) && HandleOk(db, h)
    requires (request.statement.owner, request.requestId) in db.requests
    requires CheckCaller(h, o, grant, device, request, before).Ok?
    requires CheckTime(now, Max(db.clockFloor, before)).Ok? && o.VerifyBoth(grant, device, now).Ok?
    ensures var stored := db.requests[(request.statement.owner, request.requestId)];
      BeginApply(db, h, o, grant, device, request, before, now)
      == if RequestSha256(request) == stored.body.requestDigest
         then Ok(Some((stored, db.(clockFloor := now)))) else Err(Replay)
  {
    hide CheckCaller, AcceptanceOk, RequestOk, CheckFresh;
    var k := (request.statement.owner, request.requestId);
    assert StoredOk(db, k, db.requests[k]);
  }

  /** A reachable ledger never fails a well-formed, authorized, timely status query on its own
      rows, and the member's verifier accepts the reply. Without an id the reply is the
      acceptance that the account row records; with one it is the acceptance stored under it. */
  lemma StatusTellsTheTruth(
    db: Db, h: Handle, o: Authority, grant: AdmissionGrant, device: DeviceAuthorization, query: AccountStatusRequest,
    before: U64, now: U64)
    requires DbOk(db) && HandleOk(db, h)
    requires StatusRequestOk(query) && query.community == h.trust.community
    requires grant.memberId == query.owner && query.chatPublicKey == grant.chatPublicKey
    requires query.expiresAt - query.issuedAt <= h.policy.maxAuthorizationSeconds
    requires CheckTime(before, 0).Ok? && o.VerifyBoth(grant, device, before).Ok? && o.signedStatus(query)
    requires CheckTime(now, Max(before, db.clockFloor)).Ok? && o.VerifyBoth(grant, device, now).Ok?
    requires query.issuedAt <= now < query.expiresAt
    ensures Status(db, h, o, grant, device, query, before, now).Ok?
    ensures var reply := Status(db, h, o, grant, device, query, before, now).value.0;
      && VerifyStatusResponse(reply, query, db.config.operatorKey).Ok?
      && (query.requestId.None? ==> (reply.body.acceptance.Some? <==> query.owner in db.accounts))
      && (query.requestId.None? && query.owner in db.accounts ==>
            var st := reply.body.acceptance.value.body.statement;
            && st.nextVersion == db.accounts[query.owner].version
            && st.nextState == db.accounts[query.owner].state)
      && (query.requestId.Some? ==>
            reply.body.acceptance == if (query.owner, query.requestId.value) in db.requests
                                     then Some(db.requests[(query.owner, query.requestId.value)]) else None)
  {
    hide StatusRequestOk, AcceptanceOk, RequestOk, StatementOk, DbOk, StoredOk;
    if query.requestId.Some? {
      var k := (query.owner, query.requestId.value);
      if k in db.requests {
        StoredRowPasses(db, h, k);
      }
    } else if query.owner in db.accounts {
      LatestIsStored(db, query.owner);
      StoredRowPasses(db, h, (query.owner, db.accounts[query.owner].latestRequest));
    }
  }

  /** A stored acceptance passes the re-check, names its own key, and was not accepted in the future. */
  lemma StoredRowPasses(db: Db, h: Handle, k: RequestKey)
    requires DbOk(db) && HandleOk(db, h) && k in db.requests
    ensures var a := db.requests[k];
      && Cached(db, k.0, k.1, h.operatorKey) == Ok(Some(a))
      && AcceptanceOk(a.body) && a.body.acceptedAt <= db.clockFloor
      && a.body.statement.owner == k.0 && a.body.requestId == k.1
      && a.body.statement.community == h.trust.community && h.operatorKey == db.config.operatorKey
      && a.signature == AcceptanceSigned(db.config.operatorKey, a.body)
  {
    hide AcceptanceOk, RequestOk, Chained;
    assert StoredOk(db, k, db.requests[k]);
  }

  /** The request the account row names is stored, and its statement is the row's. */
  lemma LatestIsStored(db: Db, owner: Owner)
    requires DbOk(db) && owner in db.accounts
    ensures var k := (owner, db.accounts[owner].latestRequest);
      && k in db.requests
      && db.requests[k].body.statement.nextVersion == db.accounts[owner].version
      && db.requests[k].body.statement.nextState == db.accounts[owner].state
  {
    hide StoredOk, AcceptanceOk, RequestOk;
    var chain := HistoryOf(db, owner);
    assert LinkOk(db, owner, chain, |chain| - 1);
  }

  /* ----- tuning ----- */

  /** The waiting period that this event committed, if any. */
  function TunedBy(s: System, event: Event): seq<U64> {
    if !Enabled(s, event.step) || !event.step.TuneStep? then []
    else
      var e := event.step;
      if UpdateWaitingPeriod(s.db, s.seats[e.id].handle, e.expectedRevision, e.seconds, e.before, e.now).Ok? then [e.seconds] else []
  }

  /** Every committed waiting period of a run, oldest first, including those whose reply was lost. */
  function Tunings(s: System, o: Authority, events: seq<Event>): seq<U64>
    decreases |events|
  {
    if events == [] then [] else TunedBy(s, events[0]) + Tunings(Next(s, o, events[0]).0, o, events[1..])
  }

  lemma NextTunes(s: System, o: Authority, event: Event)
    requires Invariant(s, o)
    ensures var c, d := s.db.config, Next(s, o, event).0.db.config;
      d == if TunedBy(s, event) == [] then c
           else c.(policy := c.policy.Retuned(TunedBy(s, event)[0]), tuningRevision := c.tuningRevision + 1)
  {
    hide UpdateWaitingPeriod, FinishApply, AtomicApply, BeginApply, Status, Open, ReloadPolicy, AdmitCheckpoint, DbOk, HandleOk;
    if !Enabled(s, event.step) {
    } else if event.step.TuneStep? {
      var e := event.step;
      assert SeatOk(s.db, o, s.seats[e.id]);
      if TunedBy(s, event) != [] {
        TuneKeepsDb(s.db, s.seats[e.id].handle, e.expectedRevision, e.seconds, e.before, e.now);
      }
    } else {
      ConfigUntouched(s, o, event);
    }
  }

  lemma ConfigUntouched(s: System, o: Authority, event: Event)
    requires Enabled(s, event.step) && !event.step.TuneStep?
    ensures Perform(s, o, event).0.db.config == s.db.config
  {
    hide FinishApply, AtomicApply, BeginApply, Status, Open, ReloadPolicy;
    match event.step {
      case BeginStep(id, grant, device, request, before, now) =>
        BeginKeepsConfig(s.db, s.seats[id].handle, o, grant, device, request, before, now);
      case FinishStep(id, completed) =>
        var p := s.seats[id].pending.value;
        FinishKeepsConfig(s.db, s.seats[id].handle, o, p.grant, p.device, p.request, p.now, completed);
      case AtomicStep(id, grant, device, request, before, now) =>
        AtomicKeepsConfig(s.db, s.seats[id].handle, o, grant, device, request, before, now);
      case StatusStep(id, grant, device, query, before, now) =>
        StatusKeepsConfig(s.db, s.seats[id].handle, o, grant, device, query, before, now);
      case _ =>
    }
  }

  lemma BeginKeepsConfig(db: Db, h: Handle, o: Authority, g: AdmissionGrant, d: DeviceAuthorization, r: AccountRequest, before: U64, now: U64)
    requires h.policy.Valid()
    ensures var done := BeginApply(db, h, o, g, d, r, before, now);
            done.Ok? && done.value.Some? ==> done.value.value.1.config == db.config
  {
    hide CheckCaller, CheckFresh, Retry;
  }

  lemma FinishKeepsConfig(db: Db, h: Handle, o: Authority, g: AdmissionGrant, d: DeviceAuthorization, r: AccountRequest, now: U64, at: U64)
    requires h.policy.Valid()
    ensures var done := FinishApply(db, h, o, g, d, r, now, at);
            done.Ok? ==> done.value.1.config == db.config
  {
    hide CheckFresh, Retry, AcceptanceOk;
  }

  lemma AtomicKeepsConfig(db: Db, h: Handle, o: Authority, g: AdmissionGrant, d: DeviceAuthorization, r: AccountRequest, before: U64, at: U64)
    requires h.policy.Valid()
    ensures var done := AtomicApply(db, h, o, g, d, r, before, at);
            done.Ok? ==> done.value.1.config == db.config
  {
    hide CheckCaller, CheckFresh, Retry, AcceptanceOk;
  }

  lemma StatusKeepsConfig(db: Db, h: Handle, o: Authority, g: AdmissionGrant, d: DeviceAuthorization, q: AccountStatusRequest, before: U64, now: U64)
    ensures var done := Status(db, h, o, g, d, q, before, now);
            done.Ok? ==> done.value.1.config == db.config
  {
    hide Cached, StatusBodyOk, StatusRequestOk;
  }

  /** No update is lost: the stored revision counts the committed updates, the stored waiting
      period is the last one committed, and everything else about the configuration is pinned. */
  lemma {:induction false} RevisionCountsTunings(s: System, o: Authority, events: seq<Event>)
    requires Invariant(s, o)
    ensures var c, d, t := s.db.config, Run(s, o, events).db.config, Tunings(s, o, events);
      && d.tuningRevision == c.tuningRevision + |t|
      && d == c.(policy := if t == [] then c.policy else c.policy.Retuned(t[|t| - 1]), tuningRevision := d.tuningRevision)
    decreases |events|
  {
    hide Next, DbOk, SeatOk, Grows, TunedBy;
    if events != [] {
      var next := Next(s, o, events[0]).0;
      NextTunes(s, o, events[0]);
      NextKeeps(s, o, events[0]);
      RevisionCountsTunings(next, o, events[1..]);
      AtMostOneTuning(s, events[0]);
      var first, rest := TunedBy(s, events[0]), Tunings(next, o, events[1..]);
      assert Run(s, o, events) == Run(next, o, events[1..]);
      if rest != [] {
        assert (first + rest)[|first + rest| - 1] == rest[|rest| - 1];
      }
    }
  }

  lemma AtMostOneTuning(s: System, event: Event)
    ensures |TunedBy(s, event)| <= 1
  {
  }

  /** Every configuration a run ever stores binds the same state policy, in every handle too. */
  lemma OneStatePolicy(s: System, o: Authority, events: seq<Event>, id: nat)
    requires Invariant(s, o) && id in Run(s, o, events).seats
    ensures var p := s.db.config.policy.account;
      var q := Run(s, o, events).db.config.policy.account;
      var r := Run(s, o, events).seats[id].handle.policy.account;
      q == p.Retuned(q.abandonAfter) && r == p.Retuned(r.abandonAfter)
  {
    hide DbOk, Run;
    RunKeeps(s, o, events);
    assert SeatOk(Run(s, o, events).db, o, Run(s, o, events).seats[id]);
  }

  /* ----- the lock is released, and nobody can tell ----- */

  /** The same system with every proof check in progress forgotten. */
  function Erase(s: System): System {
    s.(seats := map id | id in s.seats :: Seat(s.seats[id].handle, None))
  }

  /** The atomic call a transaction stands for: none while it only releases the lock. */
  function Linear(s: System, o: Authority, event: Event): seq<Event> {
    if !Enabled(s, event.step) then []
    else
      match event.step
      case BeginStep(id, grant, device, request, before, now) =>
        if BeginApply(s.db, s.seats[id].handle, o, grant, device, request, before, now) == Ok(None) then []
        else [Event(AtomicStep(id, grant, device, request, before, now), event.lost)]
      case FinishStep(id, completed) =>
        var p := s.seats[id].pending.value;
        [Event(AtomicStep(id, p.grant, p.device, p.request, p.now, completed), event.lost)]
      case _ => [event]
  }

  function Linearized(s: System, o: Authority, events: seq<Event>): seq<Event>
    decreases |events|
  {
    if events == [] then [] else Linear(s, o, events[0]) + Linearized(Next(s, o, events[0]).0, o, events[1..])
  }

  /** The credentials have run out by the time the proof was checked, on a clock that is otherwise
      accepted. Only here do the two forms of `apply` answer differently. */
  predicate Lapsed(db: Db, p: Pending, completed: U64) {
    && CheckTime(completed, Max(db.clockFloor, p.now)).Ok?
    && (p.grant.expiresAt <= completed || p.device.expiresAt <= completed)
  }

  /** This event is a second transaction whose credentials have lapsed, and its reply arrives. */
  predicate LapsedStep(s: System, event: Event) {
    && Enabled(s, event.step) && event.step.FinishStep? && !event.lost
    && Lapsed(s.db, s.seats[event.step.id].pending.value, event.step.completed)
  }

  /** For every reply of a run, whether it answers a lapsed second transaction. */
  function Lapses(s: System, o: Authority, events: seq<Event>): seq<bool>
    decreases |events|
  {
    if events == [] then []
    else
      var done := Next(s, o, events[0]);
      (if done.1 == Silent then [] else [LapsedStep(s, events[0])]) + Lapses(done.0, o, events[1..])
  }

  /** Equal exactly where nothing lapsed, and expired against not admitted where it did. */
  predicate AgreeExcept(split: seq<Reply>, atomic: seq<Reply>, lapses: seq<bool>) {
    && |split| == |atomic| == |lapses|
    && (forall i | 0 <= i < |split| :: split[i] == atomic[i] <==> !lapses[i])
    && (forall i | 0 <= i < |split| && lapses[i] :: split[i] == Refused(Expired) && atomic[i] == Refused(Admission))
  }

  lemma BeginIsAtomic(db: Db, h: Handle, o: Authority, grant: AdmissionGrant, device: DeviceAuthorization, request: AccountRequest, before: U64, now: U64)
    requires h.policy.Valid()
    ensures match BeginApply(db, h, o, grant, device, request, before, now)
            case Ok(Some(done)) => AtomicApply(db, h, o, grant, device, request, before, now) == Ok(done)
            case Ok(None) => AtomicApply(db, h, o, grant, device, request, before, now).Ok?
            case Err(e) => AtomicApply(db, h, o, grant, device, request, before, now) == Err(e)
  {
    hide RequestOk, AcceptanceOk, CheckFresh, Retry;
    if CheckCaller(h, o, grant, device, request, before).Ok? && CheckFresh(db, h, request, grant, device, now).Ok? {
      FreshAcceptanceIsWellFormed(db, h, request, grant, device, now);
    }
  }

  lemma FinishIsAtomic(db: Db, h: Handle, o: Authority, p: Pending, completed: U64)
    requires h.policy.Valid() && PendingOk(h, o, p)
    ensures var split := FinishApply(db, h, o, p.grant, p.device, p.request, p.now, completed);
      var atomic := AtomicApply(db, h, o, p.grant, p.device, p.request, p.now, completed);
      && (split == atomic <==> !Lapsed(db, p, completed))
      && (Lapsed(db, p, completed) ==> split == Err(Expired) && atomic == Err(Admission))
  {
    hide RequestOk, CommitAt, Retry;
    CommitFailsAsRetry(db, h, p, completed);
  }

  lemma CommitFailsAsRetry(db: Db, h: Handle, p: Pending, at: U64)
    requires h.policy.Valid()
    ensures Retry(db, h, p.request).Err? ==>
              CommitAt(db, h, p.grant, p.device, p.request, at) == Err(Retry(db, h, p.request).error)
  {
    hide Retry;
  }

  lemma EraseMoved(s: System, id: nat, h: Handle, db: Db)
    ensures Erase(Moved(s.(db := db), id, h)) == Moved(Erase(s).(db := db), id, h)
    ensures Erase(s.(db := db)) == Erase(s).(db := db)
    ensures id in s.seats ==> Moved(Erase(s), id, s.seats[id].handle) == Erase(s)
  {
  }

  lemma BeginRefines(s: System, o: Authority, event: Event)
    requires Enabled(s, event.step) && event.step.BeginStep?
    ensures Refines(s, o, event)
  {
    hide BeginApply, AtomicApply;
    var e, id := event.step, event.step.id;
    var h := s.seats[id].handle;
    BeginIsAtomic(s.db, h, o, e.grant, e.device, e.request, e.before, e.now);
    match BeginApply(s.db, h, o, e.grant, e.device, e.request, e.before, e.now) {
      case Ok(None) =>
        var seat := s.seats[id].(pending := Some(Pending(e.grant, e.device, e.request, e.now)));
        assert Erase(s.(seats := s.seats[id := seat])) == Erase(s);
      case Ok(Some(done)) => EraseMoved(s, id, h, done.1);
      case Err(_) =>
    }
  }

  lemma FinishRefines(s: System, o: Authority, event: Event)
    requires Invariant(s, o) && Enabled(s, event.step) && event.step.FinishStep?
    ensures Refines(s, o, event)
  {
    hide FinishApply, AtomicApply, PendingOk, DbOk, HandleOk;
    var id := event.step.id;
    var h, p := s.seats[id].handle, s.seats[id].pending.value;
    assert SeatOk(s.db, o, s.seats[id]);
    FinishIsAtomic(s.db, h, o, p, event.step.completed);
    EraseMoved(s, id, h, s.db);
    match FinishApply(s.db, h, o, p.grant, p.device, p.request, p.now, event.step.completed) {
      case Ok(done) => EraseMoved(s, id, h, done.1);
      case Err(_) =>
    }
  }

  lemma QueriesRefine(s: System, o: Authority, event: Event)
    requires Enabled(s, event.step) && (event.step.StatusStep? || event.step.AdmitStep? || event.step.AtomicStep?)
    ensures Refines(s, o, event)
  {
    hide AtomicApply, Status, AdmitCheckpoint;
    EraseMoved(s, event.step.id, s.seats[event.step.id].handle, Perform(s, o, event).0.db);
  }

  lemma ConfigurationRefines(s: System, o: Authority, event: Event)
    requires Enabled(s, event.step) && (event.step.TuneStep? || event.step.ReloadStep? || event.step.OpenStep?)
    ensures Refines(s, o, event)
  {
    hide UpdateWaitingPeriod, ReloadPolicy, Open;
    var id, after := event.step.id, Perform(s, o, event).0;
    if id in after.seats {
      EraseMoved(s, id, after.seats[id].handle, after.db);
    }
  }

  lemma CloseRefines(s: System, o: Authority, event: Event)
    requires event.step.CloseStep?
    ensures Refines(s, o, event)
  {
    assert Erase(Perform(s, o, event).0) == Erase(s).(seats := Erase(s).seats - {event.step.id});
  }

  ghost predicate Refines(s: System, o: Authority, event: Event) {
    var after, reply, linear := Next(s, o, event).0, Next(s, o, event).1, Linear(s, o, event);
    if linear == [] then Erase(after) == Erase(s) && reply == Silent
    else
      && |linear| == 1
      && Next(Erase(s), o, linear[0]).0 == Erase(after)
      && reply != Silent && Next(Erase(s), o, linear[0]).1 != Silent
      && (reply == Next(Erase(s), o, linear[0]).1 <==> !LapsedStep(s, event))
      && (LapsedStep(s, event) ==> reply == Refused(Expired) && Next(Erase(s), o, linear[0]).1 == Refused(Admission))
  }

  lemma StepRefines(s: System, o: Authority, event: Event)
    requires Invariant(s, o)
    ensures Refines(s, o, event)
  {
    hide Perform;
    if Enabled(s, event.step) {
      match event.step {
        case BeginStep(_, _, _, _, _, _) => BeginRefines(s, o, event);
        case FinishStep(_, _) => FinishRefines(s, o, event);
        case CloseStep(_) => CloseRefines(s, o, event);
        case TuneStep(_, _, _, _, _) => ConfigurationRefines(s, o, event);
        case ReloadStep(_) => ConfigurationRefines(s, o, event);
        case OpenStep(_, _, _, _, _) => ConfigurationRefines(s, o, event);
        case _ => QueriesRefine(s, o, event);
      }
    }
  }

  /** Every run, whatever the interleaving, is a run of the ledger whose `apply` is one atomic
      step: the tables and handles end the same, and the callers get the same replies in order
      if and only if no second transaction found its credentials lapsed; each one that did is
      answered as expired where the atomic step would not have admitted it. */
  lemma {:induction false} EveryRunIsAtomic(s: System, o: Authority, events: seq<Event>)
    requires Invariant(s, o)
    ensures Run(Erase(s), o, Linearized(s, o, events)) == Erase(Run(s, o, events))
    ensures AgreeExcept(Replies(s, o, events), Replies(Erase(s), o, Linearized(s, o, events)), Lapses(s, o, events))
    ensures Replies(s, o, events) == Replies(Erase(s), o, Linearized(s, o, events)) <==> true !in Lapses(s, o, events)
    ensures forall e | e in Linearized(s, o, events) :: !e.step.BeginStep? && !e.step.FinishStep?
    decreases |events|
  {
    hide Invariant, Next, Linear, LapsedStep, AgreeExcept, Refines, Erase;
    if events == [] {
      NothingToAgree();
    } else {
      var next, first := Next(s, o, events[0]).0, Linear(s, o, events[0]);
      var rest := Linearized(next, o, events[1..]);
      NextKeepsInvariant(s, o, events[0]);
      StepRefinesOut(s, o, events[0]);
      EveryRunIsAtomic(next, o, events[1..]);
      if first == [] {
        RefinesSilently(s, o, events[0]);
        assert first + rest == rest;
        assert Replies(s, o, events) == [] + Replies(next, o, events[1..]) == Replies(next, o, events[1..]);
        assert Lapses(s, o, events) == [] + Lapses(next, o, events[1..]) == Lapses(next, o, events[1..]);
      } else {
        RefinesOnce(s, o, events[0]);
        assert first + rest == [first[0]] + rest;
        FirstEvent(Erase(s), o, first[0], rest);
        AgreeCons(Next(s, o, events[0]).1, Next(Erase(s), o, first[0]).1, LapsedStep(s, events[0]),
                  Replies(next, o, events[1..]), Replies(Erase(next), o, rest), Lapses(next, o, events[1..]));
        assert Replies(s, o, events) == [Next(s, o, events[0]).1] + Replies(next, o, events[1..]);
        assert Lapses(s, o, events) == [LapsedStep(s, events[0])] + Lapses(next, o, events[1..]);
      }
    }
    EqualUnlessLapsed(Replies(s, o, events), Replies(Erase(s), o, Linearized(s, o, events)), Lapses(s, o, events));
  }

  lemma FirstEvent(s: System, o: Authority, e: Event, rest: seq<Event>)
    ensures Run(s, o, [e] + rest) == Run(Next(s, o, e).0, o, rest)
    ensures Replies(s, o, [e] + rest) == (if Next(s, o, e).1 == Silent then [] else [Next(s, o, e).1]) + Replies(Next(s, o, e).0, o, rest)
  {
    hide Next;
    assert ([e] + rest)[1..] == rest;
  }

  lemma RefinesSilently(s: System, o: Authority, event: Event)
    requires Refines(s, o, event) && Linear(s, o, event) == []
    ensures Erase(Next(s, o, event).0) == Erase(s) && Next(s, o, event).1 == Silent
  {
    hide Next, Linear, Erase;
  }

  lemma RefinesOnce(s: System, o: Authority, event: Event)
    requires Refines(s, o, event) && Linear(s, o, event) != []
    ensures var linear, reply := Linear(s, o, event), Next(s, o, event).1;
      && |linear| == 1 && Next(Erase(s), o, linear[0]).0 == Erase(Next(s, o, event).0)
      && reply != Silent && Next(Erase(s), o, linear[0]).1 != Silent
      && (reply == Next(Erase(s), o, linear[0]).1 <==> !LapsedStep(s, event))
      && (LapsedStep(s, event) ==> reply == Refused(Expired) && Next(Erase(s), o, linear[0]).1 == Refused(Admission))
  {
    hide Next, Linear, Erase, LapsedStep;
  }

  lemma NothingToAgree()
    ensures AgreeExcept([], [], [])
  {
  }

  lemma AgreeCons(x: Reply, y: Reply, lapsed: bool, xs: seq<Reply>, ys: seq<Reply>, lapses: seq<bool>)
    requires AgreeExcept(xs, ys, lapses)
    requires x == y <==> !lapsed
    requires lapsed ==> x == Refused(Expired) && y == Refused(Admission)
    ensures AgreeExcept([x] + xs, [y] + ys, [lapsed] + lapses)
  {
  }

  lemma EqualUnlessLapsed(split: seq<Reply>, atomic: seq<Reply>, lapses: seq<bool>)
    requires AgreeExcept(split, atomic, lapses)
    ensures split == atomic <==> true !in lapses
  {
    if true in lapses {
      var i :| 0 <= i < |lapses| && lapses[i];
      assert split[i] != atomic[i];
    }
  }

  lemma NextKeepsInvariant(s: System, o: Authority, event: Event)
    requires Invariant(s, o)
    ensures Invariant(Next(s, o, event).0, o)
  {
    hide Invariant, Next;
    NextKeeps(s, o, event);
    assert Kept(s, o, Next(s, o, event).0);
  }

  lemma StepRefinesOut(s: System, o: Authority, event: Event)
    requires Invariant(s, o)
    ensures Refines(s, o, event)
    ensures forall e | e in Linear(s, o, event) :: !e.step.BeginStep? && !e.step.FinishStep?
  {
    hide Refines, BeginApply;
    StepRefines(s, o, event);
  }
}
