/** Exactly which calls of `apply` commit, told by the log of everything committed before. */
module LedgerCommits {
  import opened Basics
  import opened AccountingPolicy
  import opened Accounting
  import opened AccountLedgers
  import opened LedgerRuns
  import opened LedgerTheorems

  /** A request that was written, who presented it, when, and the configuration it was written under. */
  datatype Commit = Commit(request: AccountRequest, grant: AdmissionGrant, device: DeviceAuthorization, at: U64, config: StoredConfig) {
    function Owner(): Word { request.statement.owner }
  }

  /* ----- the log, read off the tables ----- */

  function KeyFor(r: AccountRequest): RequestKey {
    (r.statement.owner, r.requestId)
  }

  /** The request is stored after the step and was not before. */
  predicate Appears(before: Db, after: Db, r: AccountRequest) {
    KeyFor(r) !in before.requests && KeyFor(r) in after.requests
  }

  function LogOf(s: System, o: Authority, event: Event): seq<Commit> {
    if !Enabled(s, event.step) then []
    else
      var after := Next(s, o, event).0.db;
      match event.step
      case FinishStep(id, completed) =>
        var p := s.seats[id].pending.value;
        if Appears(s.db, after, p.request) then [Commit(p.request, p.grant, p.device, completed, s.db.config)] else []
      case AtomicStep(_, grant, device, request, _, now) =>
        if Appears(s.db, after, request) then [Commit(request, grant, device, now, s.db.config)] else []
      case _ => []
  }

  function Log(s: System, o: Authority, events: seq<Event>): seq<Commit>
    decreases |events|
  {
    if events == [] then [] else LogOf(s, o, events[0]) + Log(Next(s, o, events[0]).0, o, events[1..])
  }

  /** One owner's commits, oldest first. */
  function Of(log: seq<Commit>, owner: Word): seq<Commit> {
    if log == [] then []
    else
      var last := log[|log| - 1];
      Of(log[..|log| - 1], owner) + if last.Owner() == owner then [last] else []
  }

  lemma OfAppend(log: seq<Commit>, c: Commit, owner: Word)
    ensures Of(log + [c], owner) == Of(log, owner) + if c.Owner() == owner then [c] else []
  {
    assert (log + [c])[..|log|] == log;
  }

  /* ----- what a commit must satisfy ----- */

  /** Credentials in force that name the owner and the signing device, and a verified signature and proof. */
  predicate Authorized(o: Authority, c: Commit) {
    var r, s, g, d := c.request, c.request.statement, c.grant, c.device;
    && RequestOk(r) && |r.proof| <= c.config.policy.maxProofBytes
    && s.community == c.config.trust.community && r.proofScope == c.config.proofScope
    && g.memberId == d.memberId == s.owner
    && g.chatPublicKey == d.devicePublicKey == r.chatPublicKey
    && g.issuedAt <= c.at < g.expiresAt && d.issuedAt <= c.at < d.expiresAt
    && o.admits(g) && o.authorizes(d) && o.signed(r) && o.proves(s, r.proof)
  }

  /** The request is short-lived, runs now, ends before every credential and the policy do, and
      its statement was made in the slot of now. */
  predicate Timely(c: Commit)
    requires c.config.policy.Valid()
  {
    var r, period := c.request, c.config.policy.checkpointPeriodSeconds;
    && r.expiresAt - r.issuedAt <= c.config.policy.maxAuthorizationSeconds
    && r.issuedAt <= c.at && c.at < r.expiresAt
    && r.expiresAt <= c.grant.expiresAt && r.expiresAt <= c.device.expiresAt
    && r.expiresAt <= c.config.policy.account.policyValidUntil
    && c.at / period == r.statement.now / period
  }

  /** The statement names the root published for its slot. */
  predicate Rooted(db: Db, c: Commit)
    requires c.config.policy.Valid()
  {
    var slot := c.request.statement.now / c.config.policy.checkpointPeriodSeconds;
    slot in db.checkpoints && db.checkpoints[slot] == c.request.statement.enrollmentRoot
  }

  /** A first commit opens the account; each later one continues the last, under the first one's root key. */
  predicate Follows(mine: seq<Commit>, c: Commit) {
    var s := c.request.statement;
    && (s.genesis <==> mine == [])
    && (mine != [] ==>
          && s.previousVersion == |mine| - 1
          && s.previousState == mine[|mine| - 1].request.statement.nextState
          && c.device.rootPublicKey == mine[0].device.rootPublicKey)
  }

  /** No commit of the owner used the settlement marker. */
  predicate Unused(mine: seq<Commit>, c: Commit) {
    var m := c.request.statement.settlementMarker;
    m != ZERO ==> forall i | 0 <= i < |mine| :: mine[i].request.statement.settlementMarker != m
  }

  /* ----- the log and the tables ----- */

  ghost predicate Used(mine: seq<Commit>, m: Word) {
    exists i :: 0 <= i < |mine| && mine[i].request.statement.settlementMarker == m
  }

  ghost predicate Presented(mine: seq<Commit>, id: Word) {
    exists i :: 0 <= i < |mine| && mine[i].request.requestId == id
  }

  /** The owner's rows say no more and no less than its commits. */
  ghost predicate RowsTell(db: Db, owner: Word, mine: seq<Commit>) {
    && (owner in db.accounts <==> mine != [])
    && (mine != [] ==>
          var row, last := db.accounts[owner], mine[|mine| - 1].request;
          && row.rootKey == mine[0].device.rootPublicKey && row.version == |mine| - 1
          && row.state == last.statement.nextState && row.latestRequest == last.requestId)
    && (forall m: Word :: (owner, m) in db.markers <==> m != ZERO && Used(mine, m))
    && (forall id: Word :: (owner, id) in db.requests <==> Presented(mine, id))
  }

  /** What held of the `i`th commit when it was made. */
  ghost predicate CommitOk(db: Db, o: Authority, log: seq<Commit>, i: nat)
    requires i < |log|
  {
    var c := log[i];
    var mine := Of(log[..i], c.Owner());
    && c.config.policy.Valid() && c.request.statement.policy == c.config.policy.account
    && Authorized(o, c) && Timely(c) && Rooted(db, c)
    && Follows(mine, c) && Unused(mine, c) && !Presented(mine, c.request.requestId)
    && SamePins(c.config, db.config)
  }

  ghost predicate LogOk(db: Db, o: Authority, log: seq<Commit>) {
    && (forall i | 0 <= i < |log| :: CommitOk(db, o, log, i))
    && (forall owner: Word :: RowsTell(db, owner, Of(log, owner)))
  }

  /* ----- the checks, in terms of the log ----- */

  /** Under the stored configuration. */
  predicate UpToDate(db: Db, h: Handle, r: AccountRequest) {
    h.config == db.config && r.statement.policy == db.config.policy.account
  }

  /** The first reason not to write, if any. */
  function Objection(db: Db, h: Handle, mine: seq<Commit>, c: Commit): Option<Error>
    requires c.config.policy.Valid()
  {
    if !UpToDate(db, h, c.request) then Some(PolicyMismatch)
    else if !Timely(c) then Some(Expired)
    else if !Rooted(db, c) then Some(Admission)
    else if !Follows(mine, c) || !Unused(mine, c) then Some(Error.Replay)
    else None
  }

  /** Digests add nothing once community and policy agree. */
  lemma DigestAgrees(db: Db, h: Handle, r: AccountRequest)
    requires HandleOk(db, h) && RequestOk(r) && r.statement.community == h.trust.community
    ensures UpToDate(db, h, r) <==>
      CheckConfig(db, h.config).Ok? && r.statement.policy == h.policy.account && r.statement.policyDigest == h.policyDigest
  {
  }

  lemma RowsDecide(db: Db, c: Commit, mine: seq<Commit>)
    requires c.config.policy.Valid() && RowsTell(db, c.Owner(), mine) && RequestOk(c.request)
    ensures CheckPending(db, c.request, c.device.rootPublicKey, c.grant, c.device, c.config.policy, c.at)
      == if !Timely(c) then Err(Expired)
         else if !Rooted(db, c) then Err(Admission)
         else if !Follows(mine, c) || !Unused(mine, c) then Err(Error.Replay)
         else Ok(())
  {
    hide RequestOk;
    var m := c.request.statement.settlementMarker;
    assert (c.Owner(), m) in db.markers <==> m != ZERO && Used(mine, m);
  }

  lemma FreshExactly(db: Db, h: Handle, c: Commit, mine: seq<Commit>)
    requires HandleOk(db, h) && c.config == db.config && db.config.policy.Valid()
    requires RequestOk(c.request) && c.request.statement.community == h.trust.community
    requires RowsTell(db, c.Owner(), mine)
    ensures CheckFresh(db, h, c.request, c.grant, c.device, c.at)
      == var no := Objection(db, h, mine, c); if no.Some? then Err(no.value) else Ok(())
  {
    hide RequestOk, CheckPending, Timely, Rooted, Follows, Unused, RowsTell;
    DigestAgrees(db, h, c.request);
    RowsDecide(db, c, mine);
    if h.config == db.config {
      PolicyInConfig(db, h);
    }
  }

  lemma PolicyInConfig(db: Db, h: Handle)
    requires HandleOk(db, h) && h.config == db.config
    ensures h.policy == db.config.policy && h.trust == db.config.trust && h.proofScope == db.config.proofScope
  {
  }

  /* ----- every step keeps the log true ----- */

  /** A commit either moves the clock alone or passes the checks and writes its rows. */
  lemma CommitShape(db: Db, h: Handle, g: AdmissionGrant, d: DeviceAuthorization, r: AccountRequest, at: U64)
    requires h.policy.Valid() && CommitAt(db, h, g, d, r, at).Ok?
    ensures var after := CommitAt(db, h, g, d, r, at).value.1;
      if KeyFor(r) in db.requests then after == db.(clockFloor := at)
      else
        && CheckFresh(db, h, r, g, d, at).Ok?
        && after == Written(db, AcceptanceFor(h, r, at), d.rootPublicKey)
  {
    hide CheckFresh, AcceptanceOk, Written;
  }

  lemma UsedAppend(mine: seq<Commit>, c: Commit, m: Word)
    ensures Used(mine + [c], m) <==> Used(mine, m) || c.request.statement.settlementMarker == m
  {
    var longer := mine + [c];
    assert longer[|mine|] == c;
    forall i | 0 <= i < |mine|
      ensures longer[i] == mine[i]
    {
    }
    if Used(mine, m) {
      var i :| 0 <= i < |mine| && mine[i].request.statement.settlementMarker == m;
      assert longer[i] == mine[i];
    }
  }

  lemma PresentedAppend(mine: seq<Commit>, c: Commit, id: Word)
    ensures Presented(mine + [c], id) <==> Presented(mine, id) || c.request.requestId == id
  {
    var longer := mine + [c];
    assert longer[|mine|] == c;
    forall i | 0 <= i < |mine|
      ensures longer[i] == mine[i]
    {
    }
    if Presented(mine, id) {
      var i :| 0 <= i < |mine| && mine[i].request.requestId == id;
      assert longer[i] == mine[i];
    }
  }

  lemma WrittenTells(db: Db, h: Handle, c: Commit, mine: seq<Commit>)
    requires RowsTell(db, c.Owner(), mine) && RequestOk(c.request) && Follows(mine, c)
    ensures RowsTell(Written(db, AcceptanceFor(h, c.request, c.at), c.device.rootPublicKey), c.Owner(), mine + [c])
  {
    hide RequestOk, Used, Presented;
    NumberedAsDeclared(c.request);
    var after := Written(db, AcceptanceFor(h, c.request, c.at), c.device.rootPublicKey);
    forall m: Word
      ensures (c.Owner(), m) in after.markers <==> m != ZERO && Used(mine + [c], m)
    {
      UsedAppend(mine, c, m);
      assert (c.Owner(), m) in db.markers <==> m != ZERO && Used(mine, m);
    }
    forall id: Word
      ensures (c.Owner(), id) in after.requests <==> Presented(mine + [c], id)
    {
      PresentedAppend(mine, c, id);
      assert (c.Owner(), id) in db.requests <==> Presented(mine, id);
    }
  }

  lemma OthersTell(db: Db, h: Handle, c: Commit, owner: Word, mine: seq<Commit>)
    requires RowsTell(db, owner, mine) && owner != c.Owner()
    ensures RowsTell(Written(db, AcceptanceFor(h, c.request, c.at), c.device.rootPublicKey), owner, mine)
  {
    hide Used, Presented;
    var after := Written(db, AcceptanceFor(h, c.request, c.at), c.device.rootPublicKey);
    assert forall m: Word :: (owner, m) in after.markers <==> (owner, m) in db.markers;
    assert forall id: Word :: (owner, id) in after.requests <==> (owner, id) in db.requests;
  }

  lemma CommitStands(db: Db, after: Db, o: Authority, log: seq<Commit>, more: seq<Commit>, i: nat)
    requires i < |log| && CommitOk(db, o, log, i) && Grows(db, after)
    ensures CommitOk(after, o, log + more, i)
  {
    hide Authorized, Timely, Follows, Unused, Presented;
    assert (log + more)[..i] == log[..i] && (log + more)[i] == log[i];
  }

  lemma LogStands(db: Db, after: Db, o: Authority, log: seq<Commit>)
    requires LogOk(db, o, log) && Grows(db, after)
    requires after.accounts == db.accounts && after.markers == db.markers && after.requests == db.requests
    ensures LogOk(after, o, log)
  {
    hide CommitOk, Grows, Used, Presented, Of;
    forall i | 0 <= i < |log|
      ensures CommitOk(after, o, log, i)
    {
      CommitStands(db, after, o, log, [], i);
      assert log + [] == log;
    }
    forall owner: Word
      ensures RowsTell(after, owner, Of(log, owner))
    {
      assert RowsTell(db, owner, Of(log, owner));
    }
  }

  lemma LogGrows(db: Db, h: Handle, o: Authority, log: seq<Commit>, c: Commit)
    requires LogOk(db, o, log) && HandleOk(db, h) && c.config == db.config && db.config.policy.Valid()
    requires Authorized(o, c) && KeyFor(c.request) !in db.requests
    requires CheckFresh(db, h, c.request, c.grant, c.device, c.at).Ok?
    requires Grows(db, Written(db, AcceptanceFor(h, c.request, c.at), c.device.rootPublicKey))
    ensures LogOk(Written(db, AcceptanceFor(h, c.request, c.at), c.device.rootPublicKey), o, log + [c])
  {
    hide Grows, Used, Presented, Of, Timely, Rooted, Follows, Unused, RowsTell, CommitOk, HandleOk, RequestOk;
    var after := Written(db, AcceptanceFor(h, c.request, c.at), c.device.rootPublicKey);
    var mine := Of(log, c.Owner());
    assert RowsTell(db, c.Owner(), mine);
    CommunityOf(db, h);
    FreshExactly(db, h, c, mine);
    forall i | 0 <= i < |log| + 1
      ensures CommitOk(after, o, log + [c], i)
    {
      if i < |log| {
        assert CommitOk(db, o, log, i);
        CommitStands(db, after, o, log, [c], i);
      } else {
        assert (log + [c])[..|log|] == log;
        NewCommitOk(db, h, o, log, c);
      }
    }
    forall owner: Word
      ensures RowsTell(after, owner, Of(log + [c], owner))
    {
      OfAppend(log, c, owner);
      assert RowsTell(db, owner, Of(log, owner));
      if owner == c.Owner() {
        WrittenTells(db, h, c, mine);
      } else {
        assert Of(log, owner) + [] == Of(log, owner);
        OthersTell(db, h, c, owner, Of(log, owner));
      }
    }
  }

  lemma CommunityOf(db: Db, h: Handle)
    requires HandleOk(db, h)
    ensures h.trust == db.config.trust && h.proofScope == db.config.proofScope
  {
  }

  lemma NewCommitOk(db: Db, h: Handle, o: Authority, log: seq<Commit>, c: Commit)
    requires c.config == db.config && db.config.policy.Valid() && Authorized(o, c)
    requires RowsTell(db, c.Owner(), Of(log, c.Owner())) && KeyFor(c.request) !in db.requests
    requires Objection(db, h, Of(log, c.Owner()), c).None?
    ensures var after := Written(db, AcceptanceFor(h, c.request, c.at), c.device.rootPublicKey);
      CommitOk(after, o, log + [c], |log|)
  {
    hide Used, Presented, Authorized, Timely, Follows, Unused, Of;
    assert (log + [c])[..|log|] == log && (log + [c])[|log|] == c;
    assert (c.Owner(), c.request.requestId) in db.requests <==> Presented(Of(log, c.Owner()), c.request.requestId);
  }

  lemma PendingAuthorizes(db: Db, h: Handle, o: Authority, p: Pending, at: U64)
    requires HandleOk(db, h) && PendingOk(h, o, p) && o.VerifyBoth(p.grant, p.device, at).Ok?
    ensures var c := Commit(p.request, p.grant, p.device, at, db.config);
      RequestOk(p.request) && p.request.statement.community == h.trust.community && Authorized(o, c)
  {
    hide RequestOk;
  }

  /** A transaction that commits at `at` on behalf of an authorized caller. */
  lemma CommitLogged(db: Db, h: Handle, o: Authority, log: seq<Commit>, p: Pending, at: U64)
    requires DbOk(db) && HandleOk(db, h) && LogOk(db, o, log) && db.clockFloor <= at <= MAX_INTEGER
    requires PendingOk(h, o, p) && o.VerifyBoth(p.grant, p.device, at).Ok?
    requires CommitAt(db, h, p.grant, p.device, p.request, at).Ok?
    ensures var after := CommitAt(db, h, p.grant, p.device, p.request, at).value.1;
      LogOk(after, o, log + if Appears(db, after, p.request) then [Commit(p.request, p.grant, p.device, at, db.config)] else [])
  {
    hide DbOk, HandleOk, LogOk, CheckFresh, PendingOk, RequestOk, Authorized, CommitAt, Grows;
    ConfigIsValid(db, h);
    var after, c := CommitAt(db, h, p.grant, p.device, p.request, at).value.1, Commit(p.request, p.grant, p.device, at, db.config);
    PendingAuthorizes(db, h, o, p, at);
    CommitShape(db, h, p.grant, p.device, p.request, at);
    CommitKeepsDb(db, h, p.grant, p.device, p.request, at);
    if KeyFor(p.request) in db.requests {
      LogStands(db, after, o, log);
      assert log + [] == log;
    } else {
      LogGrows(db, h, o, log, c);
    }
  }

  lemma ConfigIsValid(db: Db, h: Handle)
    requires DbOk(db) && HandleOk(db, h)
    ensures db.config.policy.Valid() && h.policy.Valid()
  {
  }

  lemma FinishLogged(s: System, o: Authority, event: Event, log: seq<Commit>)
    requires Invariant(s, o) && LogOk(s.db, o, log) && Enabled(s, event.step) && event.step.FinishStep?
    ensures LogOk(Next(s, o, event).0.db, o, log + LogOf(s, o, event))
  {
    hide DbOk, LogOk, PendingOk, CommitAt, HandleOk, Grows;
    var id, at := event.step.id, event.step.completed;
    var h, p := s.seats[id].handle, s.seats[id].pending.value;
    assert SeatOk(s.db, o, s.seats[id]);
    if FinishApply(s.db, h, o, p.grant, p.device, p.request, p.now, at).Ok? {
      CommitLogged(s.db, h, o, log, p, at);
    } else {
      assert log + [] == log;
    }
  }

  lemma AtomicIsPending(db: Db, h: Handle, o: Authority, e: Step)
    requires e.AtomicStep? && h.policy.Valid() && AtomicApply(db, h, o, e.grant, e.device, e.request, e.before, e.now).Ok?
    requires KeyFor(e.request) !in db.requests
    ensures var p := Pending(e.grant, e.device, e.request, e.before);
      && PendingOk(h, o, p) && o.VerifyBoth(p.grant, p.device, e.now).Ok?
      && db.clockFloor <= e.now <= MAX_INTEGER
      && CommitAt(db, h, e.grant, e.device, e.request, e.now) == AtomicApply(db, h, o, e.grant, e.device, e.request, e.before, e.now)
  {
    hide CheckCaller, CommitAt;
  }

  lemma AtomicRetry(db: Db, h: Handle, o: Authority, e: Step)
    requires e.AtomicStep? && h.policy.Valid() && AtomicApply(db, h, o, e.grant, e.device, e.request, e.before, e.now).Ok?
    requires KeyFor(e.request) in db.requests
    ensures AtomicApply(db, h, o, e.grant, e.device, e.request, e.before, e.now).value.1 == db.(clockFloor := e.now)
  {
    hide CheckCaller, CommitAt;
    CommitShape(db, h, e.grant, e.device, e.request, e.now);
  }

  lemma AtomicLogged(s: System, o: Authority, event: Event, log: seq<Commit>)
    requires Invariant(s, o) && LogOk(s.db, o, log) && Enabled(s, event.step) && event.step.AtomicStep?
    ensures LogOk(Next(s, o, event).0.db, o, log + LogOf(s, o, event))
  {
    hide DbOk, LogOk, PendingOk, CommitAt, HandleOk, Grows, AtomicApply;
    var e, h := event.step, s.seats[event.step.id].handle;
    assert SeatOk(s.db, o, s.seats[e.id]);
    assert log + [] == log;
    if AtomicApply(s.db, h, o, e.grant, e.device, e.request, e.before, e.now).Ok? {
      if KeyFor(e.request) in s.db.requests {
        AtomicRetry(s.db, h, o, e);
        NextKeeps(s, o, event);
        LogStands(s.db, Next(s, o, event).0.db, o, log);
      } else {
        AtomicIsPending(s.db, h, o, e);
        CommitLogged(s.db, h, o, log, Pending(e.grant, e.device, e.request, e.before), e.now);
      }
    }
  }

  /** No other transaction writes a request. */
  lemma OthersWriteNothing(s: System, o: Authority, event: Event)
    requires !event.step.FinishStep? && !event.step.AtomicStep?
    ensures var after := Next(s, o, event).0.db;
      after.accounts == s.db.accounts && after.markers == s.db.markers && after.requests == s.db.requests
  {
    hide CheckCaller, CheckFresh, Retry, Open, AdmitCheckpoint, Status, UpdateWaitingPeriod, BeginApply, ReloadPolicy;
    if Enabled(s, event.step) {
      match event.step {
        case BeginStep(id, g, d, r, before, now) => BeginMovesClock(s.db, s.seats[id].handle, o, g, d, r, before, now);
        case StatusStep(id, g, d, q, before, now) => StatusMovesClock(s.db, s.seats[id].handle, o, g, d, q, before, now);
        case AdmitStep(id, slot, root) => AdmitMovesRoots(s.db, s.seats[id].handle, slot, root);
        case TuneStep(id, expected, seconds, before, now) => TuneMovesConfig(s.db, s.seats[id].handle, expected, seconds, before, now);
        case _ =>
      }
    }
  }

  lemma BeginMovesClock(db: Db, h: Handle, o: Authority, g: AdmissionGrant, d: DeviceAuthorization, r: AccountRequest, before: U64, now: U64)
    requires h.policy.Valid()
    ensures var done := BeginApply(db, h, o, g, d, r, before, now);
      done.Ok? && done.value.Some? ==> done.value.value.1 == db.(clockFloor := now)
  {
    hide CheckCaller, CheckFresh, Retry;
  }

  lemma StatusMovesClock(db: Db, h: Handle, o: Authority, g: AdmissionGrant, d: DeviceAuthorization, q: AccountStatusRequest, before: U64, now: U64)
    ensures var done := Status(db, h, o, g, d, q, before, now); done.Ok? ==> done.value.1 == db.(clockFloor := now)
  {
    hide StatusRequestOk, StatusBodyOk, Cached;
  }

  lemma AdmitMovesRoots(db: Db, h: Handle, slot: U64, root: Word)
    ensures var done := AdmitCheckpoint(db, h, slot, root); done.Ok? ==> done.value == db.(checkpoints := done.value.checkpoints)
  {
  }

  lemma TuneMovesConfig(db: Db, h: Handle, expected: U64, seconds: U64, before: U64, now: U64)
    ensures var done := UpdateWaitingPeriod(db, h, expected, seconds, before, now);
      done.Ok? ==> done.value.1 == db.(config := done.value.1.config, clockFloor := done.value.1.clockFloor)
  {
  }

  lemma NextLogged(s: System, o: Authority, event: Event, log: seq<Commit>)
    requires Invariant(s, o) && LogOk(s.db, o, log)
    ensures LogOk(Next(s, o, event).0.db, o, log + LogOf(s, o, event))
  {
    hide Invariant, LogOk, Next, Grows;
    if Enabled(s, event.step) && event.step.FinishStep? {
      FinishLogged(s, o, event, log);
    } else if Enabled(s, event.step) && event.step.AtomicStep? {
      AtomicLogged(s, o, event, log);
    } else {
      assert log + [] == log;
      StepGrows(s, o, event);
      if event.step.FinishStep? || event.step.AtomicStep? {
        NotEnabled(s, o, event);
      } else {
        OthersWriteNothing(s, o, event);
      }
      LogStands(s.db, Next(s, o, event).0.db, o, log);
    }
  }

  lemma NotEnabled(s: System, o: Authority, event: Event)
    requires !Enabled(s, event.step)
    ensures Next(s, o, event).0 == s
  {
  }

  lemma StepGrows(s: System, o: Authority, event: Event)
    requires Invariant(s, o)
    ensures Invariant(Next(s, o, event).0, o) && Grows(s.db, Next(s, o, event).0.db)
  {
    hide Invariant, Next, Grows;
    NextKeeps(s, o, event);
    assert Kept(s, o, Next(s, o, event).0);
  }

  lemma {:induction false} RunLogged(s: System, o: Authority, events: seq<Event>, log: seq<Commit>)
    requires Invariant(s, o) && LogOk(s.db, o, log)
    ensures Invariant(Run(s, o, events), o) && LogOk(Run(s, o, events).db, o, log + Log(s, o, events))
    decreases |events|
  {
    hide Invariant, LogOk, Next, LogOf, Grows;
    if events == [] {
      assert log + [] == log;
    } else {
      var next, first := Next(s, o, events[0]).0, LogOf(s, o, events[0]);
      StepGrows(s, o, events[0]);
      NextLogged(s, o, events[0], log);
      RunLogged(next, o, events[1..], log + first);
      assert log + (first + Log(next, o, events[1..])) == log + first + Log(next, o, events[1..]);
    }
  }

  /* ----- the results ----- */

  ghost predicate Reached(s: System, o: Authority, log: seq<Commit>, trust: Trust, policy: LedgerPolicy, scope: ProofScope, key: Word, events: seq<Event>) {
    && Create(trust, policy, scope, key).Ok?
    && var start := System(Create(trust, policy, scope, key).value.1, map[]);
       s == Run(start, o, events) && log == Log(start, o, events)
  }

  lemma ReachedIsLogged(s: System, o: Authority, log: seq<Commit>, trust: Trust, policy: LedgerPolicy, scope: ProofScope, key: Word, events: seq<Event>)
    requires Reached(s, o, log, trust, policy, scope, key, events)
    ensures Invariant(s, o) && LogOk(s.db, o, log)
  {
    hide Run, Log, Invariant, LogOk;
    var start := System(Create(trust, policy, scope, key).value.1, map[]);
    NothingLogged(trust, policy, scope, key, o);
    RunLogged(start, o, events, []);
    assert [] + log == log;
  }

  lemma NothingLogged(trust: Trust, policy: LedgerPolicy, scope: ProofScope, key: Word, o: Authority)
    requires Create(trust, policy, scope, key).Ok?
    ensures var start := System(Create(trust, policy, scope, key).value.1, map[]); Invariant(start, o) && LogOk(start.db, o, [])
  {
    var db := Create(trust, policy, scope, key).value.1;
    forall owner: Word
      ensures RowsTell(db, owner, Of([], owner))
    {
      assert Of([], owner) == [];
    }
  }

  lemma {:induction false} OfPrefix(log: seq<Commit>, i: nat, owner: Word)
    requires i <= |log|
    ensures Of(log[..i], owner) <= Of(log, owner)
    decreases |log| - i
  {
    if i < |log| {
      OfPrefix(log, i + 1, owner);
      assert log[..i + 1][..i] == log[..i];
      assert Of(log[..i], owner) <= Of(log[..i + 1], owner);
    } else {
      assert log[..i] == log;
    }
  }

  /** From creation on, every commit was authorized, timely and rooted when it was made, opened its
      owner's account or continued the last commit with an unused marker, and carries the device
      root key of the owner's first commit, which is the account's. */
  lemma EveryCommitIsDue(
    s: System, o: Authority, log: seq<Commit>, trust: Trust, policy: LedgerPolicy, scope: ProofScope, key: Word, events: seq<Event>, i: nat)
    requires Reached(s, o, log, trust, policy, scope, key, events) && i < |log|
    ensures CommitOk(s.db, o, log, i)
    ensures var c := log[i];
      var mine := Of(log, c.Owner());
      && mine != [] && c.Owner() in s.db.accounts && KeyFor(c.request) in s.db.requests
      && c.device.rootPublicKey == mine[0].device.rootPublicKey == s.db.accounts[c.Owner()].rootKey
  {
    hide Invariant, Reached, Authorized, Timely, Rooted, Unused, SamePins;
    ReachedIsLogged(s, o, log, trust, policy, scope, key, events);
    var c := log[i];
    var before, mine := Of(log[..i], c.Owner()), Of(log, c.Owner());
    assert RowsTell(s.db, c.Owner(), mine) && CommitOk(s.db, o, log, i);
    OfPrefix(log, i + 1, c.Owner());
    OfAppend(log[..i], c, c.Owner());
    assert log[..i + 1] == log[..i] + [c];
    assert before + [c] <= mine;
    assert mine[|before|] == (before + [c])[|before|] == c;
    assert Presented(mine, c.request.requestId);
    if before != [] {
      assert mine[0] == before[0];
    }
  }

  /** A second half with an unused id writes if and only if its clock is accepted, its caller is
      authorized at that time, and nothing objects to it; otherwise the first objection is the answer. */
  lemma FinishExactly(
    s: System, o: Authority, log: seq<Commit>, trust: Trust, policy: LedgerPolicy, scope: ProofScope, key: Word, events: seq<Event>,
    id: nat, at: U64)
    requires Reached(s, o, log, trust, policy, scope, key, events)
    requires Checking(s, id) && KeyFor(s.seats[id].pending.value.request) !in s.db.requests
    ensures s.db.config.policy.Valid()
    ensures var h, p := s.seats[id].handle, s.seats[id].pending.value;
      var c := Commit(p.request, p.grant, p.device, at, s.db.config);
      var done := FinishApply(s.db, h, o, p.grant, p.device, p.request, p.now, at);
      var no := Objection(s.db, h, Of(log, c.Owner()), c);
      && (done.Ok? ==> Authorized(o, c))
      && (done.Ok? <==> 0 < at <= MAX_INTEGER && s.db.clockFloor <= at && p.now <= at && InForce(o, c, at) && no.None?)
      && (StillGood(s.db, o, p, at) && no.Some? ==> done == Err(no.value))
  {
    hide Invariant, Reached, LogOk, Objection, PendingOk, HandleOk, CheckFresh, Authorized, RequestOk;
    ReachedIsLogged(s, o, log, trust, policy, scope, key, events);
    InvariantParts(s, o, id);
    SeatParts(s, o, id);
    var h, p := s.seats[id].handle, s.seats[id].pending.value;
    var c := Commit(p.request, p.grant, p.device, at, s.db.config);
    ConfigIsValid(s.db, h);
    RowsOf(s.db, o, log, c.Owner());
    PendingIsWhole(h, o, p);
    FreshExactly(s.db, h, c, Of(log, c.Owner()));
    FreshCommits(s.db, h, p, at);
    InForceIsVerified(o, p, c, at);
    if o.VerifyBoth(p.grant, p.device, at).Ok? {
      PendingAuthorizes(s.db, h, o, p, at);
    }
  }

  /** Both credentials run and verify at the time. */
  predicate InForce(o: Authority, c: Commit, at: U64) {
    && c.grant.issuedAt <= at < c.grant.expiresAt && c.device.issuedAt <= at < c.device.expiresAt
    && o.admits(c.grant) && o.authorizes(c.device)
  }

  lemma InForceIsVerified(o: Authority, p: Pending, c: Commit, at: U64)
    requires c.grant == p.grant && c.device == p.device
    requires p.device.memberId == p.grant.memberId && p.device.devicePublicKey == p.grant.chatPublicKey
    ensures InForce(o, c, at) <==> o.VerifyBoth(p.grant, p.device, at).Ok?
  {
  }

  lemma SeatParts(s: System, o: Authority, id: nat)
    requires Invariant(s, o) && id in s.seats
    ensures s.seats[id].pending.Some? ==> PendingOk(s.seats[id].handle, o, s.seats[id].pending.value)
  {
    hide DbOk, HandleOk, PendingOk;
    assert SeatOk(s.db, o, s.seats[id]);
  }

  lemma RowsOf(db: Db, o: Authority, log: seq<Commit>, owner: Word)
    requires LogOk(db, o, log)
    ensures RowsTell(db, owner, Of(log, owner))
  {
    hide CommitOk, RowsTell;
  }

  lemma PendingIsWhole(h: Handle, o: Authority, p: Pending)
    requires PendingOk(h, o, p)
    ensures RequestOk(p.request) && p.request.statement.community == h.trust.community && 0 < p.now
    ensures p.device.memberId == p.grant.memberId && p.device.devicePublicKey == p.grant.chatPublicKey
  {
    hide RequestOk;
  }

  /** With an unused id a commit is its checks. */
  lemma FreshCommits(db: Db, h: Handle, p: Pending, at: U64)
    requires h.policy.Valid() && RequestOk(p.request) && KeyFor(p.request) !in db.requests
    ensures CheckFresh(db, h, p.request, p.grant, p.device, at).Ok? <==> CommitAt(db, h, p.grant, p.device, p.request, at).Ok?
    ensures CheckFresh(db, h, p.request, p.grant, p.device, at).Err? ==>
      CommitAt(db, h, p.grant, p.device, p.request, at) == Err(CheckFresh(db, h, p.request, p.grant, p.device, at).error)
  {
    hide CheckFresh, AcceptanceOk, RequestOk, Written;
    if CheckFresh(db, h, p.request, p.grant, p.device, at).Ok? {
      FreshAcceptanceIsWellFormed(db, h, p.request, p.grant, p.device, at);
    }
  }

  /** A first half with an unused id lets go to have the proof checked, and a one-step apply writes,
      if and only if the clocks are accepted, the credentials are in force at both readings, the
      caller is authorized and nothing objects. */
  lemma BeginExactly(
    s: System, o: Authority, log: seq<Commit>, trust: Trust, policy: LedgerPolicy, scope: ProofScope, key: Word, events: seq<Event>,
    id: nat, c: Commit, before: U64)
    requires Reached(s, o, log, trust, policy, scope, key, events)
    requires Idle(s, id) && c.config == s.db.config && KeyFor(c.request) !in s.db.requests
    ensures s.db.config.policy.Valid()
    ensures var h := s.seats[id].handle;
      var goes := 0 < before <= c.at <= MAX_INTEGER && s.db.clockFloor <= c.at && InForce(o, c, before)
                  && Authorized(o, c) && Objection(s.db, h, Of(log, c.Owner()), c).None?;
      && (BeginApply(s.db, h, o, c.grant, c.device, c.request, before, c.at) == Ok(None) <==> goes)
      && (AtomicApply(s.db, h, o, c.grant, c.device, c.request, before, c.at).Ok? <==> goes)
  {
    hide Invariant, Reached, LogOk, Objection, CheckFresh, RequestOk, AtomicApply, BeginApply, HandleOk;
    ReachedIsLogged(s, o, log, trust, policy, scope, key, events);
    InvariantParts(s, o, id);
    var h := s.seats[id].handle;
    ConfigIsValid(s.db, h);
    RowsOf(s.db, o, log, c.Owner());
    PinsAgree(s.db, h);
    BeginIsItsChecks(s.db, h, o, c, before);
    if Authorized(o, c) {
      FreshExactly(s.db, h, c, Of(log, c.Owner()));
    }
    BeginIsAtomic(s.db, h, o, c.grant, c.device, c.request, before, c.at);
  }

  lemma PinsAgree(db: Db, h: Handle)
    requires HandleOk(db, h)
    ensures h.policy.maxProofBytes == db.config.policy.maxProofBytes && h.trust == db.config.trust && h.proofScope == db.config.proofScope
  {
  }

  lemma BeginIsItsChecks(db: Db, h: Handle, o: Authority, c: Commit, before: U64)
    requires h.policy.Valid() && KeyFor(c.request) !in db.requests && c.config == db.config
    requires h.policy.maxProofBytes == db.config.policy.maxProofBytes && h.trust == db.config.trust && h.proofScope == db.config.proofScope
    ensures BeginApply(db, h, o, c.grant, c.device, c.request, before, c.at) == Ok(None) <==>
      && 0 < before <= c.at <= MAX_INTEGER && db.clockFloor <= c.at && InForce(o, c, before)
      && Authorized(o, c) && CheckFresh(db, h, c.request, c.grant, c.device, c.at).Ok?
    ensures BeginApply(db, h, o, c.grant, c.device, c.request, before, c.at).Ok? ==>
      BeginApply(db, h, o, c.grant, c.device, c.request, before, c.at) == Ok(None)
  {
    hide CheckFresh, RequestOk;
  }

  /* ----- roots and tuning ----- */

  /** Once a slot has a root, in any continuation every handle is answered alike: the same root is
      accepted and changes nothing, any other well-formed root is refused. */
  lemma RootsStand(s: System, o: Authority, events: seq<Event>, slot: U64, root: Word, id: nat)
    requires Invariant(s, o) && slot in s.db.checkpoints
    requires id in Run(s, o, events).seats && IsField(root, true)
    requires (slot + 1) * s.db.config.policy.checkpointPeriodSeconds <= MAX_INTEGER && 0 < s.db.config.policy.checkpointPeriodSeconds
    ensures var t := Run(s, o, events);
      AdmitCheckpoint(t.db, t.seats[id].handle, slot, root)
        == if root == s.db.checkpoints[slot] then Ok(t.db) else Err(PolicyMismatch)
  {
    hide Run, DbOk, IsField;
    RunKeeps(s, o, events);
    InvariantParts(Run(s, o, events), o, id);
    var t := Run(s, o, events);
    SamePeriod(s.db, t.db, t.seats[id].handle);
    assert slot in t.db.checkpoints && t.db.checkpoints[slot] == s.db.checkpoints[slot];
    if root == s.db.checkpoints[slot] {
      assert t.db.checkpoints[slot := root] == t.db.checkpoints;
    }
    MulMonotone(0, s.db.config.policy.checkpointPeriodSeconds, slot + 1);
    MulMonotone(1, slot + 1, s.db.config.policy.checkpointPeriodSeconds);
  }

  lemma SamePeriod(before: Db, db: Db, h: Handle)
    requires Grows(before, db) && HandleOk(db, h)
    ensures h.policy.checkpointPeriodSeconds == before.config.policy.checkpointPeriodSeconds
  {
  }

  /** The first admission of a slot whose end is in range stores its root. */
  lemma FirstRootIsStored(db: Db, h: Handle, slot: U64, root: Word)
    requires h.policy.Valid() && slot !in db.checkpoints && IsField(root, true)
    requires (slot + 1) * h.policy.checkpointPeriodSeconds <= MAX_INTEGER
    ensures AdmitCheckpoint(db, h, slot, root) == Ok(db.(checkpoints := db.checkpoints[slot := root]))
  {
    hide IsField;
    MulMonotone(1, slot + 1, h.policy.checkpointPeriodSeconds);
  }

  /** In every reachable state a tuning commits if and only if it expects the revision of its own
      handle, the handle is up to date, the clocks are accepted, and a deadline given out now under
      the new waiting period still falls inside the policy. */
  lemma TunedExactly(s: System, o: Authority, id: nat, expected: U64, seconds: U64, before: U64, now: U64)
    requires Invariant(s, o) && id in s.seats
    ensures var h, account := s.seats[id].handle, s.db.config.policy.account;
      UpdateWaitingPeriod(s.db, h, expected, seconds, before, now).Ok? <==>
        && expected == h.tuningRevision < MAX_INTEGER && h.config == s.db.config
        && account.rateWindow <= seconds <= MAX_INTEGER
        && 0 < before <= now <= MAX_INTEGER && s.db.clockFloor <= now
        && account.policyValidFrom <= now && now + seconds < account.policyValidUntil
  {
    hide DbOk;
    InvariantParts(s, o, id);
    var h := s.seats[id].handle;
    TuneDecides(s.db, h, expected, seconds, before, now);
  }

  lemma TuneDecides(db: Db, h: Handle, expected: U64, seconds: U64, before: U64, now: U64)
    requires DbOk(db) && HandleOk(db, h)
    ensures var account := db.config.policy.account;
      UpdateWaitingPeriod(db, h, expected, seconds, before, now).Ok? <==>
        && expected == h.tuningRevision < MAX_INTEGER && h.config == db.config
        && account.rateWindow <= seconds <= MAX_INTEGER
        && 0 < before <= now <= MAX_INTEGER && db.clockFloor <= now
        && account.policyValidFrom <= now && now + seconds < account.policyValidUntil
  {
    hide StoredOk, Chained, AccountPolicy.ReservationDeadline;
    var account := h.policy.Retuned(seconds).account;
    RetunedAccount(db, h, seconds);
    if account.Valid() && account.policyValidFrom <= now < account.policyValidUntil {
      DeadlineRefusedExactlyAtPolicyEnd(account, now);
    }
  }

  lemma RetunedAccount(db: Db, h: Handle, seconds: U64)
    requires HandleOk(db, h)
    ensures var account, stored := h.policy.Retuned(seconds).account, db.config.policy.account;
      && (account.Valid() <==> account.rateWindow <= seconds <= MAX_INTEGER)
      && account.abandonAfter == seconds && account.rateWindow == stored.rateWindow
      && account.policyValidFrom == stored.policyValidFrom && account.policyValidUntil == stored.policyValidUntil
  {
  }

  /* ----- status ----- */

  /** In every reachable state a status query is answered if and only if it is well formed, for this
      community, short-lived and current, signed by a device whose credentials name its owner and are
      in force at both readings. */
  lemma StatusExactly(s: System, o: Authority, id: nat, g: AdmissionGrant, d: DeviceAuthorization, q: AccountStatusRequest, before: U64, now: U64)
    requires Invariant(s, o) && id in s.seats
    ensures Status(s.db, s.seats[id].handle, o, g, d, q, before, now).Ok? <==>
      && StatusRequestOk(q) && q.community == s.db.config.trust.community
      && q.expiresAt - q.issuedAt <= s.db.config.policy.maxAuthorizationSeconds && q.issuedAt <= now < q.expiresAt
      && g.memberId == d.memberId == q.owner && g.chatPublicKey == d.devicePublicKey == q.chatPublicKey
      && o.admits(g) && o.authorizes(d) && o.signedStatus(q)
      && g.issuedAt <= before && d.issuedAt <= before && now < g.expiresAt && now < d.expiresAt
      && 0 < before <= now <= MAX_INTEGER && s.db.clockFloor <= now
  {
    hide DbOk, Status, StatusRequestOk;
    InvariantParts(s, o, id);
    var h := s.seats[id].handle;
    PinnedFields(s.db, h);
    if Status(s.db, h, o, g, d, q, before, now).Ok? {
      StatusIsChecked(s.db, h, o, g, d, q, before, now);
    }
    if StatusRequestOk(q) && q.community == h.trust.community && g.memberId == q.owner && q.chatPublicKey == g.chatPublicKey
      && q.expiresAt - q.issuedAt <= h.policy.maxAuthorizationSeconds && CheckTime(before, 0).Ok? && o.VerifyBoth(g, d, before).Ok?
      && o.signedStatus(q) && CheckTime(now, Max(before, s.db.clockFloor)).Ok? && o.VerifyBoth(g, d, now).Ok? && q.issuedAt <= now < q.expiresAt {
      StatusTellsTheTruth(s.db, h, o, g, d, q, before, now);
    }
  }

  lemma PinnedFields(db: Db, h: Handle)
    requires HandleOk(db, h)
    ensures h.trust == db.config.trust && h.policy.maxAuthorizationSeconds == db.config.policy.maxAuthorizationSeconds
  {
  }

  lemma StatusIsChecked(db: Db, h: Handle, o: Authority, g: AdmissionGrant, d: DeviceAuthorization, q: AccountStatusRequest, before: U64, now: U64)
    requires Status(db, h, o, g, d, q, before, now).Ok?
    ensures StatusRequestOk(q) && q.community == h.trust.community && g.memberId == q.owner && q.chatPublicKey == g.chatPublicKey
    ensures q.expiresAt - q.issuedAt <= h.policy.maxAuthorizationSeconds && CheckTime(before, 0).Ok? && o.VerifyBoth(g, d, before).Ok?
    ensures o.signedStatus(q) && CheckTime(now, Max(before, db.clockFloor)).Ok? && o.VerifyBoth(g, d, now).Ok? && q.issuedAt <= now < q.expiresAt
  {
    hide Cached, StatusBodyOk, StatusRequestOk;
  }
}
