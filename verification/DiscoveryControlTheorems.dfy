/** What the durable control table guarantees over any cache behaviour. */
module DiscoveryControlTheorems {
  import opened Basics
  import opened Discovery
  import opened DiscoveryExactness
  import opened DiscoveryHistory
  import opened DiscoveryControl
  import DiscoveryStore

  lemma {:induction false} RunKeepsWorld(w: World, events: seq<Event>)
    requires WorldOk(w)
    ensures WorldOk(Run(w, events))
    decreases |events|
  {
    hide WorldOk, Step;
    if events != [] {
      StepKeepsWorld(w, events[0]);
      RunKeepsWorld(Step(w, events[0]), events[1..]);
    }
  }

  lemma EveryRunIsOk(events: seq<Event>)
    ensures WorldOk(Run(START, events))
  {
    hide WorldOk, Run;
    StartIsOk();
    RunKeepsWorld(START, events);
  }

  /** A cache write that passes the fence runs with the control row stored at that moment, and any
      body it writes is the member's last authorized publication. */
  lemma FencedWritesAreCurrent(events: seq<Event>, i: nat)
    requires i < |Run(START, events).flights|
    requires Passes(Run(START, events).db, Run(START, events).flights[i].commit)
    ensures var w := Run(START, events);
      var commit := w.flights[i].commit;
      && w.db.rows[commit.memberId].state == commit.control
      && (commit.publication.Some? ==> LastPublication(w.log, commit.memberId) == commit.publication)
  {
    hide QuotaKept, PromisesKept, LogLaws, Timed, Run;
    EveryRunIsOk(events);
    var w := Run(START, events);
    assert FlightOk(w.db, w.flights[i].commit);
    assert RowCurrent(HistoryOf(w), w.flights[i].commit.memberId);
  }

  /** Once a member's next request is authorized, no cache write in flight for that member can
      run, even after the row has expired and been created again. */
  lemma NewerIntentsFenceOlder(events: seq<Event>, call: Call, later: seq<Event>, i: nat)
    requires var w := Run(START, events);
      && call.policy.limits.Valid() && Verified(call.request, call.policy.limits, call.now)
      && Authorized(w.db, call).Ok?
      && i < |w.flights| && w.flights[i].commit.memberId == call.request.memberId
    ensures var w := Run(START, events);
      !Passes(Run(Step(w, Authorize(call, true)), later).db, w.flights[i].commit)
  {
    hide Run, Sound, Verified, Step, Authorized, RowsOk;
    EveryRunIsOk(events);
    var w := Run(START, events);
    var next, c := Step(w, Authorize(call, true)), w.flights[i].commit;
    assert FlightOk(w.db, c);
    NextRevision(w, call);
    StepKeepsWorld(w, Authorize(call, true));
    OldRevisionsStayOld(next, later, c);
  }

  lemma NextRevision(w: World, call: Call)
    requires WorldOk(w) && call.policy.limits.Valid() && Verified(call.request, call.policy.limits, call.now)
    requires Authorized(w.db, call).Ok?
    ensures var next, m := Step(w, Authorize(call, true)).db, call.request.memberId;
      && next.scope.Some? && m in next.rows
      && next.scope.value.lastRevision == next.rows[m].revision
      && (w.db.scope.Some? ==> next.scope.value.lastRevision == w.db.scope.value.lastRevision + 1)
  {
    hide Transition, Sound, Verified;
  }

  /** Spent: at or below the last revision handed out, and no row carries it. */
  ghost predicate Spent(db: ControlDb, c: Commit) {
    db.scope.Some? && c.revision <= db.scope.value.lastRevision && !Passes(db, c)
  }

  lemma {:induction false} OldRevisionsStayOld(w: World, events: seq<Event>, c: Commit)
    requires WorldOk(w) && Spent(w.db, c)
    ensures Spent(Run(w, events).db, c)
    decreases |events|
  {
    hide WorldOk, Step, Spent;
    if events != [] {
      SpentStaysSpent(w, events[0], c);
      StepKeepsWorld(w, events[0]);
      OldRevisionsStayOld(Step(w, events[0]), events[1..], c);
    }
  }

  lemma SpentStaysSpent(w: World, e: Event, c: Commit)
    requires WorldOk(w) && Spent(w.db, c)
    ensures Spent(Step(w, e).db, c)
  {
    hide Transition, Sound, Verified, RowsOk, FlightOk;
  }

  /** Whatever body the cache hands over, and however late the verdict, a fetch answers nothing or
      the member's last authorized publication, unexpired and with a live lease. */
  lemma FetchIsNothingOrTheLastPublication(events: seq<Event>, g: Glimpse, p: CachedProfile, until: U64)
    requires Judged(Run(START, events).db, g) == Ok(Some((p, until)))
    ensures var w := Run(START, events);
      && LastPublication(w.log, g.memberId) == Some(p) && g.body == Some(p)
      && g.now < until <= p.expiresAt
      && g.memberId in w.db.rows
      && exists d :: d in w.db.rows[g.memberId].state.leases && until <= w.db.rows[g.memberId].state.leases[d].expiresAt
  {
    hide QuotaKept, PromisesKept, LogLaws, Timed, Run;
    EveryRunIsOk(events);
    var w := Run(START, events);
    var row := w.db.rows[g.memberId].state;
    assert RowCurrent(HistoryOf(w), g.memberId);
    assert IsLatest(row.leases, row.leases.Keys, g.now, LatestLease(row.leases, row.leases.Keys, g.now));
  }

  /** The log laws and quotas hold for the control table too, whoever retries and whatever the
      cache loses. */
  lemma ControlledEffectsAreOrdered(events: seq<Event>, m: MemberId, kind: Kind, start: int)
    requires Run(START, events).db.scope.Some?
    ensures var w := Run(START, events);
      && LogLaws(w.log)
      && w.db.scope.value.policy.limits.Valid()
      && CountIn(w.log, m, kind, start, w.db.scope.value.policy.limits) <= Quota(kind, w.db.scope.value.policy.limits)
  {
    hide PromisesKept, LogLaws, Timed, Run, CountIn, RowCurrent;
    EveryRunIsOk(events);
    var w := Run(START, events);
    assert QuotaKept(HistoryOf(w), w.db.scope.value.policy.limits, m, kind);
  }

  /** With the fence passed and nothing lost since, the publication is served until its deadline;
      exact retries repair a lost body the same way. */
  lemma PublishThenFetch(w: World, call: Call, later: U64)
    requires WorldOk(w) && call.policy.limits.Valid() && Verified(call.request, call.policy.limits, call.now)
    requires Authorized(w.db, call).Ok? && Authorized(w.db, call).value.1.publication.Some?
    requires call.now <= later < LiveUntil(Authorized(w.db, call).value.1.control, call.now) && later <= MAX_INTEGER
    ensures var (db, commit) := Authorized(w.db, call).value;
      && Mutated(db, w.cache, commit, call.now).Ok?
      && var cache := Mutated(db, w.cache, commit, call.now).value;
         Judged(db, Glimpse(commit.memberId, later, FetchScript(cache, commit.memberId, later)))
           == Ok(Some((commit.publication.value, LiveUntil(commit.control, call.now))))
  {
    hide Transition, Sound, Verified, LiveUntil, RowsOk;
    var (db, commit) := Authorized(w.db, call).value;
    AuthorizedRows(w, call);
    StepKeepsWorld(w, Authorize(call, true));
    var after := Step(w, Authorize(call, true));
    DiscoveryStore.LiveRowIsRetained(HistoryOf(after), call.policy.limits, commit.memberId);
    DiscoveryStore.DeadlineStands(commit.control, call.now, later);
  }

  /** An exact retry of the current publication carries it again, without a new log entry, and a
      retry of a superseded one carries nothing. */
  lemma RetryRepairsOnlyTheCurrent(w: World, call: Call)
    requires WorldOk(w) && call.policy.limits.Valid() && Verified(call.request, call.policy.limits, call.now)
    requires Authorized(w.db, call).Ok? && Authorized(w.db, call).value.1.retry && call.request.operation.Publish?
    ensures var commit, p := Authorized(w.db, call).value.1, call.request.operation.publication;
      && Step(w, Authorize(call, true)).log == w.log
      && (commit.publication.Some? ==> commit.publication == Some(p) && LastPublication(w.log, call.request.memberId) == Some(p))
      && (commit.publication.None? ==> commit.control.publicationHash != Some(p))
  {
    hide QuotaKept, PromisesKept, LogLaws, Timed, Verified, Transition;
    AuthorizedRows(w, call);
    StepKeepsWorld(w, Authorize(call, true));
    var after := Step(w, Authorize(call, true));
    RetryCarriesNothing(StateOf(Retained(w.db.rows, call.now), call.request.memberId), call.request, call.policy.limits, call.now);
    assert RowCurrent(HistoryOf(after), call.request.memberId);
  }

  /* ----- which requests are authorized ----- */

  lemma MarkedRetains(row: MemberControl, r: Request, l: Limits, now: U64)
    requires l.Valid() && Verified(r, l, now) && row.retainUntil <= MAX_INTEGER
    requires Transition(row, r, l, now).Ok? && !Transition(row, r, l, now).value.retry
    ensures Transition(row, r, l, now).value.control.retainUntil <= MAX_INTEGER <==> now + l.LongestWindow() <= MAX_INTEGER
  {
    hide Take;
  }

  lemma RetryRetains(row: MemberControl, r: Request, l: Limits, now: U64)
    requires l.Valid() && Transition(row, r, l, now).Ok? && Transition(row, r, l, now).value.retry
    ensures Transition(row, r, l, now).value.control.retainUntil == row.retainUntil
  {
    hide Operate;
  }

  /** Some unexpired accepted request is this very write. */
  ghost predicate Repeats(log: seq<Accepted>, r: Request, now: U64) {
    exists i: nat :: Known(log, r, i, now) && SameWrite(r, log[i].request)
  }

  /** A verified request under the scope's policy and clock is authorized if and only if it repeats
      an accepted write, or its member has or can get a row, its ids are new, it fits the log and its
      retention fits the column. It is a retry exactly in the first case, and a request under known
      ids that repeats nothing is a replay. */
  lemma AuthorizedExactly(events: seq<Event>, call: Call)
    requires call.policy.limits.Valid() && Verified(call.request, call.policy.limits, call.now)
    requires var db := Run(START, events).db;
      Ready(db, call) && (db.scope.Some? ==> db.scope.value.lastRevision < MAX_INTEGER)
    ensures var w, r, l := Run(START, events), call.request, call.policy.limits;
      var h, done := Before(w, call.now), Authorized(w.db, call);
      && (done.Ok? <==>
            || Repeats(w.log, r, call.now)
            || (&& (r.memberId in h.controls || |h.controls| < l.maxMembers)
                && Unknown(w.log, r, call.now) && Fits(h, l, r) && call.now + l.LongestWindow() <= MAX_INTEGER))
      && (done.Ok? ==> (done.value.1.retry <==> Repeats(w.log, r, call.now)))
      && (!Unknown(w.log, r, call.now) && !Repeats(w.log, r, call.now) ==> done == Err(Error.Replay))
  {
    hide Run, Sound, Transition, Verified, Before, Fits, Known, SameWrite, WorldOk;
    EveryRunIsOk(events);
    var w, r, l := Run(START, events), call.request, call.policy.limits;
    BeforeIsSound(w, call);
    var h, kept := Before(w, call.now), Retained(w.db.rows, call.now);
    assert |h.controls| == |kept| by { SameSize(kept); }
    RowsAreWithin(w, call.now);
    EffectDecides(h, l, r);
    InTime(r, l, call.now);
    var row := RowOf(h.controls, r.memberId);
    var done := Transition(row, r, l, call.now);
    if i: nat :| Known(w.log, r, i, call.now) {
      KnownIsMarked(h, l, r, i);
      KnownDecides(h, l, r, i);
      OneEntry(h, l, r, i);
    }
    if done.Ok? {
      if done.value.retry {
        RetryRetains(row, r, l, call.now);
        RetriesAreKnown(h, l, r);
      } else {
        MarkedRetains(row, r, l, call.now);
      }
    }
  }

  lemma SameSize(rows: map<MemberId, StoredRow>)
    ensures |States(rows)| == |rows|
  {
    assert States(rows).Keys == rows.Keys;
  }

  lemma RowsAreWithin(w: World, now: U64)
    requires WorldOk(w)
    ensures forall m | m in Retained(w.db.rows, now) :: Retained(w.db.rows, now)[m].state.retainUntil <= MAX_INTEGER
  {
    hide Sound;
  }

  /** Unexpired accepted requests with the same ids are the same request. */
  lemma OneEntry(h: History, l: Limits, r: Request, i: nat)
    requires l.Valid() && Sound(h, l) && Known(h.log, r, i, h.lastNow)
    ensures Repeats(h.log, r, h.lastNow) <==> SameWrite(r, h.log[i].request)
  {
    hide QuotaKept, PromisesKept, RowCurrent, Traced, SameWrite;
    if j: nat :| Known(h.log, r, j, h.lastNow) && SameWrite(r, h.log[j].request) {
      assert i < j ==> OnceWhileUnexpired(h.log[i], h.log[j]);
      assert j < i ==> OnceWhileUnexpired(h.log[j], h.log[i]);
    }
  }

  /** A request that carries no body but leaves the row live, a heartbeat of some device say, keeps the
      current publication in the cache served until the new deadline. */
  lemma RefreshThenFetch(w: World, call: Call, later: U64)
    requires WorldOk(w) && call.policy.limits.Valid() && Verified(call.request, call.policy.limits, call.now)
    requires Authorized(w.db, call).Ok? && Authorized(w.db, call).value.1.publication.None?
    requires var commit := Authorized(w.db, call).value.1;
      && commit.memberId in w.cache.bodies && commit.control.publicationHash == Some(w.cache.bodies[commit.memberId])
      && call.now <= later < LiveUntil(commit.control, call.now) && later <= MAX_INTEGER
    ensures var (db, commit) := Authorized(w.db, call).value;
      && Mutated(db, w.cache, commit, call.now).Ok?
      && var cache := Mutated(db, w.cache, commit, call.now).value;
         Judged(db, Glimpse(commit.memberId, later, FetchScript(cache, commit.memberId, later)))
           == Ok(Some((w.cache.bodies[commit.memberId], LiveUntil(commit.control, call.now))))
  {
    hide Transition, Sound, Verified, LiveUntil, RowsOk;
    var (db, commit) := Authorized(w.db, call).value;
    AuthorizedRows(w, call);
    StepKeepsWorld(w, Authorize(call, true));
    var after := Step(w, Authorize(call, true));
    DiscoveryStore.LiveRowIsRetained(HistoryOf(after), call.policy.limits, commit.memberId);
    DiscoveryStore.DeadlineStands(commit.control, call.now, later);
  }

  /** A fenced write whose row is not live takes the member out of the cache: no body, no catalog row,
      no deadline. */
  lemma EndedIsRemoved(w: World, call: Call)
    requires call.policy.limits.Valid() && Authorized(w.db, call).Ok?
    requires LiveUntil(Authorized(w.db, call).value.1.control, call.now) <= call.now
    ensures var (db, commit) := Authorized(w.db, call).value;
      && Mutated(db, w.cache, commit, call.now).Ok?
      && var cache := Mutated(db, w.cache, commit, call.now).value;
         && cache.bodies == w.cache.bodies - {commit.memberId}
         && cache.catalog == w.cache.catalog - {commit.memberId} && cache.live == w.cache.live - {commit.memberId}
  {
    hide Transition, LiveUntil;
  }
}
