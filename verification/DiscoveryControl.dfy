/** The durable control table, and the replaceable cache it fences. One community. */
module DiscoveryControl {
  import opened Basics
  import opened Discovery
  import opened DiscoveryHistory

  /** Trust configuration and limits, stored with the scope on first use. */
  datatype Policy = Policy(trust: Id, limits: Limits)

  datatype Scope = Scope(policy: Policy, lastNow: U64, lastRevision: U64)

  datatype StoredRow = StoredRow(revision: U64, expiresAt: U64, state: MemberControl)

  datatype ControlDb = ControlDb(scope: Option<Scope>, rows: map<MemberId, StoredRow>)

  datatype Call = Call(request: Request, policy: Policy, now: U64)

  datatype Commit = Commit(memberId: MemberId, revision: U64, control: MemberControl, publication: Option<CachedProfile>, retry: bool)

  /* ----- the durable intent ----- */

  function Retained(rows: map<MemberId, StoredRow>, now: U64): map<MemberId, StoredRow> {
    map m | m in rows && rows[m].expiresAt > now :: rows[m]
  }

  function StateOf(rows: map<MemberId, StoredRow>, m: MemberId): MemberControl {
    if m in rows then rows[m].state else EMPTY_CONTROL
  }

  /** A retry of the current publication carries it again; an older one does not. */
  function Reattached(change: Change, r: Request): Option<CachedProfile> {
    if change.retry && r.operation.Publish? && Some(r.operation.publication) == change.control.publicationHash
    then Some(r.operation.publication) else change.publication
  }

  /** An error rolls everything back. */
  function Authorized(db: ControlDb, call: Call): Result<(ControlDb, Commit)>
    requires call.policy.limits.Valid()
  {
    var r, l, now := call.request, call.policy.limits, call.now;
    var previous := if db.scope.Some? then db.scope.value.lastRevision else 0;
    var _ :- Need(db.scope.Some? ==> db.scope.value.policy == call.policy, PolicyMismatch);
    var _ :- Need(db.scope.Some? ==> db.scope.value.lastNow <= now, ClockRollback);
    var _ :- Need(previous < MAX_INTEGER, Capacity);
    var _ :- Need(now <= MAX_INTEGER, Storage);
    var kept := Retained(db.rows, now);
    var _ :- Need(r.memberId in kept || |kept| < l.maxMembers, Capacity);
    var change :- Transition(StateOf(kept, r.memberId), r, l, now);
    var _ :- Need(change.control.retainUntil <= MAX_INTEGER, Storage);
    Ok((ControlDb(Some(Scope(call.policy, now, previous + 1)),
                  kept[r.memberId := StoredRow(previous + 1, change.control.retainUntil, change.control)]),
        Commit(r.memberId, previous + 1, change.control, Reattached(change, r), change.retry)))
  }

  /** The fence: the row still carries the commit's revision. */
  predicate Passes(db: ControlDb, c: Commit) {
    c.memberId in db.rows && db.rows[c.memberId].revision == c.revision
  }

  /** The control row as a reader sees it; expired rows are invisible. */
  function Current(db: ControlDb, m: MemberId, now: U64): Result<Option<MemberControl>> {
    var _ :- Need(db.scope.Some? ==> db.scope.value.lastNow <= now, ClockRollback);
    var _ :- Need(now <= MAX_INTEGER, Storage);
    Ok(if m in db.rows && db.rows[m].expiresAt > now then Some(db.rows[m].state) else None)
  }

  class SqliteDiscoveryControl {
    var scope: Option<Scope>
    var rows: map<MemberId, StoredRow>

    function View(): ControlDb
      reads this
    {
      ControlDb(scope, rows)
    }

    constructor ()
      ensures View() == ControlDb(None, map[])
    {
      scope, rows := None, map[];
    }

    method Authorize(call: Call) returns (result: Result<Commit>)
      requires call.policy.limits.Valid()
      modifies this
      ensures match Authorized(old(View()), call)
              case Ok((db, commit)) => View() == db && result == Ok(commit)
              case Err(e) => View() == old(View()) && result == Err(e)
    {
      hide Transition;
      var r, previousRevision := call.request, 0;
      if scope.Some? {
        previousRevision := scope.value.lastRevision;
        if scope.value.policy != call.policy {
          return Err(PolicyMismatch);
        }
        if call.now < scope.value.lastNow {
          return Err(ClockRollback);
        }
      }
      if previousRevision >= MAX_INTEGER {
        return Err(Capacity);
      }
      if call.now > MAX_INTEGER {
        return Err(Storage);
      }
      var revision: U64 := previousRevision + 1;
      var kept := map m | m in rows && rows[m].expiresAt > call.now :: rows[m];
      assert kept == Retained(rows, call.now);
      if r.memberId !in kept && |kept| >= call.policy.limits.maxMembers {
        return Err(Capacity);
      }
      var change :- TransitionRow(if r.memberId in kept then kept[r.memberId].state else EMPTY_CONTROL, r, call.policy.limits, call.now);
      var publication := change.publication;
      if change.retry && r.operation.Publish? && Some(r.operation.publication) == change.control.publicationHash {
        publication := Some(r.operation.publication);
      }
      if change.control.retainUntil > MAX_INTEGER {
        return Err(Storage);
      }
      scope := Some(Scope(call.policy, call.now, revision));
      rows := kept[r.memberId := StoredRow(revision, change.control.retainUntil, change.control)];
      return Ok(Commit(r.memberId, revision, change.control, publication, change.retry));
    }
  }

  /* ----- the cache ----- */

  /** Bodies by member, the key-ordered catalog, and the live deadlines. Entries may vanish at any time. */
  datatype Cache = Cache(bodies: map<MemberId, CachedProfile>, catalog: set<MemberId>, live: map<MemberId, U64>)

  /** The script a fenced mutation runs. */
  function CommitScript(c: Cache, m: MemberId, live: U64, now: U64, body: Option<CachedProfile>): Cache {
    if live > now then
      var bodies := if body.Some? then c.bodies[m := body.value] else c.bodies;
      if m in bodies then Cache(bodies, c.catalog + {m}, c.live[m := live])
      else Cache(bodies, c.catalog - {m}, c.live - {m})
    else Cache(c.bodies - {m}, c.catalog - {m}, c.live - {m})
  }

  ghost function Mutated(db: ControlDb, cache: Cache, commit: Commit, now: U64): Result<Cache> {
    var _ :- Need(Passes(db, commit), Error.Replay);
    Ok(CommitScript(cache, commit.memberId, LiveUntil(commit.control, now), now, commit.publication))
  }

  /** The script a fetch runs. */
  function FetchScript(c: Cache, m: MemberId, now: U64): Option<CachedProfile> {
    if m in c.live && c.live[m] > now && m in c.bodies then Some(c.bodies[m]) else None
  }

  /** A body read from the cache, waiting for the control row's verdict. */
  datatype Glimpse = Glimpse(memberId: MemberId, now: U64, body: Option<CachedProfile>)

  ghost function Judged(db: ControlDb, g: Glimpse): Result<Option<(CachedProfile, U64)>> {
    if g.body.None? then Ok(None)
    else
      var state :- Current(db, g.memberId, g.now);
      Ok(if state.Some? && state.value.publicationHash == g.body && LiveUntil(state.value, g.now) > g.now
         then Some((g.body.value, LiveUntil(state.value, g.now))) else None)
  }

  class ValkeyDiscoveryStore {
    var bodies: map<MemberId, CachedProfile>
    var catalog: set<MemberId>
    var live: map<MemberId, U64>
    const control: SqliteDiscoveryControl

    function View(): Cache
      reads this
    {
      Cache(bodies, catalog, live)
    }

    constructor (control: SqliteDiscoveryControl)
      ensures this.control == control && View() == Cache(map[], {}, map[])
    {
      this.control := control;
      bodies, catalog, live := map[], {}, map[];
    }

    /** The cache write of an authorized request, run while the control row is held. */
    method Mutate(commit: Commit, now: U64) returns (result: Result<()>)
      modifies this
      ensures match Mutated(control.View(), old(View()), commit, now)
              case Ok(cache) => View() == cache && result == Ok(())
              case Err(e) => View() == old(View()) && result == Err(e)
    {
      if commit.memberId !in control.rows || control.rows[commit.memberId].revision != commit.revision {
        return Err(Error.Replay);
      }
      var m := commit.memberId;
      var until := ComputeLiveUntil(commit.control, now);
      if until > now {
        if commit.publication.Some? {
          bodies := bodies[m := commit.publication.value];
        }
        if m in bodies {
          catalog := catalog + {m};
          live := live[m := until];
        } else {
          catalog := catalog - {m};
          live := live - {m};
        }
      } else {
        bodies := bodies - {m};
        catalog := catalog - {m};
        live := live - {m};
      }
      return Ok(());
    }

    method Fetch(m: MemberId, now: U64) returns (result: Result<Option<(CachedProfile, U64)>>)
      ensures result == Judged(control.View(), Glimpse(m, now, FetchScript(View(), m, now)))
    {
      if m !in live || live[m] <= now || m !in bodies {
        return Ok(None);
      }
      var publication := bodies[m];
      if control.scope.Some? && now < control.scope.value.lastNow {
        return Err(ClockRollback);
      }
      if now > MAX_INTEGER {
        return Err(Storage);
      }
      if m !in control.rows || control.rows[m].expiresAt <= now {
        return Ok(None);
      }
      var state := control.rows[m].state;
      var until := ComputeLiveUntil(state, now);
      if state.publicationHash != Some(publication) || until <= now {
        return Ok(None);
      }
      return Ok(Some((publication, until)));
    }
  }

  /* ----- runs: many services, one control table, one unreliable cache ----- */

  /** An authorized request whose cache write has not happened yet, or will be repeated. */
  datatype Flight = Flight(commit: Commit, now: U64)

  datatype World = World(db: ControlDb, cache: Cache, flights: seq<Flight>, log: seq<Accepted>)

  datatype Event =
    | Authorize(call: Call, replyLost: bool)
    | Mutate(flight: nat)
    | Disturb(cache: Cache)

  ghost function Step(w: World, e: Event): World {
    match e
    case Authorize(call, replyLost) =>
      if !call.policy.limits.Valid() || !Verified(call.request, call.policy.limits, call.now) then w
      else (
        match Authorized(w.db, call)
        case Err(_) => w
        case Ok((db, commit)) =>
          var row := StateOf(Retained(w.db.rows, call.now), call.request.memberId);
          World(db, w.cache,
                if replyLost then w.flights else w.flights + [Flight(commit, call.now)],
                if commit.retry then w.log else w.log + [Record(row, call.request, call.now)]))
    case Mutate(i) =>
      if i < |w.flights| && Passes(w.db, w.flights[i].commit)
      then w.(cache := Mutated(w.db, w.cache, w.flights[i].commit, w.flights[i].now).value)
      else w
    case Disturb(cache) => w.(cache := cache)
  }

  ghost function Run(w: World, events: seq<Event>): World
    decreases |events|
  {
    if events == [] then w else Run(Step(w, events[0]), events[1..])
  }

  const START: World := World(ControlDb(None, map[]), Cache(map[], {}, map[]), [], [])

  function States(rows: map<MemberId, StoredRow>): map<MemberId, MemberControl> {
    map m | m in rows :: rows[m].state
  }

  function HistoryOf(w: World): History
    requires w.db.scope.Some?
  {
    History(States(w.db.rows), w.db.scope.value.lastNow, w.log)
  }

  /** Revisions never repeat, and a deadline column mirrors its row. */
  ghost predicate RowsOk(db: ControlDb)
    requires db.scope.Some?
  {
    forall m | m in db.rows ::
      && db.rows[m].revision <= db.scope.value.lastRevision
      && db.rows[m].expiresAt == db.rows[m].state.retainUntil <= MAX_INTEGER
  }

  /** A row that still carries a flight's revision is the row the flight committed. */
  ghost predicate FlightOk(db: ControlDb, c: Commit)
    requires db.scope.Some?
  {
    && c.revision <= db.scope.value.lastRevision
    && (Passes(db, c) ==>
          && db.rows[c.memberId].state == c.control
          && (c.publication.Some? ==> c.control.publicationHash == c.publication))
  }

  ghost predicate WorldOk(w: World) {
    if w.db.scope.None? then w.db.rows == map[] && w.flights == [] && w.log == []
    else
      && w.db.scope.value.policy.limits.Valid()
      && Sound(HistoryOf(w), w.db.scope.value.policy.limits)
      && RowsOk(w.db)
      && (forall i | 0 <= i < |w.flights| :: FlightOk(w.db, w.flights[i].commit))
  }

  lemma StartIsOk()
    ensures WorldOk(START)
  {
  }

  lemma AuthorizedRows(w: World, call: Call)
    requires WorldOk(w) && call.policy.limits.Valid() && Authorized(w.db, call).Ok?
    ensures var (db, commit) := Authorized(w.db, call).value;
      && db.scope.Some? && db.scope.value.policy == call.policy
      && RowsOk(db) && FlightOk(db, commit)
      && (w.db.scope.Some? ==> forall c | FlightOk(w.db, c) :: FlightOk(db, c))
  {
    hide Transition, Sound, Verified;
    var kept, m := Retained(w.db.rows, call.now), call.request.memberId;
    var change := Transition(StateOf(kept, m), call.request, call.policy.limits, call.now).value;
    if !change.retry {
      PublishedHash(StateOf(kept, m), call.request, call.policy.limits, call.now);
    } else {
      RetryCarriesNothing(StateOf(kept, m), call.request, call.policy.limits, call.now);
    }
  }

  lemma PublishedHash(row: MemberControl, r: Request, l: Limits, now: U64)
    requires l.Valid() && Transition(row, r, l, now).Ok? && !Transition(row, r, l, now).value.retry
    ensures var change := Transition(row, r, l, now).value;
      change.publication.Some? ==> change.control.publicationHash == change.publication
  {
    hide Take, UpdateLease;
  }

  lemma RetryCarriesNothing(row: MemberControl, r: Request, l: Limits, now: U64)
    requires l.Valid() && Transition(row, r, l, now).Ok? && Transition(row, r, l, now).value.retry
    ensures Transition(row, r, l, now).value.publication.None?
  {
    hide Operate;
  }

  /** The history an authorization starts from, pruned to its time. */
  function Before(w: World, now: U64): History {
    PruneTo(if w.db.scope.None? then History(map[], 0, []) else HistoryOf(w), now)
  }

  /** The scope was opened under this policy and its clock has not passed the call's. */
  predicate Ready(db: ControlDb, call: Call) {
    db.scope.Some? ==> db.scope.value.policy == call.policy && db.scope.value.lastNow <= call.now
  }

  lemma AuthorizedIsReady(db: ControlDb, call: Call)
    requires call.policy.limits.Valid() && Authorized(db, call).Ok?
    ensures Ready(db, call)
  {
    hide Transition;
  }

  lemma BeforeIsSound(w: World, call: Call)
    requires WorldOk(w) && call.policy.limits.Valid() && Ready(w.db, call)
    ensures Sound(Before(w, call.now), call.policy.limits) && Before(w, call.now).lastNow == call.now && Before(w, call.now).log == w.log
    ensures Before(w, call.now).controls == States(Retained(w.db.rows, call.now))
    ensures forall m :: RowOf(Before(w, call.now).controls, m) == StateOf(Retained(w.db.rows, call.now), m)
  {
    hide Transition, Sound;
    var before := if w.db.scope.None? then History(map[], 0, []) else HistoryOf(w);
    EmptyIsSound(call.policy.limits);
    PruningIsSound(before, call.policy.limits, call.now);
    assert Before(w, call.now).controls == States(Retained(w.db.rows, call.now));
  }

  /** The control table after an authorization, as a move of the history. */
  lemma AuthorizedMoves(w: World, call: Call)
    requires WorldOk(w) && call.policy.limits.Valid() && Authorized(w.db, call).Ok?
    requires Verified(call.request, call.policy.limits, call.now)
    ensures var after, before := Step(w, Authorize(call, true)), Before(w, call.now);
      var m := call.request.memberId;
      var row := StateOf(Retained(w.db.rows, call.now), m);
      && after.db.scope.Some?
      && Transition(row, call.request, call.policy.limits, call.now).Ok?
      && var change := Transition(row, call.request, call.policy.limits, call.now).value;
         HistoryOf(after) == History(States(Retained(w.db.rows, call.now))[m := change.control], call.now,
                                     if change.retry then w.log else w.log + [Record(row, call.request, call.now)])
  {
    hide Transition, Sound, Verified, Record;
    var kept, m := Retained(w.db.rows, call.now), call.request.memberId;
    var change := Transition(StateOf(kept, m), call.request, call.policy.limits, call.now).value;
    assert States(Step(w, Authorize(call, true)).db.rows) == States(kept)[m := change.control];
  }

  lemma AuthorizedIsSound(w: World, call: Call)
    requires WorldOk(w) && call.policy.limits.Valid() && Authorized(w.db, call).Ok?
    requires Verified(call.request, call.policy.limits, call.now)
    ensures var after := Step(w, Authorize(call, true));
      && after.db.scope.Some? && Sound(HistoryOf(after), call.policy.limits)
  {
    hide Transition, Sound, Verified, Record, Step, Authorized, Before, HistoryOf, States, Retained, WorldOk;
    var l, r, before := call.policy.limits, call.request, Before(w, call.now);
    AuthorizedIsReady(w.db, call);
    BeforeIsSound(w, call);
    AuthorizedMoves(w, call);
    if Transition(RowOf(before.controls, r.memberId), r, l, call.now).value.retry {
      RetryHasRow(before, l, r);
      RetouchIsSound(before, l, r.memberId);
    } else {
      AcceptanceIsSound(before, l, r);
    }
  }

  lemma StepKeepsWorld(w: World, e: Event)
    requires WorldOk(w)
    ensures WorldOk(Step(w, e))
  {
    hide Authorized, Sound, Verified, RowsOk, FlightOk;
    if e.Authorize? && e.call.policy.limits.Valid() && Verified(e.call.request, e.call.policy.limits, e.call.now)
      && Authorized(w.db, e.call).Ok? {
      AuthorizedRows(w, e.call);
      AuthorizedIsSound(w, e.call);
      var after := Step(w, e);
      assert HistoryOf(after) == HistoryOf(Step(w, Authorize(e.call, true)));
    }
  }
}
