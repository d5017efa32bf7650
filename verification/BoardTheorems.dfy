/** What every run of the board guarantees about its snapshots, its replay floor and its caps. */
module BoardTheorems {
  import opened Basics
  import opened Onion
  import opened Orders
  import opened Board

  /** A stored update and when it was stored. */
  datatype Accepted = Accepted(presence: Presence, at: int)

  datatype Action = Apply(submission: Submission, now: U64) | TakeSnapshot(now: U64)

  /** `log` is a history variable. */
  datatype World = World(board: State, log: seq<Accepted>)

  const START: World := World(State(map[], 0), [])

  function Step(w: World, a: Action, trust: Trust, l: Limits): World {
    match a
    case Apply(s, now) =>
      var (board, result) := Applied(w.board, s, trust, l, now);
      World(board, if result == Ok(true) then w.log + [Accepted(s.presence, now)] else w.log)
    case TakeSnapshot(now) => if Ticked(w.board, now).Ok? then w.(board := Ticked(w.board, now).value) else w
  }

  function Run(w: World, actions: seq<Action>, trust: Trust, l: Limits): World
    decreases |actions|
  {
    if actions == [] then w else Run(Step(w, actions[0], trust, l), actions[1..], trust, l)
  }

  /** The last update stored for a device. */
  function Last(log: seq<Accepted>, k: Key): Option<Accepted> {
    if log == [] then None
    else if log[|log| - 1].presence.update.Key() == k then Some(log[|log| - 1])
    else Last(log[..|log| - 1], k)
  }

  lemma LastAppend(log: seq<Accepted>, e: Accepted, k: Key)
    ensures Last(log + [e], k) == if e.presence.update.Key() == k then Some(e) else Last(log, k)
  {
    assert (log + [e])[..|log|] == log;
  }

  /** A retained row is the last update stored for its device; a forgotten one has expired. */
  ghost predicate RowOk(w: World, l: Limits, k: Key) {
    && (k in w.board.entries ==>
          Last(w.log, k) == Some(Accepted(w.board.entries[k].presence, w.board.entries[k].retainUntil - l.maxLeaseSeconds)))
    && (k !in w.board.entries && Last(w.log, k).Some? ==> Last(w.log, k).value.at + l.maxLeaseSeconds <= w.board.lastNow)
  }

  predicate Timely(e: Accepted, l: Limits) {
    && 0 < e.presence.update.issuedAt <= e.at
    && e.presence.update.expiresAt <= e.presence.update.issuedAt + l.maxLeaseSeconds
    && e.at < e.presence.update.expiresAt
  }

  /** While an update signed by then could still be presented, the device's row stands at least as high. */
  predicate FloorHeld(w: World, e: Accepted, l: Limits) {
    w.board.lastNow < e.at + l.maxLeaseSeconds ==>
      && e.presence.update.Key() in w.board.entries
      && e.presence.update.sequence <= w.board.entries[e.presence.update.Key()].presence.update.sequence
      && e.at + l.maxLeaseSeconds <= w.board.entries[e.presence.update.Key()].retainUntil
  }

  /** After a sequence is stored for a device, one not above it is stored only if it was signed later. */
  predicate Forward(e: Accepted, f: Accepted) {
    e.presence.update.Key() == f.presence.update.Key() && f.presence.update.sequence <= e.presence.update.sequence ==>
      e.at < f.presence.update.issuedAt
  }

  ghost predicate LogOk(w: World, l: Limits) {
    && (forall i | 0 <= i < |w.log| :: w.log[i].at <= w.board.lastNow)
    && (forall i | 0 <= i < |w.log| :: Timely(w.log[i], l))
    && (forall i | 0 <= i < |w.log| :: FloorHeld(w, w.log[i], l))
    && (forall i, j | 0 <= i < j < |w.log| :: Forward(w.log[i], w.log[j]))
  }

  /** The update and both credentials name one device of one member of the board's community, the
      update outlives neither, and its endpoint, if any, is a sound onion service. */
  predicate Credited(p: Presence, trust: Trust) {
    && p.grant.communityId == p.authorization.communityId == p.update.communityId == trust.communityId
    && p.grant.memberId == p.authorization.memberId == p.update.memberId
    && p.grant.chatPublicKey == p.authorization.devicePublicKey == p.update.chatPublicKey
    && p.update.expiresAt <= p.grant.expiresAt && p.update.expiresAt <= p.authorization.expiresAt
    && (p.update.endpoint.Some? ==> Validates(p.update.endpoint.value, trust.checksum))
  }

  ghost predicate CapsOk(b: State, l: Limits) {
    && |b.entries| <= l.maxReplayEntries
    && (forall m :: |DevicesOf(Online(b.entries, b.lastNow), m)| <= l.maxDevicesPerMember)
    && |MembersOf(Online(b.entries, b.lastNow))| <= l.maxMembers
  }

  ghost predicate WorldOk(w: World, trust: Trust, l: Limits) {
    && (forall k :: RowOk(w, l, k))
    && LogOk(w, l)
    && CapsOk(w.board, l)
    && (forall i | 0 <= i < |w.log| :: Credited(w.log[i].presence, trust))
  }

  /** Fewer rows and later times only take members offline. */
  lemma CapsShrink(b: State, c: State, l: Limits)
    requires CapsOk(b, l) && c.entries.Keys <= b.entries.Keys && b.lastNow <= c.lastNow
    requires forall k | k in c.entries :: c.entries[k] == b.entries[k]
    ensures CapsOk(c, l)
  {
    SubsetSize(c.entries.Keys, b.entries.Keys);
    var before, after := Online(b.entries, b.lastNow), Online(c.entries, c.lastNow);
    assert after <= before;
    SubsetSize(MembersOf(after), MembersOf(before));
    forall m
      ensures |DevicesOf(after, m)| <= l.maxDevicesPerMember
    {
      SubsetSize(DevicesOf(after, m), DevicesOf(before, m));
    }
  }

  lemma TickKeepsWorld(w: World, trust: Trust, l: Limits, now: U64)
    requires WorldOk(w, trust, l) && Ticked(w.board, now).Ok?
    ensures WorldOk(w.(board := Ticked(w.board, now).value), trust, l)
  {
    hide CapsOk, Timely, Forward;
    var after := w.(board := Ticked(w.board, now).value);
    CapsShrink(w.board, after.board, l);
    forall k
      ensures RowOk(after, l, k)
    {
      assert RowOk(w, l, k);
    }
    forall i | 0 <= i < |w.log|
      ensures FloorHeld(after, w.log[i], l)
    {
      assert FloorHeld(w, w.log[i], l);
    }
  }

  lemma RoomKept(entries: map<Key, Entry>, e: Entry, l: Limits, now: U64)
    requires CapsOk(State(entries, now), l)
    requires e.presence.update.endpoint.Some? ==> HasRoom(entries, e.presence.update, l, now)
    requires e.presence.update.Key() in entries || |entries| < l.maxReplayEntries
    ensures CapsOk(State(entries[e.presence.update.Key() := e], now), l)
  {
    var k := e.presence.update.Key();
    var before := Online(entries, now);
    var others, after := before - {k}, Online(entries[k := e], now);
    assert k !in others;
    SubsetSize(MembersOf(others), MembersOf(before));
    if k in after {
      OneMoreDevice(others, k);
      assert after == others + {k};
    } else {
      assert after == others;
    }
    forall m
      ensures |DevicesOf(after, m)| <= l.maxDevicesPerMember
    {
      SubsetSize(DevicesOf(others, m), DevicesOf(before, m));
    }
  }

  lemma StoreKeepsWorld(w: World, s: Submission, trust: Trust, l: Limits)
    requires WorldOk(w, trust, l) && Verified(s, trust, l, w.board.lastNow).Ok? && Stored(w.board, s, l, w.board.lastNow).1 == Ok(true)
    ensures WorldOk(World(Stored(w.board, s, l, w.board.lastNow).0, w.log + [Accepted(s.presence, w.board.lastNow)]), trust, l)
  {
    hide CapsOk, HasRoom;
    var now, e := w.board.lastNow, Accepted(s.presence, w.board.lastNow);
    var after := World(Stored(w.board, s, l, now).0, w.log + [e]);
    RoomKept(w.board.entries, Entry(s.presence, now + l.maxLeaseSeconds), l, now);
    forall k
      ensures RowOk(after, l, k)
    {
      assert RowOk(w, l, k);
      LastAppend(w.log, e, k);
    }
    forall i | 0 <= i < |after.log|
      ensures Timely(after.log[i], l) && FloorHeld(after, after.log[i], l)
    {
      if i < |w.log| {
        assert FloorHeld(w, w.log[i], l);
      }
    }
    forall i | 0 <= i < |w.log|
      ensures Forward(w.log[i], e)
    {
      assert FloorHeld(w, w.log[i], l);
    }
  }

  lemma StepKeepsWorld(w: World, a: Action, trust: Trust, l: Limits)
    requires WorldOk(w, trust, l)
    ensures WorldOk(Step(w, a, trust, l), trust, l)
  {
    hide WorldOk, Verified, Stored;
    match a {
      case Apply(s, now) =>
        if Verified(s, trust, l, now).Ok? && Ticked(w.board, now).Ok? {
          TickKeepsWorld(w, trust, l, now);
          var t := w.(board := Ticked(w.board, now).value);
          if Stored(t.board, s, l, now).1 == Ok(true) {
            StoreKeepsWorld(t, s, trust, l);
          } else {
            NotStored(t.board, s, l, now);
          }
        }
      case TakeSnapshot(now) => if Ticked(w.board, now).Ok? { TickKeepsWorld(w, trust, l, now); }
    }
  }

  lemma NotStored(b: State, s: Submission, l: Limits, now: U64)
    ensures Stored(b, s, l, now).1 != Ok(true) ==> Stored(b, s, l, now).0 == b
  {
    hide HasRoom;
  }

  lemma {:induction false} RunKeepsWorld(w: World, actions: seq<Action>, trust: Trust, l: Limits)
    requires WorldOk(w, trust, l)
    ensures WorldOk(Run(w, actions, trust, l), trust, l)
    decreases |actions|
  {
    hide WorldOk, Step;
    if actions != [] {
      StepKeepsWorld(w, actions[0], trust, l);
      RunKeepsWorld(Step(w, actions[0], trust, l), actions[1..], trust, l);
    }
  }

  lemma EveryRunIsOk(actions: seq<Action>, trust: Trust, l: Limits)
    requires l.Valid()
    ensures WorldOk(Run(START, actions, trust, l), trust, l)
  {
    hide Run;
    assert Online(map[], 0) == {} && MembersOf({}) == {};
    assert forall m :: DevicesOf({}, m) == {};
    RunKeepsWorld(START, actions, trust, l);
  }

  /* ----- snapshots ----- */

  /** The one presence a snapshot may list for a device. */
  ghost predicate Listed(rows: seq<MemberPresence>, m: MemberId, p: Presence) {
    exists i :: 0 <= i < |rows| && rows[i].memberId == m && p in rows[i].devices
  }

  lemma {:induction false} RowsAre(entries: map<Key, Entry>, m: MemberId, devices: seq<DeviceKey>, p: Presence)
    ensures p in Rows(entries, m, devices) <==> exists d :: d in devices && (m, d) in entries && entries[(m, d)].presence == p
  {
    if devices != [] {
      RowsAre(entries, m, devices[1..], p);
      assert forall d :: d in devices <==> d == devices[0] || d in devices[1..];
    }
  }

  lemma {:induction false} GroupedAre(entries: map<Key, Entry>, online: set<Key>, members: seq<MemberId>)
    ensures |Grouped(entries, online, members)| == |members|
    ensures forall i | 0 <= i < |members| ::
              Grouped(entries, online, members)[i] == MemberPresence(members[i], Rows(entries, members[i], InOrder(DeviceKeys(online, members[i]))))
  {
    hide Rows, InOrder;
    if members != [] {
      GroupedAre(entries, online, members[1..]);
    }
  }

  /** A snapshot lists exactly the live rows. */
  lemma SnapshotListsLiveRows(b: State, now: U64, m: MemberId, p: Presence)
    ensures Listed(Snapshot(b, now), m, p) <==>
      exists d :: (m, d) in b.entries && b.entries[(m, d)].presence == p && Live(p.update, now)
  {
    hide Rows, InOrder, Grouped, Live;
    var online := Online(b.entries, now);
    var members := InOrder(MembersOf(online));
    InOrderIsOrder(MembersOf(online));
    InOrderIsOrder(DeviceKeys(online, m));
    GroupedAre(b.entries, online, members);
    RowsAre(b.entries, m, InOrder(DeviceKeys(online, m)), p);
    InOrderHolds(DeviceKeys(online, m));
    InOrderHolds(MembersOf(online));
    if d :| (m, d) in b.entries && b.entries[(m, d)].presence == p && Live(p.update, now) {
      assert (m, d) in online;
      assert d in DeviceKeys(online, m) && m in MembersOf(online);
      var i :| 0 <= i < |members| && members[i] == m;
      assert Snapshot(b, now)[i].memberId == m;
    }
  }

  lemma InOrderHolds(keys: set<nat>)
    ensures forall k :: k in keys <==> k in InOrder(keys)
  {
    InOrderIsOrder(keys);
  }

  /** In every run a snapshot lists a device exactly when the last update stored for it has an
      endpoint and has not expired: pruning never hides a live row and nothing older shows. */
  lemma SnapshotIsTheLastUpdates(actions: seq<Action>, trust: Trust, l: Limits, now: U64, m: MemberId, p: Presence)
    requires l.Valid() && Ticked(Run(START, actions, trust, l).board, now).Ok?
    ensures var w := Run(START, actions, trust, l);
      Listed(Snapshot(Ticked(w.board, now).value, now), m, p) <==>
        && p.update.memberId == m && Live(p.update, now)
        && Last(w.log, p.update.Key()).Some? && Last(w.log, p.update.Key()).value.presence == p
  {
    hide Run, CapsOk, Snapshot, Listed, Ticked, Forward, FloorHeld;
    EveryRunIsOk(actions, trust, l);
    var w := Run(START, actions, trust, l);
    TickKeepsWorld(w, trust, l, now);
    TickedClock(w.board, now);
    var t := w.(board := Ticked(w.board, now).value);
    SnapshotListsLiveRows(t.board, now, m, p);
    forall k
      ensures k in t.board.entries ==> t.board.entries[k].presence.update.Key() == k
      ensures k in t.board.entries ==> Last(w.log, k).Some? && Last(w.log, k).value.presence == t.board.entries[k].presence
    {
      assert RowOk(t, l, k);
      LastIsOwn(w.log, k);
    }
    LastIsTimely(t, l, p.update.Key());
    assert RowOk(t, l, p.update.Key());
  }

  lemma TickedClock(b: State, now: U64)
    requires Ticked(b, now).Ok?
    ensures Ticked(b, now).value.lastNow == now
  {
  }

  lemma {:induction false} LastIsOwn(log: seq<Accepted>, k: Key)
    ensures Last(log, k).Some? ==> Last(log, k).value.presence.update.Key() == k && Last(log, k).value in log
  {
    if log != [] && log[|log| - 1].presence.update.Key() != k {
      LastIsOwn(log[..|log| - 1], k);
    }
  }

  lemma LastIsTimely(w: World, l: Limits, k: Key)
    requires LogOk(w, l)
    ensures Last(w.log, k).Some? ==> Timely(Last(w.log, k).value, l)
  {
    LastIsOwn(w.log, k);
  }

  /** Whatever a snapshot lists was presented with credentials of its own device that are still in
      force, and can be dialled at one onion service. */
  lemma SnapshotIsCredited(actions: seq<Action>, trust: Trust, l: Limits, now: U64, m: MemberId, p: Presence)
    requires l.Valid() && Ticked(Run(START, actions, trust, l).board, now).Ok?
    requires Listed(Snapshot(Ticked(Run(START, actions, trust, l).board, now).value, now), m, p)
    ensures Credited(p, trust) && m == p.grant.memberId
    ensures now < p.grant.expiresAt && now < p.authorization.expiresAt
    ensures p.update.endpoint.Some? && Validates(p.update.endpoint.value, trust.checksum)
  {
    hide Run, CapsOk, Snapshot, Listed, Ticked, Forward, FloorHeld, RowOk, Timely, Validates;
    EveryRunIsOk(actions, trust, l);
    SnapshotIsTheLastUpdates(actions, trust, l, now, m, p);
    LastIsOwn(Run(START, actions, trust, l).log, p.update.Key());
  }

  /** Over every run no device falls back to an update signed before a higher or equal sequence was
      stored, and the replay, device and member caps hold. */
  lemma ReplayFloorAndCaps(actions: seq<Action>, trust: Trust, l: Limits)
    requires l.Valid()
    ensures var w := Run(START, actions, trust, l);
      && (forall i, j | 0 <= i < j < |w.log| :: Forward(w.log[i], w.log[j]))
      && CapsOk(w.board, l)
  {
    hide Run, CapsOk, RowOk, FloorHeld, Timely, Forward;
    EveryRunIsOk(actions, trust, l);
  }
}
