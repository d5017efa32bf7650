/** Requests, limits and the per-member control row of the discovery service.

    A digest is represented by the value it hashes. Member ids are numbered in the order in which
    the stores keep their keys. */
module Discovery {
  import opened Basics

  type MemberId = nat
  type DeviceKey = nat
  type Id = nat

  datatype CachedProfile = CachedProfile(
    memberId: MemberId,
    chatPublicKey: DeviceKey,
    sequence: U64,
    issuedAt: U64,
    expiresAt: U64,
    discriminators: map<string, U32>,
    signedBytes: seq<Byte>)

  datatype Lease = Lease(leaseId: Id, sequence: U64, expiresAt: U64)

  datatype Operation =
    | Publish(publication: CachedProfile, lease: Lease)
    | Heartbeat(lease: Lease)
    | Disconnect(leaseId: Id, sequence: U64)
    | Query(filters: map<string, U32>, limit: nat, after: Option<MemberId>)
    | Fetch(memberId: MemberId)
  {
    predicate IsWrite() { !Query? && !Fetch? }
  }

  datatype Request = Request(
    memberId: MemberId,
    chatPublicKey: DeviceKey,
    sessionId: Id,
    requestId: Id,
    issuedAt: U64,
    expiresAt: U64,
    operation: Operation)

  datatype Limits = Limits(
    maxResponseBytes: nat,
    maxProfileTtlSeconds: U64,
    maxLeaseSeconds: U64,
    maxRequestSeconds: U64,
    maxMembers: nat,
    maxDevicesPerMember: nat,
    maxReplayEntries: nat,
    maxResults: nat,
    maxScan: nat,
    publishLimit: U64,
    publishWindow: U64,
    discriminatorLimit: U64,
    discriminatorWindow: U64,
    readLimit: U64,
    readWindow: U64)
  {
    /** The part of `DiscoveryLimits::validate` that bounds times, counts and scans. */
    predicate Valid() {
      && 0 < maxProfileTtlSeconds <= MAX_INTEGER && 0 < maxLeaseSeconds <= MAX_INTEGER
      && 0 < maxRequestSeconds <= MAX_INTEGER
      && 0 < publishLimit <= MAX_INTEGER && 0 < publishWindow <= MAX_INTEGER
      && 0 < discriminatorLimit <= MAX_INTEGER && 0 < discriminatorWindow <= MAX_INTEGER
      && 0 < readLimit <= MAX_INTEGER && 0 < readWindow <= MAX_INTEGER
      && 0 < maxMembers && 0 < maxDevicesPerMember && 0 < maxReplayEntries
      && 0 < maxResults <= maxScan && 0 < maxResponseBytes
    }

    function LongestWindow(): (r: U64)
      ensures publishWindow <= r && discriminatorWindow <= r && readWindow <= r
      ensures maxRequestSeconds <= r && maxLeaseSeconds <= r
    {
      Max(Max(Max(Max(publishWindow, discriminatorWindow), readWindow), maxRequestSeconds), maxLeaseSeconds)
    }
  }

  /** The checks of the cryptographic service that the stores rely on. */
  predicate Verified(r: Request, l: Limits, now: U64) {
    && 0 < now <= MAX_INTEGER
    && 0 < r.issuedAt < r.expiresAt <= MAX_INTEGER
    && r.issuedAt <= now < r.expiresAt
    && r.expiresAt - r.issuedAt <= l.maxRequestSeconds
    && match r.operation
       case Publish(p, lease) =>
         && p.memberId == r.memberId && p.chatPublicKey == r.chatPublicKey
         && 0 < p.sequence <= MAX_INTEGER
         && p.issuedAt <= now < p.expiresAt <= MAX_INTEGER
         && p.expiresAt - p.issuedAt <= l.maxProfileTtlSeconds
         && LeaseVerified(lease, r, l, now)
       case Heartbeat(lease) => LeaseVerified(lease, r, l, now)
       case Disconnect(leaseId, sequence) => leaseId == r.sessionId && 0 < sequence <= MAX_INTEGER
       case Query(_, limit, _) => 0 < limit <= l.maxResults
       case Fetch(_) => true
  }

  predicate LeaseVerified(lease: Lease, r: Request, l: Limits, now: U64) {
    && lease.leaseId == r.sessionId
    && 0 < lease.sequence <= MAX_INTEGER
    && now < lease.expiresAt <= MAX_INTEGER
    && lease.expiresAt - r.issuedAt <= l.maxLeaseSeconds
  }

  /* ----- the control row ----- */

  datatype Counter = Counter(start: U64, used: U64)

  datatype LeaseState = LeaseState(leaseId: Id, sequence: U64, expiresAt: U64, retainUntil: U64)

  /** What a write's replay digest covers besides the ids. */
  datatype WriteImage = WriteImage(chatPublicKey: DeviceKey, issuedAt: U64, expiresAt: U64, operation: Operation)

  datatype ReplayMarker = ReplayMarker(expiresAt: U64, writeDigest: Option<WriteImage>)

  datatype MemberControl = MemberControl(
    lastNow: U64,
    retainUntil: U64,
    leases: map<DeviceKey, LeaseState>,
    replay: map<(Id, Id), ReplayMarker>,
    publish: Counter,
    discriminate: Counter,
    read: Counter,
    profileSequence: U64,
    profileExpiresAt: U64,
    publicationHash: Option<CachedProfile>,
    discriminatorHash: Option<map<string, U32>>)

  const EMPTY_CONTROL: MemberControl := MemberControl(
    0, 0, map[], map[], Counter(0, 0), Counter(0, 0), Counter(0, 0), 0, 0, None, None)

  function WindowStart(now: U64, window: U64): (r: U64)
    requires window != 0
    ensures r <= now < r + window
  {
    DivisionBounds(now, window);
    now / window * window
  }

  function Take(c: Counter, now: U64, window: U64, maximum: U64): Result<Counter>
    requires window != 0
  {
    var start := WindowStart(now, window);
    var used := if c.start != start then 0 else c.used;
    var _ :- Need(used < maximum, Capacity);
    Ok(Counter(start, used + 1))
  }

  /** In-place form of `Take`. */
  method TakeFrom(c: Counter, now: U64, window: U64, maximum: U64) returns (r: Result<Counter>)
    requires window != 0
    ensures r == Take(c, now, window, maximum)
    ensures r.Ok? ==> r.value.start <= now < r.value.start + window && 0 < r.value.used <= maximum
  {
    var start, used := c.start, c.used;
    var current := WindowStart(now, window);
    if start != current {
      start := current;
      used := 0;
    }
    if used >= maximum {
      return Err(Capacity);
    }
    used := used + 1;
    return Ok(Counter(start, used));
  }

  /** Time until which some device lease and the publication are both live, or at most `now`. */
  ghost function LiveUntil(s: MemberControl, now: U64): U64 {
    Min(LatestLease(s.leases, s.leases.Keys, now), s.profileExpiresAt)
  }

  /** The latest expiry after `now` among `keys`, or 0. */
  ghost function LatestLease(leases: map<DeviceKey, LeaseState>, keys: set<DeviceKey>, now: U64): (r: U64)
    requires keys <= leases.Keys
    ensures IsLatest(leases, keys, now, r)
  {
    if keys == {} then 0
    else
      var k :| k in keys;
      var rest := LatestLease(leases, keys - {k}, now);
      if leases[k].expiresAt > now && leases[k].expiresAt > rest then leases[k].expiresAt else rest
  }

  ghost predicate IsLatest(leases: map<DeviceKey, LeaseState>, keys: set<DeviceKey>, now: U64, r: U64)
    requires keys <= leases.Keys
  {
    && (forall k | k in keys && leases[k].expiresAt > now :: leases[k].expiresAt <= r)
    && (r == 0 || exists k :: k in keys && leases[k].expiresAt > now && leases[k].expiresAt == r)
  }

  method ComputeLiveUntil(s: MemberControl, now: U64) returns (r: U64)
    ensures r == LiveUntil(s, now)
  {
    r := 0;
    var keys, seen := s.leases.Keys, {};
    while keys != {}
      invariant keys + seen == s.leases.Keys
      invariant IsLatest(s.leases, seen, now, r)
      decreases keys
    {
      var k :| k in keys;
      if s.leases[k].expiresAt > now && s.leases[k].expiresAt > r {
        r := s.leases[k].expiresAt;
      }
      keys, seen := keys - {k}, seen + {k};
    }
    assert seen == s.leases.Keys;
    r := Min(r, s.profileExpiresAt);
  }

  /* ----- one request against one row ----- */

  datatype Change = Change(control: MemberControl, publication: Option<CachedProfile>, retry: bool)

  function Swept(s: MemberControl, now: U64): MemberControl {
    s.(lastNow := now,
       replay := map k | k in s.replay && s.replay[k].expiresAt > now :: s.replay[k],
       leases := map k | k in s.leases && s.leases[k].retainUntil > now :: s.leases[k])
  }

  function MarkerKey(r: Request): (Id, Id) {
    (r.sessionId, r.requestId)
  }

  function WriteDigest(r: Request): Option<WriteImage> {
    if r.operation.IsWrite() then Some(WriteImage(r.chatPublicKey, r.issuedAt, r.expiresAt, r.operation)) else None
  }

  predicate SamePublication(s: MemberControl, p: CachedProfile) {
    p.sequence == s.profileSequence && s.publicationHash == Some(p)
  }

  predicate NewFields(s: MemberControl, p: CachedProfile) {
    !SamePublication(s, p) && s.discriminatorHash != Some(p.discriminators)
  }

  function UpdateLease(s: MemberControl, r: Request, lease: Lease, l: Limits, now: U64): Result<MemberControl> {
    var _ :- if r.chatPublicKey in s.leases
             then Need(s.leases[r.chatPublicKey].sequence < lease.sequence, Replay)
             else Need(|s.leases| < l.maxDevicesPerMember, Capacity);
    var _ :- Need(now < lease.expiresAt, Expired);
    var floor :- CheckedAdd(now, l.maxRequestSeconds);
    var retain := Max(lease.expiresAt, floor);
    Ok(s.(leases := s.leases[r.chatPublicKey := LeaseState(lease.leaseId, lease.sequence, lease.expiresAt, retain)],
          retainUntil := Max(s.retainUntil, retain)))
  }

  /** No other device's lease moves. */
  predicate OthersKept(before: MemberControl, after: MemberControl, d: DeviceKey) {
    && (forall o | o in before.leases && o != d :: o in after.leases && after.leases[o] == before.leases[o])
    && (forall o | o in after.leases && o != d :: o in before.leases)
  }

  /** The device's lease is the one signed, under a number above its last, and is remembered as
      long as a request signed by now could be presented. */
  predicate LeaseSet(before: MemberControl, after: MemberControl, d: DeviceKey, leaseId: Id, sequence: U64, expiresAt: U64, l: Limits, now: U64) {
    && d in after.leases
    && after.leases[d].leaseId == leaseId && after.leases[d].sequence == sequence && after.leases[d].expiresAt == expiresAt
    && expiresAt <= after.leases[d].retainUntil && now + l.maxRequestSeconds <= after.leases[d].retainUntil
    && (d in before.leases ==> before.leases[d].sequence < sequence)
  }

  function ApplyPublish(s: MemberControl, r: Request, p: CachedProfile, lease: Lease, l: Limits, now: U64): Result<MemberControl>
    requires l.Valid()
  {
    var _ :- Need(s.profileSequence <= p.sequence && (p.sequence == s.profileSequence ==> s.publicationHash == Some(p)), Replay);
    var publish :- if SamePublication(s, p) then Ok(s.publish) else Take(s.publish, now, l.publishWindow, l.publishLimit);
    var discriminate :- if NewFields(s, p) then Take(s.discriminate, now, l.discriminatorWindow, l.discriminatorLimit) else Ok(s.discriminate);
    var leased :- UpdateLease(s.(publish := publish, discriminate := discriminate), r, lease, l, now);
    Ok(leased.(
      profileSequence := p.sequence,
      profileExpiresAt := p.expiresAt,
      publicationHash := Some(p),
      discriminatorHash := Some(p.discriminators),
      retainUntil := Max(leased.retainUntil, p.expiresAt)))
  }

  function ApplyDisconnect(s: MemberControl, r: Request, leaseId: Id, sequence: U64, l: Limits, now: U64): Result<MemberControl> {
    var _ :- Need(r.chatPublicKey in s.leases, Error.Replay);
    var previous := s.leases[r.chatPublicKey];
    var _ :- Need(previous.leaseId == leaseId && previous.sequence < sequence, Error.Replay);
    var floor :- CheckedAdd(now, l.maxRequestSeconds);
    Ok(s.(leases := s.leases[r.chatPublicKey :=
            previous.(sequence := sequence, expiresAt := now, retainUntil := Max(previous.retainUntil, floor))]))
  }

  function Operate(s: MemberControl, r: Request, l: Limits, now: U64): Result<MemberControl>
    requires l.Valid()
  {
    match r.operation
    case Publish(p, lease) => ApplyPublish(s, r, p, lease, l, now)
    case Heartbeat(lease) => UpdateLease(s, r, lease, l, now)
    case Disconnect(leaseId, sequence) => ApplyDisconnect(s, r, leaseId, sequence, l, now)
    case _ =>
      var read :- Take(s.read, now, l.readWindow, l.readLimit);
      Ok(s.(read := read))
  }

  /** The row with the replay marker stored and its retention pushed past every window. */
  function Marked(s: MemberControl, r: Request, until: U64): MemberControl {
    s.(replay := s.replay[MarkerKey(r) := ReplayMarker(r.expiresAt, WriteDigest(r))],
       retainUntil := Max(s.retainUntil, until))
  }

  function Transition(state: MemberControl, r: Request, l: Limits, now: U64): Result<Change>
    requires l.Valid()
  {
    var _ :- Need(state.lastNow <= now, ClockRollback);
    var _ :- Need(r.issuedAt <= now < r.expiresAt, Expired);
    var swept := Swept(state, now);
    if MarkerKey(r) in swept.replay then
      var _ :- Need(r.operation.IsWrite() && swept.replay[MarkerKey(r)].writeDigest == WriteDigest(r), Error.Replay);
      Ok(Change(swept, None, true))
    else
      var _ :- Need(|swept.replay| < l.maxReplayEntries, Capacity);
      var until :- CheckedAdd(now, l.LongestWindow());
      var control :- Operate(Marked(swept, r, until), r, l, now);
      Ok(Change(control, if r.operation.Publish? then Some(r.operation.publication) else None, false))
  }

  /** The source's `transition`, editing the row it was handed field by field. */
  method TransitionRow(row: MemberControl, r: Request, l: Limits, now: U64) returns (result: Result<Change>)
    requires l.Valid()
    ensures result == Transition(row, r, l, now)
  {
    hide Take, ApplyPublish, ApplyDisconnect, UpdateLease;
    var state := row;
    if now < state.lastNow {
      return Err(ClockRollback);
    }
    if r.issuedAt > now || now >= r.expiresAt {
      return Err(Expired);
    }
    state := state.(lastNow := now);
    state := state.(replay := map k | k in state.replay && state.replay[k].expiresAt > now :: state.replay[k]);
    state := state.(leases := map k | k in state.leases && state.leases[k].retainUntil > now :: state.leases[k]);
    assert state == Swept(row, now);
    var marker, writeDigest := MarkerKey(r), WriteDigest(r);
    if marker in state.replay {
      if writeDigest.Some? && state.replay[marker].writeDigest == writeDigest {
        return Ok(Change(state, None, true));
      }
      return Err(Error.Replay);
    }
    if |state.replay| >= l.maxReplayEntries {
      return Err(Capacity);
    }
    state := state.(replay := state.replay[marker := ReplayMarker(r.expiresAt, writeDigest)]);
    var until :- CheckedAdd(now, l.LongestWindow());
    state := state.(retainUntil := Max(state.retainUntil, until));
    var publication := None;
    match r.operation {
      case Publish(p, lease) =>
        state :- PublishInto(state, r, p, lease, l, now);
        publication := Some(p);
      case Heartbeat(lease) =>
        state :- RenewLease(state, r, lease, l, now);
      case Disconnect(leaseId, sequence) =>
        state :- DisconnectInto(state, r, leaseId, sequence, l, now);
      case _ =>
        var read :- TakeFrom(state.read, now, l.readWindow, l.readLimit);
        state := state.(read := read);
    }
    return Ok(Change(state, publication, false));
  }

  method PublishInto(row: MemberControl, r: Request, p: CachedProfile, lease: Lease, l: Limits, now: U64) returns (result: Result<MemberControl>)
    requires l.Valid()
    ensures result == ApplyPublish(row, r, p, lease, l, now)
    ensures result.Ok? ==>
      var after := result.value;
      && row.profileSequence <= p.sequence && (row.profileSequence == p.sequence ==> row.publicationHash == Some(p))
      && after.publicationHash == Some(p) && after.profileSequence == p.sequence
      && after.profileExpiresAt == p.expiresAt <= after.retainUntil
      && (SamePublication(row, p) ==> after.publish == row.publish && after.discriminate == row.discriminate)
      && OthersKept(row, after, r.chatPublicKey)
      && LeaseSet(row, after, r.chatPublicKey, lease.leaseId, lease.sequence, lease.expiresAt, l, now)
  {
    var state := row;
    if p.sequence < state.profileSequence || (p.sequence == state.profileSequence && state.publicationHash != Some(p)) {
      return Err(Error.Replay);
    }
    var same := p.sequence == state.profileSequence && state.publicationHash == Some(p);
    if !same {
      var publish :- TakeFrom(state.publish, now, l.publishWindow, l.publishLimit);
      state := state.(publish := publish);
    }
    if !same && state.discriminatorHash != Some(p.discriminators) {
      var discriminate :- TakeFrom(state.discriminate, now, l.discriminatorWindow, l.discriminatorLimit);
      state := state.(discriminate := discriminate);
    }
    state :- RenewLease(state, r, lease, l, now);
    state := state.(profileSequence := p.sequence, profileExpiresAt := p.expiresAt);
    state := state.(publicationHash := Some(p), discriminatorHash := Some(p.discriminators));
    state := state.(retainUntil := Max(state.retainUntil, p.expiresAt));
    return Ok(state);
  }

  method DisconnectInto(row: MemberControl, r: Request, leaseId: Id, sequence: U64, l: Limits, now: U64) returns (result: Result<MemberControl>)
    ensures result == ApplyDisconnect(row, r, leaseId, sequence, l, now)
    ensures result.Ok? ==>
      var after := result.value;
      && r.chatPublicKey in row.leases && row.leases[r.chatPublicKey].leaseId == leaseId
      && after == row.(leases := after.leases) && OthersKept(row, after, r.chatPublicKey)
      && LeaseSet(row, after, r.chatPublicKey, leaseId, sequence, now, l, now)
  {
    if r.chatPublicKey !in row.leases {
      return Err(Error.Replay);
    }
    var previous := row.leases[r.chatPublicKey];
    if previous.leaseId != leaseId || sequence <= previous.sequence {
      return Err(Error.Replay);
    }
    var floor :- CheckedAdd(now, l.maxRequestSeconds);
    previous := previous.(sequence := sequence);
    previous := previous.(expiresAt := now);
    previous := previous.(retainUntil := Max(previous.retainUntil, floor));
    return Ok(row.(leases := row.leases[r.chatPublicKey := previous]));
  }

  method RenewLease(row: MemberControl, r: Request, lease: Lease, l: Limits, now: U64) returns (result: Result<MemberControl>)
    ensures result == UpdateLease(row, r, lease, l, now)
    ensures result.Ok? ==>
      var after := result.value;
      && now < lease.expiresAt <= after.retainUntil && row.retainUntil <= after.retainUntil
      && after == row.(leases := after.leases, retainUntil := after.retainUntil) && OthersKept(row, after, r.chatPublicKey)
      && LeaseSet(row, after, r.chatPublicKey, lease.leaseId, lease.sequence, lease.expiresAt, l, now)
      && |after.leases| <= Max(|row.leases|, l.maxDevicesPerMember)
  {
    if r.chatPublicKey in row.leases {
      if lease.sequence <= row.leases[r.chatPublicKey].sequence {
        return Err(Error.Replay);
      }
    } else if |row.leases| >= l.maxDevicesPerMember {
      return Err(Capacity);
    }
    if lease.expiresAt <= now {
      return Err(Expired);
    }
    var floor :- CheckedAdd(now, l.maxRequestSeconds);
    var retain := Max(lease.expiresAt, floor);
    var state := row;
    state := state.(leases := state.leases[r.chatPublicKey := LeaseState(lease.leaseId, lease.sequence, lease.expiresAt, retain)]);
    state := state.(retainUntil := Max(state.retainUntil, retain));
    return Ok(state);
  }
}
