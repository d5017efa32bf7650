/** The ephemeral meeting board: signed presence per device, a replay floor, and bounded snapshots. */
module Board {
  import opened Basics
  import opened Onion
  import opened Orders

  type MemberId = nat
  type DeviceKey = nat
  type Key = (MemberId, DeviceKey)

  /** A community name as `scope` admits it. */
  predicate IsScope(name: string) {
    && 0 < |name| <= 256
    && forall i | 0 <= i < |name| ::
         var c := name[i]; 'a' <= c <= 'z' || 'A' <= c <= 'Z' || '0' <= c <= '9' || c in "._:/-"
  }

  datatype Grant = Grant(
    version: U32, issuerKeyId: nat, communityId: string, memberId: MemberId, chatPublicKey: DeviceKey,
    policyDigest: nat, issuedAt: U64, expiresAt: U64, signature: nat)

  datatype Authorization = Authorization(
    version: U32, communityId: string, memberId: MemberId, rootPublicKey: nat, devicePublicKey: DeviceKey,
    issuedAt: U64, expiresAt: U64, signature: nat)

  datatype Update = Update(
    communityId: string, memberId: MemberId, chatPublicKey: DeviceKey, sequence: U64, issuedAt: U64, expiresAt: U64,
    endpoint: Option<Endpoint>, signature: nat)
  {
    function Key(): Key { (memberId, chatPublicKey) }
  }

  /** An update with the credentials it came with. */
  datatype Presence = Presence(grant: Grant, authorization: Authorization, update: Update)

  /** The verdicts of the signature checks: the issuer's, that the member id is its root key's and
      both keys are sound, the root's, and the device's. */
  datatype Checks = Checks(
    admits: Grant -> bool, rooted: Authorization -> bool, authorizes: Authorization -> bool, signs: Update -> Result<()>)

  datatype Submission = Submission(presence: Presence, checks: Checks)

  /** What a board trusts, and the digest behind an onion checksum. */
  datatype Trust = Trust(communityId: string, policyDigest: nat, issuerKeyId: nat, checksum: seq<Byte> -> (Byte, Byte)) {
    predicate Valid() { IsScope(communityId) }
  }

  datatype Limits = Limits(maxMembers: nat, maxDevicesPerMember: nat, maxLeaseSeconds: U64, maxReplayEntries: nat) {
    predicate Valid() {
      0 < maxMembers && 0 < maxDevicesPerMember && 0 < maxLeaseSeconds <= MAX_INTEGER && maxDevicesPerMember <= maxReplayEntries
    }
  }

  datatype Entry = Entry(presence: Presence, retainUntil: U64)

  datatype State = State(entries: map<Key, Entry>, lastNow: U64)

  predicate InForce(version: U32, issuedAt: U64, expiresAt: U64, now: U64) {
    version == 1 && 0 < issuedAt < expiresAt <= MAX_INTEGER && issuedAt <= now < expiresAt
  }

  function VerifyAdmission(g: Grant, trust: Trust, c: Checks, now: U64): Result<()> {
    Need(
      && InForce(g.version, g.issuedAt, g.expiresAt, now) && IsScope(g.communityId)
      && g.communityId == trust.communityId && g.policyDigest == trust.policyDigest && g.issuerKeyId == trust.issuerKeyId
      && c.admits(g), Admission)
  }

  function VerifyAuthorization(d: Authorization, g: Grant, c: Checks, now: U64): Result<()> {
    Need(
      && InForce(d.version, d.issuedAt, d.expiresAt, now) && IsScope(d.communityId) && c.rooted(d)
      && d.communityId == g.communityId && d.memberId == g.memberId && d.devicePublicKey == g.chatPublicKey
      && c.authorizes(d), Admission)
  }

  /** The fields `presence_bytes` accepts. */
  predicate UpdateOk(u: Update, trust: Trust) {
    && 0 < u.sequence <= MAX_INTEGER && 0 < u.issuedAt < u.expiresAt <= MAX_INTEGER
    && (u.endpoint.Some? ==> Validates(u.endpoint.value, trust.checksum))
  }

  function Verified(s: Submission, trust: Trust, l: Limits, now: U64): Result<()> {
    var g, d, u := s.presence.grant, s.presence.authorization, s.presence.update;
    var _ :- VerifyAdmission(g, trust, s.checks, now);
    var _ :- VerifyAuthorization(d, g, s.checks, now);
    var _ :- Need(u.communityId == g.communityId && u.memberId == g.memberId && u.chatPublicKey == g.chatPublicKey, Admission);
    var _ :- Need(UpdateOk(u, trust), InvalidInput);
    var _ :- Need(
      && u.issuedAt <= now < u.expiresAt && u.expiresAt <= g.expiresAt && u.expiresAt <= d.expiresAt
      && u.expiresAt - u.issuedAt <= l.maxLeaseSeconds, Expired);
    s.checks.signs(u)
  }

  function Ticked(b: State, now: U64): Result<State> {
    var _ :- Need(b.lastNow <= now <= MAX_INTEGER, ClockRollback);
    Ok(State(map k | k in b.entries && now < b.entries[k].retainUntil :: b.entries[k], now))
  }

  predicate Live(u: Update, now: U64) {
    u.endpoint.Some? && now < u.expiresAt
  }

  function Online(entries: map<Key, Entry>, now: U64): set<Key> {
    set k | k in entries && Live(entries[k].presence.update, now)
  }

  function DevicesOf(online: set<Key>, m: MemberId): set<Key> {
    set k | k in online && k.0 == m
  }

  function MembersOf(online: set<Key>): set<MemberId> {
    set k | k in online :: k.0
  }

  /** Room for the update's device next to everyone else online. */
  predicate HasRoom(entries: map<Key, Entry>, u: Update, l: Limits, now: U64) {
    var others := Online(entries, now) - {u.Key()};
    && |DevicesOf(others, u.memberId)| < l.maxDevicesPerMember
    && (u.memberId in MembersOf(others) || |MembersOf(others)| < l.maxMembers)
  }

  /** The flag says that the update was stored; a repeated current update is accepted without effect. */
  function Stored(t: State, s: Submission, l: Limits, now: U64): (State, Result<bool>) {
    var u := s.presence.update;
    if u.Key() in t.entries && u.sequence <= t.entries[u.Key()].presence.update.sequence
    then (t, if u == t.entries[u.Key()].presence.update then Ok(false) else Err(Error.Replay))
    else if u.Key() !in t.entries && |t.entries| >= l.maxReplayEntries then (t, Err(Capacity))
    else if u.endpoint.Some? && !HasRoom(t.entries, u, l, now) then (t, Err(Capacity))
    else
      var until := CheckedAdd(now, l.maxLeaseSeconds);
      if until.Err? then (t, Err(until.error))
      else (t.(entries := t.entries[u.Key() := Entry(s.presence, until.value)]), Ok(true))
  }

  /** Errors after the clock test keep the pruned state. */
  function Applied(b: State, s: Submission, trust: Trust, l: Limits, now: U64): (State, Result<bool>) {
    var checked := Verified(s, trust, l, now);
    if checked.Err? then (b, Err(checked.error))
    else
      var ticked := Ticked(b, now);
      if ticked.Err? then (b, Err(ticked.error)) else Stored(ticked.value, s, l, now)
  }

  datatype MemberPresence = MemberPresence(memberId: MemberId, devices: seq<Presence>)

  function DeviceKeys(online: set<Key>, m: MemberId): set<DeviceKey> {
    set k | k in online && k.0 == m :: k.1
  }

  function Rows(entries: map<Key, Entry>, m: MemberId, devices: seq<DeviceKey>): seq<Presence> {
    if devices == [] then []
    else (if (m, devices[0]) in entries then [entries[(m, devices[0])].presence] else []) + Rows(entries, m, devices[1..])
  }

  ghost function Grouped(entries: map<Key, Entry>, online: set<Key>, members: seq<MemberId>): seq<MemberPresence> {
    if members == [] then []
    else [MemberPresence(members[0], Rows(entries, members[0], InOrder(DeviceKeys(online, members[0]))))]
         + Grouped(entries, online, members[1..])
  }

  /** Live rows by member, members and devices in key order. */
  ghost function Snapshot(b: State, now: U64): seq<MemberPresence> {
    Grouped(b.entries, Online(b.entries, now), InOrder(MembersOf(Online(b.entries, now))))
  }

  class MeetingBoard {
    var entries: map<Key, Entry>
    var lastNow: U64
    const limits: Limits
    const trust: Trust

    function View(): State
      reads this
    {
      State(entries, lastNow)
    }

    constructor (trust: Trust, limits: Limits)
      requires trust.Valid() && limits.Valid()
      ensures this.trust == trust && this.limits == limits && View() == State(map[], 0)
    {
      this.trust, this.limits := trust, limits;
      entries, lastNow := map[], 0;
    }

    method Tick(now: U64) returns (result: Result<()>)
      modifies this
      ensures match Ticked(old(View()), now)
              case Ok(b) => View() == b && result == Ok(())
              case Err(e) => View() == old(View()) && result == Err(e)
    {
      if now < lastNow || now > MAX_INTEGER {
        return Err(ClockRollback);
      }
      lastNow := now;
      entries := map k | k in entries && now < entries[k].retainUntil :: entries[k];
      return Ok(());
    }

    /** Counts who else is online, one row at a time. */
    method CountOnline(key: Key, now: U64) returns (online: map<MemberId, nat>)
      ensures var others := Online(entries, now) - {key};
        && online.Keys == MembersOf(others)
        && forall m | m in online :: online[m] == |DevicesOf(others, m)|
    {
      online := map[];
      var rest := entries.Keys;
      ghost var seen: set<Key> := {};
      while rest != {}
        invariant rest <= entries.Keys
        invariant seen == (set k | k in entries && k !in rest && k != key && Live(entries[k].presence.update, now))
        invariant online.Keys == MembersOf(seen)
        invariant forall m | m in online :: online[m] == |DevicesOf(seen, m)|
        decreases rest
      {
        var other :| other in rest;
        rest := rest - {other};
        if other != key && Live(entries[other].presence.update, now) {
          OneMoreDevice(seen, other);
          online := online[other.0 := if other.0 in online then online[other.0] + 1 else 1];
          seen := seen + {other};
        }
      }
      assert seen == Online(entries, now) - {key};
    }

    method Apply(s: Submission, now: U64) returns (result: Result<bool>)
      modifies this
      ensures (View(), result) == Applied(old(View()), s, trust, limits, now)
    {
      hide Ticked, Verified, Stored;
      var _ :- Verified(s, trust, limits, now);
      var _ :- Tick(now);
      result := Store(s, now);
    }

    method Store(s: Submission, now: U64) returns (result: Result<bool>)
      modifies this
      ensures (View(), result) == Stored(old(View()), s, limits, now)
    {
      hide HasRoom;
      var u := s.presence.update;
      var key := u.Key();
      if key in entries {
        if u.sequence <= entries[key].presence.update.sequence {
          return if u == entries[key].presence.update then Ok(false) else Err(Error.Replay);
        }
      } else if |entries| >= limits.maxReplayEntries {
        return Err(Capacity);
      }
      if u.endpoint.Some? {
        var online := CountOnline(key, now);
        var mine := if u.memberId in online then online[u.memberId] else 0;
        RoomCounted(entries, u, limits, now, online);
        if mine >= limits.maxDevicesPerMember || (u.memberId !in online && |online| >= limits.maxMembers) {
          return Err(Capacity);
        }
      }
      var until :- CheckedAdd(now, limits.maxLeaseSeconds);
      entries := entries[key := Entry(s.presence, until)];
      return Ok(true);
    }

    method TakeSnapshot(now: U64) returns (result: Result<seq<MemberPresence>>)
      modifies this
      ensures match Ticked(old(View()), now)
              case Ok(b) => View() == b && result == Ok(Snapshot(b, now))
              case Err(e) => View() == old(View()) && result == Err(e)
    {
      hide Ticked, InOrder;
      var _ :- Tick(now);
      var online := Online(entries, now);
      var members := Sort(MembersOf(online));
      var rows, i := [], 0;
      ghost var ticked := View();
      assert members[0..] == members;
      while i < |members|
        invariant 0 <= i <= |members| && View() == ticked
        invariant rows + Grouped(entries, online, members[i..]) == Grouped(entries, online, members)
      {
        assert members[i..][0] == members[i] && members[i..][1..] == members[i + 1..];
        var devices := Sort(DeviceKeys(online, members[i]));
        rows := rows + [MemberPresence(members[i], Rows(entries, members[i], devices))];
        i := i + 1;
      }
      assert rows == Snapshot(ticked, now);
      return Ok(rows);
    }
  }

  lemma OneMoreDevice(seen: set<Key>, k: Key)
    requires k !in seen
    ensures MembersOf(seen + {k}) == MembersOf(seen) + {k.0}
    ensures DevicesOf(seen + {k}, k.0) == DevicesOf(seen, k.0) + {k}
    ensures |DevicesOf(seen + {k}, k.0)| == |DevicesOf(seen, k.0)| + 1
    ensures forall m | m != k.0 :: DevicesOf(seen + {k}, m) == DevicesOf(seen, m)
    ensures k.0 !in MembersOf(seen) ==> DevicesOf(seen, k.0) == {}
  {
    var one := DevicesOf(seen, k.0);
    assert DevicesOf(seen + {k}, k.0) == one + {k};
  }

  lemma RoomCounted(entries: map<Key, Entry>, u: Update, l: Limits, now: U64, online: map<MemberId, nat>)
    requires var others := Online(entries, now) - {u.Key()};
      online.Keys == MembersOf(others) && forall m | m in online :: online[m] == |DevicesOf(others, m)|
    ensures HasRoom(entries, u, l, now) <==>
      (if u.memberId in online then online[u.memberId] else 0) < l.maxDevicesPerMember
      && (u.memberId in online || |online| < l.maxMembers)
  {
    var others := Online(entries, now) - {u.Key()};
    if u.memberId !in online {
      assert DevicesOf(others, u.memberId) == {};
    }
    assert |online| == |online.Keys|;
  }
}
