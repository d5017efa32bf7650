/** Exactly which requests take effect, are recognized as retries or are refused, told by the log. */
module DiscoveryExactness {
  import opened Basics
  import opened Orders
  import opened Discovery
  import opened DiscoveryHistory

  /* ----- requests already seen ----- */

  /** The `i`th accepted request carries the ids of `r` and is unexpired. */
  predicate Known(log: seq<Accepted>, r: Request, i: nat, now: U64) {
    && i < |log| && log[i].request.memberId == r.memberId
    && log[i].request.sessionId == r.sessionId && log[i].request.requestId == r.requestId
    && now < log[i].request.expiresAt
  }

  ghost predicate Unknown(log: seq<Accepted>, r: Request, now: U64) {
    forall i: nat :: !Known(log, r, i, now)
  }

  /** The very same write. */
  predicate SameWrite(a: Request, b: Request) {
    && a.operation.IsWrite() && a.operation == b.operation
    && a.chatPublicKey == b.chatPublicKey && a.issuedAt == b.issuedAt && a.expiresAt == b.expiresAt
  }

  /** The ids of a member's unexpired accepted requests. */
  function LiveIds(log: seq<Accepted>, m: MemberId, now: U64): set<(Id, Id)> {
    set i | 0 <= i < |log| && log[i].request.memberId == m && now < log[i].request.expiresAt :: MarkerKey(log[i].request)
  }

  lemma KnownIsMarked(h: History, l: Limits, r: Request, i: nat)
    requires l.Valid() && Sound(h, l) && Known(h.log, r, i, h.lastNow)
    ensures r.memberId in h.controls
    ensures var swept := Swept(h.controls[r.memberId], h.lastNow).replay;
      MarkerKey(r) in swept && swept[MarkerKey(r)] == ReplayMarker(h.log[i].request.expiresAt, WriteDigest(h.log[i].request))
  {
    hide QuotaKept, LogLaws, RowCurrent, Traced, Timed;
    assert Remembered(h, h.log[i]);
  }

  /** The markers of the swept row are the unexpired ids. */
  lemma MarkersAreLiveIds(h: History, l: Limits, m: MemberId)
    requires l.Valid() && Sound(h, l)
    ensures Swept(RowOf(h.controls, m), h.lastNow).replay.Keys == LiveIds(h.log, m, h.lastNow)
  {
    hide QuotaKept, LogLaws, RowCurrent, Timed, LeaseTraced;
    var swept, live := Swept(RowOf(h.controls, m), h.lastNow).replay, LiveIds(h.log, m, h.lastNow);
    assert Traced(h, m);
    forall k | k in swept
      ensures k in live
    {
      assert MarkerLogged(h.log, m, k, swept[k]);
    }
    forall k | k in live
      ensures k in swept
    {
      var i :| 0 <= i < |h.log| && h.log[i].request.memberId == m && h.lastNow < h.log[i].request.expiresAt && MarkerKey(h.log[i].request) == k;
      assert Remembered(h, h.log[i]);
    }
  }

  lemma UnknownIsUnmarked(h: History, l: Limits, r: Request)
    requires l.Valid() && Sound(h, l)
    ensures MarkerKey(r) in Swept(RowOf(h.controls, r.memberId), h.lastNow).replay <==> !Unknown(h.log, r, h.lastNow)
  {
    hide Sound;
    MarkersAreLiveIds(h, l, r.memberId);
    var live := LiveIds(h.log, r.memberId, h.lastNow);
    if MarkerKey(r) in live {
      var i :| 0 <= i < |h.log| && h.log[i].request.memberId == r.memberId && h.lastNow < h.log[i].request.expiresAt && MarkerKey(h.log[i].request) == MarkerKey(r);
      assert Known(h.log, r, i, h.lastNow);
    }
    if i: nat :| Known(h.log, r, i, h.lastNow) {
      assert MarkerKey(h.log[i].request) in live;
    }
  }

  /** A request whose ids are those of an unexpired accepted one is a retry if and only if it is the
      very same write, and a replay otherwise. */
  lemma KnownDecides(h: History, l: Limits, r: Request, i: nat)
    requires l.Valid() && Sound(h, l) && Known(h.log, r, i, h.lastNow) && r.issuedAt <= h.lastNow < r.expiresAt
    ensures var row := RowOf(h.controls, r.memberId);
      Transition(row, r, l, h.lastNow) ==
        if SameWrite(r, h.log[i].request) then Ok(Change(Swept(row, h.lastNow), None, true)) else Err(Error.Replay)
  {
    hide Sound, Operate, Marked, Swept;
    KnownIsMarked(h, l, r, i);
    RowIsEarlier(h, l, r.memberId);
  }

  lemma RowIsEarlier(h: History, l: Limits, m: MemberId)
    requires l.Valid() && Sound(h, l)
    ensures RowOf(h.controls, m).lastNow <= h.lastNow
  {
    hide QuotaKept, LogLaws, PromisesKept, Timed, Traced;
    assert RowCurrent(h, m);
  }

  /* ----- requests not seen yet ----- */

  /** The publication the member's row stands at. */
  function Standing(h: History, m: MemberId): Option<CachedProfile> {
    if m in h.controls then h.controls[m].publicationHash else None
  }

  /** The devices whose leases are still remembered. */
  function Held(h: History, m: MemberId): set<DeviceKey> {
    set d | d in RowOf(h.controls, m).leases && h.lastNow < RowOf(h.controls, m).leases[d].retainUntil
  }

  /** Below its quota in the window of now. */
  predicate Below(h: History, l: Limits, m: MemberId, kind: Kind)
    requires l.Valid()
  {
    CountIn(h.log, m, kind, WindowStart(h.lastNow, Window(kind, l)), l) < Quota(kind, l)
  }

  /** A remembered device shows a higher number than it named last; a new one finds room. */
  predicate LeaseFits(h: History, l: Limits, m: MemberId, d: DeviceKey, lease: Lease) {
    if d in Held(h, m) then
      LastLease(h.log, m, d).Some? && LastLease(h.log, m, d).value.sequence < lease.sequence
    else |Held(h, m)| < l.maxDevicesPerMember
  }

  /** A publication is the standing one again or a later one, counted where it or its fields are new. */
  predicate PublicationFits(h: History, l: Limits, m: MemberId, p: CachedProfile)
    requires l.Valid()
  {
    var last := Standing(h, m);
    && (last.Some? ==> last.value == p || last.value.sequence < p.sequence)
    && (last == Some(p) || Below(h, l, m, Publications))
    && ((last.Some? && last.value.discriminators == p.discriminators) || Below(h, l, m, FieldChanges))
  }

  /** Everything a request whose ids are new must meet. */
  predicate Fits(h: History, l: Limits, r: Request)
    requires l.Valid()
  {
    var m, d := r.memberId, r.chatPublicKey;
    && |LiveIds(h.log, m, h.lastNow)| < l.maxReplayEntries
    && match r.operation
       case Publish(p, lease) => PublicationFits(h, l, m, p) && LeaseFits(h, l, m, d, lease)
       case Heartbeat(lease) => LeaseFits(h, l, m, d, lease)
       case Disconnect(leaseId, sequence) =>
         && d in Held(h, m) && LastLease(h.log, m, d).Some?
         && LastLease(h.log, m, d).value.leaseId == leaseId && LastLease(h.log, m, d).value.sequence < sequence
       case _ => Below(h, l, m, Reads)
  }

  lemma TakesBelow(h: History, l: Limits, m: MemberId, kind: Kind)
    requires l.Valid() && QuotaKept(h, l, m, kind)
    ensures Take(CounterOf(RowOf(h.controls, m), kind), h.lastNow, Window(kind, l), Quota(kind, l)).Ok? <==> Below(h, l, m, kind)
  {
    hide CountIn;
  }

  /** The row a request without a known marker is applied to. */
  function Prepared(h: History, l: Limits, r: Request): MemberControl
    requires l.Valid() && h.lastNow <= MAX_INTEGER
  {
    Marked(Swept(RowOf(h.controls, r.memberId), h.lastNow), r, h.lastNow + l.LongestWindow())
  }

  lemma PreparedKeeps(h: History, l: Limits, r: Request)
    requires l.Valid() && h.lastNow <= MAX_INTEGER
    ensures var row, p := RowOf(h.controls, r.memberId), Prepared(h, l, r);
      && p.publish == row.publish && p.discriminate == row.discriminate && p.read == row.read
      && p.profileSequence == row.profileSequence && p.publicationHash == row.publicationHash && p.discriminatorHash == row.discriminatorHash
      && p.leases.Keys == Held(h, r.memberId) && (forall d | d in p.leases :: d in row.leases && p.leases[d] == row.leases[d])
  {
    assert Prepared(h, l, r).leases.Keys == Held(h, r.memberId);
  }

  lemma LeaseDecides(h: History, l: Limits, r: Request, s: MemberControl, lease: Lease)
    requires l.Valid() && h.lastNow <= MAX_INTEGER && Traced(h, r.memberId)
    requires s.leases == Prepared(h, l, r).leases && h.lastNow < lease.expiresAt
    ensures UpdateLease(s, r, lease, l, h.lastNow).Ok? <==> LeaseFits(h, l, r.memberId, r.chatPublicKey, lease)
  {
    hide Prepared, LastLease, MarkerLogged;
    PreparedKeeps(h, l, r);
    assert |s.leases| == |s.leases.Keys|;
    if r.chatPublicKey in s.leases {
      assert LeaseTraced(h.log, r.memberId, r.chatPublicKey, s.leases[r.chatPublicKey]);
    }
  }

  lemma PublishDecides(h: History, l: Limits, r: Request, p: CachedProfile, lease: Lease)
    requires l.Valid() && h.lastNow <= MAX_INTEGER && Traced(h, r.memberId) && 0 < p.sequence && h.lastNow < lease.expiresAt
    requires QuotaKept(h, l, r.memberId, Publications) && QuotaKept(h, l, r.memberId, FieldChanges)
    ensures ApplyPublish(Prepared(h, l, r), r, p, lease, l, h.lastNow).Ok? <==>
      PublicationFits(h, l, r.memberId, p) && LeaseFits(h, l, r.memberId, r.chatPublicKey, lease)
  {
    hide Prepared, LastLease, MarkerLogged, LeaseTraced, QuotaKept, Below, Take, UpdateLease, LeaseFits;
    PreparedKeeps(h, l, r);
    TakesBelow(h, l, r.memberId, Publications);
    TakesBelow(h, l, r.memberId, FieldChanges);
    var s := Prepared(h, l, r);
    forall publish, discriminate
      ensures UpdateLease(s.(publish := publish, discriminate := discriminate), r, lease, l, h.lastNow).Ok? <==>
        LeaseFits(h, l, r.memberId, r.chatPublicKey, lease)
    {
      LeaseDecides(h, l, r, s.(publish := publish, discriminate := discriminate), lease);
    }
  }

  lemma DisconnectDecides(h: History, l: Limits, r: Request, leaseId: Id, sequence: U64)
    requires l.Valid() && h.lastNow <= MAX_INTEGER && Traced(h, r.memberId)
    ensures ApplyDisconnect(Prepared(h, l, r), r, leaseId, sequence, l, h.lastNow).Ok? <==>
      var last := LastLease(h.log, r.memberId, r.chatPublicKey);
      && r.chatPublicKey in Held(h, r.memberId) && last.Some?
      && last.value.leaseId == leaseId && last.value.sequence < sequence
  {
    hide Prepared, LastLease, MarkerLogged;
    PreparedKeeps(h, l, r);
    if r.chatPublicKey in Prepared(h, l, r).leases {
      assert LeaseTraced(h.log, r.memberId, r.chatPublicKey, RowOf(h.controls, r.memberId).leases[r.chatPublicKey]);
    }
  }

  lemma OperateDecides(h: History, l: Limits, r: Request)
    requires l.Valid() && Sound(h, l) && Verified(r, l, h.lastNow)
    ensures Operate(Prepared(h, l, r), r, l, h.lastNow).Ok? <==>
      match r.operation
      case Publish(p, lease) => PublicationFits(h, l, r.memberId, p) && LeaseFits(h, l, r.memberId, r.chatPublicKey, lease)
      case Heartbeat(lease) => LeaseFits(h, l, r.memberId, r.chatPublicKey, lease)
      case Disconnect(leaseId, sequence) =>
        var last := LastLease(h.log, r.memberId, r.chatPublicKey);
        && r.chatPublicKey in Held(h, r.memberId) && last.Some?
        && last.value.leaseId == leaseId && last.value.sequence < sequence
      case _ => Below(h, l, r.memberId, Reads)
  {
    hide Prepared, LastLease, QuotaKept, Below, Take, UpdateLease, LeaseFits, PublicationFits, ApplyPublish, ApplyDisconnect,
      PromisesKept, LogLaws, RowCurrent, Timed, Traced, Held;
    assert Traced(h, r.memberId) && QuotaKept(h, l, r.memberId, Publications) && QuotaKept(h, l, r.memberId, FieldChanges)
      && QuotaKept(h, l, r.memberId, Reads);
    match r.operation {
      case Publish(p, lease) => PublishDecides(h, l, r, p, lease);
      case Heartbeat(lease) => LeaseDecides(h, l, r, Prepared(h, l, r), lease);
      case Disconnect(leaseId, sequence) => DisconnectDecides(h, l, r, leaseId, sequence);
      case _ =>
        PreparedKeeps(h, l, r);
        TakesBelow(h, l, r.memberId, Reads);
    }
  }

  /** A verified request takes effect if and only if its ids are new and it fits. */
  lemma EffectDecides(h: History, l: Limits, r: Request)
    requires l.Valid() && Sound(h, l) && Verified(r, l, h.lastNow)
    ensures var done := Transition(RowOf(h.controls, r.memberId), r, l, h.lastNow);
      done.Ok? && !done.value.retry <==> Unknown(h.log, r, h.lastNow) && Fits(h, l, r)
  {
    hide Sound, Operate, Swept, LiveIds, LeaseFits, PublicationFits, Held, LastLease, Below, Unknown;
    var row := RowOf(h.controls, r.memberId);
    RowIsEarlier(h, l, r.memberId);
    UnknownIsUnmarked(h, l, r);
    MarkersAreLiveIds(h, l, r.memberId);
    assert |Swept(row, h.lastNow).replay| == |Swept(row, h.lastNow).replay.Keys|;
    OperateDecides(h, l, r);
    assert h.lastNow + l.LongestWindow() < U64_LIMIT;
  }

  lemma RetriesAreKnown(h: History, l: Limits, r: Request)
    requires l.Valid() && Sound(h, l) && Verified(r, l, h.lastNow)
    requires Transition(RowOf(h.controls, r.memberId), r, l, h.lastNow).Ok?
    ensures Transition(RowOf(h.controls, r.memberId), r, l, h.lastNow).value.retry ==> !Unknown(h.log, r, h.lastNow)
  {
    hide Sound, Operate, Verified, Unknown;
    UnknownIsUnmarked(h, l, r);
  }

  lemma InTime(r: Request, l: Limits, now: U64)
    requires Verified(r, l, now)
    ensures r.issuedAt <= now < r.expiresAt && now <= MAX_INTEGER
  {
  }

  /* ----- how long a row is live ----- */

  /** A row is live at a time, if at all, exactly while its publication and some live lease last. */
  lemma LiveExactly(row: MemberControl, now: U64, later: U64)
    requires now <= later
    ensures later < LiveUntil(row, now) <==>
      later < row.profileExpiresAt && exists d :: d in row.leases && later < row.leases[d].expiresAt
  {
    hide LatestLease;
    var latest := LatestLease(row.leases, row.leases.Keys, now);
    assert IsLatest(row.leases, row.leases.Keys, now, latest);
  }
}
