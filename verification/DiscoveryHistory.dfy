/** Why forgetting is safe: a table of control rows that expire and come back, next to the log of
    every request that ever took effect. */
module DiscoveryHistory {
  import opened Basics
  import opened Discovery

  /** One request that took effect (a recognized retry takes none). */
  datatype Accepted = Accepted(request: Request, at: U64, newPublication: bool, newFields: bool)

  /** `log` is a history variable: no store keeps it. */
  datatype History = History(controls: map<MemberId, MemberControl>, lastNow: U64, log: seq<Accepted>)

  function RowOf(controls: map<MemberId, MemberControl>, m: MemberId): MemberControl {
    if m in controls then controls[m] else EMPTY_CONTROL
  }

  function Pruned(controls: map<MemberId, MemberControl>, now: U64): map<MemberId, MemberControl> {
    map m | m in controls && controls[m].retainUntil > now :: controls[m]
  }

  function Record(row: MemberControl, r: Request, now: U64): Accepted {
    Accepted(r, now,
             r.operation.Publish? && !SamePublication(row, r.operation.publication),
             r.operation.Publish? && NewFields(row, r.operation.publication))
  }

  /* ----- the three ways the table moves ----- */

  function PruneTo(h: History, now: U64): History {
    h.(controls := Pruned(h.controls, now), lastNow := now)
  }

  /** A request takes effect on a table already pruned to its time. */
  function Accept(h: History, r: Request, l: Limits): History
    requires l.Valid()
    requires Transition(RowOf(h.controls, r.memberId), r, l, h.lastNow).Ok?
  {
    var row := RowOf(h.controls, r.memberId);
    h.(controls := h.controls[r.memberId := Transition(row, r, l, h.lastNow).value.control],
       log := h.log + [Record(row, r, h.lastNow)])
  }

  /** A retry may write its swept row back. */
  function Retouch(h: History, m: MemberId): History
    requires m in h.controls
  {
    h.(controls := h.controls[m := Swept(h.controls[m], h.lastNow)])
  }

  /* ----- times ----- */

  ghost predicate Timed(h: History, l: Limits) {
    && (forall i | 0 <= i < |h.log| :: h.log[i].at <= h.lastNow && Verified(h.log[i].request, l, h.log[i].at))
    && (forall i, j | 0 <= i < j < |h.log| :: h.log[i].at <= h.log[j].at)
  }

  /* ----- quotas ----- */

  datatype Kind = Publications | FieldChanges | Reads

  function Window(kind: Kind, l: Limits): U64 {
    match kind case Publications => l.publishWindow case FieldChanges => l.discriminatorWindow case Reads => l.readWindow
  }

  function Quota(kind: Kind, l: Limits): U64 {
    match kind case Publications => l.publishLimit case FieldChanges => l.discriminatorLimit case Reads => l.readLimit
  }

  function CounterOf(row: MemberControl, kind: Kind): Counter {
    match kind case Publications => row.publish case FieldChanges => row.discriminate case Reads => row.read
  }

  predicate Counts(kind: Kind, e: Accepted) {
    match kind
    case Publications => e.newPublication
    case FieldChanges => e.newFields
    case Reads => !e.request.operation.IsWrite()
  }

  /** Events of one kind by one member, over all devices and sessions, in the window starting at `start`. */
  function CountIn(log: seq<Accepted>, m: MemberId, kind: Kind, start: int, l: Limits): nat
    requires l.Valid()
  {
    if log == [] then 0
    else
      var e := log[|log| - 1];
      CountIn(log[..|log| - 1], m, kind, start, l)
      + if e.request.memberId == m && Counts(kind, e) && WindowStart(e.at, Window(kind, l)) == start then 1 else 0
  }

  ghost predicate QuotaKept(h: History, l: Limits, m: MemberId, kind: Kind)
    requires l.Valid()
  {
    var w := Window(kind, l);
    var start := WindowStart(h.lastNow, w);
    var row := RowOf(h.controls, m);
    && CounterOf(row, kind).start <= start
    && CountIn(h.log, m, kind, start, l) == (if CounterOf(row, kind).start == start then CounterOf(row, kind).used else 0)
    && (CountIn(h.log, m, kind, start, l) > 0 ==> m in h.controls && start + w <= row.retainUntil)
    && (forall s: int | start < s :: CountIn(h.log, m, kind, s, l) == 0)
    && (forall s: int :: CountIn(h.log, m, kind, s, l) <= Quota(kind, l))
  }

  lemma WindowStartMonotone(a: U64, b: U64, w: U64)
    requires w != 0 && a <= b
    ensures WindowStart(a, w) <= WindowStart(b, w)
  {
    DivisionBounds(a, w);
    DivisionBounds(b, w);
    if b / w < a / w {
      MulMonotone(b / w + 1, a / w, w);
    } else {
      MulMonotone(a / w, b / w, w);
    }
  }

  lemma QuotaSurvivesPruning(h: History, l: Limits, m: MemberId, kind: Kind, now: U64)
    requires l.Valid() && QuotaKept(h, l, m, kind) && h.lastNow <= now
    ensures QuotaKept(PruneTo(h, now), l, m, kind)
  {
    hide CountIn;
    WindowStartMonotone(h.lastNow, now, Window(kind, l));
  }

  lemma TakenOrKept(row: MemberControl, r: Request, l: Limits, now: U64, kind: Kind)
    requires l.Valid() && Transition(row, r, l, now).Ok? && !Transition(row, r, l, now).value.retry
    ensures var e, after := Record(row, r, now), Transition(row, r, l, now).value.control;
      && (Counts(kind, e) ==> Take(CounterOf(row, kind), now, Window(kind, l), Quota(kind, l)) == Ok(CounterOf(after, kind)))
      && (!Counts(kind, e) ==> CounterOf(after, kind) == CounterOf(row, kind))
      && now + Window(kind, l) <= after.retainUntil
      && row.retainUntil <= after.retainUntil && now + l.maxRequestSeconds <= after.retainUntil
  {
    hide Take, Operate, Swept;
    var marked := Marked(Swept(row, now), r, now + l.LongestWindow());
    SweptKeepsCounters(row, now);
    OperateTakes(marked, r, l, now, kind);
  }

  lemma SweptKeepsCounters(row: MemberControl, now: U64)
    ensures var s := Swept(row, now);
      && s.publish == row.publish && s.discriminate == row.discriminate && s.read == row.read
      && s.profileSequence == row.profileSequence && s.publicationHash == row.publicationHash
      && s.discriminatorHash == row.discriminatorHash && s.retainUntil == row.retainUntil
      && s.lastNow == now && s.profileExpiresAt == row.profileExpiresAt
  {
  }

  lemma OperateTakes(row: MemberControl, r: Request, l: Limits, now: U64, kind: Kind)
    requires l.Valid() && Operate(row, r, l, now).Ok?
    ensures var e, after := Record(row, r, now), Operate(row, r, l, now).value;
      && (Counts(kind, e) ==> Take(CounterOf(row, kind), now, Window(kind, l), Quota(kind, l)) == Ok(CounterOf(after, kind)))
      && (!Counts(kind, e) ==> CounterOf(after, kind) == CounterOf(row, kind))
      && row.retainUntil <= after.retainUntil
  {
    hide Take;
  }

  lemma QuotaSurvivesAcceptance(h: History, l: Limits, m: MemberId, kind: Kind, r: Request)
    requires l.Valid() && QuotaKept(h, l, m, kind)
    requires Transition(RowOf(h.controls, r.memberId), r, l, h.lastNow).Ok?
    requires !Transition(RowOf(h.controls, r.memberId), r, l, h.lastNow).value.retry
    ensures QuotaKept(Accept(h, r, l), l, m, kind)
  {
    hide Transition;
    var after, row := Accept(h, r, l), RowOf(h.controls, r.memberId);
    var w, start := Window(kind, l), WindowStart(h.lastNow, Window(kind, l));
    TakenOrKept(row, r, l, h.lastNow, kind);
    assert after.log[..|h.log|] == h.log;
    forall s: int
      ensures CountIn(after.log, m, kind, s, l) == CountIn(h.log, m, kind, s, l)
        + if r.memberId == m && Counts(kind, Record(row, r, h.lastNow)) && s == start then 1 else 0
    {
    }
  }

  lemma QuotaSurvivesRetouch(h: History, l: Limits, m: MemberId, kind: Kind, who: MemberId)
    requires l.Valid() && QuotaKept(h, l, m, kind) && who in h.controls
    ensures QuotaKept(Retouch(h, who), l, m, kind)
  {
    hide CountIn;
  }

  /* ----- promises: what an accepted request keeps true until its own deadline ----- */

  /** The same wrapper cannot take effect again while it is unexpired. */
  predicate Remembered(h: History, e: Accepted) {
    h.lastNow < e.request.expiresAt ==>
      var m := e.request.memberId;
      && m in h.controls && e.request.expiresAt <= h.controls[m].retainUntil
      && MarkerKey(e.request) in h.controls[m].replay
      && h.controls[m].replay[MarkerKey(e.request)] == ReplayMarker(e.request.expiresAt, WriteDigest(e.request))
  }

  /** The lease number a request carries, if any. */
  function LeaseNumber(o: Operation): Option<U64> {
    match o
    case Publish(_, lease) => Some(lease.sequence)
    case Heartbeat(lease) => Some(lease.sequence)
    case Disconnect(_, sequence) => Some(sequence)
    case _ => None
  }

  /** No request for the device with this or a lower number can take effect while one signed by
      now may still be unexpired. */
  predicate FloorHeld(h: History, e: Accepted, l: Limits) {
    LeaseNumber(e.request.operation).Some? && h.lastNow < e.at + l.maxRequestSeconds ==>
      var m, d := e.request.memberId, e.request.chatPublicKey;
      && m in h.controls && e.at + l.maxRequestSeconds <= h.controls[m].retainUntil
      && d in h.controls[m].leases
      && LeaseNumber(e.request.operation).value <= h.controls[m].leases[d].sequence
      && e.at + l.maxRequestSeconds <= h.controls[m].leases[d].retainUntil
  }

  /** While the publication of `e` is unexpired, the row stands at least as high as `f`, which
      was accepted at the same time or later. */
  predicate Superseding(h: History, e: Accepted, f: Accepted) {
    && e.request.operation.Publish? && f.request.operation.Publish?
    && e.request.memberId == f.request.memberId
    && h.lastNow < e.request.operation.publication.expiresAt ==>
      var m, p := e.request.memberId, f.request.operation.publication;
      && m in h.controls && e.request.operation.publication.expiresAt <= h.controls[m].retainUntil
      && p.sequence <= h.controls[m].profileSequence
      && (p.sequence == h.controls[m].profileSequence ==> h.controls[m].publicationHash == Some(p))
  }

  ghost predicate PromisesKept(h: History, l: Limits) {
    && (forall i | 0 <= i < |h.log| :: Remembered(h, h.log[i]))
    && (forall i | 0 <= i < |h.log| :: FloorHeld(h, h.log[i], l))
    && (forall i, j | 0 <= i <= j < |h.log| :: Superseding(h, h.log[i], h.log[j]))
  }

  lemma PromisesSurvivePruning(h: History, l: Limits, now: U64)
    requires PromisesKept(h, l) && h.lastNow <= now
    ensures PromisesKept(PruneTo(h, now), l)
  {
    var after := PruneTo(h, now);
    forall i | 0 <= i < |h.log|
      ensures Remembered(after, h.log[i]) && FloorHeld(after, h.log[i], l)
    {
      assert Remembered(h, h.log[i]) && FloorHeld(h, h.log[i], l);
    }
    forall i, j | 0 <= i <= j < |h.log|
      ensures Superseding(after, h.log[i], h.log[j])
    {
      assert Superseding(h, h.log[i], h.log[j]);
    }
  }

  lemma PromisesSurviveRetouch(h: History, l: Limits, m: MemberId)
    requires PromisesKept(h, l) && m in h.controls
    ensures PromisesKept(Retouch(h, m), l)
  {
    var after := Retouch(h, m);
    forall i | 0 <= i < |h.log|
      ensures Remembered(after, h.log[i]) && FloorHeld(after, h.log[i], l)
    {
      assert Remembered(h, h.log[i]) && FloorHeld(h, h.log[i], l);
    }
    forall i, j | 0 <= i <= j < |h.log|
      ensures Superseding(after, h.log[i], h.log[j])
    {
      assert Superseding(h, h.log[i], h.log[j]);
    }
  }

  /** An acceptance is the operation on the swept and marked row. */
  lemma TransitionIsOperate(row: MemberControl, r: Request, l: Limits, now: U64)
    requires l.Valid() && Transition(row, r, l, now).Ok? && !Transition(row, r, l, now).value.retry
    ensures MarkerKey(r) !in Swept(row, now).replay && now + l.LongestWindow() < U64_LIMIT
    ensures var marked := Marked(Swept(row, now), r, now + l.LongestWindow());
      Operate(marked, r, l, now) == Ok(Transition(row, r, l, now).value.control)
  {
    hide Operate, Swept, Marked;
  }

  lemma MarkedKeeps(s: MemberControl, r: Request, until: U64)
    ensures var m := Marked(s, r, until);
      && m.replay == s.replay[MarkerKey(r) := ReplayMarker(r.expiresAt, WriteDigest(r))]
      && m.leases == s.leases && m.lastNow == s.lastNow
      && m.profileSequence == s.profileSequence && m.profileExpiresAt == s.profileExpiresAt
      && m.publicationHash == s.publicationHash && m.discriminatorHash == s.discriminatorHash
      && s.retainUntil <= m.retainUntil && until <= m.retainUntil
  {
  }

  /** The device's lease is the one the request signed; nothing else about leases moves. */
  ghost predicate LeaseMoved(before: MemberControl, after: MemberControl, r: Request, l: Limits, now: U64) {
    var d := r.chatPublicKey;
    && OthersKept(before, after, d)
    && (match r.operation
        case Publish(_, lease) => LeaseSet(before, after, d, lease.leaseId, lease.sequence, lease.expiresAt, l, now)
        case Heartbeat(lease) => LeaseSet(before, after, d, lease.leaseId, lease.sequence, lease.expiresAt, l, now)
        case Disconnect(leaseId, sequence) =>
          d in before.leases && before.leases[d].leaseId == leaseId && LeaseSet(before, after, d, leaseId, sequence, now, l, now)
        case _ => after.leases == before.leases)
  }

  lemma OperateMoves(s: MemberControl, r: Request, l: Limits, now: U64)
    requires l.Valid() && Operate(s, r, l, now).Ok?
    ensures var after, op := Operate(s, r, l, now).value, r.operation;
      && after.replay == s.replay && after.lastNow == s.lastNow && s.retainUntil <= after.retainUntil
      && LeaseMoved(s, after, r, l, now)
      && (op.Publish? ==>
            && s.profileSequence <= op.publication.sequence
            && (s.profileSequence == op.publication.sequence ==> s.publicationHash == Some(op.publication))
            && after.profileSequence == op.publication.sequence
            && after.profileExpiresAt == op.publication.expiresAt
            && after.publicationHash == Some(op.publication) && after.discriminatorHash == Some(op.publication.discriminators)
            && op.publication.expiresAt <= after.retainUntil)
      && (!op.Publish? ==>
            && after.profileSequence == s.profileSequence
            && after.profileExpiresAt == s.profileExpiresAt
            && after.publicationHash == s.publicationHash && after.discriminatorHash == s.discriminatorHash)
  {
    hide Take;
  }

  /** What one acceptance does to its row, read off the transition once. */
  lemma RowMoves(row: MemberControl, r: Request, l: Limits, now: U64)
    requires l.Valid() && Transition(row, r, l, now).Ok? && !Transition(row, r, l, now).value.retry
    ensures var after, swept, op := Transition(row, r, l, now).value.control, Swept(row, now), r.operation;
      && MarkerKey(r) !in swept.replay
      && after.replay == swept.replay[MarkerKey(r) := ReplayMarker(r.expiresAt, WriteDigest(r))]
      && after.lastNow == now
      && row.retainUntil <= after.retainUntil && now + l.maxRequestSeconds <= after.retainUntil
      && LeaseMoved(swept, after, r, l, now)
      && (op.Publish? ==>
            && row.profileSequence <= op.publication.sequence
            && (row.profileSequence == op.publication.sequence ==> row.publicationHash == Some(op.publication))
            && after.profileSequence == op.publication.sequence
            && after.profileExpiresAt == op.publication.expiresAt
            && after.publicationHash == Some(op.publication) && after.discriminatorHash == Some(op.publication.discriminators)
            && op.publication.expiresAt <= after.retainUntil)
      && (!op.Publish? ==>
            && after.profileSequence == row.profileSequence
            && after.profileExpiresAt == row.profileExpiresAt
            && after.publicationHash == row.publicationHash && after.discriminatorHash == row.discriminatorHash)
  {
    hide Transition, Operate, Swept, Marked, LeaseSet;
    TransitionIsOperate(row, r, l, now);
    var swept, until := Swept(row, now), now + l.LongestWindow();
    SweptKeepsCounters(row, now);
    MarkedKeeps(swept, r, until);
    OperateMoves(Marked(swept, r, until), r, l, now);
    LeasesAsMarked(swept, Marked(swept, r, until), Transition(row, r, l, now).value.control, r, l, now);
  }

  lemma LeasesAsMarked(s: MemberControl, marked: MemberControl, after: MemberControl, r: Request, l: Limits, now: U64)
    requires marked.leases == s.leases && LeaseMoved(marked, after, r, l, now)
    ensures LeaseMoved(s, after, r, l, now)
  {
  }

  lemma PromisesSurviveAcceptance(h: History, l: Limits, r: Request)
    requires l.Valid() && Timed(h, l) && PromisesKept(h, l) && Verified(r, l, h.lastNow)
    requires Transition(RowOf(h.controls, r.memberId), r, l, h.lastNow).Ok?
    requires !Transition(RowOf(h.controls, r.memberId), r, l, h.lastNow).value.retry
    ensures PromisesKept(Accept(h, r, l), l)
  {
    hide Transition, Verified;
    var row, after, now := RowOf(h.controls, r.memberId), Accept(h, r, l), h.lastNow;
    RowMoves(row, r, l, now);
    ExpiresInTime(r, l, now);
    forall i | 0 <= i < |after.log|
      ensures Remembered(after, after.log[i]) && FloorHeld(after, after.log[i], l)
    {
      if i < |h.log| {
        assert Remembered(h, h.log[i]) && FloorHeld(h, h.log[i], l);
      }
    }
    forall i, j | 0 <= i <= j < |after.log|
      ensures Superseding(after, after.log[i], after.log[j])
    {
      if j < |h.log| {
        assert Superseding(h, h.log[i], h.log[j]);
      } else if i < |h.log| {
        assert Superseding(h, h.log[i], h.log[i]);
      }
    }
  }

  lemma ExpiresInTime(r: Request, l: Limits, now: U64)
    requires Verified(r, l, now)
    ensures r.expiresAt <= r.issuedAt + l.maxRequestSeconds && r.issuedAt <= now < r.expiresAt
    ensures r.expiresAt <= now + l.maxRequestSeconds
    ensures r.operation.Publish? ==> now < r.operation.publication.expiresAt
  {
  }

  /* ----- the publication a row stands for ----- */

  function LastPublication(log: seq<Accepted>, m: MemberId): Option<CachedProfile> {
    if log == [] then None
    else
      var e := log[|log| - 1];
      if e.request.memberId == m && e.request.operation.Publish? then Some(e.request.operation.publication)
      else LastPublication(log[..|log| - 1], m)
  }

  /** A retained row names the member's last accepted publication, or none since its creation,
      and outlives that publication and every lease it holds. */
  ghost predicate RowCurrent(h: History, m: MemberId) {
    m in h.controls ==>
      var row := h.controls[m];
      && row.lastNow <= h.lastNow
      && (row.publicationHash.Some? ==>
            && LastPublication(h.log, m) == row.publicationHash
            && row.profileExpiresAt == row.publicationHash.value.expiresAt
            && row.profileExpiresAt <= row.retainUntil)
      && (row.publicationHash.None? ==> row.profileExpiresAt == 0)
      && (forall d | d in row.leases :: row.leases[d].expiresAt <= row.leases[d].retainUntil)
  }

  lemma LeasesOutlived(row: MemberControl, r: Request, l: Limits, now: U64)
    requires l.Valid() && Transition(row, r, l, now).Ok? && !Transition(row, r, l, now).value.retry
    requires forall d | d in row.leases :: row.leases[d].expiresAt <= row.leases[d].retainUntil
    ensures forall d | d in Transition(row, r, l, now).value.control.leases ::
              var lease := Transition(row, r, l, now).value.control.leases[d];
              lease.expiresAt <= lease.retainUntil
  {
    hide Transition;
    RowMoves(row, r, l, now);
  }

  lemma RowCurrentSurvivesAcceptance(h: History, l: Limits, r: Request, m: MemberId)
    requires l.Valid() && RowCurrent(h, m) && RowCurrent(h, r.memberId) && Verified(r, l, h.lastNow)
    requires Transition(RowOf(h.controls, r.memberId), r, l, h.lastNow).Ok?
    requires !Transition(RowOf(h.controls, r.memberId), r, l, h.lastNow).value.retry
    ensures RowCurrent(Accept(h, r, l), m)
  {
    hide Transition, Verified;
    var row, after := RowOf(h.controls, r.memberId), Accept(h, r, l);
    RowMoves(row, r, l, h.lastNow);
    LeasesOutlived(row, r, l, h.lastNow);
    assert after.log[..|h.log|] == h.log;
  }

  /* ----- where a row's fields come from ----- */

  datatype LeaseName = LeaseName(leaseId: Id, sequence: U64)

  /** The lease a request names, if any. */
  function NamedLease(o: Operation): Option<LeaseName> {
    match o
    case Publish(_, lease) => Some(LeaseName(lease.leaseId, lease.sequence))
    case Heartbeat(lease) => Some(LeaseName(lease.leaseId, lease.sequence))
    case Disconnect(leaseId, sequence) => Some(LeaseName(leaseId, sequence))
    case _ => None
  }

  /** The lease named last for a device. */
  function LastLease(log: seq<Accepted>, m: MemberId, d: DeviceKey): Option<LeaseName> {
    if log == [] then None
    else
      var r := log[|log| - 1].request;
      if r.memberId == m && r.chatPublicKey == d && NamedLease(r.operation).Some? then NamedLease(r.operation)
      else LastLease(log[..|log| - 1], m, d)
  }

  /** A marker is that of a logged request. */
  ghost predicate MarkerLogged(log: seq<Accepted>, m: MemberId, k: (Id, Id), marker: ReplayMarker) {
    exists i ::
      && 0 <= i < |log| && log[i].request.memberId == m && MarkerKey(log[i].request) == k
      && marker == ReplayMarker(log[i].request.expiresAt, WriteDigest(log[i].request))
  }

  ghost predicate LeaseTraced(log: seq<Accepted>, m: MemberId, d: DeviceKey, lease: LeaseState) {
    LastLease(log, m, d) == Some(LeaseName(lease.leaseId, lease.sequence))
  }

  predicate FloorTraced(row: MemberControl) {
    if row.publicationHash.Some? then
      && row.profileSequence == row.publicationHash.value.sequence
      && row.discriminatorHash == Some(row.publicationHash.value.discriminators)
    else row.profileSequence == 0 && row.discriminatorHash.None?
  }

  /** Markers and leases are those of logged requests, and the floor is the publication's. */
  ghost predicate Traced(h: History, m: MemberId) {
    m in h.controls ==>
      var row := h.controls[m];
      && (forall k | k in row.replay :: MarkerLogged(h.log, m, k, row.replay[k]))
      && (forall d | d in row.leases :: LeaseTraced(h.log, m, d, row.leases[d]))
      && FloorTraced(row)
  }

  lemma MarkerStaysLogged(log: seq<Accepted>, e: Accepted, m: MemberId, k: (Id, Id), marker: ReplayMarker)
    requires MarkerLogged(log, m, k, marker)
    ensures MarkerLogged(log + [e], m, k, marker)
  {
    var i :| 0 <= i < |log| && log[i].request.memberId == m && MarkerKey(log[i].request) == k
      && marker == ReplayMarker(log[i].request.expiresAt, WriteDigest(log[i].request));
    assert (log + [e])[i] == log[i];
  }

  lemma LastLeaseAppend(log: seq<Accepted>, e: Accepted, m: MemberId, d: DeviceKey)
    ensures LastLease(log + [e], m, d) ==
      if e.request.memberId == m && e.request.chatPublicKey == d && NamedLease(e.request.operation).Some?
      then NamedLease(e.request.operation) else LastLease(log, m, d)
  {
    assert (log + [e])[..|log|] == log;
  }

  lemma OwnRowTraced(h: History, l: Limits, r: Request)
    requires l.Valid() && Traced(h, r.memberId)
    requires Transition(RowOf(h.controls, r.memberId), r, l, h.lastNow).Ok?
    requires !Transition(RowOf(h.controls, r.memberId), r, l, h.lastNow).value.retry
    ensures Traced(Accept(h, r, l), r.memberId)
  {
    hide Transition, MarkerLogged, LastLease;
    var m, row, after, e := r.memberId, RowOf(h.controls, r.memberId), Accept(h, r, l), Record(RowOf(h.controls, r.memberId), r, h.lastNow);
    RowMoves(row, r, l, h.lastNow);
    var next := after.controls[m];
    forall k | k in next.replay
      ensures MarkerLogged(after.log, m, k, next.replay[k])
    {
      if k == MarkerKey(r) {
        NewMarkerLogged(h.log, e);
      } else {
        MarkerStaysLogged(h.log, e, m, k, next.replay[k]);
      }
    }
    forall d | d in next.leases
      ensures LeaseTraced(after.log, m, d, next.leases[d])
    {
      LastLeaseAppend(h.log, e, m, d);
    }
  }

  lemma NewMarkerLogged(log: seq<Accepted>, e: Accepted)
    ensures MarkerLogged(log + [e], e.request.memberId, MarkerKey(e.request), ReplayMarker(e.request.expiresAt, WriteDigest(e.request)))
  {
    assert (log + [e])[|log|] == e;
  }

  lemma TracedSurvivesAcceptance(h: History, l: Limits, r: Request, m: MemberId)
    requires l.Valid() && Traced(h, m) && Traced(h, r.memberId)
    requires Transition(RowOf(h.controls, r.memberId), r, l, h.lastNow).Ok?
    requires !Transition(RowOf(h.controls, r.memberId), r, l, h.lastNow).value.retry
    ensures Traced(Accept(h, r, l), m)
  {
    hide Transition, MarkerLogged, LastLease;
    if m == r.memberId {
      OwnRowTraced(h, l, r);
    } else if m in h.controls {
      var e := Record(RowOf(h.controls, r.memberId), r, h.lastNow);
      forall k | k in h.controls[m].replay
        ensures MarkerLogged(h.log + [e], m, k, h.controls[m].replay[k])
      {
        MarkerStaysLogged(h.log, e, m, k, h.controls[m].replay[k]);
      }
      forall d | d in h.controls[m].leases
        ensures LeaseTraced(h.log + [e], m, d, h.controls[m].leases[d])
      {
        LastLeaseAppend(h.log, e, m, d);
      }
    }
  }

  lemma TracedSurvivesRetouch(h: History, who: MemberId, m: MemberId)
    requires Traced(h, m) && who in h.controls
    ensures Traced(Retouch(h, who), m)
  {
    hide MarkerLogged, LastLease;
  }

  /* ----- laws of the log ----- */

  /** A wrapper id comes back only after the wrapper it named has expired. */
  predicate OnceWhileUnexpired(e: Accepted, f: Accepted) {
    e.request.memberId == f.request.memberId && MarkerKey(e.request) == MarkerKey(f.request) ==>
      e.request.expiresAt <= f.at
  }

  /** After a lease number is accepted for a device, a request for that device with a number not
      above it takes effect only if it was signed afterwards. */
  predicate LeasesForward(e: Accepted, f: Accepted) {
    && e.request.memberId == f.request.memberId && e.request.chatPublicKey == f.request.chatPublicKey
    && LeaseNumber(e.request.operation).Some? && LeaseNumber(f.request.operation).Some?
    && LeaseNumber(f.request.operation).value <= LeaseNumber(e.request.operation).value ==>
      e.at < f.request.issuedAt
  }

  /** While the publication of `e` is unexpired, nothing below an intermediate `g` is accepted. */
  predicate PublicationsForward(e: Accepted, g: Accepted, f: Accepted) {
    && e.request.operation.Publish? && g.request.operation.Publish? && f.request.operation.Publish?
    && e.request.memberId == g.request.memberId == f.request.memberId
    && f.at < e.request.operation.publication.expiresAt ==>
      && g.request.operation.publication.sequence <= f.request.operation.publication.sequence
      && (g.request.operation.publication.sequence == f.request.operation.publication.sequence ==>
            g.request.operation.publication == f.request.operation.publication)
  }

  ghost predicate LogLaws(log: seq<Accepted>) {
    && (forall i, j | 0 <= i < j < |log| :: OnceWhileUnexpired(log[i], log[j]))
    && (forall i, j | 0 <= i < j < |log| :: LeasesForward(log[i], log[j]))
    && (forall i, k, j | 0 <= i <= k < j < |log| :: PublicationsForward(log[i], log[k], log[j]))
  }

  lemma LawsSurviveAcceptance(h: History, l: Limits, r: Request)
    requires l.Valid() && Timed(h, l) && PromisesKept(h, l) && LogLaws(h.log) && Verified(r, l, h.lastNow)
    requires Transition(RowOf(h.controls, r.memberId), r, l, h.lastNow).Ok?
    requires !Transition(RowOf(h.controls, r.memberId), r, l, h.lastNow).value.retry
    ensures LogLaws(Accept(h, r, l).log)
  {
    hide Transition, Verified;
    var row, log, n := RowOf(h.controls, r.memberId), Accept(h, r, l).log, |h.log|;
    RowMoves(row, r, l, h.lastNow);
    ExpiresInTime(r, l, h.lastNow);
    forall i | 0 <= i < n
      ensures OnceWhileUnexpired(log[i], log[n]) && LeasesForward(log[i], log[n])
    {
      assert log[i] == h.log[i];
      assert Remembered(h, h.log[i]) && FloorHeld(h, h.log[i], l);
    }
    forall i, k | 0 <= i <= k < n
      ensures PublicationsForward(log[i], log[k], log[n])
    {
      assert log[i] == h.log[i] && log[k] == h.log[k];
      assert Superseding(h, h.log[i], h.log[k]);
    }
  }

  /* ----- everything together ----- */

  ghost predicate Sound(h: History, l: Limits)
    requires l.Valid()
  {
    && Timed(h, l)
    && (forall m: MemberId, kind :: QuotaKept(h, l, m, kind))
    && PromisesKept(h, l)
    && (forall m :: RowCurrent(h, m))
    && (forall m :: Traced(h, m))
    && LogLaws(h.log)
  }

  lemma EmptyIsSound(l: Limits)
    requires l.Valid()
    ensures Sound(History(map[], 0, []), l)
  {
  }

  lemma PruningIsSound(h: History, l: Limits, now: U64)
    requires l.Valid() && Sound(h, l) && h.lastNow <= now
    ensures Sound(PruneTo(h, now), l)
  {
    hide QuotaKept, PromisesKept, LogLaws, MarkerLogged, LeaseTraced;
    PromisesSurvivePruning(h, l, now);
    forall m: MemberId, kind
      ensures QuotaKept(PruneTo(h, now), l, m, kind)
    {
      QuotaSurvivesPruning(h, l, m, kind, now);
    }
    forall m
      ensures RowCurrent(PruneTo(h, now), m) && Traced(PruneTo(h, now), m)
    {
      assert RowCurrent(h, m) && Traced(h, m);
    }
  }

  lemma AcceptanceIsSound(h: History, l: Limits, r: Request)
    requires l.Valid() && Sound(h, l) && Verified(r, l, h.lastNow)
    requires Transition(RowOf(h.controls, r.memberId), r, l, h.lastNow).Ok?
    requires !Transition(RowOf(h.controls, r.memberId), r, l, h.lastNow).value.retry
    ensures Sound(Accept(h, r, l), l)
  {
    hide QuotaKept, PromisesKept, LogLaws, Transition, RowCurrent, Verified, Traced;
    PromisesSurviveAcceptance(h, l, r);
    LawsSurviveAcceptance(h, l, r);
    forall m: MemberId, kind
      ensures QuotaKept(Accept(h, r, l), l, m, kind)
    {
      QuotaSurvivesAcceptance(h, l, m, kind, r);
    }
    forall m
      ensures RowCurrent(Accept(h, r, l), m) && Traced(Accept(h, r, l), m)
    {
      RowCurrentSurvivesAcceptance(h, l, r, m);
      TracedSurvivesAcceptance(h, l, r, m);
    }
  }

  lemma RetouchIsSound(h: History, l: Limits, who: MemberId)
    requires l.Valid() && Sound(h, l) && who in h.controls
    ensures Sound(Retouch(h, who), l)
  {
    hide QuotaKept, PromisesKept, LogLaws, Traced;
    PromisesSurviveRetouch(h, l, who);
    forall m: MemberId, kind
      ensures QuotaKept(Retouch(h, who), l, m, kind)
    {
      QuotaSurvivesRetouch(h, l, m, kind, who);
    }
    forall m
      ensures RowCurrent(Retouch(h, who), m) && Traced(Retouch(h, who), m)
    {
      assert RowCurrent(h, m) && RowCurrent(h, who);
      TracedSurvivesRetouch(h, who, m);
    }
  }

  /** A recognized retry means a retained row: the marker it matches is stored there. */
  lemma RetryHasRow(h: History, l: Limits, r: Request)
    requires l.Valid() && Transition(RowOf(h.controls, r.memberId), r, l, h.lastNow).Ok?
    requires Transition(RowOf(h.controls, r.memberId), r, l, h.lastNow).value.retry
    ensures r.memberId in h.controls
    ensures Transition(RowOf(h.controls, r.memberId), r, l, h.lastNow).value == Change(Swept(h.controls[r.memberId], h.lastNow), None, true)
  {
    hide Take;
  }
}
