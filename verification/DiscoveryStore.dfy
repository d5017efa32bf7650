/** The in-memory discovery store: control rows, a profile index, and its runs. One community. */
module DiscoveryStore {
  import opened Basics
  import opened Orders
  import opened Discovery
  import opened DiscoveryHistory
  import opened DiscoveryPaging

  type Profiles = map<MemberId, (CachedProfile, U64)>

  datatype Community = Community(lastNow: U64, controls: map<MemberId, MemberControl>, profiles: Profiles)

  const EMPTY: Community := Community(0, map[], map[])

  datatype Response = Updated | Profile(publication: Option<CachedProfile>) | Listing(page: Page)

  /** Encoded lengths: of an empty page with a full cursor, and of one entry. */
  datatype Encoding = Encoding(overhead: nat, size: Summary -> nat)

  function BudgetOf(enc: Encoding, l: Limits, limit: nat): Budget {
    Budget(enc.overhead, l.maxResponseBytes, limit, l.maxScan, enc.size)
  }

  /* ----- the index in key order ----- */

  function CandidateOf(profiles: Profiles, m: MemberId, filters: map<string, U32>): Candidate {
    Candidate(m, if m in profiles && Matches(filters, profiles[m].0) then Some(SummaryOf(profiles[m].0, profiles[m].1)) else None)
  }

  ghost function Listed(profiles: Profiles, filters: map<string, U32>, keys: set<MemberId>): seq<Candidate> {
    if keys == {} then []
    else [CandidateOf(profiles, Least(keys), filters)] + Listed(profiles, filters, keys - {Least(keys)})
  }

  ghost function Candidates(profiles: Profiles, filters: map<string, U32>): seq<Candidate> {
    Listed(profiles, filters, profiles.Keys)
  }

  /** The enumeration holds each key's candidate, once and in key order. */
  lemma {:induction false} ListedInOrder(profiles: Profiles, filters: map<string, U32>, keys: set<MemberId>)
    ensures |Listed(profiles, filters, keys)| == |InOrder(keys)|
    ensures forall i | 0 <= i < |InOrder(keys)| ::
              Listed(profiles, filters, keys)[i] == CandidateOf(profiles, InOrder(keys)[i], filters)
  {
    hide CandidateOf, Least;
    if keys != {} {
      ListedInOrder(profiles, filters, keys - {Least(keys)});
    }
  }

  lemma CandidatesAscend(profiles: Profiles, filters: map<string, U32>)
    ensures Ascending(Candidates(profiles, filters))
  {
    hide Listed, InOrder;
    ListedInOrder(profiles, filters, profiles.Keys);
    InOrderIsOrder(profiles.Keys);
  }

  method Enumerate(profiles: Profiles, filters: map<string, U32>) returns (cands: seq<Candidate>)
    ensures cands == Candidates(profiles, filters) && Ascending(cands)
  {
    hide Least, CandidateOf;
    cands := [];
    var keys := profiles.Keys;
    while keys != {}
      invariant keys <= profiles.Keys
      invariant cands + Listed(profiles, filters, keys) == Candidates(profiles, filters)
      decreases keys
    {
      ghost var least := Least(keys);
      var k :| k in keys && forall j | j in keys :: k <= j;
      assert k == least;
      cands := cands + [CandidateOf(profiles, k, filters)];
      keys := keys - {k};
    }
    CandidatesAscend(profiles, filters);
  }

  /* ----- one request ----- */

  /** The clock moves on and expired rows and profiles go. */
  function Advanced(c: Community, now: U64): Community {
    Community(now, Pruned(c.controls, now), map m | m in c.profiles && c.profiles[m].1 > now :: c.profiles[m])
  }

  ghost function Indexed(c: Community, m: MemberId, change: Change): Community {
    var live := LiveUntil(change.control, c.lastNow);
    var publication :=
      if change.publication.Some? then change.publication
      else if m in c.profiles then Some(c.profiles[m].0) else None;
    c.(controls := c.controls[m := change.control],
       profiles :=
         if publication.None? then c.profiles
         else if live > c.lastNow then c.profiles[m := (publication.value, live)]
         else c.profiles - {m})
  }

  ghost function Answer(c: Community, o: Operation, l: Limits, enc: Encoding): Result<Response> {
    match o
    case Query(filters, limit, after) =>
      var page :- PageAt(Candidates(c.profiles, filters), after, BudgetOf(enc, l, limit));
      Ok(Listing(page))
    case Fetch(target) => Ok(Profile(if target in c.profiles then Some(c.profiles[target].0) else None))
    case _ => Ok(Updated)
  }

  /** Errors after the clock check still move the clock and prune. */
  ghost function Executed(c: Community, r: Request, l: Limits, enc: Encoding, now: U64): (Community, Result<Response>)
    requires l.Valid()
  {
    if now < c.lastNow then (c, Err(ClockRollback))
    else
      var pruned := Advanced(c, now);
      if r.memberId !in pruned.controls && |pruned.controls| >= l.maxMembers then (pruned, Err(Capacity))
      else
        match Transition(RowOf(pruned.controls, r.memberId), r, l, now)
        case Err(e) => (pruned, Err(e))
        case Ok(change) =>
          if change.retry then (pruned, Ok(Updated))
          else
            var after := Indexed(pruned, r.memberId, change);
            (after, Answer(after, r.operation, l, enc))
  }

  class MemoryDiscoveryStore {
    var lastNow: U64
    var controls: map<MemberId, MemberControl>
    var profiles: Profiles

    function View(): Community
      reads this
    {
      Community(lastNow, controls, profiles)
    }

    constructor ()
      ensures View() == EMPTY
    {
      lastNow, controls, profiles := 0, map[], map[];
    }

    method Execute(r: Request, l: Limits, enc: Encoding, now: U64) returns (result: Result<Response>)
      requires l.Valid()
      modifies this
      ensures (View(), result) == Executed(old(View()), r, l, enc, now)
    {
      hide Transition, Answer, Indexed;
      if now < lastNow {
        return Err(ClockRollback);
      }
      lastNow := now;
      controls := map m | m in controls && controls[m].retainUntil > now :: controls[m];
      profiles := map m | m in profiles && profiles[m].1 > now :: profiles[m];
      assert View() == Advanced(old(View()), now);
      if r.memberId !in controls && |controls| >= l.maxMembers {
        return Err(Capacity);
      }
      var change :- TransitionRow(if r.memberId in controls then controls[r.memberId] else EMPTY_CONTROL, r, l, now);
      if change.retry {
        return Ok(Updated);
      }
      Index(r.memberId, change);
      result := Respond(r.operation, l, enc);
    }

    /** Stores the row and brings the profile index in line with it. */
    method Index(m: MemberId, change: Change)
      modifies this
      ensures View() == Indexed(old(View()), m, change)
    {
      hide LiveUntil;
      var liveUntil := ComputeLiveUntil(change.control, lastNow);
      var publication := change.publication;
      if publication.None? && m in profiles {
        publication := Some(profiles[m].0);
      }
      if publication.Some? {
        if liveUntil > lastNow {
          profiles := profiles[m := (publication.value, liveUntil)];
        } else {
          profiles := profiles - {m};
        }
      }
      controls := controls[m := change.control];
    }

    method Respond(o: Operation, l: Limits, enc: Encoding) returns (result: Result<Response>)
      ensures result == Answer(View(), o, l, enc)
    {
      hide PageAt, Candidates;
      match o {
        case Query(filters, limit, after) =>
          var cands := Enumerate(profiles, filters);
          var page :- RunQuery(cands, after, BudgetOf(enc, l, limit));
          return Ok(Listing(page));
        case Fetch(target) =>
          return Ok(Profile(if target in profiles then Some(profiles[target].0) else None));
        case _ =>
          return Ok(Updated);
      }
    }
  }

  /* ----- runs ----- */

  datatype State = State(community: Community, log: seq<Accepted>) {
    ghost function History(): DiscoveryHistory.History {
      DiscoveryHistory.History(community.controls, community.lastNow, log)
    }
  }

  datatype Call = Call(request: Request, now: U64)

  /** The service hands a call to the store only when its own checks pass. */
  ghost function Step(s: State, call: Call, l: Limits, enc: Encoding): State
    requires l.Valid()
  {
    if !Verified(call.request, l, call.now) then s
    else
      var before, after := Advanced(s.community, call.now), Executed(s.community, call.request, l, enc, call.now).0;
      State(after, if TakesEffect(s.community, call, l) then s.log + [Record(RowOf(before.controls, call.request.memberId), call.request, call.now)] else s.log)
  }

  ghost predicate TakesEffect(c: Community, call: Call, l: Limits)
    requires l.Valid()
  {
    var pruned, m := Advanced(c, call.now), call.request.memberId;
    && c.lastNow <= call.now
    && (m in pruned.controls || |pruned.controls| < l.maxMembers)
    && Transition(RowOf(pruned.controls, m), call.request, l, call.now).Ok?
    && !Transition(RowOf(pruned.controls, m), call.request, l, call.now).value.retry
  }

  ghost function Run(s: State, calls: seq<Call>, l: Limits, enc: Encoding): State
    requires l.Valid()
    decreases |calls|
  {
    if calls == [] then s else Run(Step(s, calls[0], l, enc), calls[1..], l, enc)
  }

  /** A visible profile belongs to a retained row that vouches for it, is the member's last
      accepted publication, and is listed until exactly the row's deadline, which is ahead. */
  ghost predicate Visible(s: State, m: MemberId) {
    m in s.community.profiles ==>
      var c := s.community;
      && m in c.controls
      && c.controls[m].publicationHash == Some(c.profiles[m].0)
      && LastPublication(s.log, m) == Some(c.profiles[m].0)
      && c.profiles[m].1 == LiveUntil(c.controls[m], c.lastNow)
      && c.lastNow < c.profiles[m].1
  }

  ghost predicate StateOk(s: State, l: Limits)
    requires l.Valid()
  {
    && Sound(s.History(), l)
    && (forall m :: Visible(s, m))
    && |s.community.controls| <= l.maxMembers
  }

  lemma LatestIsUnique(leases: map<DeviceKey, LeaseState>, now: U64, x: U64, y: U64)
    requires IsLatest(leases, leases.Keys, now, x) && IsLatest(leases, leases.Keys, now, y)
    ensures x == y
  {
  }

  /** A deadline still ahead does not move with the clock, and outlives no retained row. */
  lemma DeadlineStands(row: MemberControl, earlier: U64, now: U64)
    requires earlier <= now < LiveUntil(row, earlier)
    ensures LiveUntil(row, now) == LiveUntil(row, earlier)
  {
    var latest := LatestLease(row.leases, row.leases.Keys, earlier);
    assert IsLatest(row.leases, row.leases.Keys, now, latest);
    LatestIsUnique(row.leases, now, latest, LatestLease(row.leases, row.leases.Keys, now));
  }

  lemma PrunedIsNoLarger(controls: map<MemberId, MemberControl>, now: U64)
    ensures |Pruned(controls, now)| <= |controls|
  {
    assert Pruned(controls, now).Keys <= controls.Keys;
    SubsetSize(Pruned(controls, now).Keys, controls.Keys);
  }

  lemma AdvancedKeepsState(s: State, l: Limits, now: U64)
    requires l.Valid() && StateOk(s, l) && s.community.lastNow <= now
    ensures StateOk(State(Advanced(s.community, now), s.log), l)
    ensures State(Advanced(s.community, now), s.log).History() == PruneTo(s.History(), now)
  {
    hide Sound, LiveUntil;
    PruningIsSound(s.History(), l, now);
    PrunedIsNoLarger(s.community.controls, now);
    forall m
      ensures Visible(State(Advanced(s.community, now), s.log), m)
    {
      assert Visible(s, m);
      if m in s.community.profiles && s.community.profiles[m].1 > now {
        DeadlineStands(s.community.controls[m], s.community.lastNow, now);
        LiveRowIsRetained(s.History(), l, m);
      }
    }
  }

  lemma LiveRowIsRetained(h: DiscoveryHistory.History, l: Limits, m: MemberId)
    requires l.Valid() && Sound(h, l) && m in h.controls && h.controls[m].publicationHash.Some?
    ensures LiveUntil(h.controls[m], h.lastNow) <= h.controls[m].retainUntil
  {
    assert RowCurrent(h, m);
  }

  /** What an effective request does to the index, for every member. */
  lemma IndexedKeepsVisible(s: State, r: Request, l: Limits, m: MemberId)
    requires l.Valid() && StateOk(s, l) && Verified(r, l, s.community.lastNow)
    requires Transition(RowOf(s.community.controls, r.memberId), r, l, s.community.lastNow).Ok?
    requires !Transition(RowOf(s.community.controls, r.memberId), r, l, s.community.lastNow).value.retry
    ensures var row := RowOf(s.community.controls, r.memberId);
      var after := Indexed(s.community, r.memberId, Transition(row, r, l, s.community.lastNow).value);
      Visible(State(after, s.log + [Record(row, r, s.community.lastNow)]), m)
  {
    hide Transition, Verified, LiveUntil, Sound;
    var row, now := RowOf(s.community.controls, r.memberId), s.community.lastNow;
    RowMoves(row, r, l, now);
    PublicationOf(row, r, l, now);
    assert Visible(s, m);
    assert (s.log + [Record(row, r, now)])[..|s.log|] == s.log;
  }

  lemma PublicationOf(row: MemberControl, r: Request, l: Limits, now: U64)
    requires l.Valid() && Transition(row, r, l, now).Ok? && !Transition(row, r, l, now).value.retry
    ensures Transition(row, r, l, now).value.publication ==
      if r.operation.Publish? then Some(r.operation.publication) else None
  {
    hide Operate, Swept, Marked;
  }

  lemma StepKeepsState(s: State, call: Call, l: Limits, enc: Encoding)
    requires l.Valid() && StateOk(s, l)
    ensures StateOk(Step(s, call, l, enc), l)
  {
    hide Sound, Visible, Verified, Transition, Advanced, Answer, Indexed;
    var r, now := call.request, call.now;
    if Verified(r, l, now) && s.community.lastNow <= now {
      AdvancedKeepsState(s, l, now);
      if TakesEffect(s.community, call, l) {
        EffectKeepsState(State(Advanced(s.community, now), s.log), r, l);
      }
    }
  }

  lemma EffectKeepsState(s: State, r: Request, l: Limits)
    requires l.Valid() && StateOk(s, l) && Verified(r, l, s.community.lastNow)
    requires r.memberId in s.community.controls || |s.community.controls| < l.maxMembers
    requires Transition(RowOf(s.community.controls, r.memberId), r, l, s.community.lastNow).Ok?
    requires !Transition(RowOf(s.community.controls, r.memberId), r, l, s.community.lastNow).value.retry
    ensures var row := RowOf(s.community.controls, r.memberId);
      var after := Indexed(s.community, r.memberId, Transition(row, r, l, s.community.lastNow).value);
      StateOk(State(after, s.log + [Record(row, r, s.community.lastNow)]), l)
  {
    hide Sound, Visible, Verified, Transition, LiveUntil, Record;
    var row := RowOf(s.community.controls, r.memberId);
    var after := State(Indexed(s.community, r.memberId, Transition(row, r, l, s.community.lastNow).value),
                       s.log + [Record(row, r, s.community.lastNow)]);
    AcceptanceIsSound(s.History(), l, r);
    assert after.History() == Accept(s.History(), r, l);
    forall m
      ensures Visible(after, m)
    {
      IndexedKeepsVisible(s, r, l, m);
    }
  }
}
