/** What every run of the in-memory discovery store guarantees to members. */
module DiscoveryStoreTheorems {
  import opened Basics
  import opened Discovery
  import opened DiscoveryExactness
  import opened DiscoveryHistory
  import opened DiscoveryPaging
  import opened DiscoveryStore

  lemma {:induction false} RunKeepsState(s: State, calls: seq<Call>, l: Limits, enc: Encoding)
    requires l.Valid() && StateOk(s, l)
    ensures StateOk(Run(s, calls, l, enc), l)
    decreases |calls|
  {
    hide StateOk, Step;
    if calls != [] {
      StepKeepsState(s, calls[0], l, enc);
      RunKeepsState(Step(s, calls[0], l, enc), calls[1..], l, enc);
    }
  }

  ghost function Reached(calls: seq<Call>, l: Limits, enc: Encoding): State
    requires l.Valid()
  {
    Run(State(EMPTY, []), calls, l, enc)
  }

  lemma ReachedIsOk(calls: seq<Call>, l: Limits, enc: Encoding)
    requires l.Valid()
    ensures StateOk(Reached(calls, l, enc), l)
  {
    hide Sound, Run;
    EmptyIsSound(l);
    assert State(EMPTY, []).History() == History(map[], 0, []);
    RunKeepsState(State(EMPTY, []), calls, l, enc);
  }

  /** However calls interleave and rows come and go, no window of any kind holds more than its
      quota of one member's requests. */
  lemma QuotasHold(calls: seq<Call>, l: Limits, enc: Encoding, m: MemberId, kind: Kind, start: int)
    requires l.Valid()
    ensures CountIn(Reached(calls, l, enc).log, m, kind, start, l) <= Quota(kind, l)
  {
    hide CountIn, Run, PromisesKept, LogLaws, Timed, RowCurrent;
    ReachedIsOk(calls, l, enc);
    assert QuotaKept(Reached(calls, l, enc).History(), l, m, kind);
  }

  /** Accepted requests obey the replay, lease and publication laws over the whole run. */
  lemma EffectsAreOrdered(calls: seq<Call>, l: Limits, enc: Encoding)
    requires l.Valid()
    ensures LogLaws(Reached(calls, l, enc).log)
    ensures forall m :: Visible(Reached(calls, l, enc), m)
    ensures |Reached(calls, l, enc).community.controls| <= l.maxMembers
  {
    hide Run, LogLaws, Visible;
    ReachedIsOk(calls, l, enc);
  }

  /* ----- which requests take effect ----- */

  /** A request whose ids are those of an unexpired accepted one changes nothing but the clock and
      what has lapsed; it is answered as that one if it is the very same write, as a replay otherwise. */
  lemma KnownIsAnswered(calls: seq<Call>, l: Limits, enc: Encoding, call: Call, i: nat)
    requires l.Valid() && Verified(call.request, l, call.now)
    requires Reached(calls, l, enc).community.lastNow <= call.now && Known(Reached(calls, l, enc).log, call.request, i, call.now)
    ensures var s := Reached(calls, l, enc);
      && Executed(s.community, call.request, l, enc, call.now) ==
           (Advanced(s.community, call.now), if SameWrite(call.request, s.log[i].request) then Ok(Updated) else Err(Error.Replay))
      && Step(s, call, l, enc).log == s.log
  {
    hide Run, Sound, Transition, Verified, Advanced, StateOk, Known;
    var s := Reached(calls, l, enc);
    ReachedIsOk(calls, l, enc);
    var h := Settled(s, l, call.now);
    InTime(call.request, l, call.now);
    KnownHasRow(h, l, call.request, i);
    KnownDecides(h, l, call.request, i);
  }

  /** The history pruned to the time of a call. */
  lemma Settled(s: State, l: Limits, now: U64) returns (h: History)
    requires l.Valid() && StateOk(s, l) && s.community.lastNow <= now
    ensures h == PruneTo(s.History(), now) && Sound(h, l) && h.lastNow == now && h.log == s.log
    ensures h.controls == Advanced(s.community, now).controls
  {
    hide Sound, Visible;
    h := PruneTo(s.History(), now);
    PruningIsSound(s.History(), l, now);
  }

  lemma KnownHasRow(h: History, l: Limits, r: Request, i: nat)
    requires l.Valid() && Sound(h, l) && Known(h.log, r, i, h.lastNow)
    ensures r.memberId in h.controls
  {
    hide Sound;
    KnownIsMarked(h, l, r, i);
  }

  /** A request takes effect if and only if its member has or can get a row, its ids are new and it
      fits the log; a request whose ids are new and that takes no effect is refused. */
  lemma EffectExactly(calls: seq<Call>, l: Limits, enc: Encoding, call: Call)
    requires l.Valid() && Verified(call.request, l, call.now) && Reached(calls, l, enc).community.lastNow <= call.now
    ensures var s, h := Reached(calls, l, enc), PruneTo(Reached(calls, l, enc).History(), call.now);
      var t := Step(s, call, l, enc);
      && (t.log != s.log <==>
            && (call.request.memberId in h.controls || |h.controls| < l.maxMembers)
            && Unknown(s.log, call.request, call.now) && Fits(h, l, call.request))
      && (t.log == s.log && Unknown(s.log, call.request, call.now) ==> Executed(s.community, call.request, l, enc, call.now).1.Err?)
  {
    hide Run, Sound, Transition, Verified, Advanced, StateOk, Fits, Unknown, Answer, Indexed;
    var s := Reached(calls, l, enc);
    ReachedIsOk(calls, l, enc);
    var h := Settled(s, l, call.now);
    EffectDecides(h, l, call.request);
    if Transition(RowOf(h.controls, call.request.memberId), call.request, l, call.now).Ok? {
      RetriesAreKnown(h, l, call.request);
    }
  }

  /* ----- what a fetch may say ----- */

  /** Where the last publication stands in the log. */
  lemma {:induction false} LastPublicationAt(log: seq<Accepted>, m: MemberId) returns (j: nat)
    requires LastPublication(log, m).Some?
    ensures j < |log| && log[j].request.memberId == m && log[j].request.operation.Publish?
    ensures log[j].request.operation.publication == LastPublication(log, m).value
    ensures forall k | j < k < |log| :: !(log[k].request.memberId == m && log[k].request.operation.Publish?)
  {
    j := |log| - 1;
    if !(log[j].request.memberId == m && log[j].request.operation.Publish?) {
      j := LastPublicationAt(log[..|log| - 1], m);
    }
  }

  /** A served publication is the member's last accepted one, unexpired, with a live device lease. */
  lemma FetchIsHonest(s: State, call: Call, l: Limits, enc: Encoding, target: MemberId, p: CachedProfile)
    requires l.Valid() && StateOk(s, l) && Verified(call.request, l, call.now)
    requires call.request.operation == Fetch(target)
    requires Executed(s.community, call.request, l, enc, call.now).1 == Ok(Profile(Some(p)))
    ensures LastPublication(s.log, target) == Some(p) && call.now < p.expiresAt
    ensures var row := Step(s, call, l, enc).community.controls;
      target in row && exists d :: d in row[target].leases && call.now < row[target].leases[d].expiresAt
  {
    hide Sound, Transition, Verified, Advanced, Indexed, StateOk;
    var after := Step(s, call, l, enc);
    StepKeepsState(s, call, l, enc);
    LastPublicationUnmoved(s, call, l, enc);
    ServedIsListed(s, call, l, enc, target, p);
    VisibleFacts(after, l, target);
  }

  lemma ServedIsListed(s: State, call: Call, l: Limits, enc: Encoding, target: MemberId, p: CachedProfile)
    requires l.Valid() && Verified(call.request, l, call.now)
    requires call.request.operation == Fetch(target)
    requires Executed(s.community, call.request, l, enc, call.now).1 == Ok(Profile(Some(p)))
    ensures var after := Step(s, call, l, enc).community;
      target in after.profiles && after.profiles[target].0 == p && after.lastNow == call.now
  {
    hide Transition, Verified, LiveUntil;
  }

  lemma LastPublicationUnmoved(s: State, call: Call, l: Limits, enc: Encoding)
    requires l.Valid() && !call.request.operation.Publish?
    ensures forall m :: LastPublication(Step(s, call, l, enc).log, m) == LastPublication(s.log, m)
  {
    hide Transition, Verified, Executed;
    var log := Step(s, call, l, enc).log;
    if |log| == |s.log| + 1 {
      assert log[..|s.log|] == s.log;
    }
  }

  lemma VisibleFacts(s: State, l: Limits, m: MemberId)
    requires l.Valid() && StateOk(s, l) && m in s.community.profiles
    ensures m in s.community.controls && LastPublication(s.log, m) == Some(s.community.profiles[m].0)
    ensures s.community.lastNow < s.community.profiles[m].0.expiresAt
    ensures exists d :: d in s.community.controls[m].leases && s.community.lastNow < s.community.controls[m].leases[d].expiresAt
  {
    hide QuotaKept, PromisesKept, LogLaws, Timed;
    assert Visible(s, m) && RowCurrent(s.History(), m);
    var row := s.community.controls[m];
    assert IsLatest(row.leases, row.leases.Keys, s.community.lastNow, LatestLease(row.leases, row.leases.Keys, s.community.lastNow));
  }

  /** An effective fetch serves the target's last accepted publication if it is listed, and nothing
      otherwise. */
  lemma FetchExactly(calls: seq<Call>, l: Limits, enc: Encoding, call: Call, target: MemberId)
    requires l.Valid() && Verified(call.request, l, call.now) && call.request.operation == Fetch(target)
    requires Step(Reached(calls, l, enc), call, l, enc).log != Reached(calls, l, enc).log
    ensures var s := Reached(calls, l, enc);
      Executed(s.community, call.request, l, enc, call.now).1 ==
        Ok(Profile(if target in Advanced(s.community, call.now).profiles then LastPublication(s.log, target) else None))
  {
    hide Run, Sound, Transition, Verified, Advanced, StateOk, Visible, Indexed;
    var s := Reached(calls, l, enc);
    ReachedIsOk(calls, l, enc);
    ReadsLeaveTheIndex(s, call, l, enc);
    AdvancedKeepsState(s, l, call.now);
    FetchAnswers(s, call, l, enc, target);
    ListedIsLast(State(Advanced(s.community, call.now), s.log), l, target);
  }

  lemma FetchAnswers(s: State, call: Call, l: Limits, enc: Encoding, target: MemberId)
    requires l.Valid() && Verified(call.request, l, call.now) && call.request.operation == Fetch(target)
    requires Step(s, call, l, enc).log != s.log
    ensures var after := Step(s, call, l, enc).community;
      Executed(s.community, call.request, l, enc, call.now).1
        == Ok(Profile(if target in after.profiles then Some(after.profiles[target].0) else None))
    ensures s.community.lastNow <= call.now
  {
    hide Transition, Verified, LiveUntil, Advanced, Indexed;
  }

  lemma ListedIsLast(s: State, l: Limits, target: MemberId)
    requires l.Valid() && StateOk(s, l)
    ensures target in s.community.profiles ==> LastPublication(s.log, target) == Some(s.community.profiles[target].0)
  {
    hide Sound;
    assert Visible(s, target);
  }

  /** Once a publication of a higher sequence has been accepted, the lower one is never served
      again, whatever rows and profiles have been deleted since. */
  lemma SupersededIsNeverServed(s: State, call: Call, l: Limits, enc: Encoding, target: MemberId, i: nat, k: nat)
    requires l.Valid() && StateOk(s, l) && Verified(call.request, l, call.now)
    requires call.request.operation == Fetch(target)
    requires i < k < |s.log| && s.log[i].request.memberId == target == s.log[k].request.memberId
    requires s.log[i].request.operation.Publish? && s.log[k].request.operation.Publish?
    requires s.log[i].request.operation.publication.sequence < s.log[k].request.operation.publication.sequence
    ensures Executed(s.community, call.request, l, enc, call.now).1 != Ok(Profile(Some(s.log[i].request.operation.publication)))
  {
    hide StateOk, Executed, Step;
    var p := s.log[i].request.operation.publication;
    SupersededIsNotLast(s, l, target, i, k);
    if Executed(s.community, call.request, l, enc, call.now).1 == Ok(Profile(Some(p))) {
      FetchIsHonest(s, call, l, enc, target, p);
    }
  }

  lemma SupersededIsNotLast(s: State, l: Limits, target: MemberId, i: nat, k: nat)
    requires l.Valid() && StateOk(s, l)
    requires i < k < |s.log| && s.log[i].request.memberId == target == s.log[k].request.memberId
    requires s.log[i].request.operation.Publish? && s.log[k].request.operation.Publish?
    requires s.log[i].request.operation.publication.sequence < s.log[k].request.operation.publication.sequence
    ensures LastPublication(s.log, target) != Some(s.log[i].request.operation.publication)
  {
    hide QuotaKept, PromisesKept, RowCurrent, Visible;
    if LastPublication(s.log, target).Some? {
      var j := LastPublicationAt(s.log, target);
      assert Verified(s.log[j].request, l, s.log[j].at);
      assert k < j ==> PublicationsForward(s.log[i], s.log[k], s.log[j]);
    }
  }

  /** A member is listed after its own effective request exactly when its row is live and it
      published now or was still listed: a heartbeat alone never brings a lapsed profile back. */
  lemma ListedExactly(s: State, call: Call, l: Limits, enc: Encoding)
    requires l.Valid() && StateOk(s, l) && Verified(call.request, l, call.now) && TakesEffect(s.community, call, l)
    ensures var m, after := call.request.memberId, Step(s, call, l, enc).community;
      && m in after.controls
      && (m in after.profiles <==>
            && call.now < LiveUntil(after.controls[m], call.now)
            && (call.request.operation.Publish? || m in Advanced(s.community, call.now).profiles))
    ensures call.request.operation.Publish? ==> call.request.memberId in Step(s, call, l, enc).community.profiles
  {
    hide Sound, Transition, Verified, LiveUntil, Advanced, Visible;
    var pruned, r := Advanced(s.community, call.now), call.request;
    var row := RowOf(pruned.controls, r.memberId);
    AdvancedClock(s.community, call.now);
    PublicationOf(row, r, l, call.now);
    AdvancedKeepsState(s, l, call.now);
    assert Visible(State(pruned, s.log), r.memberId);
    if r.operation.Publish? {
      PublishIsLive(row, r, l, call.now);
    }
  }

  /** After an effective disconnect the device's lease has ended; with no other device live the
      member is listed no more. */
  lemma DisconnectGoesDark(s: State, call: Call, l: Limits, enc: Encoding)
    requires l.Valid() && StateOk(s, l) && Verified(call.request, l, call.now) && TakesEffect(s.community, call, l)
    requires call.request.operation.Disconnect?
    ensures var m, d, after := call.request.memberId, call.request.chatPublicKey, Step(s, call, l, enc).community;
      && m in after.controls && d in after.controls[m].leases && after.controls[m].leases[d].expiresAt == call.now
      && ((forall o | o in after.controls[m].leases && o != d :: after.controls[m].leases[o].expiresAt <= call.now) ==> m !in after.profiles)
  {
    hide Sound, Transition, Verified, Advanced, StateOk;
    var pruned, r := Advanced(s.community, call.now), call.request;
    RowMoves(RowOf(pruned.controls, r.memberId), r, l, call.now);
    ListedExactly(s, call, l, enc);
    var row := Step(s, call, l, enc).community.controls[r.memberId];
    assert IsLatest(row.leases, row.leases.Keys, call.now, LatestLease(row.leases, row.leases.Keys, call.now));
  }

  lemma AdvancedClock(c: Community, now: U64)
    ensures Advanced(c, now).lastNow == now
  {
  }

  lemma PublishIsLive(row: MemberControl, r: Request, l: Limits, now: U64)
    requires l.Valid() && Verified(r, l, now) && r.operation.Publish?
    requires Transition(row, r, l, now).Ok? && !Transition(row, r, l, now).value.retry
    ensures now < LiveUntil(Transition(row, r, l, now).value.control, now)
  {
    hide Take, LatestLease;
    RowMoves(row, r, l, now);
    var after := Transition(row, r, l, now).value.control;
    assert after.leases[r.chatPublicKey].expiresAt == r.operation.lease.expiresAt;
    assert IsLatest(after.leases, after.leases.Keys, now, LatestLease(after.leases, after.leases.Keys, now));
  }

  /* ----- following cursors through the store ----- */

  /** Reading changes no listing. */
  lemma ReadsLeaveTheIndex(s: State, call: Call, l: Limits, enc: Encoding)
    requires l.Valid() && StateOk(s, l) && Verified(call.request, l, call.now) && s.community.lastNow <= call.now
    requires !call.request.operation.IsWrite()
    ensures Step(s, call, l, enc).community.profiles == Advanced(s.community, call.now).profiles
    ensures Step(s, call, l, enc).community.lastNow == call.now
  {
    hide Sound, Transition, Verified, Visible, LiveUntil, Answer, StateOk;
    var pruned, r := Advanced(s.community, call.now), call.request;
    if TakesEffect(s.community, call, l) {
      var row := RowOf(pruned.controls, r.memberId);
      AdvancedKeepsState(s, l, call.now);
      PublicationOf(row, r, l, call.now);
      ReadKeepsDeadline(State(pruned, s.log), r, l);
    }
  }

  lemma ReadKeepsDeadline(s: State, r: Request, l: Limits)
    requires l.Valid() && StateOk(s, l) && Verified(r, l, s.community.lastNow) && !r.operation.IsWrite()
    requires Transition(RowOf(s.community.controls, r.memberId), r, l, s.community.lastNow).Ok?
    requires !Transition(RowOf(s.community.controls, r.memberId), r, l, s.community.lastNow).value.retry
    ensures r.memberId in s.community.profiles ==>
      LiveUntil(Transition(RowOf(s.community.controls, r.memberId), r, l, s.community.lastNow).value.control, s.community.lastNow)
        == s.community.profiles[r.memberId].1 > s.community.lastNow
  {
    hide QuotaKept, PromisesKept, LogLaws, Timed, Transition, LatestLease, Verified;
    var row, now := RowOf(s.community.controls, r.memberId), s.community.lastNow;
    RowMoves(row, r, l, now);
    assert Visible(s, r.memberId) && RowCurrent(s.History(), r.memberId);
    if r.memberId in s.community.profiles {
      SweepingKeepsLatest(row, now);
    }
  }

  lemma SweepingKeepsLatest(row: MemberControl, now: U64)
    requires forall d | d in row.leases :: row.leases[d].expiresAt <= row.leases[d].retainUntil
    ensures LatestLease(Swept(row, now).leases, Swept(row, now).leases.Keys, now) == LatestLease(row.leases, row.leases.Keys, now)
  {
    hide LatestLease;
    var swept := Swept(row, now);
    var latest := LatestLease(row.leases, row.leases.Keys, now);
    if latest != 0 {
      var d :| d in row.leases && row.leases[d].expiresAt > now && row.leases[d].expiresAt == latest;
      assert d in swept.leases.Keys && swept.leases[d].expiresAt == latest;
    }
    assert IsLatest(swept.leases, swept.leases.Keys, now, latest);
    LatestIsUnique(swept.leases, now, latest, LatestLease(swept.leases, swept.leases.Keys, now));
  }

  /** A reader follows next cursors at one time, each call a fresh accepted query. */
  ghost predicate Browsing(s: State, calls: seq<Call>, pages: seq<Page>, filters: map<string, U32>, limit: nat,
                           cursor: Option<MemberId>, now: U64, l: Limits, enc: Encoding)
    requires l.Valid()
    decreases |calls|
  {
    && 0 < |calls| == |pages|
    && calls[0].now == now && Verified(calls[0].request, l, now)
    && calls[0].request.operation == Query(filters, limit, cursor)
    && Executed(s.community, calls[0].request, l, enc, now).1 == Ok(Listing(pages[0]))
    && (if pages[0].nextCursor.None? then |calls| == 1
        else Browsing(Step(s, calls[0], l, enc), calls[1..], pages[1..], filters, limit, pages[0].nextCursor, now, l, enc))
  }

  function Entries(pages: seq<Page>): seq<Summary> {
    if pages == [] then [] else pages[0].entries + Entries(pages[1..])
  }

  /** The pages read that way are, in order, exactly the live matching members, each once. */
  lemma {:induction false} BrowsingListsEverything(
      s: State, calls: seq<Call>, pages: seq<Page>, filters: map<string, U32>, limit: nat, now: U64, l: Limits, enc: Encoding, n: nat)
    requires l.Valid() && StateOk(s, l) && s.community.lastNow <= now
    requires var cands := Candidates(Advanced(s.community, now).profiles, filters);
      && n <= |cands|
      && (forall c | c in cands :: BudgetOf(enc, l, limit).Fits(c))
      && Browsing(s, calls, pages, filters, limit, if n == 0 then None else Some(cands[n - 1].member), now, l, enc)
    ensures var cands := Candidates(Advanced(s.community, now).profiles, filters);
      Entries(pages) == Matching(cands[n..]) && |pages| <= |cands| - n + 1
    decreases |calls|
  {
    hide Candidates, StateOk, Executed, Advanced, Verified, Step, Matching;
    var b, profiles := BudgetOf(enc, l, limit), Advanced(s.community, now).profiles;
    var cands := Candidates(profiles, filters);
    var next := Step(s, calls[0], l, enc);
    CandidatesAscend(profiles, filters);
    AnsweredFromIndex(s, calls[0], pages[0], l, enc);
    var k := PageIsAnInterval(cands, n, b);
    if n + k < |cands| {
      StepKeepsState(s, calls[0], l, enc);
      NothingLeftToPrune(next, l);
      BrowsingListsEverything(next, calls[1..], pages[1..], filters, limit, now, l, enc, n + k);
      assert cands[n..] == cands[n..n + k] + cands[n + k..];
      MatchingConcat(cands[n..n + k], cands[n + k..]);
    } else {
      assert cands[n..n + k] == cands[n..];
      assert Entries(pages[1..]) == [];
    }
  }

  lemma AnsweredFromIndex(s: State, call: Call, page: Page, l: Limits, enc: Encoding)
    requires l.Valid() && StateOk(s, l) && Verified(call.request, l, call.now) && s.community.lastNow <= call.now
    requires call.request.operation.Query?
    requires Executed(s.community, call.request, l, enc, call.now).1 == Ok(Listing(page))
    ensures var profiles := Advanced(s.community, call.now).profiles;
      && Step(s, call, l, enc).community.profiles == profiles
      && Step(s, call, l, enc).community.lastNow == call.now
      && var b := BudgetOf(enc, l, call.request.operation.limit);
         b.Usable()
         && PageAt(Candidates(profiles, call.request.operation.filters), call.request.operation.after, b) == Ok(page)
  {
    hide StateOk, Transition, Candidates, Scan, After, Advanced, Indexed;
    ReadsLeaveTheIndex(s, call, l, enc);
  }

  lemma NothingLeftToPrune(s: State, l: Limits)
    requires l.Valid() && StateOk(s, l)
    ensures Advanced(s.community, s.community.lastNow).profiles == s.community.profiles
  {
    hide Sound;
    forall m | m in s.community.profiles
      ensures s.community.profiles[m].1 > s.community.lastNow
    {
      assert Visible(s, m);
    }
  }
}
