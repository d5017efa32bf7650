/** The query path over the cache's catalog: bounded scan, checked fetches, and index repair. */
module DiscoveryCatalog {
  import opened Basics
  import opened Orders
  import opened Discovery
  import opened DiscoveryHistory
  import opened DiscoveryPaging
  import opened DiscoveryControl
  import DiscoveryControlTheorems

  /** What a catalog row contributes once its body has been checked against the control row. */
  ghost function CatalogEntry(db: ControlDb, cache: Cache, filters: map<string, U32>, now: U64, m: MemberId): Candidate {
    var judged := Judged(db, Glimpse(m, now, FetchScript(cache, m, now)));
    Candidate(m, if judged.Ok? && judged.value.Some? && Matches(filters, judged.value.value.0)
                 then Some(SummaryOf(judged.value.value.0, judged.value.value.1)) else None)
  }

  ghost function CatalogList(db: ControlDb, cache: Cache, filters: map<string, U32>, now: U64, ids: seq<MemberId>): seq<Candidate> {
    if ids == [] then [] else [CatalogEntry(db, cache, filters, now, ids[0])] + CatalogList(db, cache, filters, now, ids[1..])
  }

  /** Every row of the catalog, in key order. */
  ghost function WholeCatalog(db: ControlDb, cache: Cache, filters: map<string, U32>, now: U64): seq<Candidate> {
    CatalogList(db, cache, filters, now, InOrder(cache.catalog))
  }

  function Beyond(catalog: set<MemberId>, after: Option<MemberId>): set<MemberId> {
    set m | m in catalog && (after.Some? ==> after.value < m)
  }

  /** Control rows can be read at this time. */
  predicate Readable(db: ControlDb, now: U64) {
    (db.scope.Some? ==> db.scope.value.lastNow <= now) && now <= MAX_INTEGER
  }

  lemma {:induction false} ListAt(db: ControlDb, cache: Cache, filters: map<string, U32>, now: U64, ids: seq<MemberId>, i: nat)
    requires i < |ids|
    ensures |CatalogList(db, cache, filters, now, ids)| == |ids|
    ensures CatalogList(db, cache, filters, now, ids)[i] == CatalogEntry(db, cache, filters, now, ids[i])
    ensures CatalogList(db, cache, filters, now, ids)[i..] == CatalogList(db, cache, filters, now, ids[i..])
  {
    hide CatalogEntry;
    var list := CatalogList(db, cache, filters, now, ids);
    if i == 0 {
      ListLength(db, cache, filters, now, ids);
    } else {
      ListAt(db, cache, filters, now, ids[1..], i - 1);
      assert list[i..] == list[1..][i - 1..];
      assert ids[i..] == ids[1..][i - 1..];
    }
  }

  lemma {:induction false} ListLength(db: ControlDb, cache: Cache, filters: map<string, U32>, now: U64, ids: seq<MemberId>)
    ensures |CatalogList(db, cache, filters, now, ids)| == |ids|
  {
    hide CatalogEntry;
    if ids != [] {
      ListLength(db, cache, filters, now, ids[1..]);
    }
  }

  lemma {:induction false} ListPrefix(db: ControlDb, cache: Cache, filters: map<string, U32>, now: U64, ids: seq<MemberId>, n: nat)
    requires n <= |ids|
    ensures n <= |CatalogList(db, cache, filters, now, ids)|
    ensures CatalogList(db, cache, filters, now, ids[..n]) == CatalogList(db, cache, filters, now, ids)[..n]
  {
    hide CatalogEntry;
    if n > 0 {
      assert ids[..n][1..] == ids[1..][..n - 1];
      ListPrefix(db, cache, filters, now, ids[1..], n - 1);
    }
  }

  /** Skipping to the cursor is the index's own range. */
  lemma {:induction false} AfterIsBeyond(db: ControlDb, cache: Cache, filters: map<string, U32>, now: U64, catalog: set<MemberId>, after: Option<MemberId>)
    ensures After(CatalogList(db, cache, filters, now, InOrder(catalog)), after)
      == CatalogList(db, cache, filters, now, InOrder(Beyond(catalog, after)))
    decreases catalog
  {
    hide Judged, FetchScript;
    if catalog == {} {
      assert Beyond(catalog, after) == {};
    } else {
      var k := Least(catalog);
      var list := CatalogList(db, cache, filters, now, InOrder(catalog));
      assert list[0].member == k;
      assert list[1..] == CatalogList(db, cache, filters, now, InOrder(catalog - {k}));
      if after.Some? && k <= after.value {
        AfterIsBeyond(db, cache, filters, now, catalog - {k}, after);
        assert Beyond(catalog, after) == Beyond(catalog - {k}, after);
      } else {
        assert Beyond(catalog, after) == catalog;
      }
    }
  }

  /** Dropping index rows of dead entries changes no other row's contribution. */
  predicate Repaired(was: Cache, cache: Cache, now: U64) {
    && cache.bodies == was.bodies
    && cache.catalog <= was.catalog && cache.live.Keys <= was.live.Keys
    && (forall m | m in cache.live :: cache.live[m] == was.live[m])
    && (forall m | m in was.live && m !in cache.live :: FetchScript(was, m, now).None?)
    && (forall m | m in was.catalog && m !in cache.catalog :: FetchScript(was, m, now).None?)
  }

  lemma RepairIsInvisible(was: Cache, cache: Cache, now: U64, m: MemberId)
    requires Repaired(was, cache, now)
    ensures FetchScript(cache, m, now) == FetchScript(was, m, now)
  {
  }

  /** Fetches one candidate; an index row whose entry is gone or expired is removed. */
  method Visit(store: ValkeyDiscoveryStore, filters: map<string, U32>, now: U64, m: MemberId, ghost was: Cache) returns (r: Result<Option<Summary>>)
    requires Repaired(was, store.View(), now)
    modifies store
    ensures Repaired(was, store.View(), now)
    ensures Readable(store.control.View(), now) ==> r.Ok?
    ensures r.Ok? ==> Candidate(m, r.value) == CatalogEntry(store.control.View(), was, filters, now, m)
  {
    hide LiveUntil;
    RepairIsInvisible(was, store.View(), now, m);
    var fetched :- store.Fetch(m, now);
    if fetched.Some? {
      var (publication, until) := fetched.value;
      return Ok(if Matches(filters, publication) then Some(SummaryOf(publication, until)) else None);
    }
    if m !in store.live || store.live[m] <= now || m !in store.bodies {
      store.catalog := store.catalog - {m};
      store.live := store.live - {m};
    }
    return Ok(None);
  }

  /** The store's query: at most one row more than the scan budget is asked for. */
  method QueryCatalog(store: ValkeyDiscoveryStore, filters: map<string, U32>, after: Option<MemberId>, now: U64, b: Budget) returns (r: Result<Page>)
    modifies store
    ensures Repaired(old(store.View()), store.View(), now)
    ensures Readable(store.control.View(), now) ==>
      r == PageAt(WholeCatalog(store.control.View(), old(store.View()), filters, now), after, b)
  {
    hide Considered, CatalogEntry, Repaired, After, InOrder, Judged;
    ghost var was, db := store.View(), store.control.View();
    NothingRepaired(was, now);
    var all := Sort(Beyond(store.catalog, after));
    var ids := if |all| > b.maxScan + 1 then all[..b.maxScan + 1] else all;
    if b.overhead > b.maximum {
      return Err(Capacity);
    }
    ghost var cands := CatalogList(db, was, filters, now, ids);
    ListLength(db, was, filters, now, ids);
    SamePage(db, was, filters, now, all, after, b);
    var page := new QueryPage(b);
    ghost var start := page.View();
    var scanned, more := 0, false;
    assert cands[0..] == cands;
    while scanned < |ids|
      invariant scanned <= |ids| && !more && fresh(page) && page.budget == b
      invariant store.control.View() == db && Repaired(was, store.View(), now)
      invariant Scan(cands, start, 0, b) == Scan(cands[scanned..], page.View(), scanned, b)
    {
      if scanned >= b.maxScan || |page.entries| >= b.limit {
        more := true;
        break;
      }
      ListAt(db, was, filters, now, ids, scanned);
      ScanStep(cands, scanned, page.View(), scanned, b);
      var entry :- Visit(store, filters, now, ids[scanned], was);
      var taken :- page.Consider(ids[scanned], entry);
      if !taken {
        more := true;
        break;
      }
      scanned := scanned + 1;
    }
    return Ok(Page(page.entries, if more then page.lastScanned else None));
  }

  lemma NothingRepaired(cache: Cache, now: U64)
    ensures Repaired(cache, cache, now)
  {
  }

  lemma SamePage(db: ControlDb, cache: Cache, filters: map<string, U32>, now: U64, all: seq<MemberId>, after: Option<MemberId>, b: Budget)
    requires all == InOrder(Beyond(cache.catalog, after))
    ensures var ids := if |all| > b.maxScan + 1 then all[..b.maxScan + 1] else all;
      Scan(CatalogList(db, cache, filters, now, ids), Progress([], b.overhead, None), 0, b)
        == Scan(After(WholeCatalog(db, cache, filters, now), after), Progress([], b.overhead, None), 0, b)
  {
    hide Scan, CatalogEntry, After, InOrder;
    AfterIsBeyond(db, cache, filters, now, cache.catalog, after);
    if |all| > b.maxScan + 1 {
      ListPrefix(db, cache, filters, now, all, b.maxScan + 1);
      OneRowMoreIsEnough(CatalogList(db, cache, filters, now, all), Progress([], b.overhead, None), 0, b, b.maxScan + 1);
    }
  }

  /** Every entry a query lists is the member's last authorized publication, live at that time. */
  lemma ListingIsHonest(events: seq<Event>, filters: map<string, U32>, now: U64, m: MemberId)
    requires CatalogEntry(Run(START, events).db, Run(START, events).cache, filters, now, m).entry.Some?
    ensures var w := Run(START, events);
      var entry := CatalogEntry(w.db, w.cache, filters, now, m).entry.value;
      && LastPublication(w.log, m).Some? && Matches(filters, LastPublication(w.log, m).value)
      && entry == SummaryOf(LastPublication(w.log, m).value, entry.expiresAt)
      && now < entry.expiresAt <= LastPublication(w.log, m).value.expiresAt
  {
    hide Run, Judged, FetchScript, Matches;
    var w := Run(START, events);
    var g := Glimpse(m, now, FetchScript(w.cache, m, now));
    var (p, until) := Judged(w.db, g).value.value;
    DiscoveryControlTheorems.FetchIsNothingOrTheLastPublication(events, g, p, until);
  }

  /** With the fence passed, a publication that matches is a row of the catalog until its deadline. */
  lemma PublishThenListed(w: World, call: Call, filters: map<string, U32>, later: U64)
    requires WorldOk(w) && call.policy.limits.Valid() && Verified(call.request, call.policy.limits, call.now)
    requires Authorized(w.db, call).Ok? && Authorized(w.db, call).value.1.publication.Some?
    requires call.now <= later < LiveUntil(Authorized(w.db, call).value.1.control, call.now) && later <= MAX_INTEGER
    requires Matches(filters, Authorized(w.db, call).value.1.publication.value)
    ensures var (db, commit) := Authorized(w.db, call).value;
      && Mutated(db, w.cache, commit, call.now).Ok?
      && var cache := Mutated(db, w.cache, commit, call.now).value;
         Candidate(commit.memberId, Some(SummaryOf(commit.publication.value, LiveUntil(commit.control, call.now))))
           in WholeCatalog(db, cache, filters, later)
  {
    hide Transition, Sound, Verified, LiveUntil, Judged, FetchScript, Matches, Authorized, CatalogList, InOrder, WorldOk;
    var (db, commit) := Authorized(w.db, call).value;
    DiscoveryControlTheorems.PublishThenFetch(w, call, later);
    var cache := Mutated(db, w.cache, commit, call.now).value;
    InOrderIsOrder(cache.catalog);
    var ids := InOrder(cache.catalog);
    var i :| 0 <= i < |ids| && ids[i] == commit.memberId;
    ListAt(db, cache, filters, later, ids, i);
  }
}
