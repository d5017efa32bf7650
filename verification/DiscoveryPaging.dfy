/** Cursor paging over live profiles within a byte budget and a scan budget. */
module DiscoveryPaging {
  import opened Basics
  import opened Discovery

  datatype Summary = Summary(
    memberId: MemberId, chatPublicKey: DeviceKey, sequence: U64, discriminators: map<string, U32>, expiresAt: U64, profileDigest: seq<Byte>)

  function SummaryOf(p: CachedProfile, expiresAt: U64): Summary {
    Summary(p.memberId, p.chatPublicKey, p.sequence, p.discriminators, expiresAt, p.signedBytes)
  }

  predicate Matches(filters: map<string, U32>, p: CachedProfile) {
    forall k | k in filters :: k in p.discriminators && p.discriminators[k] == filters[k]
  }

  /** A scanned index row and the summary it contributes, if it is live and matches. */
  datatype Candidate = Candidate(member: MemberId, entry: Option<Summary>)

  /** `size` is an entry's encoded length; `overhead` an empty page's with a full cursor reserved. */
  datatype Budget = Budget(overhead: nat, maximum: nat, limit: nat, maxScan: nat, size: Summary -> nat) {
    /** What validated limits and a checked query guarantee. */
    predicate Usable() { overhead <= maximum && 0 < limit && 0 < maxScan }

    predicate Fits(c: Candidate) { c.entry.Some? ==> overhead + size(c.entry.value) <= maximum }
  }

  datatype Progress = Progress(entries: seq<Summary>, bytes: nat, lastScanned: Option<MemberId>)

  datatype Page = Page(entries: seq<Summary>, nextCursor: Option<MemberId>)

  /** Takes the row into the page, `Ok(None)` when it has no room for it. */
  function Considered(p: Progress, c: Candidate, b: Budget): Result<Option<Progress>> {
    if c.entry.None? then Ok(Some(p.(lastScanned := Some(c.member))))
    else
      var next := p.bytes + b.size(c.entry.value) + (if p.entries == [] then 0 else 1);
      if next > b.maximum then
        if p.entries == [] && p.lastScanned.None? then Err(Capacity) else Ok(None)
      else Ok(Some(Progress(p.entries + [c.entry.value], next, Some(c.member))))
  }

  /** Scans candidates from the front; the flag says that some were left. */
  function Scan(cands: seq<Candidate>, p: Progress, scanned: nat, b: Budget): Result<(Progress, bool)> {
    if cands == [] then Ok((p, false))
    else if scanned >= b.maxScan || |p.entries| >= b.limit then Ok((p, true))
    else
      var next :- Considered(p, cands[0], b);
      if next.None? then Ok((p, true)) else Scan(cands[1..], next.value, scanned + 1, b)
  }

  function After(cands: seq<Candidate>, cursor: Option<MemberId>): seq<Candidate> {
    if cands != [] && cursor.Some? && cands[0].member <= cursor.value then After(cands[1..], cursor) else cands
  }

  function PageAt(cands: seq<Candidate>, cursor: Option<MemberId>, b: Budget): Result<Page> {
    var _ :- Need(b.overhead <= b.maximum, Capacity);
    var done :- Scan(After(cands, cursor), Progress([], b.overhead, None), 0, b);
    Ok(Page(done.0.entries, if done.1 then done.0.lastScanned else None))
  }

  predicate Ascending(cands: seq<Candidate>) {
    forall i, j | 0 <= i < j < |cands| :: cands[i].member < cands[j].member
  }

  function Matching(cands: seq<Candidate>): seq<Summary> {
    if cands == [] then []
    else (if cands[0].entry.Some? then [cands[0].entry.value] else []) + Matching(cands[1..])
  }

  /** Encoded bytes of a page's entries, separators included. */
  function Bytes(entries: seq<Summary>, b: Budget): nat {
    if entries == [] then 0
    else Bytes(entries[..|entries| - 1], b) + b.size(entries[|entries| - 1]) + (if |entries| == 1 then 0 else 1)
  }

  lemma {:induction false} MatchingConcat(x: seq<Candidate>, y: seq<Candidate>)
    ensures Matching(x + y) == Matching(x) + Matching(y)
  {
    if x == [] {
      assert x + y == y;
    } else {
      assert (x + y)[1..] == x[1..] + y && (x + y)[0] == x[0];
      MatchingConcat(x[1..], y);
      var head := if x[0].entry.Some? then [x[0].entry.value] else [];
      assert head + (Matching(x[1..]) + Matching(y)) == (head + Matching(x[1..])) + Matching(y);
    }
  }

  lemma NothingMatches()
    ensures Matching([]) == []
  {
  }

  predicate Within(p: Progress, b: Budget) {
    p.bytes == b.overhead + Bytes(p.entries, b) && p.bytes <= b.maximum && |p.entries| <= b.limit
  }

  lemma ConsideredFacts(p: Progress, c: Candidate, b: Budget)
    requires Within(p, b) && |p.entries| < b.limit && b.Fits(c)
    requires p.lastScanned.None? ==> p.entries == []
    ensures Considered(p, c, b).Ok?
    ensures Considered(p, c, b).value.None? ==> p.lastScanned.Some?
    ensures Considered(p, c, b).value.Some? ==>
      var next := Considered(p, c, b).value.value;
      Within(next, b) && next.lastScanned == Some(c.member) && next.entries == p.entries + Matching([c])
  {
    assert Matching([c]) == if c.entry.Some? then [c.entry.value] else [];
    if c.entry.Some? {
      assert (p.entries + [c.entry.value])[..|p.entries|] == p.entries;
    }
  }

  /** A scan consumes a prefix: it returns the prefix's entries, remembers its last row, stops
      early only when rows remain, and always gets past the first row if that row fits. */
  lemma {:induction false} ScanTakesPrefix(cands: seq<Candidate>, p: Progress, scanned: nat, b: Budget) returns (k: nat)
    requires b.Usable()
    requires forall c | c in cands :: b.Fits(c)
    requires Within(p, b)
    requires p.lastScanned.None? ==> p.entries == [] && scanned == 0
    ensures k <= |cands|
    ensures Scan(cands, p, scanned, b).Ok?
    ensures var done := Scan(cands, p, scanned, b).value;
      && done.0.entries == p.entries + Matching(cands[..k])
      && (done.1 <==> k < |cands|)
      && done.0.lastScanned == (if k == 0 then p.lastScanned else Some(cands[k - 1].member))
      && Within(done.0, b)
    ensures p.lastScanned.None? && cands != [] ==> 0 < k
    ensures scanned <= b.maxScan ==> scanned + k <= b.maxScan
  {
    hide Considered, Within, Matching;
    k := 0;
    NothingMatches();
    assert cands[..0] == [];
    if cands != [] && scanned < b.maxScan && |p.entries| < b.limit {
      var c := cands[0];
      ConsideredFacts(p, c, b);
      var next := Considered(p, c, b);
      if next.value.Some? {
        var rest := ScanTakesPrefix(cands[1..], next.value.value, scanned + 1, b);
        k := rest + 1;
        assert cands[..k] == [c] + cands[1..][..rest];
        MatchingConcat([c], cands[1..][..rest]);
      }
    } else {
      WithinLimit(p, b);
    }
  }

  lemma WithinLimit(p: Progress, b: Budget)
    requires Within(p, b)
    ensures |p.entries| <= b.limit
  {
  }

  lemma {:induction false} AfterCursor(cands: seq<Candidate>, cursor: Option<MemberId>, n: nat)
    requires Ascending(cands) && 0 < n <= |cands|
    requires cursor == Some(cands[n - 1].member)
    ensures After(cands, cursor) == cands[n..]
    decreases n
  {
    assert cands[0].member <= cands[n - 1].member;
    if n == 1 {
      assert After(cands[1..], cursor) == cands[1..];
    } else {
      AfterCursor(cands[1..], cursor, n - 1);
      assert cands[1..][n - 1..] == cands[n..];
    }
  }

  /** One page from any cursor a page has handed out: it lists exactly the matching rows between
      its cursor and the next, stays within the byte and result budgets, and always advances. */
  lemma PageIsAnInterval(cands: seq<Candidate>, n: nat, b: Budget) returns (k: nat)
    requires b.Usable() && Ascending(cands) && n <= |cands|
    requires forall c | c in cands :: b.Fits(c)
    ensures n + k <= |cands| && k <= b.maxScan && (n < |cands| ==> 0 < k)
    ensures var page := PageAt(cands, if n == 0 then None else Some(cands[n - 1].member), b);
      && page.Ok?
      && page.value.entries == Matching(cands[n..n + k])
      && page.value.nextCursor == (if n + k == |cands| then None else Some(cands[n + k - 1].member))
      && b.overhead + Bytes(page.value.entries, b) <= b.maximum
      && |page.value.entries| <= b.limit
  {
    var cursor := if n == 0 then None else Some(cands[n - 1].member);
    if n > 0 {
      AfterCursor(cands, cursor, n);
    }
    k := ScanTakesPrefix(cands[n..], Progress([], b.overhead, None), 0, b);
    assert cands[n..][..k] == cands[n..n + k];
    if k > 0 {
      assert cands[n..][k - 1] == cands[n + k - 1];
    }
  }

  /** All pages from the `n`th row on, following next cursors; `fuel` bounds the number of pages. */
  function Walk(cands: seq<Candidate>, cursor: Option<MemberId>, b: Budget, fuel: nat): Result<seq<Summary>>
    decreases fuel
  {
    var page :- PageAt(cands, cursor, b);
    if page.nextCursor.None? then Ok(page.entries)
    else if fuel == 0 then Err(Capacity)
    else
      var rest :- Walk(cands, page.nextCursor, b, fuel - 1);
      Ok(page.entries + rest)
  }

  /** Over an unchanged store, following cursors lists every matching row exactly once, in key
      order, and ends after at most one page per row. */
  lemma {:induction false} WalkListsEverything(cands: seq<Candidate>, n: nat, b: Budget, fuel: nat)
    requires b.Usable() && Ascending(cands) && n <= |cands|
    requires forall c | c in cands :: b.Fits(c)
    requires |cands| - n <= fuel
    ensures Walk(cands, if n == 0 then None else Some(cands[n - 1].member), b, fuel) == Ok(Matching(cands[n..]))
    decreases fuel
  {
    hide PageAt, Matching;
    var k := PageIsAnInterval(cands, n, b);
    if n + k < |cands| {
      WalkListsEverything(cands, n + k, b, fuel - 1);
      assert cands[n..] == cands[n..n + k] + cands[n + k..];
      MatchingConcat(cands[n..n + k], cands[n + k..]);
    } else {
      assert cands[n..n + k] == cands[n..];
    }
  }

  /** Asking the index for one row more than the scan budget loses nothing. */
  lemma {:induction false} OneRowMoreIsEnough(cands: seq<Candidate>, p: Progress, scanned: nat, b: Budget, fetched: nat)
    requires scanned <= b.maxScan && b.maxScan - scanned + 1 == fetched <= |cands|
    ensures Scan(cands[..fetched], p, scanned, b) == Scan(cands, p, scanned, b)
    decreases b.maxScan - scanned
  {
    if scanned < b.maxScan && |p.entries| < b.limit {
      var next := Considered(p, cands[0], b);
      if next.Ok? && next.value.Some? {
        assert cands[..fetched][1..] == cands[1..][..fetched - 1];
        OneRowMoreIsEnough(cands[1..], next.value.value, scanned + 1, b, fetched - 1);
      }
    }
  }

  /** When an entry cannot fit alone the walk stops with an error exactly where a page would
      have to start with it, never with a cursor that does not advance. */
  lemma FirstEntryTooLarge(cands: seq<Candidate>, cursor: Option<MemberId>, b: Budget)
    requires b.Usable()
    requires After(cands, cursor) != [] && !b.Fits(After(cands, cursor)[0])
    ensures PageAt(cands, cursor, b) == Err(Capacity)
  {
  }

  /* ----- the page builder ----- */

  class QueryPage {
    var entries: seq<Summary>
    var bytes: nat
    var lastScanned: Option<MemberId>
    const budget: Budget

    function View(): Progress
      reads this
    {
      Progress(entries, bytes, lastScanned)
    }

    constructor (budget: Budget)
      ensures this.budget == budget && View() == Progress([], budget.overhead, None)
    {
      this.budget := budget;
      entries, bytes, lastScanned := [], budget.overhead, None;
    }

    method Consider(member: MemberId, entry: Option<Summary>) returns (r: Result<bool>)
      modifies this
      ensures match Considered(old(View()), Candidate(member, entry), budget)
              case Ok(Some(p)) => r == Ok(true) && View() == p
              case Ok(None) => r == Ok(false) && View() == old(View())
              case Err(e) => r == Err(e) && View() == old(View())
    {
      if entry.Some? {
        var next := bytes + budget.size(entry.value) + (if entries == [] then 0 else 1);
        if next > budget.maximum {
          if entries == [] && lastScanned.None? {
            return Err(Capacity);
          }
          return Ok(false);
        }
        bytes := next;
        entries := entries + [entry.value];
      }
      lastScanned := Some(member);
      return Ok(true);
    }
  }

  lemma AfterStep(cands: seq<Candidate>, i: nat, cursor: Option<MemberId>)
    requires i < |cands|
    ensures After(cands[i..], cursor) ==
      if cursor.Some? && cands[i].member <= cursor.value then After(cands[i + 1..], cursor) else cands[i..]
  {
    assert cands[i..][0] == cands[i] && cands[i..][1..] == cands[i + 1..];
  }

  lemma ScanStep(cands: seq<Candidate>, i: nat, p: Progress, scanned: nat, b: Budget)
    requires i < |cands| && scanned < b.maxScan && |p.entries| < b.limit
    ensures Scan(cands[i..], p, scanned, b) ==
      match Considered(p, cands[i], b)
      case Err(e) => Err(e)
      case Ok(None) => Ok((p, true))
      case Ok(Some(next)) => Scan(cands[i + 1..], next, scanned + 1, b)
  {
    hide Considered;
    assert cands[i..][0] == cands[i] && cands[i..][1..] == cands[i + 1..];
  }

  /** The query loop over rows in key order. */
  method RunQuery(cands: seq<Candidate>, cursor: Option<MemberId>, b: Budget) returns (r: Result<Page>)
    requires Ascending(cands)
    ensures r == PageAt(cands, cursor, b)
  {
    hide Considered, After;
    if b.overhead > b.maximum {
      return Err(Capacity);
    }
    var page := new QueryPage(b);
    var scanned, more, i := 0, false, 0;
    ghost var start := page.View();
    assert cands[0..] == cands;
    while i < |cands|
      invariant 0 <= i <= |cands| && !more
      invariant scanned == 0 ==> page.View() == start && After(cands[i..], cursor) == After(cands, cursor)
      invariant scanned > 0 ==>
        Scan(After(cands, cursor), start, 0, b) == Scan(cands[i..], page.View(), scanned, b)
      invariant scanned > 0 && cursor.Some? ==> i > 0 && cursor.value < cands[i - 1].member
      invariant fresh(page) && page.budget == b
    {
      AfterStep(cands, i, cursor);
      if cursor.Some? && cands[i].member <= cursor.value {
        i := i + 1;
        continue;
      }
      if scanned >= b.maxScan || |page.entries| >= b.limit {
        more := true;
        break;
      }
      ScanStep(cands, i, page.View(), scanned, b);
      var taken :- page.Consider(cands[i].member, cands[i].entry);
      if !taken {
        more := true;
        break;
      }
      scanned := scanned + 1;
      i := i + 1;
    }
    AfterNothing(cursor);
    assert !more ==> cands[i..] == [];
    assert Scan(After(cands, cursor), start, 0, b) == Ok((page.View(), more));
    return Ok(Page(page.entries, if more then page.lastScanned else None));
  }

  lemma AfterNothing(cursor: Option<MemberId>)
    ensures After([], cursor) == []
  {
  }
}
