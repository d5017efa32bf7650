/** The published checkpoints form one chain, and who can still follow it. */
module CheckpointTheorems {
  import opened Basics
  import opened Orders
  import opened Checkpoints

  /** A successful binding. */
  datatype Enrolled = Enrolled(challenge: Challenge, policy: nat, validUntil: nat, at: nat)

  datatype Action =
    | Bind(challenge: Challenge, policy: nat, validUntil: nat, now: nat)
    | Publish(config: Config, now: nat)

  /** `chain` (every body published), `first` (the oldest link kept) and `enrolled` are history variables. */
  datatype State = State(db: Db, chain: seq<Body>, first: nat, enrolled: seq<Enrolled>)

  const START: State := State(EMPTY, [], 0, [])

  ghost function Step(s: State, a: Action, enc: Encoding): State {
    match a
    case Bind(c, policy, validUntil, now) => (
      match Bound(s.db, c, policy, validUntil, now)
      case Err(_) => s
      case Ok((db, bound)) => s.(db := db, enrolled := if bound then s.enrolled + [Enrolled(c, policy, validUntil, now)] else s.enrolled))
    case Publish(config, now) =>
      if !config.Valid() then s
      else
        match Published(s.db, config, now, enc)
        case Err(_) => s
        case Ok((db, checkpoint)) =>
          if db.head == s.db.head then s.(db := db)
          else State(db, s.chain + [checkpoint.body], Max(s.first, |s.chain| + 1 - config.maxRetainedLinks), s.enrolled)
  }

  ghost function Run(s: State, actions: seq<Action>, enc: Encoding): State
    decreases |actions|
  {
    if actions == [] then s else Run(Step(s, actions[0], enc), actions[1..], enc)
  }

  /* ----- bindings ----- */

  ghost predicate BindingsOk(db: Db) {
    && (forall m | m in db.bindings :: 0 < db.bindings[m])
    && (forall m, n | m in db.bindings && n in db.bindings && m != n :: db.bindings[m] != db.bindings[n])
  }

  /** An accepted challenge is remembered until it expires. */
  ghost predicate ReplaysOk(s: State) {
    && (forall i | 0 <= i < |s.enrolled| :: s.enrolled[i].at <= s.db.floor)
    && (forall i | 0 <= i < |s.enrolled| :: s.db.floor < s.enrolled[i].challenge.expiresAt ==>
          s.enrolled[i].challenge.nonce in s.db.replays
          && s.enrolled[i].challenge.expiresAt <= s.db.replays[s.enrolled[i].challenge.nonce])
    && (forall i, j | 0 <= i < j < |s.enrolled| && s.enrolled[i].challenge.nonce == s.enrolled[j].challenge.nonce ::
          s.enrolled[i].challenge.expiresAt <= s.enrolled[j].at)
  }

  lemma OwnedElsewhere(bindings: map<MemberId, Commitment>, member: MemberId, m: MemberId)
    requires m in bindings && m != member
    ensures Owners(bindings, bindings[m]) - {member} != {}
  {
    assert m in Owners(bindings, bindings[m]) - {member};
  }

  lemma BoundKeepsBindings(db: Db, c: Challenge, policy: nat, validUntil: nat, now: nat)
    requires BindingsOk(db) && Bound(db, c, policy, validUntil, now).Ok?
    ensures var after := Bound(db, c, policy, validUntil, now).value.0;
      && BindingsOk(after) && after.head == db.head && after.links == db.links
      && forall m | m in db.bindings :: m in after.bindings && after.bindings[m] == db.bindings[m]
  {
    if Bound(db, c, policy, validUntil, now).value.1 {
      forall m | m in db.bindings && m != c.memberId
        ensures db.bindings[m] != c.commitment
      {
        if db.bindings[m] == c.commitment {
          OwnedElsewhere(db.bindings, c.memberId, m);
        }
      }
    }
  }

  lemma BindKeepsReplays(s: State, c: Challenge, policy: nat, validUntil: nat, now: nat, enc: Encoding)
    requires ReplaysOk(s)
    ensures ReplaysOk(Step(s, Bind(c, policy, validUntil, now), enc))
  {
    hide Owners;
  }

  lemma BindKeepsBindings(s: State, c: Challenge, policy: nat, validUntil: nat, now: nat, enc: Encoding)
    requires BindingsOk(s.db) && ReplaysOk(s)
    ensures var after := Step(s, Bind(c, policy, validUntil, now), enc);
      && BindingsOk(after.db) && ReplaysOk(after)
      && (forall m | m in s.db.bindings :: m in after.db.bindings && after.db.bindings[m] == s.db.bindings[m])
      && after.db.head == s.db.head && after.db.links == s.db.links
  {
    hide Bound, ReplaysOk, BindingsOk;
    BindKeepsReplays(s, c, policy, validUntil, now, enc);
    if Bound(s.db, c, policy, validUntil, now).Ok? {
      BoundKeepsBindings(s.db, c, policy, validUntil, now);
    }
  }

  /* ----- the chain ----- */

  ghost predicate Formed(chain: seq<Body>) {
    forall i | 0 <= i < |chain| :: WellFormed(chain[i])
  }

  ghost predicate OneIssuer(chain: seq<Body>) {
    forall i | 0 <= i < |chain| :: chain[i].issuer == chain[0].issuer && chain[i].epochSeconds == chain[0].epochSeconds
  }

  predicate Continues(chain: seq<Body>, i: nat)
    requires i < |chain|
  {
    chain[i].previous == (if i == 0 then None else Some(chain[i - 1]))
  }

  ghost predicate Joined(chain: seq<Body>) {
    forall i | 0 <= i < |chain| :: Continues(chain, i)
  }

  ghost predicate EpochsRise(chain: seq<Body>) {
    forall i, j | 0 <= i < j < |chain| :: chain[i].epoch < chain[j].epoch
  }

  /** Valid bodies by one issuer, each naming the one before, in strictly rising epochs. */
  ghost predicate ChainOk(chain: seq<Body>) {
    Formed(chain) && OneIssuer(chain) && Joined(chain) && EpochsRise(chain)
  }

  ghost function EpochsFrom(chain: seq<Body>, f: nat): set<nat> {
    set k: nat | f <= k < |chain| :: chain[k].epoch
  }

  /** The kept links are exactly those of the newest bodies. */
  ghost predicate LinksOk(db: Db, chain: seq<Body>, first: nat) {
    && first <= |chain| <= first + MAX_LINKS
    && db.links.Keys == EpochsFrom(chain, first)
    && (forall k | first <= k < |chain| :: chain[k].epoch in db.links && db.links[chain[k].epoch] == LinkTo(chain[k]))
  }

  ghost predicate HeadOk(db: Db, chain: seq<Body>) {
    db.head == if chain == [] then None else Some(Signed(chain[|chain| - 1]))
  }

  ghost predicate StateOk(s: State) {
    && BindingsOk(s.db) && ReplaysOk(s)
    && ChainOk(s.chain) && HeadOk(s.db, s.chain) && LinksOk(s.db, s.chain, s.first)
  }

  lemma {:induction false} EpochCount(chain: seq<Body>, f: nat)
    requires f <= |chain| && EpochsRise(chain)
    ensures |EpochsFrom(chain, f)| == |chain| - f
    decreases |chain| - f
  {
    if f == |chain| {
      assert EpochsFrom(chain, f) == {};
    } else {
      EpochCount(chain, f + 1);
      assert EpochsFrom(chain, f) == EpochsFrom(chain, f + 1) + {chain[f].epoch};
    }
  }

  lemma InOrderOfPositives(keys: set<nat>)
    requires 0 !in keys
    ensures Rising([0] + InOrder(keys))
  {
    InOrderIsOrder(keys);
  }

  lemma NextIsWellFormed(db: Db, c: Config, now: nat, enc: Encoding)
    requires BindingsOk(db) && c.Valid() && Published(db, c, now, enc).Ok?
    requires db.head.Some? ==> db.head.value.body.epoch != NextBody(db, c, now).epoch
    ensures WellFormed(NextBody(db, c, now))
  {
    hide InOrder, Newest;
    var b := NextBody(db, c, now);
    DivisionBounds(now, c.epochSeconds);
    assert 0 !in Qualified(db, c.policy, b.expiresAt);
    InOrderOfPositives(Qualified(db, c.policy, b.expiresAt));
  }

  /** A new body extends the chain. */
  lemma ChainExtended(chain: seq<Body>, b: Body)
    requires ChainOk(chain) && WellFormed(b)
    requires chain == [] ==> b.previous == None
    requires chain != [] ==>
      var last := chain[|chain| - 1];
      b.previous == Some(last) && last.epoch < b.epoch && b.issuer == last.issuer && b.epochSeconds == last.epochSeconds
    ensures ChainOk(chain + [b])
  {
    hide WellFormed;
    var longer := chain + [b];
    forall i | 0 <= i < |longer|
      ensures Continues(longer, i)
    {
      if i < |chain| {
        assert Continues(chain, i);
      }
    }
    if chain != [] {
      assert forall i | 0 <= i < |chain| - 1 :: chain[i].epoch < chain[|chain| - 1].epoch;
    }
  }

  lemma NextBodyExtends(s: State, c: Config, now: nat, enc: Encoding)
    requires StateOk(s) && c.Valid() && Published(s.db, c, now, enc).Ok?
    requires s.db.head.Some? ==> s.db.head.value.body.epoch != NextBody(s.db, c, now).epoch
    ensures ChainOk(s.chain + [NextBody(s.db, c, now)])
  {
    hide ReplaysOk, LinksOk, InOrder, BindingsOk, ChainOk, WellFormed, Newest;
    NextIsWellFormed(s.db, c, now, enc);
    ChainExtended(s.chain, NextBody(s.db, c, now));
  }

  lemma NewerCount(links: map<nat, Link>, chain: seq<Body>, first: nat, k: nat)
    requires first <= k < |chain| && EpochsRise(chain)
    requires links.Keys == EpochsFrom(chain, first)
    ensures |NewerThan(links, chain[k].epoch)| == |chain| - k - 1
  {
    EpochCount(chain, k + 1);
    var newer := NewerThan(links, chain[k].epoch);
    forall d
      ensures d in newer <==> d in EpochsFrom(chain, k + 1)
    {
    }
    assert newer == EpochsFrom(chain, k + 1);
  }

  lemma KeptExactly(chain: seq<Body>, kept: nat, k: nat)
    requires k < |chain| && EpochsRise(chain)
    ensures chain[k].epoch in EpochsFrom(chain, kept) <==> kept <= k
  {
    assert forall i | 0 <= i < |chain| && chain[i].epoch == chain[k].epoch :: i == k;
  }

  /** Keeping the newest links keeps the links of the newest bodies. */
  lemma NewestIsSuffix(links: map<nat, Link>, chain: seq<Body>, first: nat, max: nat)
    requires 0 < max && first <= |chain| && EpochsRise(chain)
    requires links.Keys == EpochsFrom(chain, first)
    ensures Newest(links, max).Keys == EpochsFrom(chain, Max(first, |chain| - max))
  {
    var kept := Max(first, |chain| - max);
    forall e
      ensures e in Newest(links, max) <==> e in EpochsFrom(chain, kept)
    {
      assert e in EpochsFrom(chain, kept) ==> e in EpochsFrom(chain, first);
      if e in links {
        var k :| first <= k < |chain| && chain[k].epoch == e;
        NewerCount(links, chain, first, k);
        KeptExactly(chain, kept, k);
      }
    }
  }

  lemma PublishKeepsState(s: State, c: Config, now: nat, enc: Encoding)
    requires StateOk(s)
    ensures StateOk(Step(s, Publish(c, now), enc))
    ensures Step(s, Publish(c, now), enc).db.bindings == s.db.bindings
    ensures s.chain <= Step(s, Publish(c, now), enc).chain
  {
    hide InOrder, ReplaysOk, BindingsOk, ChainOk, LinksOk;
    if c.Valid() && Published(s.db, c, now, enc).Ok? {
      var after, b := Step(s, Publish(c, now), enc), NextBody(s.db, c, now);
      ReplaysAreKept(s, after.(enrolled := s.enrolled));
      BindingsAreKept(s.db, after.db);
      if s.db.head.Some? && s.db.head.value.body.epoch == b.epoch {
        LinksAreKept(s, after);
      } else {
        NextBodyExtends(s, c, now, enc);
        assert after.db.head != s.db.head;
        NewLinkIsKept(s, c, b, after);
      }
    }
  }

  lemma ReplaysAreKept(s: State, after: State)
    requires ReplaysOk(s) && after.enrolled == s.enrolled && after.db.replays == s.db.replays && s.db.floor <= after.db.floor
    ensures ReplaysOk(after)
  {
  }

  lemma BindingsAreKept(db: Db, after: Db)
    requires BindingsOk(db) && after.bindings == db.bindings
    ensures BindingsOk(after)
  {
  }

  lemma LinksAreKept(s: State, after: State)
    requires LinksOk(s.db, s.chain, s.first) && after.db.links == s.db.links && after.chain == s.chain && after.first == s.first
    ensures LinksOk(after.db, after.chain, after.first)
  {
  }

  lemma NewLinkIsKept(s: State, c: Config, b: Body, after: State)
    requires c.Valid() && ChainOk(s.chain + [b]) && LinksOk(s.db, s.chain, s.first)
    requires after.chain == s.chain + [b] && after.first == Max(s.first, |s.chain| + 1 - c.maxRetainedLinks)
    requires after.db.links == Newest(s.db.links[b.epoch := LinkTo(b)], c.maxRetainedLinks)
    ensures LinksOk(after.db, after.chain, after.first)
  {
    hide Formed, OneIssuer, Joined, Newest;
    var all := s.db.links[b.epoch := LinkTo(b)];
    var n := |s.chain|;
    assert after.chain[n] == b;
    forall k | 0 <= k < n
      ensures after.chain[k] == s.chain[k] && s.chain[k].epoch < b.epoch
    {
      assert after.chain[k].epoch < after.chain[n].epoch;
    }
    assert EpochsFrom(after.chain, s.first) == EpochsFrom(s.chain, s.first) + {b.epoch};
    NewestIsSuffix(all, after.chain, s.first, c.maxRetainedLinks);
    forall k | after.first <= k < |after.chain|
      ensures after.chain[k].epoch in after.db.links && after.db.links[after.chain[k].epoch] == LinkTo(after.chain[k])
    {
      assert after.chain[k].epoch in EpochsFrom(after.chain, after.first);
      NewestKeepsValues(all, c.maxRetainedLinks, after.chain[k].epoch);
    }
  }

  lemma NewestKeepsValues(links: map<nat, Link>, n: nat, e: nat)
    ensures e in Newest(links, n) ==> e in links && Newest(links, n)[e] == links[e]
  {
  }

  lemma StepKeepsState(s: State, a: Action, enc: Encoding)
    requires StateOk(s)
    ensures StateOk(Step(s, a, enc))
    ensures forall m | m in s.db.bindings :: m in Step(s, a, enc).db.bindings && Step(s, a, enc).db.bindings[m] == s.db.bindings[m]
    ensures s.chain <= Step(s, a, enc).chain
  {
    hide ReplaysOk, BindingsOk, ChainOk, LinksOk, Published;
    match a {
      case Bind(c, policy, validUntil, now) =>
        BindKeepsBindings(s, c, policy, validUntil, now, enc);
        LinksAreKept(s, Step(s, a, enc));
      case Publish(c, now) => PublishKeepsState(s, c, now, enc);
    }
  }

  lemma {:induction false} RunKeepsState(s: State, actions: seq<Action>, enc: Encoding)
    requires StateOk(s)
    ensures StateOk(Run(s, actions, enc))
    ensures forall m | m in s.db.bindings :: m in Run(s, actions, enc).db.bindings && Run(s, actions, enc).db.bindings[m] == s.db.bindings[m]
    ensures s.chain <= Run(s, actions, enc).chain
    decreases |actions|
  {
    hide StateOk, Step;
    if actions != [] {
      StepKeepsState(s, actions[0], enc);
      RunKeepsState(Step(s, actions[0], enc), actions[1..], enc);
    }
  }

  lemma EveryRunIsOk(actions: seq<Action>, enc: Encoding)
    ensures StateOk(Run(START, actions, enc))
  {
    hide Run;
    RunKeepsState(START, actions, enc);
  }

  /** Bindings are one to one and permanent, and a challenge is honoured once while it is fresh. */
  lemma BindingsArePermanent(before: seq<Action>, after: seq<Action>, m: MemberId, n: MemberId, enc: Encoding)
    requires m in Run(START, before, enc).db.bindings && n in Run(Run(START, before, enc), after, enc).db.bindings
    ensures var s, t := Run(START, before, enc), Run(Run(START, before, enc), after, enc);
      && m in t.db.bindings && t.db.bindings[m] == s.db.bindings[m]
      && (m != n ==> t.db.bindings[n] != s.db.bindings[m])
      && ReplaysOk(t)
  {
    hide Run, ReplaysOk, LinksOk, ChainOk;
    EveryRunIsOk(before, enc);
    RunKeepsState(Run(START, before, enc), after, enc);
  }

  /** The published bodies form one chain of strictly rising epochs that only ever grows, and a
      stored link can never be overwritten. */
  lemma OneGrowingChain(before: seq<Action>, after: seq<Action>, c: Config, now: nat, enc: Encoding)
    requires c.Valid()
    ensures var s := Run(START, before, enc);
      && ChainOk(s.chain) && s.chain <= Run(s, after, enc).chain
      && Published(s.db, c, now, enc) != Err(Storage)
  {
    hide Run, ReplaysOk, InOrder, BindingsOk, WellFormed;
    EveryRunIsOk(before, enc);
    var s := Run(START, before, enc);
    RunKeepsState(s, after, enc);
    if s.chain != [] {
      assert forall e | e in s.db.links :: e <= s.chain[|s.chain| - 1].epoch;
    }
  }

  /** Every commitment in a published checkpoint belongs to one member, for good. */
  lemma RosterIsBound(before: seq<Action>, c: Config, now: nat, after: seq<Action>, x: Commitment, enc: Encoding)
    requires c.Valid() && Published(Run(START, before, enc).db, c, now, enc).Ok?
    requires x in NextBody(Run(START, before, enc).db, c, now).commitments
    ensures var t := Run(Run(START, before, enc), after, enc).db;
      exists m :: m in t.bindings && t.bindings[m] == x && forall n | n in t.bindings && t.bindings[n] == x :: n == m
  {
    hide Run, ReplaysOk, ChainOk, LinksOk, InOrder;
    var s := Run(START, before, enc);
    EveryRunIsOk(before, enc);
    RunKeepsState(s, after, enc);
    var b := NextBody(s.db, c, now);
    ListedIsQualified(Qualified(s.db, c.policy, b.expiresAt), x);
    var m :| m in s.db.bindings && s.db.bindings[m] == x;
    assert m in Run(s, after, enc).db.bindings;
  }

  lemma ListedIsQualified(keys: set<nat>, x: nat)
    requires x in InOrder(keys)
    ensures x in keys
  {
    InOrderIsOrder(keys);
  }

  /* ----- following the chain ----- */

  /** The links of the bodies strictly between two places. */
  function Between(chain: seq<Body>, i: nat, j: nat): seq<Link>
    requires i <= j <= |chain|
    decreases j - i
  {
    if i + 1 >= j then [] else [LinkTo(chain[i + 1])] + Between(chain, i + 1, j)
  }

  /** Nobody but the publisher produces its link signatures. */
  ghost predicate Unforged(links: seq<Link>, chain: seq<Body>) {
    forall x | x in links && chain != [] && x.signature == OfLink(chain[0].issuer, x.body) ::
      exists k :: 0 <= k < |chain| && x == LinkTo(chain[k])
  }

  function AnchorAt(chain: seq<Body>, i: nat): Anchor
    requires i < |chain|
  {
    Anchor(chain[i].epoch, chain[i])
  }

  /** The verifier moves to the next body on its link and stops on anything else. */
  lemma FollowsNext(chain: seq<Body>, links: seq<Link>, i: nat, j: nat)
    requires ChainOk(chain) && i < j < |chain| && Unforged(links, chain) && links != []
    ensures var next := Follow(links, AnchorAt(chain, i), chain[0].issuer, chain[j].epoch);
      next == if i + 1 < j && links[0] == LinkTo(chain[i + 1])
              then Follow(links[1..], AnchorAt(chain, i + 1), chain[0].issuer, chain[j].epoch) else None
  {
    hide ChainOk;
    var link := links[0];
    assert link in links;
    NextLink(chain, i);
    if link.signature == OfLink(chain[0].issuer, link.body) {
      var k :| 0 <= k < |chain| && link == LinkTo(chain[k]);
      if k == i + 1 {
        EpochsCompare(chain, k, j);
      } else {
        OtherLink(chain, k, i);
      }
    }
  }

  lemma NextLink(chain: seq<Body>, i: nat)
    requires ChainOk(chain) && i + 1 < |chain|
    ensures chain[i + 1].issuer == chain[0].issuer && chain[i].epoch < chain[i + 1].epoch && chain[i + 1].previous == Some(chain[i])
  {
    hide Formed;
    assert Continues(chain, i + 1);
  }

  lemma EpochsCompare(chain: seq<Body>, k: nat, j: nat)
    requires ChainOk(chain) && k < |chain| && j < |chain|
    ensures chain[k].epoch < chain[j].epoch <==> k < j
  {
    hide Formed, OneIssuer, Joined;
  }

  /** Whatever links are presented, they lead from one published body to the next head exactly
      when they are all the links in between, in order. */
  lemma {:induction false} FollowsExactly(chain: seq<Body>, links: seq<Link>, i: nat, j: nat)
    requires ChainOk(chain) && i < j < |chain| && Unforged(links, chain)
    ensures Follow(links, AnchorAt(chain, i), chain[0].issuer, chain[j].epoch) == chain[j].previous <==> links == Between(chain, i, j)
    decreases |links|
  {
    hide ChainOk, LinkTo;
    NextLink(chain, j - 1);
    EpochsCompare(chain, i, j - 1);
    if links != [] {
      FollowsNext(chain, links, i, j);
      if i + 1 < j && links[0] == LinkTo(chain[i + 1]) {
        FewerUnforged(links, chain);
        FollowsExactly(chain, links[1..], i + 1, j);
      }
    }
  }

  lemma FewerUnforged(links: seq<Link>, chain: seq<Body>)
    requires Unforged(links, chain) && links != []
    ensures Unforged(links[1..], chain)
  {
    assert forall x | x in links[1..] :: x in links;
  }

  lemma DistinctEpochs(chain: seq<Body>, i: nat, j: nat)
    requires EpochsRise(chain) && i < |chain| && j < |chain| && i != j
    ensures chain[i].epoch != chain[j].epoch
  {
    if i < j {
      assert chain[i].epoch < chain[j].epoch;
    } else {
      assert chain[j].epoch < chain[i].epoch;
    }
  }

  lemma OtherLink(chain: seq<Body>, k: nat, i: nat)
    requires ChainOk(chain) && k < |chain| && i < |chain| && k != i + 1
    ensures chain[k].previous != Some(chain[i])
    ensures i + 1 < |chain| ==> LinkTo(chain[k]) != LinkTo(chain[i + 1])
  {
    hide Formed, OneIssuer, EpochsRise;
    assert Continues(chain, k);
    if k > 0 {
      DistinctEpochs(chain, k - 1, i);
    }
    if i + 1 < |chain| {
      DistinctEpochs(chain, k, i + 1);
    }
  }

  /** The verifier's exact rule for a client anchored at a published body. */
  lemma AcceptsExactly(chain: seq<Body>, i: nat, j: nat, now: nat, links: seq<Link>)
    requires ChainOk(chain) && i <= j < |chain| && Unforged(links, chain)
    requires Positive(now) && chain[j].notBefore <= now < chain[j].expiresAt
    ensures Accepts(Signed(chain[j]), chain[0].issuer, chain[j].policy, now, Some(AnchorAt(chain, i)), links)
      <==> |links| <= MAX_LINKS && links == (if i == j then [] else Between(chain, i, j))
  {
    hide WellFormed;
    assert WellFormed(chain[i]) && WellFormed(chain[j]);
    PositiveEpoch(chain[i]);
    assert chain[j].issuer == chain[0].issuer;
    if i < j {
      assert chain[i].epoch < chain[j].epoch && Continues(chain, j);
      FollowsExactly(chain, links, i, j);
    }
  }

  lemma PositiveEpoch(b: Body)
    requires WellFormed(b)
    ensures Positive(b.epoch)
  {
  }

  /* ----- what the ledger still has to offer ----- */

  function EpochsBetween(chain: seq<Body>, i: nat, j: nat): seq<nat>
    requires i <= j <= |chain|
  {
    seq<nat>(j - i, k requires 0 <= k < j - i => chain[i + k].epoch)
  }

  lemma {:induction false} ListedIsBetween(links: map<nat, Link>, chain: seq<Body>, i: nat, j: nat)
    requires i < j <= |chain|
    requires forall k | i < k < j :: chain[k].epoch in links && links[chain[k].epoch] == LinkTo(chain[k])
    ensures Listed(links, EpochsBetween(chain, i + 1, j)) == Between(chain, i, j)
    decreases j - i
  {
    if i + 1 < j {
      var epochs := EpochsBetween(chain, i + 1, j);
      assert epochs[1..] == EpochsBetween(chain, i + 2, j);
      ListedIsBetween(links, chain, i + 1, j);
    }
  }

  lemma WantedEpochs(db: Db, chain: seq<Body>, first: nat, i: nat)
    requires EpochsRise(chain) && db.links.Keys == EpochsFrom(chain, first) && i < |chain| - 1
    ensures var n, from := |chain|, Max(first, i + 1);
      (set e | e in db.links && chain[i].epoch < e < chain[n - 1].epoch) == set k: nat | from <= k < n - 1 :: chain[k].epoch
  {
    var n, from := |chain|, Max(first, i + 1);
    forall k: nat | first <= k < n
      ensures chain[i].epoch < chain[k].epoch < chain[n - 1].epoch <==> i < k < n - 1
    {
    }
  }

  lemma EpochsBetweenAre(chain: seq<Body>, i: nat, j: nat)
    requires EpochsRise(chain) && i <= j <= |chain|
    ensures Rising(EpochsBetween(chain, i, j))
    ensures forall e :: e in EpochsBetween(chain, i, j) <==> e in set k: nat | i <= k < j :: chain[k].epoch
  {
    var epochs := EpochsBetween(chain, i, j);
    forall k: nat | i <= k < j
      ensures chain[k].epoch in epochs
    {
      assert epochs[k - i] == chain[k].epoch;
    }
  }

  /** The epochs asked for, in order, are those of the kept bodies before the head. */
  lemma WantedInOrder(db: Db, chain: seq<Body>, first: nat, i: nat)
    requires EpochsRise(chain) && db.links.Keys == EpochsFrom(chain, first) && first <= |chain| && i < |chain| - 1
    ensures var n, from := |chain|, Max(first, i + 1);
      InOrder(set e | e in db.links && chain[i].epoch < e < chain[n - 1].epoch) == EpochsBetween(chain, from, Max(from, n - 1))
  {
    hide InOrder, EpochsBetween, EpochsFrom, EpochsRise;
    var n, from := |chain|, Max(first, i + 1);
    var stop := Max(from, n - 1);
    WantedEpochs(db, chain, first, i);
    EpochsBetweenAre(chain, from, stop);
    assert (set k: nat | from <= k < n - 1 :: chain[k].epoch) == set k: nat | from <= k < stop :: chain[k].epoch;
    RisingIsInOrder(EpochsBetween(chain, from, stop), set e | e in db.links && chain[i].epoch < e < chain[n - 1].epoch);
  }

  /** The ledger hands out the links that are left between the client and the head. */
  lemma LedgerLinks(s: State, i: nat)
    requires StateOk(s) && i < |s.chain| - 1
    ensures var n, from := |s.chain|, Max(s.first, i + 1);
      LinksBetween(s.db, s.chain[i].epoch, s.chain[n - 1].epoch) == if from >= n then [] else Between(s.chain, from - 1, n - 1)
  {
    hide StateOk, ChainOk, EpochsRise, InOrder, EpochsBetween, EpochsFrom, Listed, Between;
    var n, from := |s.chain|, Max(s.first, i + 1);
    StateHasLinks(s);
    WantedInOrder(s.db, s.chain, s.first, i);
    if from < n {
      ListedIsBetween(s.db.links, s.chain, from - 1, n - 1);
    } else {
      NothingBetween(s.db.links, s.chain, from);
    }
  }

  lemma StateHasLinks(s: State)
    requires StateOk(s)
    ensures EpochsRise(s.chain) && LinksOk(s.db, s.chain, s.first)
  {
    hide ReplaysOk, BindingsOk, HeadOk, LinksOk, Formed, OneIssuer, Joined, EpochsRise;
  }

  lemma NothingBetween(links: map<nat, Link>, chain: seq<Body>, i: nat)
    requires i <= |chain|
    ensures Listed(links, EpochsBetween(chain, i, i)) == []
  {
    assert EpochsBetween(chain, i, i) == [];
  }

  lemma {:induction false} BetweenFacts(chain: seq<Body>, i: nat, j: nat)
    requires i < j <= |chain|
    ensures |Between(chain, i, j)| == j - i - 1
    ensures forall x | x in Between(chain, i, j) :: exists k :: 0 <= k < |chain| && x == LinkTo(chain[k])
    decreases j - i
  {
    if i + 1 < j {
      BetweenFacts(chain, i + 1, j);
    }
  }

  /** The links the ledger hands to a client anchored at the `i`th checkpoint. */
  ghost function CatchUp(s: State, i: nat): seq<Link>
    requires i < |s.chain|
  {
    if i == |s.chain| - 1 then [] else LinksBetween(s.db, s.chain[i].epoch, s.chain[|s.chain| - 1].epoch)
  }

  /** That client accepts the head with those links. */
  ghost predicate CatchesUp(s: State, i: nat, now: nat)
    requires i < |s.chain|
  {
    var head := s.chain[|s.chain| - 1];
    Accepts(Signed(head), head.issuer, head.policy, now, Some(AnchorAt(s.chain, i)), CatchUp(s, i))
  }

  predicate HeadIsCurrent(chain: seq<Body>, now: nat) {
    chain != [] && Positive(now) && chain[|chain| - 1].notBefore <= now < chain[|chain| - 1].expiresAt
  }

  /** Every link between the client and the head is still stored. */
  ghost predicate NothingDropped(s: State, i: nat) {
    forall k | i < k < |s.chain| - 1 :: s.chain[k].epoch in s.db.links
  }

  /** While the head is current, a client anchored at any earlier published checkpoint is accepted
      with the ledger's own links exactly when no link it needs has been dropped. */
  lemma CatchUpExactly(actions: seq<Action>, i: nat, now: nat, enc: Encoding)
    requires i < |Run(START, actions, enc).chain| && HeadIsCurrent(Run(START, actions, enc).chain, now)
    ensures var s := Run(START, actions, enc);
      && s.db.head == Some(Signed(s.chain[|s.chain| - 1]))
      && (CatchesUp(s, i, now) <==> NothingDropped(s, i))
  {
    hide Run, StateOk, CatchesUp, NothingDropped;
    EveryRunIsOk(actions, enc);
    var s := Run(START, actions, enc);
    HeadIsLast(s);
    CatchUpInState(s, i, now);
    DroppedBehindFirst(s, i);
  }

  lemma HeadIsLast(s: State)
    requires StateOk(s) && s.chain != []
    ensures s.db.head == Some(Signed(s.chain[|s.chain| - 1]))
  {
    hide ReplaysOk, BindingsOk, ChainOk, LinksOk;
  }

  lemma CatchUpInState(s: State, i: nat, now: nat)
    requires StateOk(s) && i < |s.chain| && HeadIsCurrent(s.chain, now)
    ensures CatchesUp(s, i, now) <==> |s.chain| - 2 <= i || s.first <= i + 1
  {
    hide StateOk, ChainOk, WellFormed, Accepts, LinksBetween;
    StateHasChain(s);
    ChainRises(s.chain);
    if i == |s.chain| - 1 {
      NoLinksUnforged(s.chain);
      AcceptsExactly(s.chain, i, i, now, []);
    } else {
      CatchUpBehind(s, i, now);
    }
  }

  lemma DroppedBehindFirst(s: State, i: nat)
    requires StateOk(s) && i < |s.chain|
    ensures NothingDropped(s, i) <==> |s.chain| - 2 <= i || s.first <= i + 1
  {
    hide ReplaysOk, BindingsOk, HeadOk, Formed, OneIssuer, Joined, EpochsRise, EpochsFrom;
    forall k | 0 <= k < |s.chain|
      ensures s.chain[k].epoch in s.db.links <==> s.first <= k
    {
      KeptExactly(s.chain, s.first, k);
    }
    if i + 1 < |s.chain| - 1 {
      assert NothingDropped(s, i) ==> s.chain[i + 1].epoch in s.db.links;
    }
  }

  lemma ChainRises(chain: seq<Body>)
    requires ChainOk(chain)
    ensures EpochsRise(chain)
    ensures chain != [] ==> chain[|chain| - 1].issuer == chain[0].issuer
  {
    hide Formed, Joined, EpochsRise;
  }

  lemma StateHasChain(s: State)
    requires StateOk(s)
    ensures ChainOk(s.chain) && s.first <= |s.chain| <= s.first + MAX_LINKS
  {
    hide ReplaysOk, BindingsOk, ChainOk, HeadOk;
  }

  lemma CatchUpBehind(s: State, i: nat, now: nat)
    requires StateOk(s) && i < |s.chain| - 1
    requires var head := s.chain[|s.chain| - 1]; Positive(now) && head.notBefore <= now < head.expiresAt
    ensures var n := |s.chain|;
      var head := s.chain[n - 1];
      Accepts(Signed(head), head.issuer, head.policy, now, Some(AnchorAt(s.chain, i)), LinksBetween(s.db, s.chain[i].epoch, head.epoch))
        == (n - 2 <= i || s.first <= i + 1)
  {
    hide StateOk, ChainOk, WellFormed, Accepts, LinksBetween, Between, Unforged, Signed, AnchorAt;
    StateHasChain(s);
    var n, from := |s.chain|, Max(s.first, i + 1);
    ChainRises(s.chain);
    LedgerLinks(s, i);
    BetweenShort(s.chain, i, n - 1);
    if from < n {
      BetweenShort(s.chain, from - 1, n - 1);
      AcceptsExactly(s.chain, i, n - 1, now, Between(s.chain, from - 1, n - 1));
    } else {
      NoLinksUnforged(s.chain);
      AcceptsExactly(s.chain, i, n - 1, now, []);
    }
  }

  lemma NoLinksUnforged(chain: seq<Body>)
    ensures Unforged([], chain)
  {
  }

  lemma BetweenShort(chain: seq<Body>, i: nat, j: nat)
    requires i <= j <= |chain|
    ensures |Between(chain, i, j)| == Max(0, j - i - 1) && Unforged(Between(chain, i, j), chain)
  {
    if i < j {
      BetweenFacts(chain, i, j);
    }
  }

  /** No link among the newest `depth` is dropped while every publication retains that many. */
  lemma {:induction false} RetentionBound(s: State, actions: seq<Action>, depth: nat, enc: Encoding)
    requires forall a | a in actions && a.Publish? :: a.config.maxRetainedLinks >= depth
    requires s.first <= Max(0, |s.chain| - depth)
    ensures Run(s, actions, enc).first <= Max(0, |Run(s, actions, enc).chain| - depth)
    decreases |actions|
  {
    hide Published, Bound;
    if actions != [] {
      assert actions[0] in actions;
      RetentionBound(Step(s, actions[0], enc), actions[1..], depth, enc);
    }
  }

  /** A client anchored at most `depth` checkpoints behind the head always catches up while every
      publication retains at least `depth` links. */
  lemma RetentionDepth(actions: seq<Action>, depth: nat, i: nat, now: nat, enc: Encoding)
    requires forall a | a in actions && a.Publish? :: a.config.maxRetainedLinks >= depth
    requires i < |Run(START, actions, enc).chain| <= i + depth + 1 && HeadIsCurrent(Run(START, actions, enc).chain, now)
    ensures CatchesUp(Run(START, actions, enc), i, now)
  {
    hide Run, StateOk, CatchesUp;
    EveryRunIsOk(actions, enc);
    RetentionBound(START, actions, depth, enc);
    CatchUpInState(Run(START, actions, enc), i, now);
  }
}
