/** Exactly who is bound, who is listed and when a checkpoint is published, told by the successful bindings. */
module CheckpointExactness {
  import opened Basics
  import opened Orders
  import opened Checkpoints
  import opened CheckpointTheorems

  /* ----- the tables, told by the bindings ----- */

  /** Somebody bound this member under this policy until then. */
  ghost predicate Vouched(enrolled: seq<Enrolled>, m: MemberId, policy: nat, until: nat) {
    exists i :: 0 <= i < |enrolled| && enrolled[i].challenge.memberId == m && enrolled[i].policy == policy && enrolled[i].validUntil == until
  }

  ghost predicate NonceUsed(enrolled: seq<Enrolled>, n: nat, until: nat) {
    exists i :: 0 <= i < |enrolled| && enrolled[i].challenge.nonce == n && enrolled[i].challenge.expiresAt == until
  }

  ghost predicate MemberSeen(enrolled: seq<Enrolled>, m: MemberId) {
    exists i :: 0 <= i < |enrolled| && enrolled[i].challenge.memberId == m
  }

  /** What a binding put into the tables and has not lapsed is still there. */
  predicate Kept(db: Db, e: Enrolled) {
    var m, key := e.challenge.memberId, (e.challenge.memberId, e.policy);
    && m in db.bindings && db.bindings[m] == e.challenge.commitment
    && (db.floor < e.validUntil ==> key in db.qualifications && e.validUntil <= db.qualifications[key])
    && (db.floor < e.challenge.expiresAt ==>
          e.challenge.nonce in db.replays && e.challenge.expiresAt <= db.replays[e.challenge.nonce])
  }

  ghost predicate Traced(s: State) {
    && (forall i | 0 <= i < |s.enrolled| :: Kept(s.db, s.enrolled[i]))
    && (forall k | k in s.db.qualifications :: Vouched(s.enrolled, k.0, k.1, s.db.qualifications[k]))
    && (forall n | n in s.db.replays :: NonceUsed(s.enrolled, n, s.db.replays[n]))
    && (forall m | m in s.db.bindings :: MemberSeen(s.enrolled, m))
  }

  lemma VouchedAppend(enrolled: seq<Enrolled>, e: Enrolled, m: MemberId, policy: nat, until: nat)
    ensures Vouched(enrolled, m, policy, until) ==> Vouched(enrolled + [e], m, policy, until)
    ensures Vouched(enrolled + [e], e.challenge.memberId, e.policy, e.validUntil)
  {
    var longer := enrolled + [e];
    assert longer[|enrolled|] == e;
    if i :| 0 <= i < |enrolled| && enrolled[i].challenge.memberId == m && enrolled[i].policy == policy && enrolled[i].validUntil == until {
      assert longer[i] == enrolled[i];
    }
  }

  lemma NonceAppend(enrolled: seq<Enrolled>, e: Enrolled, n: nat, until: nat)
    ensures NonceUsed(enrolled, n, until) ==> NonceUsed(enrolled + [e], n, until)
    ensures NonceUsed(enrolled + [e], e.challenge.nonce, e.challenge.expiresAt)
  {
    var longer := enrolled + [e];
    assert longer[|enrolled|] == e;
    if i :| 0 <= i < |enrolled| && enrolled[i].challenge.nonce == n && enrolled[i].challenge.expiresAt == until {
      assert longer[i] == enrolled[i];
    }
  }

  lemma MemberAppend(enrolled: seq<Enrolled>, e: Enrolled, m: MemberId)
    ensures MemberSeen(enrolled, m) ==> MemberSeen(enrolled + [e], m)
    ensures MemberSeen(enrolled + [e], e.challenge.memberId)
  {
    var longer := enrolled + [e];
    assert longer[|enrolled|] == e;
    if i :| 0 <= i < |enrolled| && enrolled[i].challenge.memberId == m {
      assert longer[i] == enrolled[i];
    }
  }

  lemma BindTraces(s: State, c: Challenge, policy: nat, validUntil: nat, now: nat, enc: Encoding)
    requires Traced(s)
    ensures Traced(Step(s, Bind(c, policy, validUntil, now), enc))
  {
    hide Owners, Vouched, NonceUsed, MemberSeen;
    var bound := Bound(s.db, c, policy, validUntil, now);
    if bound.Ok? && bound.value.1 {
      var e := Enrolled(c, policy, validUntil, now);
      forall m, p, until
        ensures Vouched(s.enrolled, m, p, until) ==> Vouched(s.enrolled + [e], m, p, until)
      {
        VouchedAppend(s.enrolled, e, m, p, until);
      }
      forall n, until
        ensures NonceUsed(s.enrolled, n, until) ==> NonceUsed(s.enrolled + [e], n, until)
      {
        NonceAppend(s.enrolled, e, n, until);
      }
      forall m
        ensures MemberSeen(s.enrolled, m) ==> MemberSeen(s.enrolled + [e], m)
      {
        MemberAppend(s.enrolled, e, m);
      }
      VouchedAppend(s.enrolled, e, c.memberId, policy, validUntil);
      NonceAppend(s.enrolled, e, c.nonce, c.expiresAt);
      MemberAppend(s.enrolled, e, c.memberId);
    }
  }

  lemma PublishTraces(s: State, c: Config, now: nat, enc: Encoding)
    requires Traced(s)
    ensures Traced(Step(s, Publish(c, now), enc))
  {
    hide NextBody, Vouched, NonceUsed, MemberSeen, Newest;
  }

  lemma {:induction false} RunTraces(s: State, actions: seq<Action>, enc: Encoding)
    requires Traced(s)
    ensures Traced(Run(s, actions, enc))
    decreases |actions|
  {
    hide Traced, Step;
    if actions != [] {
      match actions[0] {
        case Bind(c, policy, validUntil, now) => BindTraces(s, c, policy, validUntil, now, enc);
        case Publish(c, now) => PublishTraces(s, c, now, enc);
      }
      RunTraces(Step(s, actions[0], enc), actions[1..], enc);
    }
  }

  lemma EveryRunIsTraced(actions: seq<Action>, enc: Encoding)
    ensures Traced(Run(START, actions, enc)) && StateOk(Run(START, actions, enc))
  {
    hide Run, StateOk;
    RunTraces(START, actions, enc);
    EveryRunIsOk(actions, enc);
  }

  /* ----- who is bound ----- */

  /** The challenge is well formed, runs now, and its qualification outlives it. */
  predicate Runs(floor: nat, c: Challenge, validUntil: nat, now: nat) {
    && Positive(c.issuedAt) && Positive(c.expiresAt) && 0 < c.commitment && Positive(validUntil) && Positive(now)
    && floor <= now && c.issuedAt <= now < c.expiresAt <= validUntil
  }

  /** No unexpired binding used the nonce, and no binding contradicts the pair. */
  ghost predicate Consistent(enrolled: seq<Enrolled>, c: Challenge, now: nat) {
    forall i | 0 <= i < |enrolled| ::
      var prior := enrolled[i].challenge;
      && (prior.nonce == c.nonce ==> prior.expiresAt <= now)
      && (prior.memberId == c.memberId <==> prior.commitment == c.commitment)
  }

  lemma ConsistentIsChecked(s: State, c: Challenge, now: nat)
    requires Traced(s) && s.db.floor <= now
    ensures Consistent(s.enrolled, c, now) <==>
      && !(c.nonce in s.db.replays && now < s.db.replays[c.nonce])
      && (c.memberId in s.db.bindings ==> s.db.bindings[c.memberId] == c.commitment)
      && Owners(s.db.bindings, c.commitment) - {c.memberId} == {}
  {
    hide Vouched;
    forall i | 0 <= i < |s.enrolled|
      ensures Kept(s.db, s.enrolled[i])
    {
    }
    if c.nonce in s.db.replays && now < s.db.replays[c.nonce] {
      assert NonceUsed(s.enrolled, c.nonce, s.db.replays[c.nonce]);
    }
    if c.memberId in s.db.bindings {
      assert MemberSeen(s.enrolled, c.memberId);
    }
    var others := Owners(s.db.bindings, c.commitment) - {c.memberId};
    if others != {} {
      var m :| m in others;
      assert MemberSeen(s.enrolled, m);
    }
    forall i | 0 <= i < |s.enrolled| && s.enrolled[i].challenge.commitment == c.commitment && s.enrolled[i].challenge.memberId != c.memberId
      ensures others != {}
    {
      assert s.enrolled[i].challenge.memberId in others;
    }
  }

  /** In every run a challenge binds if and only if it runs now and contradicts no earlier binding. */
  lemma BindExactly(actions: seq<Action>, c: Challenge, policy: nat, validUntil: nat, now: nat, enc: Encoding)
    ensures var s := Run(START, actions, enc);
      var bound := Bound(s.db, c, policy, validUntil, now);
      bound.Ok? && bound.value.1 <==> Runs(s.db.floor, c, validUntil, now) && Consistent(s.enrolled, c, now)
  {
    hide Run, StateOk, Traced, Consistent, Owners;
    EveryRunIsTraced(actions, enc);
    var s := Run(START, actions, enc);
    if s.db.floor <= now {
      ConsistentIsChecked(s, c, now);
    }
  }

  /* ----- who is listed ----- */

  /** The commitment was bound under the policy, valid at least until then. */
  ghost predicate Eligible(enrolled: seq<Enrolled>, policy: nat, until: nat, x: Commitment) {
    exists i :: 0 <= i < |enrolled| && enrolled[i].challenge.commitment == x && enrolled[i].policy == policy && until <= enrolled[i].validUntil
  }

  lemma QualifiedIsEligible(s: State, policy: nat, until: nat, x: Commitment)
    requires Traced(s) && s.db.floor < until
    ensures x in Qualified(s.db, policy, until) <==> Eligible(s.enrolled, policy, until, x)
  {
    hide NonceUsed, MemberSeen;
    if x in Qualified(s.db, policy, until) {
      var m :| m in s.db.bindings && (m, policy) in s.db.qualifications && until <= s.db.qualifications[(m, policy)] && s.db.bindings[m] == x;
      assert Vouched(s.enrolled, m, policy, s.db.qualifications[(m, policy)]);
    }
    if Eligible(s.enrolled, policy, until, x) {
      var i :| 0 <= i < |s.enrolled| && s.enrolled[i].challenge.commitment == x && s.enrolled[i].policy == policy && until <= s.enrolled[i].validUntil;
      assert Kept(s.db, s.enrolled[i]);
    }
  }

  /** The end of the epoch of `now`. */
  function EpochEnd(seconds: nat, now: nat): nat
    requires 0 < seconds
  {
    (now / seconds + 1) * seconds
  }

  /** Every roster newly published in any run is strictly rising and lists a commitment if and only
      if it was bound under the policy with a qualification that lasts through the epoch, whatever
      qualifications have been deleted since. */
  lemma RosterIsExact(actions: seq<Action>, c: Config, now: nat, enc: Encoding)
    requires c.Valid() && Run(START, actions, enc).chain != Step(Run(START, actions, enc), Publish(c, now), enc).chain
    ensures var s, t := Run(START, actions, enc), Step(Run(START, actions, enc), Publish(c, now), enc);
      && |t.chain| == |s.chain| + 1 && t.chain[..|s.chain|] == s.chain
      && var b := t.chain[|s.chain|];
         && b.policy == c.policy && b.notBefore == now && b.epoch == now / c.epochSeconds && b.expiresAt == EpochEnd(c.epochSeconds, now)
         && Rising(b.commitments)
         && forall x :: x in b.commitments <==> Eligible(s.enrolled, c.policy, b.expiresAt, x)
  {
    hide Run, StateOk, Traced, InOrder, Newest, Eligible, Qualified;
    EveryRunIsTraced(actions, enc);
    var s := Run(START, actions, enc);
    DivisionBounds(now, c.epochSeconds);
    var b := NextBody(s.db, c, now);
    InOrderIsOrder(Qualified(s.db, c.policy, b.expiresAt));
    forall x
      ensures x in b.commitments <==> Eligible(s.enrolled, c.policy, b.expiresAt, x)
    {
      QualifiedIsEligible(s, c.policy, b.expiresAt, x);
    }
  }

  /* ----- when a checkpoint is published ----- */

  /** The clock and the epoch move on, under the issuer and the epoch length of the chain. */
  predicate MovesOn(chain: seq<Body>, floor: nat, c: Config, now: nat)
    requires c.Valid()
  {
    && Positive(now) && floor <= now && Positive(now / c.epochSeconds) && Positive(EpochEnd(c.epochSeconds, now))
    && (chain != [] ==>
          var last := chain[|chain| - 1];
          last.issuer == c.issuer && last.epochSeconds == c.epochSeconds && last.epoch < now / c.epochSeconds)
  }

  /** In every run a call publishes a new checkpoint if and only if clock and epoch move on, the
      eligible commitments are within capacity, and the encodings fit. */
  lemma PublishExactly(actions: seq<Action>, c: Config, now: nat, enc: Encoding, roster: set<Commitment>)
    requires c.Valid()
    requires forall x :: x in roster <==> Eligible(Run(START, actions, enc).enrolled, c.policy, EpochEnd(c.epochSeconds, now), x)
    ensures var s, t := Run(START, actions, enc), Step(Run(START, actions, enc), Publish(c, now), enc);
      var previous := if s.chain == [] then None else Some(s.chain[|s.chain| - 1]);
      t.chain != s.chain <==>
        && MovesOn(s.chain, s.db.floor, c, now) && |roster| <= CAPACITY
        && enc.Fits(Body(c.issuer, c.policy, c.epochSeconds, now / c.epochSeconds, now, EpochEnd(c.epochSeconds, now),
                         c.minAnonymity, c.depth, previous, InOrder(roster)))
  {
    hide Run, StateOk, Traced, InOrder, Newest, Eligible, Qualified;
    EveryRunIsTraced(actions, enc);
    OneGrowingChain(actions, [], c, now, enc);
    var s := Run(START, actions, enc);
    DivisionBounds(now, c.epochSeconds);
    HeadTells(s);
    InOrderIsOrder(roster);
    if s.db.floor <= now {
      forall x
        ensures x in roster <==> x in Qualified(s.db, c.policy, EpochEnd(c.epochSeconds, now))
      {
        QualifiedIsEligible(s, c.policy, EpochEnd(c.epochSeconds, now), x);
      }
      assert roster == Qualified(s.db, c.policy, EpochEnd(c.epochSeconds, now));
    }
  }

  lemma HeadTells(s: State)
    requires StateOk(s)
    ensures if s.chain == [] then s.db.head.None? else s.db.head == Some(Signed(s.chain[|s.chain| - 1]))
  {
    hide ReplaysOk, BindingsOk, ChainOk, LinksOk;
  }

  /* ----- what a client can be made to accept ----- */

  /** Nobody but the publisher produces its checkpoint signatures. */
  ghost predicate Authentic(c: Checkpoint, chain: seq<Body>) {
    chain != [] && c.signature == OfCheckpoint(chain[0].issuer, c.body) ==> exists j :: 0 <= j < |chain| && c.body == chain[j]
  }

  /** A client that trusts the issuer accepts a checkpoint only if it is a published one, current, under
      the policy asked for, and not before the client's anchor; with no anchor it accepts exactly those
      presented without links. */
  lemma OnlyTheChainIsAccepted(chain: seq<Body>, c: Checkpoint, policy: nat, now: nat, i: nat, links: seq<Link>)
    requires ChainOk(chain) && i < |chain| && Authentic(c, chain)
    requires Accepts(c, chain[0].issuer, policy, now, Some(AnchorAt(chain, i)), links)
    ensures exists j :: i <= j < |chain| && c == Signed(chain[j]) && chain[j].policy == policy && chain[j].notBefore <= now < chain[j].expiresAt
  {
    hide WellFormed, Follow, Formed, Joined;
    var j :| 0 <= j < |chain| && c.body == chain[j];
    assert chain[j].issuer == chain[0].issuer;
  }

  lemma FirstAcceptance(c: Checkpoint, key: nat, policy: nat, now: nat, links: seq<Link>)
    ensures Accepts(c, key, policy, now, None, links) <==>
      && links == [] && c == Signed(c.body) && c.body.issuer == key && c.body.policy == policy
      && WellFormed(c.body) && Positive(now) && c.body.notBefore <= now < c.body.expiresAt
  {
    hide WellFormed;
  }
}
