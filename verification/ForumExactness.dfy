/** Exactly which introductions, acceptances, replies and declines succeed, in any run. */
module ForumExactness {
  import Basics
  import opened Tallies
  import opened Forum
  import opened ForumLaws
  import opened ForumTheorems
  import ForumActivity

  /* ----- what a caller and an onlooker can see ----- */

  /** A member's net of counted events over the horizon, by the log. */
  function Recent(w: World, p: Policy, id: Id): int {
    Net(w.log, id, if p.imbalanceEpochs == 0 then 0 else Basics.Max(0, w.forum.epoch - p.imbalanceEpochs + 1), w.forum.epoch)
  }

  /** Two different eligible members, both still present, neither blocking the other. */
  predicate Meet(f: Forum, eligible: Id -> bool, a: Id, b: Id, now: nat)
    requires Known(f)
  {
    && f.now <= now && a != b && eligible(a) && eligible(b)
    && a in f.presence && now < f.presence[a] && b in f.presence && now < f.presence[b]
    && b !in f.members[a].blocks && a !in f.members[b].blocks
  }

  /** `from` has asked `to` for a contact, which has come to stand at `status` by `now`. */
  predicate Asked(f: Forum, from: Id, to: Id, now: nat, status: Status) {
    Pair(from, to) in f.contacts &&
      var c := f.contacts[Pair(from, to)];
      c.from == from && c.to == to && c.status == status && (status == Pending ==> now < c.deadline)
  }

  /** The requests that still wait in an inbox. */
  function Inbox(f: Forum, to: Id, now: nat): set<PairKey> {
    set k | k in f.contacts && f.contacts[k].to == to && f.contacts[k].status == Pending && now < f.contacts[k].deadline
  }

  /** Everything but the sender's balance and tokens lets the introduction through. */
  predicate Approachable(f: Forum, eligible: Id -> bool, from: Id, to: Id, now: nat)
    requires Known(f)
  {
    && Meet(f, eligible, from, to, now) && Pair(from, to) !in f.contacts
    && f.members[to].open && |Inbox(f, to, now)| < f.policy.pendingCap
  }

  /* ----- the clock's part ----- */

  lemma PairIsSymmetric(a: Id, b: Id)
    ensures Pair(a, b) == Pair(b, a)
  {
  }

  lemma MeetsAfterTick(f: Forum, eligible: Id -> bool, a: Id, b: Id, now: nat)
    requires Known(f)
    ensures Meet(f, eligible, a, b, now) <==> f.now <= now && Gate(Ticked(f, eligible, now), eligible, a, b) == Done
  {
  }

  lemma AskedAfterTick(f: Forum, eligible: Id -> bool, from: Id, to: Id, now: nat)
    ensures var t := Ticked(f, eligible, now);
      && (Requested(t, to, from) && t.contacts[Pair(to, from)].status == Pending <==> Asked(f, from, to, now, Pending))
      && (Requested(t, to, from) && t.contacts[Pair(to, from)].status == Accepted <==> Asked(f, from, to, now, Accepted))
      && Pair(from, to) == Pair(to, from)
  {
    PairIsSymmetric(from, to);
  }

  lemma InboxAfterTick(f: Forum, eligible: Id -> bool, to: Id, now: nat)
    ensures Tally(Ticked(f, eligible, now).contacts, PendingTo(to)) == |Inbox(f, to, now)|
  {
    assert Those(Ticked(f, eligible, now).contacts, PendingTo(to)) == Inbox(f, to, now);
  }

  lemma ImbalanceIsRecent(policy: Policy, events: seq<Event>, id: Id)
    requires policy.Valid() && id in Reached(policy, events).forum.members
    ensures var w := Reached(policy, events);
      Imbalance(w.forum.members[id], w.forum.policy) == Recent(w, policy, id) && w.forum.policy.maxImbalance == policy.maxImbalance
  {
    hide Reached, Tally, Imbalance, Net, WorldOk;
    ReachedIsOk(policy, events);
    ImbalanceIsExplained(policy, events, id);
  }

  /** What a call does once the gate is passed, on the forum at the time of the call. */
  lemma CallDecides(f: Forum, eligible: Id -> bool, deed: Deed, a: Id, b: Id, now: nat)
    requires Known(f)
    ensures Meet(f, eligible, a, b, now) ==>
      && a in f.members && b in f.members && Ticked(f, eligible, now).members == f.members
      && Called(f, eligible, deed, a, b, now) == Performed(Ticked(f, eligible, now), deed, a, b)
    ensures !Meet(f, eligible, a, b, now) ==>
      var outcome := Called(f, eligible, deed, a, b, now).1;
      outcome == Thrown || outcome == Ineligible || outcome == ToSelf || outcome == Offline || outcome == Blocked
  {
    hide Performed;
    MeetsAfterTick(f, eligible, a, b, now);
  }

  /* ----- introductions ----- */

  lemma IntroducedDecides(t: Forum, from: Id, to: Id)
    requires from in t.members && to in t.members && from != to
    ensures var (g, outcome) := Introduced(t, from, to);
      var near := Pair(from, to) !in t.contacts && t.members[to].open && Tally(t.contacts, PendingTo(to)) < t.policy.pendingCap;
      var level := Imbalance(t.members[from], t.policy);
      && (outcome == Delivered <==> near && level < t.policy.maxImbalance && 0 < t.members[from].tokens)
      && (outcome == OutboundImbalance <==> near && t.policy.maxImbalance <= level)
      && (outcome == NoTokens <==> near && level < t.policy.maxImbalance && t.members[from].tokens == 0)
      && (outcome == Delivered ==>
            && g.members[from].tokens == t.members[from].tokens - 1 && g.members[to].tokens == t.members[to].tokens
            && g.members.Keys == t.members.Keys
            && g.contacts == t.contacts[Pair(from, to) := Contact(from, to, t.now + t.policy.requestTtl, Pending)])
  {
    hide Tally, Imbalance;
  }

  /** An introduction is delivered if and only if the two meet for the first time, the inbox is open
      and has room, the sender's net over the horizon is below the maximum and it has a token; it
      then costs exactly one. It is refused for imbalance exactly when only the net stands against it. */
  lemma IntroduceExactly(policy: Policy, events: seq<Event>, eligible: Id -> bool, from: Id, to: Id, now: nat)
    requires policy.Valid()
    ensures Known(Reached(policy, events).forum)
    ensures var w := Reached(policy, events);
      var f := w.forum;
      var (g, outcome) := Called(f, eligible, Introduce, from, to, now);
      var near := Approachable(f, eligible, from, to, now);
      && (outcome == Delivered <==> near && Recent(w, policy, from) < policy.maxImbalance && 0 < f.members[from].tokens)
      && (outcome == OutboundImbalance <==> near && policy.maxImbalance <= Recent(w, policy, from))
      && (outcome == NoTokens <==> near && Recent(w, policy, from) < policy.maxImbalance && f.members[from].tokens == 0)
      && (outcome == Delivered ==>
            && Asked(g, from, to, now, Pending) && g.contacts.Keys == f.contacts.Keys + {Pair(from, to)}
            && g.members.Keys == f.members.Keys
            && g.members[from].tokens == f.members[from].tokens - 1 && g.members[to].tokens == f.members[to].tokens)
  {
    hide Reached, Tally, Imbalance, Ticked, Introduced, Recent, WorldOk, Inbox, Meet, Called;
    ReachedIsOk(policy, events);
    var f := Reached(policy, events).forum;
    WorldIsKnown(Reached(policy, events));
    CallDecides(f, eligible, Introduce, from, to, now);
    if Meet(f, eligible, from, to, now) {
      MeetIsTwo(f, eligible, from, to, now);
      ImbalanceIsRecent(policy, events, from);
      InboxAfterTick(f, eligible, to, now);
      TickedFacts(f, eligible, now);
      var t := Ticked(f, eligible, now);
      IntroducedDecides(t, from, to);
      PolicyIsValid(policy, events);
      assert t.now == now && t.contacts.Keys == f.contacts.Keys;
    }
  }

  lemma MeetIsTwo(f: Forum, eligible: Id -> bool, a: Id, b: Id, now: nat)
    requires Known(f) && Meet(f, eligible, a, b, now)
    ensures a != b
  {
  }

  lemma PolicyIsValid(policy: Policy, events: seq<Event>)
    requires policy.Valid()
    ensures Reached(policy, events).forum.policy.requestTtl > 0
    ensures Reached(policy, events).forum.policy.pendingCap == policy.pendingCap
  {
    hide Reached, WorldOk;
    ReachedIsOk(policy, events);
  }

  /* ----- answers ----- */

  lemma AcceptedDecides(t: Forum, recipient: Id, sender: Id)
    requires recipient in t.members
    ensures var (g, outcome) := AcceptedBy(t, recipient, sender);
      var near := Requested(t, recipient, sender) && t.contacts[Pair(recipient, sender)].status == Pending;
      var level := Imbalance(t.members[recipient], t.policy);
      && (outcome == NowAccepted <==> near && -level < t.policy.maxImbalance)
      && (outcome == InboundImbalance <==> near && t.policy.maxImbalance <= -level)
      && (outcome == NowAccepted ==>
            g.contacts == t.contacts[Pair(recipient, sender) := t.contacts[Pair(recipient, sender)].(status := Accepted)])
  {
    hide Imbalance, Counted;
  }

  /** A waiting request is accepted if and only if the two meet and the recipient received less than
      the maximum more than it sent over the horizon; for imbalance alone it is refused otherwise. */
  lemma AcceptExactly(policy: Policy, events: seq<Event>, eligible: Id -> bool, recipient: Id, sender: Id, now: nat)
    requires policy.Valid()
    ensures Known(Reached(policy, events).forum)
    ensures var w := Reached(policy, events);
      var (g, outcome) := Called(w.forum, eligible, Accept, recipient, sender, now);
      var near := Meet(w.forum, eligible, recipient, sender, now) && Asked(w.forum, sender, recipient, now, Pending);
      && (outcome == NowAccepted <==> near && -Recent(w, policy, recipient) < policy.maxImbalance)
      && (outcome == InboundImbalance <==> near && policy.maxImbalance <= -Recent(w, policy, recipient))
      && (outcome == NowAccepted ==> Asked(g, sender, recipient, now, Accepted))
  {
    hide Reached, Imbalance, Ticked, AcceptedBy, Recent, WorldOk, Meet, Called, Requested;
    ReachedIsOk(policy, events);
    var f := Reached(policy, events).forum;
    WorldIsKnown(Reached(policy, events));
    CallDecides(f, eligible, Accept, recipient, sender, now);
    if Meet(f, eligible, recipient, sender, now) {
      MeetIsTwo(f, eligible, recipient, sender, now);
      ImbalanceIsRecent(policy, events, recipient);
      AskedAfterTick(f, eligible, sender, recipient, now);
      TickedFacts(f, eligible, now);
      var t := Ticked(f, eligible, now);
      AcceptedDecides(t, recipient, sender);
      RequestedParties(t, recipient, sender);
    }
  }

  lemma RequestedParties(t: Forum, recipient: Id, sender: Id)
    ensures Requested(t, recipient, sender) ==>
      var k := Pair(recipient, sender);
      k in t.contacts && t.contacts[k].from == sender && t.contacts[k].to == recipient && k == Pair(sender, recipient)
  {
    PairIsSymmetric(sender, recipient);
  }

  lemma AnsweredDecides(t: Forum, recipient: Id, sender: Id)
    requires recipient in t.members && sender in t.members && recipient != sender
    ensures RepliedBy(t, recipient, sender).1 == NowReplied <==>
      Requested(t, recipient, sender) && t.contacts[Pair(recipient, sender)].status == Accepted
    ensures DeclinedBy(t, recipient, sender).1 == NowDeclined <==>
      Requested(t, recipient, sender) && t.contacts[Pair(recipient, sender)].status == Pending
  {
    hide Counted;
  }

  /** A reply counts if and only if the two meet and the request stands accepted; a decline, if and
      only if they meet and it still waits. */
  lemma AnswerExactly(policy: Policy, events: seq<Event>, eligible: Id -> bool, recipient: Id, sender: Id, now: nat)
    requires policy.Valid()
    ensures Known(Reached(policy, events).forum)
    ensures var f := Reached(policy, events).forum;
      var meet := Meet(f, eligible, recipient, sender, now);
      && (Called(f, eligible, Reply, recipient, sender, now).1 == NowReplied <==> meet && Asked(f, sender, recipient, now, Accepted))
      && (Called(f, eligible, Decline, recipient, sender, now).1 == NowDeclined <==> meet && Asked(f, sender, recipient, now, Pending))
  {
    hide Reached, Ticked, RepliedBy, DeclinedBy, WorldOk, Meet, Called, Requested;
    ReachedIsOk(policy, events);
    var f := Reached(policy, events).forum;
    WorldIsKnown(Reached(policy, events));
    CallDecides(f, eligible, Reply, recipient, sender, now);
    CallDecides(f, eligible, Decline, recipient, sender, now);
    if Meet(f, eligible, recipient, sender, now) {
      MeetIsTwo(f, eligible, recipient, sender, now);
      AskedAfterTick(f, eligible, sender, recipient, now);
      AnsweredDecides(Ticked(f, eligible, now), recipient, sender);
    }
  }

  /* ----- the balance just after ----- */

  lemma RecentMoves(w: World, after: World, p: Policy, id: Id, x: Exchange)
    requires after.forum.epoch == w.forum.epoch && after.log == w.log + [x] && x.member == id && x.epoch == w.forum.epoch
    ensures Recent(after, p, id) == Recent(w, p, id) + x.delta
  {
    hide Net;
    NetAppend(w.log, x, id, if p.imbalanceEpochs == 0 then 0 else Basics.Max(0, w.forum.epoch - p.imbalanceEpochs + 1), w.forum.epoch);
  }

  lemma CallKeepsEpoch(f: Forum, eligible: Id -> bool, deed: Deed, a: Id, b: Id, now: nat)
    requires Known(f)
    ensures Called(f, eligible, deed, a, b, now).0.epoch == f.epoch
  {
    hide Ticked, Performed;
    TickedFacts(f, eligible, now);
    if f.now <= now && Gate(Ticked(f, eligible, now), eligible, a, b) == Done {
      PerformedFrame(Ticked(f, eligible, now), deed, a, b);
    }
  }

  /** Just after an approach the sender's net is at most the maximum, just after an acceptance the
      recipient's is at least its negative. Each stays within the other bound too if and only if it
      was no more than one beyond it before: replies are not gated, so it may have been. */
  lemma GatesHoldOneSide(policy: Policy, events: seq<Event>, eligible: Id -> bool, a: Id, b: Id, now: nat)
    requires policy.Valid()
    ensures Known(Reached(policy, events).forum)
    ensures var w: World, max: int := Reached(policy, events), policy.maxImbalance;
      var approach, acceptance := Step(w, Event(Call(Introduce, a, b, now), eligible)), Step(w, Event(Call(Accept, a, b, now), eligible));
      && (Called(w.forum, eligible, Introduce, a, b, now).1 == Delivered ==>
            && Recent(approach, policy, a) <= max
            && (-max <= Recent(approach, policy, a) <==> -max - 1 <= Recent(w, policy, a)))
      && (Called(w.forum, eligible, Accept, a, b, now).1 == NowAccepted ==>
            && -max <= Recent(acceptance, policy, a)
            && (Recent(acceptance, policy, a) <= max <==> Recent(w, policy, a) <= max + 1))
  {
    hide Reached, Called, Recent, WorldOk, Meet, Asked, Approachable;
    IntroduceExactly(policy, events, eligible, a, b, now);
    AcceptExactly(policy, events, eligible, a, b, now);
    var w := Reached(policy, events);
    CallKeepsEpoch(w.forum, eligible, Introduce, a, b, now);
    CallKeepsEpoch(w.forum, eligible, Accept, a, b, now);
    if Called(w.forum, eligible, Introduce, a, b, now).1 == Delivered {
      RecentMoves(w, Step(w, Event(Call(Introduce, a, b, now), eligible)), policy, a, Exchange(a, w.forum.epoch, 1, false));
    }
    if Called(w.forum, eligible, Accept, a, b, now).1 == NowAccepted {
      RecentMoves(w, Step(w, Event(Call(Accept, a, b, now), eligible)), policy, a, Exchange(a, w.forum.epoch, -1, false));
    }
  }

  /* ----- joining, voting and the epoch ----- */

  /** Connecting succeeds exactly for the eligible; a newcomer starts with the initial tokens, and
      everyone who connects is present for the policy's time. */
  lemma ConnectExactly(f: Forum, eligible: Id -> bool, id: Id, now: nat)
    requires Known(f)
    ensures var (g, outcome) := Joined(f, eligible, id, now);
      && (outcome == Connected <==> f.now <= now && eligible(id))
      && (outcome == Connected ==>
            && id in g.members && id in g.presence && g.presence[id] == now + f.policy.presenceTtl
            && (id in f.members ==> g.members == f.members)
            && (id !in f.members ==>
                  && g.members.Keys == f.members.Keys + {id} && (forall o | o in f.members :: g.members[o] == f.members[o])
                  && g.members[id].tokens == g.members[id].grantTotal == f.policy.initialTokens))
  {
    hide Aged;
  }

  /** A vote counts exactly once an epoch, for a present eligible member, where voting is on. */
  lemma VoteExactly(f: Forum, eligible: Id -> bool, id: Id, direction: int, now: nat)
    ensures var (g, outcome) := Balloted(f, eligible, id, direction, now);
      && (outcome == Recorded <==>
            && f.now <= now && f.policy.voting && (direction == 1 || direction == -1)
            && eligible(id) && id in f.presence && now < f.presence[id] && id !in f.votes)
      && g.votes == if outcome == Recorded then f.votes[id := direction] else f.votes
  {
    hide Aged;
  }

  /** An epoch pays every member the policy's grant and more for each epoch in which it made or
      received a first reply, up to the ceiling; what exceeds the token cap is lost. */
  lemma EpochPays(policy: Policy, events: seq<Event>, eligible: Id -> bool, id: Id)
    requires policy.Valid() && id in Reached(policy, events).forum.members
    ensures Known(Reached(policy, events).forum)
    ensures var w, t := Reached(policy, events), Step(Reached(policy, events), Event(AdvanceEpoch, eligible));
      && id in t.forum.members && t.forum.votes == map[] && t.forum.epoch == w.forum.epoch + 1
      && var active := ForumActivity.ActiveEpochs(w.log, id, w.forum.epoch + 1);
         var grant := Basics.Min(policy.maxEpochGrant, t.forum.policy.epochGrant + active * policy.growthPerActiveEpoch);
         && t.forum.members[id].grantTotal == w.forum.members[id].grantTotal + grant
         && t.forum.members[id].tokens == Basics.Min(policy.tokenCap, w.forum.members[id].tokens + grant)
  {
    hide Reached, WorldOk, Voted, ForumActivity.Replying;
    ReachedIsOk(policy, events);
    WorldIsKnown(Reached(policy, events));
    ForumActivity.ActivityIsReplying(policy, events, id);
    var w := Reached(policy, events);
    VotedKeepsRest(w.forum.policy, w.forum.votes);
  }

  lemma VotedKeepsRest(p: Policy, votes: map<Id, int>)
    ensures Voted(p, votes) == p.(epochGrant := Voted(p, votes).epochGrant)
  {
  }
}
