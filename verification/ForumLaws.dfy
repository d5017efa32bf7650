/** Counting invariants over every run of the introduction economy. */
module ForumLaws {
  import Basics
  import opened Tallies
  import opened Forum

  /* ----- events, runs and the log of exchanges ----- */

  /** One counted event: +1 for sent, -1 for received; a first reply counts for both sides. */
  datatype Exchange = Exchange(member: Id, epoch: nat, delta: int, reply: bool)

  datatype Action =
    | Connect(id: Id, now: nat)
    | Disconnect(id: Id)
    | Roster(now: nat)
    | Choose(id: Id, choice: Choice)
    | Call(deed: Deed, a: Id, b: Id, now: nat)
    | Vote(id: Id, direction: int, now: nat)
    | AdvanceEpoch

  /** Eligibility is whatever the oracle says during that call. */
  datatype Event = Event(action: Action, eligible: Id -> bool)

  /** `log` is a history variable. */
  datatype World = World(forum: Forum, log: seq<Exchange>)

  function Exchanges(outcome: Outcome, a: Id, b: Id, epoch: nat): seq<Exchange> {
    match outcome
    case Delivered => [Exchange(a, epoch, 1, false)]
    case NowAccepted => [Exchange(a, epoch, -1, false)]
    case NowReplied => [Exchange(a, epoch, 1, true), Exchange(b, epoch, -1, true)]
    case _ => []
  }

  ghost function Step(w: World, e: Event): World
    requires Known(w.forum)
  {
    var f := w.forum;
    match e.action
    case Connect(id, now) => w.(forum := Joined(f, e.eligible, id, now).0)
    case Disconnect(id) => w.(forum := f.(presence := f.presence - {id}))
    case Roster(now) => if now < f.now then w else w.(forum := Ticked(f, e.eligible, now))
    case Choose(id, choice) => if id in f.members then w.(forum := f.(members := f.members[id := Chosen(f.members[id], choice)])) else w
    case Call(deed, a, b, now) =>
      var (after, outcome) := Called(f, e.eligible, deed, a, b, now);
      World(after, w.log + Exchanges(outcome, a, b, f.epoch))
    case Vote(id, direction, now) => w.(forum := Balloted(f, e.eligible, id, direction, now).0)
    case AdvanceEpoch => w.(forum := Advanced(f))
  }

  /* ----- tallies ----- */

  lemma SizeWithout<T>(s: set<T>, x: T)
    ensures |s| == |s - {x}| + (if x in s then 1 else 0)
  {
    if x in s {
      assert s == (s - {x}) + {x};
    } else {
      assert s == s - {x};
    }
  }

  lemma ElsewhereUnchanged(contacts: map<PairKey, Contact>, key: PairKey, c: Contact, q: Query)
    ensures Those(contacts[key := c], q) - {key} == Those(contacts, q) - {key}
    ensures key in Those(contacts[key := c], q) <==> q.Holds(c)
    ensures key in Those(contacts, q) <==> key in contacts && q.Holds(contacts[key])
  {
    hide Query.Holds;
  }

  lemma TallyUpdate(contacts: map<PairKey, Contact>, key: PairKey, c: Contact, q: Query)
    ensures Tally(contacts[key := c], q) ==
      Tally(contacts, q) - (if key in contacts && q.Holds(contacts[key]) then 1 else 0) + (if q.Holds(c) then 1 else 0)
  {
    hide Query.Holds, Those;
    ElsewhereUnchanged(contacts, key, c, q);
    SizeWithout(Those(contacts, q), key);
    SizeWithout(Those(contacts[key := c], q), key);
  }

  lemma AgingTallies(f: Forum, eligible: Id -> bool, now: nat, q: Query)
    ensures q.PendingTo? || Tally(Ticked(f, eligible, now).contacts, q) == Tally(f.contacts, q)
    ensures Tally(Ticked(f, eligible, now).contacts, q) <= Tally(f.contacts, q)
  {
    var before, after := Those(f.contacts, q), Those(Ticked(f, eligible, now).contacts, q);
    assert after <= before;
    if q.PendingTo? {
      Basics.SubsetSize(after, before);
    } else {
      assert after == before;
    }
  }

  lemma NoTally(f: Forum, id: Id, q: Query)
    requires ContactsOk(f) && id !in f.members
    requires q in {OpenedBy(id), RepliedTo(id), TakenBy(id), RepliedFrom(id), UnrepliedFrom(id), AcceptedTo(id), PendingTo(id)}
    ensures Tally(f.contacts, q) == 0
  {
    assert Those(f.contacts, q) == {};
  }

  /* ----- what holds of every member ----- */

  /** Every contact is stored under its pair, between two different registered members. */
  ghost predicate ContactsOk(f: Forum) {
    forall k | k in f.contacts ::
      var c := f.contacts[k];
      k == Pair(c.from, c.to) && c.from != c.to && c.from in f.members && c.to in f.members
  }

  /** Members with whom `id` shares a replied contact. */
  ghost function Partners(f: Forum, id: Id): set<Id> {
    set j | j in f.members && j != id && Pair(id, j) in f.contacts && f.contacts[Pair(id, j)].status == Replied
  }

  ghost predicate Funded(f: Forum, id: Id)
    requires id in f.members
  {
    var m := f.members[id];
    && m.tokens <= f.policy.tokenCap
    && m.approaches + m.tokens <= m.grantTotal <= f.policy.initialTokens + f.epoch * f.policy.maxEpochGrant
  }

  ghost predicate Balanced(f: Forum, id: Id)
    requires id in f.members
  {
    f.members[id].sent - f.members[id].received == Tally(f.contacts, UnrepliedFrom(id)) - Tally(f.contacts, AcceptedTo(id))
  }

  /** Every count is a number of contacts. */
  ghost predicate Exact(f: Forum, id: Id)
    requires id in f.members
  {
    var m := f.members[id];
    && m.approaches == Tally(f.contacts, OpenedBy(id))
    && m.sent == Tally(f.contacts, OpenedBy(id)) + Tally(f.contacts, RepliedTo(id))
    && m.received == Tally(f.contacts, TakenBy(id)) + Tally(f.contacts, RepliedFrom(id))
  }

  ghost predicate Earned(f: Forum, id: Id)
    requires id in f.members
  {
    f.members[id].activeEpochs + (if f.members[id].activity then 1 else 0) <= |Partners(f, id)|
  }

  ghost predicate Queued(f: Forum, id: Id)
    requires id in f.members
  {
    && Tally(f.contacts, PendingTo(id)) <= f.policy.pendingCap
    && f.members[id].maxPending <= f.policy.pendingCap
  }

  ghost predicate MemberOk(f: Forum, id: Id)
    requires id in f.members
  {
    Funded(f, id) && Exact(f, id) && Balanced(f, id) && Earned(f, id) && Queued(f, id)
  }

  ghost predicate Sane(f: Forum) {
    f.policy.Valid() && Known(f) && ContactsOk(f)
  }

  ghost predicate ForumOk(f: Forum) {
    Sane(f) && forall id | id in f.members :: MemberOk(f, id)
  }

  /* ----- the clock and registration ----- */

  lemma TickedFacts(f: Forum, eligible: Id -> bool, now: nat)
    ensures var t := Ticked(f, eligible, now);
      && t.policy == f.policy && t.members == f.members && t.votes == f.votes && t.epoch == f.epoch && t.now == now
      && t.presence.Keys <= f.presence.Keys && t.contacts.Keys == f.contacts.Keys
      && (forall id :: Partners(t, id) == Partners(f, id))
      && (ContactsOk(f) ==> ContactsOk(t))
  {
  }

  lemma TickKeepsMember(f: Forum, eligible: Id -> bool, now: nat, id: Id)
    requires id in f.members && MemberOk(f, id)
    ensures MemberOk(Ticked(f, eligible, now), id)
  {
    hide Tally, Ticked, Partners;
    TickedFacts(f, eligible, now);
    AgingTallies(f, eligible, now, OpenedBy(id));
    AgingTallies(f, eligible, now, RepliedTo(id));
    AgingTallies(f, eligible, now, TakenBy(id));
    AgingTallies(f, eligible, now, RepliedFrom(id));
    AgingTallies(f, eligible, now, UnrepliedFrom(id));
    AgingTallies(f, eligible, now, AcceptedTo(id));
    AgingTallies(f, eligible, now, PendingTo(id));
  }

  lemma TickKeepsForum(f: Forum, eligible: Id -> bool, now: nat)
    requires ForumOk(f)
    ensures ForumOk(Ticked(f, eligible, now))
  {
    hide MemberOk, Ticked, Partners, ContactsOk;
    TickedFacts(f, eligible, now);
    forall id | id in f.members
      ensures MemberOk(Ticked(f, eligible, now), id)
    {
      TickKeepsMember(f, eligible, now, id);
    }
  }

  lemma NewcomerIsOk(t: Forum, j: Forum, id: Id)
    requires ContactsOk(t) && id !in t.members && t.policy.Valid()
    requires j.members == t.members[id := NewMember(t.policy)] && j.contacts == t.contacts && j.policy == t.policy && j.epoch == t.epoch
    ensures MemberOk(j, id)
  {
    hide Tally, ContactsOk, Partners;
    NoTally(t, id, OpenedBy(id));
    NoTally(t, id, RepliedTo(id));
    NoTally(t, id, TakenBy(id));
    NoTally(t, id, RepliedFrom(id));
    NoTally(t, id, UnrepliedFrom(id));
    NoTally(t, id, AcceptedTo(id));
    NoTally(t, id, PendingTo(id));
  }

  lemma NewcomerKeepsMember(t: Forum, j: Forum, id: Id, x: Id)
    requires ContactsOk(t) && id !in t.members && x in t.members && MemberOk(t, x)
    requires j.members == t.members[id := NewMember(t.policy)] && j.contacts == t.contacts && j.policy == t.policy && j.epoch == t.epoch
    ensures MemberOk(j, x)
  {
    hide Tally;
    StrangersHaveNoContacts(t, id, x);
    assert Partners(j, x) == Partners(t, x);
  }

  lemma StrangersHaveNoContacts(f: Forum, stranger: Id, x: Id)
    requires ContactsOk(f) && stranger !in f.members
    ensures Pair(x, stranger) !in f.contacts
  {
  }

  lemma JoinKeepsForum(f: Forum, eligible: Id -> bool, id: Id, now: nat)
    requires ForumOk(f)
    ensures ForumOk(Joined(f, eligible, id, now).0)
  {
    hide MemberOk, Ticked, NewMember, Partners;
    if f.now <= now {
      var t, j := Ticked(f, eligible, now), Joined(f, eligible, id, now).0;
      TickKeepsForum(f, eligible, now);
      TickedFacts(f, eligible, now);
      if eligible(id) {
        forall x | x in j.members
          ensures MemberOk(j, x)
        {
          if id in f.members {
            assert MemberOk(t, x);
            SameMembersSameOk(t, j, x);
          } else if x == id {
            NewcomerIsOk(t, j, id);
          } else {
            NewcomerKeepsMember(t, j, id, x);
          }
        }
      }
    }
  }

  /** Presence, the clock and votes do not enter a member's accounts. */
  lemma SameMembersSameOk(f: Forum, g: Forum, id: Id)
    requires id in f.members && MemberOk(f, id)
    requires g.members == f.members && g.contacts == f.contacts && g.policy == f.policy && g.epoch == f.epoch
    ensures MemberOk(g, id)
  {
    assert Partners(g, id) == Partners(f, id);
  }

  lemma ChoiceKeepsMember(f: Forum, g: Forum, who: Id, choice: Choice, id: Id)
    requires who in f.members && id in f.members && MemberOk(f, id)
    requires g == f.(members := f.members[who := Chosen(f.members[who], choice)])
    ensures MemberOk(g, id)
  {
    hide Tally;
    assert Partners(g, id) == Partners(f, id);
  }

  lemma ChoiceKeepsForum(f: Forum, id: Id, choice: Choice)
    requires ForumOk(f) && id in f.members
    ensures ForumOk(f.(members := f.members[id := Chosen(f.members[id], choice)]))
  {
    hide MemberOk, Chosen;
    var g := f.(members := f.members[id := Chosen(f.members[id], choice)]);
    forall x | x in g.members
      ensures MemberOk(g, x)
    {
      ChoiceKeepsMember(f, g, id, choice, x);
    }
  }

  /* ----- one contact changes ----- */

  function One(b: bool): int { if b then 1 else 0 }

  /** `after` differs from `f` in one contact, not replied before, and in member records. */
  ghost predicate Moved(f: Forum, after: Forum, key: PairKey, c: Contact) {
    && after.policy == f.policy && after.epoch == f.epoch && after.presence == f.presence
    && after.members.Keys == f.members.Keys
    && after.contacts == f.contacts[key := c]
    && key == Pair(c.from, c.to) && c.from != c.to && c.from in f.members && c.to in f.members
    && (key in f.contacts ==> f.contacts[key].status != Replied)
  }

  function Gain(contacts: map<PairKey, Contact>, key: PairKey, c: Contact, q: Query): int {
    One(q.Holds(c)) - One(key in contacts && q.Holds(contacts[key]))
  }

  lemma PartnersAfter(f: Forum, after: Forum, key: PairKey, c: Contact, id: Id)
    requires Moved(f, after, key, c)
    ensures var other := if c.from == id then c.to else c.from;
      if c.status == Replied && (c.from == id || c.to == id)
      then Partners(after, id) - {other} == Partners(f, id) && other in Partners(after, id)
      else Partners(after, id) == Partners(f, id)
  {
    forall j
      ensures Pair(id, j) == Pair(c.from, c.to) <==> (id == c.from && j == c.to) || (id == c.to && j == c.from)
    {
      PairNames(id, j, c);
    }
  }

  lemma PartnersMoved(f: Forum, after: Forum, key: PairKey, c: Contact, id: Id)
    requires Moved(f, after, key, c)
    ensures |Partners(after, id)| == |Partners(f, id)| + One(c.status == Replied && (c.from == id || c.to == id))
  {
    hide Partners, Moved;
    PartnersAfter(f, after, key, c, id);
    SizeWithout(Partners(after, id), if c.from == id then c.to else c.from);
  }

  /** A pair's key names exactly its two ends. */
  lemma PairNames(id: Id, j: Id, c: Contact)
    ensures Pair(id, j) == Pair(c.from, c.to) <==> (id == c.from && j == c.to) || (id == c.to && j == c.from)
  {
  }

  /** What a record must do so that its member's accounts still balance. */
  ghost predicate Follows(f: Forum, after: Forum, key: PairKey, c: Contact, id: Id)
    requires id in f.members && id in after.members
  {
    var m, x := f.members[id], after.members[id];
    && x.tokens <= m.tokens && x.approaches + x.tokens == m.approaches + m.tokens && x.grantTotal == m.grantTotal
    && x.approaches - m.approaches == Gain(f.contacts, key, c, OpenedBy(id))
    && x.sent - m.sent == Gain(f.contacts, key, c, OpenedBy(id)) + Gain(f.contacts, key, c, RepliedTo(id))
    && x.received - m.received == Gain(f.contacts, key, c, TakenBy(id)) + Gain(f.contacts, key, c, RepliedFrom(id))
    && (x.sent - x.received) - (m.sent - m.received) == Gain(f.contacts, key, c, UnrepliedFrom(id)) - Gain(f.contacts, key, c, AcceptedTo(id))
    && x.activeEpochs == m.activeEpochs
    && (x.activity && !m.activity ==> c.status == Replied && (c.from == id || c.to == id))
    && (x.maxPending == m.maxPending || x.maxPending <= f.policy.pendingCap)
    && Tally(f.contacts, PendingTo(id)) + Gain(f.contacts, key, c, PendingTo(id)) <= f.policy.pendingCap
  }

  lemma MemberCarried(f: Forum, after: Forum, key: PairKey, c: Contact, id: Id)
    requires Moved(f, after, key, c) && id in f.members && MemberOk(f, id) && Follows(f, after, key, c, id)
    ensures MemberOk(after, id)
  {
    hide Tally, Partners;
    TallyUpdate(f.contacts, key, c, OpenedBy(id));
    TallyUpdate(f.contacts, key, c, RepliedTo(id));
    TallyUpdate(f.contacts, key, c, TakenBy(id));
    TallyUpdate(f.contacts, key, c, RepliedFrom(id));
    TallyUpdate(f.contacts, key, c, UnrepliedFrom(id));
    TallyUpdate(f.contacts, key, c, AcceptedTo(id));
    TallyUpdate(f.contacts, key, c, PendingTo(id));
    PartnersMoved(f, after, key, c, id);
  }

  lemma ForumCarried(f: Forum, after: Forum, key: PairKey, c: Contact)
    requires ForumOk(f) && Moved(f, after, key, c)
    requires forall id | id in f.members :: Follows(f, after, key, c, id)
    ensures ForumOk(after)
  {
    hide MemberOk, Follows;
    forall id | id in after.members
      ensures MemberOk(after, id)
    {
      assert Follows(f, after, key, c, id);
      MemberCarried(f, after, key, c, id);
    }
  }

  lemma QueueRoom(f: Forum, id: Id)
    requires ForumOk(f) && id in f.members
    ensures Tally(f.contacts, PendingTo(id)) <= f.policy.pendingCap
  {
    assert MemberOk(f, id);
  }

  lemma IntroductionKeepsForum(f: Forum, from: Id, to: Id)
    requires ForumOk(f) && from in f.members && to in f.members && from != to
    ensures ForumOk(Introduced(f, from, to).0)
  {
    hide Tally, Imbalance, ForumOk, Follows, Charged;
    var (after, outcome) := Introduced(f, from, to);
    if outcome == Delivered {
      var key, c := Pair(from, to), Contact(from, to, f.now + f.policy.requestTtl, Pending);
      forall id | id in f.members
        ensures Follows(f, after, key, c, id)
      {
        QueueRoom(f, id);
        OpenerFollows(f, from, to, id);
      }
      ForumCarried(f, after, key, c);
    }
  }

  lemma OpenerFollows(f: Forum, from: Id, to: Id, id: Id)
    requires from in f.members && to in f.members && from != to && id in f.members
    requires Tally(f.contacts, PendingTo(id)) <= f.policy.pendingCap
    requires Introduced(f, from, to).1 == Delivered
    ensures Follows(f, Introduced(f, from, to).0, Pair(from, to), Contact(from, to, f.now + f.policy.requestTtl, Pending), id)
  {
    hide Tally, Imbalance;
  }

  lemma AcceptanceKeepsForum(f: Forum, recipient: Id, sender: Id)
    requires ForumOk(f) && recipient in f.members && sender in f.members && recipient != sender
    ensures ForumOk(AcceptedBy(f, recipient, sender).0)
  {
    hide Tally, Imbalance, ForumOk, Follows, Counted;
    var (after, outcome) := AcceptedBy(f, recipient, sender);
    if outcome == NowAccepted {
      var key := Pair(recipient, sender);
      var c := f.contacts[key].(status := Accepted);
      forall id | id in f.members
        ensures Follows(f, after, key, c, id)
      {
        QueueRoom(f, id);
        AcceptanceFollows(f, recipient, sender, id);
      }
      ForumCarried(f, after, key, c);
    }
  }

  lemma AcceptanceFollows(f: Forum, recipient: Id, sender: Id, id: Id)
    requires recipient in f.members && sender in f.members && recipient != sender && id in f.members
    requires Tally(f.contacts, PendingTo(id)) <= f.policy.pendingCap
    requires AcceptedBy(f, recipient, sender).1 == NowAccepted
    ensures Follows(f, AcceptedBy(f, recipient, sender).0, Pair(recipient, sender), f.contacts[Pair(recipient, sender)].(status := Accepted), id)
  {
    hide Tally, Imbalance;
  }

  lemma ReplyKeepsForum(f: Forum, recipient: Id, sender: Id)
    requires ForumOk(f) && recipient in f.members && sender in f.members && recipient != sender
    ensures ForumOk(RepliedBy(f, recipient, sender).0)
  {
    hide Tally, ForumOk, Follows, Counted;
    var (after, outcome) := RepliedBy(f, recipient, sender);
    if outcome == NowReplied {
      var key := Pair(recipient, sender);
      var c := f.contacts[key].(status := Replied);
      forall id | id in f.members
        ensures Follows(f, after, key, c, id)
      {
        QueueRoom(f, id);
        ReplyFollows(f, recipient, sender, id);
      }
      ForumCarried(f, after, key, c);
    }
  }

  lemma ReplyFollows(f: Forum, recipient: Id, sender: Id, id: Id)
    requires recipient in f.members && sender in f.members && recipient != sender && id in f.members
    requires Tally(f.contacts, PendingTo(id)) <= f.policy.pendingCap
    requires RepliedBy(f, recipient, sender).1 == NowReplied
    ensures Follows(f, RepliedBy(f, recipient, sender).0, Pair(recipient, sender), f.contacts[Pair(recipient, sender)].(status := Replied), id)
  {
    hide Tally;
  }

  lemma DeclineKeepsForum(f: Forum, recipient: Id, sender: Id)
    requires ForumOk(f) && recipient in f.members && sender in f.members && recipient != sender
    ensures ForumOk(DeclinedBy(f, recipient, sender).0)
  {
    hide Tally, ForumOk, Follows;
    var (after, outcome) := DeclinedBy(f, recipient, sender);
    if outcome == NowDeclined {
      var key := Pair(recipient, sender);
      var c := f.contacts[key].(status := Declined);
      forall id | id in f.members
        ensures Follows(f, after, key, c, id)
      {
        QueueRoom(f, id);
        DeclineFollows(f, recipient, sender, id);
      }
      ForumCarried(f, after, key, c);
    }
  }

  lemma DeclineFollows(f: Forum, recipient: Id, sender: Id, id: Id)
    requires recipient in f.members && sender in f.members && recipient != sender && id in f.members
    requires Tally(f.contacts, PendingTo(id)) <= f.policy.pendingCap
    requires DeclinedBy(f, recipient, sender).1 == NowDeclined
    ensures Follows(f, DeclinedBy(f, recipient, sender).0, Pair(recipient, sender), f.contacts[Pair(recipient, sender)].(status := Declined), id)
  {
    hide Tally;
  }

  /* ----- epochs ----- */

  lemma AdvanceKeepsForum(f: Forum)
    requires ForumOk(f)
    ensures ForumOk(Advanced(f))
  {
    hide MemberOk, Voted, Matured;
    VotedFacts(f.policy, f.votes);
    var after := Advanced(f);
    forall id | id in after.members
      ensures MemberOk(after, id)
    {
      assert MemberOk(f, id);
      AdvanceKeepsMember(f, id);
    }
  }

  lemma AdvanceKeepsMember(f: Forum, id: Id)
    requires f.policy.Valid() && id in f.members && MemberOk(f, id)
    ensures MemberOk(Advanced(f), id)
  {
    hide Tally, Voted, Matured;
    var after := Advanced(f);
    VotedFacts(f.policy, f.votes);
    MaturedFacts(f.members[id], after.policy, after.epoch);
    assert Partners(after, id) == Partners(f, id);
    assert after.epoch * f.policy.maxEpochGrant == f.epoch * f.policy.maxEpochGrant + f.policy.maxEpochGrant;
  }

  /** Voting moves only the grant, by at most one, and keeps it within its bounds. */
  lemma VotedFacts(p: Policy, votes: map<Id, int>)
    requires p.Valid()
    ensures var q := Voted(p, votes);
      && q.Valid() && q == p.(epochGrant := q.epochGrant)
      && p.epochGrant - 1 <= q.epochGrant <= p.epochGrant + 1
      && (p.voting && Total(votes) > 0 && p.epochGrant < p.maxEpochGrant ==> q.epochGrant == p.epochGrant + 1)
      && (p.voting && Total(votes) < 0 && 0 < p.epochGrant ==> q.epochGrant == p.epochGrant - 1)
      && (!p.voting || Total(votes) == 0 ==> q == p)
  {
  }

  lemma MaturedFacts(m: Member, p: Policy, epoch: nat)
    ensures var x := Matured(m, p, epoch);
      && x.sent == m.sent && x.received == m.received && x.approaches == m.approaches && x.maxPending == m.maxPending
      && x.activeEpochs + (if x.activity then 1 else 0) == m.activeEpochs + (if m.activity then 1 else 0)
      && m.grantTotal <= x.grantTotal <= m.grantTotal + p.maxEpochGrant
      && x.tokens - m.tokens <= x.grantTotal - m.grantTotal
      && x.tokens <= p.tokenCap
  {
  }

  lemma CallKeepsForum(f: Forum, eligible: Id -> bool, deed: Deed, a: Id, b: Id, now: nat)
    requires ForumOk(f)
    ensures ForumOk(Called(f, eligible, deed, a, b, now).0)
  {
    hide ForumOk, Ticked, Introduced, AcceptedBy, RepliedBy, DeclinedBy;
    ForumIsKnown(f);
    if f.now <= now {
      var t := Ticked(f, eligible, now);
      TickKeepsForum(f, eligible, now);
      ForumIsKnown(t);
      if Gate(t, eligible, a, b) == Done {
        TickedFacts(f, eligible, now);
        match deed
        case Introduce => IntroductionKeepsForum(t, a, b);
        case Accept => AcceptanceKeepsForum(t, a, b);
        case Reply => ReplyKeepsForum(t, a, b);
        case Decline => DeclineKeepsForum(t, a, b);
      }
    }
  }

  lemma ForumIsKnown(f: Forum)
    requires ForumOk(f)
    ensures Known(f)
  {
  }
}
