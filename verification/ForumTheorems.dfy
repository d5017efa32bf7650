/** Imbalance windows against the log of exchanges, and what every run guarantees. */
module ForumTheorems {
  import Basics
  import opened Tallies
  import opened Forum
  import opened ForumLaws

  /** Net exchanges of a member over the epochs from `lo` to `hi`. */
  function Net(log: seq<Exchange>, id: Id, lo: int, hi: int): int {
    if log == [] then 0
    else
      var x := log[|log| - 1];
      Net(log[..|log| - 1], id, lo, hi) + if x.member == id && lo <= x.epoch <= hi then x.delta else 0
  }

  lemma NetAppend(log: seq<Exchange>, x: Exchange, id: Id, lo: int, hi: int)
    ensures Net(log + [x], id, lo, hi) == Net(log, id, lo, hi) + if x.member == id && lo <= x.epoch <= hi then x.delta else 0
  {
    assert (log + [x])[..|log|] == log;
  }

  lemma {:induction false} NetBeyond(log: seq<Exchange>, id: Id, lo: int, hi: int)
    requires forall x | x in log :: x.epoch <= hi
    ensures Net(log, id, lo, hi + 1) == Net(log, id, lo, hi)
    ensures Net(log, id, hi + 1, hi + 1) == 0
  {
    if log != [] {
      NetBeyond(log[..|log| - 1], id, lo, hi);
      assert log[|log| - 1] in log;
    }
  }

  lemma {:induction false} NetOfStranger(log: seq<Exchange>, id: Id, lo: int, hi: int)
    requires forall x | x in log :: x.member != id
    ensures Net(log, id, lo, hi) == 0
  {
    if log != [] {
      NetOfStranger(log[..|log| - 1], id, lo, hi);
      assert log[|log| - 1] in log;
    }
  }

  /* ----- windows ----- */

  function NetIn(windows: map<nat, Window>, e: nat): int {
    if e in windows then windows[e].Net() else 0
  }

  function Oldest(f: Forum): int {
    f.epoch - f.policy.imbalanceEpochs + 1
  }

  ghost predicate WindowsOk(w: World, id: Id)
    requires id in w.forum.members
  {
    var m := w.forum.members[id];
    && m.sent - m.received == Net(w.log, id, 0, w.forum.epoch)
    && (0 < w.forum.policy.imbalanceEpochs ==>
          && (forall e | e in m.windows :: Oldest(w.forum) <= e <= w.forum.epoch)
          && (forall e: nat | Oldest(w.forum) <= e <= w.forum.epoch :: NetIn(m.windows, e) == Net(w.log, id, e, e)))
  }

  ghost predicate LogOk(w: World) {
    forall x | x in w.log :: x.epoch <= w.forum.epoch && x.member in w.forum.members
  }

  ghost predicate WorldOk(w: World) {
    && ForumOk(w.forum)
    && LogOk(w)
    && forall id | id in w.forum.members :: WindowsOk(w, id)
  }

  /** Adding the windows up gives the net of the epochs they cover. */
  lemma {:induction false} WindowsSumToNet(nets: map<nat, int>, log: seq<Exchange>, id: Id, lo: nat, hi: int)
    requires forall e | e in nets :: lo <= e <= hi
    requires forall e: nat | lo <= e <= hi :: (if e in nets then nets[e] else 0) == Net(log, id, e, e)
    ensures Total(nets) == Net(log, id, lo, hi)
    decreases |log|
  {
    if log == [] {
      forall e | e in nets
        ensures nets[e] == 0
      {
        assert Net(log, id, e, e) == 0;
      }
      TotalOfZeros(nets);
    } else {
      var x, rest := log[|log| - 1], log[..|log| - 1];
      if x.member == id && lo <= x.epoch <= hi {
        var before := (if x.epoch in nets then nets[x.epoch] else 0) - x.delta;
        WindowsSumToNet(nets[x.epoch := before], rest, id, lo, hi);
        TotalUpdate(nets, x.epoch, before);
      } else {
        WindowsSumToNet(nets, rest, id, lo, hi);
      }
    }
  }

  /** The imbalance every gate tests: lifetime with horizon 0, else exactly the last
      `imbalanceEpochs` epochs of counted events. */
  lemma ImbalanceIsRecentNet(w: World, id: Id)
    requires WorldOk(w) && id in w.forum.members
    ensures Imbalance(w.forum.members[id], w.forum.policy) ==
      Net(w.log, id, if w.forum.policy.imbalanceEpochs == 0 then 0 else Basics.Max(0, Oldest(w.forum)), w.forum.epoch)
  {
    hide ForumOk, LogOk;
    assert WindowsOk(w, id);
    if w.forum.policy.imbalanceEpochs != 0 {
      WindowsSumToNet(Nets(w.forum.members[id].windows), w.log, id, Basics.Max(0, Oldest(w.forum)), w.forum.epoch);
    }
  }

  /** A record counts an exchange in step with the log. */
  lemma CountedInStep(w: World, after: World, id: Id, direction: Direction, reply: bool)
    requires id in w.forum.members && id in after.forum.members && WindowsOk(w, id)
    requires after.forum.epoch == w.forum.epoch && after.forum.policy == w.forum.policy
    requires after.log == w.log + [Exchange(id, w.forum.epoch, if direction == Sent then 1 else -1, reply)]
    requires var m, x := Counted(w.forum.members[id], direction, w.forum.epoch), after.forum.members[id];
      x.sent == m.sent && x.received == m.received && x.windows == m.windows
    ensures WindowsOk(after, id)
  {
    hide Net;
    var x := after.log[|w.log|];
    NetAppend(w.log, x, id, 0, w.forum.epoch);
    forall e: nat
      ensures Net(after.log, id, e, e) == Net(w.log, id, e, e) + if e == w.forum.epoch then x.delta else 0
    {
      NetAppend(w.log, x, id, e, e);
    }
  }

  lemma OthersInStep(w: World, after: World, x: Exchange, id: Id)
    requires id in w.forum.members && id in after.forum.members && WindowsOk(w, id)
    requires after.forum.epoch == w.forum.epoch && after.forum.policy == w.forum.policy
    requires after.log == w.log + [x] && x.member != id
    requires var m, y := w.forum.members[id], after.forum.members[id];
      y.sent == m.sent && y.received == m.received && y.windows == m.windows
    ensures WindowsOk(after, id)
  {
    hide Net;
    NetAppend(w.log, x, id, 0, w.forum.epoch);
    forall e: nat
      ensures Net(after.log, id, e, e) == Net(w.log, id, e, e)
    {
      NetAppend(w.log, x, id, e, e);
    }
  }

  lemma SameRecordInStep(w: World, after: World, id: Id)
    requires id in w.forum.members && id in after.forum.members && WindowsOk(w, id)
    requires after.forum.epoch == w.forum.epoch && after.forum.policy == w.forum.policy && after.log == w.log
    requires var m, y := w.forum.members[id], after.forum.members[id];
      y.sent == m.sent && y.received == m.received && y.windows == m.windows
    ensures WindowsOk(after, id)
  {
  }

  lemma IntroducedRecords(f: Forum, from: Id, to: Id)
    requires from in f.members && to in f.members && from != to
    ensures var (g, outcome) := Introduced(f, from, to);
      && g.policy == f.policy && g.epoch == f.epoch && g.members.Keys == f.members.Keys
      && (outcome != Delivered ==> g == f && outcome != NowAccepted && outcome != NowReplied)
      && (outcome == Delivered ==>
            && SameCounts(g.members[from], Counted(f.members[from], Sent, f.epoch))
            && forall id | id in f.members && id != from :: SameCounts(g.members[id], f.members[id]))
  {
    hide Tally, Imbalance;
  }

  predicate SameCounts(x: Member, y: Member) {
    x.sent == y.sent && x.received == y.received && x.windows == y.windows
  }

  lemma IntroductionInStep(w: World, from: Id, to: Id)
    requires from in w.forum.members && to in w.forum.members && from != to
    requires forall id | id in w.forum.members :: WindowsOk(w, id)
    ensures var (g, outcome) := Introduced(w.forum, from, to);
      forall id | id in g.members :: WindowsOk(World(g, w.log + Exchanges(outcome, from, to, w.forum.epoch)), id)
  {
    hide Introduced, WindowsOk, Counted;
    IntroducedRecords(w.forum, from, to);
    var (g, outcome) := Introduced(w.forum, from, to);
    var after := World(g, w.log + Exchanges(outcome, from, to, w.forum.epoch));
    forall id | id in g.members
      ensures WindowsOk(after, id)
    {
      assert WindowsOk(w, id);
      if outcome != Delivered {
        SameRecordInStep(w, after, id);
      } else if id == from {
        CountedInStep(w, after, id, Sent, false);
      } else {
        OthersInStep(w, after, Exchange(from, w.forum.epoch, 1, false), id);
      }
    }
  }

  lemma AcceptanceInStep(w: World, recipient: Id, sender: Id)
    requires recipient in w.forum.members && sender in w.forum.members && recipient != sender
    requires forall id | id in w.forum.members :: WindowsOk(w, id)
    ensures var (g, outcome) := AcceptedBy(w.forum, recipient, sender);
      && outcome != Delivered && outcome != NowReplied
      && forall id | id in g.members :: WindowsOk(World(g, w.log + Exchanges(outcome, recipient, sender, w.forum.epoch)), id)
  {
    hide WindowsOk, Counted, Imbalance;
    var (g, outcome) := AcceptedBy(w.forum, recipient, sender);
    var after := World(g, w.log + Exchanges(outcome, recipient, sender, w.forum.epoch));
    forall id | id in g.members
      ensures WindowsOk(after, id)
    {
      assert WindowsOk(w, id);
      if outcome != NowAccepted {
        SameRecordInStep(w, after, id);
      } else if id == recipient {
        CountedInStep(w, after, id, Received, false);
      } else {
        OthersInStep(w, after, Exchange(recipient, w.forum.epoch, -1, false), id);
      }
    }
  }

  /** A reply counts twice: the recipient sends, the sender receives. */
  lemma ReplyInStep(w: World, recipient: Id, sender: Id)
    requires recipient in w.forum.members && sender in w.forum.members && recipient != sender
    requires forall id | id in w.forum.members :: WindowsOk(w, id)
    ensures var (g, outcome) := RepliedBy(w.forum, recipient, sender);
      && outcome != Delivered && outcome != NowAccepted
      && forall id | id in g.members :: WindowsOk(World(g, w.log + Exchanges(outcome, recipient, sender, w.forum.epoch)), id)
  {
    hide WindowsOk, Counted;
    var (g, outcome) := RepliedBy(w.forum, recipient, sender);
    var after := World(g, w.log + Exchanges(outcome, recipient, sender, w.forum.epoch));
    var first, second := Exchange(recipient, w.forum.epoch, 1, true), Exchange(sender, w.forum.epoch, -1, true);
    var halfway := World(w.forum.(members := w.forum.members[recipient := Counted(w.forum.members[recipient], Sent, w.forum.epoch)]), w.log + [first]);
    forall id | id in g.members
      ensures WindowsOk(after, id)
    {
      assert WindowsOk(w, id);
      if outcome != NowReplied {
        SameRecordInStep(w, after, id);
      } else {
        assert after.log == halfway.log + [second];
        if id == recipient {
          CountedInStep(w, halfway, id, Sent, true);
          OthersInStep(halfway, after, second, id);
        } else {
          OthersInStep(w, halfway, first, id);
          if id == sender {
            CountedInStep(halfway, after, id, Received, true);
          } else {
            OthersInStep(halfway, after, second, id);
          }
        }
      }
    }
  }

  lemma AdvanceInStep(w: World, id: Id)
    requires LogOk(w) && id in w.forum.members && WindowsOk(w, id)
    ensures WindowsOk(World(Advanced(w.forum), w.log), id)
  {
    hide Net, Voted;
    NetBeyond(w.log, id, 0, w.forum.epoch);
    VotedKeepsHorizon(w.forum.policy, w.forum.votes);
  }

  lemma VotedKeepsHorizon(p: Policy, votes: map<Id, int>)
    ensures Voted(p, votes).imbalanceEpochs == p.imbalanceEpochs
  {
  }

  /* ----- one step ----- */

  lemma ExchangesAreOk(w: World, after: World, outcome: Outcome, a: Id, b: Id)
    requires LogOk(w) && after.forum.members.Keys == w.forum.members.Keys && after.forum.epoch == w.forum.epoch
    requires a in w.forum.members && b in w.forum.members
    requires after.log == w.log + Exchanges(outcome, a, b, w.forum.epoch)
    ensures LogOk(after)
  {
  }

  lemma PerformedFrame(f: Forum, deed: Deed, a: Id, b: Id)
    requires a in f.members && b in f.members && a != b
    ensures var g := Performed(f, deed, a, b).0; g.members.Keys == f.members.Keys && g.epoch == f.epoch && g.policy == f.policy
  {
    hide Tally, Imbalance, Counted;
  }

  lemma DeedKeepsWorld(w: World, deed: Deed, a: Id, b: Id)
    requires LogOk(w) && a in w.forum.members && b in w.forum.members && a != b
    requires forall id | id in w.forum.members :: WindowsOk(w, id)
    ensures var (g, outcome) := Performed(w.forum, deed, a, b);
      var after := World(g, w.log + Exchanges(outcome, a, b, w.forum.epoch));
      LogOk(after) && forall id | id in g.members :: WindowsOk(after, id)
  {
    hide WindowsOk, LogOk, Introduced, AcceptedBy, RepliedBy;
    var (g, outcome) := Performed(w.forum, deed, a, b);
    var after := World(g, w.log + Exchanges(outcome, a, b, w.forum.epoch));
    PerformedFrame(w.forum, deed, a, b);
    ExchangesAreOk(w, after, outcome, a, b);
    match deed {
      case Introduce => IntroductionInStep(w, a, b);
      case Accept => AcceptanceInStep(w, a, b);
      case Reply => ReplyInStep(w, a, b);
      case Decline =>
        forall id | id in g.members
          ensures WindowsOk(after, id)
        {
          assert WindowsOk(w, id);
          SameRecordInStep(w, after, id);
        }
    }
  }

  lemma TickInStep(w: World, eligible: Id -> bool, now: nat)
    requires LogOk(w) && forall id | id in w.forum.members :: WindowsOk(w, id)
    ensures var t := Ticked(w.forum, eligible, now);
      LogOk(w.(forum := t)) && forall id | id in t.members :: WindowsOk(w.(forum := t), id)
  {
  }

  lemma CallKeepsWorld(w: World, eligible: Id -> bool, deed: Deed, a: Id, b: Id, now: nat)
    requires WorldOk(w)
    ensures WorldOk(Step(w, Event(Call(deed, a, b, now), eligible)))
  {
    hide ForumOk, WindowsOk, LogOk, Ticked, Performed;
    ForumIsKnown(w.forum);
    CallKeepsForum(w.forum, eligible, deed, a, b, now);
    TickedFacts(w.forum, eligible, now);
    if w.forum.now <= now {
      var t := Ticked(w.forum, eligible, now);
      TickInStep(w, eligible, now);
      if Gate(t, eligible, a, b) == Done {
        DeedKeepsWorld(w.(forum := t), deed, a, b);
      } else {
        assert w.log + [] == w.log;
      }
    } else {
      assert w.log + [] == w.log;
    }
  }

  lemma JoinInStep(w: World, eligible: Id -> bool, who: Id, now: nat)
    requires WorldOk(w)
    ensures WorldOk(w.(forum := Joined(w.forum, eligible, who, now).0))
  {
    hide ForumOk, Ticked, Net;
    JoinKeepsForum(w.forum, eligible, who, now);
    TickedFacts(w.forum, eligible, now);
    var after := w.(forum := Joined(w.forum, eligible, who, now).0);
    forall id | id in after.forum.members
      ensures WindowsOk(after, id)
    {
      if id in w.forum.members {
        assert WindowsOk(w, id);
      } else {
        NetOfStranger(w.log, id, 0, w.forum.epoch);
        forall e: nat
          ensures Net(w.log, id, e, e) == 0
        {
          NetOfStranger(w.log, id, e, e);
        }
      }
    }
  }

  lemma QuietStepKeepsWorld(w: World, f: Forum)
    requires WorldOk(w) && Known(f)
    requires f.policy == w.forum.policy && f.members == w.forum.members && f.contacts == w.forum.contacts && f.epoch == w.forum.epoch
    ensures WorldOk(w.(forum := f))
  {
    hide WindowsOk, MemberOk;
    forall id | id in f.members
      ensures MemberOk(f, id) && WindowsOk(w.(forum := f), id)
    {
      assert MemberOk(w.forum, id) && WindowsOk(w, id);
      SameMembersSameOk(w.forum, f, id);
      SameRecordInStep(w, w.(forum := f), id);
    }
  }

  lemma TickKeepsWorld(w: World, eligible: Id -> bool, now: nat)
    requires WorldOk(w)
    ensures WorldOk(w.(forum := Ticked(w.forum, eligible, now)))
  {
    hide ForumOk, WindowsOk, LogOk, Ticked;
    TickKeepsForum(w.forum, eligible, now);
    TickInStep(w, eligible, now);
  }

  lemma VoteKeepsWorld(w: World, eligible: Id -> bool, id: Id, direction: int, now: nat)
    requires WorldOk(w)
    ensures WorldOk(w.(forum := Balloted(w.forum, eligible, id, direction, now).0))
  {
    hide WorldOk, Ticked;
    if w.forum.now <= now {
      TickKeepsWorld(w, eligible, now);
      var t := w.(forum := Ticked(w.forum, eligible, now));
      WorldIsKnown(t);
      QuietStepKeepsWorld(t, Balloted(w.forum, eligible, id, direction, now).0);
    }
  }

  lemma WorldIsKnown(w: World)
    requires WorldOk(w)
    ensures Known(w.forum)
  {
  }

  lemma ChoiceKeepsWorld(w: World, who: Id, choice: Choice)
    requires WorldOk(w) && who in w.forum.members
    ensures WorldOk(w.(forum := w.forum.(members := w.forum.members[who := Chosen(w.forum.members[who], choice)])))
  {
    hide ForumOk, WindowsOk;
    ChoiceKeepsForum(w.forum, who, choice);
    var after := w.(forum := w.forum.(members := w.forum.members[who := Chosen(w.forum.members[who], choice)]));
    forall id | id in after.forum.members
      ensures WindowsOk(after, id)
    {
      assert WindowsOk(w, id);
      SameRecordInStep(w, after, id);
    }
  }

  lemma AdvanceKeepsWorld(w: World)
    requires WorldOk(w)
    ensures WorldOk(w.(forum := Advanced(w.forum)))
  {
    hide ForumOk, WindowsOk, Voted, Matured;
    AdvanceKeepsForum(w.forum);
    forall id | id in w.forum.members
      ensures WindowsOk(w.(forum := Advanced(w.forum)), id)
    {
      assert WindowsOk(w, id);
      AdvanceInStep(w, id);
    }
  }

  lemma StepKeepsWorld(w: World, e: Event)
    requires WorldOk(w)
    ensures Known(w.forum) && WorldOk(Step(w, e))
  {
    hide WorldOk, Known, Joined, Ticked, Called, Balloted, Advanced, Chosen;
    WorldIsKnown(w);
    match e.action {
      case Connect(id, now) => JoinInStep(w, e.eligible, id, now);
      case Disconnect(id) => DisconnectKeepsWorld(w, id);
      case Roster(now) => if w.forum.now <= now { TickKeepsWorld(w, e.eligible, now); }
      case Choose(id, choice) => if id in w.forum.members { ChoiceKeepsWorld(w, id, choice); }
      case Call(deed, a, b, now) => CallKeepsWorld(w, e.eligible, deed, a, b, now); assert e == Event(e.action, e.eligible);
      case Vote(id, direction, now) => VoteKeepsWorld(w, e.eligible, id, direction, now);
      case AdvanceEpoch => AdvanceKeepsWorld(w);
    }
  }

  lemma DisconnectKeepsWorld(w: World, id: Id)
    requires WorldOk(w)
    ensures WorldOk(w.(forum := w.forum.(presence := w.forum.presence - {id})))
  {
    hide MemberOk, WindowsOk, ContactsOk;
    QuietStepKeepsWorld(w, w.forum.(presence := w.forum.presence - {id}));
  }

  /* ----- runs ----- */

  function Start(policy: Policy): World {
    World(Forum(policy, map[], map[], map[], map[], 0, 0), [])
  }

  lemma StepKeepsKnown(w: World, e: Event)
    requires Known(w.forum)
    ensures Known(Step(w, e).forum)
  {
    hide Called, Ticked, Matured, Voted, Chosen, NewMember, Exchanges;
    match e.action {
      case Call(deed, a, b, now) => CalledKeepsKnown(w.forum, e.eligible, deed, a, b, now);
      case Connect(id, now) => TickedKeepsKnown(w.forum, e.eligible, now);
      case Roster(now) => TickedKeepsKnown(w.forum, e.eligible, now);
      case Vote(id, direction, now) => TickedKeepsKnown(w.forum, e.eligible, now);
      case _ =>
    }
  }

  ghost function Run(w: World, events: seq<Event>): (r: World)
    requires Known(w.forum)
    decreases |events|
  {
    if events == [] then w
    else
      StepKeepsKnown(w, events[0]);
      Run(Step(w, events[0]), events[1..])
  }

  lemma {:induction false} RunKeepsWorld(w: World, events: seq<Event>)
    requires Known(w.forum) && WorldOk(w)
    ensures WorldOk(Run(w, events))
    ensures var p := Run(w, events).forum.policy;
      p == w.forum.policy.(epochGrant := p.epochGrant) && p.epochGrant <= p.maxEpochGrant
    decreases |events|
  {
    hide Step, ForumOk, WindowsOk, LogOk;
    if events == [] {
      ForumIsValid(w.forum);
    } else {
      StepKeepsWorld(w, events[0]);
      StepKeepsKnown(w, events[0]);
      StepKeepsPolicy(w, events[0]);
      RunKeepsWorld(Step(w, events[0]), events[1..]);
    }
  }

  lemma ForumIsValid(f: Forum)
    requires ForumOk(f)
    ensures f.policy.Valid()
  {
  }

  lemma StepKeepsPolicy(w: World, e: Event)
    requires Known(w.forum)
    ensures var p := Step(w, e).forum.policy; p == w.forum.policy.(epochGrant := p.epochGrant)
  {
    hide Ticked, Gate, Performed, Matured, Exchanges, Chosen, NewMember;
    match e.action {
      case Call(deed, a, b, now) => CallKeepsPolicy(w.forum, e.eligible, deed, a, b, now);
      case Connect(id, now) => if w.forum.now <= now { TickedFacts(w.forum, e.eligible, now); }
      case Vote(id, direction, now) => if w.forum.now <= now { TickedFacts(w.forum, e.eligible, now); }
      case Roster(now) => if w.forum.now <= now { TickedFacts(w.forum, e.eligible, now); }
      case _ =>
    }
  }

  lemma CallKeepsPolicy(f: Forum, eligible: Id -> bool, deed: Deed, a: Id, b: Id, now: nat)
    requires Known(f)
    ensures Called(f, eligible, deed, a, b, now).0.policy == f.policy
  {
    hide Ticked, Performed;
    if f.now <= now {
      TickedFacts(f, eligible, now);
      if Gate(Ticked(f, eligible, now), eligible, a, b) == Done {
        PerformedFrame(Ticked(f, eligible, now), deed, a, b);
      }
    }
  }

  ghost function Reached(policy: Policy, events: seq<Event>): World {
    Run(Start(policy), events)
  }

  lemma ReachedIsOk(policy: Policy, events: seq<Event>)
    requires policy.Valid()
    ensures WorldOk(Reached(policy, events))
    ensures var p := Reached(policy, events).forum.policy; p == policy.(epochGrant := p.epochGrant) && p.epochGrant <= p.maxEpochGrant
  {
    hide Run;
    RunKeepsWorld(Start(policy), events);
  }

  /** For every member of every run: spending never exceeds grants, grants never exceed the policy's
      ceiling, maturity is earned from distinct partners, and inboxes stay within their cap. */
  lemma EconomyIsBounded(policy: Policy, events: seq<Event>, id: Id)
    requires policy.Valid() && id in Reached(policy, events).forum.members
    ensures var f := Reached(policy, events).forum;
      var m := f.members[id];
      && m.tokens <= policy.tokenCap
      && m.approaches + m.tokens <= m.grantTotal <= policy.initialTokens + f.epoch * policy.maxEpochGrant
      && m.activeEpochs + (if m.activity then 1 else 0) <= |Partners(f, id)|
      && m.maxPending <= policy.pendingCap && Tally(f.contacts, PendingTo(id)) <= policy.pendingCap
      && f.policy.epochGrant <= policy.maxEpochGrant
  {
    hide Reached, Tally, Partners, WindowsOk, LogOk, Sane;
    ReachedIsOk(policy, events);
    assert MemberOk(Reached(policy, events).forum, id);
  }

  /** A member's lifetime imbalance is its unreplied approaches less what it accepted and has not
      answered; the imbalance a gate compares is the net of exactly the epochs in the horizon. */
  lemma ImbalanceIsExplained(policy: Policy, events: seq<Event>, id: Id)
    requires policy.Valid() && id in Reached(policy, events).forum.members
    ensures var w := Reached(policy, events);
      var m := w.forum.members[id];
      && m.approaches == Tally(w.forum.contacts, OpenedBy(id))
      && m.sent == m.approaches + Tally(w.forum.contacts, RepliedTo(id))
      && m.received == Tally(w.forum.contacts, TakenBy(id)) + Tally(w.forum.contacts, RepliedFrom(id))
      && m.sent - m.received == Tally(w.forum.contacts, UnrepliedFrom(id)) - Tally(w.forum.contacts, AcceptedTo(id))
      && m.sent - m.received == Net(w.log, id, 0, w.forum.epoch)
      && Imbalance(m, w.forum.policy) ==
           Net(w.log, id, if policy.imbalanceEpochs == 0 then 0 else Basics.Max(0, w.forum.epoch - policy.imbalanceEpochs + 1), w.forum.epoch)
  {
    hide Reached, Tally, Partners, LogOk, Sane, Imbalance, Net;
    ReachedIsOk(policy, events);
    var w := Reached(policy, events);
    assert MemberOk(w.forum, id) && WindowsOk(w, id);
    ImbalanceIsRecentNet(w, id);
  }

  /* ----- the whole community ----- */

  function Lifetime(f: Forum): map<Id, int> {
    map id | id in f.members :: f.members[id].sent - f.members[id].received
  }

  function PerMember(contacts: map<PairKey, Contact>, ids: set<Id>, accepted: bool): map<Id, int> {
    map id | id in ids :: Tally(contacts, if accepted then AcceptedTo(id) else UnrepliedFrom(id)) as int
  }

  lemma {:induction false} EachCountedOnce(contacts: map<PairKey, Contact>, ids: set<Id>, accepted: bool)
    requires forall k | k in contacts :: contacts[k].from in ids && contacts[k].to in ids
    ensures Total(PerMember(contacts, ids, accepted)) == Tally(contacts, if accepted then AllAccepted else Unreplied)
    decreases |contacts|
  {
    hide Tally, PerMember, Total;
    if contacts.Keys == {} {
      NothingToCount(contacts, ids, accepted);
    } else {
      var k :| k in contacts.Keys;
      EachCountedOnce(contacts - {k}, ids, accepted);
      OneMoreCounted(contacts - {k}, k, contacts[k], ids, accepted);
      assert contacts == (contacts - {k})[k := contacts[k]];
    }
  }

  lemma OneMoreCounted(rest: map<PairKey, Contact>, k: PairKey, c: Contact, ids: set<Id>, accepted: bool)
    requires k !in rest && c.from in ids && c.to in ids
    requires Total(PerMember(rest, ids, accepted)) == Tally(rest, if accepted then AllAccepted else Unreplied)
    ensures Total(PerMember(rest[k := c], ids, accepted)) == Tally(rest[k := c], if accepted then AllAccepted else Unreplied)
  {
    hide Tally, PerMember, Total;
    PerMemberStep(rest, k, c, ids, accepted);
    TallyUpdate(rest, k, c, if accepted then AllAccepted else Unreplied);
    PerMemberKeys(rest, ids, accepted);
    var owner, before := if accepted then c.to else c.from, PerMember(rest, ids, accepted);
    TotalUpdate(before, owner, before[owner] + One((if accepted then AllAccepted else Unreplied).Holds(c)));
  }

  lemma PerMemberStep(rest: map<PairKey, Contact>, k: PairKey, c: Contact, ids: set<Id>, accepted: bool)
    requires k !in rest && c.from in ids && c.to in ids
    ensures (if accepted then c.to else c.from) in PerMember(rest, ids, accepted)
    ensures var owner, before := if accepted then c.to else c.from, PerMember(rest, ids, accepted);
      PerMember(rest[k := c], ids, accepted)
        == before[owner := before[owner] + One((if accepted then AllAccepted else Unreplied).Holds(c))]
  {
    hide Tally;
    forall id | id in ids
      ensures Tally(rest[k := c], if accepted then AcceptedTo(id) else UnrepliedFrom(id)) ==
        Tally(rest, if accepted then AcceptedTo(id) else UnrepliedFrom(id))
        + One((if accepted then AcceptedTo(id) else UnrepliedFrom(id)).Holds(c))
    {
      TallyUpdate(rest, k, c, if accepted then AcceptedTo(id) else UnrepliedFrom(id));
    }
  }

  lemma PerMemberKeys(contacts: map<PairKey, Contact>, ids: set<Id>, accepted: bool)
    ensures PerMember(contacts, ids, accepted).Keys == ids
  {
  }

  lemma NothingToCount(contacts: map<PairKey, Contact>, ids: set<Id>, accepted: bool)
    requires contacts.Keys == {}
    ensures Total(PerMember(contacts, ids, accepted)) == 0 == Tally(contacts, if accepted then AllAccepted else Unreplied)
  {
    hide Tally;
    NoContactsNoTally(contacts);
    TotalOfZeros(PerMember(contacts, ids, accepted));
  }

  lemma NoContactsNoTally(contacts: map<PairKey, Contact>)
    requires contacts.Keys == {}
    ensures forall q :: Tally(contacts, q) == 0
  {
    forall q
      ensures Tally(contacts, q) == 0
    {
      assert Those(contacts, q) == {};
    }
  }

  lemma UnrequitedIsTheRest(contacts: map<PairKey, Contact>)
    ensures Tally(contacts, Unreplied) - Tally(contacts, AllAccepted) == Tally(contacts, Unrequited)
  {
    assert Those(contacts, Unreplied) == Those(contacts, AllAccepted) + Those(contacts, Unrequited);
    assert Those(contacts, AllAccepted) !! Those(contacts, Unrequited);
  }

  /** Summed over the whole community, the imbalance is exactly the contacts that were opened and
      never accepted: pending, expired and declined. */
  lemma CommunityImbalance(policy: Policy, events: seq<Event>)
    requires policy.Valid()
    ensures var f := Reached(policy, events).forum; Total(Lifetime(f)) == Tally(f.contacts, Unrequited)
  {
    hide Reached, Tally, Partners, WindowsOk, LogOk, Funded, Exact, Earned, Queued;
    ReachedIsOk(policy, events);
    var f := Reached(policy, events).forum;
    var ids := f.members.Keys;
    EachCountedOnce(f.contacts, ids, false);
    EachCountedOnce(f.contacts, ids, true);
    UnrequitedIsTheRest(f.contacts);
    forall id | id in f.members
      ensures Lifetime(f)[id] == PerMember(f.contacts, ids, false)[id] - PerMember(f.contacts, ids, true)[id]
    {
      assert MemberOk(f, id);
    }
    TotalOfDifference(PerMember(f.contacts, ids, false), PerMember(f.contacts, ids, true), Lifetime(f));
  }

  /* ----- contacts only move forward ----- */

  predicate Forward(c: Contact, d: Contact) {
    && d.from == c.from && d.to == c.to && d.deadline == c.deadline
    && (c.status == d.status || c.status == Pending || (c.status == Accepted && d.status == Replied))
  }

  /** A pair is introduced at most once, in one direction; declined, expired and replied are final. */
  lemma {:induction false} ContactsMoveForward(w: World, events: seq<Event>, key: PairKey)
    requires Known(w.forum) && key in w.forum.contacts
    ensures var after := Run(w, events).forum;
      key in after.contacts && Forward(w.forum.contacts[key], after.contacts[key])
    decreases |events|
  {
    hide Step;
    if events != [] {
      StepKeepsKnown(w, events[0]);
      StepMovesForward(w, events[0], key);
      ContactsMoveForward(Step(w, events[0]), events[1..], key);
    }
  }

  lemma StepMovesForward(w: World, e: Event, key: PairKey)
    requires Known(w.forum) && key in w.forum.contacts
    ensures key in Step(w, e).forum.contacts && Forward(w.forum.contacts[key], Step(w, e).forum.contacts[key])
  {
    hide Ticked, Gate, Performed, Matured, Voted, Exchanges, Chosen, NewMember, Aged;
    match e.action {
      case Call(deed, a, b, now) => CallMovesForward(w.forum, e.eligible, deed, a, b, now, key);
      case Connect(id, now) => if w.forum.now <= now { TickMovesForward(w.forum, e.eligible, now, key); }
      case Vote(id, direction, now) => if w.forum.now <= now { TickMovesForward(w.forum, e.eligible, now, key); }
      case Roster(now) => if w.forum.now <= now { TickMovesForward(w.forum, e.eligible, now, key); }
      case _ =>
    }
  }

  lemma TickMovesForward(f: Forum, eligible: Id -> bool, now: nat, key: PairKey)
    requires key in f.contacts
    ensures key in Ticked(f, eligible, now).contacts && Forward(f.contacts[key], Ticked(f, eligible, now).contacts[key])
  {
  }

  lemma DeedMovesForward(f: Forum, deed: Deed, a: Id, b: Id, key: PairKey)
    requires key in f.contacts && a in f.members && b in f.members && a != b
    ensures key in Performed(f, deed, a, b).0.contacts && Forward(f.contacts[key], Performed(f, deed, a, b).0.contacts[key])
  {
    hide Tally, Imbalance, Counted, Charged;
  }

  lemma CallMovesForward(f: Forum, eligible: Id -> bool, deed: Deed, a: Id, b: Id, now: nat, key: PairKey)
    requires Known(f) && key in f.contacts
    ensures var g := Called(f, eligible, deed, a, b, now).0; key in g.contacts && Forward(f.contacts[key], g.contacts[key])
  {
    hide Ticked, Performed;
    if f.now <= now {
      TickMovesForward(f, eligible, now, key);
      if Gate(Ticked(f, eligible, now), eligible, a, b) == Done {
        TickedFacts(f, eligible, now);
        DeedMovesForward(Ticked(f, eligible, now), deed, a, b, key);
      }
    }
  }
}
