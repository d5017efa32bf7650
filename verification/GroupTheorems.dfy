/** Every group of every run is a tree of replied contacts. */
module GroupTheorems {
  import Basics
  import opened Forum
  import ForumLaws
  import ForumTheorems
  import opened Groups

  type World = ForumLaws.World

  datatype SystemEvent =
    | OnForum(event: ForumLaws.Event)
    | OnGroup(action: GroupAction, eligible: Id -> bool)

  datatype State = State(world: World, groups: map<GroupId, Group>) {
    function View(): System { System(world.forum, groups) }
  }

  ghost function Acted(s: System, limit: nat, action: GroupAction, eligible: Id -> bool): (System, GroupOutcome)
    requires Known(s.forum)
  {
    match action
    case Create(owner, groupId, now) => GroupCreated(s, eligible, owner, groupId, now)
    case Invite(inviter, groupId, recipient, now) => MemberInvited(s, limit, eligible, inviter, groupId, recipient, now)
    case Join(recipient, groupId, now) => MemberJoined(s, limit, eligible, recipient, groupId, now)
    case Send(sender, groupId, now) => MessageSent(s, eligible, sender, groupId, now)
  }

  /* ----- a group action is a few forum calls ----- */

  function Event(action: ForumLaws.Action, eligible: Id -> bool): ForumLaws.Event {
    ForumLaws.Event(action, eligible)
  }

  ghost function ConsentCalls(f: Forum, eligible: Id -> bool, recipient: Id, invitation: Invitation, now: nat): seq<ForumLaws.Event>
    requires Known(f)
  {
    if invitation.established then [Event(ForumLaws.Call(Introduce, invitation.inviter, recipient, now), eligible)]
    else
      var accept := Event(ForumLaws.Call(Accept, recipient, invitation.inviter, now), eligible);
      var accepted := Called(f, eligible, Accept, recipient, invitation.inviter, now).1;
      if accepted != NowAccepted && accepted != Duplicate then [accept]
      else [accept, Event(ForumLaws.Call(Reply, recipient, invitation.inviter, now), eligible)]
  }

  ghost function ForumCalls(s: System, limit: nat, action: GroupAction, eligible: Id -> bool): seq<ForumLaws.Event>
    requires Known(s.forum)
  {
    match action
    case Create(_, _, now) => [Event(ForumLaws.Roster(now), eligible)]
    case Invite(inviter, groupId, recipient, now) =>
      if groupId !in s.groups || inviter !in s.groups[groupId].members || recipient in s.groups[groupId].members
        || |s.groups[groupId].members| >= limit || recipient in s.groups[groupId].invitations
      then [] else [Event(ForumLaws.Call(Introduce, inviter, recipient, now), eligible)]
    case Join(recipient, groupId, now) =>
      if groupId !in s.groups || recipient in s.groups[groupId].members || recipient !in s.groups[groupId].invitations
        || |s.groups[groupId].members| >= limit
      then []
      else if now < s.forum.now || recipient !in Ticked(s.forum, eligible, now).presence then [Event(ForumLaws.Roster(now), eligible)]
      else [Event(ForumLaws.Roster(now), eligible)]
           + ConsentCalls(Ticked(s.forum, eligible, now), eligible, recipient, s.groups[groupId].invitations[recipient], now)
    case Send(sender, groupId, now) =>
      if groupId !in s.groups || sender !in s.groups[groupId].members then [] else [Event(ForumLaws.Roster(now), eligible)]
  }

  lemma OneEvent(w: World, e: ForumLaws.Event)
    requires Known(w.forum)
    ensures ForumTheorems.Run(w, [e]) == ForumLaws.Step(w, e)
  {
    hide ForumLaws.Step;
    ForumTheorems.StepKeepsKnown(w, e);
    assert ForumTheorems.Run(ForumLaws.Step(w, e), [e][1..]) == ForumLaws.Step(w, e);
  }

  lemma EventThen(w: World, e: ForumLaws.Event, more: seq<ForumLaws.Event>)
    requires Known(w.forum)
    ensures Known(ForumLaws.Step(w, e).forum)
    ensures ForumTheorems.Run(w, [e] + more) == ForumTheorems.Run(ForumLaws.Step(w, e), more)
  {
    hide ForumLaws.Step;
    ForumTheorems.StepKeepsKnown(w, e);
    assert ([e] + more)[1..] == more;
  }

  lemma ConsentIsAForumRun(w: World, eligible: Id -> bool, recipient: Id, invitation: Invitation, now: nat)
    requires Known(w.forum)
    ensures ForumTheorems.Run(w, ConsentCalls(w.forum, eligible, recipient, invitation, now)).forum
      == Consented(w.forum, eligible, recipient, invitation, now).0
  {
    hide Called, ForumTheorems.Run, ForumLaws.Exchanges;
    var calls := ConsentCalls(w.forum, eligible, recipient, invitation, now);
    if |calls| == 1 {
      OneEvent(w, calls[0]);
    } else {
      EventThen(w, calls[0], [calls[1]]);
      assert calls == [calls[0]] + [calls[1]];
      OneEvent(ForumLaws.Step(w, calls[0]), calls[1]);
    }
  }

  /** Whatever a group action does to the forum, some forum calls do. */
  lemma ActionIsAForumRun(w: World, s: System, limit: nat, action: GroupAction, eligible: Id -> bool)
    requires Known(w.forum) && s.forum == w.forum
    ensures ForumTheorems.Run(w, ForumCalls(s, limit, action, eligible)).forum == Acted(s, limit, action, eligible).0.forum
  {
    hide Called, ForumTheorems.Run, ForumLaws.Exchanges, Ticked, Consented, ConsentCalls;
    var calls := ForumCalls(s, limit, action, eligible);
    NoEvent(w);
    if |calls| == 1 {
      OneEvent(w, calls[0]);
    }
    if action.Join? && |calls| > 0 && !(action.now < s.forum.now || action.recipient !in Ticked(s.forum, eligible, action.now).presence) {
      var invitation := s.groups[action.groupId].invitations[action.recipient];
      ForumLaws.TickedFacts(s.forum, eligible, action.now);
      var more := ConsentCalls(Ticked(s.forum, eligible, action.now), eligible, action.recipient, invitation, action.now);
      EventThen(w, calls[0], more);
      ConsentIsAForumRun(ForumLaws.Step(w, calls[0]), eligible, action.recipient, invitation, action.now);
    }
  }

  lemma NoEvent(w: World)
    requires Known(w.forum)
    ensures ForumTheorems.Run(w, []) == w
  {
  }

  ghost function Step(s: State, e: SystemEvent, limit: nat): State
    requires Known(s.world.forum)
  {
    match e
    case OnForum(event) => s.(world := ForumLaws.Step(s.world, event))
    case OnGroup(action, eligible) =>
      State(ForumTheorems.Run(s.world, ForumCalls(s.View(), limit, action, eligible)),
            Acted(s.View(), limit, action, eligible).0.groups)
  }

  lemma StepKeepsKnown(s: State, e: SystemEvent, limit: nat)
    requires Known(s.world.forum)
    ensures Known(Step(s, e, limit).world.forum)
  {
    hide ForumLaws.Step, Acted, ForumCalls;
    match e {
      case OnForum(event) => ForumTheorems.StepKeepsKnown(s.world, event);
      case OnGroup(action, eligible) => RunKeepsKnown(s.world, ForumCalls(s.View(), limit, action, eligible));
    }
  }

  lemma {:induction false} RunKeepsKnown(w: World, events: seq<ForumLaws.Event>)
    requires Known(w.forum)
    ensures Known(ForumTheorems.Run(w, events).forum)
    decreases |events|
  {
    hide ForumLaws.Step;
    if events != [] {
      ForumTheorems.StepKeepsKnown(w, events[0]);
      RunKeepsKnown(ForumLaws.Step(w, events[0]), events[1..]);
    }
  }

  ghost function Run(s: State, events: seq<SystemEvent>, limit: nat): State
    requires Known(s.world.forum)
    decreases |events|
  {
    if events == [] then s
    else
      StepKeepsKnown(s, events[0], limit);
      Run(Step(s, events[0], limit), events[1..], limit)
  }

  /* ----- the tree ----- */

  predicate Linked(f: Forum, a: Id, b: Id) {
    Pair(a, b) in f.contacts && f.contacts[Pair(a, b)].status == Replied
  }

  /** The `i`th member joined through an earlier one. */
  ghost predicate HasParent(f: Forum, members: seq<Id>, i: nat)
    requires i < |members|
  {
    exists j :: 0 <= j < i && Linked(f, members[j], members[i])
  }

  ghost predicate GroupOk(f: Forum, g: Group, limit: nat) {
    && 0 < |g.members| <= limit
    && (forall i, j | 0 <= i < j < |g.members| :: g.members[i] != g.members[j])
    && (forall i | 0 < i < |g.members| :: HasParent(f, g.members, i))
    && (forall r | r in g.invitations :: r !in g.members && g.invitations[r].inviter in g.members)
  }

  ghost predicate GroupsOk(f: Forum, groups: map<GroupId, Group>, limit: nat) {
    forall id | id in groups :: GroupOk(f, groups[id], limit)
  }

  /** Replied contacts survive. */
  ghost predicate Extends(f: Forum, g: Forum) {
    forall a, b | Linked(f, a, b) :: Linked(g, a, b)
  }

  lemma RunExtends(w: World, events: seq<ForumLaws.Event>)
    requires Known(w.forum)
    ensures Extends(w.forum, ForumTheorems.Run(w, events).forum)
  {
    hide ForumTheorems.Run;
    forall a, b | Linked(w.forum, a, b)
      ensures Linked(ForumTheorems.Run(w, events).forum, a, b)
    {
      ForumTheorems.ContactsMoveForward(w, events, Pair(a, b));
    }
  }

  lemma GroupCarried(f: Forum, g: Forum, group: Group, limit: nat)
    requires GroupOk(f, group, limit) && Extends(f, g)
    ensures GroupOk(g, group, limit)
  {
    hide Linked;
    forall i | 0 < i < |group.members|
      ensures HasParent(g, group.members, i)
    {
      assert HasParent(f, group.members, i);
    }
  }

  lemma AdmittedIsOk(f: Forum, group: Group, limit: nat, recipient: Id)
    requires GroupOk(f, group, limit) && |group.members| < limit && recipient in group.invitations
    requires Linked(f, group.invitations[recipient].inviter, recipient)
    ensures GroupOk(f, Admitted(group, recipient), limit)
  {
    hide Linked;
    var after, n := Admitted(group, recipient), |group.members|;
    var parent :| 0 <= parent < n && group.members[parent] == group.invitations[recipient].inviter;
    forall i | 0 < i < |after.members|
      ensures HasParent(f, after.members, i)
    {
      if i < n {
        assert HasParent(f, group.members, i);
        var j :| 0 <= j < i && Linked(f, group.members[j], group.members[i]);
        assert after.members[j] == group.members[j];
      } else {
        assert Linked(f, after.members[parent], after.members[i]);
      }
    }
  }

  lemma PairIsSymmetric(a: Id, b: Id)
    ensures Pair(a, b) == Pair(b, a)
  {
  }

  /** Consent that stands leaves a replied contact between inviter and recipient. */
  lemma ConsentLinks(f: Forum, eligible: Id -> bool, recipient: Id, invitation: Invitation, now: nat)
    requires Known(f) && Consented(f, eligible, recipient, invitation, now).2
    ensures Linked(Consented(f, eligible, recipient, invitation, now).0, invitation.inviter, recipient)
  {
    hide Called;
    PairIsSymmetric(recipient, invitation.inviter);
    if invitation.established {
      EstablishedMeansLinked(f, eligible, invitation.inviter, recipient, now);
    } else {
      var accepting := Called(f, eligible, Accept, recipient, invitation.inviter, now).0;
      CalledKeepsKnown(f, eligible, Accept, recipient, invitation.inviter, now);
      ReplyMeansLinked(accepting, eligible, recipient, invitation.inviter, now);
    }
  }

  lemma EstablishedMeansLinked(f: Forum, eligible: Id -> bool, a: Id, b: Id, now: nat)
    requires Known(f) && Called(f, eligible, Introduce, a, b, now).1 == Established
    ensures Linked(Called(f, eligible, Introduce, a, b, now).0, a, b)
  {
    hide Tally, Imbalance, Charged, Ticked;
  }

  lemma ReplyMeansLinked(f: Forum, eligible: Id -> bool, a: Id, b: Id, now: nat)
    requires Known(f)
    requires Called(f, eligible, Reply, a, b, now).1 == NowReplied || Called(f, eligible, Reply, a, b, now).1 == Duplicate
    ensures Linked(Called(f, eligible, Reply, a, b, now).0, a, b)
  {
    hide Counted, Ticked;
  }

  lemma ActionKeepsGroups(s: System, limit: nat, action: GroupAction, eligible: Id -> bool)
    requires 2 <= limit && Known(s.forum) && GroupsOk(s.forum, s.groups, limit)
    requires Extends(s.forum, Acted(s, limit, action, eligible).0.forum)
    ensures var after := Acted(s, limit, action, eligible).0; GroupsOk(after.forum, after.groups, limit)
  {
    hide Called, Ticked, Linked, Consented, GroupOk, Extends;
    var after := Acted(s, limit, action, eligible).0;
    forall id | id in s.groups
      ensures GroupOk(after.forum, s.groups[id], limit)
    {
      GroupCarried(s.forum, after.forum, s.groups[id], limit);
    }
    match action {
      case Create(owner, groupId, now) => NewGroupIsOk(after.forum, owner, limit);
      case Invite(inviter, groupId, recipient, now) =>
        if Acted(s, limit, action, eligible).1 == Invited {
          InvitedIsOk(after.forum, s.groups[groupId], limit, inviter, recipient, after.groups[groupId].invitations[recipient].established);
        }
      case Join(recipient, groupId, now) =>
        if Acted(s, limit, action, eligible).1 == JoinedGroup {
          var ticked := Ticked(s.forum, eligible, now);
          ForumLaws.TickedFacts(s.forum, eligible, now);
          ConsentLinks(ticked, eligible, recipient, s.groups[groupId].invitations[recipient], now);
          AdmittedIsOk(after.forum, s.groups[groupId], limit, recipient);
        }
      case Send(_, _, _) =>
    }
  }

  lemma NewGroupIsOk(f: Forum, owner: Id, limit: nat)
    requires 2 <= limit
    ensures GroupOk(f, Group([owner], map[]), limit)
  {
  }

  lemma InvitedIsOk(f: Forum, group: Group, limit: nat, inviter: Id, recipient: Id, established: bool)
    requires GroupOk(f, group, limit) && inviter in group.members && recipient !in group.members
    ensures GroupOk(f, group.(invitations := group.invitations[recipient := Invitation(inviter, established)]), limit)
  {
    hide Linked;
  }

  lemma StepKeepsGroups(s: State, e: SystemEvent, limit: nat)
    requires 2 <= limit && Known(s.world.forum) && GroupsOk(s.world.forum, s.groups, limit)
    ensures var after := Step(s, e, limit); GroupsOk(after.world.forum, after.groups, limit)
  {
    hide ForumLaws.Step, Acted, ForumCalls, GroupOk, Extends, ForumTheorems.Run;
    match e {
      case OnForum(event) =>
        OneEvent(s.world, event);
        RunExtends(s.world, [event]);
        forall id | id in s.groups
          ensures GroupOk(ForumLaws.Step(s.world, event).forum, s.groups[id], limit)
        {
          GroupCarried(s.world.forum, ForumLaws.Step(s.world, event).forum, s.groups[id], limit);
        }
      case OnGroup(action, eligible) =>
        RunExtends(s.world, ForumCalls(s.View(), limit, action, eligible));
        ActionIsAForumRun(s.world, s.View(), limit, action, eligible);
        ActionKeepsGroups(s.View(), limit, action, eligible);
    }
  }

  lemma {:induction false} RunKeepsGroups(s: State, events: seq<SystemEvent>, limit: nat)
    requires 2 <= limit && Known(s.world.forum) && GroupsOk(s.world.forum, s.groups, limit)
    ensures var after := Run(s, events, limit); GroupsOk(after.world.forum, after.groups, limit)
    decreases |events|
  {
    hide Step, GroupsOk;
    if events != [] {
      StepKeepsKnown(s, events[0], limit);
      StepKeepsGroups(s, events[0], limit);
      RunKeepsGroups(Step(s, events[0], limit), events[1..], limit);
    }
  }

  ghost function Reached(policy: Policy, events: seq<SystemEvent>, limit: nat): State {
    Run(State(ForumTheorems.Start(policy), map[]), events, limit)
  }

  /** In every run each group has distinct members within the limit, and every member after the
      creator joined over a replied contact with an earlier member. */
  lemma EveryGroupIsATree(policy: Policy, events: seq<SystemEvent>, limit: nat, groupId: GroupId)
    requires 2 <= limit && groupId in Reached(policy, events, limit).groups
    ensures GroupOk(Reached(policy, events, limit).world.forum, Reached(policy, events, limit).groups[groupId], limit)
  {
    hide Run, GroupOk;
    RunKeepsGroups(State(ForumTheorems.Start(policy), map[]), events, limit);
  }

  /** Each member reaches the creator along replied contacts, through ever earlier members. */
  lemma {:induction false} PathToCreator(f: Forum, g: Group, limit: nat, i: nat) returns (path: seq<nat>)
    requires GroupOk(f, g, limit) && i < |g.members|
    ensures |path| > 0 && path[0] == i && path[|path| - 1] == 0
    ensures forall k | 0 <= k < |path| :: 0 <= path[k] <= i
    ensures forall k | 0 <= k < |path| - 1 :: path[k + 1] < path[k] && Linked(f, g.members[path[k + 1]], g.members[path[k]])
  {
    hide Linked;
    if i == 0 {
      return [0];
    }
    assert HasParent(f, g.members, i);
    var j :| 0 <= j < i && Linked(f, g.members[j], g.members[i]);
    var rest := PathToCreator(f, g, limit, j);
    path := [i] + rest;
  }

  /** The replied contacts among the first `n` members. */
  ghost function Edges(f: Forum, members: seq<Id>, n: nat): set<PairKey>
    requires n <= |members|
  {
    set k | k in f.contacts && f.contacts[k].status == Replied && k.low in members[..n] && k.high in members[..n] && k.low != k.high
  }

  /** The tree's contacts are distinct: a group of `n` members holds at least `n - 1` of them. */
  lemma {:induction false} GroupHoldsDistinctContacts(f: Forum, g: Group, limit: nat, n: nat)
    requires GroupOk(f, g, limit) && 0 < n <= |g.members|
    ensures n - 1 <= |Edges(f, g.members, n)|
  {
    if n > 1 {
      GroupHoldsDistinctContacts(f, g, limit, n - 1);
      assert HasParent(f, g.members, n - 1);
      var j :| 0 <= j < n - 1 && Linked(f, g.members[j], g.members[n - 1]);
      NewEdge(f, g, limit, n, j);
    }
  }

  lemma NewEdge(f: Forum, g: Group, limit: nat, n: nat, j: nat)
    requires GroupOk(f, g, limit) && 1 < n <= |g.members| && j < n - 1 && Linked(f, g.members[j], g.members[n - 1])
    ensures |Edges(f, g.members, n - 1)| + 1 <= |Edges(f, g.members, n)|
  {
    var edge, fewer := Pair(g.members[j], g.members[n - 1]), Edges(f, g.members, n - 1);
    var last, before := g.members[n - 1], g.members[..n - 1];
    assert last !in before;
    assert edge !in fewer;
    assert forall x :: x in before ==> x in g.members[..n];
    assert g.members[..n][j] == g.members[j] && g.members[..n][n - 1] == last;
    assert edge in Edges(f, g.members, n);
    assert fewer + {edge} <= Edges(f, g.members, n);
    Basics.SubsetSize(fewer + {edge}, Edges(f, g.members, n));
  }

  /** The forum's own laws hold throughout: group actions are forum calls. */
  lemma {:induction false} ForumLawsHoldUnderGroups(s: State, events: seq<SystemEvent>, limit: nat)
    requires Known(s.world.forum) && ForumTheorems.WorldOk(s.world)
    ensures ForumTheorems.WorldOk(Run(s, events, limit).world)
    decreases |events|
  {
    hide Acted, ForumCalls, ForumTheorems.WorldOk, ForumLaws.Step;
    if events != [] {
      StepKeepsKnown(s, events[0], limit);
      match events[0] {
        case OnForum(event) => ForumTheorems.StepKeepsWorld(s.world, event);
        case OnGroup(action, eligible) => ForumTheorems.RunKeepsWorld(s.world, ForumCalls(s.View(), limit, action, eligible));
      }
      ForumLawsHoldUnderGroups(Step(s, events[0], limit), events[1..], limit);
    }
  }
}
