/** Groups whose membership rides on forum contacts. */
module Groups {
  import opened Forum

  type GroupId = string

  datatype Invitation = Invitation(inviter: Id, established: bool)

  /** Members in the order they joined, the creator first. */
  datatype Group = Group(members: seq<Id>, invitations: map<Id, Invitation>)

  datatype GroupOutcome =
    | NotOnline | InvalidGroup | Exists | Created
    | NotMember | AlreadyMember | Full | AlreadyInvited | Invited
    | NotInvited | JoinedGroup | Allowed
    | FromForum(outcome: Outcome)

  datatype GroupAction =
    | Create(owner: Id, groupId: GroupId, now: nat)
    | Invite(inviter: Id, groupId: GroupId, recipient: Id, now: nat)
    | Join(recipient: Id, groupId: GroupId, now: nat)
    | Send(sender: Id, groupId: GroupId, now: nat)

  datatype System = System(forum: Forum, groups: map<GroupId, Group>)

  /** Reading the roster moves the forum's clock. */
  function Rostered(f: Forum, eligible: Id -> bool, now: nat): Forum {
    if now < f.now then f else Ticked(f, eligible, now)
  }

  function GroupCreated(s: System, eligible: Id -> bool, owner: Id, groupId: GroupId, now: nat): (System, GroupOutcome) {
    var ticked := s.(forum := Rostered(s.forum, eligible, now));
    if now < s.forum.now then (s, FromForum(Thrown))
    else if owner !in ticked.forum.presence then (ticked, NotOnline)
    else if groupId == "" then (ticked, InvalidGroup)
    else if groupId in s.groups then (ticked, Exists)
    else (ticked.(groups := s.groups[groupId := Group([owner], map[])]), Created)
  }

  ghost function MemberInvited(s: System, limit: nat, eligible: Id -> bool, inviter: Id, groupId: GroupId, recipient: Id, now: nat): (System, GroupOutcome)
    requires Known(s.forum)
  {
    if groupId !in s.groups || inviter !in s.groups[groupId].members then (s, NotMember)
    else
      var group := s.groups[groupId];
      if recipient in group.members then (s, AlreadyMember)
      else if |group.members| >= limit then (s, Full)
      else if recipient in group.invitations then (s, AlreadyInvited)
      else
        var (forum, result) := Called(s.forum, eligible, Introduce, inviter, recipient, now);
        if result != Delivered && result != Established then (s.(forum := forum), FromForum(result))
        else
          (System(forum, s.groups[groupId := group.(invitations := group.invitations[recipient := Invitation(inviter, result == Established)])]),
           Invited)
  }

  /** The invitation is consumed and the recipient becomes the last member. */
  function Admitted(group: Group, recipient: Id): Group {
    Group(group.members + [recipient], group.invitations - {recipient})
  }

  /** The forum after the recipient consents, and whether the contact now stands. */
  ghost function Consented(f: Forum, eligible: Id -> bool, recipient: Id, invitation: Invitation, now: nat): (Forum, Outcome, bool)
    requires Known(f)
  {
    if invitation.established then
      var (forum, current) := Called(f, eligible, Introduce, invitation.inviter, recipient, now);
      (forum, current, current == Established)
    else
      var (accepting, accepted) := Called(f, eligible, Accept, recipient, invitation.inviter, now);
      CalledKeepsKnown(f, eligible, Accept, recipient, invitation.inviter, now);
      if accepted != NowAccepted && accepted != Duplicate then (accepting, accepted, false)
      else
        var (replying, replied) := Called(accepting, eligible, Reply, recipient, invitation.inviter, now);
        (replying, replied, replied == NowReplied || replied == Duplicate)
  }

  ghost function MemberJoined(s: System, limit: nat, eligible: Id -> bool, recipient: Id, groupId: GroupId, now: nat): (System, GroupOutcome)
    requires Known(s.forum)
  {
    if groupId in s.groups && recipient in s.groups[groupId].members then (s, AlreadyMember)
    else if groupId !in s.groups || recipient !in s.groups[groupId].invitations then (s, NotInvited)
    else if |s.groups[groupId].members| >= limit then (s, Full)
    else if now < s.forum.now then (s, FromForum(Thrown))
    else
      var ticked := Ticked(s.forum, eligible, now);
      if recipient !in ticked.presence then (s.(forum := ticked), NotOnline)
      else
        var (forum, outcome, stands) := Consented(ticked, eligible, recipient, s.groups[groupId].invitations[recipient], now);
        if !stands then (s.(forum := forum), FromForum(outcome))
        else (System(forum, s.groups[groupId := Admitted(s.groups[groupId], recipient)]), JoinedGroup)
  }

  function MessageSent(s: System, eligible: Id -> bool, sender: Id, groupId: GroupId, now: nat): (System, GroupOutcome) {
    if groupId !in s.groups || sender !in s.groups[groupId].members then (s, NotMember)
    else if now < s.forum.now then (s, FromForum(Thrown))
    else
      var ticked := Ticked(s.forum, eligible, now);
      (s.(forum := ticked), if sender in ticked.presence then Allowed else NotOnline)
  }

  class GroupExperiment {
    const forum: ForumExperiment
    const limit: nat
    var groups: map<GroupId, Group>

    function View(): System
      reads this, forum
    {
      System(forum.View(), groups)
    }

    constructor (forum: ForumExperiment, maxMembers: nat)
      requires 2 <= maxMembers <= 100
      ensures this.forum == forum && limit == maxMembers && groups == map[]
    {
      this.forum := forum;
      limit := maxMembers;
      groups := map[];
    }

    method Online(eligible: Id -> bool, id: Id, now: nat) returns (outcome: GroupOutcome)
      requires Known(forum.View())
      modifies forum
      ensures groups == old(groups) && forum.View() == Rostered(old(forum.View()), eligible, now) && Known(forum.View())
      ensures outcome == if now < old(forum.now) then FromForum(Thrown) else if id in forum.presence then Allowed else NotOnline
    {
      var ok := forum.Tick(eligible, now);
      return if !ok then FromForum(Thrown) else if id in forum.presence then Allowed else NotOnline;
    }

    method Create(eligible: Id -> bool, owner: Id, groupId: GroupId, now: nat) returns (outcome: GroupOutcome)
      requires Known(forum.View())
      modifies this, forum
      ensures (View(), outcome) == GroupCreated(old(View()), eligible, owner, groupId, now)
    {
      var online := Online(eligible, owner, now);
      if online != Allowed {
        return online;
      }
      if groupId == "" {
        return InvalidGroup;
      }
      if groupId in groups {
        return Exists;
      }
      groups := groups[groupId := Group([owner], map[])];
      return Created;
    }

    method Invite(eligible: Id -> bool, inviter: Id, groupId: GroupId, recipient: Id, now: nat) returns (outcome: GroupOutcome)
      requires Known(forum.View())
      modifies this, forum
      ensures (View(), outcome) == MemberInvited(old(View()), limit, eligible, inviter, groupId, recipient, now)
    {
      hide Called;
      if groupId !in groups || inviter !in groups[groupId].members {
        return NotMember;
      }
      var group := groups[groupId];
      if recipient in group.members {
        return AlreadyMember;
      }
      if |group.members| >= limit {
        return Full;
      }
      if recipient in group.invitations {
        return AlreadyInvited;
      }
      var result := forum.Introduce(eligible, inviter, recipient, now);
      if result != Delivered && result != Established {
        return FromForum(result);
      }
      group := group.(invitations := group.invitations[recipient := Invitation(inviter, result == Established)]);
      groups := groups[groupId := group];
      return Invited;
    }

    /** Rechecks an established contact, or accepts and answers the introduction. */
    method Consent(eligible: Id -> bool, recipient: Id, invitation: Invitation, now: nat) returns (outcome: Outcome, stands: bool)
      requires Known(forum.View())
      modifies forum
      ensures groups == old(groups)
      ensures (forum.View(), outcome, stands) == Consented(old(forum.View()), eligible, recipient, invitation, now)
    {
      hide Called;
      if invitation.established {
        outcome := forum.Introduce(eligible, invitation.inviter, recipient, now);
        stands := outcome == Established;
        return;
      }
      CalledKeepsKnown(forum.View(), eligible, Deed.Accept, recipient, invitation.inviter, now);
      outcome := forum.Accept(eligible, recipient, invitation.inviter, now);
      if outcome != NowAccepted && outcome != Duplicate {
        return outcome, false;
      }
      outcome := forum.Reply(eligible, recipient, invitation.inviter, now);
      stands := outcome == NowReplied || outcome == Duplicate;
    }

    method Join(eligible: Id -> bool, recipient: Id, groupId: GroupId, now: nat) returns (outcome: GroupOutcome)
      requires Known(forum.View())
      modifies this, forum
      ensures (View(), outcome) == MemberJoined(old(View()), limit, eligible, recipient, groupId, now)
    {
      hide Consented, Ticked;
      if groupId in groups && recipient in groups[groupId].members {
        return AlreadyMember;
      }
      if groupId !in groups || recipient !in groups[groupId].invitations {
        return NotInvited;
      }
      if |groups[groupId].members| >= limit {
        return Full;
      }
      var online := Online(eligible, recipient, now);
      if online != Allowed {
        return online;
      }
      var result, stands := Consent(eligible, recipient, groups[groupId].invitations[recipient], now);
      if !stands {
        return FromForum(result);
      }
      groups := groups[groupId := Group(groups[groupId].members + [recipient], groups[groupId].invitations - {recipient})];
      return JoinedGroup;
    }

    method Send(eligible: Id -> bool, sender: Id, groupId: GroupId, now: nat) returns (outcome: GroupOutcome)
      requires Known(forum.View())
      modifies forum
      ensures (View(), outcome) == MessageSent(old(View()), eligible, sender, groupId, now)
    {
      if groupId !in groups || sender !in groups[groupId].members {
        return NotMember;
      }
      outcome := Online(eligible, sender, now);
    }
  }
}
