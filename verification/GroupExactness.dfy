/** Exactly who may invite, join and send, in any run of forum and groups. */
module GroupExactness {
  import Basics
  import opened Forum
  import opened ForumLaws
  import opened ForumExactness
  import opened Groups
  import GroupTheorems
  import ForumTheorems

  /** The two have a replied contact, whoever opened it. */
  predicate InContact(f: Forum, a: Id, b: Id) {
    Pair(a, b) in f.contacts && f.contacts[Pair(a, b)].status == Replied
  }

  /** The contact an invitation rests on can stand now: it stands already, or the recipient accepted
      it, or may accept it. */
  predicate CanStand(w: World, recipient: Id, invitation: Invitation, now: nat) {
    var inviter := invitation.inviter;
    if invitation.established then InContact(w.forum, inviter, recipient)
    else
      || Asked(w.forum, inviter, recipient, now, Accepted) || Asked(w.forum, inviter, recipient, now, Replied)
      || (&& Asked(w.forum, inviter, recipient, now, Pending)
          && -Recent(w, w.forum.policy, recipient) < w.forum.policy.maxImbalance)
  }

  /* ----- the clock, ticked twice ----- */

  lemma TickedTwice(f: Forum, eligible: Id -> bool, a: Id, b: Id, now: nat)
    requires Known(f) && f.now <= now
    ensures var t := Ticked(f, eligible, now);
      && Known(t) && t.now == now && t.members == f.members && t.policy == f.policy
      && (Meet(t, eligible, a, b, now) <==> Meet(f, eligible, a, b, now))
      && (Meet(t, eligible, a, b, now) <==> Meet(t, eligible, b, a, now))
      && (InContact(t, a, b) <==> InContact(f, a, b)) && (InContact(t, a, b) <==> InContact(t, b, a))
      && (Asked(t, a, b, now, Pending) <==> Asked(f, a, b, now, Pending))
      && (Asked(t, a, b, now, Accepted) <==> Asked(f, a, b, now, Accepted))
      && (Asked(t, a, b, now, Replied) <==> Asked(f, a, b, now, Replied))
  {
    PairIsSymmetric(a, b);
  }

  lemma StatusAfterTick(f: Forum, eligible: Id -> bool, from: Id, to: Id, now: nat)
    ensures var t := Ticked(f, eligible, now);
      && (Requested(t, to, from) && t.contacts[Pair(to, from)].status == Replied <==> Asked(f, from, to, now, Replied))
      && (Pair(from, to) in t.contacts && t.contacts[Pair(from, to)].status == Replied <==> InContact(f, from, to))
  {
    PairIsSymmetric(from, to);
  }

  /* ----- consent ----- */

  lemma EstablishedDecides(t: Forum, from: Id, to: Id)
    requires from in t.members && to in t.members && from != to
    ensures Introduced(t, from, to).1 == Established <==> Pair(from, to) in t.contacts && t.contacts[Pair(from, to)].status == Replied
  {
    hide Tally, Imbalance;
  }

  lemma DuplicateDecides(t: Forum, recipient: Id, sender: Id)
    requires recipient in t.members && sender in t.members && recipient != sender
    ensures var status := if Requested(t, recipient, sender) then Basics.Some(t.contacts[Pair(recipient, sender)].status) else Basics.None;
      && (AcceptedBy(t, recipient, sender).1 == Duplicate <==> status == Basics.Some(Accepted) || status == Basics.Some(Replied))
      && (AcceptedBy(t, recipient, sender).1 == Duplicate ==> AcceptedBy(t, recipient, sender).0 == t)
      && (RepliedBy(t, recipient, sender).1 == Duplicate <==> status == Basics.Some(Replied))
  {
    hide Imbalance, Counted;
  }

  lemma EstablishedCall(f: Forum, eligible: Id -> bool, a: Id, b: Id, now: nat)
    requires Known(f)
    ensures Called(f, eligible, Introduce, a, b, now).1 == Established <==> Meet(f, eligible, a, b, now) && InContact(f, a, b)
  {
    hide Introduced, Called, Ticked, Meet;
    CallDecides(f, eligible, Introduce, a, b, now);
    if Meet(f, eligible, a, b, now) {
      MeetIsTwo(f, eligible, a, b, now);
      StatusAfterTick(f, eligible, a, b, now);
      EstablishedDecides(Ticked(f, eligible, now), a, b);
    }
  }

  /** What accepting comes to, and that the two still meet afterwards. */
  lemma AcceptCall(f: Forum, eligible: Id -> bool, recipient: Id, sender: Id, now: nat)
    requires Known(f)
    ensures var (g, outcome) := Called(f, eligible, Accept, recipient, sender, now);
      var meet := Meet(f, eligible, recipient, sender, now);
      && (outcome == NowAccepted <==>
            && meet && Asked(f, sender, recipient, now, Pending)
            && -Imbalance(f.members[recipient], f.policy) < f.policy.maxImbalance)
      && (outcome == Duplicate <==> meet && (Asked(f, sender, recipient, now, Accepted) || Asked(f, sender, recipient, now, Replied)))
      && Known(g)
      && (outcome == NowAccepted ==> Meet(g, eligible, recipient, sender, now) && Asked(g, sender, recipient, now, Accepted))
      && (outcome == Duplicate ==>
            && Meet(g, eligible, recipient, sender, now)
            && (Asked(g, sender, recipient, now, Accepted) || Asked(g, sender, recipient, now, Replied)))
  {
    hide AcceptedBy, Called, Ticked, Meet, Known, Imbalance, Requested;
    CallDecides(f, eligible, Accept, recipient, sender, now);
    CalledKeepsKnown(f, eligible, Accept, recipient, sender, now);
    if Meet(f, eligible, recipient, sender, now) {
      MeetIsTwo(f, eligible, recipient, sender, now);
      MeetIsAhead(f, eligible, recipient, sender, now);
      AskedAfterTick(f, eligible, sender, recipient, now);
      StatusAfterTick(f, eligible, sender, recipient, now);
      TickedTwice(f, eligible, sender, recipient, now);
      var t := Ticked(f, eligible, now);
      AcceptedDecides(t, recipient, sender);
      DuplicateDecides(t, recipient, sender);
      RequestedParties(t, recipient, sender);
      AcceptedStage(t, recipient, sender);
      SameStageSameMeeting(t, AcceptedBy(t, recipient, sender).0, eligible, recipient, sender, now);
      TickedTwice(f, eligible, recipient, sender, now);
    }
  }

  lemma MeetIsAhead(f: Forum, eligible: Id -> bool, a: Id, b: Id, now: nat)
    requires Known(f) && Meet(f, eligible, a, b, now)
    ensures f.now <= now
  {
  }

  lemma AcceptedStage(t: Forum, recipient: Id, sender: Id)
    requires recipient in t.members && sender in t.members && recipient != sender
    ensures var g := AcceptedBy(t, recipient, sender).0;
      && g.presence == t.presence && g.now == t.now && g.members.Keys == t.members.Keys
      && forall id | id in t.members :: g.members[id].blocks == t.members[id].blocks
  {
    hide Imbalance;
  }

  lemma SameStageSameMeeting(t: Forum, g: Forum, eligible: Id -> bool, a: Id, b: Id, now: nat)
    requires Known(t) && g.presence == t.presence && g.now == t.now && g.members.Keys == t.members.Keys
    requires forall id | id in t.members :: g.members[id].blocks == t.members[id].blocks
    ensures Known(g) && (Meet(g, eligible, a, b, now) <==> Meet(t, eligible, a, b, now))
  {
  }

  lemma ReplyCall(f: Forum, eligible: Id -> bool, recipient: Id, sender: Id, now: nat)
    requires Known(f) && Meet(f, eligible, recipient, sender, now)
    requires Asked(f, sender, recipient, now, Accepted) || Asked(f, sender, recipient, now, Replied)
    ensures var outcome := Called(f, eligible, Reply, recipient, sender, now).1; outcome == NowReplied || outcome == Duplicate
  {
    hide RepliedBy, AcceptedBy, Called, Ticked, Meet, Known, Requested;
    CallDecides(f, eligible, Reply, recipient, sender, now);
    MeetIsTwo(f, eligible, recipient, sender, now);
    AskedAfterTick(f, eligible, sender, recipient, now);
    StatusAfterTick(f, eligible, sender, recipient, now);
    AnsweredDecides(Ticked(f, eligible, now), recipient, sender);
    DuplicateDecides(Ticked(f, eligible, now), recipient, sender);
  }

  /** The recipient's consent stands if and only if the two meet and the contact can stand. */
  lemma ConsentDecides(w: World, eligible: Id -> bool, recipient: Id, invitation: Invitation, now: nat)
    requires ForumTheorems.WorldOk(w) && Known(w.forum)
    ensures Consented(w.forum, eligible, recipient, invitation, now).2 <==>
      Meet(w.forum, eligible, recipient, invitation.inviter, now) && CanStand(w, recipient, invitation, now)
  {
    hide Called, Ticked, Meet, Known, Recent, Asked, InContact, Imbalance, ForumTheorems.WorldOk;
    var f, inviter := w.forum, invitation.inviter;
    MeetingIsMutual(f, eligible, recipient, inviter, now);
    if invitation.established {
      EstablishedCall(f, eligible, inviter, recipient, now);
    } else {
      AcceptCall(f, eligible, recipient, inviter, now);
      if Meet(f, eligible, recipient, inviter, now) {
        LevelIsRecent(w, eligible, recipient, inviter, now);
      }
      var (accepting, accepted) := Called(f, eligible, Accept, recipient, inviter, now);
      if accepted == NowAccepted || accepted == Duplicate {
        ReplyCall(accepting, eligible, recipient, inviter, now);
      }
    }
  }

  lemma MeetingIsMutual(f: Forum, eligible: Id -> bool, a: Id, b: Id, now: nat)
    requires Known(f)
    ensures Meet(f, eligible, a, b, now) <==> Meet(f, eligible, b, a, now)
  {
  }

  lemma LevelIsRecent(w: World, eligible: Id -> bool, a: Id, b: Id, now: nat)
    requires ForumTheorems.WorldOk(w) && Known(w.forum) && Meet(w.forum, eligible, a, b, now)
    ensures a in w.forum.members && Imbalance(w.forum.members[a], w.forum.policy) == Recent(w, w.forum.policy, a)
  {
    hide ForumTheorems.WorldOk, Imbalance, ForumTheorems.Net;
    ForumTheorems.ImbalanceIsRecentNet(w, a);
  }

  /* ----- the group's own calls ----- */

  lemma TickKeepsStand(w: World, eligible: Id -> bool, recipient: Id, invitation: Invitation, now: nat)
    requires Known(w.forum) && w.forum.now <= now
    ensures var t := w.(forum := Ticked(w.forum, eligible, now));
      && Known(t.forum)
      && (Meet(t.forum, eligible, recipient, invitation.inviter, now) <==> Meet(w.forum, eligible, recipient, invitation.inviter, now))
      && (CanStand(t, recipient, invitation, now) <==> CanStand(w, recipient, invitation, now))
  {
    hide Ticked, Meet, Asked, InContact, Recent;
    TickedTwice(w.forum, eligible, recipient, invitation.inviter, now);
    TickedTwice(w.forum, eligible, invitation.inviter, recipient, now);
    TickedFacts(w.forum, eligible, now);
    TickKeepsRecent(w, w.(forum := Ticked(w.forum, eligible, now)), recipient);
  }

  lemma TickKeepsRecent(w: World, t: World, id: Id)
    requires t.log == w.log && t.forum.epoch == w.forum.epoch && t.forum.policy == w.forum.policy
    ensures Recent(t, t.forum.policy, id) == Recent(w, w.forum.policy, id)
  {
  }

  lemma MeetingIsOnline(f: Forum, eligible: Id -> bool, a: Id, b: Id, now: nat)
    requires Known(f) && Meet(f, eligible, a, b, now)
    ensures a in Ticked(f, eligible, now).presence
  {
  }

  lemma ReachedIsOk(policy: Policy, events: seq<GroupTheorems.SystemEvent>, limit: nat)
    requires policy.Valid()
    ensures ForumTheorems.WorldOk(GroupTheorems.Reached(policy, events, limit).world) && Known(GroupTheorems.Reached(policy, events, limit).world.forum)
  {
    hide GroupTheorems.Run, ForumTheorems.WorldOk;
    StartIsOk(policy);
    GroupTheorems.ForumLawsHoldUnderGroups(GroupTheorems.State(ForumTheorems.Start(policy), map[]), events, limit);
    ForumTheorems.WorldIsKnown(GroupTheorems.Reached(policy, events, limit).world);
  }

  lemma StartIsOk(policy: Policy)
    requires policy.Valid()
    ensures ForumTheorems.WorldOk(ForumTheorems.Start(policy)) && Known(ForumTheorems.Start(policy).forum)
  {
  }

  /** In every run a recipient joins if and only if it is invited and not yet a member, the group has
      room, it meets its inviter, and the contact the invitation rests on stands or can. */
  lemma JoinExactly(policy: Policy, events: seq<GroupTheorems.SystemEvent>, limit: nat, eligible: Id -> bool, recipient: Id, groupId: GroupId, now: nat)
    requires policy.Valid()
    ensures Known(GroupTheorems.Reached(policy, events, limit).View().forum)
    ensures var s := GroupTheorems.Reached(policy, events, limit);
      MemberJoined(s.View(), limit, eligible, recipient, groupId, now).1 == JoinedGroup <==>
        && groupId in s.groups && recipient !in s.groups[groupId].members && recipient in s.groups[groupId].invitations
        && |s.groups[groupId].members| < limit
        && Meet(s.world.forum, eligible, recipient, s.groups[groupId].invitations[recipient].inviter, now)
        && CanStand(s.world, recipient, s.groups[groupId].invitations[recipient], now)
  {
    hide GroupTheorems.Reached, Consented, Ticked, Meet, Known, CanStand, ForumTheorems.WorldOk;
    ReachedIsOk(policy, events, limit);
    var s := GroupTheorems.Reached(policy, events, limit);
    if groupId in s.groups && recipient in s.groups[groupId].invitations {
      var invitation := s.groups[groupId].invitations[recipient];
      if s.world.forum.now <= now {
        var t := s.world.(forum := Ticked(s.world.forum, eligible, now));
        ForumTheorems.TickKeepsWorld(s.world, eligible, now);
        TickKeepsStand(s.world, eligible, recipient, invitation, now);
        ConsentDecides(t, eligible, recipient, invitation, now);
        if Meet(s.world.forum, eligible, recipient, invitation.inviter, now) {
          MeetingIsOnline(s.world.forum, eligible, recipient, invitation.inviter, now);
        }
      } else if Meet(s.world.forum, eligible, recipient, invitation.inviter, now) {
        MeetIsAhead(s.world.forum, eligible, recipient, invitation.inviter, now);
      }
    }
  }

  /** A member invites if and only if the recipient is neither member nor invited, there is room, the
      two meet, and they are in contact or the member may approach it, with a token. */
  lemma InviteExactly(policy: Policy, events: seq<GroupTheorems.SystemEvent>, limit: nat, eligible: Id -> bool, inviter: Id, groupId: GroupId, recipient: Id, now: nat)
    requires policy.Valid()
    ensures Known(GroupTheorems.Reached(policy, events, limit).View().forum)
    ensures var s, f := GroupTheorems.Reached(policy, events, limit), GroupTheorems.Reached(policy, events, limit).world.forum;
      MemberInvited(s.View(), limit, eligible, inviter, groupId, recipient, now).1 == Invited <==>
        && groupId in s.groups && inviter in s.groups[groupId].members
        && recipient !in s.groups[groupId].members && recipient !in s.groups[groupId].invitations
        && |s.groups[groupId].members| < limit
        && Meet(f, eligible, inviter, recipient, now)
        && (|| InContact(f, inviter, recipient)
            || (&& Approachable(f, eligible, inviter, recipient, now)
                && Recent(s.world, f.policy, inviter) < f.policy.maxImbalance && 0 < f.members[inviter].tokens))
  {
    hide GroupTheorems.Reached, Called, Meet, Known, InContact, Recent, Inbox, ForumTheorems.WorldOk;
    ReachedIsOk(policy, events, limit);
    var w := GroupTheorems.Reached(policy, events, limit).world;
    EstablishedCall(w.forum, eligible, inviter, recipient, now);
    DeliveredCall(w, eligible, inviter, recipient, now);
  }

  lemma DeliveredCall(w: World, eligible: Id -> bool, from: Id, to: Id, now: nat)
    requires ForumTheorems.WorldOk(w) && Known(w.forum)
    ensures Called(w.forum, eligible, Introduce, from, to, now).1 == Delivered <==>
      && Approachable(w.forum, eligible, from, to, now)
      && Recent(w, w.forum.policy, from) < w.forum.policy.maxImbalance && 0 < w.forum.members[from].tokens
  {
    hide Tally, Imbalance, Ticked, Introduced, Recent, Inbox, Meet, Called, Known, ForumTheorems.WorldOk;
    CallDecides(w.forum, eligible, Introduce, from, to, now);
    if Meet(w.forum, eligible, from, to, now) {
      MeetIsTwo(w.forum, eligible, from, to, now);
      LevelIsRecent(w, eligible, from, to, now);
      InboxAfterTick(w.forum, eligible, to, now);
      TickedFacts(w.forum, eligible, now);
      IntroducedDecides(Ticked(w.forum, eligible, now), from, to);
    }
  }

  /** A member may send exactly while it is present and eligible. */
  lemma SendExactly(s: System, eligible: Id -> bool, sender: Id, groupId: GroupId, now: nat)
    ensures MessageSent(s, eligible, sender, groupId, now).1 == Allowed <==>
      && groupId in s.groups && sender in s.groups[groupId].members && s.forum.now <= now
      && sender in s.forum.presence && now < s.forum.presence[sender] && eligible(sender)
  {
    hide Aged;
  }

  /** A group is created exactly under a new nonempty name by a member present and eligible. */
  lemma CreateExactly(s: System, eligible: Id -> bool, owner: Id, groupId: GroupId, now: nat)
    ensures GroupCreated(s, eligible, owner, groupId, now).1 == Created <==>
      && groupId != "" && groupId !in s.groups && s.forum.now <= now
      && owner in s.forum.presence && now < s.forum.presence[owner] && eligible(owner)
  {
    hide Aged;
  }
}
