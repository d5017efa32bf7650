/** The synthetic introduction economy: tokens, contacts, imbalance windows, epochs and votes. */
module Forum {
  import Basics
  import opened Tallies

  type Id = nat

  datatype Policy = Policy(
    initialTokens: nat, epochGrant: nat, maxEpochGrant: nat, tokenCap: nat, growthPerActiveEpoch: nat, imbalanceEpochs: nat,
    maxImbalance: nat, pendingCap: nat, requestTtl: nat, presenceTtl: nat, voting: bool)
  {
    predicate Valid() {
      && initialTokens <= tokenCap && epochGrant <= maxEpochGrant
      && 0 < maxImbalance && 0 < pendingCap && 0 < requestTtl && 0 < presenceTtl
    }
  }

  datatype Window = Window(sent: nat, received: nat) {
    function Net(): int { sent - received }
  }

  datatype Member = Member(
    tokens: nat, sent: nat, received: nat, approaches: nat, activeEpochs: nat, activity: bool, grantTotal: nat,
    open: bool, blocks: set<Id>, windows: map<nat, Window>, maxPending: nat)

  datatype PairKey = PairKey(low: Id, high: Id)

  datatype Status = Pending | Accepted | Replied | Declined | Expired

  datatype Contact = Contact(from: Id, to: Id, deadline: nat, status: Status)

  datatype Direction = Sent | Received

  datatype Outcome =
    | Ineligible | ToSelf | Offline | Blocked
    | Established | AlreadyPending | AlreadyContacted | Closed | InboxFull | OutboundImbalance | NoTokens | Delivered
    | Missing | Duplicate | Standing(status: Status) | InboundImbalance | NowAccepted | Unaccepted | NowReplied | NowDeclined
    | VotingDisabled | InvalidVote | AlreadyVoted | Recorded
    | Connected | NotConnected | Done | Thrown

  datatype Forum = Forum(
    policy: Policy, members: map<Id, Member>, presence: map<Id, nat>, contacts: map<PairKey, Contact>, votes: map<Id, int>,
    epoch: nat, now: nat)

  /** The unordered pair's key. */
  function Pair(a: Id, b: Id): PairKey {
    if a <= b then PairKey(a, b) else PairKey(b, a)
  }

  /* ----- which contacts ----- */

  datatype Query =
    | OpenedBy(id: Id) | RepliedTo(id: Id) | TakenBy(id: Id) | RepliedFrom(id: Id)
    | UnrepliedFrom(id: Id) | AcceptedTo(id: Id) | PendingTo(id: Id)
    | Unrequited | Unreplied | AllAccepted
  {
    predicate Holds(c: Contact) {
      match this
      case OpenedBy(id) => c.from == id
      case RepliedTo(id) => c.to == id && c.status == Replied
      case TakenBy(id) => c.to == id && (c.status == Accepted || c.status == Replied)
      case RepliedFrom(id) => c.from == id && c.status == Replied
      case UnrepliedFrom(id) => c.from == id && c.status != Replied
      case AcceptedTo(id) => c.to == id && c.status == Accepted
      case PendingTo(id) => c.to == id && c.status == Pending
      case Unrequited => c.status == Pending || c.status == Expired || c.status == Declined
      case Unreplied => c.status != Replied
      case AllAccepted => c.status == Accepted
    }
  }

  function Those(contacts: map<PairKey, Contact>, q: Query): set<PairKey> {
    set k | k in contacts && q.Holds(contacts[k])
  }

  function Tally(contacts: map<PairKey, Contact>, q: Query): nat {
    |Those(contacts, q)|
  }

  /* ----- the clock ----- */

  function Aged(c: Contact, now: nat): Contact {
    if c.status == Pending && c.deadline <= now then c.(status := Expired) else c
  }

  function Ticked(f: Forum, eligible: Id -> bool, now: nat): Forum {
    f.(now := now,
       presence := map id | id in f.presence && now < f.presence[id] && eligible(id) :: f.presence[id],
       contacts := map k | k in f.contacts :: Aged(f.contacts[k], now))
  }

  /* ----- a member's record ----- */

  function Counted(m: Member, direction: Direction, epoch: nat): Member {
    var window := if epoch in m.windows then m.windows[epoch] else Window(0, 0);
    match direction
    case Sent => m.(sent := m.sent + 1, windows := m.windows[epoch := window.(sent := window.sent + 1)])
    case Received => m.(received := m.received + 1, windows := m.windows[epoch := window.(received := window.received + 1)])
  }

  function Nets(windows: map<nat, Window>): map<nat, int> {
    map e | e in windows :: windows[e].Net()
  }

  ghost function Imbalance(m: Member, p: Policy): int {
    if p.imbalanceEpochs == 0 then m.sent - m.received else Total(Nets(m.windows))
  }

  method ComputeImbalance(m: Member, p: Policy) returns (r: int)
    ensures r == Imbalance(m, p)
  {
    if p.imbalanceEpochs == 0 {
      return m.sent - m.received;
    }
    r := 0;
    var rest := m.windows;
    while rest.Keys != {}
      invariant r + Total(Nets(rest)) == Total(Nets(m.windows))
      decreases |rest|
    {
      var e :| e in rest.Keys;
      TotalSplit(Nets(rest), e);
      assert Nets(rest) - {e} == Nets(rest - {e});
      r := r + rest[e].sent - rest[e].received;
      rest := rest - {e};
    }
    assert Nets(rest).Keys == {};
  }

  /* ----- operations, after the clock has been set ----- */

  function NewMember(p: Policy): Member {
    Member(p.initialTokens, 0, 0, 0, 0, false, p.initialTokens, true, {}, map[], 0)
  }

  function Gate(f: Forum, eligible: Id -> bool, a: Id, b: Id): (r: Outcome)
    ensures r == Ineligible || r == ToSelf || r == Offline || r == Blocked || r == Done
  {
    if !eligible(a) || !eligible(b) then Ineligible
    else if a == b then ToSelf
    else if a !in f.presence || b !in f.presence then Offline
    else if a in f.members && b in f.members && (b in f.members[a].blocks || a in f.members[b].blocks) then Blocked
    else Done
  }

  function Charged(sender: Member, epoch: nat): Member
    requires 0 < sender.tokens
  {
    var paid := Counted(sender.(tokens := sender.tokens - 1), Sent, epoch);
    paid.(approaches := paid.approaches + 1)
  }

  ghost function Introduced(f: Forum, from: Id, to: Id): (Forum, Outcome)
    requires from in f.members && to in f.members
  {
    var key, sender, recipient := Pair(from, to), f.members[from], f.members[to];
    if key in f.contacts then
      (f, match f.contacts[key].status
          case Replied => Established
          case Pending => AlreadyPending
          case Accepted => AlreadyPending
          case _ => AlreadyContacted)
    else if !recipient.open then (f, Closed)
    else if Tally(f.contacts, PendingTo(to)) >= f.policy.pendingCap then (f, InboxFull)
    else if Imbalance(sender, f.policy) >= f.policy.maxImbalance then (f, OutboundImbalance)
    else if sender.tokens < 1 then (f, NoTokens)
    else
      var pending := Tally(f.contacts, PendingTo(to));
      (f.(members := f.members[from := Charged(sender, f.epoch)]
                              [to := recipient.(maxPending := Basics.Max(recipient.maxPending, pending + 1))],
          contacts := f.contacts[key := Contact(from, to, f.now + f.policy.requestTtl, Pending)]),
       Delivered)
  }

  /** The contact `sender` opened towards `recipient`, if there is one in that direction. */
  predicate Requested(f: Forum, recipient: Id, sender: Id) {
    Pair(recipient, sender) in f.contacts
    && f.contacts[Pair(recipient, sender)].from == sender && f.contacts[Pair(recipient, sender)].to == recipient
  }

  ghost function AcceptedBy(f: Forum, recipient: Id, sender: Id): (Forum, Outcome)
    requires recipient in f.members
  {
    var key := Pair(recipient, sender);
    if !Requested(f, recipient, sender) then (f, Missing)
    else
      match f.contacts[key].status
      case Accepted => (f, Duplicate)
      case Replied => (f, Duplicate)
      case Declined => (f, Standing(Declined))
      case Expired => (f, Standing(Expired))
      case Pending =>
        if -Imbalance(f.members[recipient], f.policy) >= f.policy.maxImbalance then (f, InboundImbalance)
        else
          (f.(members := f.members[recipient := Counted(f.members[recipient], Received, f.epoch)],
              contacts := f.contacts[key := f.contacts[key].(status := Accepted)]),
           NowAccepted)
  }

  function RepliedBy(f: Forum, recipient: Id, sender: Id): (Forum, Outcome)
    requires recipient in f.members && sender in f.members && recipient != sender
  {
    var key := Pair(recipient, sender);
    if !Requested(f, recipient, sender) then (f, Missing)
    else if f.contacts[key].status == Replied then (f, Duplicate)
    else if f.contacts[key].status != Accepted then (f, Unaccepted)
    else
      (f.(members := f.members[recipient := Counted(f.members[recipient], Sent, f.epoch).(activity := true)]
                              [sender := Counted(f.members[sender], Received, f.epoch).(activity := true)],
          contacts := f.contacts[key := f.contacts[key].(status := Replied)]),
       NowReplied)
  }

  function DeclinedBy(f: Forum, recipient: Id, sender: Id): (Forum, Outcome) {
    var key := Pair(recipient, sender);
    if !Requested(f, recipient, sender) then (f, Missing)
    else
      if f.contacts[key].status == Pending
      then (f.(contacts := f.contacts[key := f.contacts[key].(status := Declined)]), NowDeclined)
      else (f, Standing(f.contacts[key].status))
  }

  /* ----- epochs ----- */

  function Sign(n: int): int { if n > 0 then 1 else if n < 0 then -1 else 0 }

  function Clamp(n: int, high: nat): nat { if n < 0 then 0 else if n > high then high else n }

  function Matured(m: Member, p: Policy, epoch: nat): Member {
    var oldest := epoch - p.imbalanceEpochs + 1;
    var active := if m.activity then m.activeEpochs + 1 else m.activeEpochs;
    var grant := Basics.Min(p.maxEpochGrant, p.epochGrant + active * p.growthPerActiveEpoch);
    m.(windows := map e | e in m.windows && oldest <= e :: m.windows[e],
       activeEpochs := active, activity := false,
       grantTotal := m.grantTotal + grant, tokens := Basics.Min(p.tokenCap, m.tokens + grant))
  }

  /** The policy after counting the epoch's votes: the grant moves one step towards the majority. */
  ghost function Voted(p: Policy, votes: map<Id, int>): Policy {
    if p.voting then p.(epochGrant := Clamp(p.epochGrant + Sign(Total(votes)), p.maxEpochGrant)) else p
  }

  ghost function Advanced(f: Forum): Forum {
    var policy := Voted(f.policy, f.votes);
    f.(policy := policy, votes := map[], epoch := f.epoch + 1,
       members := map id | id in f.members :: Matured(f.members[id], policy, f.epoch + 1))
  }

  /* ----- whole calls: the clock, the gate, then the operation ----- */

  /** Only registered members are ever present. */
  predicate Known(f: Forum) {
    f.presence.Keys <= f.members.Keys
  }

  datatype Deed = Introduce | Accept | Reply | Decline

  ghost function Performed(f: Forum, deed: Deed, a: Id, b: Id): (Forum, Outcome)
    requires a in f.members && b in f.members && a != b
  {
    match deed
    case Introduce => Introduced(f, a, b)
    case Accept => AcceptedBy(f, a, b)
    case Reply => RepliedBy(f, a, b)
    case Decline => DeclinedBy(f, a, b)
  }

  ghost function Called(f: Forum, eligible: Id -> bool, deed: Deed, a: Id, b: Id, now: nat): (Forum, Outcome)
    requires Known(f)
  {
    if now < f.now then (f, Thrown)
    else
      var ticked := Ticked(f, eligible, now);
      var gate := Gate(ticked, eligible, a, b);
      if gate != Done then (ticked, gate) else Performed(ticked, deed, a, b)
  }

  function Joined(f: Forum, eligible: Id -> bool, id: Id, now: nat): (Forum, Outcome) {
    if now < f.now then (f, Thrown)
    else
      var ticked := Ticked(f, eligible, now);
      if !eligible(id) then (ticked, NotConnected)
      else
        (ticked.(members := if id in f.members then f.members else f.members[id := NewMember(f.policy)],
                 presence := ticked.presence[id := now + f.policy.presenceTtl]),
         Connected)
  }

  function Balloted(f: Forum, eligible: Id -> bool, id: Id, direction: int, now: nat): (Forum, Outcome) {
    if now < f.now then (f, Thrown)
    else
      var ticked := Ticked(f, eligible, now);
      if !f.policy.voting then (ticked, VotingDisabled)
      else if direction != 1 && direction != -1 then (ticked, InvalidVote)
      else if !eligible(id) then (ticked, Ineligible)
      else if id !in ticked.presence then (ticked, Offline)
      else if id in f.votes then (ticked, AlreadyVoted)
      else (ticked.(votes := f.votes[id := direction]), Recorded)
  }

  /** A local choice: open inbox, block, unblock. */
  datatype Choice = SetOpen(open: bool) | Block(other: Id) | Unblock(other: Id)

  function Chosen(m: Member, c: Choice): Member {
    match c
    case SetOpen(open) => m.(open := open)
    case Block(other) => m.(blocks := m.blocks + {other})
    case Unblock(other) => m.(blocks := m.blocks - {other})
  }

  lemma TickedKeepsKnown(f: Forum, eligible: Id -> bool, now: nat)
    ensures Ticked(f, eligible, now).members == f.members && Ticked(f, eligible, now).presence.Keys <= f.presence.Keys
  {
  }

  lemma PerformedKeepsPresence(f: Forum, deed: Deed, a: Id, b: Id)
    requires a in f.members && b in f.members && a != b
    ensures Performed(f, deed, a, b).0.presence == f.presence && Performed(f, deed, a, b).0.members.Keys == f.members.Keys
  {
    hide Tally, Imbalance, Counted, Charged;
  }

  /** Calls keep everyone present registered. */
  lemma CalledKeepsKnown(f: Forum, eligible: Id -> bool, deed: Deed, a: Id, b: Id, now: nat)
    requires Known(f)
    ensures Known(Called(f, eligible, deed, a, b, now).0)
  {
    hide Ticked, Performed;
    if f.now <= now {
      var t := Ticked(f, eligible, now);
      TickedKeepsKnown(f, eligible, now);
      if Gate(t, eligible, a, b) == Done {
        PerformedKeepsPresence(t, deed, a, b);
      }
    }
  }

  class ForumExperiment {
    var policy: Policy
    var members: map<Id, Member>
    var presence: map<Id, nat>
    var contacts: map<PairKey, Contact>
    var votes: map<Id, int>
    var epoch: nat
    var now: nat

    function View(): Forum
      reads this
    {
      Forum(policy, members, presence, contacts, votes, epoch, now)
    }

    constructor (policy: Policy)
      requires policy.Valid()
      ensures View() == Forum(policy, map[], map[], map[], map[], 0, 0) && Known(View())
    {
      this.policy := policy;
      members, presence, contacts, votes, epoch, now := map[], map[], map[], map[], 0, 0;
    }

    method Tick(eligible: Id -> bool, at: nat) returns (ok: bool)
      modifies this
      ensures ok == (old(now) <= at)
      ensures View() == if ok then Ticked(old(View()), eligible, at) else old(View())
    {
      if at < now {
        return false;
      }
      now := at;
      DropAbsent(eligible);
      ExpireRequests();
      return true;
    }

    method DropAbsent(eligible: Id -> bool)
      modifies this
      ensures View() == old(View()).(presence := map id | id in old(presence) && now < old(presence)[id] && eligible(id) :: old(presence)[id])
    {
      var ids := presence.Keys;
      while ids != {}
        invariant ids <= old(presence).Keys
        invariant View() == old(View()).(presence := presence)
        invariant presence == map id | id in old(presence)
                    && (id in ids || (now < old(presence)[id] && eligible(id))) :: old(presence)[id]
        decreases ids
      {
        var id :| id in ids;
        if presence[id] <= now || !eligible(id) {
          presence := presence - {id};
        }
        ids := ids - {id};
      }
    }

    method ExpireRequests()
      modifies this
      ensures View() == old(View()).(contacts := map k | k in old(contacts) :: Aged(old(contacts)[k], now))
    {
      var keys := contacts.Keys;
      while keys != {}
        invariant keys <= old(contacts).Keys
        invariant View() == old(View()).(contacts := contacts)
        invariant contacts == map k | k in old(contacts) :: if k in keys then old(contacts)[k] else Aged(old(contacts)[k], now)
        decreases keys
      {
        var k :| k in keys;
        if contacts[k].status == Pending && contacts[k].deadline <= now {
          contacts := contacts[k := contacts[k].(status := Expired)];
        }
        keys := keys - {k};
      }
    }

    method Connect(eligible: Id -> bool, id: Id, at: nat) returns (outcome: Outcome)
      requires Known(View())
      modifies this
      ensures (View(), outcome) == Joined(old(View()), eligible, id, at) && Known(View())
    {
      var ok := Tick(eligible, at);
      if !ok {
        return Thrown;
      }
      if !eligible(id) {
        return NotConnected;
      }
      if id !in members {
        members := members[id := NewMember(policy)];
      }
      presence := presence[id := at + policy.presenceTtl];
      return Connected;
    }

    method Disconnect(id: Id)
      modifies this
      ensures View() == old(View()).(presence := old(presence) - {id})
    {
      presence := presence - {id};
    }

    method Choose(id: Id, choice: Choice) returns (outcome: Outcome)
      modifies this
      ensures id in old(members) ==> outcome == Done && View() == old(View()).(members := old(members)[id := Chosen(old(members)[id], choice)])
      ensures id !in old(members) ==> outcome == Thrown && View() == old(View())
    {
      if id !in members {
        return Thrown;
      }
      match choice {
        case SetOpen(open) => members := members[id := members[id].(open := open)];
        case Block(other) => members := members[id := members[id].(blocks := members[id].blocks + {other})];
        case Unblock(other) => members := members[id := members[id].(blocks := members[id].blocks - {other})];
      }
      return Done;
    }

    /** Counts one event in the member's totals and in its current window. */
    method Count(id: Id, direction: Direction)
      requires id in members
      modifies this
      ensures View() == old(View()).(members := old(members)[id := Counted(old(members)[id], direction, epoch)])
    {
      var member := members[id];
      var window := if epoch in member.windows then member.windows[epoch] else Window(0, 0);
      if direction == Sent {
        member := member.(sent := member.sent + 1);
        window := window.(sent := window.sent + 1);
      } else {
        member := member.(received := member.received + 1);
        window := window.(received := window.received + 1);
      }
      members := members[id := member.(windows := member.windows[epoch := window])];
    }

    /** The clock, then the gate every introduction passes. */
    method Enter(eligible: Id -> bool, a: Id, b: Id, at: nat) returns (gate: Outcome)
      requires Known(View())
      modifies this
      ensures at < old(now) ==> gate == Thrown && View() == old(View())
      ensures old(now) <= at ==> View() == Ticked(old(View()), eligible, at) && gate == Gate(View(), eligible, a, b) != Thrown
      ensures gate == Done ==> a in members && b in members && a != b
    {
      var ok := Tick(eligible, at);
      if !ok {
        return Thrown;
      }
      if !eligible(a) || !eligible(b) {
        return Ineligible;
      }
      if a == b {
        return ToSelf;
      }
      if a !in presence || b !in presence {
        return Offline;
      }
      if b in members[a].blocks || a in members[b].blocks {
        return Blocked;
      }
      return Done;
    }

    method Introduce(eligible: Id -> bool, from: Id, to: Id, at: nat) returns (outcome: Outcome)
      requires Known(View())
      modifies this
      ensures (View(), outcome) == Called(old(View()), eligible, Deed.Introduce, from, to, at)
    {
      hide Ticked, Gate;
      var gate := Enter(eligible, from, to, at);
      if gate != Done {
        return gate;
      }
      outcome := Open(from, to);
    }

    method Open(from: Id, to: Id) returns (outcome: Outcome)
      requires from in members && to in members && from != to
      modifies this
      ensures (View(), outcome) == Introduced(old(View()), from, to)
    {
      var key := Pair(from, to);
      if key in contacts {
        match contacts[key].status {
          case Replied => return Established;
          case Pending => return AlreadyPending;
          case Accepted => return AlreadyPending;
          case _ => return AlreadyContacted;
        }
      }
      if !members[to].open {
        return Closed;
      }
      var pending := |set k | k in contacts && contacts[k].to == to && contacts[k].status == Pending|;
      assert (set k | k in contacts && contacts[k].to == to && contacts[k].status == Pending) == Those(contacts, PendingTo(to));
      if pending >= policy.pendingCap {
        return InboxFull;
      }
      var imbalance := ComputeImbalance(members[from], policy);
      if imbalance >= policy.maxImbalance {
        return OutboundImbalance;
      }
      if members[from].tokens < 1 {
        return NoTokens;
      }
      Charge(from);
      members := members[to := members[to].(maxPending := Basics.Max(members[to].maxPending, pending + 1))];
      contacts := contacts[key := Contact(from, to, now + policy.requestTtl, Pending)];
      return Delivered;
    }

    method Charge(id: Id)
      requires id in members && 0 < members[id].tokens
      modifies this
      ensures View() == old(View()).(members := old(members)[id := Charged(old(members)[id], epoch)])
    {
      members := members[id := members[id].(tokens := members[id].tokens - 1)];
      Count(id, Sent);
      members := members[id := members[id].(approaches := members[id].approaches + 1)];
    }

    method Accept(eligible: Id -> bool, recipient: Id, sender: Id, at: nat) returns (outcome: Outcome)
      requires Known(View())
      modifies this
      ensures (View(), outcome) == Called(old(View()), eligible, Deed.Accept, recipient, sender, at)
    {
      hide Ticked, Gate;
      var gate := Enter(eligible, recipient, sender, at);
      if gate != Done {
        return gate;
      }
      var key := Pair(recipient, sender);
      if key !in contacts || contacts[key].from != sender || contacts[key].to != recipient {
        return Missing;
      }
      if contacts[key].status == Accepted || contacts[key].status == Replied {
        return Duplicate;
      }
      if contacts[key].status != Pending {
        return Standing(contacts[key].status);
      }
      var imbalance := ComputeImbalance(members[recipient], policy);
      if -imbalance >= policy.maxImbalance {
        return InboundImbalance;
      }
      Count(recipient, Received);
      contacts := contacts[key := contacts[key].(status := Accepted)];
      return NowAccepted;
    }

    method Reply(eligible: Id -> bool, recipient: Id, sender: Id, at: nat) returns (outcome: Outcome)
      requires Known(View())
      modifies this
      ensures (View(), outcome) == Called(old(View()), eligible, Deed.Reply, recipient, sender, at)
    {
      hide Ticked, Gate;
      var gate := Enter(eligible, recipient, sender, at);
      if gate != Done {
        return gate;
      }
      var key := Pair(recipient, sender);
      if key !in contacts || contacts[key].from != sender || contacts[key].to != recipient {
        return Missing;
      }
      if contacts[key].status == Replied {
        return Duplicate;
      }
      if contacts[key].status != Accepted {
        return Unaccepted;
      }
      Settle(recipient, sender);
      return NowReplied;
    }

    method Settle(recipient: Id, sender: Id)
      requires recipient in members && sender in members && recipient != sender && Requested(View(), recipient, sender)
      requires contacts[Pair(recipient, sender)].status == Accepted
      modifies this
      ensures View() == RepliedBy(old(View()), recipient, sender).0
    {
      hide Counted;
      var key := Pair(recipient, sender);
      Count(recipient, Sent);
      Count(sender, Received);
      members := members[sender := members[sender].(activity := true)];
      members := members[recipient := members[recipient].(activity := true)];
      contacts := contacts[key := contacts[key].(status := Replied)];
      assert members == RepliedBy(old(View()), recipient, sender).0.members;
    }

    method Decline(eligible: Id -> bool, recipient: Id, sender: Id, at: nat) returns (outcome: Outcome)
      requires Known(View())
      modifies this
      ensures (View(), outcome) == Called(old(View()), eligible, Deed.Decline, recipient, sender, at)
    {
      hide Ticked, Gate;
      var gate := Enter(eligible, recipient, sender, at);
      if gate != Done {
        return gate;
      }
      var key := Pair(recipient, sender);
      if key !in contacts || contacts[key].from != sender || contacts[key].to != recipient {
        return Missing;
      }
      if contacts[key].status != Pending {
        return Standing(contacts[key].status);
      }
      contacts := contacts[key := contacts[key].(status := Declined)];
      return NowDeclined;
    }

    method Vote(eligible: Id -> bool, id: Id, direction: int, at: nat) returns (outcome: Outcome)
      modifies this
      ensures (View(), outcome) == Balloted(old(View()), eligible, id, direction, at)
    {
      var ok := Tick(eligible, at);
      if !ok {
        return Thrown;
      }
      if !policy.voting {
        return VotingDisabled;
      }
      if direction != 1 && direction != -1 {
        return InvalidVote;
      }
      if !eligible(id) {
        return Ineligible;
      }
      if id !in presence {
        return Offline;
      }
      if id in votes {
        return AlreadyVoted;
      }
      votes := votes[id := direction];
      return Recorded;
    }

    method CountVotes()
      modifies this
      ensures View() == old(View()).(policy := Voted(old(policy), old(votes)))
    {
      if policy.voting {
        var total := TotalOf(votes);
        policy := policy.(epochGrant := Clamp(policy.epochGrant + Sign(total), policy.maxEpochGrant));
      }
    }

    method AdvanceEpoch()
      modifies this
      ensures View() == Advanced(old(View()))
    {
      hide Matured, Voted;
      CountVotes();
      votes := map[];
      epoch := epoch + 1;
      var ids := members.Keys;
      while ids != {}
        invariant ids <= old(members).Keys
        invariant View() == Advanced(old(View())).(members := members)
        invariant members == map id | id in old(members) ::
                    if id in ids then old(members)[id] else Matured(old(members)[id], policy, epoch)
        decreases ids
      {
        var id :| id in ids;
        members := members[id := Matured(members[id], policy, epoch)];
        ids := ids - {id};
      }
    }
  }

  method TotalOf(m: map<nat, int>) returns (r: int)
    ensures r == Total(m)
  {
    r := 0;
    var rest := m;
    while rest.Keys != {}
      invariant r + Total(rest) == Total(m)
      decreases |rest|
    {
      var k :| k in rest.Keys;
      TotalSplit(rest, k);
      r := r + rest[k];
      rest := rest - {k};
    }
  }
}
