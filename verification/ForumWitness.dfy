/** A run in which a member accepts a request and still stands further out than the gate allows. */
module ForumWitness {
  import Basics
  import opened Tallies
  import opened Forum
  import opened ForumLaws
  import opened ForumTheorems
  import opened ForumExactness

  /** Lifetime balances of at most one either way, five tokens each. */
  const POLICY: Policy := Policy(5, 0, 0, 5, 0, 0, 1, 20, 10, 100, false)

  const SIZE: nat := 7

  function Anyone(): Id -> bool { id => true }

  /** What is known of the forum while seven members are present at time 0. */
  datatype Scene = Scene(contacts: map<PairKey, Contact>, level: map<Id, int>, tokens: map<Id, int>)

  ghost predicate Shows(w: World, s: Scene) {
    var f := w.forum;
    && f.policy == POLICY && f.epoch == 0 && f.now == 0 && f.contacts == s.contacts
    && (forall id: Id | id < SIZE ::
          && id in f.presence && f.presence[id] == 100 && id in f.members && id in s.level && id in s.tokens
          && f.members[id].open && f.members[id].blocks == {}
          && f.members[id].sent - f.members[id].received == s.level[id] && f.members[id].tokens == s.tokens[id])
    && (forall k | k in s.contacts :: s.contacts[k].deadline == 10)
    && Known(f)
  }

  /** The scene stays as it is under a tick at time 0. */
  lemma TickShows(w: World, s: Scene)
    requires Shows(w, s)
    ensures Shows(w.(forum := Ticked(w.forum, Anyone(), 0)), s)
  {
  }

  lemma AllMeet(w: World, s: Scene, a: Id, b: Id)
    requires Shows(w, s) && a < SIZE && b < SIZE && a != b
    ensures Gate(Ticked(w.forum, Anyone(), 0), Anyone(), a, b) == Done
  {
  }

  lemma FewPending(contacts: map<PairKey, Contact>, to: Id)
    requires |contacts| < 20
    ensures Tally(contacts, PendingTo(to)) < 20
  {
    assert Those(contacts, PendingTo(to)) <= contacts.Keys;
    Basics.SubsetSize(Those(contacts, PendingTo(to)), contacts.Keys);
  }

  function Introducing(from: Id, to: Id): Event { Event(Call(Introduce, from, to, 0), Anyone()) }

  function Accepting(recipient: Id, sender: Id): Event { Event(Call(Accept, recipient, sender, 0), Anyone()) }

  function Replying(recipient: Id, sender: Id): Event { Event(Call(Reply, recipient, sender, 0), Anyone()) }

  function AfterIntroduction(s: Scene, from: Id, to: Id): Scene
    requires from in s.level && from in s.tokens && 0 < s.tokens[from]
  {
    Scene(s.contacts[Pair(from, to) := Contact(from, to, 10, Pending)],
          s.level[from := s.level[from] + 1], s.tokens[from := s.tokens[from] - 1])
  }

  /** How far a record's net and tokens move, everything a gate looks at besides standing still. */
  predicate Moves(m: Member, n: Member, net: int, tokens: int) {
    && n.open == m.open && n.blocks == m.blocks
    && n.sent - n.received == m.sent - m.received + net && n.tokens == m.tokens + tokens
  }

  ghost predicate SameStage(f: Forum, g: Forum) {
    && g.policy == f.policy && g.epoch == f.epoch && g.now == f.now && g.presence == f.presence && g.members.Keys == f.members.Keys
  }

  lemma IntroductionMoves(f: Forum, from: Id, to: Id)
    requires from in f.members && to in f.members && from != to && Introduced(f, from, to).1 == Delivered
    ensures var g := Introduced(f, from, to).0;
      && SameStage(f, g) && Moves(f.members[from], g.members[from], 1, -1)
      && forall id | id in f.members && id != from :: Moves(f.members[id], g.members[id], 0, 0)
  {
    hide Tally, Imbalance;
  }

  lemma ReplyMoves(f: Forum, recipient: Id, sender: Id)
    requires recipient in f.members && sender in f.members && recipient != sender && RepliedBy(f, recipient, sender).1 == NowReplied
    ensures var g := RepliedBy(f, recipient, sender).0;
      && SameStage(f, g) && Moves(f.members[recipient], g.members[recipient], 1, 0) && Moves(f.members[sender], g.members[sender], -1, 0)
      && (forall id | id in f.members && id != recipient && id != sender :: Moves(f.members[id], g.members[id], 0, 0))
      && g.contacts == f.contacts[Pair(recipient, sender) := f.contacts[Pair(recipient, sender)].(status := Replied)]
  {
  }

  /** Every member's record moves as the scene does. */
  ghost predicate AllMove(f: Forum, g: Forum, s: Scene, t: Scene) {
    forall id: Id | id < SIZE ::
      && id in f.members && id in g.members && id in s.level && id in s.tokens && id in t.level && id in t.tokens
      && Moves(f.members[id], g.members[id], t.level[id] - s.level[id], t.tokens[id] - s.tokens[id])
  }

  lemma MovedShows(w: World, s: Scene, g: Forum, t: Scene, log: seq<Exchange>)
    requires Shows(w, s) && SameStage(w.forum, g) && g.contacts == t.contacts
    requires forall k | k in t.contacts :: t.contacts[k].deadline == 10
    requires AllMove(w.forum, g, s, t)
    ensures Shows(World(g, log), t)
  {
  }

  /** A call among the members present is performed. */
  lemma CallPerforms(w: World, s: Scene, deed: Deed, a: Id, b: Id)
    requires Shows(w, s) && a < SIZE && b < SIZE && a != b
    ensures Known(w.forum) && a in w.forum.members && b in w.forum.members
    ensures var t := Ticked(w.forum, Anyone(), 0);
      && Shows(w.(forum := t), s) && a in t.members && b in t.members
      && Called(w.forum, Anyone(), deed, a, b, 0) == Performed(t, deed, a, b)
  {
    hide Performed, Ticked, Gate;
    TickShows(w, s);
    AllMeet(w, s, a, b);
  }

  lemma Seen(w: World, s: Scene, id: Id)
    requires Shows(w, s) && id < SIZE
    ensures id in w.forum.members && id in s.level && id in s.tokens && w.forum.members[id].open
    ensures w.forum.policy == POLICY && w.forum.contacts == s.contacts && w.forum.now == 0
    ensures Imbalance(w.forum.members[id], POLICY) == s.level[id] && w.forum.members[id].tokens == s.tokens[id]
    ensures forall k | k in s.contacts :: s.contacts[k].deadline == 10
    ensures forall o: Id | o < SIZE :: o in w.forum.members && o in s.level && o in s.tokens
  {
  }

  lemma IntroductionHappens(t: World, s: Scene, from: Id, to: Id)
    requires Shows(t, s) && from < SIZE && to < SIZE && from != to && from in t.forum.members && to in t.forum.members
    requires from in s.level && from in s.tokens
    requires Pair(from, to) !in s.contacts && |s.contacts| < 20 && s.level[from] < 1 && 0 < s.tokens[from]
    ensures var (g, outcome) := Introduced(t.forum, from, to);
      outcome == Delivered && g.contacts == AfterIntroduction(s, from, to).contacts
  {
    hide Tally, Introduced, Imbalance, Shows;
    Seen(t, s, from);
    Seen(t, s, to);
    FewPending(s.contacts, to);
    IntroducedDecides(t.forum, from, to);
  }

  lemma IntroductionMovesAll(t: World, s: Scene, from: Id, to: Id)
    requires Shows(t, s) && from < SIZE && to < SIZE && from != to && from in s.level && from in s.tokens && 0 < s.tokens[from]
    requires from in t.forum.members && to in t.forum.members && Introduced(t.forum, from, to).1 == Delivered
    ensures var g := Introduced(t.forum, from, to).0; SameStage(t.forum, g) && AllMove(t.forum, g, s, AfterIntroduction(s, from, to))
  {
    hide Introduced, Shows, Imbalance;
    Seen(t, s, from);
    IntroductionMoves(t.forum, from, to);
  }

  lemma Introduces(w: World, s: Scene, from: Id, to: Id)
    requires Shows(w, s) && from < SIZE && to < SIZE && from != to && from in s.level && from in s.tokens
    requires Pair(from, to) !in s.contacts && |s.contacts| < 20 && s.level[from] < 1 && 0 < s.tokens[from]
    ensures Known(w.forum) && Shows(Step(w, Introducing(from, to)), AfterIntroduction(s, from, to))
  {
    hide Ticked, Introduced, Known, Called, Shows, SameStage, Imbalance, AllMove;
    var t := w.(forum := Ticked(w.forum, Anyone(), 0));
    CallPerforms(w, s, Introduce, from, to);
    Seen(t, s, from);
    IntroductionHappens(t, s, from, to);
    IntroductionMovesAll(t, s, from, to);
    MovedShows(t, s, Introduced(t.forum, from, to).0, AfterIntroduction(s, from, to), Step(w, Introducing(from, to)).log);
  }

  function AfterAcceptance(s: Scene, recipient: Id, sender: Id): Scene
    requires recipient in s.level
  {
    Scene(s.contacts[Pair(recipient, sender) := Contact(sender, recipient, 10, Accepted)],
          s.level[recipient := s.level[recipient] - 1], s.tokens)
  }

  lemma AcceptanceMoves(f: Forum, recipient: Id, sender: Id)
    requires recipient in f.members && AcceptedBy(f, recipient, sender).1 == NowAccepted
    ensures var g := AcceptedBy(f, recipient, sender).0;
      && SameStage(f, g) && Moves(f.members[recipient], g.members[recipient], -1, 0)
      && forall id | id in f.members && id != recipient :: Moves(f.members[id], g.members[id], 0, 0)
  {
    hide Imbalance;
  }

  lemma AcceptanceMovesAll(t: World, s: Scene, recipient: Id, sender: Id)
    requires Shows(t, s) && recipient < SIZE && recipient in s.level
    requires recipient in t.forum.members && AcceptedBy(t.forum, recipient, sender).1 == NowAccepted
    ensures var g := AcceptedBy(t.forum, recipient, sender).0;
      SameStage(t.forum, g) && AllMove(t.forum, g, s, AfterAcceptance(s, recipient, sender))
  {
    hide AcceptedBy, Shows, Imbalance;
    Seen(t, s, recipient);
    AcceptanceMoves(t.forum, recipient, sender);
  }

  lemma Accepts(w: World, s: Scene, recipient: Id, sender: Id)
    requires Shows(w, s) && recipient < SIZE && sender < SIZE && recipient != sender
    requires recipient in s.level && -1 < s.level[recipient]
    requires Pair(recipient, sender) in s.contacts && s.contacts[Pair(recipient, sender)] == Contact(sender, recipient, 10, Pending)
    ensures Known(w.forum) && Called(w.forum, Anyone(), Accept, recipient, sender, 0).1 == NowAccepted
    ensures Shows(Step(w, Accepting(recipient, sender)), AfterAcceptance(s, recipient, sender))
  {
    hide Ticked, AcceptedBy, Imbalance, Known, Called, Shows, SameStage, AllMove;
    var t := w.(forum := Ticked(w.forum, Anyone(), 0));
    CallPerforms(w, s, Accept, recipient, sender);
    Seen(t, s, recipient);
    Seen(t, s, sender);
    AcceptedDecides(t.forum, recipient, sender);
    AcceptanceMovesAll(t, s, recipient, sender);
    MovedShows(t, s, AcceptedBy(t.forum, recipient, sender).0, AfterAcceptance(s, recipient, sender), Step(w, Accepting(recipient, sender)).log);
  }

  function AfterReply(s: Scene, recipient: Id, sender: Id): Scene
    requires recipient in s.level && sender in s.level
  {
    Scene(s.contacts[Pair(recipient, sender) := Contact(sender, recipient, 10, Replied)],
          s.level[recipient := s.level[recipient] + 1][sender := s.level[sender] - 1], s.tokens)
  }

  lemma ReplyMovesAll(t: World, s: Scene, recipient: Id, sender: Id)
    requires Shows(t, s) && recipient < SIZE && sender < SIZE && recipient != sender && recipient in s.level && sender in s.level
    requires recipient in t.forum.members && sender in t.forum.members && RepliedBy(t.forum, recipient, sender).1 == NowReplied
    ensures var g := RepliedBy(t.forum, recipient, sender).0;
      && SameStage(t.forum, g) && AllMove(t.forum, g, s, AfterReply(s, recipient, sender))
      && g.contacts == t.forum.contacts[Pair(recipient, sender) := t.forum.contacts[Pair(recipient, sender)].(status := Replied)]
  {
    hide RepliedBy, Shows, Imbalance;
    Seen(t, s, recipient);
    ReplyMoves(t.forum, recipient, sender);
  }

  lemma Replies(w: World, s: Scene, recipient: Id, sender: Id)
    requires Shows(w, s) && recipient < SIZE && sender < SIZE && recipient != sender && recipient in s.level && sender in s.level
    requires Pair(recipient, sender) in s.contacts && s.contacts[Pair(recipient, sender)] == Contact(sender, recipient, 10, Accepted)
    ensures Known(w.forum) && Shows(Step(w, Replying(recipient, sender)), AfterReply(s, recipient, sender))
  {
    hide Ticked, RepliedBy, Known, Called, Shows, SameStage, AllMove;
    var t := w.(forum := Ticked(w.forum, Anyone(), 0));
    CallPerforms(w, s, Reply, recipient, sender);
    Seen(t, s, recipient);
    Seen(t, s, sender);
    AnsweredDecides(t.forum, recipient, sender);
    ReplyMovesAll(t, s, recipient, sender);
    MovedShows(t, s, RepliedBy(t.forum, recipient, sender).0, AfterReply(s, recipient, sender), Step(w, Replying(recipient, sender)).log);
  }

  /* ----- the run ----- */

  ghost predicate Assembled(w: World, n: nat) {
    var f := w.forum;
    && f.policy == POLICY && f.epoch == 0 && f.now == 0 && f.contacts == map[]
    && (forall id: Id | id < n ::
          && id in f.presence && f.presence[id] == 100 && id in f.members
          && f.members[id].open && f.members[id].blocks == {}
          && f.members[id].sent - f.members[id].received == 0 && f.members[id].tokens == 5)
    && (forall id | id in f.members :: id < n)
    && Known(f)
  }

  function Arriving(id: Id): Event { Event(Connect(id, 0), Anyone()) }

  function Arrivals(n: nat): seq<Event> {
    if n == 0 then [] else Arrivals(n - 1) + [Arriving(n - 1)]
  }

  lemma Joins(w: World, n: nat)
    requires Assembled(w, n)
    ensures Assembled(Step(w, Arriving(n)), n + 1)
  {
    assert Ticked(w.forum, Anyone(), 0).contacts == map[];
  }

  lemma {:induction false} RunAppend(w: World, events: seq<Event>, e: Event)
    requires Known(w.forum)
    ensures Known(Run(w, events).forum) && Run(w, events + [e]) == Step(Run(w, events), e)
    decreases |events|
  {
    hide Step, Known;
    if events == [] {
      RunOfOne(w, e);
    } else {
      StepKeepsKnown(w, events[0]);
      assert (events + [e])[1..] == events[1..] + [e];
      RunAppend(Step(w, events[0]), events[1..], e);
    }
  }

  lemma RunOfOne(w: World, e: Event)
    requires Known(w.forum)
    ensures Run(w, []) == w && Run(w, [] + [e]) == Step(w, e)
  {
    hide Step, Known;
    StepKeepsKnown(w, e);
    assert ([] + [e])[1..] == [];
    assert Run(Step(w, e), []) == Step(w, e);
  }

  lemma Extend(events: seq<Event>, e: Event)
    ensures Known(Reached(POLICY, events).forum) && Reached(POLICY, events + [e]) == Step(Reached(POLICY, events), e)
  {
    hide Step, Run;
    RunAppend(Start(POLICY), events, e);
  }

  lemma {:induction false} AllArrive(n: nat)
    ensures Assembled(Reached(POLICY, Arrivals(n)), n)
  {
    hide Step, Assembled, Known;
    if n == 0 {
      NobodyYet();
    } else {
      AllArrive(n - 1);
      Extend(Arrivals(n - 1), Arriving(n - 1));
      Joins(Reached(POLICY, Arrivals(n - 1)), n - 1);
    }
  }

  lemma NobodyYet()
    ensures Assembled(Reached(POLICY, []), 0)
  {
  }

  const STAGE: Scene := Scene(
    map[], map[0 := 0, 1 := 0, 2 := 0, 3 := 0, 4 := 0, 5 := 0, 6 := 0], map[0 := 5, 1 := 5, 2 := 5, 3 := 5, 4 := 5, 5 := 5, 6 := 5])

  lemma AssembledShows(w: World)
    requires Assembled(w, SIZE)
    ensures Shows(w, STAGE)
  {
  }

  datatype Move = Ask(from: Id, to: Id) | Take(recipient: Id, sender: Id) | Answer(recipient: Id, sender: Id) {
    function Who(): Id { if Ask? then from else recipient }

    function Whom(): Id { if Ask? then to else sender }

    function Event(): Event {
      match this
      case Ask(from, to) => Introducing(from, to)
      case Take(recipient, sender) => Accepting(recipient, sender)
      case Answer(recipient, sender) => Replying(recipient, sender)
    }
  }

  predicate Whole(s: Scene) {
    forall id: Id | id < SIZE :: id in s.level && id in s.tokens
  }

  /** The move succeeds in this scene. */
  predicate Able(s: Scene, m: Move) {
    && Whole(s) && m.Who() < SIZE && m.Whom() < SIZE && m.Who() != m.Whom()
    && var k := Pair(m.Who(), m.Whom());
       match m
       case Ask(from, _) => k !in s.contacts && |s.contacts| < 20 && s.level[from] < 1 && 0 < s.tokens[from]
       case Take(recipient, sender) => k in s.contacts && s.contacts[k] == Contact(sender, recipient, 10, Pending) && -1 < s.level[recipient]
       case Answer(recipient, sender) => k in s.contacts && s.contacts[k] == Contact(sender, recipient, 10, Accepted)
  }

  function After(s: Scene, m: Move): Scene
    requires Able(s, m)
  {
    match m
    case Ask(from, to) => AfterIntroduction(s, from, to)
    case Take(recipient, sender) => AfterAcceptance(s, recipient, sender)
    case Answer(recipient, sender) => AfterReply(s, recipient, sender)
  }

  predicate AllAble(s: Scene, moves: seq<Move>)
    decreases |moves|
  {
    moves == [] || (Able(s, moves[0]) && AllAble(After(s, moves[0]), moves[1..]))
  }

  function AfterAll(s: Scene, moves: seq<Move>): Scene
    requires AllAble(s, moves)
    decreases |moves|
  {
    if moves == [] then s else AfterAll(After(s, moves[0]), moves[1..])
  }

  function Events(moves: seq<Move>): seq<Event> {
    if moves == [] then [] else [moves[0].Event()] + Events(moves[1..])
  }

  lemma Plays(w: World, s: Scene, m: Move)
    requires Shows(w, s) && Able(s, m)
    ensures Known(w.forum) && Shows(Step(w, m.Event()), After(s, m))
  {
    hide Shows, Step, Known, AfterIntroduction, AfterAcceptance, AfterReply, Introducing, Accepting, Replying;
    match m {
      case Ask(from, to) => Introduces(w, s, from, to);
      case Take(recipient, sender) => Accepts(w, s, recipient, sender);
      case Answer(recipient, sender) => Replies(w, s, recipient, sender);
    }
  }

  lemma {:induction false} PlaysAll(events: seq<Event>, s: Scene, moves: seq<Move>)
    requires Shows(Reached(POLICY, events), s) && AllAble(s, moves)
    ensures Shows(Reached(POLICY, events + Events(moves)), AfterAll(s, moves))
    decreases |moves|
  {
    hide Reached, Shows, Step, Known, Able, After;
    if moves == [] {
      assert events + [] == events;
    } else {
      var e := moves[0].Event();
      Plays(Reached(POLICY, events), s, moves[0]);
      Extend(events, e);
      PlaysAll(events + [e], After(s, moves[0]), moves[1..]);
      assert events + [e] + Events(moves[1..]) == events + ([e] + Events(moves[1..]));
    }
  }

  /** Member 0's contacts, net and tokens, and members that have done nothing yet. */
  ghost predicate Stands(s: Scene, contacts: map<PairKey, Contact>, net: int, tokens: int, idle: set<Id>) {
    && Whole(s) && s.contacts == contacts && s.level[0] == net && s.tokens[0] == tokens
    && forall id | id in idle :: id < SIZE && id != 0 && s.level[id] == 0 && s.tokens[id] == 5
  }

  lemma StrangerAsks(s: Scene, c: map<PairKey, Contact>, net: int, tokens: int, idle: set<Id>, id: Id)
    requires Stands(s, c, net, tokens, idle) && id in idle && Pair(id, 0) !in c && |c| < 20
    ensures Able(s, Ask(id, 0))
    ensures Stands(After(s, Ask(id, 0)), c[Pair(id, 0) := Contact(id, 0, 10, Pending)], net, tokens, idle - {id})
  {
  }

  lemma ZeroAsks(s: Scene, c: map<PairKey, Contact>, net: int, tokens: int, idle: set<Id>, id: Id)
    requires Stands(s, c, net, tokens, idle) && 0 < id < SIZE && Pair(0, id) !in c && |c| < 20 && net < 1 && 0 < tokens
    ensures Able(s, Ask(0, id))
    ensures Stands(After(s, Ask(0, id)), c[Pair(0, id) := Contact(0, id, 10, Pending)], net + 1, tokens - 1, idle)
  {
  }

  lemma ZeroTakes(s: Scene, c: map<PairKey, Contact>, net: int, tokens: int, idle: set<Id>, id: Id)
    requires Stands(s, c, net, tokens, idle) && 0 < id < SIZE && -1 < net
    requires Pair(0, id) in c && c[Pair(0, id)] == Contact(id, 0, 10, Pending)
    ensures Able(s, Take(0, id))
    ensures Stands(After(s, Take(0, id)), c[Pair(0, id) := Contact(id, 0, 10, Accepted)], net - 1, tokens, idle)
  {
  }

  lemma ZeroAnswers(s: Scene, c: map<PairKey, Contact>, net: int, tokens: int, id: Id)
    requires Stands(s, c, net, tokens, {}) && 0 < id < SIZE
    requires Pair(0, id) in c && c[Pair(0, id)] == Contact(id, 0, 10, Accepted)
    ensures Able(s, Answer(0, id))
    ensures Stands(After(s, Answer(0, id)), c[Pair(0, id) := Contact(id, 0, 10, Replied)], net + 1, tokens, {})
  {
  }

  /** Three members ask member 0, which asks another before each of two acceptances, asks a third,
      and answers the two. */
  function Script(): seq<Move> {
    [Ask(1, 0), Ask(2, 0), Ask(3, 0), Ask(0, 4), Take(0, 1), Ask(0, 5), Take(0, 2), Ask(0, 6), Answer(0, 1), Answer(0, 2)]
  }

  function Play(): seq<Event> { Arrivals(SIZE) + Events(Script()) }

  /** Plays the moves from the `i`th on. */
  ghost predicate Playable(s: Scene, i: nat) {
    i <= |Script()| && AllAble(s, Script()[i..])
  }

  lemma OneMore(s: Scene, i: nat)
    requires i < |Script()| && Able(s, Script()[i]) && Playable(After(s, Script()[i]), i + 1)
    ensures Playable(s, i) && AfterAll(s, Script()[i..]) == AfterAll(After(s, Script()[i]), Script()[i + 1..])
  {
    hide Able, After, Script;
    assert Script()[i..][1..] == Script()[i + 1..] && Script()[i..][0] == Script()[i];
  }

  function Three(): map<PairKey, Contact> {
    map[Pair(1, 0) := Contact(1, 0, 10, Pending), Pair(2, 0) := Contact(2, 0, 10, Pending), Pair(3, 0) := Contact(3, 0, 10, Pending)]
  }

  lemma TheyAsk() returns (s1: Scene, s2: Scene, s3: Scene)
    ensures Able(STAGE, Ask(1, 0)) && s1 == After(STAGE, Ask(1, 0))
    ensures Able(s1, Ask(2, 0)) && s2 == After(s1, Ask(2, 0))
    ensures Able(s2, Ask(3, 0)) && s3 == After(s2, Ask(3, 0))
    ensures Stands(s3, Three(), 0, 5, {})
  {
    hide Able, After, Stands;
    var c1 := map[Pair(1, 0) := Contact(1, 0, 10, Pending)];
    var c2 := c1[Pair(2, 0) := Contact(2, 0, 10, Pending)];
    StageStands();
    StrangerAsks(STAGE, map[], 0, 5, {1, 2, 3}, 1);
    s1 := After(STAGE, Ask(1, 0));
    assert map[][Pair(1, 0) := Contact(1, 0, 10, Pending)] == c1;
    StrangerAsks(s1, c1, 0, 5, {1, 2, 3} - {1}, 2);
    s2 := After(s1, Ask(2, 0));
    StrangerAsks(s2, c2, 0, 5, {1, 2, 3} - {1} - {2}, 3);
    s3 := After(s2, Ask(3, 0));
    assert {1, 2, 3} - {1} - {2} - {3} == {};
    assert c2[Pair(3, 0) := Contact(3, 0, 10, Pending)] == Three();
  }

  lemma StageStands()
    ensures Stands(STAGE, map[], 0, 5, {1, 2, 3})
  {
  }

  /** After member 0 has asked three and accepted two. */
  function Six(c: map<PairKey, Contact>): map<PairKey, Contact> {
    c[Pair(0, 4) := Contact(0, 4, 10, Pending)][Pair(0, 1) := Contact(1, 0, 10, Accepted)]
     [Pair(0, 5) := Contact(0, 5, 10, Pending)][Pair(0, 2) := Contact(2, 0, 10, Accepted)]
     [Pair(0, 6) := Contact(0, 6, 10, Pending)]
  }

  /** Member 0 asks `j` and then takes the request of `i`. */
  lemma AskAndTake(s: Scene, c: map<PairKey, Contact>, tokens: int, j: Id, i: Id) returns (asked: Scene, taken: Scene)
    requires Stands(s, c, 0, tokens, {}) && 0 < i < SIZE && 0 < j < SIZE && |c| < 20 && 0 < tokens
    requires Pair(0, j) !in c && Pair(0, i) in c && c[Pair(0, i)] == Contact(i, 0, 10, Pending)
    ensures Able(s, Ask(0, j)) && asked == After(s, Ask(0, j))
    ensures Able(asked, Take(0, i)) && taken == After(asked, Take(0, i))
    ensures Stands(taken, Exchanged(c, j, i), 0, tokens - 1, {})
  {
    hide Able, After, Stands;
    ZeroAsks(s, c, 0, tokens, {}, j);
    asked := After(s, Ask(0, j));
    ZeroTakes(asked, c[Pair(0, j) := Contact(0, j, 10, Pending)], 1, tokens - 1, {}, i);
    taken := After(asked, Take(0, i));
  }

  function Exchanged(c: map<PairKey, Contact>, j: Id, i: Id): map<PairKey, Contact> {
    c[Pair(0, j) := Contact(0, j, 10, Pending)][Pair(0, i) := Contact(i, 0, 10, Accepted)]
  }

  /** Who waits for member 0 and whom it has not met. */
  predicate Open(c: map<PairKey, Contact>, waiting: set<Id>, unmet: set<Id>) {
    && |c| < 20
    && (forall id | id in waiting :: Pair(0, id) in c && c[Pair(0, id)] == Contact(id, 0, 10, Pending))
    && (forall id | id in unmet :: Pair(0, id) !in c)
  }

  lemma ThreeAreOpen()
    ensures Open(Three(), {1, 2, 3}, {4, 5, 6}) && |Three()| <= 3
  {
  }

  lemma ExchangedIsOpen(c: map<PairKey, Contact>, waiting: set<Id>, unmet: set<Id>, j: Id, i: Id)
    requires Open(c, waiting, unmet) && |c| < 18 && 0 < i && 0 < j && j !in waiting && i !in unmet
    ensures Open(Exchanged(c, j, i), waiting - {i}, unmet - {j}) && |Exchanged(c, j, i)| <= |c| + 2
  {
  }

  lemma ZeroBalances(s3: Scene) returns (s4: Scene, s5: Scene, s6: Scene, s7: Scene, s8: Scene)
    requires Stands(s3, Three(), 0, 5, {})
    ensures Able(s3, Ask(0, 4)) && s4 == After(s3, Ask(0, 4))
    ensures Able(s4, Take(0, 1)) && s5 == After(s4, Take(0, 1))
    ensures Able(s5, Ask(0, 5)) && s6 == After(s5, Ask(0, 5))
    ensures Able(s6, Take(0, 2)) && s7 == After(s6, Take(0, 2))
    ensures Able(s7, Ask(0, 6)) && s8 == After(s7, Ask(0, 6))
    ensures Stands(s8, Six(Three()), 1, 2, {})
  {
    hide Able, After, Stands, Three, Exchanged;
    var c3 := Three();
    var c5 := Exchanged(c3, 4, 1);
    var c7 := Exchanged(c5, 5, 2);
    ThreeAreOpen();
    ExchangedIsOpen(c3, {1, 2, 3}, {4, 5, 6}, 4, 1);
    ExchangedIsOpen(c5, {1, 2, 3} - {1}, {4, 5, 6} - {4}, 5, 2);
    s4, s5 := AskAndTake(s3, c3, 5, 4, 1);
    s6, s7 := AskAndTake(s5, c5, 4, 5, 2);
    ZeroAsks(s7, c7, 0, 3, {}, 6);
    s8 := After(s7, Ask(0, 6));
    SixIsExchanged(c3);
  }

  lemma SixIsExchanged(c: map<PairKey, Contact>)
    ensures Six(c) == Exchanged(Exchanged(c, 4, 1), 5, 2)[Pair(0, 6) := Contact(0, 6, 10, Pending)]
  {
  }

  function Eight(c: map<PairKey, Contact>): map<PairKey, Contact> {
    c[Pair(0, 1) := Contact(1, 0, 10, Replied)][Pair(0, 2) := Contact(2, 0, 10, Replied)]
  }

  lemma ZeroReplies(s8: Scene) returns (s9: Scene, s10: Scene)
    requires Stands(s8, Six(Three()), 1, 2, {})
    ensures Able(s8, Answer(0, 1)) && s9 == After(s8, Answer(0, 1))
    ensures Able(s9, Answer(0, 2)) && s10 == After(s9, Answer(0, 2))
    ensures Stands(s10, Eight(Six(Three())), 3, 2, {})
  {
    hide Able, After, Stands;
    var c8 := Six(Three());
    ZeroAnswers(s8, c8, 1, 2, 1);
    s9 := After(s8, Answer(0, 1));
    ZeroAnswers(s9, c8[Pair(0, 1) := Contact(1, 0, 10, Replied)], 2, 2, 2);
    s10 := After(s9, Answer(0, 2));
  }

  lemma ScriptPlays() returns (last: Scene)
    ensures AllAble(STAGE, Script()) && last == AfterAll(STAGE, Script())
    ensures Stands(last, Eight(Six(Three())), 3, 2, {})
  {
    hide Able, After, Stands, Three, Six, Eight, AllAble, AfterAll;
    var s1, s2, s3 := TheyAsk();
    var s4, s5, s6, s7, s8 := ZeroBalances(s3);
    var s9, s10 := ZeroReplies(s8);
    last := s10;
    var scenes, m := [STAGE, s1, s2, s3, s4, s5, s6, s7, s8, s9, s10], Script();
    EndOfScript(s10);
    OneMore(s9, 9);
    OneMore(s8, 8);
    OneMore(s7, 7);
    OneMore(s6, 6);
    OneMore(s5, 5);
    OneMore(s4, 4);
    OneMore(s3, 3);
    OneMore(s2, 2);
    OneMore(s1, 1);
    OneMore(STAGE, 0);
    assert m[0..] == m;
  }

  lemma EndOfScript(s: Scene)
    ensures Playable(s, |Script()|) && AfterAll(s, Script()[|Script()|..]) == s
  {
    assert Script()[|Script()|..] == [];
  }

  /** Member 0 accepts the third request at a net of three and is left at two, beyond the maximum of one. */
  lemma AcceptedBeyondTheMaximum()
    ensures Known(Reached(POLICY, Play()).forum)
    ensures var w := Reached(POLICY, Play());
      && Called(w.forum, Anyone(), Accept, 0, 3, 0).1 == NowAccepted
      && Recent(w, POLICY, 0) == 3 && Recent(Step(w, Accepting(0, 3)), POLICY, 0) == 2 > POLICY.maxImbalance
  {
    hide Reached, Step, Shows, Known, Called, Script, Arrivals, Events, AllAble, AfterAll, Recent;
    AllArrive(SIZE);
    AssembledShows(Reached(POLICY, Arrivals(SIZE)));
    var last := ScriptPlays();
    PlaysAll(Arrivals(SIZE), STAGE, Script());
    var w := Reached(POLICY, Play());
    ThirdStillWaits(last);
    Accepts(w, last, 0, 3);
    Seen(w, last, 0);
    ImbalanceIsRecent(POLICY, Play(), 0);
    OneLess(w);
  }

  lemma ThirdStillWaits(s: Scene)
    requires Stands(s, Eight(Six(Three())), 3, 2, {})
    ensures Pair(0, 3) in s.contacts && s.contacts[Pair(0, 3)] == Contact(3, 0, 10, Pending) && 0 in s.level && s.level[0] == 3
  {
  }

  lemma OneLess(w: World)
    requires Known(w.forum) && Called(w.forum, Anyone(), Accept, 0, 3, 0).1 == NowAccepted
    ensures Recent(Step(w, Accepting(0, 3)), POLICY, 0) == Recent(w, POLICY, 0) - 1
  {
    hide Called, Recent;
    CallKeepsEpoch(w.forum, Anyone(), Accept, 0, 3, 0);
    RecentMoves(w, Step(w, Accepting(0, 3)), POLICY, 0, Exchange(0, w.forum.epoch, -1, false));
  }
}
