/** An epoch is active for a member exactly when a first reply of its was made in it. */
module ForumActivity {
  import opened Forum
  import opened ForumLaws
  import opened ForumTheorems

  ghost predicate Replying(log: seq<Exchange>, id: Id, e: nat) {
    exists x :: x in log && x.member == id && x.epoch == e && x.reply
  }

  /** Epochs before `n` in which the member took part in a first reply. */
  ghost function ActiveEpochs(log: seq<Exchange>, id: Id, n: nat): nat {
    if n == 0 then 0 else ActiveEpochs(log, id, n - 1) + if Replying(log, id, n - 1) then 1 else 0
  }

  ghost predicate ActivityOk(w: World, id: Id)
    requires id in w.forum.members
  {
    && (w.forum.members[id].activity <==> Replying(w.log, id, w.forum.epoch))
    && w.forum.members[id].activeEpochs == ActiveEpochs(w.log, id, w.forum.epoch)
  }

  ghost predicate AllActive(w: World) {
    forall id | id in w.forum.members :: ActivityOk(w, id)
  }

  /** Later events leave the count of past epochs alone. */
  lemma {:induction false} PastEpochsStand(log: seq<Exchange>, more: seq<Exchange>, id: Id, n: nat)
    requires forall x | x in more :: n <= x.epoch
    ensures ActiveEpochs(log + more, id, n) == ActiveEpochs(log, id, n)
  {
    if n > 0 {
      PastEpochsStand(log, more, id, n - 1);
      if Replying(log, id, n - 1) {
        var x :| x in log && x.member == id && x.epoch == n - 1 && x.reply;
        assert x in log + more;
      }
    }
  }

  lemma {:induction false} NobodyActive(log: seq<Exchange>, id: Id, n: nat)
    requires forall x | x in log :: x.member != id
    ensures ActiveEpochs(log, id, n) == 0
  {
    if n > 0 {
      NobodyActive(log, id, n - 1);
    }
  }

  /** What a deed does to the two fields. */
  lemma DeedFields(f: Forum, deed: Deed, a: Id, b: Id, id: Id)
    requires a in f.members && b in f.members && a != b && id in f.members
    ensures var (g, outcome) := Performed(f, deed, a, b);
      && id in g.members && g.members[id].activeEpochs == f.members[id].activeEpochs
      && (g.members[id].activity <==> f.members[id].activity || (outcome == NowReplied && (id == a || id == b)))
  {
    hide Tally, Imbalance;
  }

  lemma DeedKeepsActivity(w: World, deed: Deed, a: Id, b: Id)
    requires a in w.forum.members && b in w.forum.members && a != b && AllActive(w)
    ensures var (g, outcome) := Performed(w.forum, deed, a, b); AllActive(World(g, w.log + Exchanges(outcome, a, b, w.forum.epoch)))
  {
    hide Performed, ActiveEpochs;
    var (g, outcome) := Performed(w.forum, deed, a, b);
    var more := Exchanges(outcome, a, b, w.forum.epoch);
    PerformedFrame(w.forum, deed, a, b);
    forall id | id in g.members
      ensures ActivityOk(World(g, w.log + more), id)
    {
      assert ActivityOk(w, id);
      DeedFields(w.forum, deed, a, b, id);
      PastEpochsStand(w.log, more, id, w.forum.epoch);
      ReplyingAfter(w.log, outcome, a, b, w.forum.epoch, id);
    }
  }

  lemma ReplyingAfter(log: seq<Exchange>, outcome: Outcome, a: Id, b: Id, epoch: nat, id: Id)
    ensures Replying(log + Exchanges(outcome, a, b, epoch), id, epoch)
      <==> Replying(log, id, epoch) || (outcome == NowReplied && (id == a || id == b))
  {
    var more := Exchanges(outcome, a, b, epoch);
    if Replying(log, id, epoch) {
      var x :| x in log && x.member == id && x.epoch == epoch && x.reply;
      assert x in log + more;
    }
    if outcome == NowReplied {
      assert more[0] in log + more && more[1] in log + more;
    }
  }

  lemma CallKeepsActivity(w: World, eligible: Id -> bool, deed: Deed, a: Id, b: Id, now: nat)
    requires Known(w.forum) && AllActive(w)
    ensures AllActive(Step(w, Event(Call(deed, a, b, now), eligible)))
  {
    hide Ticked, Performed, ActivityOk;
    assert w.log + [] == w.log;
    if w.forum.now <= now {
      var t := w.(forum := Ticked(w.forum, eligible, now));
      TickedFacts(w.forum, eligible, now);
      SameFieldsSameActivity(w, t);
      if Gate(t.forum, eligible, a, b) == Done {
        DeedKeepsActivity(t, deed, a, b);
      }
    }
  }

  lemma SameFieldsSameActivity(w: World, v: World)
    requires AllActive(w) && v.forum.members == w.forum.members && v.forum.epoch == w.forum.epoch && v.log == w.log
    ensures AllActive(v)
  {
    forall id | id in v.forum.members
      ensures ActivityOk(v, id)
    {
      assert ActivityOk(w, id);
    }
  }

  lemma JoinKeepsActivity(w: World, eligible: Id -> bool, who: Id, now: nat)
    requires LogOk(w) && AllActive(w)
    ensures AllActive(w.(forum := Joined(w.forum, eligible, who, now).0))
  {
    hide Ticked;
    TickedFacts(w.forum, eligible, now);
    var after := w.(forum := Joined(w.forum, eligible, who, now).0);
    forall id | id in after.forum.members
      ensures ActivityOk(after, id)
    {
      if id in w.forum.members {
        assert ActivityOk(w, id);
      } else {
        NobodyActive(w.log, id, w.forum.epoch);
      }
    }
  }

  lemma AdvanceKeepsActivity(w: World)
    requires LogOk(w) && AllActive(w)
    ensures AllActive(w.(forum := Advanced(w.forum)))
  {
    hide Voted;
    var after := w.(forum := Advanced(w.forum));
    forall id | id in after.forum.members
      ensures ActivityOk(after, id)
    {
      assert ActivityOk(w, id);
      assert ActiveEpochs(w.log, id, w.forum.epoch + 1) == ActiveEpochs(w.log, id, w.forum.epoch) + if Replying(w.log, id, w.forum.epoch) then 1 else 0;
    }
  }

  lemma ChoiceKeepsActivity(w: World, who: Id, choice: Choice)
    requires AllActive(w) && who in w.forum.members
    ensures AllActive(w.(forum := w.forum.(members := w.forum.members[who := Chosen(w.forum.members[who], choice)])))
  {
    var after := w.(forum := w.forum.(members := w.forum.members[who := Chosen(w.forum.members[who], choice)]));
    forall id | id in after.forum.members
      ensures ActivityOk(after, id)
    {
      assert ActivityOk(w, id);
    }
  }

  lemma StepKeepsActivity(w: World, e: Event)
    requires Known(w.forum) && LogOk(w) && AllActive(w)
    ensures AllActive(Step(w, e))
  {
    hide AllActive, LogOk, Joined, Ticked, Called, Advanced, Chosen, Exchanges;
    match e.action {
      case Connect(id, now) => JoinKeepsActivity(w, e.eligible, id, now);
      case Disconnect(id) => SameFieldsSameActivity(w, Step(w, e));
      case Roster(now) => TickedFacts(w.forum, e.eligible, now); SameFieldsSameActivity(w, Step(w, e));
      case Choose(id, choice) => if id in w.forum.members { ChoiceKeepsActivity(w, id, choice); }
      case Call(deed, a, b, now) => CallKeepsActivity(w, e.eligible, deed, a, b, now);
      case Vote(id, direction, now) => TickedFacts(w.forum, e.eligible, now); SameFieldsSameActivity(w, Step(w, e));
      case AdvanceEpoch => AdvanceKeepsActivity(w);
    }
  }

  lemma {:induction false} RunKeepsActivity(w: World, events: seq<Event>)
    requires Known(w.forum) && WorldOk(w) && AllActive(w)
    ensures AllActive(Run(w, events))
    decreases |events|
  {
    hide AllActive, Step, ForumOk, WindowsOk, LogOk;
    if events != [] {
      StepKeepsKnown(w, events[0]);
      StepKeepsWorld(w, events[0]);
      StepKeepsActivity(w, events[0]);
      RunKeepsActivity(Step(w, events[0]), events[1..]);
    }
  }

  /** In every run a member's active epochs are the epochs, and its activity flag the current one,
      in which it made or received a first reply. */
  lemma ActivityIsReplying(policy: Policy, events: seq<Event>, id: Id)
    requires policy.Valid() && id in Reached(policy, events).forum.members
    ensures var w := Reached(policy, events);
      && (w.forum.members[id].activity <==> Replying(w.log, id, w.forum.epoch))
      && w.forum.members[id].activeEpochs == ActiveEpochs(w.log, id, w.forum.epoch)
  {
    hide Run;
    RunKeepsActivity(Start(policy), events);
    assert ActivityOk(Reached(policy, events), id);
  }
}
