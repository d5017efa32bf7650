/** A run in which a client is refused although some of the links it asks for are still stored. */
module CheckpointWitness {
  import opened Basics
  import opened Orders
  import opened Checkpoints
  import opened CheckpointTheorems

  /** Epochs of ten seconds, two links retained. */
  const CONFIG: Config := Config(0, 0, 10, 16, 7, 2)

  function Short(): Encoding { Encoding(c => 0, l => 0) }

  /** Nobody is enrolled, and the head, if any, is of an earlier epoch than `now`. */
  ghost predicate Ready(s: State, now: nat) {
    && StateOk(s) && s.db.bindings == map[]
    && s.db.floor < now && 10 <= now <= 1000 && now % 10 == 0
    && (s.chain != [] ==>
          var last := s.chain[|s.chain| - 1]; last.issuer == 0 && last.epochSeconds == 10 && last.epoch < now / 10)
  }

  lemma EmptyRoster(db: Db, now: nat)
    requires db.bindings == map[]
    ensures NextBody(db, CONFIG, now).commitments == []
  {
    assert Qualified(db, CONFIG.policy, NextBody(db, CONFIG, now).expiresAt) == {};
  }

  lemma NewEpochIsUnlinked(s: State, now: nat)
    requires Ready(s, now)
    ensures now / 10 !in s.db.links
  {
    hide ReplaysOk, BindingsOk, HeadOk, Formed, OneIssuer, Joined;
    assert forall k | 0 <= k < |s.chain| :: s.chain[k].epoch <= s.chain[|s.chain| - 1].epoch;
  }

  lemma PublishedNext(s: State, now: nat)
    requires Ready(s, now)
    ensures var t := Step(s, Publish(CONFIG, now), Short());
      && StateOk(t) && t.db.bindings == map[] && t.db.floor == now
      && t.chain == s.chain + [NextBody(s.db, CONFIG, now)] && t.first == Max(s.first, |s.chain| - 1)
      && NextBody(s.db, CONFIG, now).notBefore == now && NextBody(s.db, CONFIG, now).expiresAt == now + 10
      && (now + 10 <= 1000 ==> Ready(t, now + 10))
  {
    hide StateOk, InOrder, Newest;
    EmptyRoster(s.db, now);
    NewEpochIsUnlinked(s, now);
    PublishKeepsState(s, CONFIG, now, Short());
    if s.chain != [] {
      HeadIsLast(s);
    } else {
      NoHead(s);
    }
  }

  lemma NoHead(s: State)
    requires StateOk(s) && s.chain == []
    ensures s.db.head.None?
  {
    hide ReplaysOk, BindingsOk, ChainOk, LinksOk;
  }

  ghost function Actions(): seq<Action> {
    [Publish(CONFIG, 10), Publish(CONFIG, 20), Publish(CONFIG, 30), Publish(CONFIG, 40)]
  }

  /** After four publications the client anchored at the first is handed one link and refused. */
  lemma RefusedWithLinksLeft()
    ensures var s := Run(START, Actions(), Short());
      && |s.chain| == 4 && HeadIsCurrent(s.chain, 40)
      && |CatchUp(s, 0)| == 1 && !CatchesUp(s, 0, 40)
  {
    hide StateOk, Step, CatchesUp, CatchUp, NextBody, LinksBetween, Ready;
    StartIsReady();
    var s1 := Step(START, Actions()[0], Short());
    PublishedNext(START, 10);
    var s2 := Step(s1, Actions()[1], Short());
    PublishedNext(s1, 20);
    var s3 := Step(s2, Actions()[2], Short());
    PublishedNext(s2, 30);
    var s4 := Step(s3, Actions()[3], Short());
    PublishedNext(s3, 40);
    FourSteps(START, Actions());
    CatchUpInState(s4, 0, 40);
    OneLinkLeft(s4);
  }

  lemma StartIsReady()
    ensures Ready(START, 10)
  {
  }

  lemma OneLinkLeft(s: State)
    requires StateOk(s) && |s.chain| == 4 && s.first == 2
    ensures |CatchUp(s, 0)| == 1
  {
    hide StateOk, LinksBetween;
    LedgerLinks(s, 0);
    BetweenFacts(s.chain, 1, 3);
  }

  lemma FourSteps(s: State, a: seq<Action>)
    requires |a| == 4
    ensures Run(s, a, Short()) == Step(Step(Step(Step(s, a[0], Short()), a[1], Short()), a[2], Short()), a[3], Short())
  {
    hide Step;
    var s1 := Step(s, a[0], Short());
    var s2 := Step(s1, a[1], Short());
    var s3 := Step(s2, a[2], Short());
    var s4 := Step(s3, a[3], Short());
    assert Run(s4, a[4..], Short()) == s4;
    assert a[3..][1..] == a[4..] && Run(s3, a[3..], Short()) == s4;
    assert a[2..][1..] == a[3..] && Run(s2, a[2..], Short()) == s4;
    assert a[1..][1..] == a[2..] && Run(s1, a[1..], Short()) == s4;
  }
}
