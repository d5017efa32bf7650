/** What reaches the cache over any sequence of crashes, restarts, lost replies and failures. */
module PublisherTheorems {
  import opened Basics
  import opened Publisher

  /** One publisher lives at a time. `handed` is a history variable: everything given to the cache. */
  datatype World = World(saved: Option<Checkpoint>, memory: Option<Memory>, handed: seq<Held>)

  datatype Event =
    | Restart(now: nat, genuine: bool)
    /** The process dies; a save under way is stored or not. */
    | Crash(stored: bool)
    | Publish
    | Reserved(next: Option<nat>)
    | Encrypted(candidate: Option<Held>, now: nat)
    /** A save is stored, and its reply may be lost; a good reply means it was stored. */
    | Saved(stored: bool, ok: bool, now: nat)
    | Published(ok: bool, now: nat)
    | Retry(now: nat)
    | Expire(now: nat)
    | Close

  function Stored(w: World, stored: bool): Option<Checkpoint> {
    if stored && w.memory.Some? && w.memory.value.phase.Saving? then Some(w.memory.value.phase.checkpoint) else w.saved
  }

  function Moved(w: World, next: (Memory, Effect)): World {
    World(w.saved, Some(next.0), if next.1.HandToCache? then w.handed + [next.1.held] else w.handed)
  }

  function Step(w: World, e: Event): World {
    if w.memory.None? then
      match e
      case Restart(now, genuine) => w.(memory := Restored(w.saved, now, genuine))
      case _ => w
    else
      var m := w.memory.value;
      match e
      case Restart(_, _) => w
      case Crash(stored) => World(Stored(w, stored), None, w.handed)
      case Publish => Moved(w, StartPublish(m))
      case Reserved(next) => if m.phase == Reserving then Moved(w, AfterReserve(m, next)) else w
      case Encrypted(candidate, now) =>
        if m.phase == Encrypting && (candidate.Some? ==> candidate.value.publication.sequence == m.sequence)
        then Moved(w, AfterEncrypt(m, candidate, now)) else w
      case Saved(stored, ok, now) =>
        if m.phase.Saving? then Moved(w.(saved := Stored(w, stored || ok)), AfterSave(m, ok, now)) else w
      case Published(ok, now) => if m.phase.Publishing? then Moved(w, AfterPublish(m, ok, now)) else w
      case Retry(now) => Moved(w, StartRetry(m, now))
      case Expire(now) => Moved(w, StartExpire(m, now))
      case Close => w.(memory := Some(Shut(m)))
  }

  function Run(w: World, events: seq<Event>): World
    decreases |events|
  {
    if events == [] then w else Run(Step(w, events[0]), events[1..])
  }

  const START: World := World(None, None, [])

  /* ----- invariants ----- */

  /** Nothing at or below the last publication handed over, except that very one. */
  predicate Beyond(h: Held, last: Option<Held>) {
    last.Some? ==> h == last.value || last.value.publication.sequence < h.publication.sequence
  }

  function LastHanded(w: World): Option<Held> {
    if w.handed == [] then None else Some(w.handed[|w.handed| - 1])
  }

  /** A checkpoint that restarts safely: it reads back, remembers the floor, and its pending
      publication is the one in doubt or a newer one. */
  predicate CheckpointOk(c: Checkpoint, last: Option<Held>) {
    && (last.Some? ==> last.value.publication.sequence <= c.sequence)
    && (c.active.Some? ==> c.active.value.publication.sequence <= c.sequence)
    && (c.pending.Some? ==> c.pending.value.publication.sequence <= c.sequence && Beyond(c.pending.value, last))
    && (c.active.Some? && c.pending.Some? ==> c.active.value.publication.sequence < c.pending.value.publication.sequence)
  }

  predicate MemoryOk(m: Memory, saved: Option<Checkpoint>, last: Option<Held>) {
    && CheckpointOk(m.ToCheckpoint(), last)
    && (saved.Some? ==> saved.value.sequence <= m.sequence)
    && (m.phase == Reserving ==> m.pending.None?)
    && (m.phase == Encrypting ==>
          && m.pending.None?
          && (last.Some? ==> last.value.publication.sequence < m.sequence)
          && (m.active.Some? ==> m.active.value.publication.sequence < m.sequence))
    && (m.phase.Saving? ==>
          && CheckpointOk(m.phase.checkpoint, last) && m.phase.checkpoint.sequence == m.sequence
          && (!m.closed ==> m.phase.checkpoint.pending == m.pending))
    && (m.phase.Publishing? ==> last == Some(m.phase.candidate) && m.phase.candidate.publication.sequence <= m.sequence)
  }

  predicate HandedOk(handed: seq<Held>) {
    forall i, j | 0 <= i < j < |handed| :: handed[i] == handed[j] || handed[i].publication.sequence < handed[j].publication.sequence
  }

  ghost predicate WorldOk(w: World) {
    var last := LastHanded(w);
    && HandedOk(w.handed)
    && (last.Some? ==> w.saved.Some?)
    && (w.saved.Some? ==> CheckpointOk(w.saved.value, last))
    && (w.memory.Some? ==> MemoryOk(w.memory.value, w.saved, last))
  }

  lemma HandedGrows(handed: seq<Held>, h: Held)
    requires HandedOk(handed) && (handed != [] ==> Beyond(h, Some(handed[|handed| - 1])))
    ensures HandedOk(handed + [h])
  {
    forall i | 0 <= i < |handed|
      ensures handed[i] == h || handed[i].publication.sequence < h.publication.sequence
    {
      var last := handed[|handed| - 1];
      assert i < |handed| - 1 ==> handed[i] == last || handed[i].publication.sequence < last.publication.sequence;
    }
  }

  /** Handing over: what is handed was saved as pending first. */
  lemma SavedKeepsWorld(w: World, stored: bool, ok: bool, now: nat)
    requires WorldOk(w) && w.memory.Some? && w.memory.value.phase.Saving?
    ensures WorldOk(Step(w, Saved(stored, ok, now)))
  {
    hide HandedOk;
    var m := w.memory.value;
    if AfterSave(m, ok, now).1.HandToCache? {
      HandedGrows(w.handed, m.pending.value);
    }
  }

  /** A step that only moves the memory. */
  lemma MovedKeepsWorld(w: World, m: Memory)
    requires WorldOk(w) && w.memory.Some? && MemoryOk(m, w.saved, LastHanded(w))
    ensures WorldOk(w.(memory := Some(m)))
  {
    hide HandedOk, MemoryOk, CheckpointOk;
  }

  lemma PublishKeepsMemory(m: Memory, saved: Option<Checkpoint>, last: Option<Held>, next: Option<nat>, candidate: Option<Held>, now: nat)
    requires MemoryOk(m, saved, last)
    ensures MemoryOk(StartPublish(m).0, saved, last) && !StartPublish(m).1.HandToCache?
    ensures m.phase == Reserving ==> MemoryOk(AfterReserve(m, next).0, saved, last) && !AfterReserve(m, next).1.HandToCache?
    ensures m.phase == Encrypting && (candidate.Some? ==> candidate.value.publication.sequence == m.sequence) ==>
      MemoryOk(AfterEncrypt(m, candidate, now).0, saved, last) && !AfterEncrypt(m, candidate, now).1.HandToCache?
  {
  }

  lemma ReplyKeepsMemory(m: Memory, saved: Option<Checkpoint>, last: Option<Held>, ok: bool, now: nat)
    requires MemoryOk(m, saved, last) && m.phase.Publishing?
    ensures MemoryOk(AfterPublish(m, ok, now).0, saved, last) && !AfterPublish(m, ok, now).1.HandToCache?
  {
  }

  lemma RetryKeepsMemory(m: Memory, saved: Option<Checkpoint>, last: Option<Held>, now: nat)
    requires MemoryOk(m, saved, last)
    ensures MemoryOk(StartRetry(m, now).0, saved, last) && !StartRetry(m, now).1.HandToCache?
  {
  }

  lemma ExpiryKeepsMemory(m: Memory, saved: Option<Checkpoint>, last: Option<Held>, now: nat)
    requires MemoryOk(m, saved, last)
    ensures MemoryOk(StartExpire(m, now).0, saved, last) && !StartExpire(m, now).1.HandToCache?
    ensures MemoryOk(Shut(m), saved, last)
  {
  }

  lemma CrashKeepsWorld(w: World, e: Event)
    requires WorldOk(w) && (w.memory.None? || e.Crash?)
    ensures WorldOk(Step(w, e))
    ensures w.saved.Some? ==> Step(w, e).saved.Some? && w.saved.value.sequence <= Step(w, e).saved.value.sequence
  {
    hide HandedOk;
  }

  lemma StepKeepsWorld(w: World, e: Event)
    requires WorldOk(w)
    ensures WorldOk(Step(w, e))
    ensures w.saved.Some? ==> Step(w, e).saved.Some? && w.saved.value.sequence <= Step(w, e).saved.value.sequence
    ensures w.handed <= Step(w, e).handed
  {
    hide WorldOk, MemoryOk, StartPublish, AfterReserve, AfterEncrypt, AfterPublish, StartRetry, StartExpire, Shut, Restored;
    if w.memory.None? || e.Crash? {
      CrashKeepsWorld(w, e);
    } else if e.Saved? {
      if w.memory.value.phase.Saving? {
        SavedKeepsWorld(w, e.stored, e.ok, e.now);
        if w.saved.Some? {
          SavedFloor(w, e.stored, e.ok);
        }
      }
    } else {
      var m, last := w.memory.value, LastHanded(w);
      MemoryIsOk(w);
      match e {
        case Publish => PublishKeepsMemory(m, w.saved, last, None, None, 0);
        case Reserved(next) => PublishKeepsMemory(m, w.saved, last, next, None, 0);
        case Encrypted(candidate, now) => PublishKeepsMemory(m, w.saved, last, None, candidate, now);
        case Published(ok, now) => if m.phase.Publishing? { ReplyKeepsMemory(m, w.saved, last, ok, now); }
        case Retry(now) => RetryKeepsMemory(m, w.saved, last, now);
        case Expire(now) => ExpiryKeepsMemory(m, w.saved, last, now);
        case Close => ExpiryKeepsMemory(m, w.saved, last, 0);
        case _ =>
      }
      var after := Step(w, e);
      if after != w {
        MovedKeepsWorld(w, after.memory.value);
        assert after == w.(memory := Some(after.memory.value));
      }
    }
  }

  lemma MemoryIsOk(w: World)
    requires WorldOk(w) && w.memory.Some?
    ensures MemoryOk(w.memory.value, w.saved, LastHanded(w))
  {
  }

  lemma SavedFloor(w: World, stored: bool, ok: bool)
    requires WorldOk(w) && w.memory.Some? && w.memory.value.phase.Saving? && w.saved.Some?
    ensures Stored(w, stored || ok).Some? && w.saved.value.sequence <= Stored(w, stored || ok).value.sequence
  {
    hide HandedOk;
  }

  lemma {:induction false} RunKeepsWorld(w: World, events: seq<Event>)
    requires WorldOk(w)
    ensures WorldOk(Run(w, events))
    ensures w.saved.Some? ==> Run(w, events).saved.Some? && w.saved.value.sequence <= Run(w, events).saved.value.sequence
    ensures w.handed <= Run(w, events).handed
    decreases |events|
  {
    hide WorldOk, Step;
    if events != [] {
      StepKeepsWorld(w, events[0]);
      RunKeepsWorld(Step(w, events[0]), events[1..]);
    }
  }

  /** Everything handed to the cache under one sequence number is one publication under one
      secret, and different publications carry strictly increasing numbers. */
  lemma OnePublicationPerSequence(events: seq<Event>, i: nat, j: nat)
    requires i < j < |Run(START, events).handed|
    ensures var handed := Run(START, events).handed;
      && (handed[i].publication.sequence == handed[j].publication.sequence ==> handed[i] == handed[j])
      && (handed[i] != handed[j] ==> handed[i].publication.sequence < handed[j].publication.sequence)
  {
    hide Run;
    RunKeepsWorld(START, events);
  }

  /** The stored floor never falls, not even when an expired pending publication is dropped, and
      never lies below anything handed to the cache. */
  lemma FloorNeverFalls(events: seq<Event>, later: seq<Event>, i: nat)
    requires i < |Run(START, events).handed|
    ensures var w, v := Run(START, events), Run(Run(START, events), later);
      && w.saved.Some? && v.saved.Some? && w.saved.value.sequence <= v.saved.value.sequence
      && w.handed[i].publication.sequence <= w.saved.value.sequence
  {
    hide Run, MemoryOk;
    RunKeepsWorld(START, events);
    RunKeepsWorld(Run(START, events), later);
    var w := Run(START, events);
    assert i < |w.handed| - 1 ==> w.handed[i] == w.handed[|w.handed| - 1] || w.handed[i].publication.sequence < w.handed[|w.handed| - 1].publication.sequence;
  }

  /** Whatever was saved last, a restart with genuine publications is accepted, and a publication
      in doubt is still there to be retried unless it has expired. */
  lemma RestartAlwaysReads(events: seq<Event>, now: nat)
    ensures var w := Run(START, events);
      && Restored(w.saved, now, true).Some?
      && (w.saved.Some? && w.saved.value.pending.Some? ==>
            Restored(w.saved, now, true).value.pending == Survivor(w.saved.value.pending, now))
      && (w.saved.Some? ==> Restored(w.saved, now, true).value.sequence == w.saved.value.sequence)
  {
    hide Run, MemoryOk, HandedOk;
    StartIsOk();
    RunKeepsWorld(START, events);
  }

  lemma StartIsOk()
    ensures WorldOk(START)
  {
  }

  /* ----- what is current was given to the cache ----- */

  predicate HandedOver(h: Option<Held>, handed: seq<Held>) {
    h.Some? ==> h.value in handed
  }

  predicate ActivesHanded(w: World) {
    && (w.saved.Some? ==> HandedOver(w.saved.value.active, w.handed))
    && (w.memory.Some? ==>
          && HandedOver(w.memory.value.active, w.handed)
          && (w.memory.value.phase.Saving? ==> HandedOver(w.memory.value.phase.checkpoint.active, w.handed))
          && (w.memory.value.phase.Publishing? ==> w.memory.value.phase.candidate in w.handed))
  }

  lemma StepKeepsActives(w: World, e: Event)
    requires ActivesHanded(w)
    ensures ActivesHanded(Step(w, e))
  {
    if w.memory.Some? && e.Saved? && w.memory.value.phase.Saving? && AfterSave(w.memory.value, e.ok, e.now).1.HandToCache? {
      assert Step(w, e).handed[|w.handed|] == w.memory.value.pending.value;
      assert forall h | h in w.handed :: h in Step(w, e).handed;
    }
  }

  lemma {:induction false} RunKeepsActives(w: World, events: seq<Event>)
    requires ActivesHanded(w)
    ensures ActivesHanded(Run(w, events))
    decreases |events|
  {
    hide ActivesHanded, Step;
    if events != [] {
      StepKeepsActives(w, events[0]);
      RunKeepsActives(Step(w, events[0]), events[1..]);
    }
  }

  /** In every run the publication a publisher calls current, in memory or on disk, is one it has
      handed to the cache. */
  lemma CurrentWasHandedOver(events: seq<Event>)
    ensures var w := Run(START, events);
      && (w.memory.Some? && w.memory.value.active.Some? ==> w.memory.value.active.value in w.handed)
      && (w.saved.Some? && w.saved.value.active.Some? ==> w.saved.value.active.value in w.handed)
  {
    hide Run;
    RunKeepsActives(START, events);
  }

  /* ----- nothing stops a publisher whose waits all end well ----- */

  /** The waits of one commit end well, while the publication is fresh. */
  function Commits(times: seq<nat>): seq<Event>
    requires |times| == 3
  {
    [Saved(true, true, times[0]), Published(true, times[1]), Saved(true, true, times[2])]
  }

  /** The publication is current in memory and on disk, and nothing is in doubt. */
  predicate Settled(w: World, h: Held) {
    && w.memory.Some? && w.memory.value.phase == Idle && !w.memory.value.closed
    && w.memory.value.active == Some(h) && w.memory.value.pending.None?
    && w.saved == Some(w.memory.value.ToCheckpoint())
  }

  lemma CommitCompletes(w: World, h: Held, times: seq<nat>)
    requires |times| == 3 && Fresh(h, times[0]) && Fresh(h, times[1])
    requires w.memory.Some? && !w.memory.value.closed && w.memory.value.pending == Some(h)
    requires w.memory.value.phase == Saving(Intent, w.memory.value.ToCheckpoint())
    ensures var t := Run(w, Commits(times));
      Settled(t, h) && t.handed == w.handed + [h] && t.memory.value.sequence == w.memory.value.sequence
  {
    var e := Commits(times);
    var w1 := Step(w, e[0]);
    var w2 := Step(w1, e[1]);
    var w3 := Step(w2, e[2]);
    assert Run(w3, e[3..]) == w3;
    assert e[2..][1..] == e[3..] && Run(w2, e[2..]) == w3;
    assert e[1..][1..] == e[2..] && Run(w1, e[1..]) == w3;
  }

  /** From rest, with nothing in doubt, a reserved number above the floor and a publication that stays
      fresh while its waits end well: it becomes the current one, handed over once, under that number. */
  lemma PublishCompletes(w: World, next: nat, h: Held, now: nat, times: seq<nat>)
    requires w.memory.Some? && w.memory.value.phase == Idle && !w.memory.value.closed && w.memory.value.pending.None?
    requires w.memory.value.sequence < next <= MAX_INTEGER && h.publication.sequence == next
    requires |times| == 3 && Fresh(h, now) && Fresh(h, times[0]) && Fresh(h, times[1])
    ensures var t := Run(w, [Publish, Reserved(Some(next)), Encrypted(Some(h), now)] + Commits(times));
      Settled(t, h) && t.handed == w.handed + [h] && t.memory.value.sequence == next
  {
    hide Commits;
    var e := [Publish, Reserved(Some(next)), Encrypted(Some(h), now)] + Commits(times);
    var w1 := Step(w, e[0]);
    var w2 := Step(w1, e[1]);
    var w3 := Step(w2, e[2]);
    CommitCompletes(w3, h, times);
    assert e[3..] == Commits(times);
    assert e[2..][1..] == e[3..] && Run(w2, e[2..]) == Run(w3, e[3..]);
    assert e[1..][1..] == e[2..] && Run(w1, e[1..]) == Run(w2, e[2..]);
  }

  /** A publication left in doubt, by a crash or a lost reply, completes by a retry while it is fresh. */
  lemma RetryCompletes(w: World, h: Held, now: nat, times: seq<nat>)
    requires w.memory.Some? && w.memory.value.phase == Idle && !w.memory.value.closed && w.memory.value.pending == Some(h)
    requires |times| == 3 && Fresh(h, now) && Fresh(h, times[0]) && Fresh(h, times[1])
    ensures var t := Run(w, [Retry(now)] + Commits(times));
      Settled(t, h) && t.handed == w.handed + [h] && t.memory.value.sequence == w.memory.value.sequence
  {
    hide Commits;
    var e := [Retry(now)] + Commits(times);
    CommitCompletes(Step(w, e[0]), h, times);
    assert e[1..] == Commits(times);
  }

  /** Expiring from rest drops exactly what has expired, on disk too once the save ends well. */
  lemma ExpireCompletes(w: World, now: nat, later: nat)
    requires w.memory.Some? && w.memory.value.phase == Idle && !w.memory.value.closed
    ensures var m, t := w.memory.value, Run(w, [Expire(now), Saved(true, true, later)]);
      && t.memory.Some? && t.memory.value.phase == Idle && t.handed == w.handed && t.saved == Some(t.memory.value.ToCheckpoint())
      && t.memory.value.sequence == m.sequence
      && t.memory.value.active == (if m.active.Some? && m.active.value.publication.expiresAt <= now then None else m.active)
      && t.memory.value.pending == (if m.pending.Some? && m.pending.value.publication.expiresAt <= now then None else m.pending)
  {
    var e := [Expire(now), Saved(true, true, later)];
    var w1 := Step(w, e[0]);
    assert e[1..][1..] == [] && Run(Step(w1, e[1]), []) == Step(w1, e[1]);
    assert Run(w1, e[1..]) == Step(w1, e[1]);
  }
}
