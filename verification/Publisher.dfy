/** The crash-safe profile publisher: one operation at a time, suspended at every wait.

    Each method is the code between two awaits; its effect says what is awaited next. */
module Publisher {
  import opened Basics

  datatype Publication = Publication(sequence: nat, issuedAt: nat, expiresAt: nat, body: nat)

  /** A publication with the secret that opens it. */
  datatype Held = Held(publication: Publication, secret: nat)

  datatype Checkpoint = Checkpoint(sequence: nat, active: Option<Held>, pending: Option<Held>)

  /** Why a checkpoint is being saved. */
  datatype Purpose = Intent | Completion | Other

  datatype Phase = Idle | Reserving | Encrypting | Saving(purpose: Purpose, checkpoint: Checkpoint) | Publishing(candidate: Held)

  datatype Memory = Memory(active: Option<Held>, pending: Option<Held>, sequence: nat, phase: Phase, closed: bool) {
    function ToCheckpoint(): Checkpoint { Checkpoint(sequence, active, pending) }

    /** What a wait may rely on when it ends: an open publisher saves what it holds, hands over what
        it holds as pending, and starts a new publication only when none is in doubt. */
    predicate Coherent() {
      && (closed ==> active.None? && pending.None?)
      && (phase == Reserving || phase == Encrypting ==> pending.None?)
      && (phase.Saving? && !closed ==>
            && phase.checkpoint == ToCheckpoint()
            && (phase.purpose == Intent ==> pending.Some?)
            && (phase.purpose == Completion ==> pending.None? && active.Some?))
      && (phase.Publishing? && !closed ==> pending == Some(phase.candidate))
    }
  }

  datatype Effect =
    | Finished
    | Rejected
    | Reserve(after: nat)
    | Encrypt(sequence: nat)
    | Save(checkpoint: Checkpoint)
    | HandToCache(held: Held)

  predicate Fresh(h: Held, now: nat) {
    0 < h.publication.issuedAt <= now < h.publication.expiresAt <= MAX_INTEGER
  }

  /* ----- restart ----- */

  function Survivor(h: Option<Held>, now: nat): Option<Held> {
    if h.Some? && h.value.publication.expiresAt <= now then None else h
  }

  /** `genuine` is what verifying the surviving publications said. */
  function Restored(saved: Option<Checkpoint>, now: nat, genuine: bool): Option<Memory> {
    if saved.None? then Some(Memory(None, None, 0, Idle, false))
    else
      var c := saved.value;
      var active, pending := Survivor(c.active, now), Survivor(c.pending, now);
      if (active.Some? || pending.Some?) && !genuine then None
      else if active.Some? && c.sequence < active.value.publication.sequence then None
      else if pending.Some? && c.sequence < pending.value.publication.sequence then None
      else if active.Some? && pending.Some? && pending.value.publication.sequence <= active.value.publication.sequence then None
      else Some(Memory(active, pending, c.sequence, Idle, false))
  }

  /* ----- between waits ----- */

  function Aborted(m: Memory): (Memory, Effect) {
    (m.(phase := Idle), Rejected)
  }

  function StartPublish(m: Memory): (Memory, Effect) {
    if m.closed || m.phase != Idle || m.pending.Some? then (m, Rejected) else (m.(phase := Reserving), Reserve(m.sequence))
  }

  function AfterReserve(m: Memory, next: Option<nat>): (Memory, Effect) {
    if next.None? || next.value == 0 || next.value > MAX_INTEGER || m.closed || next.value <= m.sequence then Aborted(m)
    else (m.(sequence := next.value, phase := Encrypting), Encrypt(next.value))
  }

  function StartCommit(m: Memory, now: nat): (Memory, Effect) {
    if m.pending.None? || !Fresh(m.pending.value, now) then Aborted(m)
    else (m.(phase := Saving(Intent, m.ToCheckpoint())), Save(m.ToCheckpoint()))
  }

  function AfterEncrypt(m: Memory, candidate: Option<Held>, now: nat): (Memory, Effect) {
    if candidate.None? || m.closed then Aborted(m) else StartCommit(m.(pending := candidate), now)
  }

  function AfterSave(m: Memory, ok: bool, now: nat): (Memory, Effect)
    requires m.phase.Saving?
  {
    if !ok then Aborted(m)
    else if m.phase.purpose != Intent then (m.(phase := Idle), Finished)
    else if m.closed || m.pending.None? || !Fresh(m.pending.value, now) then Aborted(m)
    else (m.(phase := Publishing(m.pending.value)), HandToCache(m.pending.value))
  }

  function AfterPublish(m: Memory, ok: bool, now: nat): (Memory, Effect)
    requires m.phase.Publishing?
  {
    if !ok || m.closed || !Fresh(m.phase.candidate, now) then Aborted(m)
    else
      var done := m.(active := Some(m.phase.candidate), pending := None);
      (done.(phase := Saving(Completion, done.ToCheckpoint())), Save(done.ToCheckpoint()))
  }

  function StartRetry(m: Memory, now: nat): (Memory, Effect) {
    if m.closed || m.phase != Idle then (m, Rejected)
    else if m.pending.Some? then StartCommit(m, now)
    else if m.active.None? then (m, Rejected)
    else (m.(phase := Saving(Other, m.ToCheckpoint())), Save(m.ToCheckpoint()))
  }

  function StartExpire(m: Memory, now: nat): (Memory, Effect) {
    if m.closed || m.phase != Idle then (m, Rejected)
    else
      var left := m.(active := Survivor(m.active, now), pending := Survivor(m.pending, now));
      (left.(phase := Saving(Other, left.ToCheckpoint())), Save(left.ToCheckpoint()))
  }

  function Shut(m: Memory): Memory {
    m.(closed := true, active := None, pending := None)
  }

  class ProfilePublisher {
    var active: Option<Held>
    var pending: Option<Held>
    var sequence: nat
    var phase: Phase
    var closed: bool

    function View(): Memory
      reads this
    {
      Memory(active, pending, sequence, phase, closed)
    }

    predicate Coherent()
      reads this
    {
      View().Coherent()
    }

    constructor (m: Memory)
      requires m.Coherent()
      ensures View() == m && Coherent()
    {
      active, pending, sequence, phase, closed := m.active, m.pending, m.sequence, m.phase, m.closed;
    }

    static method Restore(saved: Option<Checkpoint>, now: nat, genuine: bool) returns (p: Option<ProfilePublisher>)
      ensures p.None? <==> Restored(saved, now, genuine).None?
      ensures p.Some? ==> fresh(p.value) && p.value.Coherent() && Some(p.value.View()) == Restored(saved, now, genuine)
      ensures p.Some? && saved.Some? ==> p.value.sequence == saved.value.sequence
      ensures p.Some? && p.value.active.Some? ==>
        p.value.active == saved.value.active && now < p.value.active.value.publication.expiresAt
      ensures p.Some? && p.value.pending.Some? ==>
        && p.value.pending == saved.value.pending && now < p.value.pending.value.publication.expiresAt
        && p.value.pending.value.publication.sequence <= p.value.sequence
      ensures p.Some? && p.value.active.Some? ==> genuine && p.value.active.value.publication.sequence <= p.value.sequence
      ensures p.Some? && p.value.active.Some? && p.value.pending.Some? ==>
        p.value.active.value.publication.sequence < p.value.pending.value.publication.sequence
    {
      var active, pending, sequence := None, None, 0;
      if saved.Some? {
        sequence := saved.value.sequence;
        active := Survivor(saved.value.active, now);
        pending := Survivor(saved.value.pending, now);
        if (active.Some? || pending.Some?) && !genuine {
          return None;
        }
        if active.Some? && active.value.publication.sequence > sequence {
          return None;
        }
        if pending.Some? && pending.value.publication.sequence > sequence {
          return None;
        }
        if pending.Some? && active.Some? && pending.value.publication.sequence <= active.value.publication.sequence {
          return None;
        }
      }
      var publisher := new ProfilePublisher(Memory(active, pending, sequence, Idle, false));
      return Some(publisher);
    }

    method Publish() returns (e: Effect)
      requires Coherent()
      modifies this
      ensures (View(), e) == StartPublish(old(View()))
      ensures Coherent()
      ensures e.Reserve? ==> e.after == sequence && old(pending).None? && !closed
      ensures active == old(active) && pending == old(pending) && sequence == old(sequence)
    {
      if closed || phase != Idle || pending.Some? {
        return Rejected;
      }
      phase := Reserving;
      return Reserve(sequence);
    }

    method OnReserved(next: Option<nat>) returns (e: Effect)
      requires Coherent() && phase == Reserving
      modifies this
      ensures (View(), e) == AfterReserve(old(View()), next)
      ensures Coherent()
      ensures if e.Encrypt? then old(sequence) < sequence == e.sequence <= MAX_INTEGER else sequence == old(sequence)
      ensures active == old(active) && pending.None?
    {
      if next.None? || next.value == 0 || next.value > MAX_INTEGER || closed || next.value <= sequence {
        phase := Idle;
        return Rejected;
      }
      sequence := next.value;
      phase := Encrypting;
      return Encrypt(sequence);
    }

    method OnEncrypted(candidate: Option<Held>, now: nat) returns (e: Effect)
      requires Coherent() && phase == Encrypting
      modifies this
      ensures (View(), e) == AfterEncrypt(old(View()), candidate, now)
      ensures Coherent()
      ensures e.Save? ==>
        candidate.Some? && Fresh(candidate.value, now) && e.checkpoint == Checkpoint(old(sequence), old(active), candidate)
      ensures active == old(active) && sequence == old(sequence) && !e.HandToCache?
    {
      if candidate.None? || closed {
        phase := Idle;
        return Rejected;
      }
      pending := candidate;
      e := CommitPending(now);
    }

    method CommitPending(now: nat) returns (e: Effect)
      requires !closed && (phase == Encrypting || phase == Idle)
      modifies this
      ensures (View(), e) == StartCommit(old(View()), now)
      ensures Coherent()
      ensures e.Save? ==> pending.Some? && Fresh(pending.value, now) && e.checkpoint == View().ToCheckpoint()
      ensures active == old(active) && pending == old(pending) && sequence == old(sequence) && !e.HandToCache?
    {
      if pending.None? || !Fresh(pending.value, now) {
        phase := Idle;
        return Rejected;
      }
      var checkpoint := Checkpoint(sequence, active, pending);
      phase := Saving(Intent, checkpoint);
      return Save(checkpoint);
    }

    method OnSaved(ok: bool, now: nat) returns (e: Effect)
      requires phase.Saving?
      requires Coherent()
      modifies this
      ensures (View(), e) == AfterSave(old(View()), ok, now)
      ensures Coherent()
      ensures e.HandToCache? ==>
        ok && !closed && Fresh(e.held, now) && old(phase.purpose) == Intent && old(phase.checkpoint).pending == Some(e.held)
      ensures active == old(active) && pending == old(pending) && sequence == old(sequence)
    {
      if !ok {
        phase := Idle;
        return Rejected;
      }
      if phase.purpose != Intent {
        phase := Idle;
        return Finished;
      }
      if closed || pending.None? || !Fresh(pending.value, now) {
        phase := Idle;
        return Rejected;
      }
      phase := Publishing(pending.value);
      return HandToCache(pending.value);
    }

    method OnPublished(ok: bool, now: nat) returns (e: Effect)
      requires phase.Publishing?
      requires Coherent()
      modifies this
      ensures (View(), e) == AfterPublish(old(View()), ok, now)
      ensures Coherent()
      ensures e.Save? ==>
        && ok && old(pending) == Some(old(phase.candidate))
        && e.checkpoint == View().ToCheckpoint() == Checkpoint(old(sequence), old(pending), None)
      ensures !e.Save? ==> active == old(active) && pending == old(pending) && sequence == old(sequence)
    {
      var candidate := phase.candidate;
      if !ok || closed || !Fresh(candidate, now) {
        phase := Idle;
        return Rejected;
      }
      active, pending := Some(candidate), None;
      var checkpoint := Checkpoint(sequence, active, pending);
      phase := Saving(Completion, checkpoint);
      return Save(checkpoint);
    }

    method RetryPending(now: nat) returns (e: Effect)
      requires Coherent()
      modifies this
      ensures (View(), e) == StartRetry(old(View()), now)
      ensures Coherent()
      ensures e.Save? ==> e.checkpoint == View().ToCheckpoint() && (pending.Some? ==> Fresh(pending.value, now))
      ensures active == old(active) && pending == old(pending) && sequence == old(sequence) && !e.HandToCache?
    {
      if closed || phase != Idle {
        return Rejected;
      }
      if pending.Some? {
        e := CommitPending(now);
        return;
      }
      if active.None? {
        return Rejected;
      }
      var checkpoint := Checkpoint(sequence, active, pending);
      phase := Saving(Other, checkpoint);
      return Save(checkpoint);
    }

    method Expire(now: nat) returns (e: Effect)
      requires Coherent()
      modifies this
      ensures (View(), e) == StartExpire(old(View()), now)
      ensures Coherent()
      ensures e.Save? ==>
        && e.checkpoint == View().ToCheckpoint()
        && (active.Some? ==> now < active.value.publication.expiresAt)
        && (pending.Some? ==> now < pending.value.publication.expiresAt)
      ensures sequence == old(sequence)
      ensures active == old(active) || (active.None? && old(active).Some? && old(active).value.publication.expiresAt <= now)
      ensures pending == old(pending) || (pending.None? && old(pending).Some? && old(pending).value.publication.expiresAt <= now)
    {
      if closed || phase != Idle {
        return Rejected;
      }
      if active.Some? && active.value.publication.expiresAt <= now {
        active := None;
      }
      if pending.Some? && pending.value.publication.expiresAt <= now {
        pending := None;
      }
      var checkpoint := Checkpoint(sequence, active, pending);
      phase := Saving(Other, checkpoint);
      return Save(checkpoint);
    }

    method Close()
      requires Coherent()
      modifies this
      ensures View() == Shut(old(View()))
      ensures Coherent() && sequence == old(sequence)
    {
      closed := true;
      active, pending := None, None;
    }
  }
}
