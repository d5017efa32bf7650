/** Exactly which updates the board stores, told by the updates stored before. */
module BoardExactness {
  import opened Basics
  import opened Onion
  import opened Board
  import opened BoardTheorems

  /** The device's last stored update is still within one lease of its acceptance. */
  predicate Remembered(log: seq<Accepted>, l: Limits, k: Key, now: U64) {
    Last(log, k).Some? && now < Last(log, k).value.at + l.maxLeaseSeconds
  }

  function RememberedKeys(log: seq<Accepted>, l: Limits, now: U64): set<Key> {
    set i | 0 <= i < |log| && Remembered(log, l, log[i].presence.update.Key(), now) :: log[i].presence.update.Key()
  }

  /** The devices whose last stored update has an endpoint and is unexpired. */
  function OnlineKeys(log: seq<Accepted>, now: U64): set<Key> {
    set i | 0 <= i < |log| && Last(log, log[i].presence.update.Key()).Some?
      && Live(Last(log, log[i].presence.update.Key()).value.presence.update, now) :: log[i].presence.update.Key()
  }

  /** Both credentials are in force for this device of this community and verify, and so does the
      update, which is timely, short, and outlives neither. */
  predicate Presentable(s: Submission, trust: Trust, l: Limits, now: U64) {
    var p, u, c := s.presence, s.presence.update, s.checks;
    && Credited(p, trust) && IsScope(trust.communityId)
    && p.grant.version == 1 && 0 < p.grant.issuedAt <= now < p.grant.expiresAt <= MAX_INTEGER
    && p.grant.policyDigest == trust.policyDigest && p.grant.issuerKeyId == trust.issuerKeyId
    && p.authorization.version == 1 && 0 < p.authorization.issuedAt <= now < p.authorization.expiresAt <= MAX_INTEGER
    && 0 < u.sequence <= MAX_INTEGER && 0 < u.issuedAt <= now < u.expiresAt <= u.issuedAt + l.maxLeaseSeconds
    && c.admits(p.grant) && c.rooted(p.authorization) && c.authorizes(p.authorization) && c.signs(u).Ok?
  }

  /** Next to everyone else online the device finds room. */
  predicate FindsRoom(log: seq<Accepted>, u: Update, l: Limits, now: U64) {
    var others := OnlineKeys(log, now) - {u.Key()};
    && |DevicesOf(others, u.memberId)| < l.maxDevicesPerMember
    && (u.memberId in MembersOf(others) || |MembersOf(others)| < l.maxMembers)
  }

  lemma PresentableIsVerified(s: Submission, trust: Trust, l: Limits, now: U64)
    requires l.Valid()
    ensures Presentable(s, trust, l, now) <==> Verified(s, trust, l, now).Ok?
  {
    hide IsScope, Validates;
  }

  lemma {:induction false} LastIsLogged(log: seq<Accepted>, k: Key)
    ensures Last(log, k).Some? <==> exists i :: 0 <= i < |log| && log[i].presence.update.Key() == k
  {
    if log != [] {
      var n := |log|;
      var earlier := log[..n - 1];
      LastIsLogged(earlier, k);
      if i :| 0 <= i < n && log[i].presence.update.Key() == k && i < n - 1 {
        assert earlier[i] == log[i];
      }
      if i :| 0 <= i < |earlier| && earlier[i].presence.update.Key() == k {
        assert log[i].presence.update.Key() == k;
      }
    }
  }

  /** After a tick the rows are those of the remembered devices. */
  lemma TickedRows(w: World, trust: Trust, l: Limits, now: U64, k: Key)
    requires WorldOk(w, trust, l) && Ticked(w.board, now).Ok?
    ensures var rows := Ticked(w.board, now).value.entries;
      && (k in rows <==> Remembered(w.log, l, k, now))
      && (k in rows ==> rows[k].presence == Last(w.log, k).value.presence)
  {
    hide CapsOk, LogOk, Last;
    assert RowOk(w, l, k);
  }

  lemma TickedRowsAre(w: World, trust: Trust, l: Limits, now: U64)
    requires WorldOk(w, trust, l) && Ticked(w.board, now).Ok?
    ensures Ticked(w.board, now).value.entries.Keys == RememberedKeys(w.log, l, now)
    ensures Online(Ticked(w.board, now).value.entries, now) == OnlineKeys(w.log, now)
  {
    hide WorldOk, Last, Live, Ticked;
    var rows := Ticked(w.board, now).value.entries;
    forall k
      ensures k in rows <==> k in RememberedKeys(w.log, l, now)
      ensures k in Online(rows, now) <==> k in OnlineKeys(w.log, now)
    {
      TickedRows(w, trust, l, now, k);
      LastIsLogged(w.log, k);
      if Last(w.log, k).Some? {
        LiveIsRemembered(w, trust, l, now, k);
        var i :| 0 <= i < |w.log| && w.log[i].presence.update.Key() == k;
        assert w.log[i].presence.update.Key() == k;
      }
    }
  }

  lemma LiveIsRemembered(w: World, trust: Trust, l: Limits, now: U64, k: Key)
    requires WorldOk(w, trust, l) && Last(w.log, k).Some?
    ensures Live(Last(w.log, k).value.presence.update, now) ==> Remembered(w.log, l, k, now)
  {
    hide CapsOk, RowOk, FloorHeld, Forward, Last, Credited;
    LastIsTimely(w, l, k);
  }

  lemma StoredDecides(b: State, s: Submission, l: Limits, now: U64)
    requires now <= MAX_INTEGER && l.Valid()
    ensures var u := s.presence.update;
      var done := Stored(b, s, l, now).1;
      && (done == Ok(true) <==>
            && (if u.Key() in b.entries then b.entries[u.Key()].presence.update.sequence < u.sequence else |b.entries| < l.maxReplayEntries)
            && (u.endpoint.Some? ==> HasRoom(b.entries, u, l, now)))
      && (done == Ok(false) <==>
            && u.Key() in b.entries && b.entries[u.Key()].presence.update == u)
  {
    hide HasRoom;
  }

  /** In every run an update is stored if and only if it is presentable on a clock that has not gone
      back, its sequence is above the remembered one or the board has room to remember it, and an
      online device finds room; the remembered update itself is accepted again without effect. */
  lemma StoredExactly(actions: seq<Action>, trust: Trust, l: Limits, s: Submission, now: U64)
    requires l.Valid()
    ensures var w, u := Run(START, actions, trust, l), s.presence.update;
      var done := Applied(w.board, s, trust, l, now).1;
      var heard := Presentable(s, trust, l, now) && w.board.lastNow <= now;
      var last := if Remembered(w.log, l, u.Key(), now) then Some(Last(w.log, u.Key()).value.presence.update) else None;
      && (done == Ok(true) <==>
            && heard
            && (if last.Some? then last.value.sequence < u.sequence else |RememberedKeys(w.log, l, now)| < l.maxReplayEntries)
            && (u.endpoint.Some? ==> FindsRoom(w.log, u, l, now)))
      && (done == Ok(false) <==> heard && last == Some(u))
  {
    hide Run, WorldOk, Verified, Stored, Presentable, Last, RememberedKeys, OnlineKeys, DevicesOf, MembersOf;
    EveryRunIsOk(actions, trust, l);
    PresentableIsVerified(s, trust, l, now);
    var w, u := Run(START, actions, trust, l), s.presence.update;
    if Verified(s, trust, l, now).Ok? && Ticked(w.board, now).Ok? {
      var b := Ticked(w.board, now).value;
      TickedRowsAre(w, trust, l, now);
      TickedRows(w, trust, l, now, u.Key());
      assert |b.entries| == |b.entries.Keys|;
      StoredDecides(b, s, l, now);
    } else {
      PresentedInTime(s, trust, l, now);
    }
  }

  lemma PresentedInTime(s: Submission, trust: Trust, l: Limits, now: U64)
    ensures Presentable(s, trust, l, now) ==> now <= MAX_INTEGER
  {
    hide IsScope, Validates;
  }
}
