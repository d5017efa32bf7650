/** Enrollment bindings and the published chain of checkpoints, in one database. One community.

    A digest is represented by the body it hashes, a signature by its key and what it signs. */
module Checkpoints {
  import opened Basics
  import opened Orders

  type MemberId = nat
  type Commitment = nat

  const CAPACITY := 129
  const MAX_CHECKPOINT_BYTES := 32_768
  const MAX_LINK_BYTES := 2_048
  const MAX_LINKS := 4096
  const MAX_EPOCH_SECONDS := 2_678_400

  /** A positive integer the runtime holds exactly. */
  predicate Positive(n: int) { 0 < n <= MAX_INTEGER }

  datatype Body = Body(
    issuer: nat, policy: nat, epochSeconds: nat, epoch: nat, notBefore: nat, expiresAt: nat,
    minAnonymity: nat, depth: nat, previous: Option<Body>, commitments: seq<Commitment>)

  datatype LinkBody = LinkBody(issuer: nat, epoch: nat, previous: Option<Body>, digest: Body)

  datatype Signature = OfCheckpoint(key: nat, body: Body) | OfLink(key: nat, link: LinkBody) | Other(noise: nat)

  datatype Checkpoint = Checkpoint(body: Body, digest: Body, signature: Signature)

  datatype Link = Link(body: LinkBody, signature: Signature)

  /** Encoded lengths. */
  datatype Encoding = Encoding(checkpoint: Checkpoint -> nat, link: Link -> nat) {
    predicate Fits(b: Body) {
      checkpoint(Signed(b)) <= MAX_CHECKPOINT_BYTES && link(LinkTo(b)) <= MAX_LINK_BYTES
    }
  }

  datatype Config = Config(policy: nat, issuer: nat, epochSeconds: nat, minAnonymity: nat, depth: nat, maxRetainedLinks: nat) {
    predicate Valid() {
      && 0 < epochSeconds <= MAX_EPOCH_SECONDS && 0 < maxRetainedLinks <= MAX_LINKS
      && 16 <= minAnonymity <= 128 && depth == 7
    }
  }

  /** What the canonical encoding of a checkpoint insists on. */
  predicate WellFormed(b: Body) {
    && 0 < b.epochSeconds <= MAX_EPOCH_SECONDS
    && Positive(b.epoch) && Positive(b.notBefore) && Positive(b.expiresAt)
    && b.notBefore / b.epochSeconds == b.epoch && b.expiresAt == (b.epoch + 1) * b.epochSeconds && b.notBefore < b.expiresAt
    && 16 <= b.minAnonymity <= 128 && b.depth == 7
    && |b.commitments| <= CAPACITY && Rising([0] + b.commitments)
  }

  /* ----- the database ----- */

  datatype Challenge = Challenge(memberId: MemberId, commitment: Commitment, nonce: nat, issuedAt: nat, expiresAt: nat)

  datatype Db = Db(
    floor: nat,
    bindings: map<MemberId, Commitment>,
    replays: map<nat, nat>,
    qualifications: map<(MemberId, nat), nat>,
    head: Option<Checkpoint>,
    links: map<nat, Link>)

  const EMPTY: Db := Db(0, map[], map[], map[], None, map[])

  function Owners(bindings: map<MemberId, Commitment>, c: Commitment): set<MemberId> {
    set m | m in bindings && bindings[m] == c
  }

  /** `Err` rolls back; `false` commits the clock and the pruning alone. */
  function Bound(db: Db, c: Challenge, policy: nat, validUntil: nat, now: nat): Result<(Db, bool)> {
    var _ :- Need(Positive(c.issuedAt) && Positive(c.expiresAt) && c.issuedAt < c.expiresAt && 0 < c.commitment, InvalidInput);
    var _ :- Need(Positive(validUntil) && c.expiresAt <= validUntil, InvalidInput);
    if !Positive(now) || now < db.floor || now < c.issuedAt || now >= c.expiresAt then Ok((db, false))
    else
      var pruned := db.(floor := now, replays := map n | n in db.replays && now < db.replays[n] :: db.replays[n]);
      if c.nonce in pruned.replays then Ok((pruned, false))
      else if (c.memberId in db.bindings && db.bindings[c.memberId] != c.commitment)
        || Owners(db.bindings, c.commitment) - {c.memberId} != {}
      then Ok((pruned, false))
      else
        var key := (c.memberId, policy);
        Ok((pruned.(
              bindings := db.bindings[c.memberId := c.commitment],
              qualifications := db.qualifications[key := if key in db.qualifications then Max(db.qualifications[key], validUntil) else validUntil],
              replays := pruned.replays[c.nonce := c.expiresAt]),
            true))
  }

  function Qualified(db: Db, policy: nat, expiresAt: nat): set<Commitment> {
    set m | m in db.bindings && (m, policy) in db.qualifications && expiresAt <= db.qualifications[(m, policy)] :: db.bindings[m]
  }

  function Signed(b: Body): Checkpoint {
    Checkpoint(b, b, OfCheckpoint(b.issuer, b))
  }

  function LinkTo(b: Body): Link {
    var link := LinkBody(b.issuer, b.epoch, b.previous, b);
    Link(link, OfLink(b.issuer, link))
  }

  function NewerThan(links: map<nat, Link>, e: nat): set<nat> {
    set d | d in links && e < d
  }

  /** The `n` newest links. */
  function Newest(links: map<nat, Link>, n: nat): map<nat, Link> {
    map e | e in links && |NewerThan(links, e)| < n :: links[e]
  }

  ghost function NextBody(db: Db, c: Config, now: nat): Body
    requires c.Valid()
  {
    var epoch := now / c.epochSeconds;
    var expiresAt := (epoch + 1) * c.epochSeconds;
    Body(c.issuer, c.policy, c.epochSeconds, epoch, now, expiresAt, c.minAnonymity, c.depth,
         if db.head.Some? then Some(db.head.value.digest) else None,
         InOrder(Qualified(db, c.policy, expiresAt)))
  }

  ghost function Published(db: Db, c: Config, now: nat, enc: Encoding): Result<(Db, Checkpoint)>
    requires c.Valid()
  {
    var b := NextBody(db, c, now);
    var _ :- Need(Positive(now) && db.floor <= now && Positive(b.epoch) && Positive(b.expiresAt), ClockRollback);
    var _ :- Need(db.head.Some? ==>
      db.head.value.body.issuer == c.issuer && db.head.value.body.epochSeconds == c.epochSeconds && db.head.value.body.epoch <= b.epoch, ClockRollback);
    if db.head.Some? && db.head.value.body.epoch == b.epoch then
      var head := db.head.value;
      var _ :- Need(head.body.policy == c.policy && head.body.minAnonymity == c.minAnonymity && head.body.depth == c.depth, PolicyMismatch);
      Ok((db.(floor := now), head))
    else
      var _ :- Need(|b.commitments| <= CAPACITY, Capacity);
      var _ :- Need(enc.Fits(b), InvalidInput);
      var _ :- Need(b.epoch !in db.links, Storage);
      Ok((db.(floor := now,
              qualifications := map k | k in db.qualifications && now < db.qualifications[k] :: db.qualifications[k],
              head := Some(Signed(b)),
              links := Newest(db.links[b.epoch := LinkTo(b)], c.maxRetainedLinks)),
          Signed(b)))
  }

  /** The stored links strictly between two epochs, oldest first. */
  ghost function LinksBetween(db: Db, after: nat, before: nat): seq<Link> {
    Listed(db.links, InOrder(set e | e in db.links && after < e < before))
  }

  function Listed(links: map<nat, Link>, epochs: seq<nat>): seq<Link> {
    if epochs == [] then []
    else (if epochs[0] in links then [links[epochs[0]]] else []) + Listed(links, epochs[1..])
  }

  method Collect(links: map<nat, Link>, epochs: seq<nat>) returns (result: seq<Link>)
    ensures result == Listed(links, epochs)
  {
    result := [];
    var i := 0;
    assert epochs[0..] == epochs;
    while i < |epochs|
      invariant 0 <= i <= |epochs|
      invariant result + Listed(links, epochs[i..]) == Listed(links, epochs)
    {
      assert epochs[i..][0] == epochs[i] && epochs[i..][1..] == epochs[i + 1..];
      if epochs[i] in links {
        result := result + [links[epochs[i]]];
      }
      i := i + 1;
    }
  }

  class EnrollmentLedger {
    var floor: nat
    var bindings: map<MemberId, Commitment>
    var replays: map<nat, nat>
    var qualifications: map<(MemberId, nat), nat>
    var head: Option<Checkpoint>
    var links: map<nat, Link>

    function View(): Db
      reads this
    {
      Db(floor, bindings, replays, qualifications, head, links)
    }

    constructor ()
      ensures View() == EMPTY
    {
      floor, bindings, replays, qualifications, head, links := 0, map[], map[], map[], None, map[];
    }

    method Bind(c: Challenge, policy: nat, validUntil: nat, now: nat) returns (result: Result<bool>)
      modifies this
      ensures match Bound(old(View()), c, policy, validUntil, now)
              case Ok((db, bound)) => View() == db && result == Ok(bound)
              case Err(e) => View() == old(View()) && result == Err(e)
    {
      if !Positive(c.issuedAt) || !Positive(c.expiresAt) || c.expiresAt <= c.issuedAt || c.commitment == 0
        || !Positive(validUntil) || validUntil < c.expiresAt {
        return Err(InvalidInput);
      }
      if !Positive(now) || now < floor || now < c.issuedAt || now >= c.expiresAt {
        return Ok(false);
      }
      floor := now;
      replays := map n | n in replays && now < replays[n] :: replays[n];
      if c.nonce in replays {
        return Ok(false);
      }
      if (c.memberId in bindings && bindings[c.memberId] != c.commitment) || Owners(bindings, c.commitment) - {c.memberId} != {} {
        return Ok(false);
      }
      bindings := bindings[c.memberId := c.commitment];
      var key := (c.memberId, policy);
      qualifications := qualifications[key := if key in qualifications then Max(qualifications[key], validUntil) else validUntil];
      replays := replays[c.nonce := c.expiresAt];
      return Ok(true);
    }

    method Publish(c: Config, now: nat, enc: Encoding) returns (result: Result<Checkpoint>)
      requires c.Valid()
      modifies this
      ensures match Published(old(View()), c, now, enc)
              case Ok((db, checkpoint)) => View() == db && result == Ok(checkpoint)
              case Err(e) => View() == old(View()) && result == Err(e)
    {
      hide InOrder, Newest;
      var epoch := now / c.epochSeconds;
      var expiresAt := (epoch + 1) * c.epochSeconds;
      ghost var b := NextBody(View(), c, now);
      if !Positive(now) || now < floor || !Positive(epoch) || !Positive(expiresAt) {
        return Err(ClockRollback);
      }
      if head.Some? && (head.value.body.issuer != c.issuer || head.value.body.epochSeconds != c.epochSeconds || epoch < head.value.body.epoch) {
        return Err(ClockRollback);
      }
      if head.Some? && epoch == head.value.body.epoch {
        if head.value.body.policy != c.policy || head.value.body.minAnonymity != c.minAnonymity || head.value.body.depth != c.depth {
          return Err(PolicyMismatch);
        }
        floor := now;
        return Ok(head.value);
      }
      var commitments := Sort(Qualified(View(), c.policy, expiresAt));
      if |commitments| > CAPACITY {
        return Err(Capacity);
      }
      var body := Body(c.issuer, c.policy, c.epochSeconds, epoch, now, expiresAt, c.minAnonymity, c.depth,
                       if head.Some? then Some(head.value.digest) else None, commitments);
      assert body == b;
      if enc.checkpoint(Signed(body)) > MAX_CHECKPOINT_BYTES || enc.link(LinkTo(body)) > MAX_LINK_BYTES {
        return Err(InvalidInput);
      }
      if epoch in links {
        return Err(Storage);
      }
      floor := now;
      qualifications := map k | k in qualifications && now < qualifications[k] :: qualifications[k];
      head := Some(Signed(body));
      links := links[epoch := LinkTo(body)];
      links := Newest(links, c.maxRetainedLinks);
      return Ok(Signed(body));
    }

    method CheckpointLinks(after: nat, before: nat) returns (result: seq<Link>)
      requires after < before
      ensures result == LinksBetween(View(), after, before)
    {
      var epochs := Sort(set e | e in links && after < e < before);
      result := Collect(links, epochs);
    }
  }

  /* ----- the verifier ----- */

  datatype Anchor = Anchor(epoch: nat, digest: Body)

  /** The digest a chain of links leads to, if every link continues the one before. */
  function Follow(links: seq<Link>, from: Anchor, issuer: nat, until: nat): Option<Body> {
    if links == [] then Some(from.digest)
    else
      var link := links[0];
      if link.body.issuer == issuer && from.epoch < link.body.epoch < until && link.body.previous == Some(from.digest)
        && link.signature == OfLink(issuer, link.body)
      then Follow(links[1..], Anchor(link.body.epoch, link.body.digest), issuer, until) else None
  }

  predicate Genuine(c: Checkpoint, key: nat, policy: nat, now: nat) {
    && c.body.policy == policy && c.body.issuer == key && WellFormed(c.body)
    && Positive(now) && c.body.notBefore <= now < c.body.expiresAt
    && c.digest == c.body && c.signature == OfCheckpoint(key, c.body)
  }

  predicate Accepts(c: Checkpoint, key: nat, policy: nat, now: nat, previous: Option<Anchor>, links: seq<Link>) {
    && Genuine(c, key, policy, now)
    && |links| <= MAX_LINKS
    && match previous
       case None => links == []
       case Some(anchor) =>
         && Positive(anchor.epoch) && anchor.epoch <= c.body.epoch
         && (anchor.epoch == c.body.epoch ==> c.digest == anchor.digest && links == [])
         && Follow(links, anchor, key, c.body.epoch).Some?
         && (anchor.epoch < c.body.epoch ==> c.body.previous == Follow(links, anchor, key, c.body.epoch))
  }

  method CheckWellFormed(b: Body) returns (ok: bool)
    ensures ok == WellFormed(b)
  {
    if b.epochSeconds == 0 || b.epochSeconds > MAX_EPOCH_SECONDS || !Positive(b.epoch) || !Positive(b.notBefore) || !Positive(b.expiresAt) {
      return false;
    }
    if b.notBefore / b.epochSeconds != b.epoch || b.expiresAt != (b.epoch + 1) * b.epochSeconds || b.notBefore >= b.expiresAt
      || b.minAnonymity < 16 || b.minAnonymity > 128 || b.depth != 7 || |b.commitments| > CAPACITY {
      return false;
    }
    var previous, i := 0, 0;
    var all := [0] + b.commitments;
    while i < |b.commitments|
      invariant 0 <= i <= |b.commitments| && previous == all[i] && Rising(all[..i + 1])
    {
      if b.commitments[i] <= previous {
        assert all[i + 1] <= all[i];
        return false;
      }
      previous := b.commitments[i];
      assert all[..i + 2] == all[..i + 1] + [previous];
      i := i + 1;
    }
    assert all[..i + 1] == all;
    return true;
  }

  method VerifyCheckpoint(c: Checkpoint, key: nat, policy: nat, now: nat, previous: Option<Anchor>, links: seq<Link>) returns (ok: bool)
    ensures ok == Accepts(c, key, policy, now, previous, links)
  {
    hide WellFormed;
    if c.body.policy != policy || c.body.issuer != key {
      return false;
    }
    var formed := CheckWellFormed(c.body);
    if !formed || !Positive(now) || now < c.body.notBefore || now >= c.body.expiresAt || c.digest != c.body
      || c.signature != OfCheckpoint(key, c.body) || |links| > MAX_LINKS {
      return false;
    }
    if previous.None? {
      return links == [];
    }
    var anchor := previous.value;
    if !Positive(anchor.epoch) || c.body.epoch < anchor.epoch
      || (c.body.epoch == anchor.epoch && (c.digest != anchor.digest || links != [])) {
      return false;
    }
    var previousEpoch, previousDigest, i := anchor.epoch, anchor.digest, 0;
    assert links[0..] == links;
    while i < |links|
      invariant 0 <= i <= |links|
      invariant Follow(links, anchor, key, c.body.epoch) == Follow(links[i..], Anchor(previousEpoch, previousDigest), key, c.body.epoch)
    {
      assert links[i..][0] == links[i] && links[i..][1..] == links[i + 1..];
      var link := links[i];
      if link.body.issuer != c.body.issuer || link.body.epoch <= previousEpoch || link.body.epoch >= c.body.epoch
        || link.body.previous != Some(previousDigest) || link.signature != OfLink(key, link.body) {
        return false;
      }
      previousEpoch, previousDigest := link.body.epoch, link.body.digest;
      i := i + 1;
    }
    return c.body.epoch == anchor.epoch || c.body.previous == Some(previousDigest);
  }
}
