/** Resource tickets: a lifetime quota of blind signatures per member and epoch, and one stamp per
    token, in stores that every replica shares and that are pruned after an epoch ends.

    A context digest is represented by the epoch it hashes, a request digest by the signed request,
    a redemption signature by what it signs, an epoch's public key by its modulus. */
module KeyAccess {
  import opened AccountingWire
  import opened Basics

  const RSA_BYTES := 384

  type MemberId = nat
  type RequestId = nat
  type BlindSignature = seq<Byte>

  datatype Epoch = Epoch(epochId: nat, validFrom: U64, issueUntil: U64, expiresAt: U64, publicKey: nat) {
    predicate Valid() { 0 < validFrom < issueUntil <= expiresAt <= MAX_INTEGER }

    function CheckTime(now: U64, issuance: bool): Result<()> {
      Need(now <= MAX_INTEGER && validFrom <= now < (if issuance then issueUntil else expiresAt), Expired)
    }
  }

  datatype Policy = Policy(maximumPerMember: U32, maximumMembers: U32, maxAuthorizationSeconds: U64) {
    predicate Valid() { 0 < maximumPerMember && 0 < maximumMembers && 0 < maxAuthorizationSeconds <= MAX_INTEGER }
  }

  /** A signed issue request. */
  datatype Request = Request(
    memberId: MemberId, chatPublicKey: nat, requestId: RequestId, blinded: seq<Byte>, issuedAt: U64, expiresAt: U64, signature: nat)
  {
    /** The fields `key_access_issue_bytes` accepts. */
    predicate Ok() {
      0 < issuedAt < expiresAt <= MAX_INTEGER && requestId != 0 && |blinded| == RSA_BYTES
    }
  }

  /** One call: the request, the grant's device, the clock samples, what the credential checks said
      at each of them (`admission` before any), what the private key would produce, if anything,
      and whether that passes the fault check. */
  datatype Presentation = Presentation(
    request: Request, grantDevice: nat, admission: Option<Error>,
    before: U64, now: U64, completed: U64,
    credentialsBefore: Option<Error>, credentialsNow: Option<Error>, credentialsCompleted: Option<Error>,
    produced: Option<BlindSignature>, faultless: bool)

  datatype Config = Config(policy: Policy, trust: nat)

  datatype Issuance = Issuance(request: Request, signature: BlindSignature)

  datatype Db = Db(
    floor: U64,
    registry: map<Epoch, nat>,
    configs: map<Epoch, Config>,
    members: map<(Epoch, MemberId), nat>,
    issues: map<(Epoch, MemberId, RequestId), Issuance>)

  const EMPTY: Db := Db(0, map[], map[], map[], map[])

  /** `None` passes, `Some` fails with its error. */
  function Verdict(v: Option<Error>): Result<()> {
    if v.Some? then Err(v.value) else Ok(())
  }

  function Opened(db: Db, e: Epoch, c: Config): Result<Db> {
    var _ :- Need(e.Valid() && c.policy.Valid(), InvalidInput);
    var _ :- Need(forall o | o in db.registry :: db.registry[o] == e.publicKey ==> o == e, PolicyMismatch);
    var _ :- Need(e in db.configs ==> db.configs[e] == c, PolicyMismatch);
    Ok(db.(registry := if e in db.registry then db.registry else db.registry[e := e.publicKey],
           configs := db.configs[e := c]))
  }

  function MembersOf(db: Db, e: Epoch): set<MemberId> {
    set k | k in db.members && k.0 == e :: k.1
  }

  /** Whether a fresh request fits its window and the quotas. */
  function Allowed(db: Db, e: Epoch, p: Policy, x: Presentation): Result<()> {
    var r, key := x.request, (e, x.request.memberId);
    var _ :- e.CheckTime(x.now, true);
    var _ :- Need(
      && r.chatPublicKey == x.grantDevice && e.validFrom <= r.issuedAt <= x.now < r.expiresAt <= e.issueUntil
      && r.expiresAt - r.issuedAt <= p.maxAuthorizationSeconds, Expired);
    Need(if key in db.members then db.members[key] < p.maximumPerMember else |MembersOf(db, e)| < p.maximumMembers, Capacity)
  }

  /** The checks after the private operation, before commit. */
  function Completed(e: Epoch, x: Presentation, retry: bool): Result<()> {
    var _ :- Need(x.now <= x.completed <= MAX_INTEGER, ClockRollback);
    var _ :- e.CheckTime(x.completed, false);
    var _ :- if retry then Ok(()) else e.CheckTime(x.completed, true);
    var _ :- Need(retry || x.completed < x.request.expiresAt, Expired);
    Verdict(x.credentialsCompleted)
  }

  /** The private operation: the blinded message is a nonzero number below the modulus, and a
      faulty or truncated result is dropped. */
  function BlindSigned(e: Epoch, x: Presentation): Result<BlindSignature> {
    var message := x.request.blinded;
    var _ :- Need(|message| == RSA_BYTES && 0 < ReadBig(message) < e.publicKey, InvalidInput);
    var _ :- Need(x.produced.Some? && |x.produced.value| == RSA_BYTES && x.faultless, CryptoProvider);
    Ok(x.produced.value)
  }

  function IssueKey(e: Epoch, r: Request): (Epoch, MemberId, RequestId) {
    (e, r.memberId, r.requestId)
  }

  function Issued(db: Db, e: Epoch, p: Policy, x: Presentation): Result<(Db, BlindSignature)> {
    var key := IssueKey(e, x.request);
    var _ :- Need(x.request.Ok(), InvalidInput);
    var _ :- Verdict(x.admission);
    var _ :- e.CheckTime(x.before, false);
    var _ :- Verdict(x.credentialsBefore);
    var _ :- Need(x.before <= x.now <= MAX_INTEGER && db.floor <= x.now, ClockRollback);
    var _ :- e.CheckTime(x.now, false);
    var _ :- Verdict(x.credentialsNow);
    if key in db.issues then
      var _ :- Need(db.issues[key].request == x.request, Error.Replay);
      var _ :- Need(|db.issues[key].signature| == RSA_BYTES, Storage);
      var _ :- Completed(e, x, true);
      Ok((db.(floor := x.completed), db.issues[key].signature))
    else
      var _ :- Allowed(db, e, p, x);
      var signature :- BlindSigned(e, x);
      var _ :- Completed(e, x, false);
      var quota := (e, x.request.memberId);
      Ok((db.(floor := x.completed,
              members := db.members[quota := if quota in db.members then db.members[quota] + 1 else 1],
              issues := db.issues[key := Issuance(x.request, signature)]),
          signature))
  }

  /** Epochs whose configuration has ended by `now`. */
  predicate Ended(db: Db, e: Epoch, now: U64) {
    e in db.configs && e.expiresAt <= now
  }

  function Pruned(db: Db, now: U64): Result<Db> {
    var _ :- Need(0 < now <= MAX_INTEGER, InvalidInput);
    var _ :- Need(db.floor <= now, ClockRollback);
    Ok(db.(floor := now,
           issues := map k | k in db.issues && !Ended(db, k.0, now) :: db.issues[k],
           members := map k | k in db.members && !Ended(db, k.0, now) :: db.members[k],
           configs := map e | e in db.configs && now < e.expiresAt :: db.configs[e]))
  }

  class KeyAccessDatabase {
    var floor: U64
    var registry: map<Epoch, nat>
    var configs: map<Epoch, Config>
    var members: map<(Epoch, MemberId), nat>
    var issues: map<(Epoch, MemberId, RequestId), Issuance>

    function View(): Db
      reads this
    {
      Db(floor, registry, configs, members, issues)
    }

    constructor ()
      ensures View() == EMPTY
    {
      floor, registry, configs, members, issues := 0, map[], map[], map[], map[];
    }
  }

  class KeyAccessIssuer {
    const db: KeyAccessDatabase
    const epoch: Epoch
    const policy: Policy

    constructor (db: KeyAccessDatabase, epoch: Epoch, policy: Policy)
      ensures this.db == db && this.epoch == epoch && this.policy == policy
    {
      this.db, this.epoch, this.policy := db, epoch, policy;
    }

    static method Open(db: KeyAccessDatabase, epoch: Epoch, config: Config) returns (result: Result<KeyAccessIssuer>)
      modifies db
      ensures match Opened(old(db.View()), epoch, config)
              case Ok(after) =>
                && db.View() == after
                && result.Ok? && result.value.db == db && result.value.epoch == epoch && result.value.policy == config.policy
              case Err(e) => db.View() == old(db.View()) && result == Err(e)
    {
      if !epoch.Valid() || !config.policy.Valid() {
        return Err(InvalidInput);
      }
      var others := set o | o in db.registry && db.registry[o] == epoch.publicKey && o != epoch;
      if others != {} {
        assert exists o :: o in others;
        return Err(PolicyMismatch);
      }
      assert forall o | o in db.registry :: db.registry[o] == epoch.publicKey && o != epoch ==> o in others;
      if epoch in db.configs && db.configs[epoch] != config {
        return Err(PolicyMismatch);
      }
      if epoch !in db.registry {
        db.registry := db.registry[epoch := epoch.publicKey];
      }
      db.configs := db.configs[epoch := config];
      var issuer := new KeyAccessIssuer(db, epoch, config.policy);
      return Ok(issuer);
    }

    method Issue(x: Presentation) returns (result: Result<BlindSignature>)
      modifies db
      ensures match Issued(old(db.View()), epoch, policy, x)
              case Ok((after, signature)) => db.View() == after && result == Ok(signature)
              case Err(e) => db.View() == old(db.View()) && result == Err(e)
    {
      hide Completed, Allowed, BlindSigned;
      var r, key := x.request, IssueKey(epoch, x.request);
      if !r.Ok() {
        return Err(InvalidInput);
      }
      var _ :- Verdict(x.admission);
      var _ :- epoch.CheckTime(x.before, false);
      var _ :- Verdict(x.credentialsBefore);
      if x.now < x.before || x.now < db.floor || x.now > MAX_INTEGER {
        return Err(ClockRollback);
      }
      var _ :- epoch.CheckTime(x.now, false);
      var _ :- Verdict(x.credentialsNow);
      if key in db.issues {
        if db.issues[key].request != r {
          return Err(Error.Replay);
        }
        if |db.issues[key].signature| != RSA_BYTES {
          return Err(Storage);
        }
        var _ :- Completed(epoch, x, true);
        db.floor := x.completed;
        return Ok(db.issues[key].signature);
      }
      var _ :- Allowed(db.View(), epoch, policy, x);
      var signature :- BlindSigned(epoch, x);
      var _ :- Completed(epoch, x, false);
      var quota := (epoch, r.memberId);
      db.members := db.members[quota := if quota in db.members then db.members[quota] + 1 else 1];
      db.issues := db.issues[key := Issuance(r, signature)];
      db.floor := x.completed;
      return Ok(signature);
    }

    method PruneExpired(now: U64) returns (result: Result<()>)
      modifies db
      ensures match Pruned(old(db.View()), now)
              case Ok(after) => db.View() == after && result == Ok(())
              case Err(e) => db.View() == old(db.View()) && result == Err(e)
    {
      if now == 0 || now > MAX_INTEGER {
        return Err(InvalidInput);
      }
      if now < db.floor {
        return Err(ClockRollback);
      }
      db.issues := map k | k in db.issues && !Ended(db.View(), k.0, now) :: db.issues[k];
      db.members := map k | k in db.members && !Ended(db.View(), k.0, now) :: db.members[k];
      db.configs := map e | e in db.configs && now < e.expiresAt :: db.configs[e];
      db.floor := now;
      return Ok(());
    }
  }
}
