/** The durable account ledger: one shared database, any number of handles, one transaction at a time.

    Each transaction is given twice: as a function of the stored tables, and as the imperative
    method a handle runs, proved to compute that function. An `Err` rolls every table back. */
module AccountLedgers {
  import opened Basics
  import opened AccountingPolicy
  import opened Accounting

  /* ----- stored values ----- */

  datatype LedgerPolicy = LedgerPolicy(
    account: AccountPolicy,
    maxAuthorizationSeconds: U64,
    maxProofBytes: nat,
    checkpointPeriodSeconds: U64)
  {
    predicate Valid() {
      && 0 < maxAuthorizationSeconds <= MAX_INTEGER
      && 0 < maxProofBytes <= 0x7FFF_FFFF
      && 0 < checkpointPeriodSeconds <= MAX_INTEGER
    }

    function Retuned(seconds: U64): LedgerPolicy {
      this.(account := account.Retuned(seconds))
    }
  }

  datatype Trust = Trust(community: Word, admissionPolicyDigest: Word, issuerPublicKey: Word)

  /** The canonical configuration row; equal bytes are equal values. */
  datatype StoredConfig = StoredConfig(
    trust: Trust,
    policy: LedgerPolicy,
    proofScope: ProofScope,
    operatorKey: Word,
    tuningRevision: U64)

  datatype Account = Account(rootKey: Word, version: U64, state: Word, latestRequest: Word)

  type Owner = Word
  type RequestKey = (Owner, Word)

  datatype Db = Db(
    config: StoredConfig,
    clockFloor: U64,
    checkpoints: map<int, Word>,
    accounts: map<Owner, Account>,
    markers: set<(Owner, Word)>,
    requests: map<RequestKey, AccountAcceptance>)

  /** A handle's own snapshot of the configuration. */
  datatype Handle = Handle(
    trust: Trust,
    policy: LedgerPolicy,
    policyDigest: PolicyDigest,
    config: StoredConfig,
    tuningRevision: U64,
    proofScope: ProofScope,
    operatorKey: Word)

  /* ----- predicates shared by the transactions ----- */

  function CheckTime(now: U64, floor: U64): Result<()> {
    Need(now != 0 && floor <= now <= MAX_INTEGER, ClockRollback)
  }

  function CheckConfig(db: Db, expected: StoredConfig): Result<()> {
    Need(db.config == expected, PolicyMismatch)
  }

  /** A stored acceptance is checked again before it is returned. */
  function Cached(db: Db, owner: Owner, id: Word, operatorKey: Word): Result<Option<AccountAcceptance>> {
    if (owner, id) !in db.requests then
      Ok(None)
    else
      var a := db.requests[(owner, id)];
      var _ :- Need(VerifyAcceptance(a, operatorKey).Ok?, Storage);
      var _ :- Need(a.body.statement.owner == owner && a.body.requestId == id, Storage);
      Ok(Some(a))
  }

  /** An id already stored belongs to the identical request or to nobody. */
  function Retry(db: Db, h: Handle, request: AccountRequest): Result<Option<AccountAcceptance>> {
    var found :- Cached(db, request.statement.owner, request.requestId, h.operatorKey);
    var _ :- Need(found.Some? ==> found.value.body.requestDigest == RequestSha256(request), Replay);
    Ok(found)
  }

  function CheckPending(
    db: Db, request: AccountRequest, rootKey: Word, grant: AdmissionGrant, device: DeviceAuthorization,
    policy: LedgerPolicy, now: U64): Result<()>
    requires policy.checkpointPeriodSeconds != 0
  {
    var s := request.statement;
    var _ :- Need(
               && request.expiresAt - request.issuedAt <= policy.maxAuthorizationSeconds
               && request.issuedAt <= now < request.expiresAt
               && request.expiresAt <= grant.expiresAt
               && request.expiresAt <= device.expiresAt
               && request.expiresAt <= policy.account.policyValidUntil, Expired);
    var slot := s.now / policy.checkpointPeriodSeconds;
    var _ :- Need(now / policy.checkpointPeriodSeconds == slot, Expired);
    var _ :- Need(slot in db.checkpoints && db.checkpoints[slot] == s.enrollmentRoot, Admission);
    var _ :- Need(
               if s.owner !in db.accounts then s.genesis else
                 && !s.genesis
                 && db.accounts[s.owner].rootKey == rootKey
                 && db.accounts[s.owner].version == s.previousVersion
                 && db.accounts[s.owner].state == s.previousState, Replay);
    Need(s.settlementMarker != ZERO ==> (s.owner, s.settlementMarker) !in db.markers, Replay)
  }

  lemma PendingMatchesRow(
    db: Db, request: AccountRequest, rootKey: Word, grant: AdmissionGrant, device: DeviceAuthorization, policy: LedgerPolicy, now: U64)
    requires policy.checkpointPeriodSeconds != 0
    requires CheckPending(db, request, rootKey, grant, device, policy, now).Ok?
    ensures request.statement.genesis <==> request.statement.owner !in db.accounts
  {
  }

  /** Everything a fresh write needs of the tables and the handle's configuration. */
  function CheckFresh(
    db: Db, h: Handle, request: AccountRequest, grant: AdmissionGrant, device: DeviceAuthorization, at: U64): Result<()>
    requires h.policy.Valid()
  {
    var _ :- CheckConfig(db, h.config);
    var _ :- Need(
               && request.statement.policy == h.policy.account
               && request.statement.policyDigest == h.policyDigest, PolicyMismatch);
    CheckPending(db, request, device.rootPublicKey, grant, device, h.policy, at)
  }

  /** Checks that need no table: shape, community, membership, signatures and the first clock reading. */
  function CheckCaller(
    h: Handle, o: Authority, grant: AdmissionGrant, device: DeviceAuthorization, request: AccountRequest, before: U64): Result<()>
  {
    var _ :- Need(|request.proof| <= h.policy.maxProofBytes, InvalidInput);
    var _ :- Need(request.statement.community == h.trust.community && request.proofScope == h.proofScope, PolicyMismatch);
    var _ :- CheckTime(before, 0);
    var _ :- o.VerifyBoth(grant, device, before);
    var _ :- Need(grant.memberId == request.statement.owner && request.chatPublicKey == grant.chatPublicKey, Admission);
    var _ :- Need(RequestOk(request), InvalidInput);
    Need(o.signed(request), Signature)
  }

  function AcceptanceFor(h: Handle, request: AccountRequest, at: U64): AccountAcceptance {
    var body := AcceptanceBody(request.statement, request.requestId, RequestSha256(request), h.proofScope, at);
    AccountAcceptance(body, AcceptanceSigned(h.operatorKey, body))
  }

  /** The rows one fresh acceptance writes. */
  function Written(db: Db, a: AccountAcceptance, rootKey: Word): Db {
    var s := a.body.statement;
    db.(accounts :=
          if s.genesis then db.accounts[s.owner := Account(rootKey, s.nextVersion, s.nextState, a.body.requestId)]
          else if s.owner in db.accounts then
            db.accounts[s.owner := db.accounts[s.owner].(version := s.nextVersion, state := s.nextState, latestRequest := a.body.requestId)]
          else db.accounts,
        markers := if !s.genesis && s.settlementMarker != ZERO then db.markers + {(s.owner, s.settlementMarker)} else db.markers,
        requests := db.requests[(s.owner, a.body.requestId) := a],
        clockFloor := a.body.acceptedAt)
  }

  /** A retry or a fresh write in one transaction at time `at`. */
  function CommitAt(
    db: Db, h: Handle, grant: AdmissionGrant, device: DeviceAuthorization, request: AccountRequest, at: U64)
    : Result<(AccountAcceptance, Db)>
    requires h.policy.Valid()
  {
    var found :- Retry(db, h, request);
    if found.Some? then
      Ok((found.value, db.(clockFloor := at)))
    else
      var _ :- CheckFresh(db, h, request, grant, device, at);
      var a := AcceptanceFor(h, request, at);
      var _ :- Need(AcceptanceOk(a.body), InvalidInput);
      Ok((a, Written(db, a, device.rootPublicKey)))
  }

  /* ----- apply in two transactions, and the one it stands for ----- */

  /** First transaction: `Ok(None)` means every lock is released and the proof is to be checked. */
  function BeginApply(
    db: Db, h: Handle, o: Authority, grant: AdmissionGrant, device: DeviceAuthorization, request: AccountRequest,
    before: U64, now: U64): Result<Option<(AccountAcceptance, Db)>>
    requires h.policy.Valid()
  {
    var _ :- CheckCaller(h, o, grant, device, request, before);
    var _ :- CheckTime(now, Max(db.clockFloor, before));
    var _ :- o.VerifyBoth(grant, device, now);
    var found :- Retry(db, h, request);
    if found.Some? then
      Ok(Some((found.value, db.(clockFloor := now))))
    else
      var _ :- CheckFresh(db, h, request, grant, device, now);
      var _ :- Need(o.proves(request.statement, request.proof), InvalidInput);
      Ok(None)
  }

  /** Second transaction, after the proof was checked without any lock. */
  function FinishApply(
    db: Db, h: Handle, o: Authority, grant: AdmissionGrant, device: DeviceAuthorization, request: AccountRequest,
    now: U64, completed: U64): Result<(AccountAcceptance, Db)>
    requires h.policy.Valid()
  {
    var _ :- CheckTime(completed, Max(db.clockFloor, now));
    var _ :- Need(completed < grant.expiresAt && completed < device.expiresAt, Expired);
    var _ :- o.VerifyBoth(grant, device, completed);
    CommitAt(db, h, grant, device, request, completed)
  }

  /** The simple form: every check and the write happen in one transaction that never lets go. */
  function AtomicApply(
    db: Db, h: Handle, o: Authority, grant: AdmissionGrant, device: DeviceAuthorization, request: AccountRequest,
    before: U64, at: U64): Result<(AccountAcceptance, Db)>
    requires h.policy.Valid()
  {
    var _ :- CheckCaller(h, o, grant, device, request, before);
    var _ :- CheckTime(at, Max(db.clockFloor, before));
    var _ :- o.VerifyBoth(grant, device, at);
    var found :- Retry(db, h, request);
    var result :- CommitAt(db, h, grant, device, request, at);
    var _ :- Need(found.Some? || o.proves(request.statement, request.proof), InvalidInput);
    Ok(result)
  }

  /* ----- the other transactions ----- */

  function Status(
    db: Db, h: Handle, o: Authority, grant: AdmissionGrant, device: DeviceAuthorization, request: AccountStatusRequest,
    before: U64, now: U64): Result<(AccountStatusResponse, Db)>
  {
    var _ :- Need(StatusRequestOk(request), InvalidInput);
    var _ :- Need(
               && request.community == h.trust.community
               && grant.memberId == request.owner
               && request.chatPublicKey == grant.chatPublicKey, Admission);
    var _ :- Need(request.expiresAt - request.issuedAt <= h.policy.maxAuthorizationSeconds, Expired);
    var _ :- CheckTime(before, 0);
    var _ :- o.VerifyBoth(grant, device, before);
    var _ :- Need(o.signedStatus(request), Signature);
    var _ :- CheckTime(now, Max(before, db.clockFloor));
    var _ :- o.VerifyBoth(grant, device, now);
    var _ :- Need(request.issuedAt <= now < request.expiresAt, Expired);
    var id := if request.requestId.Some? then request.requestId
              else if request.owner in db.accounts then Some(db.accounts[request.owner].latestRequest)
              else None;
    var found :- if id.Some? then Cached(db, request.owner, id.value, h.operatorKey) else Ok(None);
    var body := StatusBody(StatusSha256(request), now, found);
    var _ :- Need(StatusBodyOk(body), InvalidInput);
    Ok((AccountStatusResponse(body, StatusSigned(h.operatorKey, body)), db.(clockFloor := now)))
  }

  /** Publication of one common root for a slot: idempotent, never replaced. */
  function AdmitCheckpoint(db: Db, h: Handle, slot: U64, root: Word): Result<Db> {
    var _ :- Need(IsField(root, true), InvalidInput);
    var next :- CheckedAdd(slot, 1);
    var end :- CheckedMul(next, h.policy.checkpointPeriodSeconds);
    var _ :- Need(0 < end <= MAX_INTEGER, InvalidInput);
    var _ :- Need(slot in db.checkpoints ==> db.checkpoints[slot] == root, PolicyMismatch);
    Ok(db.(checkpoints := db.checkpoints[slot := root]))
  }

  function ConfigBytes(trust: Trust, policy: LedgerPolicy, scope: ProofScope, operatorKey: Word, revision: U64): StoredConfig {
    StoredConfig(trust, policy, scope, operatorKey, revision)
  }

  /** The handle after its snapshot moves to another waiting period and revision. */
  function Snapshot(h: Handle, policy: LedgerPolicy, revision: U64): Handle {
    h.(policy := policy,
       policyDigest := PolicySha256(h.trust.community, policy.account),
       config := ConfigBytes(h.trust, policy, h.proofScope, h.operatorKey, revision),
       tuningRevision := revision)
  }

  /** Compare-and-swap of the configuration: the new row and the handle's new snapshot. */
  function UpdateWaitingPeriod(db: Db, h: Handle, expectedRevision: U64, seconds: U64, before: U64, now: U64): Result<(Handle, Db)> {
    var _ :- Need(expectedRevision == h.tuningRevision, PolicyMismatch);
    var policy := h.policy.Retuned(seconds);
    var _ :- policy.account.Validate();
    var revision :- CheckedAdd(expectedRevision, 1);
    var _ :- Need(revision <= MAX_INTEGER, InvalidInput);
    var _ :- CheckTime(before, 0);
    var _ :- CheckConfig(db, h.config);
    var _ :- CheckTime(now, Max(db.clockFloor, before));
    var _ :- Need(policy.account.policyValidFrom <= now < policy.account.policyValidUntil, Expired);
    var _ :- policy.account.ReservationDeadline(now);
    var next := Snapshot(h, policy, revision);
    Ok((next, db.(config := next.config, clockFloor := now)))
  }

  function ReloadPolicy(db: Db, h: Handle): Result<Handle> {
    var policy := h.policy.Retuned(db.config.policy.account.abandonAfter);
    var _ :- policy.account.Validate();
    var _ :- Need(
               && h.tuningRevision <= db.config.tuningRevision <= MAX_INTEGER
               && db.config == ConfigBytes(h.trust, policy, h.proofScope, h.operatorKey, db.config.tuningRevision), PolicyMismatch);
    Ok(Snapshot(h, policy, db.config.tuningRevision))
  }

  /** A new handle on an existing database: the supplied waiting period is replaced by the stored one. */
  function Open(db: Db, trust: Trust, policy: LedgerPolicy, scope: ProofScope, operatorKey: Word): Result<Handle> {
    var _ :- Need(policy.Valid(), InvalidInput);
    var _ :- policy.account.Validate();
    var _ :- Need(scope.circuitDigest != ZERO && scope.verifyingKeyDigest != ZERO, InvalidInput);
    var loaded := policy.Retuned(db.config.policy.account.abandonAfter);
    var _ :- loaded.account.Validate();
    var _ :- Need(db.config.tuningRevision <= MAX_INTEGER, PolicyMismatch);
    var config := ConfigBytes(trust, loaded, scope, operatorKey, db.config.tuningRevision);
    var _ :- CheckConfig(db, config);
    Ok(Handle(trust, loaded, PolicySha256(trust.community, loaded.account), config, db.config.tuningRevision, scope, operatorKey))
  }

  /** The first open of an empty database stores the configuration at revision zero. */
  function Create(trust: Trust, policy: LedgerPolicy, scope: ProofScope, operatorKey: Word): Result<(Handle, Db)> {
    var _ :- Need(policy.Valid(), InvalidInput);
    var _ :- policy.account.Validate();
    var _ :- Need(scope.circuitDigest != ZERO && scope.verifyingKeyDigest != ZERO, InvalidInput);
    var config := ConfigBytes(trust, policy, scope, operatorKey, 0);
    Ok((Handle(trust, policy, PolicySha256(trust.community, policy.account), config, 0, scope, operatorKey),
        Db(config, 0, map[], map[], {}, map[])))
  }

  /* ----- the imperative ledger ----- */

  /** The SQLite file behind every handle. */
  class Database {
    var config: StoredConfig
    var clockFloor: U64
    var checkpoints: map<int, Word>
    var accounts: map<Owner, Account>
    var markers: set<(Owner, Word)>
    var requests: map<RequestKey, AccountAcceptance>

    function View(): Db
      reads this
    {
      Db(config, clockFloor, checkpoints, accounts, markers, requests)
    }

    constructor (config: StoredConfig)
      ensures View() == Db(config, 0, map[], map[], {}, map[])
    {
      this.config, clockFloor := config, 0;
      checkpoints, accounts, markers, requests := map[], map[], {}, map[];
    }
  }

  class AccountLedger {
    const connection: Database
    const trust: Trust
    const proofScope: ProofScope
    const operatorKey: Word
    var policy: LedgerPolicy
    var policyDigest: PolicyDigest
    var config: StoredConfig
    var tuningRevision: U64

    function View(): Handle
      reads this
    {
      Handle(trust, policy, policyDigest, config, tuningRevision, proofScope, operatorKey)
    }

    constructor (connection: Database, h: Handle)
      ensures this.connection == connection && View() == h
    {
      this.connection := connection;
      trust, proofScope, operatorKey := h.trust, h.proofScope, h.operatorKey;
      policy, policyDigest, config, tuningRevision := h.policy, h.policyDigest, h.config, h.tuningRevision;
    }

    static method OpenOn(connection: Database, trust: Trust, policy: LedgerPolicy, scope: ProofScope, operatorKey: Word)
      returns (ledger: AccountLedger?, error: Error)
      ensures match Open(connection.View(), trust, policy, scope, operatorKey)
              case Ok(h) => ledger != null && fresh(ledger) && ledger.connection == connection && ledger.View() == h
              case Err(e) => ledger == null && error == e
    {
      ledger, error := null, InvalidInput;
      if !policy.Valid() || !policy.account.Valid() || scope.circuitDigest == ZERO || scope.verifyingKeyDigest == ZERO {
        return;
      }
      var loaded := policy.Retuned(connection.config.policy.account.abandonAfter);
      if !loaded.account.Valid() {
        return;
      }
      var revision := connection.config.tuningRevision;
      var bytes := ConfigBytes(trust, loaded, scope, operatorKey, revision);
      if revision > MAX_INTEGER || connection.config != bytes {
        error := PolicyMismatch;
        return;
      }
      ledger := new AccountLedger(
        connection, Handle(trust, loaded, PolicySha256(trust.community, loaded.account), bytes, revision, scope, operatorKey));
    }

    method Admit(slot: U64, root: Word) returns (r: Result<()>)
      modifies connection
      ensures match AdmitCheckpoint(old(connection.View()), View(), slot, root)
              case Ok(db) => r == Ok(()) && connection.View() == db
              case Err(e) => r == Err(e) && connection.View() == old(connection.View())
    {
      if !IsField(root, true) {
        return Err(InvalidInput);
      }
      if slot + 1 >= U64_LIMIT || !(0 <= (slot + 1) * policy.checkpointPeriodSeconds < U64_LIMIT) {
        return Err(InvalidInput);
      }
      var end := (slot + 1) * policy.checkpointPeriodSeconds;
      if end > MAX_INTEGER || end == 0 {
        return Err(InvalidInput);
      }
      if slot in connection.checkpoints {
        if connection.checkpoints[slot] != root {
          return Err(PolicyMismatch);
        }
        assert connection.checkpoints[slot := root] == connection.checkpoints;
      } else {
        connection.checkpoints := connection.checkpoints[slot := root];
      }
      r := Ok(());
    }

    /** Runs up to the point where every lock is released for the proof check. */
    method Begin(o: Authority, grant: AdmissionGrant, device: DeviceAuthorization, request: AccountRequest, before: U64, now: U64)
      returns (r: Result<Option<AccountAcceptance>>)
      requires policy.Valid()
      modifies connection
      ensures match BeginApply(old(connection.View()), View(), o, grant, device, request, before, now)
              case Ok(None) => r == Ok(None) && connection.View() == old(connection.View())
              case Ok(Some(done)) => r == Ok(Some(done.0)) && connection.View() == done.1
              case Err(e) => r == Err(e) && connection.View() == old(connection.View())
    {
      var _ :- CheckCaller(View(), o, grant, device, request, before);
      var _ :- CheckTime(now, Max(connection.clockFloor, before));
      var _ :- o.VerifyBoth(grant, device, now);
      var found :- Cached(connection.View(), request.statement.owner, request.requestId, operatorKey);
      if found.Some? {
        if found.value.body.requestDigest != RequestSha256(request) {
          return Err(Replay);
        }
        connection.clockFloor := now;
        return Ok(found);
      }
      if connection.config != config {
        return Err(PolicyMismatch);
      }
      if request.statement.policy != policy.account || request.statement.policyDigest != policyDigest {
        return Err(PolicyMismatch);
      }
      var _ :- CheckPending(connection.View(), request, device.rootPublicKey, grant, device, policy, now);
      if !o.proves(request.statement, request.proof) {
        return Err(InvalidInput);
      }
      return Ok(None);
    }

    /** Checks everything again under the write lock and commits. The account row, marker and
        request inserts cannot conflict here: the checks ran in this same transaction. */
    method Finish(o: Authority, grant: AdmissionGrant, device: DeviceAuthorization, request: AccountRequest, now: U64, completed: U64)
      returns (r: Result<AccountAcceptance>)
      requires policy.Valid()
      modifies connection
      ensures match FinishApply(old(connection.View()), View(), o, grant, device, request, now, completed)
              case Ok(done) => r == Ok(done.0) && connection.View() == done.1
              case Err(e) => r == Err(e) && connection.View() == old(connection.View())
    {
      hide AcceptanceOk, CheckPending, Cached;
      var _ :- CheckTime(completed, Max(connection.clockFloor, now));
      if completed >= grant.expiresAt || completed >= device.expiresAt {
        return Err(Expired);
      }
      var _ :- o.VerifyBoth(grant, device, completed);
      var s := request.statement;
      var found :- Cached(connection.View(), s.owner, request.requestId, operatorKey);
      if found.Some? {
        if found.value.body.requestDigest != RequestSha256(request) {
          return Err(Replay);
        }
        connection.clockFloor := completed;
        return Ok(found.value);
      }
      if connection.config != config {
        return Err(PolicyMismatch);
      }
      if s.policy != policy.account || s.policyDigest != policyDigest {
        return Err(PolicyMismatch);
      }
      var _ :- CheckPending(connection.View(), request, device.rootPublicKey, grant, device, policy, completed);
      PendingMatchesRow(connection.View(), request, device.rootPublicKey, grant, device, policy, completed);
      var body := AcceptanceBody(s, request.requestId, RequestSha256(request), proofScope, completed);
      if !AcceptanceOk(body) {
        return Err(InvalidInput);
      }
      var acceptance := AccountAcceptance(body, AcceptanceSigned(operatorKey, body));
      if s.genesis {
        connection.accounts := connection.accounts[s.owner := Account(device.rootPublicKey, s.nextVersion, s.nextState, request.requestId)];
      } else {
        if s.settlementMarker != ZERO {
          connection.markers := connection.markers + {(s.owner, s.settlementMarker)};
        }
        var row := connection.accounts[s.owner];
        connection.accounts := connection.accounts[s.owner := row.(version := s.nextVersion, state := s.nextState, latestRequest := request.requestId)];
      }
      connection.requests := connection.requests[(s.owner, request.requestId) := acceptance];
      connection.clockFloor := completed;
      return Ok(acceptance);
    }

    /** One call with no competing writer while the lock is released. */
    method Apply(
      o: Authority, grant: AdmissionGrant, device: DeviceAuthorization, request: AccountRequest,
      before: U64, now: U64, completed: U64) returns (r: Result<AccountAcceptance>)
      requires policy.Valid()
      modifies connection
      ensures
        match BeginApply(old(connection.View()), View(), o, grant, device, request, before, now)
        case Err(e) => r == Err(e) && connection.View() == old(connection.View())
        case Ok(Some(done)) => r == Ok(done.0) && connection.View() == done.1
        case Ok(None) =>
          match FinishApply(old(connection.View()), View(), o, grant, device, request, now, completed)
          case Ok(done) => r == Ok(done.0) && connection.View() == done.1
          case Err(e) => r == Err(e) && connection.View() == old(connection.View())
    {
      var begun := Begin(o, grant, device, request, before, now);
      match begun {
        case Err(e) => return Err(e);
        case Ok(Some(a)) => return Ok(a);
        case Ok(None) => r := Finish(o, grant, device, request, now, completed);
      }
    }

    method ReadStatus(o: Authority, grant: AdmissionGrant, device: DeviceAuthorization, request: AccountStatusRequest, before: U64, now: U64)
      returns (r: Result<AccountStatusResponse>)
      modifies connection
      ensures match Status(old(connection.View()), View(), o, grant, device, request, before, now)
              case Ok(done) => r == Ok(done.0) && connection.View() == done.1
              case Err(e) => r == Err(e) && connection.View() == old(connection.View())
    {
      if !StatusRequestOk(request) {
        return Err(InvalidInput);
      }
      if request.community != trust.community || grant.memberId != request.owner || request.chatPublicKey != grant.chatPublicKey {
        return Err(Admission);
      }
      if request.expiresAt - request.issuedAt > policy.maxAuthorizationSeconds {
        return Err(Expired);
      }
      var _ :- CheckTime(before, 0);
      var _ :- o.VerifyBoth(grant, device, before);
      if !o.signedStatus(request) {
        return Err(Signature);
      }
      var _ :- CheckTime(now, Max(before, connection.clockFloor));
      var _ :- o.VerifyBoth(grant, device, now);
      if now < request.issuedAt || now >= request.expiresAt {
        return Err(Expired);
      }
      var id := request.requestId;
      if id.None? && request.owner in connection.accounts {
        id := Some(connection.accounts[request.owner].latestRequest);
      }
      var found := None;
      if id.Some? {
        found :- Cached(connection.View(), request.owner, id.value, operatorKey);
      }
      var body := StatusBody(StatusSha256(request), now, found);
      if !StatusBodyOk(body) {
        return Err(InvalidInput);
      }
      connection.clockFloor := now;
      return Ok(AccountStatusResponse(body, StatusSigned(operatorKey, body)));
    }

    /** `replyLost` is a commit that took effect while its caller saw a storage error. */
    method Tune(expectedRevision: U64, seconds: U64, before: U64, now: U64, replyLost: bool) returns (r: Result<U64>)
      modifies this, connection
      ensures match UpdateWaitingPeriod(old(connection.View()), old(View()), expectedRevision, seconds, before, now)
              case Ok(done) =>
                && connection.View() == done.1
                && (if replyLost then r == Err(Storage) && View() == old(View()) else r == Ok(tuningRevision) && View() == done.0)
              case Err(e) => r == Err(e) && connection.View() == old(connection.View()) && View() == old(View())
    {
      if expectedRevision != tuningRevision {
        return Err(PolicyMismatch);
      }
      var next := policy.Retuned(seconds);
      var _ :- next.account.Validate();
      var revision :- CheckedAdd(expectedRevision, 1);
      if revision > MAX_INTEGER {
        return Err(InvalidInput);
      }
      var bytes := ConfigBytes(trust, next, proofScope, operatorKey, revision);
      var _ :- CheckTime(before, 0);
      if connection.config != config {
        return Err(PolicyMismatch);
      }
      var _ :- CheckTime(now, Max(connection.clockFloor, before));
      if now < next.account.policyValidFrom || now >= next.account.policyValidUntil {
        return Err(Expired);
      }
      var _ :- next.account.ReservationDeadline(now);
      connection.config := bytes;
      connection.clockFloor := now;
      if replyLost {
        return Err(Storage);
      }
      config := bytes;
      policy := next;
      policyDigest := PolicySha256(trust.community, next.account);
      tuningRevision := revision;
      return Ok(revision);
    }

    method Reload() returns (r: Result<U64>)
      modifies this
      ensures match ReloadPolicy(connection.View(), old(View()))
              case Ok(h) => r == Ok(h.tuningRevision) && View() == h
              case Err(e) => r == Err(e) && View() == old(View())
    {
      var stored := connection.config;
      var next := policy.Retuned(stored.policy.account.abandonAfter);
      var _ :- next.account.Validate();
      if stored.tuningRevision < tuningRevision || stored.tuningRevision > MAX_INTEGER
         || stored != ConfigBytes(trust, next, proofScope, operatorKey, stored.tuningRevision) {
        return Err(PolicyMismatch);
      }
      policyDigest := PolicySha256(trust.community, next.account);
      policy := next;
      tuningRevision := stored.tuningRevision;
      config := stored;
      return Ok(tuningRevision);
    }
  }
}
