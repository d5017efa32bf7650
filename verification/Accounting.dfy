/** Statements, requests, acceptances and status replies of the account relation.

    A digest is represented by the value that was hashed and a signature by its key and message,
    so equal digests and valid signatures mean exactly what they would without collisions or
    forgeries. Whether a member key signed a request, and whether a proof holds, is decided by
    the `Authority` the caller supplies. */
module Accounting {
  import opened Basics
  import opened AccountingPolicy
  import Wire = AccountingWire

  /** SHA-256 of a policy's canonical bytes, and below of a signed request and a signed status query. */
  datatype PolicyDigest = PolicySha256(community: Word, policy: AccountPolicy)

  datatype ProofScope = ProofScope(circuitDigest: Word, verifyingKeyDigest: Word)

  datatype AccountStatement = AccountStatement(
    protocolVersion: U32,
    community: Word,
    owner: Word,
    policyDigest: PolicyDigest,
    enrollmentRoot: Word,
    now: U64,
    validUntil: U64,
    genesis: bool,
    previousVersion: U64,
    nextVersion: U64,
    previousState: Word,
    nextState: Word,
    settlementMarker: Word,
    policy: AccountPolicy)

  /** BN254 scalar modulus, big endian. */
  const MODULUS: seq<Byte> := [
    0x30, 0x64, 0x4e, 0x72, 0xe1, 0x31, 0xa0, 0x29, 0xb8, 0x50, 0x45, 0xb6, 0x81, 0x81, 0x58, 0x5d,
    0x28, 0x33, 0xe8, 0x48, 0x79, 0xb9, 0x70, 0x91, 0x43, 0xe1, 0xf5, 0x93, 0xf0, 0x00, 0x00, 0x01]

  predicate BytesBelow(a: seq<Byte>, b: seq<Byte>) {
    a != [] && b != [] && (a[0] < b[0] || (a[0] == b[0] && BytesBelow(a[1..], b[1..])))
  }

  predicate IsField(value: Word, nonzero: bool) {
    BytesBelow(value.bytes, MODULUS) && (nonzero ==> value != ZERO)
  }

  /** What `statement_bytes` accepts. */
  predicate StatementOk(s: AccountStatement) {
    && s.policy.Valid()
    && IsField(s.enrollmentRoot, true)
    && IsField(s.previousState, !s.genesis)
    && IsField(s.nextState, true)
    && IsField(s.settlementMarker, false)
    && s.protocolVersion == 2
    && s.policy.policyValidFrom <= s.now < s.policy.policyValidUntil
    && s.policy.ProofValidUntil(s.now) == Ok(s.validUntil)
    && s.nextVersion <= MAX_INTEGER
    && (s.genesis ==>
          && s.previousVersion == 0 && s.nextVersion == 0
          && s.previousState == ZERO && s.settlementMarker == ZERO)
    && (!s.genesis ==> s.previousVersion + 1 == s.nextVersion)
    && s.policyDigest == PolicySha256(s.community, s.policy)
  }

  /** Canonical statement bytes; `sha` gives the 32 bytes that stand for a policy digest. */
  function StatementBytes(s: AccountStatement, tag: seq<Byte>, sha: PolicyDigest -> Bytes32): seq<Byte> {
    tag + (Wire.Encode(VersionFields(s)) + NameBytes(s, sha))
  }

  function VersionFields(s: AccountStatement): seq<Wire.Field> {
    [Wire.Field(s.protocolVersion, 4)]
  }

  function NameBytes(s: AccountStatement, sha: PolicyDigest -> Bytes32): seq<Byte> {
    s.community.bytes + (s.owner.bytes + (sha(s.policyDigest) + (s.enrollmentRoot.bytes + (Wire.Encode(NumberFields(s)) + StateBytes(s)))))
  }

  function NumberFields(s: AccountStatement): seq<Wire.Field> {
    [ Wire.Field(s.now, 8), Wire.Field(s.validUntil, 8), Wire.Field(if s.genesis then 1 else 0, 1),
      Wire.Field(s.previousVersion, 8), Wire.Field(s.nextVersion, 8) ]
  }

  function StateBytes(s: AccountStatement): seq<Byte> {
    s.previousState.bytes + (s.nextState.bytes + (s.settlementMarker.bytes + Wire.Encode(Wire.PolicyFields(s.policy))))
  }

  /** Two acceptable statements with the same bytes are the same statement, whatever the hash:
      the policy digest is redundant because the policy and community are spelled out. */
  lemma StatementBytesInjective(a: AccountStatement, b: AccountStatement, tag: seq<Byte>, sha: PolicyDigest -> Bytes32)
    requires StatementOk(a) && StatementOk(b)
    requires StatementBytes(a, tag, sha) == StatementBytes(b, tag, sha)
    ensures a == b
  {
    hide StatementOk, NameBytes, StateBytes, NumberFields;
    Split(tag, Wire.Encode(VersionFields(a)) + NameBytes(a, sha), tag, Wire.Encode(VersionFields(b)) + NameBytes(b, sha));
    StatementFieldsFit(a);
    StatementFieldsFit(b);
    Wire.EncodeInjective(VersionFields(a), VersionFields(b), NameBytes(a, sha), NameBytes(b, sha));
    assert VersionFields(a)[0] == VersionFields(b)[0];
    NamesInjective(a, b, sha);
    SameLayouts(a, b);
    Wire.EncodeInjective(NumberFields(a), NumberFields(b), StateBytes(a), StateBytes(b));
    NumbersInjective(a, b);
    StatesInjective(a, b);
    DigestIsRedundant(a, b);
  }

  lemma SameLayouts(a: AccountStatement, b: AccountStatement)
    ensures Wire.SameLayout(NumberFields(a), NumberFields(b))
  {
  }

  lemma DigestIsRedundant(a: AccountStatement, b: AccountStatement)
    requires StatementOk(a) && StatementOk(b)
    requires a.community == b.community && a.policy == b.policy
    ensures a.policyDigest == b.policyDigest
  {
  }

  lemma StatementFieldsFit(s: AccountStatement)
    ensures forall f | f in VersionFields(s) :: f.Fits()
    ensures forall f | f in NumberFields(s) :: f.Fits()
  {
    Wire.Limits();
  }

  lemma NamesInjective(a: AccountStatement, b: AccountStatement, sha: PolicyDigest -> Bytes32)
    requires NameBytes(a, sha) == NameBytes(b, sha)
    ensures a.community == b.community && a.owner == b.owner && a.enrollmentRoot == b.enrollmentRoot
    ensures Wire.Encode(NumberFields(a)) + StateBytes(a) == Wire.Encode(NumberFields(b)) + StateBytes(b)
  {
    var x4, y4 := Wire.Encode(NumberFields(a)) + StateBytes(a), Wire.Encode(NumberFields(b)) + StateBytes(b);
    var x3, y3 := a.enrollmentRoot.bytes + x4, b.enrollmentRoot.bytes + y4;
    var x2, y2 := sha(a.policyDigest) + x3, sha(b.policyDigest) + y3;
    Split(a.community.bytes, a.owner.bytes + x2, b.community.bytes, b.owner.bytes + y2);
    Split(a.owner.bytes, x2, b.owner.bytes, y2);
    Split(sha(a.policyDigest), x3, sha(b.policyDigest), y3);
    Split(a.enrollmentRoot.bytes, x4, b.enrollmentRoot.bytes, y4);
  }

  lemma StatesInjective(a: AccountStatement, b: AccountStatement)
    requires StateBytes(a) == StateBytes(b)
    ensures a.previousState == b.previousState && a.nextState == b.nextState
    ensures a.settlementMarker == b.settlementMarker && a.policy == b.policy
  {
    var x, y := Wire.Encode(Wire.PolicyFields(a.policy)), Wire.Encode(Wire.PolicyFields(b.policy));
    Split(a.previousState.bytes, a.nextState.bytes + (a.settlementMarker.bytes + x), b.previousState.bytes, b.nextState.bytes + (b.settlementMarker.bytes + y));
    Split(a.nextState.bytes, a.settlementMarker.bytes + x, b.nextState.bytes, b.settlementMarker.bytes + y);
    Split(a.settlementMarker.bytes, x, b.settlementMarker.bytes, y);
    PolicyBytesInjective(a.policy, b.policy);
  }

  lemma PolicyBytesInjective(p: AccountPolicy, q: AccountPolicy)
    requires Wire.Encode(Wire.PolicyFields(p)) == Wire.Encode(Wire.PolicyFields(q))
    ensures p == q
  {
    Wire.PolicyFieldsFit(p);
    Wire.PolicyFieldsFit(q);
    assert Wire.Encode(Wire.PolicyFields(p)) + [] == Wire.Encode(Wire.PolicyFields(q)) + [];
    Wire.EncodeInjective(Wire.PolicyFields(p), Wire.PolicyFields(q), [], []);
    Wire.SameFieldsSamePolicy(p, q);
  }

  lemma Split(a: seq<Byte>, restA: seq<Byte>, b: seq<Byte>, restB: seq<Byte>)
    requires |a| == |b| && a + restA == b + restB
    ensures a == b && restA == restB
  {
    assert a == (a + restA)[..|a|] && b == (b + restB)[..|a|];
    assert restA == (a + restA)[|a|..] && restB == (b + restB)[|a|..];
  }

  lemma NumbersInjective(a: AccountStatement, b: AccountStatement)
    requires NumberFields(a) == NumberFields(b)
    ensures a.now == b.now && a.validUntil == b.validUntil && a.genesis == b.genesis
    ensures a.previousVersion == b.previousVersion && a.nextVersion == b.nextVersion
  {
    var x, y := NumberFields(a), NumberFields(b);
    assert x[0] == y[0] && x[1] == y[1] && x[2] == y[2] && x[3] == y[3] && x[4] == y[4];
  }

  /* ----- requests and acceptances ----- */

  datatype AccountRequest = AccountRequest(
    statement: AccountStatement,
    requestId: Word,
    proofScope: ProofScope,
    chatPublicKey: Word,
    issuedAt: U64,
    expiresAt: U64,
    proof: seq<Byte>,
    signature: seq<Byte>)

  /** What `account_request_bytes` accepts. */
  predicate RequestOk(r: AccountRequest) {
    && r.requestId != ZERO
    && r.issuedAt == r.statement.now
    && r.issuedAt < r.expiresAt <= MAX_INTEGER
    && r.expiresAt <= r.statement.validUntil
    && r.proof != []
    && StatementOk(r.statement)
  }

  datatype RequestDigest = RequestSha256(request: AccountRequest)

  datatype AcceptanceBody = AcceptanceBody(
    statement: AccountStatement,
    requestId: Word,
    requestDigest: RequestDigest,
    proofScope: ProofScope,
    acceptedAt: U64)

  datatype AcceptanceSignature = AcceptanceSigned(key: Word, body: AcceptanceBody)

  datatype AccountAcceptance = AccountAcceptance(body: AcceptanceBody, signature: AcceptanceSignature)

  /** What `account_acceptance_bytes` accepts. */
  predicate AcceptanceOk(b: AcceptanceBody) {
    && b.requestId != ZERO
    && b.statement.now <= b.acceptedAt < b.statement.validUntil
    && b.acceptedAt <= MAX_INTEGER
    && StatementOk(b.statement)
  }

  function VerifyAcceptance(a: AccountAcceptance, operatorKey: Word): Result<()> {
    var _ :- Need(AcceptanceOk(a.body), InvalidInput);
    Need(a.signature == AcceptanceSigned(operatorKey, a.body), Signature)
  }

  /* ----- status queries ----- */

  datatype AccountStatusRequest = AccountStatusRequest(
    community: Word,
    owner: Word,
    requestId: Option<Word>,
    challenge: Word,
    chatPublicKey: Word,
    issuedAt: U64,
    expiresAt: U64,
    signature: seq<Byte>)

  predicate StatusRequestOk(r: AccountStatusRequest) {
    && r.challenge != ZERO
    && 0 < r.issuedAt < r.expiresAt <= MAX_INTEGER
    && r.requestId != Some(ZERO)
  }

  datatype StatusDigest = StatusSha256(request: AccountStatusRequest)

  datatype StatusBody = StatusBody(
    statusRequestDigest: StatusDigest,
    observedAt: U64,
    acceptance: Option<AccountAcceptance>)

  datatype StatusSignature = StatusSigned(key: Word, body: StatusBody)

  datatype AccountStatusResponse = AccountStatusResponse(body: StatusBody, signature: StatusSignature)

  /** What `account_status_response_bytes` accepts. */
  predicate StatusBodyOk(b: StatusBody) {
    && 0 < b.observedAt <= MAX_INTEGER
    && (b.acceptance.Some? ==>
          && b.acceptance.value.body.acceptedAt <= b.observedAt
          && AcceptanceOk(b.acceptance.value.body))
  }

  function VerifyReported(reported: Option<AccountAcceptance>, r: AccountStatusRequest, operatorKey: Word): Result<()> {
    match reported
    case None => Ok(())
    case Some(a) =>
      var _ :- Need(
                 && a.body.statement.owner == r.owner
                 && a.body.statement.community == r.community
                 && (r.requestId.Some? ==> r.requestId.value == a.body.requestId), Admission);
      VerifyAcceptance(a, operatorKey)
  }

  /** The member-side check of a reply against its own fresh challenge. */
  function VerifyStatusResponse(v: AccountStatusResponse, r: AccountStatusRequest, operatorKey: Word): Result<()> {
    var _ :- Need(StatusRequestOk(r), InvalidInput);
    var _ :- Need(v.body.statusRequestDigest == StatusSha256(r) && r.issuedAt <= v.body.observedAt < r.expiresAt, Replay);
    var _ :- VerifyReported(v.body.acceptance, r, operatorKey);
    var _ :- Need(StatusBodyOk(v.body), InvalidInput);
    Need(v.signature == StatusSigned(operatorKey, v.body), Signature)
  }

  /* ----- authority ----- */

  datatype AdmissionGrant = AdmissionGrant(memberId: Word, chatPublicKey: Word, issuedAt: U64, expiresAt: U64, signature: seq<Byte>)

  datatype DeviceAuthorization = DeviceAuthorization(memberId: Word, rootPublicKey: Word, devicePublicKey: Word, issuedAt: U64, expiresAt: U64, signature: seq<Byte>)

  /** Uninterpreted verdicts of the signature and proof verifiers. */
  datatype Authority = Authority(
    admits: AdmissionGrant -> bool,
    authorizes: DeviceAuthorization -> bool,
    signed: AccountRequest -> bool,
    signedStatus: AccountStatusRequest -> bool,
    proves: (AccountStatement, seq<Byte>) -> bool)
  {
    function VerifyAdmission(g: AdmissionGrant, now: U64): Result<()> {
      Need(g.issuedAt <= now < g.expiresAt && admits(g), Admission)
    }

    function VerifyDevice(d: DeviceAuthorization, g: AdmissionGrant, now: U64): Result<()> {
      Need(
        && d.memberId == g.memberId
        && d.devicePublicKey == g.chatPublicKey
        && d.issuedAt <= now < d.expiresAt
        && authorizes(d), Admission)
    }

    function VerifyBoth(g: AdmissionGrant, d: DeviceAuthorization, now: U64): Result<()> {
      var _ :- VerifyAdmission(g, now);
      VerifyDevice(d, g, now)
    }
  }
}
