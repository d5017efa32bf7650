/** Byte encodings that the private-account relation hashes and signs. */
module AccountingWire {
  import opened Basics
  import opened AccountingPolicy

  /** `value`, big endian, in exactly `width` bytes. */
  function BigEndian(value: nat, width: nat): (r: seq<Byte>)
    ensures |r| == width
  {
    if width == 0 then [] else BigEndian(value / 256, width - 1) + [value % 256]
  }

  function Limit(width: nat): (r: nat)
    ensures 0 < r
  {
    if width == 0 then 1 else 256 * Limit(width - 1)
  }

  lemma {:induction false} BigEndianInjective(a: nat, b: nat, width: nat)
    requires a < Limit(width) && b < Limit(width)
    requires BigEndian(a, width) == BigEndian(b, width)
    ensures a == b
  {
    if width > 0 {
      var x, y := BigEndian(a, width), BigEndian(b, width);
      assert x[..width - 1] == BigEndian(a / 256, width - 1);
      assert y[..width - 1] == BigEndian(b / 256, width - 1);
      assert x[width - 1] == a % 256 && y[width - 1] == b % 256;
      BigEndianInjective(a / 256, b / 256, width - 1);
    }
  }

  function ReadBig(bytes: seq<Byte>): nat {
    if bytes == [] then 0 else ReadBig(bytes[..|bytes| - 1]) * 256 + bytes[|bytes| - 1]
  }

  lemma Quotient(value: nat, width: nat)
    requires 0 < width && value < Limit(width)
    ensures value / 256 < Limit(width - 1) && value == value / 256 * 256 + value % 256
  {
    assert Limit(width) == 256 * Limit(width - 1);
  }

  lemma {:induction false} ReadAfterWrite(value: nat, width: nat)
    requires value < Limit(width)
    ensures ReadBig(BigEndian(value, width)) == value
  {
    if width > 0 {
      var bytes := BigEndian(value, width);
      assert bytes[..width - 1] == BigEndian(value / 256, width - 1);
      Quotient(value, width);
      ReadAfterWrite(value / 256, width - 1);
    }
  }

  lemma {:induction false} WriteAfterRead(bytes: seq<Byte>)
    ensures BigEndian(ReadBig(bytes), |bytes|) == bytes
  {
    if bytes != [] {
      var n := |bytes|;
      WriteAfterRead(bytes[..n - 1]);
      assert bytes == bytes[..n - 1] + [bytes[n - 1]];
    }
  }

  /** One fixed-width integer field of a record. */
  datatype Field = Field(value: nat, width: nat) {
    predicate Fits() { value < Limit(width) }
  }

  function Encode(fields: seq<Field>): seq<Byte> {
    if fields == [] then [] else BigEndian(fields[0].value, fields[0].width) + Encode(fields[1..])
  }

  predicate SameLayout(a: seq<Field>, b: seq<Field>) {
    && |a| == |b|
    && forall i | 0 <= i < |a| :: a[i].width == b[i].width
  }

  /** Records of one layout are determined by their bytes, and so is whatever follows them. */
  lemma {:induction false} EncodeInjective(a: seq<Field>, b: seq<Field>, restA: seq<Byte>, restB: seq<Byte>)
    requires SameLayout(a, b)
    requires forall f | f in a :: f.Fits()
    requires forall f | f in b :: f.Fits()
    requires Encode(a) + restA == Encode(b) + restB
    ensures a == b && restA == restB
  {
    if a == [] {
      assert Encode(a) + restA == restA && Encode(b) + restB == restB;
    } else {
      var n := a[0].width;
      var x, y := BigEndian(a[0].value, n), BigEndian(b[0].value, n);
      assert Encode(a) + restA == x + (Encode(a[1..]) + restA);
      assert Encode(b) + restB == y + (Encode(b[1..]) + restB);
      assert x == (Encode(a) + restA)[..n] && y == (Encode(b) + restB)[..n];
      assert Encode(a[1..]) + restA == (Encode(a) + restA)[n..];
      assert Encode(b[1..]) + restB == (Encode(b) + restB)[n..];
      assert a[0].Fits() && b[0].Fits();
      BigEndianInjective(a[0].value, b[0].value, n);
      EncodeInjective(a[1..], b[1..], restA, restB);
      assert a == [a[0]] + a[1..] && b == [b[0]] + b[1..];
    }
  }

  lemma {:induction false} EncodeConcat(a: seq<Field>, b: seq<Field>)
    ensures Encode(a + b) == Encode(a) + Encode(b)
  {
    if a == [] {
      assert a + b == b;
    } else {
      assert (a + b)[1..] == a[1..] + b;
      EncodeConcat(a[1..], b);
    }
  }

  lemma Limits()
    ensures Limit(4) == U32_LIMIT && Limit(8) == U64_LIMIT
  {
    assert Limit(1) == 256 && Limit(2) == 256 * 256 && Limit(3) == 256 * 256 * 256;
    assert Limit(4) == 256 * Limit(3);
    assert Limit(5) == 256 * Limit(4) && Limit(6) == 256 * Limit(5) && Limit(7) == 256 * Limit(6);
  }

  /* ----- the policy ----- */

  function SmallFields(p: AccountPolicy): seq<Field> {
    [ Field(p.initialCredit, 4), Field(p.maximumAvailable, 4),
      Field(p.outgoingReservation, 4), Field(p.incomingReservation, 4) ]
  }

  function LargeFields(p: AccountPolicy): seq<Field> {
    [Field(p.policyRevision, 8), Field(p.policyValidFrom, 8), Field(p.policyValidUntil, 8)]
  }

  function AgeFields(p: AccountPolicy): seq<Field> {
    [ Field(p.newcomerPeriod, 8), Field(p.rateWindow, 8),
      Field(p.newcomerAdmissions, 4), Field(p.maximumAdmissions, 4),
      Field(p.refillPeriod, 8), Field(p.refillUnits, 4) ]
  }

  function BindingFields(p: AccountPolicy): seq<Field> {
    SmallFields(p) + LargeFields(p) + AgeFields(p)
  }

  function PolicyFields(p: AccountPolicy): seq<Field> {
    BindingFields(p) + [Field(p.abandonAfter, 8)]
  }

  lemma PolicyFieldsFit(p: AccountPolicy)
    ensures forall f | f in PolicyFields(p) :: f.Fits()
  {
    Limits();
  }

  /** Extends `bytes` by every field in turn. */
  method ExtendAll(fields: seq<Field>, bytes: seq<Byte>) returns (r: seq<Byte>)
    ensures r == bytes + Encode(fields)
  {
    r := bytes;
    for i := 0 to |fields|
      invariant r == bytes + Encode(fields[..i])
    {
      Extend(fields, i);
      r := r + BigEndian(fields[i].value, fields[i].width);
    }
    assert fields[..|fields|] == fields;
  }

  method Append(p: AccountPolicy, bytes: seq<Byte>) returns (r: seq<Byte>)
    ensures r == bytes + Encode(PolicyFields(p))
  {
    r := ExtendAll(SmallFields(p), bytes);
    r := ExtendAll(LargeFields(p), r);
    r := ExtendAll(AgeFields(p), r);
    r := ExtendAll([Field(p.abandonAfter, 8)], r);
    EncodeConcat(SmallFields(p), LargeFields(p));
    EncodeConcat(SmallFields(p) + LargeFields(p), AgeFields(p));
    EncodeConcat(BindingFields(p), [Field(p.abandonAfter, 8)]);
  }

  lemma Extend(fields: seq<Field>, i: nat)
    requires i < |fields|
    ensures Encode(fields[..i + 1]) == Encode(fields[..i]) + BigEndian(fields[i].value, fields[i].width)
  {
    assert fields[..i + 1] == fields[..i] + [fields[i]];
    EncodeConcat(fields[..i], [fields[i]]);
    assert Encode([fields[i]]) == BigEndian(fields[i].value, fields[i].width) + Encode([]);
  }

  /** Preimages of the two policy digests. `tag` is the domain prefix; 32 is the circuit's tree capacity. */
  function DigestInput(tag: seq<Byte>, community: Bytes32, p: AccountPolicy): seq<Byte> {
    tag + community + Encode(PolicyFields(p)) + [32]
  }

  function StateDigestInput(tag: seq<Byte>, community: Bytes32, p: AccountPolicy): seq<Byte> {
    tag + community + Encode(BindingFields(p)) + [32]
  }

  /** The source appends the whole policy, cuts the last eight bytes and closes with the capacity. */
  method StateDigestBytes(tag: seq<Byte>, community: Bytes32, p: AccountPolicy) returns (r: Result<seq<Byte>>)
    ensures r.Err? <==> !p.Valid()
    ensures r.Ok? ==> r.value == StateDigestInput(tag, community, p)
    ensures r.Err? ==> r.error == InvalidInput
  {
    if !p.Valid() {
      return Err(InvalidInput);
    }
    var policy := Append(p, []);
    EncodeConcat(BindingFields(p), [Field(p.abandonAfter, 8)]);
    assert Encode([Field(p.abandonAfter, 8)]) == BigEndian(p.abandonAfter, 8) + Encode([]);
    policy := policy[..|policy| - 8];
    assert policy == Encode(BindingFields(p));
    r := Ok(tag + community + policy + [32]);
  }

  ghost predicate Collides(hash: seq<Byte> -> Bytes32, a: seq<Byte>, b: seq<Byte>) {
    a != b && hash(a) == hash(b)
  }

  /** A full policy digest fixes community and every field, short of a hash collision. */
  lemma PolicyDigestBindsEverything(hash: seq<Byte> -> Bytes32, tag: seq<Byte>, c: Bytes32, p: AccountPolicy, d: Bytes32, q: AccountPolicy)
    requires hash(DigestInput(tag, c, p)) == hash(DigestInput(tag, d, q))
    ensures (c == d && p == q) || Collides(hash, DigestInput(tag, c, p), DigestInput(tag, d, q))
  {
    var x, y := DigestInput(tag, c, p), DigestInput(tag, d, q);
    if x == y {
      var n := |tag|;
      assert x[n..n + 32] == c && y[n..n + 32] == d;
      assert x[n + 32..] == Encode(PolicyFields(p)) + [32];
      assert y[n + 32..] == Encode(PolicyFields(q)) + [32];
      PolicyFieldsFit(p); PolicyFieldsFit(q);
      EncodeInjective(PolicyFields(p), PolicyFields(q), [32], [32]);
      SameFieldsSamePolicy(p, q);
    }
  }

  lemma SameFieldsSamePolicy(p: AccountPolicy, q: AccountPolicy)
    requires PolicyFields(p) == PolicyFields(q)
    ensures p == q
  {
    var a, b := PolicyFields(p), PolicyFields(q);
    assert a[0] == b[0] && a[1] == b[1] && a[2] == b[2] && a[3] == b[3] && a[4] == b[4];
    assert a[5] == b[5] && a[6] == b[6] && a[7] == b[7] && a[8] == b[8] && a[9] == b[9];
    assert a[10] == b[10] && a[11] == b[11] && a[12] == b[12] && a[13] == b[13];
  }

  /** The state digest ignores the waiting period and binds everything else: two policies share
      it exactly when one is the other retuned, short of a hash collision. */
  lemma StateDigestBindsAllButTheWait(hash: seq<Byte> -> Bytes32, tag: seq<Byte>, c: Bytes32, p: AccountPolicy, d: Bytes32, q: AccountPolicy)
    ensures c == d && q == p.Retuned(q.abandonAfter) ==>
              StateDigestInput(tag, c, p) == StateDigestInput(tag, d, q)
    ensures hash(StateDigestInput(tag, c, p)) == hash(StateDigestInput(tag, d, q)) ==>
              || (c == d && q == p.Retuned(q.abandonAfter))
              || Collides(hash, StateDigestInput(tag, c, p), StateDigestInput(tag, d, q))
  {
    var x, y := StateDigestInput(tag, c, p), StateDigestInput(tag, d, q);
    if x == y {
      var n := |tag|;
      assert x[n..n + 32] == c && y[n..n + 32] == d;
      assert x[n + 32..] == Encode(BindingFields(p)) + [32];
      assert y[n + 32..] == Encode(BindingFields(q)) + [32];
      PolicyFieldsFit(p); PolicyFieldsFit(q);
      assert forall f | f in BindingFields(p) :: f in PolicyFields(p);
      assert forall f | f in BindingFields(q) :: f in PolicyFields(q);
      EncodeInjective(BindingFields(p), BindingFields(q), [32], [32]);
      SameFieldsSamePolicy(p.Retuned(q.abandonAfter), q);
    }
  }
}
