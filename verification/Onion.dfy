/** The onion endpoints that a member's presence may name. */
module Onion {
  import opened Basics
  import opened AccountingWire

  const NAME_LENGTH := 56
  const KEY_LENGTH := 32
  const VERSION: Byte := 3
  const SUFFIX := ".onion"

  datatype Endpoint = Endpoint(host: string, port: nat)

  /* ----- unpadded base 32, lower case ----- */

  predicate IsSymbol(c: char) {
    'a' <= c <= 'z' || '2' <= c <= '7'
  }

  function Digit(c: char): (r: nat)
    requires IsSymbol(c)
    ensures r < 32
  {
    if 'a' <= c <= 'z' then c as int - 'a' as int else 26 + c as int - '2' as int
  }

  function Symbol(d: nat): char
    requires d < 32
  {
    if d < 26 then ('a' as int + d) as char else ('2' as int + d - 26) as char
  }

  predicate IsName(s: string) {
    forall i | 0 <= i < |s| :: IsSymbol(s[i])
  }

  function Value(s: string): nat
    requires IsName(s)
  {
    if s == [] then 0 else Value(s[..|s| - 1]) * 32 + Digit(s[|s| - 1])
  }

  function Name(value: nat, width: nat): (s: string)
    ensures |s| == width && IsName(s)
  {
    if width == 0 then [] else Name(value / 32, width - 1) + [Symbol(value % 32)]
  }

  function Base32(width: nat): (r: nat)
    ensures 0 < r
  {
    if width == 0 then 1 else 32 * Base32(width - 1)
  }

  lemma {:induction false} ValueInRange(s: string)
    requires IsName(s)
    ensures Value(s) < Base32(|s|)
  {
    if s != [] {
      ValueInRange(s[..|s| - 1]);
    }
  }

  lemma {:induction false} NameOfValue(s: string)
    requires IsName(s)
    ensures Name(Value(s), |s|) == s
  {
    if s != [] {
      var n := |s|;
      NameOfValue(s[..n - 1]);
      assert Value(s) / 32 == Value(s[..n - 1]) && Value(s) % 32 == Digit(s[n - 1]);
      assert Symbol(Digit(s[n - 1])) == s[n - 1];
      assert s == s[..n - 1] + [s[n - 1]];
    }
  }

  lemma {:induction false} ValueOfName(value: nat, width: nat)
    requires value < Base32(width)
    ensures Value(Name(value, width)) == value
  {
    if width > 0 {
      var s := Name(value, width);
      assert s[..width - 1] == Name(value / 32, width - 1);
      assert Digit(Symbol(value % 32)) == value % 32;
      assert Base32(width) == 32 * Base32(width - 1);
      ValueOfName(value / 32, width - 1);
    }
  }

  /** Eight symbols hold five bytes. */
  lemma {:induction false} SymbolsHoldBytes(k: nat)
    ensures Base32(8 * k) == Limit(5 * k)
  {
    if k > 0 {
      SymbolsHoldBytes(k - 1);
      var n, m := 8 * k - 8, 5 * k - 5;
      assert Base32(n + 1) == 32 * Base32(n) && Base32(n + 2) == 32 * Base32(n + 1) && Base32(n + 3) == 32 * Base32(n + 2);
      assert Base32(n + 4) == 32 * Base32(n + 3) && Base32(n + 5) == 32 * Base32(n + 4) && Base32(n + 6) == 32 * Base32(n + 5);
      assert Base32(n + 7) == 32 * Base32(n + 6) && Base32(n + 8) == 32 * Base32(n + 7);
      assert Limit(m + 1) == 256 * Limit(m) && Limit(m + 2) == 256 * Limit(m + 1) && Limit(m + 3) == 256 * Limit(m + 2);
      assert Limit(m + 4) == 256 * Limit(m + 3) && Limit(m + 5) == 256 * Limit(m + 4);
    }
  }

  /* ----- validation ----- */

  function Decoded(name: string): (raw: seq<Byte>)
    requires IsName(name) && |name| == NAME_LENGTH
    ensures |raw| == KEY_LENGTH + 3
  {
    BigEndian(Value(name), KEY_LENGTH + 3)
  }

  /** `checksum` stands for the digest of a key, of which two bytes count. */
  predicate Endorsed(raw: seq<Byte>, checksum: seq<Byte> -> (Byte, Byte)) {
    && |raw| == KEY_LENGTH + 3 && raw[KEY_LENGTH + 2] == VERSION
    && raw[KEY_LENGTH] == checksum(raw[..KEY_LENGTH]).0 && raw[KEY_LENGTH + 1] == checksum(raw[..KEY_LENGTH]).1
  }

  /** `OnionEndpoint::validate`. */
  predicate Validates(e: Endpoint, checksum: seq<Byte> -> (Byte, Byte)) {
    && e.port != 0 && |e.host| == NAME_LENGTH + |SUFFIX| && e.host[NAME_LENGTH..] == SUFFIX
    && IsName(e.host[..NAME_LENGTH])
    && Endorsed(Decoded(e.host[..NAME_LENGTH]), checksum)
  }

  function KeyOf(e: Endpoint): (key: seq<Byte>)
    requires |e.host| >= NAME_LENGTH && IsName(e.host[..NAME_LENGTH])
    ensures |key| == KEY_LENGTH
  {
    Decoded(e.host[..NAME_LENGTH])[..KEY_LENGTH]
  }

  /** The service name of a key. */
  function HostOf(key: seq<Byte>, checksum: seq<Byte> -> (Byte, Byte)): string {
    Name(ReadBig(key + [checksum(key).0, checksum(key).1, VERSION]), NAME_LENGTH) + SUFFIX
  }

  lemma DecodedIsValue(name: string)
    requires IsName(name) && |name| == NAME_LENGTH
    ensures ReadBig(Decoded(name)) == Value(name)
  {
    ValueInRange(name);
    SymbolsHoldBytes(7);
    ReadAfterWrite(Value(name), KEY_LENGTH + 3);
  }

  lemma {:induction false} ReadInRange(bytes: seq<Byte>)
    ensures ReadBig(bytes) < Limit(|bytes|)
  {
    if bytes != [] {
      ReadInRange(bytes[..|bytes| - 1]);
    }
  }

  lemma DecodedName(raw: seq<Byte>)
    requires |raw| == KEY_LENGTH + 3
    ensures Decoded(Name(ReadBig(raw), NAME_LENGTH)) == raw
  {
    ReadInRange(raw);
    SymbolsHoldBytes(7);
    ValueOfName(ReadBig(raw), NAME_LENGTH);
    WriteAfterRead(raw);
  }

  /** An endpoint is accepted exactly when its host is the one name of the key it decodes to. */
  lemma ValidExactlyForItsKey(e: Endpoint, checksum: seq<Byte> -> (Byte, Byte))
    ensures Validates(e, checksum) <==>
      && e.port != 0 && |e.host| >= NAME_LENGTH && IsName(e.host[..NAME_LENGTH])
      && e.host == HostOf(KeyOf(e), checksum)
  {
    hide Name, Value, Decoded, ReadBig;
    if |e.host| >= NAME_LENGTH && IsName(e.host[..NAME_LENGTH]) {
      var name, key := e.host[..NAME_LENGTH], KeyOf(e);
      var raw := key + [checksum(key).0, checksum(key).1, VERSION];
      DecodedIsValue(name);
      NameOfValue(name);
      DecodedName(raw);
      assert Endorsed(Decoded(name), checksum) ==> Decoded(name) == raw;
      assert raw[..KEY_LENGTH] == key;
      assert HostOf(key, checksum)[..NAME_LENGTH] == Name(ReadBig(raw), NAME_LENGTH);
      assert e.host == name + e.host[NAME_LENGTH..];
    }
  }

  /** Every key has exactly one accepted host. */
  lemma EveryKeyHasItsHost(key: seq<Byte>, port: nat, checksum: seq<Byte> -> (Byte, Byte))
    requires |key| == KEY_LENGTH && port != 0
    ensures var e := Endpoint(HostOf(key, checksum), port);
      Validates(e, checksum) && KeyOf(e) == key
  {
    hide Name, Value, Decoded, ReadBig;
    var raw := key + [checksum(key).0, checksum(key).1, VERSION];
    DecodedName(raw);
    assert raw[..KEY_LENGTH] == key;
    assert HostOf(key, checksum)[..NAME_LENGTH] == Name(ReadBig(raw), NAME_LENGTH);
  }
}
