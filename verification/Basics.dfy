/** Machine integers, error codes and results shared by every component. */
module Basics {
  /** Largest integer a JSON peer can hold exactly; every stored time and counter stays below it. */
  const MAX_INTEGER: int := 9_007_199_254_740_991
  const U32_LIMIT: int := 0x1_0000_0000
  const U64_LIMIT: int := 0x1_0000_0000_0000_0000

  type U32 = x: int | 0 <= x < U32_LIMIT
  type U64 = x: int | 0 <= x < U64_LIMIT

  type Byte = x: int | 0 <= x < 256
  type Bytes32 = s: seq<Byte> | |s| == 32 witness seq(32, _ => 0)

  const ZERO32: seq<Byte> := [
    0, 0, 0, 0, 0, 0, 0, 0, 0, 0, 0, 0, 0, 0, 0, 0, 0, 0, 0, 0, 0, 0, 0, 0, 0, 0, 0, 0, 0, 0, 0, 0]

  /** A 32-byte identifier, digest, key, marker or commitment. */
  datatype Word = Word(bytes: Bytes32)

  const ZERO: Word := Word(ZERO32)

  datatype Error =
    | InvalidInput | Admission | Signature | Expired | Replay | PolicyMismatch
    | ClockRollback | Capacity | Storage | NoAllowance | CryptoProvider

  datatype Option<+T> = None | Some(value: T)

  datatype Result<+T> = Ok(value: T) | Err(error: Error) {
    predicate IsFailure() { Err? }

    function PropagateFailure<U>(): Result<U>
      requires Err?
    {
      Err(error)
    }

    function Extract(): T
      requires Ok?
    {
      value
    }
  }

  function Need(condition: bool, error: Error): Result<()> {
    if condition then Ok(()) else Err(error)
  }

  function Max(a: int, b: int): int {
    if a < b then b else a
  }

  function Min(a: int, b: int): int {
    if a < b then a else b
  }

  function CheckedAdd(a: U64, b: U64): Result<U64> {
    if a + b < U64_LIMIT then Ok(a + b) else Err(InvalidInput)
  }

  function CheckedMul(a: U64, b: U64): Result<U64> {
    if 0 <= a * b < U64_LIMIT then Ok(a * b) else Err(InvalidInput)
  }

  lemma DivisionBounds(n: int, d: int)
    requires 0 < d
    ensures n / d * d <= n < (n / d + 1) * d
    ensures (n / d + 1) * d == n / d * d + d
    ensures 0 <= n ==> 0 <= n / d
  {
    assert n == n / d * d + n % d;
  }

  /** Two instants whose window starts coincide are less than a window apart. */
  lemma QuotientUnique(n: int, d: int, q: int)
    requires 0 < d
    requires q * d <= n < q * d + d
    ensures n / d == q
  {
    DivisionBounds(n, d);
    assert (q + 1) * d == q * d + d;
    if n / d < q {
      MulMonotone(n / d + 1, q, d);
    } else if q < n / d {
      MulMonotone(q + 1, n / d, d);
    }
  }

  lemma MulMonotone(a: int, b: int, d: int)
    requires a <= b && 0 <= d
    ensures a * d <= b * d
  {
    assert 0 <= (b - a) * d;
    assert (b - a) * d == b * d - a * d;
  }

  lemma {:induction false} SubsetSize<T>(a: set<T>, b: set<T>)
    requires a <= b
    ensures |a| <= |b|
    decreases a
  {
    if a != {} {
      var x :| x in a;
      SubsetSize(a - {x}, b - {x});
    }
  }
}
