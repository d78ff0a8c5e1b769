/** Model of utils.go: the integer-kind test used when reading the first
    argument, Go's fixed-width integer conversions, and the backoff function
    constructors ExponentialBackoff and RandInt. */
module Utils {

  const TWO_TO_63: int := 0x8000_0000_0000_0000
  const TWO_TO_64: int := 0x1_0000_0000_0000_0000

  /** Go's int and int64 (int is 64 bits wide on 64-bit platforms). */
  type int64 = x: int | -TWO_TO_63 <= x < TWO_TO_63
  /** Go's uint64: backoff cursors and backoff results, in seconds. */
  type uint64 = x: int | 0 <= x < TWO_TO_64

  /** A backoff function, func(uint64) uint64: the previous delay in seconds to the next. */
  type BackOffFn = uint64 -> uint64

  /** Conversion to uint64, which keeps the value modulo 2^64. */
  function ToUint64(x: int): (r: uint64)
    ensures 0 <= x < TWO_TO_64 ==> r == x
    ensures x < 0 && -TWO_TO_64 <= x ==> r == x + TWO_TO_64
  {
    x % TWO_TO_64
  }

  /** Conversion (and wrapping arithmetic) to int64: the two's-complement reading of the value modulo 2^64. */
  function ToInt64(x: int): (r: int64)
    ensures -TWO_TO_63 <= x < TWO_TO_63 ==> r == x
    ensures TWO_TO_63 <= x < TWO_TO_64 ==> r == x - TWO_TO_64
  {
    var m := x % TWO_TO_64;
    if m >= TWO_TO_63 then m - TWO_TO_64 else m
  }

  function Min(a: int, b: int): int
  {
    if a <= b then a else b
  }

  function Pow2(k: nat): (p: nat)
    ensures p >= 1
  {
    if k == 0 then 1 else 2 * Pow2(k - 1)
  }

  /** The kinds of Go's reflect package. */
  datatype Kind =
    | Invalid | Bool
    | Int | Int8 | Int16 | Int32 | Int64
    | Uint | Uint8 | Uint16 | Uint32 | Uint64 | Uintptr
    | Float32 | Float64 | Complex64 | Complex128
    | Array | Chan | Func | Interface | Map | Pointer | Slice | String | Struct | UnsafePointer

  /** The kinds isIntKind searches. */
  const INT_KINDS: seq<Kind> := [Int, Int8, Int16, Int32, Int64]

  /** isIntKind: a search of INT_KINDS; only the signed integer kinds qualify. */
  function IsIntKind(kind: Kind): (b: bool)
    ensures b <==> kind.Int? || kind.Int8? || kind.Int16? || kind.Int32? || kind.Int64?
  {
    kind in INT_KINDS
  }

  /** ExponentialBackoff(maxBackOff): doubles the previous delay (in uint64
      arithmetic, which wraps) and caps it at uint64(maxBackOff). */
  function ExponentialBackoff(maxBackOff: int64): (f: BackOffFn)
    ensures forall x: uint64 :: f(x) <= ToUint64(maxBackOff)
    ensures forall x: uint64 :: 2 * x < TWO_TO_64 ==> f(x) == Min(2 * x, ToUint64(maxBackOff))
  {
    (lastBackOff: uint64) =>
      var exponentialBackOff := ToUint64(lastBackOff * 2);
      if exponentialBackOff > ToUint64(maxBackOff) then ToUint64(maxBackOff) else exponentialBackOff
  }

  /** The backoff cursor after k applications of f. */
  function Iterate(f: BackOffFn, x: uint64, k: nat): uint64
    decreases k
  {
    if k == 0 then x else Iterate(f, f(x), k - 1)
  }

  /** randomIntWithinRange: lower plus a draw from [0, upper - lower), converted
      to uint64; intn stands for the value drawn. The draw panics unless the
      width is positive, and the int subtraction must not wrap. */
  function RandomIntWithinRange(lower: int64, upper: int64, intn: int): (r: uint64)
    requires 0 < upper - lower < TWO_TO_63
    requires 0 <= intn < upper - lower
    ensures 0 <= lower ==> lower <= r < upper
    ensures lower <= r < upper || TWO_TO_64 + lower <= r < TWO_TO_64 + upper
  {
    ToUint64(lower + intn)
  }

  /** RandInt(lower, upper): a backoff function that ignores the previous delay
      and answers a draw from [lower, upper). One draw, intn, stands for the
      value Intn returns on the call described. */
  function RandInt(lower: int64, upper: int64, intn: int): (f: BackOffFn)
    requires 0 < upper - lower < TWO_TO_63
    requires 0 <= intn < upper - lower
    ensures forall x, y :: f(x) == f(y)
    ensures 0 <= lower ==> forall x :: lower <= f(x) < upper
  {
    (_: uint64) => RandomIntWithinRange(lower, upper, intn)
  }

  /** ExponentialBackoff(m) never answers more than uint64(m); for 0 <= m that is m. */
  lemma ExponentialBackoffCapped(m: int64, x: uint64)
    requires 0 <= m
    ensures ExponentialBackoff(m)(x) <= m
  {
  }

  /** The cap is a fixed point: once the cursor reaches m it stays there. */
  lemma ExponentialBackoffFixedPoint(m: int64)
    requires 0 <= m
    ensures ExponentialBackoff(m)(m) == m
  {
  }

  /** Iterating ExponentialBackoff(m) from min(2^a, m) for k steps gives min(2^(a+k), m). */
  lemma {:induction false} ExponentialIterate(m: int64, a: nat, k: nat)
    requires 0 < m
    ensures Iterate(ExponentialBackoff(m), Min(Pow2(a), m), k) == Min(Pow2(a + k), m)
    decreases k
  {
    if k > 0 {
      var f := ExponentialBackoff(m);
      var x := Min(Pow2(a), m);
      assert f(x) == Min(Pow2(a + 1), m);
      ExponentialIterate(m, a + 1, k - 1);
    }
  }

  /** Starting at 1, the k-th cursor of ExponentialBackoff(m) is min(2^k, m). */
  lemma ExponentialFromOne(m: int64, k: nat)
    requires 0 < m
    ensures Iterate(ExponentialBackoff(m), 1, k) == Min(Pow2(k), m)
  {
    ExponentialIterate(m, 0, k);
  }

  lemma {:induction false} Pow2AtLeast16(k: nat)
    requires k >= 4
    ensures Pow2(k) >= 16
  {
    if k > 4 {
      Pow2AtLeast16(k - 1);
    }
  }

  /** ExponentialBackoff(10) from 1: 1, 2, 4, 8, 10 and 10 from then on. */
  lemma ExponentialBackoffTen(k: nat)
    ensures [Iterate(ExponentialBackoff(10), 1, 0), Iterate(ExponentialBackoff(10), 1, 1),
             Iterate(ExponentialBackoff(10), 1, 2), Iterate(ExponentialBackoff(10), 1, 3),
             Iterate(ExponentialBackoff(10), 1, 4)] == [1, 2, 4, 8, 10]
    ensures k >= 4 ==> Iterate(ExponentialBackoff(10), 1, k) == 10
  {
    ExponentialFromOne(10, 0);
    ExponentialFromOne(10, 1);
    ExponentialFromOne(10, 2);
    ExponentialFromOne(10, 3);
    ExponentialFromOne(10, 4);
    assert Pow2(4) == 16 by {
      assert Pow2(1) == 2;
      assert Pow2(2) == 4;
      assert Pow2(3) == 8;
    }
    if k >= 4 {
      ExponentialFromOne(10, k);
      Pow2AtLeast16(k);
    }
  }
}
