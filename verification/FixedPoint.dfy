/** The 18-digit fixed-point decimals of the Cosmos SDK (math/dec.go of v0.47), kept as the raw
    integer, that is, the value times 10^18. */
module FixedPoint {

  const PRECISION: int := 1_000_000_000_000_000_000
  const MAX_INT64: int := 0x7fff_ffff_ffff_ffff

  type Uint64 = x: int | 0 <= x < 0x1_0000_0000_0000_0000

  /** Go's conversion int64(x) of an unsigned 64-bit integer. */
  function ToInt64(x: Uint64): int {
    if x <= MAX_INT64 then x else x - 0x1_0000_0000_0000_0000
  }

  predicate IsInt64(x: int) {
    -MAX_INT64 - 1 <= x <= MAX_INT64
  }

  /** Go's integer division, which truncates toward zero. */
  function TruncDiv(x: int, y: int): int
    requires y != 0
  {
    if x >= 0 then x / y else -((-x) / y)
  }

  /** Division by 10^18, rounding half to even. */
  function ChopAndRound(x: int): int {
    if x < 0 then -ChopPositive(-x) else ChopPositive(x)
  }

  function ChopPositive(x: nat): int {
    var quo, rem := x / PRECISION, x % PRECISION;
    if 2 * rem < PRECISION || (2 * rem == PRECISION && quo % 2 == 0) then quo else quo + 1
  }

  /** It is the nearest integer, and of two that are equally near the even one. */
  lemma ChopIsNearest(x: int)
    ensures var r := ChopAndRound(x);
      && -PRECISION <= 2 * (x - r * PRECISION) <= PRECISION
      && (2 * (x - r * PRECISION) == PRECISION || 2 * (x - r * PRECISION) == -PRECISION ==> r % 2 == 0)
  {
  }

  datatype Dec = Dec(raw: int) {
    function Mul(that: Dec): Dec {
      Dec(ChopAndRound(raw * that.raw))
    }

    function MulInt(n: int): Dec {
      Dec(raw * n)
    }

    function TruncateInt(): int {
      TruncDiv(raw, PRECISION)
    }

    function RoundInt(): int {
      ChopAndRound(raw)
    }

    function Ceil(): Dec {
      var quo := TruncDiv(raw, PRECISION);
      if raw - quo * PRECISION <= 0 then NewDec(quo) else NewDec(quo + 1)
    }
  }

  function NewDec(n: int): Dec {
    Dec(n * PRECISION)
  }

  /** Multiplying by a whole number loses nothing, although `Mul` rounds. */
  lemma MulByWholeIsExact(d: Dec, n: int)
    ensures d.Mul(NewDec(n)) == Dec(d.raw * n)
  {
  }

  /** `Ceil().RoundInt()` is the least integer not below the decimal. */
  lemma CeilIsLeastUpperInteger(d: Dec)
    ensures (d.Ceil().RoundInt() - 1) * PRECISION < d.raw <= d.Ceil().RoundInt() * PRECISION
  {
  }
}
