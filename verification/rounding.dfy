/**
 The value transform of the primary-shards size metric: bytes divided by 1024 three times,
 then printed with `%.2f` and parsed back. Values are exact reals here: the result is the
 number the two-decimal string denotes.
 */
module Rounding {

  /** 1024 * 1024 * 1024. */
  const BytesPerGiB: int := 1073741824

  /** A byte count in gibibytes. */
  function GiB(bytes: int): (r: real)
    ensures r * BytesPerGiB as real == bytes as real
    ensures bytes >= 0 ==> r >= 0.0
  {
    bytes as real / BytesPerGiB as real
  }

  /** The integer nearest to `x`, ties going to the even neighbour (how Go's strconv rounds an exact value). */
  function RoundHalfEven(x: real): (k: int)
    ensures k as real - 0.5 <= x <= k as real + 0.5
    ensures (x == k as real - 0.5 || x == k as real + 0.5) ==> k % 2 == 0
  {
    var n := x.Floor;
    var frac := x - n as real;
    if frac < 0.5 then n
    else if frac > 0.5 then n + 1
    else if n % 2 == 0 then n
    else n + 1
  }

  /** The value of `x` printed with two decimals: a whole number of hundredths within half a hundredth of `x`. */
  function TwoDecimals(x: real): (r: real)
    ensures (r * 100.0).Floor as real == r * 100.0
    ensures -0.005 <= r - x <= 0.005
    // a value exactly half-way between two hundredths goes to the even one
    ensures (r - x == 0.005 || x - r == 0.005) ==> (r * 100.0).Floor % 2 == 0
  {
    RoundHalfEven(x * 100.0) as real / 100.0
  }

  /** A tie is settled towards the even hundredth: 0.125 prints as 0.12, 0.375 as 0.38. */
  lemma TiesGoToEven()
    ensures TwoDecimals(0.125) == 0.12
    ensures TwoDecimals(0.375) == 0.38
  {
  }
}
