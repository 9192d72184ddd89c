/** Go's integer operations where they differ from mathematical ones. */
module GoInt {

  /** `time.Second`, in nanoseconds (a `time.Duration` counts nanoseconds). */
  const Second: int := 1_000_000_000

  const MinInt32: int := -0x8000_0000
  const MaxInt32: int := 0x7fff_ffff

  /** Go's `int(d / time.Second)`: whole seconds of a duration, the quotient
      truncated toward zero (Go's `/`), not rounded down (Dafny's `/`). */
  function Seconds(d: int): (q: int)
    ensures d >= 0 ==> 0 <= q * Second <= d < q * Second + Second
    ensures d < 0 ==> q * Second - Second < d <= q * Second <= 0
  {
    if d >= 0 then d / Second else -((-d) / Second)
  }

  /** Go's conversion `int32(x)`: keeps the low 32 bits as two's complement. */
  function ToInt32(x: int): (r: int)
    ensures MinInt32 <= r <= MaxInt32
    ensures (x - r) % 0x1_0000_0000 == 0
    ensures MinInt32 <= x <= MaxInt32 ==> r == x
  {
    var m := x % 0x1_0000_0000;
    if m > MaxInt32 then m - 0x1_0000_0000 else m
  }
}
