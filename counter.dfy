/** The counter arithmetic `incr`/`decr` behind Incr and Decr: one step up or
    down within the value's own Go type, refusing to wrap around. */
module Counter {
  import opened Wrappers
  import opened CacheErrors
  import opened Values
  import GoInt

  /** `incr(v)`: v + 1 of the same kind, or why not. */
  function Incr(ws: WordSize, v: Value): (r: Result<Value, CacheError>)
    ensures r.Ok? <==> IsInteger(v) && v.n < MaxOf(ws, v)
    ensures r.Ok? ==> SameKind(r.value, v) && r.value.n == v.n + 1
    ensures !IsInteger(v) ==> r == Err(NotIntegerType)
    ensures IsInteger(v) && r.Err? ==> r.error == IncrementOverflow
  {
    if !IsInteger(v) then Err(NotIntegerType)
    else if v.n >= MaxOf(ws, v) then Err(IncrementOverflow)
    else Ok(v.(n := v.n + 1))
  }

  /** `decr(v)`: v - 1 of the same kind, or why not. */
  function Decr(ws: WordSize, v: Value): (r: Result<Value, CacheError>)
    ensures r.Ok? <==> IsInteger(v) && MinOf(ws, v) < v.n
    ensures r.Ok? ==> SameKind(r.value, v) && r.value.n == v.n - 1
    ensures !IsInteger(v) ==> r == Err(NotIntegerType)
    ensures IsInteger(v) && r.Err? ==> r.error == DecrementOverflow
  {
    if !IsInteger(v) then Err(NotIntegerType)
    else if v.n <= MinOf(ws, v) then Err(DecrementOverflow)
    else Ok(v.(n := v.n - 1))
  }

  /** A step keeps the value inside its Go type. */
  lemma StepsStayRepresentable(ws: WordSize, v: Value)
    requires Representable(ws, v)
    ensures Incr(ws, v).Ok? ==> Representable(ws, Incr(ws, v).value)
    ensures Decr(ws, v).Ok? ==> Representable(ws, Decr(ws, v).value)
  {
  }

  /** Decrementing undoes a successful increment, kind included. */
  lemma IncrThenDecr(ws: WordSize, v: Value)
    requires Representable(ws, v)
    requires Incr(ws, v).Ok?
    ensures Decr(ws, Incr(ws, v).value) == Ok(v)
  {
  }

  /** Incrementing undoes a successful decrement, kind included. */
  lemma DecrThenIncr(ws: WordSize, v: Value)
    requires Representable(ws, v)
    requires Decr(ws, v).Ok?
    ensures Incr(ws, Decr(ws, v).value) == Ok(v)
  {
  }

  /** One to two, in each of the six kinds. */
  lemma IncrFromOne(ws: WordSize)
    ensures Incr(ws, Int(1)) == Ok(Int(2)) && Incr(ws, Int32(1)) == Ok(Int32(2))
    ensures Incr(ws, Int64(1)) == Ok(Int64(2)) && Incr(ws, Uint(1)) == Ok(Uint(2))
    ensures Incr(ws, Uint32(1)) == Ok(Uint32(2)) && Incr(ws, Uint64(1)) == Ok(Uint64(2))
  {
  }

  /** Each kind's maximum overflows: 2^(ws-1)-1 for int, 2^ws-1 for uint. */
  lemma IncrAtMaximum(ws: WordSize)
    ensures Incr(ws, Int(if ws == 32 then 0x7fff_ffff else 0x7fff_ffff_ffff_ffff)) == Err(IncrementOverflow)
    ensures Incr(ws, Int32(GoInt.MaxInt32)) == Err(IncrementOverflow)
    ensures Incr(ws, Int64(MaxInt64)) == Err(IncrementOverflow)
    ensures Incr(ws, Uint(if ws == 32 then 0xffff_ffff else 0xffff_ffff_ffff_ffff)) == Err(IncrementOverflow)
    ensures Incr(ws, Uint32(MaxUint32)) == Err(IncrementOverflow)
    ensures Incr(ws, Uint64(MaxUint64)) == Err(IncrementOverflow)
  {
  }

  /** Two to one, in each of the six kinds. */
  lemma DecrFromTwo(ws: WordSize)
    ensures Decr(ws, Int(2)) == Ok(Int(1)) && Decr(ws, Int32(2)) == Ok(Int32(1))
    ensures Decr(ws, Int64(2)) == Ok(Int64(1)) && Decr(ws, Uint(2)) == Ok(Uint(1))
    ensures Decr(ws, Uint32(2)) == Ok(Uint32(1)) && Decr(ws, Uint64(2)) == Ok(Uint64(1))
  {
  }

  /** Each kind's minimum underflows: -2^(ws-1) for int, 0 for the unsigned kinds. */
  lemma DecrAtMinimum(ws: WordSize)
    ensures Decr(ws, Int(if ws == 32 then -0x8000_0000 else -0x8000_0000_0000_0000)) == Err(DecrementOverflow)
    ensures Decr(ws, Int32(GoInt.MinInt32)) == Err(DecrementOverflow)
    ensures Decr(ws, Int64(MinInt64)) == Err(DecrementOverflow)
    ensures Decr(ws, Uint(0)) == Err(DecrementOverflow)
    ensures Decr(ws, Uint32(0)) == Err(DecrementOverflow)
    ensures Decr(ws, Uint64(0)) == Err(DecrementOverflow)
  {
  }

  /** A string (or any other non-integer) is refused by both. */
  lemma NonIntegersRefused(ws: WordSize, v: Value)
    requires v.Str? || v.Bytes? || v.Other?
    ensures Incr(ws, v) == Err(NotIntegerType) && Decr(ws, v) == Err(NotIntegerType)
  {
  }
}
