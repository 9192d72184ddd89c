/** The dynamically typed values the cache stores (Go's `interface{}`),
    closed over the kinds the cache distinguishes. */
module Values {
  import GoStrings
  import GoInt

  /** `strconv.IntSize`: the width of Go's native `int` and `uint`. */
  type WordSize = w: int | w == 32 || w == 64 witness 64

  datatype Value =
    | Str(s: string)
    | Bytes(b: seq<GoStrings.byte>)
    | Int(n: int)
    | Int32(n: int)
    | Int64(n: int)
    | Uint(n: int)
    | Uint32(n: int)
    | Uint64(n: int)
    /** a value of any other Go type (a float, a struct, ...), by its type name */
    | Other(typeName: string)

  const MinInt64: int := -0x8000_0000_0000_0000
  const MaxInt64: int := 0x7fff_ffff_ffff_ffff
  const MaxUint32: int := 0xffff_ffff
  const MaxUint64: int := 0xffff_ffff_ffff_ffff

  /** One of the six integer kinds incr/decr accept. */
  predicate IsInteger(v: Value)
  {
    v.Int? || v.Int32? || v.Int64? || v.Uint? || v.Uint32? || v.Uint64?
  }

  /** The least value of the kind of `v` on a platform of word size `ws`. */
  function MinOf(ws: WordSize, v: Value): int
    requires IsInteger(v)
  {
    match v
    case Int(_) => if ws == 32 then GoInt.MinInt32 else MinInt64
    case Int32(_) => GoInt.MinInt32
    case Int64(_) => MinInt64
    case _ => 0
  }

  /** The greatest value of the kind of `v` on a platform of word size `ws`. */
  function MaxOf(ws: WordSize, v: Value): int
    requires IsInteger(v)
  {
    match v
    case Int(_) => if ws == 32 then GoInt.MaxInt32 else MaxInt64
    case Int32(_) => GoInt.MaxInt32
    case Int64(_) => MaxInt64
    case Uint(_) => if ws == 32 then MaxUint32 else MaxUint64
    case Uint32(_) => MaxUint32
    case Uint64(_) => MaxUint64
  }

  /** The integer inside `v` fits its Go type; every Go value does. */
  predicate Representable(ws: WordSize, v: Value)
  {
    IsInteger(v) ==> MinOf(ws, v) <= v.n <= MaxOf(ws, v)
  }

  /** `a` and `b` have the same Go type. */
  predicate SameKind(a: Value, b: Value)
  {
    match a
    case Str(_) => b.Str?
    case Bytes(_) => b.Bytes?
    case Int(_) => b.Int?
    case Int32(_) => b.Int32?
    case Int64(_) => b.Int64?
    case Uint(_) => b.Uint?
    case Uint32(_) => b.Uint32?
    case Uint64(_) => b.Uint64?
    case Other(t) => b.Other? && b.typeName == t
  }
}
