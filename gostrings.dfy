/** String operations of Go's standard library that the cache relies on. */
module GoStrings {

  /** `strings.Join`: the parts, with `sep` between neighbours. */
  function Join(parts: seq<string>, sep: string): string
  {
    if |parts| == 0 then ""
    else if |parts| == 1 then parts[0]
    else parts[0] + sep + Join(parts[1..], sep)
  }

  /** `t` occurs somewhere in `s`. */
  ghost predicate Mentions(s: string, t: string)
  {
    exists o :: 0 <= o <= |s| && t <= s[o..]
  }

  lemma MentionsTransitive(s: string, t: string, u: string)
    requires Mentions(s, t) && Mentions(t, u)
    ensures Mentions(s, u)
  {
    var o1 :| 0 <= o1 <= |s| && t <= s[o1..];
    var o2 :| 0 <= o2 <= |t| && u <= t[o2..];
    assert u <= s[o1 + o2..] by {
      forall k | 0 <= k < |u| ensures u[k] == s[o1 + o2..][k] {
        assert u[k] == t[o2 + k] == s[o1 + o2 + k];
      }
    }
  }

  /** Every part of a join shows up in the joined string. */
  lemma {:induction false} JoinMentions(parts: seq<string>, sep: string, i: nat)
    requires i < |parts|
    ensures Mentions(Join(parts, sep), parts[i])
  {
    var r := Join(parts, sep);
    if i == 0 {
      assert parts[0] <= r[0..];
    } else {
      JoinMentions(parts[1..], sep, i - 1);
      var rest := Join(parts[1..], sep);
      var o :| 0 <= o <= |rest| && parts[1..][i - 1] <= rest[o..];
      var o' := |parts[0]| + |sep| + o;
      assert r == parts[0] + sep + rest;
      assert r[o'..] == rest[o..];
    }
  }

  /** Every part at once. */
  lemma JoinMentionsAll(parts: seq<string>, sep: string)
    ensures forall i :: 0 <= i < |parts| ==> Mentions(Join(parts, sep), parts[i])
  {
    forall i | 0 <= i < |parts|
      ensures Mentions(Join(parts, sep), parts[i])
    {
      JoinMentions(parts, sep, i);
    }
  }

  /** A member of a join shows up in the joined string. */
  lemma JoinMentionsMember(parts: seq<string>, sep: string, p: string)
    requires p in parts
    ensures Mentions(Join(parts, sep), p)
  {
    var i :| 0 <= i < |parts| && parts[i] == p;
    JoinMentions(parts, sep, i);
  }

  /** An element of a Go `[]byte`. */
  newtype byte = x: int | 0 <= x < 0x100

  /** The UTF-8 encoding of one character: the length follows the code
      point's range, the lead byte carries the length's marker bits, every
      other byte is a continuation byte, and the payload bits read back to
      the code point. */
  function EncodeRune(c: char): (b: seq<byte>)
    ensures 1 <= |b| <= 4
    ensures (c as int < 0x80) == (|b| == 1)
    ensures (0x80 <= c as int < 0x800) == (|b| == 2)
    ensures (0x800 <= c as int < 0x10000) == (|b| == 3)
    ensures |b| == 1 ==> b[0] as int == c as int
    ensures |b| == 2 ==> 0xC0 <= b[0] < 0xE0
    ensures |b| == 3 ==> 0xE0 <= b[0] < 0xF0
    ensures |b| == 4 ==> 0xF0 <= b[0] < 0xF8
    ensures forall k :: 1 <= k < |b| ==> 0x80 <= b[k] < 0xC0
    ensures Payload(b) == c as int
  {
    var n := c as int;
    if n < 0x80 then [n as byte]
    else if n < 0x800 then TwoBytes(n)
    else if n < 0x10000 then ThreeBytes(n)
    else FourBytes(n)
  }

  /** The code point an encoded character's bytes carry: the payload bits
      of the lead byte, then six bits from each continuation byte. */
  function Payload(b: seq<byte>): int
    requires 1 <= |b| <= 4
  {
    var lead := b[0] as int - (if |b| == 1 then 0 else if |b| == 2 then 0xC0 else if |b| == 3 then 0xE0 else 0xF0);
    if |b| == 1 then lead
    else if |b| == 2 then lead * 0x40 + (b[1] as int - 0x80)
    else if |b| == 3 then (lead * 0x40 + (b[1] as int - 0x80)) * 0x40 + (b[2] as int - 0x80)
    else ((lead * 0x40 + (b[1] as int - 0x80)) * 0x40 + (b[2] as int - 0x80)) * 0x40 + (b[3] as int - 0x80)
  }

  /** `n` shifted right by six bits. */
  function Shift6(n: nat): (r: nat)
    ensures r * 0x40 <= n < r * 0x40 + 0x40
  {
    n / 0x40
  }

  /** A leading byte: marker bits `tag` above a payload below `limit`. */
  function Lead(tag: int, payload: int, limit: int): (r: byte)
    requires 0 <= tag && 0 <= limit && tag + limit <= 0x100
    requires 0 <= payload < limit
    ensures r as int - tag == payload
  {
    (tag + payload) as byte
  }

  /** A continuation byte: `10` followed by the low six bits of `n`. */
  function Continuation(n: nat): (r: byte)
    ensures 0x80 <= r < 0xC0
    ensures r as int - 0x80 == n - Shift6(n) * 0x40
  {
    (0x80 + (n - Shift6(n) * 0x40)) as byte
  }

  function TwoBytes(n: nat): (b: seq<byte>)
    requires 0x80 <= n < 0x800
    ensures |b| == 2 && 0xC0 <= b[0] < 0xE0 && 0x80 <= b[1] < 0xC0
    ensures Payload(b) == n
  {
    [Lead(0xC0, Shift6(n), 0x20), Continuation(n)]
  }

  function ThreeBytes(n: nat): (b: seq<byte>)
    requires 0x800 <= n < 0x10000
    ensures |b| == 3 && 0xE0 <= b[0] < 0xF0 && 0x80 <= b[1] < 0xC0 && 0x80 <= b[2] < 0xC0
    ensures Payload(b) == n
  {
    var a := Shift6(n);
    [Lead(0xE0, Shift6(a), 0x10), Continuation(a), Continuation(n)]
  }

  function FourBytes(n: nat): (b: seq<byte>)
    requires 0x10000 <= n <= 0x10FFFF
    ensures |b| == 4 && 0xF0 <= b[0] < 0xF8 && 0x80 <= b[1] < 0xC0 && 0x80 <= b[2] < 0xC0 && 0x80 <= b[3] < 0xC0
    ensures Payload(b) == n
  {
    var a := Shift6(n);
    var b := Shift6(a);
    [Lead(0xF0, Shift6(b), 8), Continuation(b), Continuation(a), Continuation(n)]
  }

  /** `[]byte(s)`: the UTF-8 bytes of a string. */
  function Utf8(s: string): (b: seq<byte>)
    ensures |s| <= |b| <= 4 * |s|
  {
    if s == [] then [] else EncodeRune(s[0]) + Utf8(s[1..])
  }

  /** An ASCII string converts byte for byte. */
  lemma {:induction false} Utf8Ascii(s: string)
    requires forall i :: 0 <= i < |s| ==> s[i] as int < 0x80
    ensures |Utf8(s)| == |s|
    ensures forall i :: 0 <= i < |s| ==> Utf8(s)[i] as int == s[i] as int
  {
    if s != [] {
      Utf8Ascii(s[1..]);
      assert Utf8(s) == EncodeRune(s[0]) + Utf8(s[1..]);
      forall i | 1 <= i < |s| ensures Utf8(s)[i] as int == s[i] as int {
        assert Utf8(s)[i] == Utf8(s[1..])[i - 1];
        assert s[1..][i - 1] == s[i];
      }
    }
  }
}
