/** Bytes, optional values and NUL-terminated byte strings, the representation
    the console engine works on. A C `const char *` into a buffer is modelled
    by a position of that buffer; the string it designates is the bytes from
    there up to (not including) the first NUL. */
module Bytes {

  newtype byte = x: int | 0 <= x < 256

  const NUL: byte := 0

  /** A possibly absent value: a NULL pointer is `None`. */
  datatype Option<+T> = None | Some(value: T)

  function Min(a: nat, b: nat): nat { if a <= b then a else b }

  /** The bytes of an ASCII string literal. */
  function Ascii(s: string): (r: seq<byte>)
    ensures |r| == |s|
  {
    seq(|s|, i requires 0 <= i < |s| => (s[i] as int % 256) as byte)
  }

  /** A C string is a byte sequence without an embedded NUL. */
  predicate IsCString(s: seq<byte>) { NUL !in s }

  /** Some NUL follows position `p` of `b`: a C string is stored at `p`. */
  predicate NulFrom(b: seq<byte>, p: nat)
  {
    exists m :: p <= m < |b| && b[m] == NUL
  }

  /** The length of the C string stored at position `p` of `b`: the distance
      from `p` to the first NUL at or after it. */
  function CLength(b: seq<byte>, p: nat): (n: nat)
    requires NulFrom(b, p)
    ensures p + n < |b| && b[p + n] == NUL
    ensures forall m :: p <= m < p + n ==> b[m] != NUL
    decreases |b| - p
  {
    if b[p] == NUL then 0 else 1 + CLength(b, p + 1)
  }

  /** The C string stored at position `p` of `b`. */
  function CString(b: seq<byte>, p: nat): (r: seq<byte>)
    requires NulFrom(b, p)
    ensures |r| == CLength(b, p) && IsCString(r)
    ensures forall m :: 0 <= m < |r| ==> r[m] == b[p + m]
  {
    seq(CLength(b, p), m requires 0 <= m < CLength(b, p) => b[p + m])
  }

  /** The C string a pointer to position `p` of `b` designates; empty when no
      NUL follows `p`. */
  function CStringAt(b: seq<byte>, p: nat): seq<byte>
  {
    if NulFrom(b, p) then CString(b, p) else []
  }

  /** A C string is determined by its bytes up to the first NUL. */
  lemma CStringIs(b: seq<byte>, p: nat, x: seq<byte>)
    requires p + |x| < |b| && b[p + |x|] == NUL && IsCString(x)
    requires forall m :: 0 <= m < |x| ==> b[p + m] == x[m]
    ensures NulFrom(b, p) && CString(b, p) == x
  {
    assert b[p + |x|] == NUL;
    forall m | p <= m < p + |x| ensures b[m] != NUL {
      assert b[p + (m - p)] == x[m - p] && x[m - p] in x;
    }
    assert CLength(b, p) == |x|;
  }
}
