/** The engine's private string routines (commands.c:10-43). Each walks its
    arguments byte by byte as the source's pointer loops do. */
module CStrings {
  import opened Bytes

  /** Copies bytes of the C string at the start of `src` into `dst` until a NUL
      or until `size` bytes are copied; like the source it writes no
      terminator. */
  method StrNCopy(dst: array<byte>, src: array<byte>, size: nat)
    requires dst != src
    requires NulFrom(src[..], 0)
    requires Min(size, CLength(src[..], 0)) <= dst.Length
    modifies dst
    ensures var n := Min(size, CLength(src[..], 0));
      dst[..n] == src[..n] && dst[n..] == old(dst[n..])
  {
    ghost var n := Min(size, CLength(src[..], 0));
    var i := 0;
    var left := size;
    while src[i] != NUL && left > 0
      invariant 0 <= i <= n && left == size - i
      invariant dst[..i] == src[..i] && dst[i..] == old(dst[i..])
      decreases left
    {
      dst[i] := src[i];
      i := i + 1;
      left := left - 1;
    }
  }

  /** The number of bytes before the first NUL at `from`, returned as the
      source's `unsigned short`. */
  method StrLen(s: array<byte>, from: nat) returns (n: nat)
    requires NulFrom(s[..], from)
    ensures n == CLength(s[..], from) % 0x1_0000
  {
    var result := 0;
    var p := from;
    while s[p] != NUL
      invariant from <= p < s.Length && result == p - from
      invariant p - from <= CLength(s[..], from)
      decreases s.Length - p
    {
      result := result + 1;
      p := p + 1;
    }
    n := result % 0x1_0000;
  }

  /** Compares two C strings; the difference of the first differing bytes,
      which is 0 exactly when the two strings are equal (the sign for bytes
      above 0x7F depends on the signedness of `char`, which is not modelled). */
  method StrCmp(s1: seq<byte>, s2: seq<byte>) returns (r: int)
    requires NulFrom(s1, 0) && NulFrom(s2, 0)
    ensures r == 0 <==> CString(s1, 0) == CString(s2, 0)
  {
    var i := 0;
    while s1[i] != NUL && s2[i] != NUL && s1[i] == s2[i]
      invariant i <= CLength(s1, 0) && i <= CLength(s2, 0)
      invariant s1[..i] == s2[..i]
      decreases |s1| - i
    {
      i := i + 1;
    }
    r := s1[i] as int - s2[i] as int;
    if r == 0 {
      CStringIs(s1, 0, s1[..i]);
      CStringIs(s2, 0, s2[..i]);
    } else if CLength(s1, 0) != i && CLength(s2, 0) != i {
      assert CString(s1, 0)[i] != CString(s2, 0)[i];
    }
  }
}
