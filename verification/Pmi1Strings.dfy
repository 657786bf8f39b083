/** The bounded string copies of the PMI1 client. */
module Pmi1Strings {
  import opened Bytes

  /** The part of a string that fits a block of n bytes with its NUL. */
  function Cut(s: seq<Byte>, n: nat): (c: seq<Byte>)
    ensures c <= s
    ensures |c| == if |s| < n then |s| else if n == 0 then 0 else n - 1
  {
    if |s| < n then s else if n == 0 then [] else s[..n - 1]
  }

  /** MPIU_Strncpy: the copy and its NUL, never past n; false when the string does not fit. */
  method Strncpy(dest: array<Byte>, src: array<Byte>, n: nat) returns (ok: bool)
    requires n <= dest.Length && Terminated(src[..]) && dest != src
    modifies dest
    ensures n > 0 ==> CStr(dest[..]) == Cut(CStr(src[..]), n) && (ok <==> |CStr(src[..])| < n)
    ensures n == 0 ==> ok
    ensures forall i :: n <= i < dest.Length ==> dest[i] == old(dest[i])
  {
    if n == 0 {
      return true;
    }
    ghost var s := CStr(src[..]);
    CStrEnds(src[..]);
    var i, k: int := 0, n;
    while src[i] != NUL && k > 0
      invariant 0 <= i <= |s| && i + k == n && k >= 0
      invariant src[..] == old(src[..])
      invariant forall j :: 0 <= j < i ==> dest[j] == s[j]
      invariant forall j :: n <= j < dest.Length ==> dest[j] == old(dest[j])
      decreases k
    {
      dest[i] := src[i];
      i := i + 1;
      k := k - 1;
    }
    if k > 0 {
      dest[i] := NUL;
      CStrIs(dest[..], s);
      return true;
    } else {
      dest[n - 1] := NUL;
      CStrIs(dest[..], s[..n - 1]);
      return false;
    }
  }

  lemma {:induction false} CStrEnds(block: seq<Byte>)
    requires Terminated(block)
    ensures |CStr(block)| < |block|
  {
    if block[0] != NUL {
      assert block == [block[0]] + block[1..];
      CStrEnds(block[1..]);
    }
  }

  /** A block that starts with a NUL-free string and a NUL holds that string. */
  lemma CStrIs(block: seq<Byte>, s: seq<Byte>)
    requires |s| < |block| && (forall j :: 0 <= j < |s| ==> block[j] == s[j]) && block[|s|] == NUL && NUL !in s
    ensures CStr(block) == s
  {
    assert block == s + [NUL] + block[|s| + 1..];
    CStrStops(s, block[|s| + 1..]);
  }

  /** What MPIU_Strnapp makes of two strings and a block of n bytes: without room for one byte more it
      does nothing; a source that does not fit is cut one byte shorter than would fit. */
  function Appended(d: seq<Byte>, s: seq<Byte>, n: nat): (r: seq<Byte>)
    ensures |d| < n ==> |r| < n
    ensures r <= d + s && |r| == if |d| + 1 >= n then |d| else if |d| + |s| < n then |d| + |s| else n - 2
    ensures r == d + s <==> s == [] || |d| + |s| < n
  {
    if |d| + 1 >= n then
      assert s != [] ==> |d + s| > |d|;
      assert d + [] == d;
      d
    else
      var room := n - |d| - 1;
      if |s| <= room then d + s
      else
        assert |d + s[..room - 1]| < |d + s|;
        d + s[..room - 1]
  }

  /** The result is all that fits of the two strings exactly when both fit, or the block was full
      before, or there is no block and nothing in it. */
  lemma AppendedExactly(d: seq<Byte>, s: seq<Byte>, n: nat)
    ensures Appended(d, s, n) == Cut(d + s, n) <==> |d| + |s| < n || |d| + 1 == n || (n == 0 && d == [])
  {
    assert d + [] == d;
    if |d| + |s| >= n > 0 {
      assert |Cut(d + s, n)| == n - 1;
      assert |d| >= n - 1 ==> (d + s)[..n - 1] == d[..n - 1];
    }
  }

  /** Appending "bc" to "a" in a block of three gives "a", where "ab" would fit. */
  lemma AppendedOneShort()
    ensures Appended([97], [98, 99], 3) == [97] && Cut([97] + [98, 99], 3) == [97, 98]
  {
    assert [98, 99][..0] == [];
  }

  method Strnapp(dest: array<Byte>, src: array<Byte>, n: nat) returns (ok: bool)
    requires n <= dest.Length && Terminated(dest[..]) && Terminated(src[..]) && dest != src
    modifies dest
    ensures CStr(dest[..]) == Appended(CStr(old(dest[..])), CStr(src[..]), n)
    ensures ok <==> |CStr(old(dest[..]))| + 1 < n && |CStr(old(dest[..]))| + |CStr(src[..])| < n
    ensures forall i :: n <= i < dest.Length ==> dest[i] == old(dest[i])
  {
    ghost var d, s := CStr(dest[..]), CStr(src[..]);
    CStrEnds(dest[..]);
    CStrEnds(src[..]);
    var at: nat, i: int := 0, n;
    while i > 0 && dest[at] != NUL
      invariant at <= |d| && at + i == n && i >= 0
      decreases i
    {
      at, i := at + 1, i - 1;
    }
    i := i - 1;
    if i <= 0 {
      return false;
    }
    ok := CopyOnto(dest, src, n, at, d, s);
  }

  /** The copying half: at stands on the NUL of the string in dest. */
  method CopyOnto(dest: array<Byte>, src: array<Byte>, n: nat, start: nat, ghost d: seq<Byte>, ghost s: seq<Byte>)
    returns (ok: bool)
    requires dest != src && start == |d| && start + 1 < n <= dest.Length && dest[..start] == d && NUL !in d
    requires Terminated(src[..]) && s == CStr(src[..])
    modifies dest
    ensures CStr(dest[..]) == Appended(d, s, n) && (ok <==> |d| + |s| < n)
    ensures forall i :: n <= i < dest.Length ==> dest[i] == old(dest[i])
  {
    CStrEnds(src[..]);
    var at, i: int, k: nat := start, n - 1 - start, 0;
    while src[k] != NUL && i > 0
      invariant k <= |s| && at == start + k && at + i == n - 1 && i >= 0
      invariant forall j :: 0 <= j < start ==> dest[j] == d[j]
      invariant forall j :: 0 <= j < k ==> dest[start + j] == s[j]
      invariant forall j :: n <= j < dest.Length ==> dest[j] == old(dest[j])
      decreases i
    {
      dest[at] := src[k];
      at, k, i := at + 1, k + 1, i - 1;
    }
    ok := src[k] == NUL;
    at := if ok then at else at - 1;
    dest[at] := NUL;
    assert NUL !in d + s[..at - start];
    CStrIs(dest[..], d + s[..at - start]);
    assert ok ==> s[..at - start] == s;
  }
}
