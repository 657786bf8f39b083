/** The buffered line reader of the PMI1 client: lines cut from a stream that arrives in pieces. */
module Pmi1Line {
  import opened Bytes
  import opened Descriptors

  const MAX_READLINE: nat := 1024

  /** The line at the front of a stream: to its first newline, to m bytes, or to the end. */
  function Line(s: seq<Byte>, m: nat): (line: seq<Byte>)
    ensures line <= s && |line| <= m
  {
    if s == [] || m == 0 then []
    else if s[0] == NEWLINE then [NEWLINE]
    else [s[0]] + Line(s[1..], m - 1)
  }

  /** Where a line stops, and that it stops nowhere else. */
  lemma {:induction false} LineStops(s: seq<Byte>, m: nat)
    ensures var n := |Line(s, m)|;
            && (forall i :: 0 <= i < n - 1 ==> Line(s, m)[i] != NEWLINE)
            && ((n > 0 && Line(s, m)[n - 1] == NEWLINE) || n == m || n == |s|)
    decreases |s|
  {
    if s != [] && m > 0 && s[0] != NEWLINE { LineStops(s[1..], m - 1); }
  }

  /** What successive calls return. */
  function Lines(s: seq<Byte>, m: nat): seq<seq<Byte>>
    requires m > 0
    decreases |s|
  {
    if s == [] then [] else [Line(s, m)] + Lines(s[|Line(s, m)|..], m)
  }

  function Concat(ls: seq<seq<Byte>>): seq<Byte> { if ls == [] then [] else ls[0] + Concat(ls[1..]) }

  /** Nothing is lost and nothing is added. */
  lemma {:induction false} LinesMakeTheStream(s: seq<Byte>, m: nat)
    requires m > 0
    ensures Concat(Lines(s, m)) == s
    decreases |s|
  {
    if s != [] {
      var line, rest := Line(s, m), s[|Line(s, m)|..];
      LinesMakeTheStream(rest, m);
      ConcatFirst(line, Lines(rest, m));
      assert s == line + rest;
    }
  }

  lemma ConcatFirst(line: seq<Byte>, ls: seq<seq<Byte>>)
    ensures Concat([line] + ls) == line + Concat(ls)
  {
    assert ([line] + ls)[1..] == ls;
  }

  /** A text line: one newline, at its end. */
  predicate IsLine(line: seq<Byte>, m: nat) {
    0 < |line| <= m && line[|line| - 1] == NEWLINE && forall i :: 0 <= i < |line| - 1 ==> line[i] != NEWLINE
  }

  /** The lines written are the lines read. */
  lemma {:induction false} LinesComeBack(ls: seq<seq<Byte>>, m: nat)
    requires m > 0 && forall i :: 0 <= i < |ls| ==> IsLine(ls[i], m)
    ensures Lines(Concat(ls), m) == ls
    decreases |ls|
  {
    if ls != [] {
      var s, line := Concat(ls), ls[0];
      LineIs(line, Concat(ls[1..]), m);
      assert s[..|line|] == line && s[|line|..] == Concat(ls[1..]);
      LinesComeBack(ls[1..], m);
      assert ls == [line] + ls[1..];
    }
  }

  class LineReader {
    const fd: Descriptor
    var readbuf: array<Byte>
    var nextChar: nat
    var lastChar: nat

    ghost predicate Valid() reads this, readbuf {
      readbuf.Length == MAX_READLINE && nextChar <= lastChar < readbuf.Length
    }

    /** Everything not yet returned: buffered, then still to be read. */
    ghost function Unread(): seq<Byte> reads this, readbuf, fd requires Valid() {
      readbuf[nextChar..lastChar] + fd.incoming
    }

    constructor (fd: Descriptor)
      ensures Valid() && this.fd == fd && fresh(readbuf) && Unread() == fd.incoming
    {
      this.fd := fd;
      readbuf := new Byte[MAX_READLINE];
      nextChar, lastChar := 0, 0;
    }

    /** Reads into the empty buffer; false at the end of the stream. */
    method Fill() returns (more: bool)
      requires Valid() && nextChar == lastChar
      modifies this, readbuf, fd`incoming
      ensures Valid() && readbuf == old(readbuf) && Unread() == old(Unread())
      ensures more ==> nextChar < lastChar
      ensures !more ==> Unread() == [] && nextChar == lastChar
    {
      var piece := fd.ReadSome(readbuf.Length - 1);
      if piece == [] {
        return false;
      }
      Place(readbuf, 0, piece);
      nextChar, lastChar := 0, |piece|;
      readbuf[|piece|] := NUL;
      assert readbuf[0..|piece|] == piece;
      return true;
    }

    /** The next byte of the stream, read into the buffer first if need be; false at the end. */
    method NextByte() returns (more: bool, ch: Byte)
      requires Valid()
      modifies this, readbuf, fd`incoming
      ensures Valid() && readbuf == old(readbuf)
      ensures old(Unread()) == if more then [ch] + Unread() else []
      ensures !more ==> Unread() == []
    {
      more, ch := true, NUL;
      if nextChar == lastChar {
        more := Fill();
      }
      if more {
        ch := readbuf[nextChar];
        nextChar := nextChar + 1;
        assert readbuf[nextChar - 1..lastChar] == [ch] + readbuf[nextChar..lastChar];
      }
    }

    /** One round of the line loop: the next byte goes to place n of the caller's buffer. */
    method TakeByte(buf: array<Byte>, n: nat, ghost taken: seq<Byte>) returns (more: bool, ch: Byte)
      requires Valid() && n < buf.Length && buf != readbuf && |taken| == n && buf[..n] == taken
      modifies this, readbuf, fd`incoming, buf
      ensures Valid() && readbuf == old(readbuf)
      ensures buf[..n] == taken
      ensures if more then buf[n] == ch && taken + old(Unread()) == (taken + [ch]) + Unread()
              else old(Unread()) == [] && Unread() == []
    {
      more, ch := NextByte();
      if more {
        LineExtends(taken, ch, Unread());
        ghost var rest := Unread();
        buf[n] := ch;
        assert Unread() == rest;
      }
    }

    /** PMIU_readline: the line is a function of the bytes alone, however `read` cuts them; it is
        taken off the stream whole and nothing else is. */
    method Readline(buf: array<Byte>, maxlen: nat) returns (n: nat)
      requires Valid() && 0 < maxlen <= buf.Length && buf != readbuf
      modifies this, readbuf, fd`incoming, buf
      ensures Valid() && readbuf == old(readbuf)
      ensures n < maxlen && buf[..n] == Line(old(Unread()), maxlen - 1) && buf[n] == NUL
      ensures old(Unread()) == Line(old(Unread()), maxlen - 1) + Unread()
    {
      ghost var s, taken: seq<Byte> := Unread(), [];
      var curlen, done := 1, false;
      n := 0;
      while curlen < maxlen && !done
        invariant Valid() && readbuf == old(readbuf)
        invariant curlen == n + 1 <= maxlen && |taken| == n && buf[..n] == taken
        invariant s == taken + Unread()
        invariant Plain(taken, if done then n - 1 else n)
        invariant done ==> Unread() == [] || (n > 0 && taken[n - 1] == NEWLINE)
        decreases maxlen - curlen, !done
      {
        var more, ch := TakeByte(buf, n, taken);
        if more {
          taken := taken + [ch];
          n := n + 1;
          curlen := curlen + 1;
          done := ch == NEWLINE;
        } else {
          done := true;
        }
      }
      LineIs(taken, Unread(), maxlen - 1);
      buf[n] := NUL;
    }
  }

  /** No newline among the first n bytes. */
  predicate Plain(s: seq<Byte>, n: int) { forall i :: 0 <= i < n && i < |s| ==> s[i] != NEWLINE }

  lemma LineExtends(taken: seq<Byte>, ch: Byte, rest: seq<Byte>)
    ensures taken + ([ch] + rest) == (taken + [ch]) + rest
  {}

  lemma {:induction false} LineIs(taken: seq<Byte>, rest: seq<Byte>, m: nat)
    requires |taken| <= m && Plain(taken, |taken| - 1)
    requires |taken| == m || rest == [] || (|taken| > 0 && taken[|taken| - 1] == NEWLINE)
    ensures Line(taken + rest, m) == taken
    decreases |taken|
  {
    if taken == [] {
      assert taken + rest == rest;
    } else {
      assert (taken + rest)[1..] == taken[1..] + rest;
      if |taken| > 1 || taken[0] != NEWLINE {
        LineIs(taken[1..], rest, m - 1);
      }
      assert taken == [taken[0]] + taken[1..];
    }
  }
}
