/** The two passes over a received command, inside its buffer: pairs counted, then each key ended and
    each value unescaped in place. */
module Pmi2Parse {
  import opened Bytes
  import opened Pmi2Wire

  // ---------- The counting pass ----------

  method CountPass(buf: array<Byte>, cmdLen: nat) returns (num: nat)
    requires cmdLen < buf.Length && buf[cmdLen] == NUL
    ensures num == CountPairs(buf[..cmdLen])
  {
    ghost var s := buf[..cmdLen];
    var c: nat, remaining: int := 0, cmdLen;
    num := 0;
    while remaining > 0
      invariant c + remaining == cmdLen && remaining >= -1
      invariant remaining >= 0 ==> CountPairs(s) == num + CountPairs(s[c..])
      invariant remaining < 0 ==> CountPairs(s) == num
    {
      ghost var c0 := c;
      while remaining != 0 && buf[c] != SEMICOLON
        invariant c0 <= c && c + remaining == cmdLen && remaining >= 0
        invariant CountPairs(s[c0..]) == if remaining > 0 then CountPairs(s[c..]) else 1
      {
        remaining := remaining - 1;
        c := c + 1;
        assert s[c - 1..][1..] == s[c..];
      }
      if buf[c] == SEMICOLON && buf[c + 1] == SEMICOLON {
        assert s[c..][2..] == s[c + 2..];
        remaining := remaining - 2;
        c := c + 2;
      } else {
        num := num + 1;
        remaining := remaining - 1;
        c := c + 1;
        assert remaining >= 0 ==> s[c - 1..][1..] == s[c..];
      }
    }
  }

  // ---------- One pair, unescaped where it stands ----------

  /** A byte that does not end the value, its escape taken with it. */
  function Width(b: Byte): nat { if b == SEMICOLON then 2 else 1 }

  /** The first c bytes of t are the bytes done, each with its escape. */
  predicate Unescaping(t: seq<Byte>, done: seq<Byte>, c: nat)
    decreases |done|
  {
    if done == [] then c == 0
    else
      var b, w := done[|done| - 1], Width(done[|done| - 1]);
      w <= c <= |t| && t[c - w] == b && t[c - 1] == b && Unescaping(t, done[..|done| - 1], c - w)
  }

  function Prepend(done: seq<Byte>, c: nat, r: ValueScan): ValueScan {
    match r case Ended(v, u) => Ended(done + v, c + u) case Unterminated => Unterminated
  }

  lemma {:induction false} UnescapingScans(t: seq<Byte>, done: seq<Byte>, c: nat)
    requires Unescaping(t, done, c)
    ensures |done| <= c <= |t|
    ensures ScanValue(t) == Prepend(done, c, ScanValue(t[c..]))
    decreases |done|
  {
    if done == [] {
      ScansStart(t);
    } else {
      var b, rest := done[|done| - 1], done[..|done| - 1];
      UnescapingScans(t, rest, c - Width(b));
      ScansGrow(t, rest, b, c);
      assert rest + [b] == done;
    }
  }

  lemma PrependOnto(rest: seq<Byte>, b: Byte, c: nat, r: ValueScan)
    requires Width(b) <= c
    ensures Prepend(rest, c - Width(b), Onto(b, Width(b), r)) == Prepend(rest + [b], c, r)
  {
    if r.Ended? {
      Regroup(rest, [b], r.value);
    }
  }

  lemma ScansStart(t: seq<Byte>)
    ensures ScanValue(t) == Prepend([], 0, ScanValue(t[0..]))
  {
    assert t[0..] == t;
    assert ScanValue(t).Ended? ==> [] + ScanValue(t).value == ScanValue(t).value;
  }

  lemma ScansGrow(t: seq<Byte>, rest: seq<Byte>, b: Byte, c: nat)
    requires Width(b) <= c <= |t| && t[c - Width(b)] == b == t[c - 1]
    requires ScanValue(t) == Prepend(rest, c - Width(b), ScanValue(t[c - Width(b)..]))
    ensures ScanValue(t) == Prepend(rest + [b], c, ScanValue(t[c..]))
  {
    StepOnce(t, b, c);
    PrependOnto(rest, b, c, ScanValue(t[c..]));
  }

  lemma StepOnce(t: seq<Byte>, b: Byte, c: nat)
    requires Width(b) <= c <= |t| && t[c - Width(b)] == b == t[c - 1]
    ensures ScanValue(t[c - Width(b)..]) == Onto(b, Width(b), ScanValue(t[c..]))
  {
    ScanStep(t, c - Width(b));
  }

  lemma ScanStep(t: seq<Byte>, c: nat)
    requires c < |t| && (t[c] == SEMICOLON ==> c + 1 < |t| && t[c + 1] == SEMICOLON)
    ensures ScanValue(t[c..]) == Onto(t[c], Width(t[c]), ScanValue(t[c + Width(t[c])..]))
  {
    assert t[c..][1..] == t[c + 1..];
    if t[c] == SEMICOLON {
      assert t[c..][2..] == t[c + 2..];
    }
  }

  lemma UnescapingMoves(t: seq<Byte>, done: seq<Byte>, c: nat, next: nat)
    requires Unescaping(t, done, c) && c < |t| && (t[c] == SEMICOLON ==> c + 1 < |t| && t[c + 1] == SEMICOLON)
    requires next == c + Width(t[c])
    ensures Unescaping(t, done + [t[c]], next)
  {
    assert (done + [t[c]])[..|done|] == done;
  }

  lemma UnescapingEnds(t: seq<Byte>, done: seq<Byte>, c: nat)
    requires Unescaping(t, done, c) && c < |t| && t[c] == SEMICOLON && (c + 1 < |t| ==> t[c + 1] != SEMICOLON)
    ensures ScanValue(t) == Ended(done, c)
  {
    UnescapingScans(t, done, c);
    assert ScanValue(t[c..]) == Ended([], 0);
    assert done + [] == done;
  }

  lemma UnescapingFails(t: seq<Byte>, done: seq<Byte>)
    requires Unescaping(t, done, |t|)
    ensures ScanValue(t) == Unterminated
  {
    UnescapingScans(t, done, |t|);
    assert t[|t|..] == [];
  }

  /** A block of the buffer holds the text. */
  predicate Holds(buf: array<Byte>, at: nat, text: seq<Byte>)
    reads buf
  {
    at + |text| <= buf.Length && forall i :: 0 <= i < |text| ==> buf[at + i] == text[i]
  }

  /** The value read from `t`: what it is, and where it ends. */
  method Unescape(buf: array<Byte>, val: nat, length: nat, ghost t: seq<Byte>)
    returns (ended: bool, d: nat, c: nat, len: nat)
    requires val + length < buf.Length && buf[val + length] == NUL
    requires |t| == length && Holds(buf, val, t)
    modifies buf
    ensures forall i :: 0 <= i < val || c <= i < buf.Length ==> buf[i] == old(buf[i])
    ensures c + len == val + length && val <= d <= c
    ensures if ended then ScanValue(t) == Ended(buf[val..d], c - val) else ScanValue(t) == Unterminated
  {
    ghost var done, at;
    ended, d, c, len, done, at := ValueLoop(buf, val, length, t);
    assert buf[val..d] == done;
    if ended {
      UnescapingEnds(t, done, at);
    } else {
      UnescapingFails(t, done);
    }
  }

  /** The value loop: d is where the next byte goes, c where the next one comes from. */
  method ValueLoop(buf: array<Byte>, val: nat, length: nat, ghost t: seq<Byte>)
    returns (ended: bool, d: nat, c: nat, len: nat, ghost done: seq<Byte>, ghost at: nat)
    requires val + length < buf.Length && buf[val + length] == NUL
    requires |t| == length && Holds(buf, val, t)
    modifies buf
    ensures d == val + |done| && d <= c == val + at && c + len == val + length
    ensures forall i :: 0 <= i < val || c <= i < buf.Length ==> buf[i] == old(buf[i])
    ensures Holds(buf, val, done) && Unescaping(t, done, at)
    ensures if ended then at < |t| && EndsAt(t, at) else at == |t|
  {
    done, at := [], 0;
    d, c, len, ended := val, val, length, false;
    while len > 0 && !ended
      invariant d == val + |done| && d <= c == val + at && c + len == val + length
      invariant forall i :: 0 <= i < val || c <= i < buf.Length ==> buf[i] == old(buf[i])
      invariant Holds(buf, val, done)
      invariant Unescaping(t, done, at)
      invariant ended ==> at < |t| && EndsAt(t, at)
      decreases len, !ended
    {
      ended, d, c, len := MoveByte(buf, val, d, c, len, t);
      if !ended {
        UnescapingMoves(t, done, at, at + Width(t[at]));
        done, at := done + [t[at]], at + Width(t[at]);
      }
    }
  }

  /** A ';' that is not followed by another ends the value. */
  predicate EndsAt(t: seq<Byte>, i: nat)
    requires i < |t|
  {
    t[i] == SEMICOLON && (i + 1 < |t| ==> t[i + 1] != SEMICOLON)
  }

  /** One round of the value loop: the byte at c, past its escape, moves to d. */
  method MoveByte(buf: array<Byte>, val: nat, d: nat, c: nat, len: nat, ghost t: seq<Byte>)
    returns (ended: bool, d': nat, c': nat, len': nat)
    requires val <= d <= c && 0 < len && c + len == val + |t| < buf.Length && buf[c + len] == NUL
    requires forall i :: c <= i < c + len ==> buf[i] == t[i - val]
    modifies buf
    ensures ended == EndsAt(t, c - val)
    ensures ended ==> d' == d && c' == c && len' == len && buf[..] == old(buf[..])
    ensures !ended ==> d' == d + 1 && c' == c + Width(t[c - val]) && c' + len' == c + len && buf[d] == t[c - val]
    ensures !ended ==> forall i :: 0 <= i < buf.Length && i != d ==> buf[i] == old(buf[i])
  {
    ended, d', c', len' := false, d, c, len;
    if buf[c] == SEMICOLON {
      if buf[c + 1] != SEMICOLON {
        return true, d, c, len;
      }
      len' := len' - 1;
      c' := c' + 1;
    }
    buf[d] := buf[c'];
    len' := len' - 1;
    d' := d + 1;
    c' := c' + 1;
  }

  /** The value and its end: bounded, terminated, stepped over. */
  method TakeValue(buf: array<Byte>, val: nat, length: nat, ghost t: seq<Byte>)
    returns (ok: bool, vallen: nat, c: nat, len: nat)
    requires val + length < buf.Length && buf[val + length] == NUL
    requires |t| == length && Holds(buf, val, t)
    modifies buf
    ensures ok <==> ScanValue(t).Ended? && |ScanValue(t).value| <= MAX_VALLEN
    ensures ok ==> vallen == |ScanValue(t).value| && Holds(buf, val, ScanValue(t).value)
    ensures ok ==> c == val + ScanValue(t).used + 1 && c + len == val + length
    ensures forall i :: 0 <= i < val ==> buf[i] == old(buf[i])
    ensures ok ==> forall i :: c <= i < buf.Length ==> buf[i] == old(buf[i])
  {
    var d: nat;
    vallen := 0;
    ok, d, c, len := Unescape(buf, val, length, t);
    if !ok || d - val > MAX_VALLEN {
      return false, vallen, c, len;
    }
    ghost var v := buf[val..d];
    buf[c] := NUL;
    vallen := d - val;
    c := c + 1;
    len := len - 1;
    assert Holds(buf, val, v);
  }

  /** What parse_keyval looks for: a short key, then a value that ends and is not too long. */
  predicate Splits(s: seq<Byte>, k: nat) {
    k < |s| && k <= MAX_KEYLEN && ScanValue(s[k + 1..]).Ended? && |ScanValue(s[k + 1..]).value| <= MAX_VALLEN
  }

  /** The work of parse_keyval, with k the place of the first '='. */
  method SplitInPlace(buf: array<Byte>, start: nat, length: nat, ghost s: seq<Byte>, ghost k: nat)
    returns (ok: bool, val: nat, vallen: nat, c: nat, len: nat)
    requires start + length < buf.Length && buf[start + length] == NUL
    requires |s| == length && Holds(buf, start, s) && k == KeyEnd(s)
    modifies buf
    ensures ok <==> Splits(s, k)
    ensures ok ==>
              && var r := ScanValue(s[k + 1..]);
              && val == start + k + 1 && Holds(buf, start, s[..k]) && buf[val - 1] == NUL
              && vallen == |r.value| && Holds(buf, val, r.value)
              && c == val + r.used + 1 && c + len == start + length
    ensures forall i :: 0 <= i < start ==> buf[i] == old(buf[i])
    ensures ok ==> forall i :: c <= i < buf.Length ==> buf[i] == old(buf[i])
  {
    ok, val, vallen := false, start, 0;
    c, len := FindEquals(buf, start, length, s);
    if len == 0 || c - start > MAX_KEYLEN {
      return;
    }
    buf[c] := NUL;
    val := c + 1;
    ok, vallen, c, len := TakeValue(buf, val, len - 1, s[k + 1..]);
  }

  /** parse_keyval: the key ended by a NUL, the value unescaped in place. Its write index never
      passes its read index, so what is read is what was there; what follows is untouched. */
  method ParseInPlace(buf: array<Byte>, start: nat, length: nat, ghost s: seq<Byte>)
    returns (ok: bool, val: nat, vallen: nat, c: nat, len: nat)
    requires start + length < buf.Length && buf[start + length] == NUL
    requires |s| == length && Holds(buf, start, s)
    modifies buf
    ensures ok <==> ParseKeyval(s).Keyval?
    ensures ok ==>
              && val == start + |ParseKeyval(s).key| + 1 && Holds(buf, start, ParseKeyval(s).key) && buf[val - 1] == NUL
              && vallen == |ParseKeyval(s).value| && Holds(buf, val, ParseKeyval(s).value)
              && len == |ParseKeyval(s).rest| && c + len == start + length && val + vallen < c
    ensures forall i :: 0 <= i < start ==> buf[i] == old(buf[i])
    ensures ok ==> forall i :: c <= i < buf.Length ==> buf[i] == old(buf[i])
  {
    ghost var k := KeyEnd(s);
    KeyvalParts(s, k);
    ok, val, vallen, c, len := SplitInPlace(buf, start, length, s, k);
  }

  lemma KeyvalParts(s: seq<Byte>, k: nat)
    requires k == KeyEnd(s)
    ensures ParseKeyval(s).Keyval? <==> Splits(s, k)
    ensures Splits(s, k) ==>
              var r := ScanValue(s[k + 1..]);
              && ParseKeyval(s).key == s[..k] && ParseKeyval(s).value == r.value
              && |r.value| <= r.used && |ParseKeyval(s).rest| == |s| - k - 1 - r.used - 1
  {
    if Splits(s, k) {
      assert ParseKeyval(s).rest == s[k + 1..][ScanValue(s[k + 1..]).used + 1..];
    }
  }

  method FindEquals(buf: array<Byte>, start: nat, length: nat, ghost s: seq<Byte>) returns (c: nat, len: nat)
    requires start + length < buf.Length && |s| == length && Holds(buf, start, s)
    ensures c == start + KeyEnd(s) && c + len == start + length
  {
    assert s[0..] == s;
    c, len := start, length;
    while len > 0 && buf[c] != EQUALS
      invariant start <= c && c + len == start + length
      invariant KeyEnd(s) == c - start + KeyEnd(s[c - start..])
    {
      assert s[c - start..][0] == buf[c] && s[c - start..][1..] == s[c + 1 - start..];
      len := len - 1;
      c := c + 1;
    }
  }
}
