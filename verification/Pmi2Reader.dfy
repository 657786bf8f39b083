/** Reading a command: its length field, its body, its pairs copied out of the buffer. */
module Pmi2Reader {
  import opened Bytes
  import opened Scanf
  import opened Pmi2Wire
  import opened Descriptors
  import opened Pmi2Parse
  import Pmi2Stream

  /** What a read makes of the stream: nothing that could be read, or what its body comes to. */
  datatype Reply = ReadError | Got(received: Received)

  /** The length announced by the first six bytes. */
  function Announced(s: seq<Byte>): nat
    requires |s| >= COMMANDLEN_SIZE
  {
    Scan(10, s[..COMMANDLEN_SIZE])
  }

  predicate Complete(s: seq<Byte>) {
    |s| >= COMMANDLEN_SIZE && 0 < Announced(s) <= |s| - COMMANDLEN_SIZE
  }

  function BodyOf(s: seq<Byte>): seq<Byte>
    requires Complete(s)
  {
    s[COMMANDLEN_SIZE..COMMANDLEN_SIZE + Announced(s)]
  }

  /** What is read into the record at `self`. */
  function ReplyTo(self: Address, s: seq<Byte>): Reply {
    if !Complete(s) then ReadError else Got(Receive(self, BodyOf(s)))
  }

  lemma FrameAhead(c: Command, rest: seq<Byte>)
    requires COMMANDLEN_SIZE + |Body(c)| < MAX_COMMAND_LEN
    ensures var s := Frame(c) + rest;
            Complete(s) && BodyOf(s) == Body(c) && s[COMMANDLEN_SIZE + Announced(s)..] == rest
  {
    var s := Frame(c) + rest;
    var h := Header(|Body(c)|);
    Regroup(h, Body(c), rest);
    assert s[..COMMANDLEN_SIZE] == h;
    HeaderReads(|Body(c)|);
    assert s[COMMANDLEN_SIZE..COMMANDLEN_SIZE + |Body(c)|] == Body(c);
  }

  /** One command that fits, then anything: its reader gets that command, and stops at its end,
      exactly when the command is one that reaches its reader. */
  lemma ReadsOneFrame(self: Address, c: Command, rest: seq<Byte>)
    requires Proper(c) && COMMANDLEN_SIZE + |Body(c)| < MAX_COMMAND_LEN
    ensures var s := Frame(c) + rest;
            Complete(s) && s[COMMANDLEN_SIZE + Announced(s)..] == rest
            && (ReplyTo(self, s) == Got(Accepted(c)) <==> Receivable(self, c))
  {
    FrameAhead(c, rest);
    ReceivedExactly(self, c);
  }

  // ---------- Copying a pair out ----------

  /** strlen and copy: the bytes up to the first NUL, one of which stands behind the key. */
  method CopyString(buf: array<Byte>, at: nat, ghost key: seq<Byte>) returns (s: seq<Byte>)
    requires at + |key| < buf.Length && Holds(buf, at, key) && buf[at + |key|] == NUL
    ensures s == CStr(key)
  {
    var i := 0;
    s := [];
    while buf[at + i] != NUL
      invariant 0 <= i <= |key| && s == key[..i] && NUL !in s
      decreases |key| - i
    {
      s := s + [buf[at + i]];
      i := i + 1;
    }
    if i < |key| {
      assert key == s + [NUL] + key[i + 1..];
      CStrStops(s, key[i + 1..]);
    } else {
      assert key == s;
      CStrStops(s, []);
    }
  }

  function Joined(done: seq<Pair>, r: Result<seq<Pair>>): Result<seq<Pair>> {
    match r case Ok(ps) => Ok(done + ps) case _ => r
  }

  lemma JoinedMore(s: seq<Byte>, done: seq<Pair>)
    requires ParseKeyval(s).Keyval?
    ensures var r := ParseKeyval(s);
            Joined(done, ParsePairs(s)) == Joined(done + [Pair(r.key, r.value)], ParsePairs(r.rest))
  {
    var r := ParseKeyval(s);
    if ParsePairs(r.rest).Ok? {
      PairsRegroup(done, [Pair(r.key, r.value)], ParsePairs(r.rest).value);
    }
  }

  lemma PairsRegroup(a: seq<Pair>, b: seq<Pair>, c: seq<Pair>)
    ensures (a + b) + c == a + (b + c)
  {}

  /** One pair parsed where it stands and copied out; the rest of the buffer is as it was. */
  method ReadPair(buf: array<Byte>, start: nat, length: nat, ghost s: seq<Byte>)
    returns (ok: bool, pair: Pair, c: nat, len: nat)
    requires start + length < buf.Length && buf[start + length] == NUL && |s| == length && Holds(buf, start, s)
    modifies buf
    ensures ok <==> ParseKeyval(s).Keyval?
    ensures ok ==>
              && pair == Copied(Pair(ParseKeyval(s).key, ParseKeyval(s).value))
              && len == |ParseKeyval(s).rest| && c + len == start + length
              && Holds(buf, c, ParseKeyval(s).rest) && buf[start + length] == NUL
  {
    var val, vallen;
    pair := Pair([], []);
    ok, val, vallen, c, len := ParseInPlace(buf, start, length, s);
    if ok {
      ghost var r := ParseKeyval(s);
      assert buf[val..val + vallen] == r.value;
      var key := CopyString(buf, start, r.key);
      pair := Pair(key, buf[val..val + vallen]);
    }
  }

  /** What is known while the pairs of s are read: those done, and the rest. */
  predicate Reading(s: seq<Byte>, done: seq<Pair>, rest: seq<Byte>) {
    && ParsePairs(s) == Joined(done, ParsePairs(rest))
    && |done| + CountPairs(rest) <= CountPairs(s)
  }

  lemma ReadingStarts(s: seq<Byte>)
    ensures Reading(s, [], s)
  {
    assert ParsePairs(s).Ok? ==> [] + ParsePairs(s).value == ParsePairs(s).value;
  }

  lemma ReadingMoves(s: seq<Byte>, done: seq<Pair>, rest: seq<Byte>)
    requires Reading(s, done, rest) && ParseKeyval(rest).Keyval? && rest != []
    ensures Reading(s, done + [Pair(ParseKeyval(rest).key, ParseKeyval(rest).value)], ParseKeyval(rest).rest)
    ensures |done| < CountPairs(s)
  {
    CountPastPair(rest, ParseKeyval(rest));
    JoinedMore(rest, done);
  }

  lemma ReadingEnds(s: seq<Byte>, done: seq<Pair>, rest: seq<Byte>)
    requires Reading(s, done, rest)
    ensures rest == [] ==> ParsePairs(s) == Ok(done)
    ensures rest != [] && ParseKeyval(rest).BadKeyval? ==> ParsePairs(s) == BadPair
  {
    assert done + [] == done;
  }

  /** The pairs after the first, copied into an array with one place for each pair counted. */
  method ReadPairs(buf: array<Byte>, start: nat, length: nat, pairs: array<Pair>, ghost s: seq<Byte>)
    returns (ok: bool, n: nat)
    requires start + length < buf.Length && buf[start + length] == NUL && |s| == length && Holds(buf, start, s)
    requires CountPairs(s) <= pairs.Length
    modifies buf, pairs
    ensures ok <==> ParsePairs(s).Ok?
    ensures ok ==> n == |ParsePairs(s).value| <= pairs.Length && pairs[..n] == CopiedAll(ParsePairs(s).value)
  {
    var c, len := start, length;
    ghost var done: seq<Pair>, rest: seq<Byte> := [], s;
    n := 0;
    ReadingStarts(s);
    while len > 0
      invariant c + len == start + length && |rest| == len && Holds(buf, c, rest) && buf[start + length] == NUL
      invariant n == |done| <= pairs.Length && Reading(s, done, rest)
      invariant forall i :: 0 <= i < n ==> pairs[i] == Copied(done[i])
      decreases len
    {
      var pair, next, left;
      ok, pair, next, left := ReadPair(buf, c, len, rest);
      if !ok {
        ReadingEnds(s, done, rest);
        return false, n;
      }
      ReadingMoves(s, done, rest);
      pairs[n] := pair;
      done, rest := done + [Pair(ParseKeyval(rest).key, ParseKeyval(rest).value)], ParseKeyval(rest).rest;
      c, len, n := next, left, n + 1;
    }
    ReadingEnds(s, done, rest);
    assert pairs[..n] == CopiedAll(done);
    return true, n;
  }

  /** The keys copied out are C strings. */
  lemma KeysAreStrings(pairs: array<Pair>, n: nat, ps: seq<Pair>)
    requires n <= pairs.Length && pairs[..n] == CopiedAll(ps)
    ensures forall i :: 0 <= i < n ==> NUL !in pairs[i].key
  {
    forall i | 0 <= i < n ensures NUL !in pairs[i].key {
      assert pairs[..n][i] == Copied(ps[i]);
    }
  }

  // ---------- Reading a command ----------

  /** Keys that are equal, or agree over the first 64 bytes. */
  predicate SameKey(a: seq<Byte>, b: seq<Byte>) { a == b || (|a| >= 64 && |b| >= 64 && a[..64] == b[..64]) }

  /** strncmp of two keys over the longest key there can be. */
  method CompareKeys(a: seq<Byte>, b: seq<Byte>) returns (same: bool)
    requires NUL !in a && NUL !in b
    ensures same <==> a == b || (|a| >= 64 && |b| >= 64 && a[..64] == b[..64])
  {
    var i := 0;
    while i < MAX_KEYLEN
      invariant 0 <= i <= MAX_KEYLEN && i <= |a| && i <= |b| && a[..i] == b[..i]
    {
      var x := if i < |a| then a[i] else NUL;
      var y := if i < |b| then b[i] else NUL;
      if x != y {
        return false;
      }
      if x == NUL {
        assert a[..i] == a && b[..i] == b;
        return true;
      }
      i := i + 1;
    }
    return true;
  }

  /** getval, over pairs that were filled: the first with the key. Keys longer than 64 bytes, which no
      reader accepts, are told apart by their first 64 only. */
  method Getval(pairs: array<Pair>, nPairs: nat, key: seq<Byte>) returns (r: Option<seq<Byte>>)
    requires nPairs <= pairs.Length && NUL !in key && forall i :: 0 <= i < nPairs ==> NUL !in pairs[i].key
    ensures match r
            case None => forall i :: 0 <= i < nPairs ==> !SameKey(key, pairs[i].key)
            case Some(v) => exists i :: 0 <= i < nPairs && SameKey(key, pairs[i].key) && pairs[i].value == v
                                         && forall j :: 0 <= j < i ==> !SameKey(key, pairs[j].key)
    ensures |key| < 64 || (|key| == 64 && AllInLimits(pairs[..nPairs])) ==> FirstMatch(pairs[..nPairs], key, r)
  {
    for i := 0 to nPairs
      invariant forall j :: 0 <= j < i ==> !SameKey(key, pairs[j].key)
    {
      var same := CompareKeys(key, pairs[i].key);
      if same {
        assert pairs[..nPairs][i] == pairs[i];
        return Some(pairs[i].value);
      }
    }
    return None;
  }

  /** Where the command goes, its n pairs stored in nPairs places: the record its "thrid" points to,
      and without one the caller's. */
  method Hand(self: Address, name: seq<Byte>, pairs: array<Pair>, n: nat, nPairs: nat) returns (r: Received)
    requires n <= nPairs <= pairs.Length && forall i :: 0 <= i < n ==> NUL !in pairs[i].key
    ensures var c := Command(name, pairs[..n]);
            r == if !ForCaller(self, c.pairs) then Redirected(c) else if nPairs != n then Unfilled else Accepted(c)
  {
    var c := Command(name, pairs[..n]);
    var thrid := Getval(pairs, n, THRID);
    FirstMatchIsOne(c.pairs, THRID, thrid, FirstValue(c.pairs, THRID));
    if thrid.Some? {
      var target := ScanPointer(thrid.value);
      if target != Some(self) {
        return Redirected(c);
      }
    }
    if n < nPairs {
      return Unfilled;
    }
    return Accepted(c);
  }

  /** The body, once it is in the buffer: counted, its command pair checked, its pairs copied. */
  method ReadBody(self: Address, buf: array<Byte>, cmdLen: nat) returns (r: Received, pairs: array<Pair>)
    requires cmdLen < buf.Length && buf[cmdLen] == NUL
    modifies buf
    ensures fresh(pairs)
    ensures r == Receive(self, old(buf[..cmdLen]))
    ensures r.Accepted? ==> pairs[..] == r.command.pairs
  {
    ghost var s := buf[..cmdLen];
    pairs := new Pair[0];
    var numPairs := CountPass(buf, cmdLen);
    var ok, first, c, len := ReadPair(buf, 0, cmdLen, s);
    if !ok || first.key != CMD {
      return NoCommand, pairs;
    }
    CountPastPair(s, ParseKeyval(s));
    var nPairs: nat := numPairs - 1;
    pairs := new Pair[nPairs];
    var n;
    ok, n := ReadPairs(buf, c, len, pairs, ParseKeyval(s).rest);
    if !ok {
      return NoCommand, pairs;
    }
    KeysAreStrings(pairs, n, ParsePairs(ParseKeyval(s).rest).value);
    r := Hand(self, first.value, pairs, n, nPairs);
    assert n == nPairs ==> pairs[..n] == pairs[..];
  }

  /** PMIi_ReadCommand: whatever pieces the descriptor gives, the answer is a function of the
      stream, and what follows the command stays unread. */
  method ReadCommand(fd: Descriptor, self: Address) returns (r: Reply, pairs: array<Pair>)
    modifies fd`incoming
    ensures r == ReplyTo(self, old(fd.incoming))
    ensures r.Got? ==> fd.incoming == old(fd.incoming)[COMMANDLEN_SIZE + Announced(old(fd.incoming))..]
    ensures r.Got? && r.received.Accepted? ==> pairs[..] == r.received.command.pairs
  {
    ghost var s := fd.incoming;
    pairs := new Pair[0];
    var lenField := new Byte[COMMANDLEN_SIZE + 1](_ => NUL);
    var ok := fd.ReadFully(lenField, COMMANDLEN_SIZE);
    if !ok {
      return ReadError, pairs;
    }
    var cmdLen := Scan(10, lenField[..COMMANDLEN_SIZE]);
    var buf := new Byte[cmdLen + 1](_ => NUL);
    ok := fd.ReadFully(buf, cmdLen);
    if !ok {
      return ReadError, pairs;
    }
    assert buf[cmdLen..][0] == NUL;
    assert buf[..cmdLen] == BodyOf(s);
    var received;
    received, pairs := ReadBody(self, buf, cmdLen);
    r := Got(received);
  }

  /** Reading what was written gives back the command, every pair in its place and no place unused,
      exactly when the command is one that reaches its reader. */
  method ReadBack(fd: Descriptor, self: Address, c: Command, ghost rest: seq<Byte>)
    returns (r: Reply, pairs: array<Pair>)
    requires Proper(c) && COMMANDLEN_SIZE + |Body(c)| < MAX_COMMAND_LEN && fd.incoming == Frame(c) + rest
    modifies fd`incoming
    ensures r == Got(Accepted(c)) <==> Receivable(self, c)
    ensures r == Got(Accepted(c)) ==> pairs[..] == c.pairs
    ensures fd.incoming == rest
  {
    ReadsOneFrame(self, c, rest);
    r, pairs := ReadCommand(fd, self);
  }
}
