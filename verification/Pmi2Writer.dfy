/** Writing a command: formatted into one buffer of 65536 bytes, its length put in front, written out. */
module Pmi2Writer {
  import opened Bytes
  import opened Scanf
  import opened Pmi2Wire
  import opened Descriptors
  import opened Pmi2Stream

  /** What comes of formatting a command. `Overrun` is a value, or the final NUL, that is stored past
      the end of the buffer: only the name and the keys are checked against the room that is left. */
  datatype Outcome = Written(cmdLen: nat) | NameTooLong | KeyTooLong | ValueTooLong | NoRoom | Overrun

  /** The pairs that remain, `at` bytes of the buffer being taken. */
  function Placed(at: nat, ps: seq<Pair>): Outcome
    requires at >= COMMANDLEN_SIZE
    decreases |ps|
  {
    if ps == [] then (if at < MAX_COMMAND_LEN then Written(at - COMMANDLEN_SIZE) else Overrun)
    else
      var p := ps[0];
      if |p.key| > MAX_KEYLEN then KeyTooLong
      else if at + |p.key| + 1 >= MAX_COMMAND_LEN then NoRoom
      else if |p.value| > MAX_VALLEN then ValueTooLong
      else
        var at' := at + |PairText(p)|;
        if at' > MAX_COMMAND_LEN then Overrun else Placed(at', ps[1..])
  }

  function Format(c: Command): Outcome {
    if |c.name| > MAX_VALLEN then NameTooLong else Placed(COMMANDLEN_SIZE + |Opening(c.name)|, c.pairs)
  }

  // ---------- When a command is written ----------

  lemma {:induction false} PlacedExactly(at: nat, ps: seq<Pair>)
    requires at >= COMMANDLEN_SIZE
    ensures Placed(at, ps).Written? <==> AllInLimits(ps) && at + |PairsText(ps)| < MAX_COMMAND_LEN
    ensures Placed(at, ps).Written? ==> Placed(at, ps).cmdLen == at + |PairsText(ps)| - COMMANDLEN_SIZE
    decreases |ps|
  {
    if ps != [] {
      assert AllInLimits(ps) <==> InLimits(ps[0]) && AllInLimits(ps[1..]) by {
        assert forall i :: 0 < i < |ps| ==> ps[i] == ps[1..][i - 1];
      }
      PlacedExactly(at + |PairText(ps[0])|, ps[1..]);
    }
  }

  /** A command is written exactly when every limit is kept and the whole, with its length field and
      final NUL, fits the buffer; the length put in front is then that of the bytes after it. */
  lemma WrittenExactly(c: Command)
    ensures Format(c).Written? <==>
              |c.name| <= MAX_VALLEN && AllInLimits(c.pairs) && COMMANDLEN_SIZE + |Body(c)| + 1 <= MAX_COMMAND_LEN
    ensures Format(c).Written? ==> Format(c).cmdLen == |Body(c)| && |Digits(10, |Body(c)|)| <= 5
  {
    PlacedExactly(COMMANDLEN_SIZE + |Opening(c.name)|, c.pairs);
    if Format(c).Written? {
      FiveDigits(|Body(c)|);
    }
  }

  /** The first i pairs, put down one after the other from a place on, are all right and inside the buffer. */
  predicate Goes(at: nat, ps: seq<Pair>, i: nat)
    requires i <= |ps|
  {
    forall j :: 0 <= j < i ==>
      && |ps[j].key| <= 64 && |ps[j].value| <= 1024
      && at + |PairsText(ps[..j])| + |ps[j].key| + 1 < 65536
      && at + |PairsText(ps[..j])| + |ps[j].key| + 1 + |Escape(ps[j].value)| + 1 <= 65536
  }

  lemma GoesLater(at: nat, ps: seq<Pair>, i: nat)
    requires i < |ps| && Fine(at, ps[0]) && Goes(at + |PairText(ps[0])|, ps[1..], i)
    ensures Goes(at, ps, i + 1)
  {
    forall j | 0 < j < i + 1 ensures |PairsText(ps[..j])| == |PairText(ps[0])| + |PairsText(ps[1..][..j - 1])| {
      assert ps[..j][1..] == ps[1..][..j - 1];
    }
    assert ps[..0] == [];
    assert forall j :: 0 < j < i + 1 ==> ps[j] == ps[1..][j - 1];
  }

  /** Formatting goes on to the first pair of which something is not right, and the answer says what;
      where all are right it is the length, or that the final NUL has no room. */
  lemma {:induction false} FirstFault(at: nat, ps: seq<Pair>) returns (i: nat)
    requires at >= COMMANDLEN_SIZE
    ensures i <= |ps| && Goes(at, ps, i)
    ensures var here := at + |PairsText(ps[..i])|;
            Placed(at, ps) ==
              if i == |ps| then (if here < 65536 then Written(here - 6) else Overrun)
              else if |ps[i].key| > 64 then KeyTooLong
              else if here + |ps[i].key| + 1 >= 65536 then NoRoom
              else if |ps[i].value| > 1024 then ValueTooLong
              else Overrun
    decreases |ps|
  {
    if ps == [] || !Fine(at, ps[0]) {
      i := 0;
      assert ps[..0] == [];
    } else {
      var k := FirstFault(at + |PairText(ps[0])|, ps[1..]);
      i := k + 1;
      GoesLater(at, ps, k);
      OneFurther(at, ps, k);
    }
  }

  lemma OneFurther(at: nat, ps: seq<Pair>, k: nat)
    requires at >= COMMANDLEN_SIZE && k < |ps| && Fine(at, ps[0])
    ensures at + |PairsText(ps[..k + 1])| == at + |PairText(ps[0])| + |PairsText(ps[1..][..k])|
    ensures Placed(at, ps) == Placed(at + |PairText(ps[0])|, ps[1..])
    ensures k + 1 < |ps| ==> ps[k + 1] == ps[1..][k]
  {
    assert ps[..k + 1][1..] == ps[1..][..k];
  }

  /** For a whole command, which begins with its length field, "cmd=", the name and ';'. */
  lemma FaultExactly(c: Command) returns (i: nat)
    ensures i <= |c.pairs| && Goes(11 + |c.name|, c.pairs, i)
    ensures var here := 11 + |c.name| + |PairsText(c.pairs[..i])|;
            Format(c) ==
              if |c.name| > 1024 then NameTooLong
              else if i == |c.pairs| then (if here < 65536 then Written(here - 6) else Overrun)
              else if |c.pairs[i].key| > 64 then KeyTooLong
              else if here + |c.pairs[i].key| + 1 >= 65536 then NoRoom
              else if |c.pairs[i].value| > 1024 then ValueTooLong
              else Overrun
  {
    i := FirstFault(11 + |c.name|, c.pairs);
  }

  /** The pairs before i keep the limits and end at place `at`; with the pair that comes next the key
      still fits and the value ends past the buffer, or none comes and there is no room for the NUL. */
  predicate Crosses(at: nat, ps: seq<Pair>, i: nat)
    requires i <= |ps|
  {
    var here := at + |PairsText(ps[..i])|;
    && AllInLimits(ps[..i])
    && if i == |ps| then here == MAX_COMMAND_LEN
       else InLimits(ps[i]) && here + |ps[i].key| + 1 < MAX_COMMAND_LEN < here + |PairText(ps[i])|
  }

  predicate CrossesSomewhere(at: nat, ps: seq<Pair>) { exists i :: 0 <= i <= |ps| && Crosses(at, ps, i) }

  /** A command that runs past the buffer, told from the lengths of its name, keys and escaped values. */
  predicate Overruns(c: Command) {
    |c.name| <= MAX_VALLEN && CrossesSomewhere(COMMANDLEN_SIZE + |Opening(c.name)|, c.pairs)
  }

  lemma CrossesLater(at: nat, ps: seq<Pair>, i: nat)
    requires 0 < i <= |ps|
    ensures Crosses(at, ps, i) <==> InLimits(ps[0]) && Crosses(at + |PairText(ps[0])|, ps[1..], i - 1)
  {
    assert ps[..i][0] == ps[0] && ps[..i][1..] == ps[1..][..i - 1];
    assert i < |ps| ==> ps[i] == ps[1..][i - 1];
    assert AllInLimits(ps[..i]) <==> InLimits(ps[0]) && AllInLimits(ps[1..][..i - 1]) by {
      assert forall j :: 0 < j < i ==> ps[..i][j] == ps[1..][..i - 1][j - 1];
      assert ps[..i][0] == ps[0];
    }
  }

  lemma CrossesHereOrLater(at: nat, ps: seq<Pair>)
    requires ps != []
    ensures CrossesSomewhere(at, ps) <==>
              InLimits(ps[0]) && (at + |ps[0].key| + 1 < MAX_COMMAND_LEN < at + |PairText(ps[0])|
                                  || CrossesSomewhere(at + |PairText(ps[0])|, ps[1..]))
  {
    var at' := at + |PairText(ps[0])|;
    assert ps[..0] == [];
    assert Crosses(at, ps, 0) <==>
        InLimits(ps[0]) && at + |ps[0].key| + 1 < MAX_COMMAND_LEN < at + |PairText(ps[0])|;
    forall i | 0 < i <= |ps| ensures Crosses(at, ps, i) <==> InLimits(ps[0]) && Crosses(at', ps[1..], i - 1) {
      CrossesLater(at, ps, i);
    }
    if CrossesSomewhere(at', ps[1..]) && InLimits(ps[0]) {
      var i :| 0 <= i <= |ps| - 1 && Crosses(at', ps[1..], i);
      assert Crosses(at, ps, i + 1);
    }
  }

  /** Formatting from a place on leaves the buffer exactly when the pairs cross its end somewhere. */
  lemma {:induction false} PlacedOverruns(at: nat, ps: seq<Pair>)
    requires COMMANDLEN_SIZE <= at <= MAX_COMMAND_LEN
    ensures Placed(at, ps).Overrun? <==> CrossesSomewhere(at, ps)
    decreases |ps|
  {
    if ps == [] {
      assert ps[..0] == [];
      assert Crosses(at, ps, 0) <==> at == MAX_COMMAND_LEN;
    } else {
      CrossesHereOrLater(at, ps);
      var at' := at + |PairText(ps[0])|;
      if at' <= MAX_COMMAND_LEN {
        PlacedOverruns(at', ps[1..]);
      }
    }
  }

  /** A command runs past the buffer exactly when its lengths say so. */
  lemma OverrunExactly(c: Command)
    ensures Format(c).Overrun? <==> Overruns(c)
  {
    if |c.name| <= MAX_VALLEN {
      PlacedOverruns(COMMANDLEN_SIZE + |Opening(c.name)|, c.pairs);
    }
  }

  lemma {:induction false} PairsWithin(ps: seq<Pair>)
    requires AllInLimits(ps)
    ensures |PairsText(ps)| <= (MAX_KEYLEN + 2 * MAX_VALLEN + 2) * |ps|
    decreases |ps|
  {
    if ps != [] {
      assert AllInLimits(ps[1..]) by { assert forall i :: 0 < i < |ps| ==> ps[i] == ps[1..][i - 1]; }
      PairsWithin(ps[1..]);
      assert InLimits(ps[0]);
    }
  }

  /** Thirty pairs within the limits always fit, even with every byte of every value escaped. */
  lemma ThirtyPairsFit(c: Command)
    requires |c.name| <= MAX_VALLEN && AllInLimits(c.pairs) && |c.pairs| <= 30
    ensures Format(c) == Written(|Body(c)|)
  {
    PairsWithin(c.pairs);
    assert (MAX_KEYLEN + 2 * MAX_VALLEN + 2) * |c.pairs| <= 2114 * 30;
    WrittenExactly(c);
  }

  lemma {:induction false} RepeatedLength(p: Pair, n: nat)
    ensures |PairsText(seq(n, _ => p))| == |PairText(p)| * n
    decreases n
  {
    if n > 0 {
      assert seq(n, _ => p)[1..] == seq(n - 1, _ => p);
      RepeatedLength(p, n - 1);
      OneMoreTime(|PairText(p)|, n);
    }
  }

  lemma OneMoreTime(a: nat, n: nat)
    requires n > 0
    ensures a + a * (n - 1) == a * n
  {}

  lemma {:induction false} EscapeOfSemicolons(v: seq<Byte>)
    requires forall i :: 0 <= i < |v| ==> v[i] == SEMICOLON
    ensures |Escape(v)| == 2 * |v|
  {
    if v != [] { EscapeOfSemicolons(v[1..]); }
  }

  function Crowded(n: nat): Command {
    Command([], seq(n, _ => Pair(seq(MAX_KEYLEN, _ => 97), seq(MAX_VALLEN, _ => SEMICOLON))))
  }

  /** Thirty-one of the longest do not: the last value runs past the buffer. */
  lemma ThirtyOneOverrun()
    ensures |Crowded(31).name| <= MAX_VALLEN && AllInLimits(Crowded(31).pairs) && |Crowded(31).pairs| == 31
    ensures Format(Crowded(31)).Overrun?
  {
    var ps := Crowded(31).pairs;
    EscapeOfSemicolons(ps[0].value);
    assert ps[..30] == Crowded(30).pairs;
    RepeatedLength(ps[0], 30);
    assert Crosses(COMMANDLEN_SIZE + |Opening([])|, ps, 30);
    OverrunExactly(Crowded(31));
  }

  /** The commands the writer takes and a reader gets are what the stream carries. */
  lemma WrittenIsSendable(self: Address, c: Command)
    requires Receivable(self, c)
    ensures Format(c).Written? <==> Sendable(self, c)
  {
    ReceivableIsProper(self, c);
    WrittenExactly(c);
  }

  // ---------- The writer ----------

  lemma {:induction false} EscapeAppend(v: seq<Byte>, i: nat)
    requires i < |v|
    ensures Escape(v[..i + 1]) == Escape(v[..i]) + EscapeByte(v[i])
    decreases i
  {
    if i == 0 {
      assert v[..1][1..] == [];
    } else {
      assert v[..i + 1][1..] == v[1..][..i] && v[..i][1..] == v[1..][..i - 1];
      EscapeAppend(v[1..], i - 1);
      Regroup(EscapeByte(v[0]), Escape(v[1..][..i - 1]), EscapeByte(v[i]));
    }
  }

  lemma {:induction false} EscapePrefix(v: seq<Byte>, i: nat)
    requires i <= |v|
    ensures |Escape(v[..i])| + |v| - i <= |Escape(v)|
    ensures i < |v| ==> |Escape(v[..i])| + |EscapeByte(v[i])| <= |Escape(v)|
    decreases |v| - i
  {
    if i < |v| {
      EscapeAppend(v, i);
      EscapePrefix(v, i + 1);
    } else {
      assert v[..i] == v;
    }
  }

  /** The bytes of a value, each ';' doubled; the room that is left goes down with every byte. The
      source has no check here: false stands for its first store behind the buffer. */
  method PlaceEscaped(buf: array<Byte>, at: nat, value: seq<Byte>, left: int)
    returns (inside: bool, c: nat, remaining: int)
    requires at <= buf.Length
    modifies buf
    ensures inside <==> at + |Escape(value)| <= buf.Length
    ensures inside ==> c == at + |Escape(value)| && remaining == left - |Escape(value)| && buf[at..c] == Escape(value)
    ensures forall j :: 0 <= j < at ==> buf[j] == old(buf[j])
  {
    c, remaining := at, left;
    for i := 0 to |value|
      invariant c == at + |Escape(value[..i])| <= buf.Length && c + remaining == at + left
      invariant buf[at..c] == Escape(value[..i])
      invariant forall j :: 0 <= j < at ==> buf[j] == old(buf[j])
    {
      EscapePrefix(value, i);
      EscapeAppend(value, i);
      if c + |EscapeByte(value[i])| > buf.Length {
        return false, c, remaining;
      }
      ghost var was := c;
      c, remaining := PlaceByte(buf, c, value[i], remaining);
      Extended(buf, at, was, c, Escape(value[..i]), EscapeByte(value[i]));
    }
    assert value[..|value|] == value;
    inside := true;
  }

  method PlaceByte(buf: array<Byte>, at: nat, b: Byte, left: int) returns (c: nat, remaining: int)
    requires at + |EscapeByte(b)| <= buf.Length
    modifies buf
    ensures c == at + |EscapeByte(b)| && c + remaining == at + left
    ensures buf[at..c] == EscapeByte(b)
    ensures forall j :: 0 <= j < at ==> buf[j] == old(buf[j])
  {
    c, remaining := at, left;
    if b == SEMICOLON {
      buf[c] := SEMICOLON;
      c := c + 1;
      remaining := remaining - 1;
    }
    buf[c] := b;
    c := c + 1;
    remaining := remaining - 1;
  }

  /** snprintf of a text that is known to fit: its bytes and a NUL; the answer is its length. */
  method Print(buf: array<Byte>, at: nat, text: seq<Byte>)
    requires at + |text| < buf.Length
    modifies buf
    ensures buf[at..at + |text|] == text
    ensures forall j :: 0 <= j < at ==> buf[j] == old(buf[j])
  {
    Place(buf, at, text + [NUL]);
    assert buf[at..at + |text|] == buf[at..at + |text| + 1][..|text|];
  }

  lemma Extended(buf: array<Byte>, from: nat, at: nat, c: nat, text: seq<Byte>, piece: seq<Byte>)
    requires from <= at <= c <= buf.Length && buf[from..at] == text && buf[at..c] == piece
    ensures buf[from..c] == text + piece
  {
    assert buf[from..c] == buf[from..at] + buf[at..c];
  }

  /** One pair behind what the buffer holds; false when its value runs past the buffer. */
  method PlacePair(buf: array<Byte>, at: nat, p: Pair, left: int) returns (inside: bool, c: nat, remaining: int)
    requires at + |p.key| + 1 < buf.Length
    modifies buf
    ensures inside <==> at + |PairText(p)| <= buf.Length
    ensures inside ==> c == at + |PairText(p)| && remaining == left - |PairText(p)| && buf[at..c] == PairText(p)
    ensures forall j :: 0 <= j < at ==> buf[j] == old(buf[j])
  {
    Print(buf, at, p.key + [EQUALS]);
    c := at + |p.key| + 1;
    remaining := left - (|p.key| + 1);
    ghost var d := c;
    inside, c, remaining := PlaceEscaped(buf, c, p.value, remaining);
    if !inside || c == buf.Length {
      return false, c, remaining;
    }
    assert buf[at..d] == p.key + [EQUALS];
    Extended(buf, at, d, c, p.key + [EQUALS], Escape(p.value));
    buf[c] := SEMICOLON;
    assert buf[at..c + 1] == p.key + [EQUALS] + Escape(p.value) + [SEMICOLON];
    c := c + 1;
    remaining := remaining - 1;
  }

  lemma {:induction false} PairsTextAppend(ps: seq<Pair>, i: nat)
    requires i < |ps|
    ensures PairsText(ps[..i + 1]) == PairsText(ps[..i]) + PairText(ps[i])
    decreases i
  {
    if i == 0 {
      assert ps[..1][1..] == [];
      assert PairText(ps[0]) + [] == [] + PairText(ps[0]);
    } else {
      assert ps[..i + 1][1..] == ps[1..][..i] && ps[..i][1..] == ps[1..][..i - 1];
      PairsTextAppend(ps[1..], i - 1);
      Regroup(PairText(ps[0]), PairsText(ps[1..][..i - 1]), PairText(ps[i]));
    }
  }

  /** Nothing is wrong with the pair, and its text ends inside the buffer. */
  predicate Fine(at: nat, p: Pair) {
    InLimits(p) && at + |p.key| + 1 < MAX_COMMAND_LEN && at + |PairText(p)| <= MAX_COMMAND_LEN
  }

  lemma PlacedFirst(at: nat, ps: seq<Pair>, i: nat)
    requires at >= COMMANDLEN_SIZE && i < |ps|
    ensures Placed(at, ps[i..]) ==
              if Fine(at, ps[i]) then Placed(at + |PairText(ps[i])|, ps[i + 1..]) else Placed(at, [ps[i]])
  {
    assert ps[i..][0] == ps[i] && ps[i..][1..] == ps[i + 1..];
  }

  /** The checks before a pair, and the pair, behind the text that is there. */
  method PlaceNext(buf: array<Byte>, at: nat, p: Pair, left: nat, ghost text: seq<Byte>)
    returns (fine: bool, fault: Outcome, c: nat, remaining: int)
    requires COMMANDLEN_SIZE <= at && at + left == MAX_COMMAND_LEN == buf.Length && buf[COMMANDLEN_SIZE..at] == text
    modifies buf
    ensures fine <==> Fine(at, p)
    ensures !fine ==> fault == Placed(at, [p])
    ensures fine ==> c == at + |PairText(p)| && c + remaining == MAX_COMMAND_LEN
                     && buf[COMMANDLEN_SIZE..c] == text + PairText(p)
    ensures buf[..COMMANDLEN_SIZE] == old(buf[..COMMANDLEN_SIZE])
  {
    fine, fault, c, remaining := false, Overrun, at, left;
    if |p.key| > MAX_KEYLEN {
      fault := KeyTooLong;
      return;
    }
    if |p.key| + 1 >= remaining {
      fault := NoRoom;
      return;
    }
    if |p.value| > MAX_VALLEN {
      fault := ValueTooLong;
      return;
    }
    fine, c, remaining := PlacePair(buf, at, p, left);
    if fine {
      Extended(buf, COMMANDLEN_SIZE, at, c, text, PairText(p));
    }
  }

  /** The body with the first i pairs. */
  function BodyUpTo(c: Command, i: nat): seq<Byte>
    requires i <= |c.pairs|
  {
    Opening(c.name) + PairsText(c.pairs[..i])
  }

  lemma BodyGrows(c: Command, i: nat)
    requires i < |c.pairs|
    ensures BodyUpTo(c, i) + PairText(c.pairs[i]) == BodyUpTo(c, i + 1)
  {
    PairsTextAppend(c.pairs, i);
    Regroup(Opening(c.name), PairsText(c.pairs[..i]), PairText(c.pairs[i]));
  }

  lemma BodyEnds(c: Command)
    ensures BodyUpTo(c, 0) == Opening(c.name) && BodyUpTo(c, |c.pairs|) == Body(c)
  {
    assert c.pairs[..|c.pairs|] == c.pairs;
    assert PairsText(c.pairs[..0]) == [];
    assert Opening(c.name) + [] == Opening(c.name);
  }

  /** The command behind its length field, or the first thing that is wrong with it. The counter
      of the room left and the write position always make up the whole buffer. */
  method PlaceBody(buf: array<Byte>, c: Command) returns (r: Outcome)
    requires buf.Length == MAX_COMMAND_LEN && |c.name| <= MAX_VALLEN
    modifies buf
    ensures r == Format(c)
    ensures r.Written? ==>
              COMMANDLEN_SIZE + r.cmdLen < buf.Length && buf[COMMANDLEN_SIZE..COMMANDLEN_SIZE + r.cmdLen] == Body(c)
    ensures buf[..COMMANDLEN_SIZE] == old(buf[..COMMANDLEN_SIZE])
  {
    var at, remaining := COMMANDLEN_SIZE, MAX_COMMAND_LEN - COMMANDLEN_SIZE;
    ghost var head := buf[..COMMANDLEN_SIZE];
    Print(buf, at, Opening(c.name));
    at, remaining := at + |Opening(c.name)|, remaining - |Opening(c.name)|;
    BodyEnds(c);
    assert c.pairs[0..] == c.pairs;
    ghost var whole := Placed(at, c.pairs);
    assert Format(c) == whole;
    for i := 0 to |c.pairs|
      invariant COMMANDLEN_SIZE <= at <= buf.Length && at + remaining == MAX_COMMAND_LEN
      invariant whole == Placed(at, c.pairs[i..])
      invariant buf[COMMANDLEN_SIZE..at] == BodyUpTo(c, i)
      invariant buf[..COMMANDLEN_SIZE] == head
    {
      PlacedFirst(at, c.pairs, i);
      BodyGrows(c, i);
      var fine;
      fine, r, at, remaining := PlaceNext(buf, at, c.pairs[i], remaining, BodyUpTo(c, i));
      if !fine {
        return;
      }
    }
    r := if remaining == 0 then Overrun else Written(MAX_COMMAND_LEN - (remaining + COMMANDLEN_SIZE));
  }

  /** The whole frame, its length field last. */
  method FormatCommand(buf: array<Byte>, c: Command) returns (r: Outcome)
    requires buf.Length == MAX_COMMAND_LEN
    modifies buf
    ensures r == Format(c) && (r.Overrun? <==> Overruns(c))
    ensures r.Written? ==> r.cmdLen == |Body(c)| && COMMANDLEN_SIZE + r.cmdLen < MAX_COMMAND_LEN
                           && buf[..COMMANDLEN_SIZE + r.cmdLen] == Frame(c) && buf[COMMANDLEN_SIZE + r.cmdLen] == NUL
  {
    OverrunExactly(c);
    if |c.name| > MAX_VALLEN {
      return NameTooLong;
    }
    Place(buf, 0, Spaces(COMMANDLEN_SIZE));
    r := PlaceBody(buf, c);
    if r.Written? {
      WrittenExactly(c);
      PlaceLength(buf, r.cmdLen, Body(c));
    }
  }

  /** The length in front of the body, over the spaces, and the final NUL. */
  method PlaceLength(buf: array<Byte>, len: nat, ghost body: seq<Byte>)
    requires buf.Length == MAX_COMMAND_LEN && COMMANDLEN_SIZE + len < MAX_COMMAND_LEN
    requires buf[..COMMANDLEN_SIZE] == Spaces(COMMANDLEN_SIZE)
    requires buf[COMMANDLEN_SIZE..COMMANDLEN_SIZE + len] == body
    modifies buf
    ensures buf[..COMMANDLEN_SIZE + len] == Header(len) + body && buf[COMMANDLEN_SIZE + len] == NUL
  {
    FiveDigits(len);
    var digits := Digits(10, len);
    Place(buf, 0, digits);
    HeaderIs(buf[..COMMANDLEN_SIZE], len);
    buf[COMMANDLEN_SIZE + len] := NUL;
    assert buf[..COMMANDLEN_SIZE] == Header(len);
    Extended(buf, 0, COMMANDLEN_SIZE, COMMANDLEN_SIZE + len, Header(len), body);
  }

  lemma HeaderIs(block: seq<Byte>, len: nat)
    requires len < MAX_COMMAND_LEN && |block| == COMMANDLEN_SIZE
    requires |Digits(10, len)| <= COMMANDLEN_SIZE && block[..|Digits(10, len)|] == Digits(10, len)
    requires forall j :: |Digits(10, len)| <= j < COMMANDLEN_SIZE ==> block[j] == SPACE
    ensures block == Header(len)
  {
    var k := |Digits(10, len)|;
    assert block == block[..k] + block[k..];
    assert block[k..] == Spaces(COMMANDLEN_SIZE - k);
  }

  /** Formats the command and writes it out, in as many pieces as the descriptor takes it; an overrun
      is followed to the first store behind the buffer. */
  method WriteSimpleCommand(fd: Descriptor, c: Command) returns (r: Outcome)
    modifies fd`outgoing
    ensures r == Format(c) && (r.Overrun? <==> Overruns(c))
    ensures r.Written? ==> |Body(c)| < MAX_COMMAND_LEN && fd.outgoing == old(fd.outgoing) + Frame(c)
    ensures !r.Written? && !r.Overrun? ==> fd.outgoing == old(fd.outgoing)
  {
    var buf := new Byte[MAX_COMMAND_LEN];
    r := FormatCommand(buf, c);
    if r.Written? {
      fd.WriteFully(buf, COMMANDLEN_SIZE + r.cmdLen);
    }
  }
}
