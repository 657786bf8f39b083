/** Looking values up in a command read, and the response every call waits for. */
module Pmi2Response {
  import opened Bytes
  import opened Scanf
  import opened Pmi2Wire
  import opened Descriptors
  import opened Pmi2Reader
  import Pmi2Stream

  /** "rc" and "errmsg" */
  const RC: seq<Byte> := [114, 99]
  const ERRMSG: seq<Byte> := [101, 114, 114, 109, 115, 103]

  // ---------- The name of a response ----------

  /** What comparing a name over the length of an expected one finds: that it starts with it, that
      they differ, or that it ends first, where no byte was written to compare. */
  datatype Comparison = Same | Different | NameEnds

  /** strncmp(command, expected, strlen(expected)) on the bytes of a name, which has no NUL behind it. */
  function Compare(name: seq<Byte>, expected: seq<Byte>): Comparison
    decreases |expected|
  {
    if expected == [] then Same
    else if name == [] then NameEnds
    else if name[0] != expected[0] then Different
    else Compare(name[1..], expected[1..])
  }

  /** The comparison stays inside the bytes written exactly when the name is not a proper prefix of
      the expected one; where it does, it says whether the name starts with that. */
  lemma {:induction false} CompareExactly(name: seq<Byte>, expected: seq<Byte>)
    ensures Compare(name, expected).NameEnds? <==> name < expected
    ensures Compare(name, expected).Same? <==> expected <= name
    decreases |expected|
  {
    if expected != [] && name != [] && name[0] == expected[0] {
      assert name == [name[0]] + name[1..] && expected == [expected[0]] + expected[1..];
      CompareExactly(name[1..], expected[1..]);
    }
  }

  /** The comparison as it runs, over the bytes that were copied into the block of the command. */
  method CompareBytes(command: array<Byte>, vallen: nat, expected: seq<Byte>) returns (r: Comparison)
    requires vallen <= command.Length
    ensures r.NameEnds? <==> command[..vallen] < expected
    ensures r.Same? <==> expected <= command[..vallen]
  {
    ghost var name := command[..vallen];
    assert name[0..] == name && expected[0..] == expected;
    CompareExactly(name, expected);
    var i := 0;
    while i < |expected|
      invariant 0 <= i <= |expected| && i <= vallen
      invariant Compare(name, expected) == Compare(name[i..], expected[i..])
    {
      if i == vallen {
        return NameEnds;
      }
      if command[i] != expected[i] {
        return Different;
      }
      assert name[i..][1..] == name[i + 1..] && expected[i..][1..] == expected[i + 1..];
      i := i + 1;
    }
    return Same;
  }

  /** `Lost` is a response that was not stored for the caller who waits for it; `Undetermined` one whose
      name was compared with a byte nobody wrote. */
  datatype Answer = Failed | Lost | Undetermined | Answered(rc: int, errmsg: Option<seq<Byte>>)

  /** What a response says: its name starts with the expected one, it has a return code, and it may
      have a message. */
  ghost predicate Says(c: Command, expected: seq<Byte>, a: Answer) {
    match a
    case Failed =>
      !(c.name < expected)
      && (!(expected <= c.name) || forall v :: FirstMatch(c.pairs, RC, Some(v)) ==> ScanInt(v).None?)
    case Answered(rc, errmsg) =>
      && expected <= c.name && FirstMatch(c.pairs, ERRMSG, errmsg)
      && exists v :: FirstMatch(c.pairs, RC, Some(v)) && ScanInt(v) == Some(rc)
    case Undetermined => c.name < expected
    case Lost => false
  }

  /** "finalize", the beginning of the name of the response that is waited for. */
  const FINALIZE: seq<Byte> := [102, 105, 110, 97, 108, 105, 122, 101]

  /** "-response" */
  const RESPONSE: seq<Byte> := [45, 114, 101, 115, 112, 111, 110, 115, 101]

  /** What a caller is told of the next command on its stream. */
  ghost predicate Tells(r: Reply, expected: seq<Byte>, a: Answer) {
    match r
    case Got(Accepted(c)) => Says(c, expected, a)
    case Got(Redirected(_)) => a == Lost
    case Got(Unfilled) => a == Lost
    case _ => a == Failed
  }

  /** Of a response whose name is a proper prefix of the expected one nothing can be told. */
  lemma ShortNamesAreUndetermined(self: Address, c: Command, expected: seq<Byte>, rest: seq<Byte>, a: Answer)
    requires Pmi2Stream.Sendable(self, c) && c.name < expected
    ensures Tells(ReplyTo(self, Frame(c) + rest), expected, a) <==> a == Undetermined
  {
    ReceivableIsProper(self, c);
    ReadsOneFrame(self, c, rest);
  }

  /** Such a response is "cmd=finalize;rc=0;" where "finalize-response" is expected. */
  lemma FinalizeIsUndetermined(self: Address, a: Answer)
    ensures var c := Command(FINALIZE, [Pair(RC, [48])]);
            Pmi2Stream.Sendable(self, c)
            && (Tells(ReplyTo(self, Frame(c)), FINALIZE + RESPONSE, a) <==> a == Undetermined)
  {
    var c := Command(FINALIZE, [Pair(RC, [48])]);
    assert PlainPair(c.pairs[0]);
    PlainIsNotLoose(RC);
    assert c.pairs[0].key != THRID;
    assert FirstValue(c.pairs, THRID) == None;
    assert |PairsText(c.pairs)| == |PairText(c.pairs[0])| + |PairsText(c.pairs[1..])|;
    ShortNamesAreUndetermined(self, c, FINALIZE + RESPONSE, [], a);
    assert Frame(c) + [] == Frame(c);
  }

  /** The return code and the message of a response. */
  method Understand(c: Command, pairs: array<Pair>, ghost expected: seq<Byte>) returns (a: Answer)
    requires pairs[..] == c.pairs && expected <= c.name && forall i :: 0 <= i < pairs.Length ==> NUL !in pairs[i].key
    ensures Says(c, expected, a)
  {
    var nPairs := pairs.Length;
    assert pairs[..nPairs] == c.pairs;
    var rc := Getval(pairs, nPairs, RC);
    if rc.None? {
      forall v | FirstMatch(c.pairs, RC, Some(v)) ensures false {
        FirstMatchIsOne(c.pairs, RC, rc, Some(v));
      }
      return Failed;
    }
    var n := ScanInt(rc.value);
    if n.None? {
      forall v | FirstMatch(c.pairs, RC, Some(v)) ensures v == rc.value {
        FirstMatchIsOne(c.pairs, RC, rc, Some(v));
      }
      return Failed;
    }
    var errmsg := Getval(pairs, nPairs, ERRMSG);
    return Answered(n.value, errmsg);
  }

  /** The name of a command read, copied into a block of its own and compared there. */
  method CompareName(name: seq<Byte>, expected: seq<Byte>) returns (r: Comparison)
    ensures r.NameEnds? <==> name < expected
    ensures r.Same? <==> expected <= name
  {
    var command := new Byte[|name| + 1];
    forall i | 0 <= i < |name| {
      command[i] := name[i];
    }
    assert command[..|name|] == name;
    r := CompareBytes(command, |name|, expected);
  }

  /** What a command stored for the caller is taken for. */
  method Recognise(c: Command, pairs: array<Pair>, expected: seq<Byte>) returns (a: Answer)
    requires pairs[..] == c.pairs && forall i :: 0 <= i < pairs.Length ==> NUL !in pairs[i].key
    ensures Says(c, expected, a)
  {
    var same := CompareName(c.name, expected);
    match same
    case NameEnds => a := Undetermined;
    case Different => a := Failed;
    case Same => a := Understand(c, pairs, expected);
  }

  /** PMIi_ReadCommandExp, up to the point where a response is stored for somebody else, or its name
      is read past its end. */
  method ReadCommandExp(fd: Descriptor, self: Address, expected: seq<Byte>) returns (a: Answer)
    modifies fd`incoming
    ensures Tells(ReplyTo(self, old(fd.incoming)), expected, a)
  {
    var r, pairs := ReadCommand(fd, self);
    if r.ReadError? || r.received.NoCommand? {
      a := Failed;
    } else if !r.received.Accepted? {
      a := Lost;
    } else {
      a := Recognise(r.received.command, pairs, expected);
    }
  }

  lemma SaidOnce(c: Command, expected: seq<Byte>, a: Answer, b: Answer)
    requires Says(c, expected, a) && Says(c, expected, b)
    ensures a == b
  {
    if a.Answered? && b.Answered? {
      var v :| FirstMatch(c.pairs, RC, Some(v)) && ScanInt(v) == Some(a.rc);
      var w :| FirstMatch(c.pairs, RC, Some(w)) && ScanInt(w) == Some(b.rc);
      FirstMatchIsOne(c.pairs, RC, Some(v), Some(w));
      FirstMatchIsOne(c.pairs, ERRMSG, a.errmsg, b.errmsg);
    }
  }

  /** Of every reply one thing is told and nothing else: failure where no command could be read, that it is
      lost where it was not stored for the caller. */
  lemma ToldOnce(r: Reply, expected: seq<Byte>, a: Answer, b: Answer)
    ensures Tells(r, expected, a) && Tells(r, expected, b) ==> a == b
    ensures r.ReadError? || r.received.NoCommand? ==> (Tells(r, expected, a) <==> a == Failed)
    ensures r.Got? && (r.received.Redirected? || r.received.Unfilled?) ==> (Tells(r, expected, a) <==> a == Lost)
  {
    if r.Got? && r.received.Accepted? && Tells(r, expected, a) && Tells(r, expected, b) {
      SaidOnce(r.received.command, expected, a, b);
    }
  }

  lemma SaysOne(c: Command, expected: seq<Byte>, a: Answer, n: int, errmsg: Option<seq<Byte>>)
    requires Says(c, expected, a) && expected <= c.name
    requires FirstMatch(c.pairs, RC, Some(IntText(n))) && FirstMatch(c.pairs, ERRMSG, errmsg)
    ensures a == Answered(n, errmsg)
  {
    ScanIntOfText([], n);
    assert [] + IntText(n) == IntText(n);
    match a
    case Failed => assert false;
    case Lost => assert false;
    case Undetermined => assert false;
    case Answered(rc, msg) =>
      var v :| FirstMatch(c.pairs, RC, Some(v)) && ScanInt(v) == Some(rc);
      FirstMatchIsOne(c.pairs, RC, Some(v), Some(IntText(n)));
      FirstMatchIsOne(c.pairs, ERRMSG, msg, errmsg);
  }

  lemma ResponseCode()
    ensures PairText(Pair(RC, [45, 55])) == [114, 99, 61, 45, 55, 59]
  {
    EscapeOfPlain([45, 55]);
  }

  lemma ResponseMessage()
    ensures PairText(Pair(ERRMSG, [110, 111])) == [101, 114, 114, 109, 115, 103, 61, 110, 111, 59]
  {
    EscapeOfPlain([110, 111]);
  }

  lemma ResponseBody(c: Command)
    requires c == Command([120], [Pair(RC, [45, 55]), Pair(ERRMSG, [110, 111])])
    ensures Body(c) == [99, 109, 100, 61, 120, 59, 114, 99, 61, 45, 55, 59,
                        101, 114, 114, 109, 115, 103, 61, 110, 111, 59]
  {
    ResponseCode();
    ResponseMessage();
    TextOfTwo(c.pairs[0], c.pairs[1]);
    assert Opening(c.name) == [99, 109, 100, 61, 120, 59];
  }

  lemma ResponseHeader()
    ensures |Digits(10, 22)| == 2 && Header(22) == [50, 50, 32, 32, 32, 32]
  {
    OneMoreDigit(10, 2, 2);
  }

  lemma ResponseFrame(c: Command)
    requires c == Command([120], [Pair(RC, [45, 55]), Pair(ERRMSG, [110, 111])])
    ensures |Body(c)| == 22
    ensures Frame(c) == [50, 50, 32, 32, 32, 32, 99, 109, 100, 61, 120, 59, 114, 99, 61, 45, 55, 59,
                         101, 114, 114, 109, 115, 103, 61, 110, 111, 59]
  {
    ResponseBody(c);
    ResponseHeader();
  }

  lemma TextOfTwo(p: Pair, q: Pair)
    ensures PairsText([p, q]) == PairText(p) + PairText(q)
  {
    assert [p, q][1..] == [q] && [q][1..] == [];
    assert PairsText([q]) == PairText(q) + [];
  }

  lemma ResponseReaches(self: Address, c: Command)
    requires c == Command([120], [Pair(RC, [45, 55]), Pair(ERRMSG, [110, 111])])
    ensures Proper(c) && Receivable(self, c)
  {
    assert PlainPair(c.pairs[0]) && PlainPair(c.pairs[1]);
    PlainIsNotLoose(RC);
    PlainIsNotLoose(ERRMSG);
    assert c.pairs[0].key != THRID && c.pairs[1].key != THRID;
    ReceivableIsProper(self, c);
  }

  lemma ResponseSays(c: Command, a: Answer)
    requires c == Command([120], [Pair(RC, [45, 55]), Pair(ERRMSG, [110, 111])])
    ensures Says(c, [120], a) <==> a == Answered(-7, Some([110, 111]))
  {
    var ps := c.pairs;
    assert IntText(-7) == [45, 55];
    assert FirstMatch(ps, RC, Some(IntText(-7))) by { assert ps[0].value == IntText(-7); }
    assert FirstMatch(ps, ERRMSG, Some([110, 111])) by { assert ps[0].key != ERRMSG && ps[1].value == [110, 111]; }
    ScanIntOfText([], -7);
    assert [] + IntText(-7) == IntText(-7);
    if Says(c, [120], a) {
      SaysOne(c, [120], a, -7, Some([110, 111]));
    }
  }

  /** "22    cmd=x;rc=-7;errmsg=no;" where "x" is expected: the return code is -7, the message "no". */
  lemma ResponseInBytes(self: Address, a: Answer)
    ensures var s := [50, 50, 32, 32, 32, 32, 99, 109, 100, 61, 120, 59, 114, 99, 61, 45, 55, 59,
                      101, 114, 114, 109, 115, 103, 61, 110, 111, 59];
            Tells(ReplyTo(self, s), [120], a) <==> a == Answered(-7, Some([110, 111]))
  {
    var c := Command([120], [Pair(RC, [45, 55]), Pair(ERRMSG, [110, 111])]);
    ResponseFrame(c);
    ResponseReaches(self, c);
    ResponseSays(c, a);
    ReadsOneFrame(self, c, []);
    assert Frame(c) + [] == Frame(c);
  }

  /** A response written with a return code and a message is understood as that code and message. */
  method ReadResponse(fd: Descriptor, self: Address, c: Command, expected: seq<Byte>,
                      ghost n: int, ghost errmsg: Option<seq<Byte>>, ghost rest: seq<Byte>)
    returns (a: Answer)
    requires Pmi2Stream.Sendable(self, c) && fd.incoming == Frame(c) + rest && expected <= c.name
    requires FirstMatch(c.pairs, RC, Some(IntText(n))) && FirstMatch(c.pairs, ERRMSG, errmsg)
    modifies fd`incoming
    ensures a == Answered(n, errmsg)
  {
    ReceivableIsProper(self, c);
    ReadsOneFrame(self, c, rest);
    a := ReadCommandExp(fd, self, expected);
    SaysOne(c, expected, a, n, errmsg);
  }
}
