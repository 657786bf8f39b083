/** The PMI2 wire format on values: what is printed for a command, what is parsed from a buffer,
    and the separate pass that counts the pairs. */
module Pmi2Wire {
  import opened Bytes
  import opened Scanf

  const MAX_KEYLEN: nat := 64
  const MAX_VALLEN: nat := 1024
  const COMMANDLEN_SIZE: nat := 6
  const MAX_COMMAND_LEN: nat := 65536

  /** "cmd" */
  const CMD: seq<Byte> := [99, 109, 100]

  datatype Pair = Pair(key: seq<Byte>, value: seq<Byte>)

  datatype Command = Command(name: seq<Byte>, pairs: seq<Pair>)

  // ---------- Printing ----------

  function EscapeByte(b: Byte): seq<Byte> { if b == SEMICOLON then [SEMICOLON, SEMICOLON] else [b] }

  /** Every ';' of a value is written twice. */
  function Escape(v: seq<Byte>): (e: seq<Byte>)
    ensures |v| <= |e| <= 2 * |v|
  {
    if v == [] then []
    else EscapeByte(v[0]) + Escape(v[1..])
  }

  function PairText(p: Pair): seq<Byte> { p.key + [EQUALS] + Escape(p.value) + [SEMICOLON] }

  function PairsText(ps: seq<Pair>): seq<Byte> {
    if ps == [] then [] else PairText(ps[0]) + PairsText(ps[1..])
  }

  /** The name is not escaped. */
  function Opening(name: seq<Byte>): seq<Byte> { CMD + [EQUALS] + name + [SEMICOLON] }

  function Body(c: Command): seq<Byte> { Opening(c.name) + PairsText(c.pairs) }

  function Spaces(n: nat): (s: seq<Byte>)
    ensures |s| == n && forall i :: 0 <= i < n ==> s[i] == SPACE
  {
    seq(n, _ => SPACE)
  }

  /** The length in decimal, padded with spaces to the width of the field. */
  function Header(len: nat): (h: seq<Byte>)
    requires len < MAX_COMMAND_LEN
    ensures |h| == COMMANDLEN_SIZE
  {
    FiveDigits(len);
    Digits(10, len) + Spaces(COMMANDLEN_SIZE - |Digits(10, len)|)
  }

  lemma FiveDigits(len: nat)
    requires len < MAX_COMMAND_LEN
    ensures |Digits(10, len)| <= 5
  {
    assert Pow(10, 1) == 10; assert Pow(10, 2) == 100; assert Pow(10, 3) == 1000;
    assert Pow(10, 4) == 10000; assert Pow(10, 5) == 100000;
    DigitCount(10, len, 5);
  }

  function Frame(c: Command): seq<Byte>
    requires |Body(c)| < MAX_COMMAND_LEN
  {
    Header(|Body(c)|) + Body(c)
  }

  /** What atoi makes of a header. */
  lemma HeaderReads(len: nat)
    requires len < MAX_COMMAND_LEN
    ensures Scan(10, Header(len)) == len
  {
    FiveDigits(len);
    ScanOfDigits(10, len, Spaces(COMMANDLEN_SIZE - |Digits(10, len)|));
  }

  // ---------- Parsing ----------

  datatype ValueScan = Ended(value: seq<Byte>, used: nat) | Unterminated

  function Onto(b: Byte, n: nat, r: ValueScan): ValueScan {
    match r case Ended(v, u) => Ended([b] + v, n + u) case Unterminated => Unterminated
  }

  /** The value at the front, up to the ';' that is not followed by another. */
  function ScanValue(s: seq<Byte>): (r: ValueScan)
    ensures r.Ended? ==>
              |r.value| <= r.used < |s| && s[r.used] == SEMICOLON && (r.used + 1 < |s| ==> s[r.used + 1] != SEMICOLON)
  {
    if s == [] then Unterminated
    else if s[0] != SEMICOLON then Onto(s[0], 1, ScanValue(s[1..]))
    else if |s| >= 2 && s[1] == SEMICOLON then Onto(SEMICOLON, 2, ScanValue(s[2..]))
    else Ended([], 0)
  }

  /** The position of the first '=', or the length. */
  function KeyEnd(s: seq<Byte>): (k: nat)
    ensures k <= |s| && EQUALS !in s[..k] && (k < |s| ==> s[k] == EQUALS)
  {
    if s == [] || s[0] == EQUALS then 0
    else
      var k := KeyEnd(s[1..]);
      assert s[..k + 1] == [s[0]] + s[1..][..k];
      k + 1
  }

  datatype Keyval = Keyval(key: seq<Byte>, value: seq<Byte>, rest: seq<Byte>) | BadKeyval

  function ParseKeyval(s: seq<Byte>): (r: Keyval)
    ensures r.Keyval? ==> |r.rest| < |s| && r.rest == s[|s| - |r.rest|..]
  {
    var k := KeyEnd(s);
    if k == |s| || k > MAX_KEYLEN then BadKeyval
    else
      var t := s[k + 1..];
      match ScanValue(t)
      case Unterminated => BadKeyval
      case Ended(v, u) => if |v| > MAX_VALLEN then BadKeyval else Keyval(s[..k], v, t[u + 1..])
  }

  datatype Result<T> = Ok(value: T) | BadPair | BadCmd

  /** The pairs of a buffer, to its end. */
  function ParsePairs(s: seq<Byte>): Result<seq<Pair>>
    decreases |s|
  {
    if s == [] then Ok([])
    else match ParseKeyval(s)
      case BadKeyval => BadPair
      case Keyval(key, value, rest) =>
        match ParsePairs(rest)
        case Ok(ps) => Ok([Pair(key, value)] + ps)
        case _ => BadPair
  }

  /** The copy made of a pair: the key as a C string, the value by its length. */
  function Copied(p: Pair): Pair { Pair(CStr(p.key), p.value) }

  function CopiedAll(ps: seq<Pair>): (r: seq<Pair>)
    ensures |r| == |ps| && forall i :: 0 <= i < |ps| ==> r[i] == Copied(ps[i])
  {
    seq(|ps|, i requires 0 <= i < |ps| => Copied(ps[i]))
  }

  function ParseBody(s: seq<Byte>): Result<Command> {
    match ParseKeyval(s)
    case BadKeyval => BadPair
    case Keyval(key, name, rest) =>
      if CStr(key) != CMD then BadCmd
      else match ParsePairs(rest)
        case Ok(ps) => Ok(Command(name, CopiedAll(ps)))
        case _ => BadPair
  }

  // ---------- Round trip ----------

  /** Within the limits of a pair. */
  predicate InLimits(p: Pair) { |p.key| <= MAX_KEYLEN && |p.value| <= MAX_VALLEN }

  predicate AllInLimits(ps: seq<Pair>) { forall i :: 0 <= i < |ps| ==> InLimits(ps[i]) }

  /** What any caller can hand over: names and keys are C strings, and every limit is kept. */
  predicate Proper(c: Command) {
    && |c.name| <= MAX_VALLEN && NUL !in c.name && AllInLimits(c.pairs)
    && forall i :: 0 <= i < |c.pairs| ==> NUL !in c.pairs[i].key
  }

  /** A key with no '=', and no ';' in front. */
  predicate ClearKey(key: seq<Byte>) { EQUALS !in key && (key != [] ==> key[0] != SEMICOLON) }

  predicate PlainPair(p: Pair) { InLimits(p) && ClearKey(p.key) && NUL !in p.key }

  predicate PlainCommand(c: Command) {
    && |c.name| <= MAX_VALLEN && SEMICOLON !in c.name && NUL !in c.name
    && forall i :: 0 <= i < |c.pairs| ==> PlainPair(c.pairs[i])
  }

  /** What follows a pair never starts with ';'. */
  predicate Clear(rest: seq<Byte>) { rest == [] || rest[0] != SEMICOLON }

  /** Unescaping undoes escaping, whatever bytes the value holds. */
  lemma {:induction false} ScanOfEscape(v: seq<Byte>, rest: seq<Byte>)
    requires Clear(rest)
    ensures ScanValue(Escape(v) + ([SEMICOLON] + rest)) == Ended(v, |Escape(v)|)
    decreases |v|
  {
    if v == [] {
      assert Escape(v) + ([SEMICOLON] + rest) == [SEMICOLON] + rest;
    } else {
      ScanOfEscape(v[1..], rest);
      ScanOneMore(v[0], v[1..], Escape(v[1..]), [SEMICOLON] + rest);
      assert v == [v[0]] + v[1..];
    }
  }

  /** One byte in front of what scans to v. */
  lemma ScanOneMore(b: Byte, v: seq<Byte>, e: seq<Byte>, tail: seq<Byte>)
    requires ScanValue(e + tail) == Ended(v, |e|)
    ensures ScanValue((EscapeByte(b) + e) + tail) == Ended([b] + v, |EscapeByte(b) + e|)
  {
    ScanFirst(b, e + tail);
    Regroup(EscapeByte(b), e, tail);
  }

  lemma Regroup(a: seq<Byte>, b: seq<Byte>, c: seq<Byte>)
    ensures (a + b) + c == a + (b + c)
  {}

  lemma ScanFirst(b: Byte, tail: seq<Byte>)
    ensures b == SEMICOLON ==> ScanValue([SEMICOLON, SEMICOLON] + tail) == Onto(b, 2, ScanValue(tail))
    ensures b != SEMICOLON ==> ScanValue([b] + tail) == Onto(b, 1, ScanValue(tail))
  {
    assert ([SEMICOLON, SEMICOLON] + tail)[2..] == tail;
    assert ([b] + tail)[1..] == tail;
  }

  lemma {:induction false} KeyEndOf(key: seq<Byte>, rest: seq<Byte>)
    requires EQUALS !in key
    ensures KeyEnd(key + [EQUALS] + rest) == |key|
  {
    if key == [] {
      assert key + [EQUALS] + rest == [EQUALS] + rest;
    } else {
      assert (key + [EQUALS] + rest)[1..] == key[1..] + [EQUALS] + rest;
      KeyEndOf(key[1..], rest);
    }
  }

  lemma ParseParts(key: seq<Byte>, t: seq<Byte>)
    requires EQUALS !in key && |key| <= MAX_KEYLEN && ScanValue(t).Ended? && |ScanValue(t).value| <= MAX_VALLEN
    ensures ParseKeyval(key + [EQUALS] + t) == Keyval(key, ScanValue(t).value, t[ScanValue(t).used + 1..])
  {
    var s := key + [EQUALS] + t;
    KeyEndOf(key, t);
    assert s[|key| + 1..] == t && s[..|key|] == key;
  }

  lemma ParseOfPair(p: Pair, rest: seq<Byte>)
    requires PlainPair(p) && Clear(rest)
    ensures ParseKeyval(PairText(p) + rest) == Keyval(p.key, p.value, rest)
  {
    var t := Escape(p.value) + ([SEMICOLON] + rest);
    ScanOfEscape(p.value, rest);
    ParseParts(p.key, t);
    PairSplits(p.key, Escape(p.value), rest);
  }

  lemma PairSplits(key: seq<Byte>, e: seq<Byte>, rest: seq<Byte>)
    ensures (key + [EQUALS] + e + [SEMICOLON]) + rest == key + [EQUALS] + (e + ([SEMICOLON] + rest))
    ensures (e + ([SEMICOLON] + rest))[|e| + 1..] == rest
  {}

  lemma PairsTextClear(ps: seq<Pair>)
    requires forall i :: 0 <= i < |ps| ==> PlainPair(ps[i])
    ensures Clear(PairsText(ps))
  {
    if ps != [] {
      var p := ps[0];
      assert PairsText(ps)[0] == if p.key == [] then EQUALS else p.key[0];
    }
  }

  lemma {:induction false} ParseOfPairs(ps: seq<Pair>)
    requires forall i :: 0 <= i < |ps| ==> PlainPair(ps[i])
    ensures ParsePairs(PairsText(ps)) == Ok(ps)
    decreases |ps|
  {
    if ps != [] {
      var rest := PairsText(ps[1..]);
      PairsTextClear(ps[1..]);
      ParseOfPair(ps[0], rest);
      ParseOfPairs(ps[1..]);
      assert PairsText(ps) == PairText(ps[0]) + rest;
      assert ps == [ps[0]] + ps[1..];
    }
  }

  /** A name without ';' is its own escape. */
  lemma {:induction false} EscapeOfPlain(v: seq<Byte>)
    requires SEMICOLON !in v
    ensures Escape(v) == v
  {
    if v != [] {
      EscapeOfPlain(v[1..]);
      assert v == [v[0]] + v[1..];
    }
  }

  lemma OpeningParses(c: Command)
    requires PlainCommand(c)
    ensures ParseKeyval(Body(c)) == Keyval(CMD, c.name, PairsText(c.pairs))
  {
    EscapeOfPlain(c.name);
    assert Opening(c.name) == PairText(Pair(CMD, c.name));
    PairsTextClear(c.pairs);
    ParseOfPair(Pair(CMD, c.name), PairsText(c.pairs));
  }

  lemma CopiedPlain(ps: seq<Pair>)
    requires forall i :: 0 <= i < |ps| ==> NUL !in ps[i].key
    ensures CopiedAll(ps) == ps
  {
    forall i | 0 <= i < |ps| ensures Copied(ps[i]) == ps[i] {
      CStrStops(ps[i].key, []);
    }
  }

  /** Parsing what was printed gives back the command: its name, its keys, its values, in order. */
  lemma BodyRoundTrip(c: Command)
    requires PlainCommand(c)
    ensures ParseBody(Body(c)) == Ok(c)
  {
    OpeningParses(c);
    ParseOfPairs(c.pairs);
    CStrStops(CMD, []);
    CopiedPlain(c.pairs);
    ParsedFrom(Body(c), CMD, c.name, PairsText(c.pairs), c.pairs);
  }

  lemma ParsedFrom(s: seq<Byte>, key: seq<Byte>, name: seq<Byte>, rest: seq<Byte>, ps: seq<Pair>)
    requires ParseKeyval(s) == Keyval(key, name, rest) && CStr(key) == CMD && ParsePairs(rest) == Ok(ps)
    ensures ParseBody(s) == Ok(Command(name, CopiedAll(ps)))
  {}

  // ---------- Names and keys, which are not escaped ----------

  /** What was scanned is the escape of the value found. */
  lemma {:induction false} ScanIsEscape(t: seq<Byte>)
    requires ScanValue(t).Ended?
    ensures t[..ScanValue(t).used] == Escape(ScanValue(t).value)
    decreases |t|
  {
    var r := ScanValue(t);
    if t[0] != SEMICOLON {
      ScanIsEscape(t[1..]);
      ScanMoved(t, 1, r.value[0], ScanValue(t[1..]));
    } else if |t| >= 2 && t[1] == SEMICOLON {
      ScanIsEscape(t[2..]);
      ScanMoved(t, 2, r.value[0], ScanValue(t[2..]));
    }
  }

  lemma ScanMoved(t: seq<Byte>, n: nat, b: Byte, r: ValueScan)
    requires n <= |t| && t[..n] == EscapeByte(b)
    requires r.Ended? && r.used <= |t| - n && t[n..][..r.used] == Escape(r.value)
    ensures t[..n + r.used] == Escape([b] + r.value)
  {
    assert ([b] + r.value)[1..] == r.value;
    assert t[..n + r.used] == t[..n] + t[n..][..r.used];
  }

  /** What was printed for a pair that is read. */
  function Printed(key: seq<Byte>, value: seq<Byte>, rest: seq<Byte>): seq<Byte> {
    key + [EQUALS] + (Escape(value) + ([SEMICOLON] + rest))
  }

  /** Where the parts of a pair that is read are. */
  lemma KeyvalFound(s: seq<Byte>, k: nat, t: seq<Byte>, r: ValueScan)
    requires ParseKeyval(s).Keyval? && k == KeyEnd(s) && t == s[k + 1..] && r == ScanValue(t)
    ensures r.Ended? && s[k] == EQUALS && t[r.used] == SEMICOLON
    ensures ParseKeyval(s) == Keyval(s[..k], r.value, t[r.used + 1..])
  {}

  /** The same, in places of the text. */
  lemma KeyvalPlaced(s: seq<Byte>, r: Keyval) returns (k: nat, u: nat)
    requires r == ParseKeyval(s) && r.Keyval?
    ensures k + u + 1 < |s| && s[k] == EQUALS && s[k + 1 + u] == SEMICOLON
    ensures r.key == s[..k] && s[k + 1..k + 1 + u] == Escape(r.value) && r.rest == s[k + u + 2..]
  {
    k := KeyEnd(s);
    var t := s[k + 1..];
    var scan := ScanValue(t);
    KeyvalFound(s, k, t, scan);
    u := scan.used;
    ScanIsEscape(t);
    Shifted(s, k + 1, u);
  }

  lemma Shifted(s: seq<Byte>, i: nat, u: nat)
    requires i + u < |s|
    ensures s[i..][..u] == s[i..i + u] && s[i..][u] == s[i + u] && s[i..][u + 1..] == s[i + u + 1..]
  {}

  lemma InPieces(s: seq<Byte>, k: nat, u: nat)
    requires k + u + 1 < |s|
    ensures s == s[..k] + [s[k]] + (s[k + 1..k + 1 + u] + ([s[k + 1 + u]] + s[k + u + 2..]))
  {}

  lemma ReadWasPrinted(s: seq<Byte>, r: Keyval)
    requires r == ParseKeyval(s) && r.Keyval?
    ensures s == Printed(r.key, r.value, r.rest)
  {
    var k, u := KeyvalPlaced(s, r);
    InPieces(s, k, u);
  }

  lemma ReadIsClear(s: seq<Byte>)
    requires ParseKeyval(s).Keyval?
    ensures var r := ParseKeyval(s); EQUALS !in r.key && |r.key| <= 64 && |r.value| <= 1024 && Clear(r.rest)
  {}

  lemma PrintedIsRead(key: seq<Byte>, value: seq<Byte>, rest: seq<Byte>)
    requires EQUALS !in key && |key| <= 64 && |value| <= 1024 && Clear(rest)
    ensures ParseKeyval(Printed(key, value, rest)) == Keyval(key, value, rest)
  {
    ScanOfEscape(value, rest);
    PairSplits(key, Escape(value), rest);
    ParseParts(key, Escape(value) + ([SEMICOLON] + rest));
  }

  /** A pair is read off the front of a text exactly when the text starts with what is printed for it,
      its key has no '=', both keep their limits, and what follows does not start with ';'. */
  lemma ParsesExactly(s: seq<Byte>, key: seq<Byte>, value: seq<Byte>, rest: seq<Byte>)
    ensures ParseKeyval(s) == Keyval(key, value, rest) <==>
              && s == key + [EQUALS] + (Escape(value) + ([SEMICOLON] + rest))
              && EQUALS !in key && |key| <= 64 && |value| <= 1024 && (rest == [] || rest[0] != SEMICOLON)
  {
    if ParseKeyval(s) == Keyval(key, value, rest) {
      ReadWasPrinted(s, ParseKeyval(s));
      ReadIsClear(s);
    }
    if s == Printed(key, value, rest) && EQUALS !in key && |key| <= 64 && |value| <= 1024 && Clear(rest) {
      PrintedIsRead(key, value, rest);
    }
  }

  /** Pairs that can be read back one after the other: within the limits, no '=' in a key, and no ';' in
      front of any key but the first. */
  predicate Readable(ps: seq<Pair>) {
    && (forall i :: 0 <= i < |ps| ==> EQUALS !in ps[i].key && |ps[i].key| <= 64 && |ps[i].value| <= 1024)
    && (forall i :: 0 < i < |ps| ==> ps[i].key == [] || ps[i].key[0] != SEMICOLON)
  }

  lemma ReadableRest(ps: seq<Pair>)
    requires ps != [] && Readable(ps)
    ensures Readable(ps[1..]) && Clear(PairsText(ps[1..]))
  {
    var rest := ps[1..];
    assert forall i :: 0 <= i < |rest| ==> rest[i] == ps[i + 1];
    if rest != [] {
      assert PairsText(rest)[0] == if rest[0].key == [] then EQUALS else rest[0].key[0];
    }
  }

  lemma ReadableMore(p: Pair, rest: seq<Pair>)
    requires EQUALS !in p.key && |p.key| <= 64 && |p.value| <= 1024 && Readable(rest) && Clear(PairsText(rest))
    ensures Readable([p] + rest)
  {
    var ps := [p] + rest;
    assert forall i :: 0 < i < |ps| ==> ps[i] == rest[i - 1];
    if rest != [] {
      assert PairsText(rest)[0] == if rest[0].key == [] then EQUALS else rest[0].key[0];
    }
  }

  lemma PrintedFirst(p: Pair, rest: seq<Pair>)
    ensures PairsText([p] + rest) == Printed(p.key, p.value, PairsText(rest))
  {
    assert ([p] + rest)[1..] == rest;
    PairSplits(p.key, Escape(p.value), PairsText(rest));
  }

  lemma {:induction false} PairsWerePrinted(s: seq<Byte>)
    requires ParsePairs(s).Ok?
    ensures s == PairsText(ParsePairs(s).value) && Readable(ParsePairs(s).value)
    decreases |s|
  {
    if s != [] {
      var r := ParseKeyval(s);
      ReadWasPrinted(s, ParseKeyval(s));
      ReadIsClear(s);
      PairsWerePrinted(r.rest);
      PrintedFirst(Pair(r.key, r.value), ParsePairs(r.rest).value);
      ReadableMore(Pair(r.key, r.value), ParsePairs(r.rest).value);
    }
  }

  lemma {:induction false} PrintedPairsAreRead(ps: seq<Pair>)
    requires Readable(ps)
    ensures ParsePairs(PairsText(ps)) == Ok(ps)
    decreases |ps|
  {
    if ps != [] {
      var p, rest := ps[0], ps[1..];
      assert ps == [p] + rest;
      ReadableRest(ps);
      PrintedFirst(p, rest);
      PrintedIsRead(p.key, p.value, PairsText(rest));
      PrintedPairsAreRead(rest);
    }
  }

  /** A buffer holds exactly the pairs of which it is the print. */
  lemma PairsParseExactly(s: seq<Byte>, ps: seq<Pair>)
    ensures ParsePairs(s) == Ok(ps) <==> s == PairsText(ps) && Readable(ps)
  {
    if ParsePairs(s) == Ok(ps) {
      PairsWerePrinted(s);
    }
    if s == PairsText(ps) && Readable(ps) {
      PrintedPairsAreRead(ps);
    }
  }

  /** A body that is the print of a first pair and of others. */
  predicate Prints(s: seq<Byte>, key: seq<Byte>, name: seq<Byte>, ps: seq<Pair>) {
    s == PairsText([Pair(key, name)] + ps) && Readable([Pair(key, name)] + ps)
  }

  lemma BodyWasPrinted(s: seq<Byte>, c: Command)
    requires ParseBody(s) == Ok(c)
    ensures exists key, ps :: Prints(s, key, c.name, ps) && CStr(key) == CMD && CopiedAll(ps) == c.pairs
  {
    var r := ParseKeyval(s);
    var ps := ParsePairs(r.rest).value;
    PairsWerePrinted(r.rest);
    ReadWasPrinted(s, ParseKeyval(s));
    ReadIsClear(s);
    PrintedFirst(Pair(r.key, c.name), ps);
    ReadableMore(Pair(r.key, c.name), ps);
    assert Prints(s, r.key, c.name, ps);
  }

  lemma PrintedBodyIsRead(s: seq<Byte>, c: Command, key: seq<Byte>, ps: seq<Pair>)
    requires Prints(s, key, c.name, ps) && CStr(key) == CMD && CopiedAll(ps) == c.pairs
    ensures ParseBody(s) == Ok(c)
  {
    var p := Pair(key, c.name);
    assert ([p] + ps)[0] == p && ([p] + ps)[1..] == ps;
    ReadableRest([p] + ps);
    PrintedFirst(p, ps);
    PrintedIsRead(key, c.name, PairsText(ps));
    PrintedPairsAreRead(ps);
  }

  /** And a body holds a command exactly when it is the print of a first pair, with "cmd" for its key as
      a C string and the name for its value, and of pairs that are its own up to the NULs in their keys. */
  lemma BodyParsesExactly(s: seq<Byte>, c: Command)
    ensures ParseBody(s) == Ok(c) <==>
              exists key, ps :: Prints(s, key, c.name, ps) && CStr(key) == [99, 109, 100] && CopiedAll(ps) == c.pairs
  {
    if ParseBody(s) == Ok(c) {
      BodyWasPrinted(s, c);
    }
    forall key, ps | Prints(s, key, c.name, ps) && CStr(key) == CMD && CopiedAll(ps) == c.pairs
      ensures ParseBody(s) == Ok(c)
    {
      PrintedBodyIsRead(s, c, key, ps);
    }
  }

  /** A parsed pair covers its key, '=', its value escaped, ';', and no ';' comes next. */
  lemma ParsedCovers(s: seq<Byte>)
    requires ParseKeyval(s).Keyval?
    ensures var r := ParseKeyval(s);
            && |s| == |r.key| + 1 + |Escape(r.value)| + 1 + |r.rest| && Clear(r.rest)
            && r.key <= s && EQUALS !in r.key
  {
    ReadWasPrinted(s, ParseKeyval(s));
    ReadIsClear(s);
  }

  lemma {:induction false} EscapeGrows(v: seq<Byte>)
    ensures |Escape(v)| == |v| <==> SEMICOLON !in v
  {
    if v != [] {
      EscapeGrows(v[1..]);
      assert v == [v[0]] + v[1..];
    }
  }

  lemma CopiedTail(qs: seq<Pair>, ps: seq<Pair>)
    requires qs != [] && CopiedAll(qs) == ps
    ensures ps != [] && ps[0] == Copied(qs[0]) && CopiedAll(qs[1..]) == ps[1..]
  {
    assert forall i :: 0 <= i < |qs| - 1 ==> CopiedAll(qs[1..])[i] == ps[1..][i];
  }

  /** No text shorter than their print parses to the pairs, and one of that length only with plain keys. */
  lemma {:induction false} ParsedTo(s: seq<Byte>, ps: seq<Pair>)
    requires ParsePairs(s).Ok? && CopiedAll(ParsePairs(s).value) == ps
    ensures |PairsText(ps)| <= |s|
    ensures |PairsText(ps)| == |s| && Clear(s) ==> forall i :: 0 <= i < |ps| ==> ClearKey(ps[i].key)
    decreases |s|
  {
    if s != [] {
      ParsedCovers(s);
      var r := ParseKeyval(s);
      var qs := ParsePairs(s).value;
      assert qs[1..] == ParsePairs(r.rest).value;
      CopiedTail(qs, ps);
      ParsedTo(r.rest, ps[1..]);
      assert |PairsText(ps)| == |CStr(r.key)| + 1 + |Escape(r.value)| + 1 + |PairsText(ps[1..])|;
      if |PairsText(ps)| == |s| && Clear(s) {
        assert ps[0].key == r.key;
        forall i | 0 <= i < |ps| ensures ClearKey(ps[i].key) {
          assert i > 0 ==> ps[i] == ps[1..][i - 1];
        }
      }
    }
  }

  /** A command that is parsed back from what is printed for it has a name and keys that need no
      escape: parsing reads what would have been printed with one, and that is no shorter. */
  lemma BackMeansPlain(c: Command)
    requires ParseBody(Body(c)) == Ok(c)
    ensures SEMICOLON !in c.name && forall i :: 0 <= i < |c.pairs| ==> ClearKey(c.pairs[i].key)
  {
    ParsedCovers(Body(c));
    var r := ParseKeyval(Body(c));
    ParsedTo(r.rest, c.pairs);
    EscapeGrows(c.name);
    assert |Body(c)| == |CMD| + 1 + |c.name| + 1 + |PairsText(c.pairs)|;
  }

  lemma PlainExactly(c: Command)
    requires Proper(c)
    ensures PlainCommand(c) <==> SEMICOLON !in c.name && forall i :: 0 <= i < |c.pairs| ==> ClearKey(c.pairs[i].key)
  {
    assert forall i :: 0 <= i < |c.pairs| ==> (PlainPair(c.pairs[i]) <==> ClearKey(c.pairs[i].key));
  }

  /** Whatever the values, a command comes back exactly when its name has no ';', no key has a '=',
      and no key starts with ';'. */
  lemma ComesBackExactly(c: Command)
    requires Proper(c)
    ensures ParseBody(Body(c)) == Ok(c) <==>
              SEMICOLON !in c.name && forall i :: 0 <= i < |c.pairs| ==> ClearKey(c.pairs[i].key)
  {
    PlainExactly(c);
    if ParseBody(Body(c)) == Ok(c) {
      BackMeansPlain(c);
    } else if PlainCommand(c) {
      BodyRoundTrip(c);
    }
  }

  /** The command named ";" does not come back. */
  lemma SemicolonNameIsLost()
    ensures ParseBody(Body(Command([SEMICOLON], []))) != Ok(Command([SEMICOLON], []))
  {
    ComesBackExactly(Command([SEMICOLON], []));
  }

  // ---------- The counting pass ----------

  /** How many pairs the first pass over the buffer counts. */
  function CountPairs(s: seq<Byte>): nat {
    if s == [] then 0
    else if s[0] != SEMICOLON then (if |s| == 1 then 1 else CountPairs(s[1..]))
    else if |s| >= 2 && s[1] == SEMICOLON then CountPairs(s[2..])
    else 1 + CountPairs(s[1..])
  }

  /** The ';' of a key that are not one of a pair, runs being paired left to right. */
  function Loose(key: seq<Byte>): nat {
    if key == [] then 0
    else if key[0] != SEMICOLON then Loose(key[1..])
    else if |key| >= 2 && key[1] == SEMICOLON then Loose(key[2..])
    else 1 + Loose(key[1..])
  }

  /** There is none exactly in the keys that could be escaped texts. */
  lemma {:induction false} LooseExactly(key: seq<Byte>)
    ensures Loose(key) == 0 <==> exists text :: Escape(text) == key
    decreases |key|
  {
    if key == [] {
      assert Escape([]) == key;
    } else if key[0] != SEMICOLON {
      LooseExactly(key[1..]);
      EscapeStarts(key, key[0], 1);
    } else if |key| >= 2 && key[1] == SEMICOLON {
      LooseExactly(key[2..]);
      EscapeStarts(key, SEMICOLON, 2);
    } else {
      forall text ensures Escape(text) != key {
        EscapeDoubles(text);
      }
    }
  }

  lemma EscapeDoubles(text: seq<Byte>)
    ensures var e := Escape(text); e != [] && e[0] == SEMICOLON ==> |e| >= 2 && e[1] == SEMICOLON
  {}

  /** The first byte of a text off its escape. */
  lemma EscapeStarts(key: seq<Byte>, b: Byte, n: nat)
    requires n <= |key| && key[..n] == EscapeByte(b)
    ensures (exists text :: Escape(text) == key) <==> (exists text :: Escape(text) == key[n..])
  {
    assert key == EscapeByte(b) + key[n..];
    if text :| Escape(text) == key[n..] {
      assert ([b] + text)[1..] == text;
      assert Escape([b] + text) == key;
    }
    if text :| Escape(text) == key {
      EscapedBehind(key, b, n, text);
    }
  }

  lemma EscapedBehind(key: seq<Byte>, b: Byte, n: nat, text: seq<Byte>)
    requires n <= |key| && key[..n] == EscapeByte(b) && Escape(text) == key
    ensures text != [] && Escape(text[1..]) == key[n..]
  {
    assert key[..n][0] == key[0];
    var first, rest := EscapeByte(text[0]), Escape(text[1..]);
    assert first[0] == (first + rest)[0] == b;
    assert (first + rest)[|first|..] == rest;
  }

  function LooseInKeys(ps: seq<Pair>): nat {
    if ps == [] then 0 else Loose(ps[0].key) + LooseInKeys(ps[1..])
  }

  lemma {:induction false} CountPastKey(key: seq<Byte>, t: seq<Byte>)
    requires t != []
    ensures CountPairs(key + [EQUALS] + t) == Loose(key) + CountPairs(t)
    decreases |key|
  {
    var s := key + [EQUALS] + t;
    if key == [] {
      assert s[1..] == t;
    } else if key[0] == SEMICOLON && |key| >= 2 && key[1] == SEMICOLON {
      assert s[2..] == key[2..] + [EQUALS] + t;
      CountPastKey(key[2..], t);
    } else {
      assert s[1..] == key[1..] + [EQUALS] + t;
      CountPastKey(key[1..], t);
    }
  }

  lemma {:induction false} CountPastValue(t: seq<Byte>)
    requires ScanValue(t).Ended?
    ensures CountPairs(t) == 1 + CountPairs(t[ScanValue(t).used + 1..])
    decreases |t|
  {
    var u := ScanValue(t).used;
    if t[0] != SEMICOLON {
      CountPastValue(t[1..]);
      assert t[1..][u - 1 + 1..] == t[u + 1..];
    } else if |t| >= 2 && t[1] == SEMICOLON {
      CountPastValue(t[2..]);
      assert t[2..][u - 2 + 1..] == t[u + 1..];
    }
  }

  lemma CountPastPair(s: seq<Byte>, r: Keyval)
    requires r == ParseKeyval(s) && r.Keyval?
    ensures CountPairs(s) == 1 + Loose(r.key) + CountPairs(r.rest)
  {
    var k := KeyEnd(s);
    var t := s[k + 1..];
    var scan := ScanValue(t);
    KeyvalFound(s, k, t, scan);
    CountPast(s, k, t, scan);
  }

  lemma CountPast(s: seq<Byte>, k: nat, t: seq<Byte>, scan: ValueScan)
    requires k < |s| && s[k] == EQUALS && t == s[k + 1..] && scan == ScanValue(t) && scan.Ended?
    ensures CountPairs(s) == 1 + Loose(s[..k]) + CountPairs(t[scan.used + 1..])
  {
    SplitAt(s, k);
    CountPastKey(s[..k], t);
    CountPastValue(t);
  }

  lemma SplitAt(s: seq<Byte>, k: nat)
    requires k < |s|
    ensures s == s[..k] + [s[k]] + s[k + 1..]
  {}

  /** On every buffer that parses, the first pass counts one for each pair and one more for each
      unpaired ';' inside a key. */
  lemma {:induction false} CountOfParsed(s: seq<Byte>)
    requires ParsePairs(s).Ok?
    ensures CountPairs(s) == |ParsePairs(s).value| + LooseInKeys(ParsePairs(s).value)
    decreases |s|
  {
    if s != [] {
      var r := ParseKeyval(s);
      CountPastPair(s, r);
      CountOfParsed(r.rest);
      var ps := ParsePairs(r.rest).value;
      assert ([Pair(r.key, r.value)] + ps)[1..] == ps;
    }
  }

  lemma {:induction false} NoneLoose(ps: seq<Pair>)
    ensures LooseInKeys(ps) == 0 <==> forall i :: 0 <= i < |ps| ==> Loose(ps[i].key) == 0
  {
    if ps != [] {
      NoneLoose(ps[1..]);
      assert forall i :: 0 < i < |ps| ==> ps[i] == ps[1..][i - 1];
    }
  }

  /** For a command that comes back, the count is the command pair, the other pairs, and the unpaired
      ';' of their keys. */
  lemma CountOfBody(c: Command)
    requires PlainCommand(c)
    ensures CountPairs(Body(c)) == 1 + |c.pairs| + LooseInKeys(c.pairs)
  {
    OpeningParses(c);
    CountPastPair(Body(c), ParseKeyval(Body(c)));
    PlainIsNotLoose(CMD);
    ParseOfPairs(c.pairs);
    CountOfParsed(PairsText(c.pairs));
  }

  lemma {:induction false} PlainIsNotLoose(key: seq<Byte>)
    requires SEMICOLON !in key
    ensures Loose(key) == 0
  {
    if key != [] { PlainIsNotLoose(key[1..]); }
  }

  /** The two passes agree on exactly the commands in whose keys every ';' is one of a pair. */
  lemma PassesAgreeExactly(c: Command)
    requires PlainCommand(c)
    ensures CountPairs(Body(c)) == 1 + |c.pairs| <==> forall i :: 0 <= i < |c.pairs| ==> Loose(c.pairs[i].key) == 0
  {
    CountOfBody(c);
    NoneLoose(c.pairs);
  }

  /** The command "x" with one key "a;" comes back, but two pairs are counted behind its name. */
  lemma SemicolonKeyMiscounts()
    ensures var c := Command([120], [Pair([97, SEMICOLON], [])]);
            Proper(c) && ParseBody(Body(c)) == Ok(c) && CountPairs(Body(c)) == 1 + 2
  {
    var c := Command([120], [Pair([97, SEMICOLON], [])]);
    var key := c.pairs[0].key;
    assert key[1..] == [SEMICOLON] && key[1..][1..] == [];
    assert Loose(key) == Loose(key[1..]) == 1;
    assert LooseInKeys(c.pairs) == Loose(key) + LooseInKeys(c.pairs[1..]);
    assert PlainPair(c.pairs[0]);
    ComesBackExactly(c);
    CountOfBody(c);
  }

  // ---------- What becomes of a body ----------

  /** "thrid" */
  const THRID: seq<Byte> := [116, 104, 114, 105, 100]

  /** r is the value of the first pair with the key. */
  predicate FirstMatch(ps: seq<Pair>, key: seq<Byte>, r: Option<seq<Byte>>) {
    match r
    case None => forall i :: 0 <= i < |ps| ==> ps[i].key != key
    case Some(v) => exists i :: 0 <= i < |ps| && ps[i].key == key && ps[i].value == v
                               && forall j :: 0 <= j < i ==> ps[j].key != key
  }

  lemma FirstMatchIsOne(ps: seq<Pair>, key: seq<Byte>, r: Option<seq<Byte>>, q: Option<seq<Byte>>)
    requires FirstMatch(ps, key, r) && FirstMatch(ps, key, q)
    ensures r == q
  {
    if r.Some? && q.Some? {
      var i :| 0 <= i < |ps| && ps[i].key == key && ps[i].value == r.value
               && forall j :: 0 <= j < i ==> ps[j].key != key;
      var k :| 0 <= k < |ps| && ps[k].key == key && ps[k].value == q.value
               && forall j :: 0 <= j < k ==> ps[j].key != key;
      assert i == k;
    }
  }

  function FirstValue(ps: seq<Pair>, key: seq<Byte>): (r: Option<seq<Byte>>)
    ensures FirstMatch(ps, key, r)
  {
    if ps == [] then None
    else if ps[0].key == key then Some(ps[0].value)
    else
      var r := FirstValue(ps[1..], key);
      MatchLater(ps, key, r);
      r
  }

  lemma MatchLater(ps: seq<Pair>, key: seq<Byte>, r: Option<seq<Byte>>)
    requires ps != [] && ps[0].key != key && FirstMatch(ps[1..], key, r)
    ensures FirstMatch(ps, key, r)
  {
    assert forall i :: 0 < i < |ps| ==> ps[i] == ps[1..][i - 1];
    if r.Some? {
      var i :| 0 <= i < |ps| - 1 && ps[1..][i].key == key && ps[1..][i].value == r.value
               && forall j :: 0 <= j < i ==> ps[1..][j].key != key;
      assert ps[i + 1].key == key && ps[i + 1].value == r.value;
      assert forall j :: 0 < j < i + 1 ==> ps[j] == ps[1..][j - 1];
    }
  }

  /** No "thrid" among the pairs, or the first one is the address of the reader's own record. */
  predicate ForCaller(self: Address, ps: seq<Pair>) {
    match FirstValue(ps, THRID) case None => true case Some(v) => ScanPointer(v) == Some(self)
  }

  /** A body that is no command; a command stored in the record of the caller who reads it; one that is
      stored where its first "thrid" points to instead, or nowhere known; one with places that the
      counting pass made room for and no pair was put into, which are searched or handed over. */
  datatype Received = NoCommand | Accepted(command: Command) | Redirected(command: Command) | Unfilled

  /** What becomes of a body that is read into the record at `self`. */
  function Receive(self: Address, body: seq<Byte>): Received {
    match ParseBody(body)
    case Ok(c) =>
      if !ForCaller(self, c.pairs) then Redirected(c)
      else if CountPairs(body) != 1 + |c.pairs| then Unfilled
      else Accepted(c)
    case _ => NoCommand
  }

  /** The commands that reach a reader with his record at `self`. */
  predicate Receivable(self: Address, c: Command) {
    && PlainCommand(c) && ForCaller(self, c.pairs)
    && forall i :: 0 <= i < |c.pairs| ==> Loose(c.pairs[i].key) == 0
  }

  /** The keys of a command that was parsed are C strings. */
  lemma ReceivedKeys(self: Address, body: seq<Byte>)
    requires Receive(self, body).Accepted?
    ensures var ps := Receive(self, body).command.pairs; forall i :: 0 <= i < |ps| ==> NUL !in ps[i].key
  {}

  lemma ReceivableIsProper(self: Address, c: Command)
    requires Receivable(self, c)
    ensures Proper(c)
  {
    assert forall i :: 0 <= i < |c.pairs| ==> PlainPair(c.pairs[i]);
  }

  lemma ForCallerExactly(self: Address, ps: seq<Pair>)
    ensures ForCaller(self, ps) <==> forall v :: FirstMatch(ps, THRID, Some(v)) ==> ScanPointer(v) == Some(self)
  {
    forall v | FirstMatch(ps, THRID, Some(v)) ensures FirstValue(ps, THRID) == Some(v) {
      FirstMatchIsOne(ps, THRID, FirstValue(ps, THRID), Some(v));
    }
  }

  lemma ClearKeysExactly(ps: seq<Pair>)
    ensures (forall i :: 0 <= i < |ps| ==> ClearKey(ps[i].key)) <==>
              && (forall i :: 0 <= i < |ps| ==> EQUALS !in ps[i].key)
              && (forall i :: 0 <= i < |ps| ==> ps[i].key == [] || ps[i].key[0] != SEMICOLON)
  {
    assert forall i :: 0 <= i < |ps| ==>
      (ClearKey(ps[i].key) <==> EQUALS !in ps[i].key && (ps[i].key == [] || ps[i].key[0] != SEMICOLON));
  }

  lemma PlainReceived(self: Address, c: Command)
    requires PlainCommand(c)
    ensures Receive(self, Body(c)) == Accepted(c) <==> Receivable(self, c)
  {
    BodyRoundTrip(c);
    PassesAgreeExactly(c);
  }

  /** A command reaches the caller who reads it exactly when its name has no ';', no key has a '=',
      starts with ';' or has an unpaired ';', and it has no "thrid", or the first one is the address of
      the caller's own record. */
  lemma ReceivedExactly(self: Address, c: Command)
    requires Proper(c)
    ensures Receive(self, Body(c)) == Accepted(c) <==> Receivable(self, c)
    ensures Receive(self, Body(c)) == Accepted(c) <==>
              && SEMICOLON !in c.name
              && (forall i :: 0 <= i < |c.pairs| ==> EQUALS !in c.pairs[i].key)
              && (forall i :: 0 <= i < |c.pairs| ==> c.pairs[i].key == [] || c.pairs[i].key[0] != SEMICOLON)
              && (forall i :: 0 <= i < |c.pairs| ==> Loose(c.pairs[i].key) == 0)
              && forall v :: FirstMatch(c.pairs, THRID, Some(v)) ==> ScanPointer(v) == Some(self)
  {
    ForCallerExactly(self, c.pairs);
    ClearKeysExactly(c.pairs);
    ComesBackExactly(c);
    PlainExactly(c);
    if PlainCommand(c) {
      PlainReceived(self, c);
    }
  }

  /** Of the commands that are parsed back, those whose first "thrid" is not the address of the
      caller's record are not stored there. */
  lemma RedirectedExactly(self: Address, c: Command)
    requires PlainCommand(c)
    ensures Receive(self, Body(c)) == Redirected(c) <==> !ForCaller(self, c.pairs)
  {
    BodyRoundTrip(c);
  }

  /** The command "x" with the one key "thrid". */
  function ThridCommand(value: seq<Byte>): Command { Command([120], [Pair(THRID, value)]) }

  lemma ThridIsPlain(self: Address, value: seq<Byte>)
    requires |value| <= MAX_VALLEN
    ensures PlainCommand(ThridCommand(value))
    ensures ForCaller(self, ThridCommand(value).pairs) <==> ScanPointer(value) == Some(self)
  {
    var ps := ThridCommand(value).pairs;
    assert PlainPair(ps[0]) && ps[0].key == THRID;
    assert FirstValue(ps, THRID) == Some(value);
  }

  /** With any value but the address of its reader's record it is not stored there. */
  lemma ThridIsRedirected(self: Address, value: seq<Byte>)
    requires |value| <= MAX_VALLEN && ScanPointer(value) != Some(self)
    ensures Receive(self, Body(ThridCommand(value))) == Redirected(ThridCommand(value))
  {
    ThridIsPlain(self, value);
    RedirectedExactly(self, ThridCommand(value));
  }

  /** With that address, as it is printed, it is. */
  lemma OwnThridIsAccepted(self: Address)
    ensures Receive(self, Body(ThridCommand(PointerText(self)))) == Accepted(ThridCommand(PointerText(self)))
  {
    var c := ThridCommand(PointerText(self));
    assert [] + PointerText(self) == PointerText(self);
    PointerReads([], self);
    PointerIsShort(self);
    ThridIsPlain(self, PointerText(self));
    PlainIsNotLoose(THRID);
    PlainReceived(self, c);
  }

  // ---------- Written out ----------

  /** "12    cmd=x;a=;;b;" is the command "x" whose one key "a" has the value ";b". */
  lemma FrameInBytes()
    ensures var c := Command([120], [Pair([97], [59, 98])]);
            |Body(c)| == 12
            && Frame(c) == [49, 50, 32, 32, 32, 32, 99, 109, 100, 61, 120, 59, 97, 61, 59, 59, 98, 59]
  {
    var c := Command([120], [Pair([97], [59, 98])]);
    assert Escape([59, 98][1..]) == [98];
    assert Escape([59, 98]) == [59, 59, 98];
    assert PairsText(c.pairs) == PairText(c.pairs[0]) + [];
    assert Body(c) == [99, 109, 100, 61, 120, 59, 97, 61, 59, 59, 98, 59];
    OneMoreDigit(10, 1, 2);
    assert Header(12) == [49, 50] + Spaces(4) == [49, 50, 32, 32, 32, 32];
  }
}
