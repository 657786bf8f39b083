/** The key/value lines of the PMI1 client: a line parsed into a table in place, and the table looked
    up and changed. */
module Pmi1Keyvals {
  import opened Bytes
  import opened Pmi1Strings

  const MAXKEYLEN: nat := 32
  const MAXVALLEN: nat := 1024
  const TABLE_SIZE: nat := 64

  datatype Entry = Entry(key: seq<Byte>, value: seq<Byte>)

  // ---------- Lines of pairs ----------

  /** What ends a key, and what ends a value. */
  predicate Stops(b: Byte, inKey: bool) { b == SPACE || b == NEWLINE || (inKey && b == EQUALS) }

  /** The first place from i on where a key or a value stops. */
  function RunTo(s: seq<Byte>, i: nat, inKey: bool): (k: nat)
    requires i <= |s|
    ensures i <= k <= |s| && (k < |s| ==> Stops(s[k], inKey))
    ensures forall j :: i <= j < k ==> !Stops(s[j], inKey)
    decreases |s| - i
  {
    if i == |s| || Stops(s[i], inKey) then i else RunTo(s, i + 1, inKey)
  }

  /** The first place from i on that is not blank. */
  function PastBlanks(s: seq<Byte>, i: nat): (k: nat)
    requires i <= |s|
    ensures i <= k <= |s| && (k < |s| ==> s[k] != SPACE)
    ensures forall j :: i <= j < k ==> s[j] == SPACE
    decreases |s| - i
  {
    if i == |s| || s[i] != SPACE then i else PastBlanks(s, i + 1)
  }

  /** What stands at i, which is not blank: the end, a mistake, or a pair and where its value ends. */
  datatype Front = Stop(ok: bool) | Pair(entry: Entry, end: nat)

  function FrontAt(s: seq<Byte>, i: nat): (f: Front)
    requires i <= |s|
    ensures f.Pair? ==> i < f.end <= |s| && (f.end < |s| ==> Stops(s[f.end], false))
  {
    if i == |s| || s[i] == NEWLINE then Stop(true)
    else if s[i] == EQUALS then Stop(false)
    else
      var k := RunTo(s, i, true);
      if k == |s| || s[k] != EQUALS then Stop(false)
      else
        var end := RunTo(s, k + 1, false);
        Pair(Entry(s[i..k], s[k + 1..end]), end)
  }

  /** Where a pair stands: a key that is not empty, '=', a value, and then the end or a delimiter. */
  predicate PairAt(s: seq<Byte>, i: nat, e: Entry, end: nat) {
    && e.key != [] && end == i + |e.key| + 1 + |e.value| <= |s|
    && s[i..end] == e.key + [EQUALS] + e.value
    && (forall j :: 0 <= j < |e.key| ==> e.key[j] != SPACE && e.key[j] != NEWLINE && e.key[j] != EQUALS)
    && (forall j :: 0 <= j < |e.value| ==> e.value[j] != SPACE && e.value[j] != NEWLINE)
    && (end < |s| ==> s[end] == SPACE || s[end] == NEWLINE)
  }

  /** Behind the blanks there is a pair, or the end of the line, or else a mistake. */
  lemma FrontExactly(s: seq<Byte>, i: nat, e: Entry, end: nat)
    requires i <= |s| && (i < |s| ==> s[i] != SPACE)
    ensures FrontAt(s, i) == Pair(e, end) <==> PairAt(s, i, e, end)
    ensures FrontAt(s, i) == Stop(true) <==> i == |s| || s[i] == NEWLINE
  {
    if FrontAt(s, i) == Pair(e, end) {
      var k := RunTo(s, i, true);
      assert s[i..end] == s[i..k] + [EQUALS] + s[k + 1..end];
    } else if PairAt(s, i, e, end) {
      PairRuns(s, i, e, end);
      assert false;
    }
  }

  lemma PairRuns(s: seq<Byte>, i: nat, e: Entry, end: nat)
    requires i <= |s| && PairAt(s, i, e, end)
    ensures FrontAt(s, i) == Pair(e, end)
  {
    var k := i + |e.key|;
    PairInParts(s, i, e, end);
    assert forall j :: i <= j < k ==> s[j] == e.key[j - i];
    assert RunTo(s, i, true) == k;
    assert forall j :: k < j < end ==> s[j] == e.value[j - (k + 1)];
    assert RunTo(s, k + 1, false) == end;
  }

  lemma PairInParts(s: seq<Byte>, i: nat, e: Entry, end: nat)
    requires end == i + |e.key| + 1 + |e.value| <= |s| && s[i..end] == e.key + [EQUALS] + e.value
    ensures var k := i + |e.key|; s[i..k] == e.key && s[k] == EQUALS && s[k + 1..end] == e.value
    ensures forall j :: 0 <= j < |e.key| ==> s[i + j] == e.key[j]
  {
    var k := i + |e.key|;
    assert s[i..k] == s[i..end][..|e.key|];
    assert s[k] == s[i..end][|e.key|];
    assert s[k + 1..end] == s[i..end][|e.key| + 1..];
    assert forall j :: 0 <= j < |e.key| ==> s[i + j] == s[i..end][j];
  }

  datatype Parsed = Parsed(entries: seq<Entry>, ok: bool)

  function Cons(e: Entry, r: Parsed): Parsed { Parsed([e] + r.entries, r.ok) }

  /** The pairs from i on, to the newline or end of the line, or to the first mistake. */
  function ParseFrom(s: seq<Byte>, i: nat): Parsed
    requires i <= |s|
    decreases |s| - i
  {
    match FrontAt(s, PastBlanks(s, i))
    case Stop(ok) => Parsed([], ok)
    case Pair(e, end) => if end == |s| || s[end] == NEWLINE then Parsed([e], true) else Cons(e, ParseFrom(s, end))
  }

  function ParseLine(s: seq<Byte>): Parsed { ParseFrom(s, 0) }

  /** A pair of the text protocol: no delimiter in the key, none but '=' in the value. */
  predicate Printable(e: Entry) {
    0 < |e.key| && Plain(e.key, true) && Plain(e.value, false)
  }

  function PrintLine(es: seq<Entry>): seq<Byte>
    decreases |es|, 0
  {
    if es == [] then [NEWLINE] else es[0].key + [EQUALS] + es[0].value + PrintTail(es[1..])
  }

  function PrintTail(es: seq<Entry>): seq<Byte>
    decreases |es|, 1
  {
    if es == [] then [NEWLINE] else [SPACE] + PrintLine(es)
  }

  predicate Plain(text: seq<Byte>, inKey: bool) {
    forall j :: 0 <= j < |text| ==> !Stops(text[j], inKey) && text[j] != NUL
  }

  /** A plain text followed by a stop is run through to its end. */
  lemma {:induction false} RunToIs(s: seq<Byte>, i: nat, text: seq<Byte>, inKey: bool)
    requires i + |text| < |s| && s[i..i + |text|] == text && Plain(text, inKey) && Stops(s[i + |text|], inKey)
    ensures RunTo(s, i, inKey) == i + |text|
    decreases |text|
  {
    if text != [] {
      assert s[i] == s[i..i + |text|][0];
      assert s[i + 1..i + |text|] == text[1..];
      RunToIs(s, i + 1, text[1..], inKey);
    }
  }

  /** The pairs lie in the line from i on: keys, '=', values, blanks between, a newline at the end. */
  predicate Laid(s: seq<Byte>, i: nat, es: seq<Entry>)
    decreases |es|
  {
    if es == [] then i < |s| && s[i] == NEWLINE
    else
      var k := i + |es[0].key|;
      var end := k + 1 + |es[0].value|;
      && end < |s| && s[i..k] == es[0].key && s[k] == EQUALS && s[k + 1..end] == es[0].value
      && if |es| == 1 then s[end] == NEWLINE else s[end] == SPACE && Laid(s, end + 1, es[1..])
  }

  lemma PairLies(pre: seq<Byte>, key: seq<Byte>, value: seq<Byte>, tail: seq<Byte>)
    requires tail != []
    ensures var s := pre + (key + [EQUALS] + value + tail);
            var k := |pre| + |key|;
            var end := k + 1 + |value|;
            end < |s| && s[|pre|..k] == key && s[k] == EQUALS && s[k + 1..end] == value && s[end] == tail[0]
  {}

  lemma Regrouped(pre: seq<Byte>, key: seq<Byte>, value: seq<Byte>, rest: seq<Byte>)
    ensures pre + (key + [EQUALS] + value + ([SPACE] + rest)) == (pre + key + [EQUALS] + value + [SPACE]) + rest
  {}

  lemma LaidMore(s: seq<Byte>, i: nat, e: Entry, rest: seq<Entry>)
    requires var k := i + |e.key|;
             var end := k + 1 + |e.value|;
             && end < |s| && s[i..k] == e.key && s[k] == EQUALS && s[k + 1..end] == e.value
             && if rest == [] then s[end] == NEWLINE else s[end] == SPACE && Laid(s, end + 1, rest)
    ensures Laid(s, i, [e] + rest)
  {
    assert ([e] + rest)[1..] == rest;
  }

  lemma FirstPrinted(pre: seq<Byte>, e: Entry, rest: seq<Entry>)
    ensures var s := pre + PrintLine([e] + rest);
            var k := |pre| + |e.key|;
            var end := k + 1 + |e.value|;
            && end < |s| && s[|pre|..k] == e.key && s[k] == EQUALS && s[k + 1..end] == e.value
            && s[end] == if rest == [] then NEWLINE else SPACE
  {
    assert ([e] + rest)[1..] == rest;
    PairLies(pre, e.key, e.value, PrintTail(rest));
  }

  lemma RestPrinted(pre: seq<Byte>, e: Entry, rest: seq<Entry>)
    requires rest != []
    ensures pre + PrintLine([e] + rest) == (pre + e.key + [EQUALS] + e.value + [SPACE]) + PrintLine(rest)
  {
    assert ([e] + rest)[1..] == rest;
    Regrouped(pre, e.key, e.value, PrintLine(rest));
  }

  lemma {:induction false} PrintedIsLaid(pre: seq<Byte>, es: seq<Entry>)
    ensures Laid(pre + PrintLine(es), |pre|, es)
    decreases |es|
  {
    if es != [] {
      var e, rest := es[0], es[1..];
      assert es == [e] + rest;
      FirstPrinted(pre, e, rest);
      if rest != [] {
        RestPrinted(pre, e, rest);
        PrintedIsLaid(pre + e.key + [EQUALS] + e.value + [SPACE], rest);
      }
      LaidMore(pre + PrintLine(es), |pre|, e, rest);
    }
  }

  /** What stands at i where a pair lies. */
  lemma FrontOfLaid(s: seq<Byte>, i: nat, e: Entry)
    requires Printable(e)
    requires var end := i + |e.key| + 1 + |e.value|;
             && end < |s| && Stops(s[end], false)
             && s[i..i + |e.key|] == e.key && s[i + |e.key|] == EQUALS && s[i + |e.key| + 1..end] == e.value
    ensures PastBlanks(s, i) == i && FrontAt(s, i) == Pair(e, i + |e.key| + 1 + |e.value|)
  {
    assert s[i] == s[i..i + |e.key|][0] && !Stops(e.key[0], true);
    RunToIs(s, i, e.key, true);
    RunToIs(s, i + |e.key| + 1, e.value, false);
  }

  lemma ParseOnPair(s: seq<Byte>, i: nat, e: Entry, end: nat)
    requires i <= |s| && PastBlanks(s, i) == i && FrontAt(s, i) == Pair(e, end)
    ensures ParseFrom(s, i) == if end == |s| || s[end] == NEWLINE then Parsed([e], true) else Cons(e, ParseFrom(s, end))
  {}

  lemma BlankSkipped(s: seq<Byte>, i: nat)
    requires i < |s| && s[i] == SPACE
    ensures ParseFrom(s, i) == ParseFrom(s, i + 1)
  {
    assert PastBlanks(s, i) == PastBlanks(s, i + 1);
  }

  lemma ParseFirst(s: seq<Byte>, i: nat, es: seq<Entry>)
    requires i <= |s| && es != [] && Laid(s, i, es) && Printable(es[0])
    ensures var end := i + |es[0].key| + 1 + |es[0].value|;
            && end < |s|
            && ParseFrom(s, i) == if |es| == 1 then Parsed([es[0]], true) else Cons(es[0], ParseFrom(s, end + 1))
  {
    var end := i + |es[0].key| + 1 + |es[0].value|;
    FrontOfLaid(s, i, es[0]);
    ParseOnPair(s, i, es[0], end);
    if |es| > 1 {
      BlankSkipped(s, end);
    }
  }

  lemma {:induction false} ParseLaid(s: seq<Byte>, i: nat, es: seq<Entry>)
    requires i <= |s| && Laid(s, i, es) && forall j :: 0 <= j < |es| ==> Printable(es[j])
    ensures ParseFrom(s, i) == Parsed(es, true)
    decreases |es|
  {
    if es != [] {
      ParseFirst(s, i, es);
      assert es == [es[0]] + es[1..];
      if |es| > 1 {
        ParseLaid(s, i + |es[0].key| + 1 + |es[0].value| + 1, es[1..]);
      }
    }
  }

  /** Printing pairs and parsing the line gives back the pairs, '=' in values and all. */
  lemma LineRoundTrip(es: seq<Entry>)
    requires forall j :: 0 <= j < |es| ==> Printable(es[j])
    ensures ParseLine(PrintLine(es)) == Parsed(es, true)
  {
    PrintedIsLaid([], es);
    assert [] + PrintLine(es) == PrintLine(es);
    ParseLaid(PrintLine(es), 0, es);
  }

  lemma {:induction false} PrintedHasNoNul(es: seq<Entry>)
    requires forall j :: 0 <= j < |es| ==> Printable(es[j])
    ensures NUL !in PrintLine(es)
    decreases |es|
  {
    if es != [] {
      assert Printable(es[0]);
      if |es| > 1 {
        PrintedHasNoNul(es[1..]);
      }
    }
  }

  // ---------- The table ----------

  /** One row: two blocks of memory, each with a C string in it. */
  datatype Row = Row(key: seq<Byte>, value: seq<Byte>)

  /** What a bounded copy leaves in a block. */
  function Copied(block: seq<Byte>, src: seq<Byte>, n: nat): (b: seq<Byte>)
    requires 0 < n <= |block|
    ensures |b| == |block|
  {
    Cut(src, n) + [NUL] + block[|Cut(src, n)| + 1..]
  }

  predicate RowFits(r: Row) {
    |r.key| == MAXKEYLEN && |r.value| == MAXVALLEN && Terminated(r.key) && Terminated(r.value)
  }

  function EntryOf(r: Row): Entry { Entry(CStr(r.key), CStr(r.value)) }

  function EntriesOf(rows: seq<Row>): (es: seq<Entry>)
    ensures |es| == |rows| && forall i :: 0 <= i < |rows| ==> es[i] == EntryOf(rows[i])
  {
    seq(|rows|, i requires 0 <= i < |rows| => EntryOf(rows[i]))
  }

  lemma CopiedHolds(block: seq<Byte>, src: seq<Byte>, n: nat)
    requires 0 < n <= |block| && NUL !in src
    ensures CStr(Copied(block, src, n)) == Cut(src, n) && Terminated(Copied(block, src, n))
  {
    CStrStops(Cut(src, n), block[|Cut(src, n)| + 1..]);
    assert Copied(block, src, n)[|Cut(src, n)|] == NUL;
  }

  /** The value is copied with the rest of its line behind it, then ended where it ends. */
  lemma ValueCut(block: seq<Byte>, value: seq<Byte>, rest: seq<Byte>)
    requires |block| == MAXVALLEN && |value| < MAXVALLEN && NUL !in value
    ensures CStr(Copied(block, value + rest, MAXVALLEN)[|value| := NUL]) == value
    ensures Terminated(Copied(block, value + rest, MAXVALLEN)[|value| := NUL])
  {
    var b := Copied(block, value + rest, MAXVALLEN);
    var c := Cut(value + rest, MAXVALLEN);
    assert forall j :: 0 <= j < |value| ==> value[j] == (value + rest)[j] == c[j] == b[j];
    CStrIs(b[|value| := NUL], value);
    assert b[|value| := NUL][|value|] == NUL;
  }

  /** The bytes of a row: its key block, then its value block. */
  const ROW_SIZE: nat := MAXKEYLEN + MAXVALLEN

  /** The row in which byte n of the value block of row i lies; behind the block it is a later one. */
  function RowAt(i: nat, n: nat): nat { i + (MAXKEYLEN + n) / ROW_SIZE }

  /** A NUL stored in a row, at a byte of either block. */
  function Nulled(row: Row, at: nat): Row
    requires RowFits(row) && at < ROW_SIZE
  {
    if at < MAXKEYLEN then Row(row.key[at := NUL], row.value) else Row(row.key, row.value[at - MAXKEYLEN := NUL])
  }

  lemma NulledFits(row: Row, at: nat)
    requires RowFits(row) && at < ROW_SIZE
    ensures RowFits(Nulled(row, at))
  {
    if at < MAXKEYLEN {
      assert row.key[at := NUL][at] == NUL;
    } else {
      assert row.value[at - MAXKEYLEN := NUL][at - MAXKEYLEN] == NUL;
    }
  }

  /** What copying a pair makes of its row: the value goes in with the rest of the line behind it. */
  function Filled(row: Row, key: seq<Byte>, line: seq<Byte>): Row
    requires RowFits(row)
  {
    Row(Copied(row.key, key, MAXKEYLEN), Copied(row.value, line, MAXVALLEN))
  }

  /** The same with the NUL behind the value, where that is in the row. */
  function Stored(row: Row, key: seq<Byte>, line: seq<Byte>, vallen: nat): Row
    requires RowFits(row) && RowFits(Filled(row, key, line))
  {
    if vallen < MAXVALLEN then Nulled(Filled(row, key, line), MAXKEYLEN + vallen) else Filled(row, key, line)
  }

  lemma FilledFits(row: Row, key: seq<Byte>, line: seq<Byte>)
    requires RowFits(row) && NUL !in key && NUL !in line
    ensures RowFits(Filled(row, key, line))
    ensures EntryOf(Filled(row, key, line)) == Entry(Cut(key, MAXKEYLEN), Cut(line, MAXVALLEN))
  {
    CopiedHolds(row.key, key, MAXKEYLEN);
    CopiedHolds(row.value, line, MAXVALLEN);
  }

  /** The row holds the pair: ended by its NUL if it fits, cut by the copy alone if it does not. */
  lemma StoredHolds(row: Row, key: seq<Byte>, line: seq<Byte>, vallen: nat)
    requires RowFits(row) && NUL !in key && NUL !in line && vallen <= |line|
    ensures RowFits(Filled(row, key, line))
    ensures RowFits(Stored(row, key, line, vallen))
    ensures EntryOf(Stored(row, key, line, vallen)) == Entry(Cut(key, MAXKEYLEN), Cut(line[..vallen], MAXVALLEN))
  {
    FilledFits(row, key, line);
    if vallen < MAXVALLEN {
      assert line[..vallen] + line[vallen..] == line;
      ValueCut(row.value, line[..vallen], line[vallen..]);
    } else {
      assert line[..vallen][..MAXVALLEN - 1] == line[..MAXVALLEN - 1];
    }
  }

  /** A pair as its row can hold it. */
  function CutEntry(e: Entry): Entry { Entry(Cut(e.key, MAXKEYLEN), Cut(e.value, MAXVALLEN)) }

  lemma CutOf(key: seq<Byte>, value: seq<Byte>)
    ensures CutEntry(Entry(key, value)) ==
            Entry(if |key| < 32 then key else key[..31], if |value| < 1024 then value else value[..1023])
  {}

  method StoreIn(row: Row, key: seq<Byte>, line: seq<Byte>, vallen: nat) returns (r: Row)
    requires RowFits(row) && NUL !in key && NUL !in line && vallen <= |line|
    ensures RowFits(r) && EntryOf(r) == CutEntry(Entry(key, line[..vallen]))
  {
    StoredHolds(row, key, line, vallen);
    r := Stored(row, key, line, vallen);
  }

  lemma EntriesGrow(rows: seq<Row>, row: Row)
    ensures EntriesOf(rows + [row]) == EntriesOf(rows) + [EntryOf(row)]
  {}

  /** A row with the key gets the value, cut to one byte less than its block holds. */
  function Revalued(row: Row, key: seq<Byte>, value: seq<Byte>): Row
    requires RowFits(row)
  {
    if CStr(row.key) != key then row
    else Row(row.key, Copied(row.value, value, MAXVALLEN - 1)[MAXVALLEN - 1 := NUL])
  }

  lemma RevaluedHolds(row: Row, key: seq<Byte>, value: seq<Byte>)
    requires RowFits(row) && NUL !in value
    ensures RowFits(Revalued(row, key, value))
    ensures EntryOf(Revalued(row, key, value)) ==
            if EntryOf(row).key == key then Entry(key, Cut(value, MAXVALLEN - 1)) else EntryOf(row)
  {
    if CStr(row.key) == key {
      var block := Revalued(row, key, value).value;
      CStrIs(block, Cut(value, MAXVALLEN - 1));
      assert block[MAXVALLEN - 1] == NUL;
    }
  }

  /** A string copied out of the block that holds it. */
  method CopyOut(block: seq<Byte>, dest: array<Byte>, n: nat) returns (ok: bool)
    requires Terminated(block) && n <= dest.Length
    modifies dest
    ensures n > 0 ==> CStr(dest[..]) == Cut(CStr(block), n) && (ok <==> |CStr(block)| < n)
    ensures n == 0 ==> ok && dest[..] == old(dest[..])
  {
    var src := new Byte[|block|](k requires 0 <= k < |block| => block[k]);
    assert src[..] == block;
    ok := Strncpy(dest, src, n);
  }

  /** The value of the first entry with the key. */
  function Lookup(es: seq<Entry>, key: seq<Byte>): (i: nat)
    ensures i <= |es| && (i < |es| ==> es[i].key == key) && forall j :: 0 <= j < i ==> es[j].key != key
  {
    if es == [] || es[0].key == key then 0 else 1 + Lookup(es[1..], key)
  }

  /** Every entry with the key changed, no other touched. */
  function Changed(es: seq<Entry>, key: seq<Byte>, value: seq<Byte>): (r: seq<Entry>)
    ensures |r| == |es| && forall i :: 0 <= i < |es| ==> r[i] == if es[i].key == key then Entry(key, value) else es[i]
  {
    seq(|es|, i requires 0 <= i < |es| => if es[i].key == key then Entry(key, value) else es[i])
  }

  /** After a change the key is where it was, with the new value; other keys have their old ones. */
  lemma ChangedLookup(es: seq<Entry>, key: seq<Byte>, value: seq<Byte>, other: seq<Byte>)
    ensures var r := Changed(es, key, value);
            && Lookup(r, other) == Lookup(es, other)
            && (Lookup(es, key) < |es| ==> r[Lookup(r, key)].value == value)
            && (other != key && Lookup(es, other) < |es| ==> r[Lookup(r, other)] == es[Lookup(es, other)])
  {
    var r := Changed(es, key, value);
    forall k ensures Lookup(r, k) == Lookup(es, k) {
      var i, j := Lookup(r, k), Lookup(es, k);
      assert i < |es| ==> es[i].key == k;
      assert j < |es| ==> r[j].key == k;
    }
  }

  // ---------- A line parsed where it stands ----------

  /** The block holds the line from place i on, ended by a NUL. */
  predicate Text(st: array<Byte>, s: seq<Byte>, i: nat)
    reads st
  {
    i <= |s| < st.Length && (forall j :: i <= j < |s| ==> st[j] == s[j] != NUL) && st[|s|] == NUL
  }

  /** The string from place i to the NUL at `end`. */
  method StringAt(st: array<Byte>, i: nat, ghost end: nat) returns (r: seq<Byte>)
    requires i <= end < st.Length && (forall j :: i <= j < end ==> st[j] != NUL) && st[end] == NUL
    ensures r == st[i..end] && NUL !in r
  {
    r := [];
    var p := i;
    while st[p] != NUL
      invariant i <= p <= end && r == st[i..p] && NUL !in r
      decreases end - p
    {
      r := r + [st[p]];
      p := p + 1;
    }
  }

  method SkipBlanks(st: array<Byte>, i: nat, ghost s: seq<Byte>) returns (p: nat)
    requires Text(st, s, i)
    ensures p == PastBlanks(s, i)
  {
    p := i;
    while st[p] == SPACE
      invariant i <= p <= |s| && PastBlanks(s, i) == PastBlanks(s, p)
      decreases |s| - p
    {
      p := p + 1;
    }
  }

  method SkipTo(st: array<Byte>, i: nat, inKey: bool, ghost s: seq<Byte>) returns (p: nat)
    requires Text(st, s, i)
    ensures p == RunTo(s, i, inKey)
  {
    p := i;
    while st[p] != NUL && !Stops(st[p], inKey)
      invariant i <= p <= |s| && RunTo(s, i, inKey) == RunTo(s, p, inKey)
      decreases |s| - p
    {
      p := p + 1;
    }
  }

  /** The key from i to p, ended by a NUL where its '=' was. */
  method TakeKey(st: array<Byte>, i: nat, p: nat, ghost s: seq<Byte>) returns (key: seq<Byte>)
    requires Text(st, s, i) && i <= p < |s|
    modifies st
    ensures key == s[i..p] && NUL !in key && Text(st, s, p + 1)
  {
    st[p] := NUL;
    key := StringAt(st, i, p);
  }

  /** The pair at i: its key, and the rest of the line from its value on. */
  method ScanPair(st: array<Byte>, i: nat, ghost s: seq<Byte>)
    returns (isPair: bool, ok: bool, key: seq<Byte>, line: seq<Byte>, vallen: nat, p: nat)
    requires Text(st, s, i)
    modifies st
    ensures match FrontAt(s, i)
            case Stop(o) => !isPair && ok == o
            case Pair(e, end) =>
              && isPair && key == e.key && p == end && Text(st, s, p) && NUL !in key && NUL !in line
              && vallen <= |line| && line[..vallen] == e.value
  {
    isPair, ok, key, line, vallen, p := false, false, [], [], 0, i;
    if st[p] == EQUALS {
      return;
    }
    if st[p] == NEWLINE || st[p] == NUL {
      ok := true;
      return;
    }
    p := SkipTo(st, i, true, s);
    if st[p] != EQUALS {
      return;
    }
    key := TakeKey(st, i, p, s);
    var val := p + 1;
    line := StringAt(st, val, |s|);
    assert line == s[val..];
    p := SkipTo(st, val, false, s);
    vallen := p - val;
    isPair := true;
    assert line[..vallen] == s[val..p];
  }

  function CutAll(es: seq<Entry>): (r: seq<Entry>)
    ensures |r| == |es| && forall i :: 0 <= i < |es| ==> r[i] == CutEntry(es[i])
  {
    seq(|es|, i requires 0 <= i < |es| => CutEntry(es[i]))
  }

  function Behind(done: seq<Entry>, r: Parsed): Parsed { Parsed(done + r.entries, r.ok) }

  lemma BehindCons(done: seq<Entry>, e: Entry, r: Parsed)
    ensures Behind(done, Cons(e, r)) == Behind(done + [e], r)
  {
    assert done + ([e] + r.entries) == (done + [e]) + r.entries;
  }

  /** Storing the pair at the front moves it from the line to the entries. */
  lemma BehindMoves(done: seq<Entry>, s: seq<Byte>, i: nat)
    requires i <= |s| && FrontAt(s, PastBlanks(s, i)).Pair?
    ensures var f := FrontAt(s, PastBlanks(s, i));
            Behind(done, ParseFrom(s, i)) == Behind(done + [f.entry], ParseFrom(s, f.end))
  {
    BehindCons(done, FrontAt(s, PastBlanks(s, i)).entry, ParseFrom(s, FrontAt(s, PastBlanks(s, i)).end));
  }

  /** The store that ends the value of pair i lies inside the table. */
  predicate InTable(i: nat, vallen: nat) { i < TABLE_SIZE && RowAt(i, vallen) < TABLE_SIZE }

  /** No pair makes the parser store behind the table. */
  predicate TableHolds(es: seq<Entry>) { forall i :: 0 <= i < |es| ==> InTable(i, |es[i].value|) }

  /** No pair makes it store behind its own row. */
  predicate RowsHold(es: seq<Entry>) { forall i :: 0 <= i < |es| ==> i < TABLE_SIZE && RowAt(i, |es[i].value|) == i }

  /** The table is never left exactly when there are at most 64 pairs and every value ends before the
      table does, which only a long value near the end fails to do. */
  lemma TableHoldsExactly(es: seq<Entry>)
    ensures TableHolds(es) <==>
              && |es| <= TABLE_SIZE
              && forall i :: 0 <= i < |es| ==> |es[i].value| < MAXVALLEN + ROW_SIZE * (TABLE_SIZE - 1 - i)
  {
    if |es| > TABLE_SIZE {
      assert !InTable(TABLE_SIZE, |es[TABLE_SIZE].value|);
    } else {
      forall i | 0 <= i < |es|
        ensures InTable(i, |es[i].value|) <==> |es[i].value| < MAXVALLEN + ROW_SIZE * (TABLE_SIZE - 1 - i)
      {
        WithinExactly(i, |es[i].value|);
      }
    }
  }

  lemma WithinExactly(i: nat, n: nat)
    requires i < TABLE_SIZE
    ensures RowAt(i, n) < TABLE_SIZE <==> n < MAXVALLEN + ROW_SIZE * (TABLE_SIZE - 1 - i)
  {}

  /** No row is left exactly when there are at most 64 pairs, with values of less than 1024 characters. */
  lemma RowsHoldExactly(es: seq<Entry>)
    ensures RowsHold(es) <==> |es| <= TABLE_SIZE && forall i :: 0 <= i < |es| ==> |es[i].value| < MAXVALLEN
    ensures RowsHold(es) ==> TableHolds(es)
  {
    if |es| > TABLE_SIZE {
      assert RowAt(TABLE_SIZE, |es[TABLE_SIZE].value|) >= TABLE_SIZE;
    }
  }

  /** A line printed from pairs within the limits fills the table with those pairs. */
  lemma PrintedFillsTable(es: seq<Entry>)
    requires |es| <= TABLE_SIZE
    requires forall i :: 0 <= i < |es| ==> Printable(es[i]) && |es[i].key| < MAXKEYLEN && |es[i].value| < MAXVALLEN
    ensures NUL !in PrintLine(es)
    ensures ParseLine(PrintLine(es)).ok && RowsHold(ParseLine(PrintLine(es)).entries)
    ensures CutAll(ParseLine(PrintLine(es)).entries) == es
  {
    LineRoundTrip(es);
    PrintedHasNoNul(es);
    RowsHoldExactly(es);
    forall i | 0 <= i < |es| ensures CutAll(es)[i] == es[i] {
      assert Printable(es[i]);
    }
  }

  /** "k=" and a value of n characters 'a'. */
  function Sample(n: nat): Entry { Entry([107], seq(n, _ => 97)) }

  /** One pair with a value of 1024 characters: the NUL behind it is stored in the next row. */
  lemma LongValueLeavesItsRow()
    ensures var es := ParseLine(PrintLine([Sample(MAXVALLEN)])).entries; TableHolds(es) && !RowsHold(es)
  {
    LineRoundTrip([Sample(MAXVALLEN)]);
    RowsHoldExactly([Sample(MAXVALLEN)]);
  }

  /** Sixty-five pairs, however short: the last key is copied behind the table. */
  lemma SixtyFivePairsLeaveTheTable()
    ensures !TableHolds(ParseLine(PrintLine(seq(TABLE_SIZE + 1, _ => Sample(0)))).entries)
  {
    LineRoundTrip(seq(TABLE_SIZE + 1, _ => Sample(0)));
    TableHoldsExactly(seq(TABLE_SIZE + 1, _ => Sample(0)));
  }

  /** Sixty-four pairs, the last with a value of 1024 characters: its NUL is stored behind the table. */
  lemma LongValueInLastRowLeavesTheTable()
    ensures !TableHolds(ParseLine(PrintLine(seq(TABLE_SIZE - 1, _ => Sample(0)) + [Sample(MAXVALLEN)])).entries)
  {
    var es := seq(TABLE_SIZE - 1, _ => Sample(0)) + [Sample(MAXVALLEN)];
    LineRoundTrip(es);
    assert !InTable(TABLE_SIZE - 1, |es[TABLE_SIZE - 1].value|);
  }

  lemma HoldOneMore(done: seq<Entry>, e: Entry)
    ensures TableHolds(done + [e]) <==> TableHolds(done) && InTable(|done|, |e.value|)
    ensures RowsHold(done + [e]) <==>
              RowsHold(done) && |done| < TABLE_SIZE && RowAt(|done|, |e.value|) == |done|
  {
    assert forall i :: 0 <= i < |done| ==> (done + [e])[i] == done[i];
    assert (done + [e])[|done|] == e;
  }

  /** What one round of the loop moves from the line to the entries done, and when it is the last. */
  lemma RoundOf(done: seq<Entry>, s: seq<Byte>, i: nat)
    requires i <= |s|
    ensures match FrontAt(s, PastBlanks(s, i))
            case Stop(ok) => Behind(done, ParseFrom(s, i)) == Parsed(done, ok)
            case Pair(e, end) =>
              && Behind(done, ParseFrom(s, i)) == Behind(done + [e], ParseFrom(s, end))
              && (TableHolds(Behind(done, ParseFrom(s, i)).entries) ==> TableHolds(done + [e]))
              && (end == |s| || s[end] == NEWLINE ==> Behind(done, ParseFrom(s, i)) == Parsed(done + [e], true))
  {
    assert done + [] == done;
    match FrontAt(s, PastBlanks(s, i))
    case Stop(ok) =>
    case Pair(e, end) =>
      BehindMoves(done, s, i);
      if TableHolds((done + [e]) + ParseFrom(s, end).entries) {
        TableHoldsFront(done + [e], ParseFrom(s, end).entries);
      }
  }

  lemma TableHoldsFront(es: seq<Entry>, more: seq<Entry>)
    requires TableHolds(es + more)
    ensures TableHolds(es)
  {
    assert forall i :: 0 <= i < |es| ==> (es + more)[i] == es[i];
  }

  class Table {
    var tab: array<Row>
    var idx: nat

    ghost predicate Valid() reads this, tab {
      idx <= tab.Length == TABLE_SIZE && forall i :: 0 <= i < tab.Length ==> RowFits(tab[i])
    }

    ghost function Entries(): seq<Entry> reads this, tab requires Valid() { EntriesOf(tab[..idx]) }

    constructor ()
      ensures Valid() && fresh(tab) && Entries() == []
    {
      tab := new Row[TABLE_SIZE](_ => Row(seq(MAXKEYLEN, _ => NUL), seq(MAXVALLEN, _ => NUL)));
      idx := 0;
      new;
      forall i | 0 <= i < tab.Length ensures RowFits(tab[i]) {
        assert tab[i].key[0] == NUL && tab[i].value[0] == NUL;
      }
    }

    /** A pair stored in the next row: the key cut to its block, the value copied with all that follows
        it on the line, and a NUL stored behind the value's length, in whatever row that is. Rows behind
        the pair are not in use, so the entry is the pair cut to its row. False stands for the first
        store behind the table. */
    method Store(key: seq<Byte>, line: seq<Byte>, vallen: nat) returns (inside: bool, ghost inRow: bool)
      requires Valid() && NUL !in key && vallen <= |line| && NUL !in line
      modifies `idx, tab
      ensures Valid() && tab == old(tab)
      ensures inside <==> InTable(old(idx), vallen)
      ensures inside ==> Entries() == old(Entries()) + [CutEntry(Entry(key, line[..vallen]))]
      ensures inside ==> Entries() == old(Entries()) + [Entry(if |key| < 32 then key else key[..31],
                                                              if vallen < 1024 then line[..vallen] else line[..1023])]
      ensures inRow <==> RowAt(old(idx), vallen) == old(idx)
    {
      inRow := RowAt(idx, vallen) == idx;
      if idx >= TABLE_SIZE || RowAt(idx, vallen) >= TABLE_SIZE {
        return false, inRow;
      }
      CutOf(key, line[..vallen]);
      assert vallen >= 1024 ==> line[..vallen][..1023] == line[..1023];
      var row := StoreIn(tab[idx], key, line, vallen);
      PutRow(row);
      if vallen >= MAXVALLEN {
        StrayNul(RowAt(idx - 1, vallen), (MAXKEYLEN + vallen) % ROW_SIZE);
      }
      return true, inRow;
    }

    method PutRow(row: Row)
      requires Valid() && idx < TABLE_SIZE && RowFits(row)
      modifies `idx, tab
      ensures Valid() && tab == old(tab) && idx == old(idx) + 1
      ensures Entries() == old(Entries()) + [EntryOf(row)]
    {
      EntriesGrow(tab[..idx], row);
      tab[idx] := row;
      assert tab[..idx + 1] == old(tab[..idx]) + [row];
      idx := idx + 1;
    }

    /** The NUL of a long value, in a row that is not in use. */
    method StrayNul(i: nat, at: nat)
      requires Valid() && idx <= i < TABLE_SIZE && at < ROW_SIZE
      modifies tab
      ensures Valid() && Entries() == old(Entries())
    {
      NulledFits(tab[i], at);
      tab[i] := Nulled(tab[i], at);
      assert tab[..idx] == old(tab[..idx]);
    }

    /** A pair added to those done; what is then known of all the stores made. */
    method Add(key: seq<Byte>, line: seq<Byte>, vallen: nat, ghost done: seq<Entry>, ghost inRows: bool)
      returns (inside: bool, ghost inRows': bool)
      requires Valid() && NUL !in key && vallen <= |line| && NUL !in line
      requires Entries() == CutAll(done) && TableHolds(done) && (inRows <==> RowsHold(done))
      modifies `idx, tab
      ensures Valid() && tab == old(tab)
      ensures var more := done + [Entry(key, line[..vallen])];
              && (inside <==> TableHolds(more))
              && (inside ==> Entries() == CutAll(more) && (inRows' <==> RowsHold(more)))
    {
      ghost var e := Entry(key, line[..vallen]);
      ghost var inRow;
      HoldOneMore(done, e);
      inside, inRow := Store(key, line, vallen);
      inRows' := inRows && inRow;
      assert CutAll(done + [e]) == CutAll(done) + [CutEntry(e)];
    }

    /** One round of the parser's loop: the pair that comes next, if one does, added to those done. */
    method ParseNext(st: array<Byte>, i: nat, ghost s: seq<Byte>, ghost done: seq<Entry>, ghost inRows: bool)
      returns (isPair: bool, ok: bool, inside: bool, end: nat, ghost inRows': bool)
      requires Valid() && Text(st, s, i)
      requires Entries() == CutAll(done) && TableHolds(done) && (inRows <==> RowsHold(done))
      modifies `idx, tab, st
      ensures Valid() && tab == old(tab)
      ensures match FrontAt(s, PastBlanks(s, i))
              case Stop(o) => !isPair && ok == o && Entries() == old(Entries()) && (inRows' <==> inRows)
              case Pair(e, to) =>
                && isPair && end == to && (inside <==> TableHolds(done + [e]))
                && (inside ==> Text(st, s, end) && Entries() == CutAll(done + [e]))
                && (inside ==> (inRows' <==> RowsHold(done + [e])))
    {
      var key, line, vallen;
      inside, inRows' := true, inRows;
      var p := SkipBlanks(st, i, s);
      isPair, ok, key, line, vallen, end := ScanPair(st, p, s);
      if isPair {
        inside, inRows' := Add(key, line, vallen, done, inRows);
      }
    }

    /** PMIU_parse_keyvals, followed to the end of the line or to the first store behind the table. */
    method ParseKeyvals(st: array<Byte>, ghost s: seq<Byte>) returns (inside: bool, ok: bool, ghost inRows: bool)
      requires Valid() && Text(st, s, 0)
      modifies this, tab, st
      ensures Valid() && tab == old(tab)
      ensures inside <==> TableHolds(ParseLine(s).entries)
      ensures inside ==> ok == ParseLine(s).ok && Entries() == CutAll(ParseLine(s).entries)
      ensures inside ==> (inRows <==> RowsHold(ParseLine(s).entries))
    {
      idx := 0;
      inside, ok, inRows := true, true, true;
      var i := 0;
      ghost var done: seq<Entry> := [];
      assert [] + ParseLine(s).entries == ParseLine(s).entries;
      while true
        invariant Valid() && tab == old(tab) && Text(st, s, i) && inside
        invariant Behind(done, ParseFrom(s, i)) == ParseLine(s)
        invariant Entries() == CutAll(done) && TableHolds(done)
        invariant inRows <==> RowsHold(done)
        decreases |s| - i
      {
        var isPair, end;
        RoundOf(done, s, i);
        isPair, ok, inside, end, inRows := ParseNext(st, i, s, done, inRows);
        if !isPair {
          return true, ok, inRows;
        }
        if !inside {
          return;
        }
        done, i := done + [FrontAt(s, PastBlanks(s, i)).entry], end;
        if st[i] != SPACE {
          return true, true, inRows;
        }
      }
    }

    /** PMIU_getval: the first match, copied into the caller's block; true where the source answers the
        block. With no room at all nothing is copied and nothing is missed. */
    method Getval(key: seq<Byte>, valstr: array<Byte>, vallen: nat) returns (found: bool)
      requires Valid() && NUL !in key && vallen <= valstr.Length && valstr.Length > 0
      modifies valstr
      ensures var i := Lookup(Entries(), key);
              && (found <==> i < idx && (|Entries()[i].value| < vallen || vallen == 0))
              && (i < idx && vallen > 0 ==> CStr(valstr[..]) == Cut(Entries()[i].value, vallen))
              && (i < idx && vallen == 0 ==> valstr[..] == old(valstr[..]))
              && (i == idx ==> CStr(valstr[..]) == [])
    {
      ghost var es := Entries();
      var i := 0;
      while i < idx
        invariant 0 <= i <= idx && es == Entries()
        invariant forall j :: 0 <= j < i ==> es[j].key != key
        invariant valstr[..] == old(valstr[..])
      {
        if CStr(tab[i].key) == key {
          assert es[i].key == key && Lookup(es, key) == i;
          found := CopyOut(tab[i].value, valstr, vallen);
          return;
        }
        i := i + 1;
      }
      valstr[0] := NUL;
      return false;
    }

    /** Every row with the key gets the value, cut to one byte less than its block holds. */
    method Chgval(key: seq<Byte>, value: seq<Byte>)
      requires Valid() && NUL !in key && NUL !in value
      modifies tab
      ensures Valid() && Entries() == Changed(old(Entries()), key, Cut(value, MAXVALLEN - 1))
    {
      ghost var rows := tab[..];
      var i := 0;
      while i < idx
        invariant 0 <= i <= idx
        invariant forall j :: 0 <= j < i ==> tab[j] == Revalued(rows[j], key, value)
        invariant forall j :: i <= j < tab.Length ==> tab[j] == rows[j]
      {
        if CStr(tab[i].key) == key {
          tab[i] := Revalued(tab[i], key, value);
        }
        i := i + 1;
      }
      forall j | 0 <= j < idx
        ensures RowFits(tab[j])
        ensures EntryOf(tab[j]) == Changed(EntriesOf(rows[..idx]), key, Cut(value, MAXVALLEN - 1))[j]
      {
        RevaluedHolds(rows[j], key, value);
      }
    }
  }
}
