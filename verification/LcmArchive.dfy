/** The archive that maps an address to a short key, run by one thread. */
module LcmArchive {
  import opened Bytes

  const NTRY: nat := 3
  const EMPTY: nat := 0

  /** How far past the home slot the last of the three probes lands. */
  const SPILL: nat := 5

  function Cap(nbits: nat): (cap: nat)
    ensures cap > 0
  {
    if nbits == 0 then 1 else 2 * Cap(nbits - 1)
  }

  function Home(nbits: nat, value: nat): (h: nat)
    ensures h < Cap(nbits)
  {
    (value / 64) % Cap(nbits)
  }

  /** There are 2^nbits slots, and an address starts at the slot its line number, the address by 64,
      leaves over. */
  lemma {:induction false} HomeExactly(nbits: nat, value: nat)
    ensures Cap(nbits) == Pow(2, nbits) && Home(nbits, value) == (value / 64) % Pow(2, nbits)
    decreases nbits
  {
    if nbits > 0 {
      HomeExactly(nbits - 1, value);
    }
  }

  lemma CapOfTen()
    ensures Cap(10) == 1024
  {
    assert Cap(1) == 2; assert Cap(2) == 4; assert Cap(3) == 8; assert Cap(4) == 16; assert Cap(5) == 32;
    assert Cap(6) == 64; assert Cap(7) == 128; assert Cap(8) == 256; assert Cap(9) == 512;
  }

  /** The slot tried after i failed attempts: the distance grows by the squares. */
  function Probe(home: nat, i: nat): (p: nat)
    ensures i == 0 ==> p == home
    ensures i == 1 ==> p == home + 1
    ensures i == 2 ==> p == home + SPILL
  {
    if i == 0 then home else Probe(home, i - 1) + i * i
  }

  datatype PutResult = Stored(key: nat) | Retry

  /** The memory a put needs: the allocated slots, and the spill past their end. */
  predicate Spacious(slots: seq<nat>, nbits: nat) {
    |slots| == Cap(nbits) + SPILL
  }

  /** What a put returns: the first probed slot that is empty, if one of the three is. */
  predicate PutAnswer(slots: seq<nat>, home: nat, r: PutResult)
    requires home + SPILL < |slots|
  {
    if slots[home] == EMPTY then r == Stored(home)
    else if slots[home + 1] == EMPTY then r == Stored(home + 1)
    else if slots[home + SPILL] == EMPTY then r == Stored(home + SPILL)
    else r == Retry
  }

  /** The same as a loop over the attempts. */
  function PutFrom(slots: seq<nat>, home: nat, i: nat): PutResult
    requires home + SPILL < |slots| && i <= NTRY
    decreases NTRY - i
  {
    if i == NTRY then Retry
    else if slots[Probe(home, i)] == EMPTY then Stored(Probe(home, i))
    else PutFrom(slots, home, i + 1)
  }

  lemma PutFromAnswers(slots: seq<nat>, home: nat)
    requires home + SPILL < |slots|
    ensures PutAnswer(slots, home, PutFrom(slots, home, 0))
  {
    assert PutFrom(slots, home, 2) == if slots[home + SPILL] == EMPTY then Stored(home + SPILL) else Retry;
    assert PutFrom(slots, home, 1) == if slots[home + 1] == EMPTY then Stored(home + 1) else PutFrom(slots, home, 2);
  }

  function Put(slots: seq<nat>, nbits: nat, value: nat): PutResult
    requires Spacious(slots, nbits)
  {
    PutFrom(slots, Home(nbits, value), 0)
  }

  lemma StoredInside(slots: seq<nat>, nbits: nat, value: nat)
    requires Spacious(slots, nbits)
    ensures Put(slots, nbits, value).Stored? ==> Put(slots, nbits, value).key < |slots|
  {
    PutFromAnswers(slots, Home(nbits, value));
  }

  /** What a put returns, from the address alone: the first of three slots that is empty, if one is. */
  lemma PutExactly(slots: seq<nat>, nbits: nat, value: nat)
    requires Spacious(slots, nbits)
    ensures Pow(2, nbits) + 5 == |slots|
    ensures var h := (value / 64) % Pow(2, nbits);
            Put(slots, nbits, value) ==
              if slots[h] == EMPTY then Stored(h)
              else if slots[h + 1] == EMPTY then Stored(h + 1)
              else if slots[h + 5] == EMPTY then Stored(h + 5)
              else Retry
  {
    HomeExactly(nbits, value);
    PutFromAnswers(slots, Home(nbits, value));
  }

  /** Into an empty table every address goes where it starts. */
  lemma PutIntoEmpty(slots: seq<nat>, nbits: nat, value: nat)
    requires Spacious(slots, nbits) && forall k :: 0 <= k < |slots| ==> slots[k] == EMPTY
    ensures Put(slots, nbits, value) == Stored((value / 64) % Pow(2, nbits))
  {
    PutExactly(slots, nbits, value);
  }

  lemma RemaindersDiffer(m: nat, a: nat, b: nat)
    requires a < b < a + m
    ensures a % m != b % m
  {
    var e := b / m - a / m;
    assert m * e == (b - a) - (b % m - a % m) by { assert m * (b / m) - m * (a / m) == m * e; }
    assert e >= 1 ==> m * e >= m;
    assert e <= 0 ==> m * e <= 0;
  }

  /** Addresses whose line numbers are less than the capacity apart never start at the same slot. */
  lemma NearLinesStartApart(nbits: nat, v: nat, w: nat)
    requires v / 64 < w / 64 < v / 64 + Pow(2, nbits)
    ensures Home(nbits, v) != Home(nbits, w)
  {
    HomeExactly(nbits, v);
    HomeExactly(nbits, w);
    RemaindersDiffer(Pow(2, nbits), v / 64, w / 64);
  }

  /** So two of them, put one after the other into an empty table, are each stored at their first probe. */
  lemma NearLinesNeverCollide(slots: seq<nat>, nbits: nat, v: nat, w: nat)
    requires Spacious(slots, nbits) && forall k :: 0 <= k < |slots| ==> slots[k] == EMPTY
    requires v / 64 < w / 64 < v / 64 + Pow(2, nbits)
    ensures var h, k := (v / 64) % Pow(2, nbits), (w / 64) % Pow(2, nbits);
            && Put(slots, nbits, v) == Stored(h) && Put(slots[h := v], nbits, w) == Stored(k)
            && Put(slots, nbits, w) == Stored(k) && Put(slots[k := w], nbits, v) == Stored(h) && h != k
  {
    NearLinesStartApart(nbits, v, w);
    PutExactly(slots, nbits, v);
    PutExactly(slots, nbits, w);
    var h, k := (v / 64) % Pow(2, nbits), (w / 64) % Pow(2, nbits);
    HomeExactly(nbits, v);
    HomeExactly(nbits, w);
    PutExactly(slots[h := v], nbits, w);
    PutExactly(slots[k := w], nbits, v);
  }

  /** The slots a put looks at. */
  function Visited(slots: seq<nat>, home: nat): set<nat>
    requires home + SPILL < |slots|
  {
    {home}
    + (if slots[home] == EMPTY then {} else {home + 1})
    + (if slots[home] == EMPTY || slots[home + 1] == EMPTY then {} else {home + SPILL})
  }

  /** A put that looks no further than probe i has looked at the probes up to i. */
  lemma VisitedTo(slots: seq<nat>, home: nat, i: nat)
    requires home + SPILL < |slots| && i < NTRY
    requires forall j: nat :: j < i ==> slots[Probe(home, j)] != EMPTY
    requires slots[Probe(home, i)] == EMPTY || i == NTRY - 1
    ensures Visited(slots, home) == (set j: nat | j < i + 1 :: Probe(home, j))
  {
    assert Probe(home, 0) == home && Probe(home, 1) == home + 1 && Probe(home, 2) == home + SPILL;
    assert i > 0 ==> slots[Probe(home, 0)] != EMPTY;
    assert i > 1 ==> slots[Probe(home, 1)] != EMPTY;
  }

  /** The probes are not masked: with only Cap(nbits) slots allocated, a put stays inside them
      whatever they hold exactly when its home slot is not one of the last five. */
  lemma StaysInsideExactly(nbits: nat, home: nat)
    requires home < Cap(nbits)
    ensures (forall slots: seq<nat> | Spacious(slots, nbits) :: forall k <- Visited(slots, home) :: k < Cap(nbits))
            <==> home + SPILL < Cap(nbits)
  {
    if home + SPILL >= Cap(nbits) {
      var full: seq<nat> := seq(Cap(nbits) + SPILL, _ => 1);
      assert Spacious(full, nbits) && home + SPILL in Visited(full, home);
    }
  }

  /** An address in the last kilobyte of the home range, its slot taken: slot 1024 of 1024 is read. */
  lemma ReadsPastTheEnd()
    ensures Home(10, 1023 * 64) == 1023
    ensures var slots := seq(Cap(10) + SPILL, k => if k == 1023 then 64 else EMPTY);
            Spacious(slots, 10) && Put(slots, 10, 1023 * 64) == Stored(Cap(10))
  {
    CapOfTen();
    var slots: seq<nat> := seq(Cap(10) + SPILL, k => if k == 1023 then 64 else EMPTY);
    PutFromAnswers(slots, 1023);
  }

  class Archive {
    const ptr: array<nat>
    const nbits: nat

    ghost predicate Valid() { ptr.Length == Cap(nbits) + SPILL }

    /** LCM_archive_init, with the spill allocated as well. */
    constructor (nbits: nat)
      ensures Valid() && fresh(ptr) && this.nbits == nbits
      ensures forall k :: 0 <= k < ptr.Length ==> ptr[k] == EMPTY
    {
      var cap := Cap(nbits);
      var slots := new nat[cap + SPILL];
      for i := 0 to slots.Length
        invariant forall k :: 0 <= k < i ==> slots[k] == EMPTY
      {
        slots[i] := EMPTY;
      }
      ptr := slots;
      this.nbits := nbits;
    }

    /** The probing loop; `visited` are the slots it looked at. */
    method PutValue(value: nat) returns (r: PutResult, ghost visited: set<nat>)
      requires Valid()
      modifies ptr
      ensures Valid() && ptr.Length == Pow(2, nbits) + 5
      ensures var h := (value / 64) % Pow(2, nbits);
              r == if old(ptr[h]) == EMPTY then Stored(h)
                   else if old(ptr[h + 1]) == EMPTY then Stored(h + 1)
                   else if old(ptr[h + 5]) == EMPTY then Stored(h + 5)
                   else Retry
      ensures r == Put(old(ptr[..]), nbits, value)
      ensures ptr[..] == if r.Stored? then old(ptr[..])[r.key := value] else old(ptr[..])
      ensures visited == Visited(old(ptr[..]), Home(nbits, value))
    {
      PutExactly(ptr[..], nbits, value);
      ghost var before := ptr[..];
      ghost var home := Home(nbits, value);
      var key := Home(nbits, value);
      var i := 1;
      visited := {};
      while i <= NTRY
        invariant 1 <= i <= NTRY + 1
        invariant i <= NTRY ==> key == Probe(home, i - 1)
        invariant ptr[..] == before
        invariant PutFrom(before, home, 0) == PutFrom(before, home, i - 1)
        invariant visited == (set j: nat | j < i - 1 :: Probe(home, j))
        invariant forall j: nat :: j < i - 1 ==> before[Probe(home, j)] != EMPTY
      {
        visited := visited + {key};
        if ptr[key] == EMPTY {
          ptr[key] := value;
          assert ptr[..] == before[key := value];
          VisitedTo(before, home, i - 1);
          return Stored(key), visited;
        }
        key := key + i * i;
        i := i + 1;
      }
      VisitedTo(before, home, NTRY - 1);
      return Retry, visited;
    }

    method GetValue(key: nat) returns (value: nat)
      requires Valid() && key < ptr.Length
      ensures value == ptr[key]
    {
      value := ptr[key];
    }

    method RemoveKey(key: nat) returns (value: nat)
      requires Valid() && key < ptr.Length
      modifies ptr
      ensures Valid()
      ensures value == old(ptr[key])
      ensures ptr[..] == old(ptr[..])[key := EMPTY]
    {
      value := ptr[key];
      ptr[key] := EMPTY;
    }
  }

  /** A put that succeeds, then a remove of its key, leaves the slots as they were. */
  lemma PutThenRemove(slots: seq<nat>, nbits: nat, value: nat)
    requires Spacious(slots, nbits) && value != EMPTY
    requires Put(slots, nbits, value).Stored?
    ensures var k := Put(slots, nbits, value).key;
            && k < |slots| && slots[k] == EMPTY
            && slots[k := value][k] == value
            && slots[k := value][k := EMPTY] == slots
  {
    PutFromAnswers(slots, Home(nbits, value));
  }
}
