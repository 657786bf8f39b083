/** The key-value store behind the bootstrap: local publications, and a barrier that turns every
    rank's publications into one global archive through an all-gather. */
module KeyValueStore {
  import opened Bytes

  const STRING_LIMIT: nat := 256

  /** What one entry takes in a buffer: its key's block and its value's. */
  const WIDTH: nat := 2 * STRING_LIMIT

  /** An int holds less. */
  const INT_LIMIT: nat := 0x8000_0000

  /** A published pair of C strings. */
  datatype Entry = Entry(key: seq<Byte>, value: seq<Byte>)

  predicate Fits(s: seq<Byte>) { NUL !in s && |s| < STRING_LIMIT }

  /** A 256-byte block a string was copied into: the bytes past its NUL are whatever they were. */
  predicate Holds(block: seq<Byte>, s: seq<Byte>) {
    |block| == STRING_LIMIT && |s| < STRING_LIMIT && block[..|s|] == s && block[|s|] == NUL && NUL !in s
  }

  lemma HeldString(block: seq<Byte>, s: seq<Byte>)
    requires Holds(block, s)
    ensures CStr(block) == s
  {
    assert block == s + [NUL] + block[|s| + 1..];
    CStrStops(s, block[|s| + 1..]);
  }

  /** A block from malloc: nothing is known of its bytes. */
  method Malloc() returns (block: seq<Byte>)
    ensures |block| == STRING_LIMIT
  {
    block := seq(STRING_LIMIT, _ => 0);
  }

  /** strcpy into a fresh block of the size the archive uses. */
  method CopyString(s: seq<Byte>) returns (block: seq<Byte>)
    requires Fits(s)
    ensures Holds(block, s)
  {
    block := Malloc();
    block := s + [NUL] + block[|s| + 1..];
  }

  /** One archive record: the key's block and the value's block, as they lie in memory. */
  datatype Record = Record(key: seq<Byte>, value: seq<Byte>)

  predicate Keeps(r: Record, e: Entry) { Holds(r.key, e.key) && Holds(r.value, e.value) }

  predicate KeepsAll(rs: seq<Record>, es: seq<Entry>) {
    |rs| == |es| && forall i :: 0 <= i < |rs| ==> Keeps(rs[i], es[i])
  }

  // ---------- The archive: a growable array, appended to and searched from the front ----------

  class Archive {
    var ptr: array<Record>
    var size: nat
    var capacity: nat
    ghost var entries: seq<Entry>

    ghost predicate Valid() reads this, ptr {
      0 < capacity == ptr.Length && size <= capacity && KeepsAll(ptr[..size], entries)
    }

    constructor ()
      ensures Valid() && fresh(ptr) && entries == []
    {
      capacity := 8;
      size := 0;
      ptr := new Record[8](_ => Record([], []));
      entries := [];
    }

    method Clear()
      requires Valid()
      modifies this`size, this`entries
      ensures Valid() && entries == []
    {
      size := 0;
      entries := [];
    }

    method Push(key: seq<Byte>, value: seq<Byte>)
      requires Valid() && Fits(key) && Fits(value)
      modifies this, ptr
      ensures Valid() && (ptr == old(ptr) || fresh(ptr))
      ensures entries == old(entries) + [Entry(key, value)]
    {
      if size == capacity {
        var bigger := new Record[2 * capacity](i reads this, ptr requires ptr.Length == capacity =>
          if 0 <= i < capacity then ptr[i] else Record([], []));
        capacity := 2 * capacity;
        ptr := bigger;
        assert ptr[..size] == old(ptr[..size]);
      }
      var k := CopyString(key);
      var v := CopyString(value);
      ptr[size] := Record(k, v);
      size := size + 1;
      entries := entries + [Entry(key, value)];
      assert ptr[..size] == old(ptr[..size]) + [Record(k, v)];
    }

    /** The value of the first entry with this key. */
    method Search(key: seq<Byte>) returns (found: bool, value: seq<Byte>)
      requires Valid() && NUL !in key
      ensures found <==> exists i :: 0 <= i < |entries| && entries[i].key == key
      ensures found ==> exists i :: 0 <= i < |entries| && entries[i].key == key && entries[i].value == value
                                    && forall h :: 0 <= h < i ==> entries[h].key != key
      ensures value == Lookup(entries, key)
    {
      var i := 0;
      while i < size
        invariant 0 <= i <= size
        invariant forall h :: 0 <= h < i ==> entries[h].key != key
      {
        assert Keeps(ptr[..size][i], entries[i]);
        HeldString(ptr[i].key, entries[i].key);
        HeldString(ptr[i].value, entries[i].value);
        if CStr(ptr[i].key) == key {
          value := CStr(ptr[i].value);
          LookupUnique(entries, i);
          return true, value;
        }
        i := i + 1;
      }
      LookupMissing(entries, key);
      return false, [];
    }
  }

  predicate HasKey(es: seq<Entry>, key: seq<Byte>) {
    exists i :: 0 <= i < |es| && es[i].key == key
  }

  /** Looking up a key: the value of its first entry. */
  function Lookup(es: seq<Entry>, key: seq<Byte>): seq<Byte> {
    if es == [] then []
    else if es[0].key == key then es[0].value
    else Lookup(es[1..], key)
  }

  /** A key that occurs once is found wherever it is. */
  lemma {:induction false} LookupUnique(es: seq<Entry>, i: nat)
    requires i < |es|
    requires forall h :: 0 <= h < i ==> es[h].key != es[i].key
    ensures Lookup(es, es[i].key) == es[i].value
    decreases |es|
  {
    if i > 0 {
      assert es[1..][i - 1] == es[i];
      assert forall h :: 0 <= h < i - 1 ==> es[1..][h] == es[h + 1];
      LookupUnique(es[1..], i - 1);
    }
  }

  lemma {:induction false} LookupMissing(es: seq<Entry>, key: seq<Byte>)
    requires !HasKey(es, key)
    ensures Lookup(es, key) == []
    decreases |es|
  {
    if es != [] {
      assert es[0].key != key;
      assert forall h :: 0 <= h < |es[1..]| ==> es[1..][h] == es[h + 1];
      LookupMissing(es[1..], key);
    }
  }

  // ---------- The all-gather ----------

  function Sum(counts: seq<nat>): nat {
    if counts == [] then 0 else Sum(counts[..|counts| - 1]) + counts[|counts| - 1]
  }

  function Concat<T>(parts: seq<seq<T>>): seq<T> {
    if parts == [] then [] else Concat(parts[..|parts| - 1]) + parts[|parts| - 1]
  }

  lemma SumPrefix(counts: seq<nat>, i: nat)
    requires i < |counts|
    ensures Sum(counts[..i + 1]) == Sum(counts[..i]) + counts[i]
  {
    assert counts[..i + 1][..i] == counts[..i];
  }

  /** The displacements tile the receive buffer: each part starts where the one before ends. */
  predicate Tiles(displs: seq<nat>, counts: seq<nat>) {
    |displs| == |counts| && forall i :: 0 <= i < |counts| ==> displs[i] == Sum(counts[..i])
  }

  /** The bytes that so many entries take. */
  function Scaled(entries: seq<nat>): (bytes: seq<nat>)
    ensures |bytes| == |entries| && forall i :: 0 <= i < |entries| ==> bytes[i] == WIDTH * entries[i]
  {
    seq(|entries|, i requires 0 <= i < |entries| => WIDTH * entries[i])
  }

  lemma {:induction false} SumScaled(entries: seq<nat>)
    ensures Sum(Scaled(entries)) == WIDTH * Sum(entries)
    decreases |entries|
  {
    if entries != [] {
      var n := |entries| - 1;
      SumScaled(entries[..n]);
      assert Scaled(entries)[..n] == Scaled(entries[..n]);
    }
  }

  /** The numbers the barrier computes, or that one of them does not fit an int. */
  datatype Sizes = Overflow | Sizes(total: nat, bytes: seq<nat>, displs: seq<nat>)

  /** The sum of the counts, while it fits. */
  method Total(entries: seq<nat>) returns (fits: bool, total: nat)
    ensures fits <==> Sum(entries) < INT_LIMIT
    ensures fits ==> total == Sum(entries)
  {
    total := 0;
    for i := 0 to |entries|
      invariant total == Sum(entries[..i]) < INT_LIMIT
    {
      SumPrefix(entries, i);
      if total + entries[i] >= INT_LIMIT {
        SumMonotone(entries, i + 1, |entries|);
        assert entries[..|entries|] == entries;
        return false, total;
      }
      total := total + entries[i];
    }
    assert entries[..|entries|] == entries;
    return true, total;
  }

  lemma TilesWithin(displs: seq<nat>, counts: seq<nat>)
    requires Tiles(displs, counts)
    ensures forall i :: 0 <= i < |counts| ==> displs[i] + counts[i] <= Sum(counts)
  {
    forall i | 0 <= i < |counts| ensures displs[i] + counts[i] <= Sum(counts) {
      SumPrefix(counts, i);
      SumMonotone(counts, i + 1, |counts|);
      assert counts[..|counts|] == counts;
    }
  }

  /** What the barrier makes of the number of entries of every rank: the bytes of the receive buffer,
      and where each part of it starts. Every number fits an int exactly when those bytes do. */
  method Displacements(entries: seq<nat>) returns (r: Sizes)
    ensures r.Overflow? <==> WIDTH * Sum(entries) >= INT_LIMIT
    ensures r.Sizes? ==> r.total == Sum(entries) && r.bytes == Scaled(entries) && Tiles(r.displs, r.bytes)
    ensures r.Sizes? ==> forall i :: 0 <= i < |entries| ==> r.displs[i] + r.bytes[i] <= WIDTH * r.total < INT_LIMIT
  {
    var fits, total := Total(entries);
    if !fits || total * STRING_LIMIT * 2 >= INT_LIMIT {
      return Overflow;
    }
    var bytes := Scaled(entries);
    SumScaled(entries);
    var displs := Tile(bytes);
    TilesWithin(displs, bytes);
    return Sizes(total, bytes, displs);
  }

  method Tile(counts: seq<nat>) returns (displs: seq<nat>)
    ensures Tiles(displs, counts)
  {
    displs := [];
    var current := 0;
    for i := 0 to |counts|
      invariant Tiles(displs, counts[..i])
      invariant current == Sum(counts[..i])
    {
      SumPrefix(counts, i);
      assert forall h :: 0 <= h < i ==> counts[..i + 1][..h] == counts[..i][..h];
      assert counts[..i + 1][..i] == counts[..i];
      displs := displs + [current];
      current := current + counts[i];
    }
    assert counts[..|counts|] == counts;
  }

  /** MPI_Allgatherv (section 5.7 of MPI 3.1): rank i's buffer lands at displacement i. */
  predicate Gathered(dst: seq<Byte>, srcs: seq<seq<Byte>>, counts: seq<nat>, displs: seq<nat>) {
    && |srcs| == |counts| == |displs|
    && |dst| == Sum(counts)
    && (forall i :: 0 <= i < |srcs| ==> |srcs[i]| == counts[i])
    && (forall i :: 0 <= i < |srcs| ==>
          displs[i] + counts[i] <= |dst| && dst[displs[i]..displs[i] + counts[i]] == srcs[i])
  }

  /** Each part but the last lies before the place where the last one starts. */
  lemma PartBefore(dst: seq<Byte>, srcs: seq<seq<Byte>>, counts: seq<nat>, displs: seq<nat>, cut: nat, i: nat)
    requires Gathered(dst, srcs, counts, displs) && Tiles(displs, counts) && i + 1 < |srcs|
    requires cut == Sum(counts[..|srcs| - 1]) <= |dst|
    ensures displs[i] + counts[i] <= cut && dst[..cut][displs[i]..displs[i] + counts[i]] == srcs[i]
  {
    SumPrefix(counts, i);
    SumMonotone(counts, i + 1, |srcs| - 1);
    SliceOfFront(dst, cut, displs[i], displs[i] + counts[i]);
  }

  lemma SliceOfFront(dst: seq<Byte>, cut: nat, i: nat, j: nat)
    requires i <= j <= cut <= |dst|
    ensures dst[..cut][i..j] == dst[i..j]
  {}

  lemma TilesPrefix(displs: seq<nat>, counts: seq<nat>, n: nat)
    requires Tiles(displs, counts) && n <= |counts|
    ensures Tiles(displs[..n], counts[..n])
  {
    forall i | 0 <= i < n ensures displs[..n][i] == Sum(counts[..n][..i]) {
      assert counts[..n][..i] == counts[..i];
    }
  }

  lemma GatheredPrefix(dst: seq<Byte>, srcs: seq<seq<Byte>>, counts: seq<nat>, displs: seq<nat>, n: nat, cut: nat)
    requires |srcs| == n + 1 && Gathered(dst, srcs, counts, displs) && Tiles(displs, counts)
    requires cut == Sum(counts[..n])
    ensures cut <= |dst| && Gathered(dst[..cut], srcs[..n], counts[..n], displs[..n])
  {
    forall i | 0 <= i < n
      ensures displs[i] + counts[i] <= cut && dst[..cut][displs[i]..displs[i] + counts[i]] == srcs[i]
    {
      PartBefore(dst, srcs, counts, displs, cut, i);
    }
  }

  lemma LastPart(dst: seq<Byte>, srcs: seq<seq<Byte>>, counts: seq<nat>, displs: seq<nat>, n: nat, cut: nat)
    requires |srcs| == n + 1 && Gathered(dst, srcs, counts, displs) && Tiles(displs, counts)
    requires cut == Sum(counts[..n]) <= |dst|
    ensures dst == dst[..cut] + srcs[n]
  {
    assert displs[n] == cut && cut + counts[n] == |dst|;
    assert dst[cut..] == srcs[n];
  }

  /** With tiling displacements the gathered buffer is the rank-ordered concatenation. */
  lemma {:induction false} GatheredIsConcat(dst: seq<Byte>, srcs: seq<seq<Byte>>, counts: seq<nat>, displs: seq<nat>)
    requires Gathered(dst, srcs, counts, displs) && Tiles(displs, counts)
    ensures dst == Concat(srcs)
    decreases |srcs|
  {
    if srcs != [] {
      var n := |srcs| - 1;
      var cut := Sum(counts[..n]);
      GatheredPrefix(dst, srcs, counts, displs, n, cut);
      TilesPrefix(displs, counts, n);
      GatheredIsConcat(dst[..cut], srcs[..n], counts[..n], displs[..n]);
      LastPart(dst, srcs, counts, displs, n, cut);
    }
  }

  lemma {:induction false} SumMonotone(counts: seq<nat>, i: nat, j: nat)
    requires i <= j <= |counts|
    ensures Sum(counts[..i]) <= Sum(counts[..j])
    decreases j - i
  {
    if i < j {
      SumPrefix(counts, i);
      SumMonotone(counts, i + 1, j);
    }
  }

  // ---------- Packing records into the send buffer, and back ----------

  predicate Packed(buf: seq<Byte>, es: seq<Entry>) {
    && |buf| == WIDTH * |es|
    && forall i :: 0 <= i < |es| ==>
         && Holds(buf[WIDTH * i..WIDTH * i + STRING_LIMIT], es[i].key)
         && Holds(buf[WIDTH * i + STRING_LIMIT..WIDTH * (i + 1)], es[i].value)
  }

  lemma PackedAppend(a: seq<Byte>, es: seq<Entry>, b: seq<Byte>, fs: seq<Entry>)
    requires Packed(a, es) && Packed(b, fs)
    ensures Packed(a + b, es + fs)
  {
    var buf := a + b;
    forall i | 0 <= i < |es + fs|
      ensures Holds(buf[WIDTH * i..WIDTH * i + STRING_LIMIT], (es + fs)[i].key)
      ensures Holds(buf[WIDTH * i + STRING_LIMIT..WIDTH * (i + 1)], (es + fs)[i].value)
    {
      if i < |es| {
        assert buf[WIDTH * i..WIDTH * i + STRING_LIMIT] == a[WIDTH * i..WIDTH * i + STRING_LIMIT];
        assert buf[WIDTH * i + STRING_LIMIT..WIDTH * (i + 1)] == a[WIDTH * i + STRING_LIMIT..WIDTH * (i + 1)];
      } else {
        var j := i - |es|;
        assert buf[WIDTH * i..WIDTH * i + STRING_LIMIT] == b[WIDTH * j..WIDTH * j + STRING_LIMIT];
        assert buf[WIDTH * i + STRING_LIMIT..WIDTH * (i + 1)] == b[WIDTH * j + STRING_LIMIT..WIDTH * (j + 1)];
      }
    }
  }

  lemma {:induction false} PackedConcat(bufs: seq<seq<Byte>>, parts: seq<seq<Entry>>)
    requires |bufs| == |parts| && forall i :: 0 <= i < |bufs| ==> Packed(bufs[i], parts[i])
    ensures Packed(Concat(bufs), Concat(parts))
    decreases |bufs|
  {
    if bufs != [] {
      var n := |bufs| - 1;
      PackedConcat(bufs[..n], parts[..n]);
      PackedAppend(Concat(bufs[..n]), Concat(parts[..n]), bufs[n], parts[n]);
    }
  }

  /** Assembles the send buffer from the local archive. */
  method Pack(l: Archive) returns (src: seq<Byte>)
    requires l.Valid()
    ensures Packed(src, l.entries) && |src| == 512 * |l.entries|
    ensures forall i :: 0 <= i < |l.entries| ==>
              && CStr(src[512 * i..512 * i + 256]) == l.entries[i].key
              && CStr(src[512 * i + 256..512 * (i + 1)]) == l.entries[i].value
  {
    src := [];
    for i := 0 to l.size
      invariant Packed(src, l.entries[..i])
    {
      assert Keeps(l.ptr[..l.size][i], l.entries[i]);
      var rec := l.ptr[i].key + l.ptr[i].value;
      assert rec[..STRING_LIMIT] == l.ptr[i].key && rec[STRING_LIMIT..WIDTH] == l.ptr[i].value;
      assert Packed(rec, [l.entries[i]]);
      PackedAppend(src, l.entries[..i], rec, [l.entries[i]]);
      assert l.entries[..i + 1] == l.entries[..i] + [l.entries[i]];
      src := src + rec;
    }
    assert l.entries[..l.size] == l.entries;
    forall i | 0 <= i < |l.entries|
      ensures CStr(src[512 * i..512 * i + 256]) == l.entries[i].key
      ensures CStr(src[512 * i + 256..512 * (i + 1)]) == l.entries[i].value
    {
      HeldString(src[WIDTH * i..WIDTH * i + STRING_LIMIT], l.entries[i].key);
      HeldString(src[WIDTH * i + STRING_LIMIT..WIDTH * (i + 1)], l.entries[i].value);
    }
  }

  /** One gathered record, put back into the global archive. */
  method UnpackOne(g: Archive, dst: seq<Byte>, i: nat, ghost es: seq<Entry>)
    requires g.Valid() && Packed(dst, es) && i < |es|
    modifies g, g.ptr
    ensures g.Valid() && (g.ptr == old(g.ptr) || fresh(g.ptr))
    ensures g.entries == old(g.entries) + [es[i]]
  {
    var k := dst[WIDTH * i..WIDTH * i + STRING_LIMIT];
    var v := dst[WIDTH * i + STRING_LIMIT..WIDTH * (i + 1)];
    HeldString(k, es[i].key);
    HeldString(v, es[i].value);
    g.Push(CStr(k), CStr(v));
  }

  /** Puts the gathered records back into the global archive, one after the other. */
  method Unpack(g: Archive, dst: seq<Byte>, ghost es: seq<Entry>)
    requires g.Valid() && Packed(dst, es)
    modifies g, g.ptr
    ensures g.Valid() && (g.ptr == old(g.ptr) || fresh(g.ptr))
    ensures g.entries == old(g.entries) + es
  {
    var i := 0;
    while WIDTH * i < |dst|
      invariant 0 <= i <= |es|
      invariant g.Valid() && (g.ptr == old(g.ptr) || fresh(g.ptr))
      invariant g.entries == old(g.entries) + es[..i]
    {
      UnpackOne(g, dst, i, es);
      assert es[..i + 1] == es[..i] + [es[i]];
      i := i + 1;
    }
    assert es[..|es|] == es;
  }

  /** The receiving half of lcm_pm_barrier on one rank, given what the collective delivered: the
      global archive grows by every rank's publications, in rank order; the local one empties. */
  method FinishBarrier(l: Archive, g: Archive, dst: seq<Byte>, ghost srcs: seq<seq<Byte>>,
                       counts: seq<nat>, displs: seq<nat>, ghost locals: seq<seq<Entry>>)
    requires l != g && l.ptr != g.ptr && l.Valid() && g.Valid()
    requires |srcs| == |locals| && forall i :: 0 <= i < |srcs| ==> Packed(srcs[i], locals[i])
    requires Tiles(displs, counts) && Gathered(dst, srcs, counts, displs)
    modifies l, g, g.ptr
    ensures l.Valid() && g.Valid()
    ensures l.entries == []
    ensures g.entries == old(g.entries) + Concat(locals)
  {
    GatheredIsConcat(dst, srcs, counts, displs);
    PackedConcat(srcs, locals);
    Unpack(g, dst, Concat(locals));
    l.Clear();
  }
}
