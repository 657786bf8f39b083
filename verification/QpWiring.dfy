/** How the ranks find each other's queue pairs: each publishes one name a peer, and connects its
    i-th queue pair to whatever rank i published for it. */
module QpWiring {
  import opened Bytes
  import opened KeyValueStore

  /** "ibvBench_" */
  const PREFIX: seq<Byte> := [105, 98, 118, 66, 101, 110, 99, 104, 95]

  function Key(rank: nat, peer: nat): seq<Byte> {
    PREFIX + Digits(10, rank) + [UNDERSCORE] + Digits(10, peer)
  }

  lemma AfterPrefix(rank: nat, peer: nat)
    ensures |Key(rank, peer)| >= |PREFIX|
    ensures Key(rank, peer)[|PREFIX|..] == Digits(10, rank) + ([UNDERSCORE] + Digits(10, peer))
  {}

  lemma KeyIsInjective(a: nat, b: nat, c: nat, d: nat)
    requires Key(a, b) == Key(c, d)
    ensures a == c && b == d
  {
    AfterPrefix(a, b);
    AfterPrefix(c, d);
    var s, t := [UNDERSCORE] + Digits(10, b), [UNDERSCORE] + Digits(10, d);
    ScanOfDigits(10, a, s);
    ScanOfDigits(10, c, t);
    assert s == (Digits(10, a) + s)[|Digits(10, a)|..] == t;
    assert s[1..] == Digits(10, b) && t[1..] == Digits(10, d);
    ValueOfDigits(10, b);
    ValueOfDigits(10, d);
  }

  /** "ibvBench_3_12" */
  lemma KeyInBytes()
    ensures Key(3, 12) == [105, 98, 118, 66, 101, 110, 99, 104, 95, 51, 95, 49, 50]
  {
    OneMoreDigit(10, 1, 2);
  }

  // ---------- The published name: address, rkey, queue pair number and LID in hexadecimal ----------

  datatype Endpoint = Endpoint(addr: nat, rkey: nat, qpn: nat, lid: nat)

  predicate ValidEndpoint(e: Endpoint) {
    e.addr < 0x1_0000_0000_0000_0000 && e.rkey < 0x1_0000_0000 && e.qpn < 0x1_0000_0000 && e.lid < 0x1_0000
  }

  function Name(e: Endpoint): seq<Byte> {
    Digits(16, e.addr)
    + ([COLON] + (Digits(16, e.rkey) + ([COLON] + (Digits(16, e.qpn) + ([COLON] + Digits(16, e.lid))))))
  }

  /** One hexadecimal field, and the text after it. */
  function Field(s: seq<Byte>): (nat, seq<Byte>) { (Scan(16, s), s[DigitRun(16, s)..]) }

  function SkipColon(s: seq<Byte>): seq<Byte> { if |s| > 0 && s[0] == COLON then s[1..] else s }

  /** sscanf with "%lx:%x:%x:%hx". */
  function Parse(s: seq<Byte>): Endpoint {
    var (addr, s1) := Field(s);
    var (rkey, s2) := Field(SkipColon(s1));
    var (qpn, s3) := Field(SkipColon(s2));
    var (lid, s4) := Field(SkipColon(s3));
    Endpoint(addr, rkey, qpn, lid)
  }

  lemma FieldOf(n: nat, rest: seq<Byte>)
    requires rest == [] || !IsDigit(16, rest[0])
    ensures Field(Digits(16, n) + rest) == (n, rest)
  {
    ScanOfDigits(16, n, rest);
    assert (Digits(16, n) + rest)[|Digits(16, n)|..] == rest;
  }

  lemma NameRoundTrips(e: Endpoint)
    ensures Parse(Name(e)) == e
  {
    var d := Digits(16, e.lid);
    var c := Digits(16, e.qpn) + ([COLON] + d);
    var b := Digits(16, e.rkey) + ([COLON] + c);
    FieldOf(e.addr, [COLON] + b);
    FieldOf(e.rkey, [COLON] + c);
    FieldOf(e.qpn, [COLON] + d);
    FieldOf(e.lid, []);
    assert d + [] == d;
    assert SkipColon([COLON] + b) == b && SkipColon([COLON] + c) == c && SkipColon([COLON] + d) == d;
  }

  /** "10:ab:2c:5" */
  lemma NameInBytes()
    ensures Name(Endpoint(0x10, 0xab, 0x2c, 5)) == [49, 48, 58, 97, 98, 58, 50, 99, 58, 53]
  {
    OneMoreDigit(16, 1, 0);
    OneMoreDigit(16, 10, 11);
    OneMoreDigit(16, 2, 12);
  }

  lemma NameFits(e: Endpoint)
    requires ValidEndpoint(e)
    ensures Fits(Name(e))
  {
    assert Pow(16, 16) == 0x1_0000_0000_0000_0000 && Pow(16, 8) == 0x1_0000_0000 && Pow(16, 4) == 0x1_0000;
    DigitCount(16, e.addr, 16);
    DigitCount(16, e.rkey, 8);
    DigitCount(16, e.qpn, 8);
    DigitCount(16, e.lid, 4);
  }

  lemma KeyFits(rank: nat, peer: nat)
    requires rank < 0x8000_0000 && peer < 0x8000_0000
    ensures Fits(Key(rank, peer))
  {
    assert Pow(10, 10) == 10_000_000_000;
    DigitCount(10, rank, 10);
    DigitCount(10, peer, 10);
  }

  // ---------- Everything the ranks publish ----------

  /** n ranks, each with n queue pairs. */
  datatype World = World(n: nat, addr: seq<nat>, rkey: seq<nat>, lid: seq<nat>, qpn: seq<seq<nat>>)

  predicate ValidWorld(w: World) {
    && w.n < 0x8000_0000
    && |w.addr| == |w.rkey| == |w.lid| == |w.qpn| == w.n
    && (forall r :: 0 <= r < w.n ==> |w.qpn[r]| == w.n)
    && (forall r, i :: 0 <= r < w.n && 0 <= i < w.n ==> ValidEndpoint(At(w, r, i)))
  }

  /** Rank r's queue pair i. */
  function At(w: World, r: nat, i: nat): Endpoint
    requires r < |w.addr| && r < |w.rkey| && r < |w.lid| && r < |w.qpn| && i < |w.qpn[r]|
  {
    Endpoint(w.addr[r], w.rkey[r], w.qpn[r][i], w.lid[r])
  }

  /** What rank r publishes, for its first m queue pairs. */
  function Published(w: World, r: nat, m: nat): (es: seq<Entry>)
    requires ValidWorld(w) && r < w.n && m <= w.n
    ensures |es| == m
    ensures forall i :: 0 <= i < m ==> es[i] == Entry(Key(r, i), Name(At(w, r, i)))
  {
    seq(m, i requires 0 <= i < m => Entry(Key(r, i), Name(At(w, r, i))))
  }

  function AllPublished(w: World, m: nat): (parts: seq<seq<Entry>>)
    requires ValidWorld(w) && m <= w.n
    ensures |parts| == m
    ensures forall r :: 0 <= r < m ==> parts[r] == Published(w, r, w.n)
  {
    seq(m, r requires 0 <= r < m => Published(w, r, w.n))
  }

  /** What it publishes for queue pair i is, when it is read, the address, key and LID of its own, and
      the number of that queue pair. */
  lemma PublishedReads(w: World, r: nat, m: nat, i: nat)
    requires ValidWorld(w) && r < w.n && i < m <= w.n
    ensures var entry := Published(w, r, m)[i];
            && entry.key == Key(r, i)
            && Parse(entry.value) == Endpoint(w.addr[r], w.rkey[r], w.qpn[r][i], w.lid[r])
  {
    NameRoundTrips(At(w, r, i));
  }

  lemma {:induction false} LookupAppend(a: seq<Entry>, b: seq<Entry>, key: seq<Byte>)
    ensures HasKey(a, key) ==> Lookup(a + b, key) == Lookup(a, key)
    ensures !HasKey(a, key) ==> Lookup(a + b, key) == Lookup(b, key)
    decreases |a|
  {
    if a == [] {
      assert a + b == b;
    } else if a[0].key != key {
      assert (a + b)[1..] == a[1..] + b;
      LookupAppend(a[1..], b, key);
      assert HasKey(a, key) ==> HasKey(a[1..], key) by {
        if HasKey(a, key) {
          var i :| 0 <= i < |a| && a[i].key == key;
          assert a[1..][i - 1] == a[i];
        }
      }
      if HasKey(a[1..], key) {
        var i :| 0 <= i < |a[1..]| && a[1..][i].key == key;
        assert a[i + 1].key == key;
      }
    }
  }

  lemma HasKeyAppend(a: seq<Entry>, b: seq<Entry>, key: seq<Byte>)
    ensures HasKey(a + b, key) <==> HasKey(a, key) || HasKey(b, key)
  {
    if HasKey(a, key) {
      var i :| 0 <= i < |a| && a[i].key == key;
      assert (a + b)[i].key == key;
    }
    if HasKey(b, key) {
      var i :| 0 <= i < |b| && b[i].key == key;
      assert (a + b)[|a| + i].key == key;
    }
    if HasKey(a + b, key) {
      var i :| 0 <= i < |a + b| && (a + b)[i].key == key;
      if i < |a| {
        assert a[i].key == key;
      } else {
        assert b[i - |a|].key == key;
      }
    }
  }

  lemma PublishedLookup(w: World, r: nat, i: nat, peer: nat)
    requires ValidWorld(w) && r < w.n && peer < w.n
    ensures HasKey(Published(w, r, w.n), Key(i, peer)) <==> r == i
    ensures r == i ==> Lookup(Published(w, r, w.n), Key(i, peer)) == Name(At(w, i, peer))
  {
    var es := Published(w, r, w.n);
    if r == i {
      assert es[peer].key == Key(i, peer);
      forall h | 0 <= h < peer ensures es[h].key != es[peer].key {
        if es[h].key == es[peer].key {
          KeyIsInjective(r, h, i, peer);
        }
      }
      LookupUnique(es, peer);
    } else if HasKey(es, Key(i, peer)) {
      var h :| 0 <= h < |es| && es[h].key == Key(i, peer);
      KeyIsInjective(r, h, i, peer);
    }
  }

  /** Wherever it lies in the global archive, the name rank i published for `peer` is found. */
  lemma {:induction false} GlobalLookup(w: World, m: nat, i: nat, peer: nat)
    requires ValidWorld(w) && m <= w.n && peer < w.n
    ensures HasKey(Concat(AllPublished(w, m)), Key(i, peer)) <==> i < m
    ensures i < m ==> Lookup(Concat(AllPublished(w, m)), Key(i, peer)) == Name(At(w, i, peer))
    decreases m
  {
    if m > 0 {
      var parts := AllPublished(w, m);
      assert parts[..m - 1] == AllPublished(w, m - 1);
      GlobalLookup(w, m - 1, i, peer);
      PublishedLookup(w, m - 1, i, peer);
      HasKeyAppend(Concat(parts[..m - 1]), parts[m - 1], Key(i, peer));
      LookupAppend(Concat(parts[..m - 1]), parts[m - 1], Key(i, peer));
    }
  }

  // ---------- What init() does ----------

  method Publish(w: World, rank: nat, l: Archive)
    requires ValidWorld(w) && rank < w.n && l.Valid()
    modifies l, l.ptr
    ensures l.Valid() && (l.ptr == old(l.ptr) || fresh(l.ptr))
    ensures |l.entries| == |old(l.entries)| + w.n && old(l.entries) <= l.entries
    ensures forall i :: 0 <= i < w.n ==>
              && l.entries[|old(l.entries)| + i].key == Key(rank, i)
              && Parse(l.entries[|old(l.entries)| + i].value)
                 == Endpoint(w.addr[rank], w.rkey[rank], w.qpn[rank][i], w.lid[rank])
    ensures l.entries == old(l.entries) + Published(w, rank, w.n)
  {
    var i := 0;
    while i < w.n
      invariant 0 <= i <= w.n
      invariant l.Valid() && (l.ptr == old(l.ptr) || fresh(l.ptr))
      invariant l.entries == old(l.entries) + Published(w, rank, i)
    {
      KeyFits(rank, i);
      NameFits(At(w, rank, i));
      l.Push(Key(rank, i), Name(At(w, rank, i)));
      assert Published(w, rank, i + 1) == Published(w, rank, i) + [Entry(Key(rank, i), Name(At(w, rank, i)))];
      i := i + 1;
    }
    forall k | 0 <= k < w.n
      ensures l.entries[|old(l.entries)| + k].key == Key(rank, k)
      ensures Parse(l.entries[|old(l.entries)| + k].value)
              == Endpoint(w.addr[rank], w.rkey[rank], w.qpn[rank][k], w.lid[rank])
    {
      assert l.entries[|old(l.entries)| + k] == Published(w, rank, w.n)[k];
      PublishedReads(w, rank, w.n, k);
    }
  }

  /** How many entries each rank has: one for every rank. */
  function EntryCounts(n: nat): (counts: seq<nat>)
    ensures |counts| == n && forall r :: 0 <= r < n ==> counts[r] == n
  {
    seq(n, _ => n)
  }

  lemma {:induction false} SumOfSame(counts: seq<nat>, m: nat)
    requires forall r :: 0 <= r < |counts| ==> counts[r] == m
    ensures Sum(counts) == |counts| * m
    decreases |counts|
  {
    if counts != [] {
      var k := |counts| - 1;
      SumOfSame(counts[..k], m);
      assert (k + 1) * m == k * m + m;
    }
  }

  lemma SquareGrows(n: nat, m: nat)
    requires n <= m
    ensures n * n <= m * m
  {
    assert n * n <= n * m;
    assert n * m <= m * m;
  }

  /** The sizes the barrier computes fit an int exactly for up to 2047 ranks. */
  lemma SizesFitExactly(n: nat)
    ensures WIDTH * Sum(EntryCounts(n)) == WIDTH * (n * n)
    ensures WIDTH * (n * n) < INT_LIMIT <==> n <= 2047
  {
    SumOfSame(EntryCounts(n), n);
    if n <= 2047 {
      SquareGrows(n, 2047);
    } else {
      SquareGrows(2048, n);
    }
  }

  /** What comes of connecting a queue pair: the endpoint it is connected to, or nothing, because a
      size the barrier computed before was out of range. */
  datatype Destination = Connected(peer: Endpoint) | SizeOverflow

  /** The destination init() gives to rank r's queue pair i: looked up, then parsed. */
  function DestinationOf(w: World, r: nat, i: nat): Destination
    requires ValidWorld(w) && r < w.n && i < w.n
  {
    if WIDTH * Sum(EntryCounts(w.n)) >= INT_LIMIT then SizeOverflow
    else Connected(Parse(Lookup(Concat(AllPublished(w, w.n)), Key(i, r))))
  }

  lemma LookedUp(w: World, r: nat, i: nat)
    requires ValidWorld(w) && r < w.n && i < w.n
    ensures Parse(Lookup(Concat(AllPublished(w, w.n)), Key(i, r))) == At(w, i, r)
  {
    GlobalLookup(w, w.n, i, r);
    NameRoundTrips(At(w, i, r));
  }

  /** With up to 2047 ranks, and with no more, rank r's queue pair i is connected to rank i's queue pair
      r, at rank i's LID and with its address and key, and the other way round. */
  lemma WiringIsSymmetric(w: World, r: nat, i: nat)
    requires ValidWorld(w) && r < w.n && i < w.n
    ensures DestinationOf(w, r, i) == Connected(Endpoint(w.addr[i], w.rkey[i], w.qpn[i][r], w.lid[i])) <==> w.n <= 2047
    ensures DestinationOf(w, i, r) == Connected(Endpoint(w.addr[r], w.rkey[r], w.qpn[r][i], w.lid[r])) <==> w.n <= 2047
  {
    SizesFitExactly(w.n);
    LookedUp(w, r, i);
    LookedUp(w, i, r);
  }

  /** n ranks that all look alike. */
  function Uniform(n: nat): World {
    World(n, seq(n, _ => 4096), seq(n, _ => 7), seq(n, _ => 1), seq(n, _ => seq(n, q => q)))
  }

  /** A world of 2048 ranks, whose receive buffers of 2048 * 2048 * 512 bytes an int does not count. */
  lemma TooManyRanks(r: nat, i: nat)
    requires r < 2048 && i < 2048
    ensures ValidWorld(Uniform(2048)) && DestinationOf(Uniform(2048), r, i) == SizeOverflow
  {
    SizesFitExactly(2048);
  }

  /** One lookup: lcm_pm_getname, then the parse. */
  method GetName(w: World, rank: nat, i: nat, g: Archive) returns (e: Endpoint)
    requires ValidWorld(w) && rank < w.n && i < w.n && g.Valid()
    requires g.entries == Concat(AllPublished(w, w.n))
    ensures e.addr == w.addr[i] && e.rkey == w.rkey[i] && e.qpn == w.qpn[i][rank] && e.lid == w.lid[i]
  {
    LookedUp(w, rank, i);
    KeyFits(i, rank);
    var found, name := g.Search(Key(i, rank));
    e := Parse(name);
  }

  /** The first queue pairs of a rank are connected where they should be. */
  predicate Wired(w: World, rank: nat, dest: seq<Endpoint>)
    requires ValidWorld(w) && rank < w.n
  {
    && |dest| <= w.n
    && forall i :: 0 <= i < |dest| ==>
         && dest[i].addr == w.addr[i] && dest[i].rkey == w.rkey[i]
         && dest[i].qpn == w.qpn[i][rank] && dest[i].lid == w.lid[i]
  }

  /** After the barrier: each of this rank's queue pairs is connected to its counterpart. */
  method Connect(w: World, rank: nat, g: Archive) returns (dest: seq<Endpoint>)
    requires ValidWorld(w) && rank < w.n && g.Valid()
    requires g.entries == Concat(AllPublished(w, w.n))
    ensures |dest| == w.n && Wired(w, rank, dest)
  {
    dest := [];
    while |dest| < w.n
      invariant Wired(w, rank, dest)
    {
      var e := GetName(w, rank, |dest|, g);
      dest := dest + [e];
    }
  }

  /** The bootstrap from the barrier on: the sizes are computed; every rank packed what it published and
      the all-gather delivered it; this rank files it and connects all its queue pairs. It goes as far
      as the first size that does not fit an int, which is exactly with 2048 ranks and more. */
  method FileAndConnect(w: World, rank: nat, l: Archive, g: Archive, dst: seq<Byte>,
                        ghost srcs: seq<seq<Byte>>, counts: seq<nat>) returns (fits: bool, dest: seq<Endpoint>)
    requires ValidWorld(w) && rank < w.n
    requires l != g && l.ptr != g.ptr && l.Valid() && g.Valid() && g.entries == []
    requires |srcs| == w.n && forall r :: 0 <= r < w.n ==> Packed(srcs[r], Published(w, r, w.n))
    requires counts == EntryCounts(w.n)
    requires w.n <= 2047 ==>
               forall displs | Tiles(displs, Scaled(counts)) :: Gathered(dst, srcs, Scaled(counts), displs)
    modifies l, g, g.ptr
    ensures fits <==> w.n <= 2047
    ensures fits ==> g.Valid() && g.entries == Concat(AllPublished(w, w.n))
    ensures fits ==> |dest| == w.n
    ensures fits ==> forall i :: 0 <= i < w.n ==> dest[i] == Endpoint(w.addr[i], w.rkey[i], w.qpn[i][rank], w.lid[i])
  {
    SizesFitExactly(w.n);
    var sizes := Displacements(counts);
    if sizes.Overflow? {
      return false, [];
    }
    FinishBarrier(l, g, dst, srcs, sizes.bytes, sizes.displs, AllPublished(w, w.n));
    assert [] + Concat(AllPublished(w, w.n)) == Concat(AllPublished(w, w.n));
    dest := Connect(w, rank, g);
    fits := true;
  }
}
