/** The schedule every benchmark runs, and the buffer helpers. */
module BenchCommon {
  import opened Bytes
  import opened Verbs
  import Rendezvous

  const LARGE := 8192
  const TOTAL := 4000
  const SKIP := 1000
  const TOTAL_LARGE := 1000
  const SKIP_LARGE := 100

  /** One call of the benchmark body: the message size and the iteration number. */
  datatype Call = Call(size: nat, iter: nat)

  /** The calls made for iteration numbers from i up to n. */
  function Loop(size: nat, i: nat, n: nat): (calls: seq<Call>)
    ensures |calls| == if i < n then n - i else 0
    ensures forall k :: 0 <= k < |calls| ==> calls[k] == Call(size, i + k)
    decreases n - i
  {
    if i >= n then [] else [Call(size, i)] + Loop(size, i + 1, n)
  }

  function SkipOf(size: nat): nat { if size >= LARGE then SKIP_LARGE else SKIP }
  function TotalOf(size: nat): nat { if size >= LARGE then TOTAL_LARGE else TOTAL }

  /** The calls made for one size: a warm-up, then the measured iterations; fewer when large. */
  function Block(size: nat): seq<Call> {
    Loop(size, 0, SkipOf(size)) + Loop(size, 0, TotalOf(size))
  }

  /** The sizes: lo, 2 lo, 4 lo, ... up to hi. */
  function Sizes(lo: nat, hi: nat): seq<nat>
    requires lo > 0
    decreases hi - lo
  {
    if lo > hi then [] else [lo] + Sizes(2 * lo, hi)
  }

  function Blocks(sizes: seq<nat>): seq<Call> {
    if sizes == [] then [] else Block(sizes[0]) + Blocks(sizes[1..])
  }

  function Schedule(lo: nat, hi: nat): seq<Call>
    requires lo > 0
  {
    Blocks(Sizes(lo, hi))
  }

  function Pow2(k: nat): nat { if k == 0 then 1 else 2 * Pow2(k - 1) }

  /** The k-th size is lo * 2^k, and the sizes stop at the last one within the range. */
  lemma {:induction false} SizesDouble(lo: nat, hi: nat, k: nat)
    requires lo > 0 && k < |Sizes(lo, hi)|
    ensures Sizes(lo, hi)[k] == lo * Pow2(k) && lo <= Sizes(lo, hi)[k] <= hi
    ensures k == |Sizes(lo, hi)| - 1 ==> 2 * Sizes(lo, hi)[k] > hi
    decreases hi - lo
  {
    if k > 0 {
      SizesDouble(2 * lo, hi, k - 1);
      assert Sizes(lo, hi)[k] == Sizes(2 * lo, hi)[k - 1];
      assert 2 * lo * Pow2(k - 1) == lo * Pow2(k);
    }
  }

  /** There is a k-th size exactly while doubling k times stays within the range. */
  lemma {:induction false} SizesExactly(lo: nat, hi: nat, k: nat)
    requires lo > 0
    ensures k < |Sizes(lo, hi)| <==> lo * Pow2(k) <= hi
    decreases if hi >= lo then hi - lo + 1 else 0, k
  {
    if lo > hi {
      PowPositive(k);
      assert lo * Pow2(k) >= lo;
    } else if k > 0 {
      SizesExactly(2 * lo, hi, k - 1);
      assert 2 * lo * Pow2(k - 1) == lo * Pow2(k);
    }
  }

  lemma {:induction false} PowPositive(k: nat)
    ensures Pow2(k) >= 1
  {
    if k > 0 { PowPositive(k - 1); }
  }

  /** The calls for one size, one by one: iterations 0 to 999 to warm up, then 0 to 3999; from 8192 on
      0 to 99, then 0 to 999. */
  lemma CallOfSize(size: nat, k: nat)
    ensures |Block(size)| == if size >= 8192 then 100 + 1000 else 1000 + 4000
    ensures k < |Block(size)| ==>
              var warmUp := if size >= 8192 then 100 else 1000;
              Block(size)[k] == Call(size, if k < warmUp then k else k - warmUp)
  {}

  lemma BlockSizes(size: nat, i: nat)
    requires i < |Block(size)|
    ensures Block(size)[i].size == size
  {}

  lemma {:induction false} BlocksWithin(sizes: seq<nat>, hi: nat, i: nat)
    requires forall k :: 0 <= k < |sizes| ==> sizes[k] <= hi
    requires i < |Blocks(sizes)|
    ensures Blocks(sizes)[i].size <= hi
    decreases |sizes|
  {
    if i < |Block(sizes[0])| {
      BlockSizes(sizes[0], i);
    } else {
      BlocksWithin(sizes[1..], hi, i - |Block(sizes[0])|);
    }
  }

  lemma {:induction false} BlocksConcat(a: seq<nat>, b: seq<nat>)
    ensures Blocks(a + b) == Blocks(a) + Blocks(b)
    decreases |a|
  {
    if a == [] {
      assert a + b == b;
    } else {
      assert (a + b)[1..] == a[1..] + b;
      BlocksConcat(a[1..], b);
      Regroup(Block(a[0]), Blocks(a[1..]), Blocks(b));
    }
  }

  lemma BlocksAppend(sizes: seq<nat>, size: nat)
    ensures Blocks(sizes + [size]) == Blocks(sizes) + Block(size)
  {
    BlocksConcat(sizes, [size]);
    assert Blocks([size]) == Block(size) + [];
  }

  /** The k-th call for the j-th size comes behind all calls for the sizes before. */
  lemma CallInOrder(sizes: seq<nat>, j: nat, k: nat)
    requires j < |sizes| && k < |Block(sizes[j])|
    ensures |Blocks(sizes[..j])| + k < |Blocks(sizes)|
    ensures Blocks(sizes)[|Blocks(sizes[..j])| + k] == Block(sizes[j])[k]
  {
    SplitAt(sizes, j);
    BlocksAround(sizes[..j], sizes[j], sizes[j + 1..]);
    InTheMiddle(Blocks(sizes[..j]), Block(sizes[j]), Blocks(sizes[j + 1..]), k);
  }

  lemma SplitAt(sizes: seq<nat>, j: nat)
    requires j < |sizes|
    ensures (sizes[..j] + [sizes[j]]) + sizes[j + 1..] == sizes
  {}

  lemma BlocksAround(before: seq<nat>, size: nat, after: seq<nat>)
    ensures Blocks((before + [size]) + after) == (Blocks(before) + Block(size)) + Blocks(after)
  {
    BlocksConcat(before + [size], after);
    BlocksAppend(before, size);
  }

  lemma InTheMiddle(a: seq<Call>, b: seq<Call>, c: seq<Call>, k: nat)
    requires k < |b|
    ensures ((a + b) + c)[|a| + k] == b[k]
  {}

  /** The number of calls made for the sizes below LARGE, and at or above it. */
  lemma {:induction false} CallCount(sizes: seq<nat>, small: nat)
    requires small <= |sizes|
    requires forall k :: 0 <= k < |sizes| ==> (sizes[k] < LARGE <==> k < small)
    ensures |Blocks(sizes)| == small * (SKIP + TOTAL) + (|sizes| - small) * (SKIP_LARGE + TOTAL_LARGE)
    decreases |sizes|
  {
    if sizes != [] {
      CallCount(sizes[1..], if small > 0 then small - 1 else 0);
    }
  }

  method RunLoop(made: seq<Call>, size: nat, n: nat) returns (calls: seq<Call>)
    ensures calls == made + Loop(size, 0, n)
  {
    calls := made;
    var i := 0;
    while i < n
      invariant 0 <= i <= n
      invariant made + Loop(size, 0, n) == calls + Loop(size, i, n)
    {
      calls := calls + [Call(size, i)];
      i := i + 1;
    }
  }

  method RunSize(made: seq<Call>, size: nat, skip: nat, loop: nat) returns (calls: seq<Call>)
    requires skip == SkipOf(size) && loop == TotalOf(size)
    ensures calls == made + Block(size)
  {
    calls := RunLoop(made, size, skip);
    calls := RunLoop(calls, size, loop);
    Regroup(made, Loop(size, 0, skip), Loop(size, 0, loop));
  }

  lemma Regroup(a: seq<Call>, b: seq<Call>, c: seq<Call>)
    ensures (a + b) + c == a + (b + c)
  {}

  lemma SizesStep(done: seq<nat>, size: nat, hi: nat)
    requires 0 < size <= hi
    ensures done + Sizes(size, hi) == (done + [size]) + Sizes(2 * size, hi)
  {}

  /** RUN_VARY_MSG with the default iteration range: the loop counts are switched once, when the
      size first reaches LARGE, and never back. Sizes are below 2^31, so doubling cannot wrap. */
  method RunVaryMsg(lo: nat, hi: nat) returns (calls: seq<Call>)
    requires 0 < lo && hi < 0x8000_0000
    ensures calls == Schedule(lo, hi)
  {
    calls := [];
    var loop, skip := TOTAL, SKIP;
    var msgSize := lo;
    ghost var done: seq<nat> := [];
    while msgSize <= hi
      invariant lo <= msgSize
      invariant Sizes(lo, hi) == done + Sizes(msgSize, hi)
      invariant calls == Blocks(done)
      invariant (loop == TOTAL && skip == SKIP) || (loop == TOTAL_LARGE && skip == SKIP_LARGE && msgSize >= LARGE)
      decreases hi - msgSize
    {
      if msgSize >= LARGE {
        loop := TOTAL_LARGE;
        skip := SKIP_LARGE;
      }
      calls := RunSize(calls, msgSize, skip, loop);
      BlocksAppend(done, msgSize);
      SizesStep(done, msgSize, hi);
      done := done + [msgSize];
      msgSize := (msgSize * 2) % 0x1_0000_0000_0000_0000;
    }
    assert done == Sizes(lo, hi);
  }

  method WriteBuffer(buffer: array<Byte>, len: nat, input: Byte)
    requires len <= buffer.Length
    modifies buffer
    ensures forall k :: 0 <= k < len ==> buffer[k] == input
    ensures buffer[len..] == old(buffer[len..])
  {
    for i := 0 to len
      invariant forall k :: 0 <= k < i ==> buffer[k] == input
      invariant buffer[len..] == old(buffer[len..])
    {
      buffer[i] := input;
    }
  }

  /** True exactly when the benchmark would not abort. */
  method CheckBuffer(buffer: array<Byte>, len: nat, wanted: Byte) returns (passed: bool)
    requires len <= buffer.Length
    ensures passed <==> forall k :: 0 <= k < len ==> buffer[k] == wanted
  {
    for i := 0 to len
      invariant forall k :: 0 <= k < i ==> buffer[k] == wanted
    {
      if buffer[i] != wanted {
        return false;
      }
    }
    return true;
  }

  /** The message sizes of a schedule, in call order. */
  function SizesOf(calls: seq<Call>): (sizes: seq<nat>)
    ensures |sizes| == |calls|
    ensures forall i :: 0 <= i < |calls| ==> sizes[i] == calls[i].size
  {
    seq(|calls|, i requires 0 <= i < |calls| => calls[i].size)
  }

  function BenchConfig(lo: nat, hi: nat): Config
    requires lo > 0
  {
    Config(SizesOf(Schedule(lo, hi)), hi)
  }

  /** The rendezvous theorem for the schedule the programs really run. */
  lemma BenchmarksDeliver(p: Rendezvous.Protocol, lo: nat, hi: nat, s: Rendezvous.State, ls: seq<Label>)
    requires lo > 0
    requires Rendezvous.Init(p, BenchConfig(lo, hi), s) && Rendezvous.Run(p, BenchConfig(lo, hi), s, ls)
    ensures ValidConfig(BenchConfig(lo, hi))
    ensures |ls| <= 120 * |Schedule(lo, hi)| + 54
    ensures var t := Rendezvous.After(p, BenchConfig(lo, hi), s, ls);
            Rendezvous.Stuck(p, BenchConfig(lo, hi), t) ==>
              Rendezvous.Finished(t) && t.n0.got == t.n1.log && t.n1.got == t.n0.log
              && |t.n0.log| == |t.n1.log| == |Schedule(lo, hi)|
  {
    Rendezvous.EveryMaximalRunDelivers(p, BenchConfig(lo, hi), s, ls);
  }

  lemma BenchConfigIsValid(lo: nat, hi: nat)
    requires lo > 0
    ensures ValidConfig(BenchConfig(lo, hi))
  {
    forall k | 0 <= k < |Sizes(lo, hi)| ensures Sizes(lo, hi)[k] <= hi {
      SizesDouble(lo, hi, k);
    }
    forall i | 0 <= i < |Schedule(lo, hi)| ensures Schedule(lo, hi)[i].size <= hi {
      BlocksWithin(Sizes(lo, hi), hi, i);
    }
  }
}
