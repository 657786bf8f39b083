/** The body of the shared-receive-queue loop as it runs: counters and masks changed in place,
    one work completion after the other. */
module SrqLoop {
  import opened PingPong

  const RECV_WRID: bv8 := 1
  const SEND_WRID: bv8 := 2

  /** A completion as the adapter reports it. */
  datatype RawWc = RawWc(success: bool, qpNum: int, wrid: bv8)

  datatype Option<T> = None | Some(value: T)

  /** The least index at which a queue pair has the number, or none. */
  function IndexOf(qpNums: seq<int>, qpNum: int): (r: Option<nat>)
    ensures r.Some? ==> r.value < |qpNums| && qpNums[r.value] == qpNum && qpNum !in qpNums[..r.value]
    ensures r.None? ==> qpNum !in qpNums
  {
    if qpNums == [] then None
    else if qpNums[0] == qpNum then Some(0)
    else
      var r := IndexOf(qpNums[1..], qpNum);
      if r.None? then None else
      assert qpNums[..r.value + 1] == [qpNums[0]] + qpNums[1..][..r.value];
      Some(r.value + 1)
  }

  lemma {:induction false} FirstIsIndexOf(qpNums: seq<int>, qpNum: int, i: nat)
    requires i < |qpNums| && qpNums[i] == qpNum && qpNum !in qpNums[..i]
    ensures IndexOf(qpNums, qpNum) == Some(i)
  {
    if i > 0 {
      assert qpNums[0] == qpNums[..i][0];
      assert qpNums[1..][..i - 1] == qpNums[..i][1..];
      FirstIsIndexOf(qpNums[1..], qpNum, i - 1);
    }
  }

  /** What a reported completion means, if the loop accepts it. */
  function Decode(qpNums: seq<int>, raw: RawWc): (r: Option<Wc>)
    ensures r.Some? ==> r.value.qp < |qpNums|
  {
    if !raw.success then None
    else match IndexOf(qpNums, raw.qpNum)
      case None => None
      case Some(q) =>
        if raw.wrid == SEND_WRID then Some(Sent(q)) else if raw.wrid == RECV_WRID then Some(Received(q)) else None
  }

  /** The completions up to the first that is refused. */
  function Accepted(qpNums: seq<int>, raws: seq<RawWc>): (ws: seq<Wc>)
    ensures |ws| <= |raws|
    ensures forall w <- ws :: w.qp < |qpNums|
    ensures forall i :: 0 <= i < |ws| ==> Decode(qpNums, raws[i]) == Some(ws[i])
    ensures |ws| < |raws| ==> Decode(qpNums, raws[|ws|]).None?
  {
    if raws == [] || Decode(qpNums, raws[0]).None? then []
    else [Decode(qpNums, raws[0]).value] + Accepted(qpNums, raws[1..])
  }

  lemma AcceptedAt(qpNums: seq<int>, raws: seq<RawWc>, i: nat)
    requires i < |raws|
    ensures Accepted(qpNums, raws[i..]) ==
            if Decode(qpNums, raws[i]).None? then []
            else [Decode(qpNums, raws[i]).value] + Accepted(qpNums, raws[i + 1..])
  {
    assert raws[i..][1..] == raws[i + 1..];
  }

  function HandleAll(p: Params, x: Side, ws: seq<Wc>): (x': Side)
    requires WellFormed(p, x) && forall w <- ws :: w.qp < p.numQp
    ensures WellFormed(p, x')
    decreases |ws|
  {
    if ws == [] then x else HandleAll(p, Handle(p, x, ws[0]), ws[1..])
  }

  /** Handling a batch in one go is processing it one completion at a time. */
  function ProcessAll(p: Params, x: Side): Side
    requires WellFormed(p, x) && forall w <- x.batch :: w.qp < p.numQp
    decreases |x.batch|
  {
    if x.batch == [] then x else ProcessAll(p, Process(p, x))
  }

  lemma HandleLeavesQueues(p: Params, x: Side, w: Wc, batch: seq<Wc>)
    requires WellFormed(p, x) && w.qp < p.numQp
    ensures Handle(p, x, w).batch == x.batch && Handle(p, x, w).cq == x.cq
    ensures Handle(p, x, w).(batch := batch) == Handle(p, x.(batch := batch), w)
  {}

  lemma {:induction false} BatchIsSteps(p: Params, x: Side)
    requires WellFormed(p, x) && forall w <- x.batch :: w.qp < p.numQp
    ensures ProcessAll(p, x) == HandleAll(p, x.(batch := []), x.batch)
    decreases |x.batch|
  {
    if x.batch == [] {
      assert x.(batch := []) == x;
    } else {
      HandleLeavesQueues(p, x.(batch := x.batch[1..]), x.batch[0], []);
      BatchIsSteps(p, Process(p, x));
    }
  }

  lemma HandleFirst(p: Params, x: Side, w: Wc, ws: seq<Wc>)
    requires WellFormed(p, x) && (forall v <- ws :: v.qp < p.numQp) && w.qp < p.numQp
    ensures HandleAll(p, x, [w] + ws) == HandleAll(p, Handle(p, x, w), ws)
  {
    assert ([w] + ws)[1..] == ws;
  }

  // ---------- Masks ----------

  function Bits(mask: bv8, wrid: bv8): bool { mask & wrid != 0 }

  lemma ClearSend(mask: bv8)
    ensures !Bits(mask & !SEND_WRID, SEND_WRID)
    ensures Bits(mask & !SEND_WRID, RECV_WRID) == Bits(mask, RECV_WRID)
    ensures mask & !3 == 0 ==> (mask & !SEND_WRID) & !3 == 0
  {}

  lemma ClearRecv(mask: bv8)
    ensures !Bits(mask & !RECV_WRID, RECV_WRID)
    ensures Bits(mask & !RECV_WRID, SEND_WRID) == Bits(mask, SEND_WRID)
    ensures mask & !3 == 0 ==> (mask & !RECV_WRID) & !3 == 0
  {}

  /** A mask of the two bits is zero when neither is set. */
  lemma ZeroMask(mask: bv8)
    requires mask & !3 == 0
    ensures mask == 0 <==> !Bits(mask, SEND_WRID) && !Bits(mask, RECV_WRID)
  {
    assert (mask & 1) | (mask & 2) | (mask & !3) == mask;
  }

  function Masked(pending: seq<bv8>, wrid: bv8): (b: seq<bool>)
    ensures |b| == |pending| && forall q :: 0 <= q < |b| ==> b[q] == Bits(pending[q], wrid)
  {
    seq(|pending|, q requires 0 <= q < |pending| => Bits(pending[q], wrid))
  }

  lemma MaskedUpdate(pending: seq<bv8>, q: nat, mask: bv8)
    requires q < |pending|
    ensures Masked(pending[q := mask], SEND_WRID) == Masked(pending, SEND_WRID)[q := Bits(mask, SEND_WRID)]
    ensures Masked(pending[q := mask], RECV_WRID) == Masked(pending, RECV_WRID)[q := Bits(mask, RECV_WRID)]
  {}

  class Loop {
    const p: Params
    const starts: bool
    const qpNums: seq<int>
    var routs: int
    var scnt: nat
    var rcnt: nat
    var pending: array<bv8>
    /** The send slot of each queue pair, and the sends and receives posted since the start. */
    var out: seq<Flight>
    var posts: nat
    var posted: int

    ghost predicate Valid() reads this, pending {
      && |qpNums| == |out| == pending.Length == p.numQp
      && (forall q :: 0 <= q < pending.Length ==> pending[q] & !3 == 0)
      && p.numQp <= p.rxDepth && p.numQp <= routs <= p.rxDepth && posted == routs + rcnt
    }

    function View(): (x: Side) reads this, pending requires Valid()
      ensures WellFormed(p, x)
    {
      Side(starts, routs, scnt, rcnt, posts, Masked(pending[..], SEND_WRID), Masked(pending[..], RECV_WRID), out,
           [], [], false)
    }

    /** The state the loop is entered in: every receive posted, and one send per queue pair on the client. */
    constructor (p: Params, starts: bool, qpNums: seq<int>)
      requires ValidParams(p) && |qpNums| == p.numQp
      ensures Valid() && fresh(pending) && this.p == p && this.qpNums == qpNums
      ensures View() == Start(p, starts)
    {
      this.p, this.starts, this.qpNums := p, starts, qpNums;
      routs, scnt, rcnt, posts, posted := p.rxDepth, 0, 0, 0, p.rxDepth;
      var masks := new bv8[p.numQp];
      pending := masks;
      out := seq(p.numQp, _ => Idle);
      new;
      for i := 0 to p.numQp
        modifies `out, `posts, pending
        invariant posts == if starts then i else 0
        invariant |out| == p.numQp
        invariant forall q :: 0 <= q < i ==> pending[q] == if starts then RECV_WRID | SEND_WRID else RECV_WRID
        invariant forall q :: 0 <= q < p.numQp ==> out[q] == if starts && q < i then Flying else Idle
      {
        if starts {
          PostSend(i);
          pending[i] := RECV_WRID | SEND_WRID;
        } else {
          pending[i] := RECV_WRID;
        }
      }
      assert Masked(pending[..], SEND_WRID) == seq(p.numQp, _ => starts);
      assert Masked(pending[..], RECV_WRID) == seq(p.numQp, _ => true);
    }

    method FindQp(qpNum: int) returns (i: int)
      requires |qpNums| == p.numQp
      ensures -1 <= i < p.numQp
      ensures IndexOf(qpNums, qpNum) == if i < 0 then None else Some(i)
    {
      i := 0;
      while i < p.numQp
        invariant 0 <= i <= p.numQp
        invariant qpNum !in qpNums[..i]
      {
        if qpNums[i] == qpNum {
          FirstIsIndexOf(qpNums, qpNum, i);
          return;
        }
        i := i + 1;
      }
      assert qpNums[..i] == qpNums;
      i := -1;
    }

    method PostSend(q: nat)
      requires q < |out|
      modifies `out, `posts
      ensures out == old(out)[q := Flying] && posts == old(posts) + 1
    {
      out := out[q := Flying];
      posts := posts + 1;
    }

    method PostRecv(n: int) returns (i: int)
      requires n >= 0
      modifies `posted
      ensures i == n && posted == old(posted) + n
    {
      i := 0;
      while i < n
        invariant 0 <= i <= n && posted == old(posted) + i
      {
        posted := posted + 1;
        i := i + 1;
      }
    }

    method CountReceive()
      requires Valid()
      modifies `routs, `rcnt, `posted
      ensures routs == Refill(p, old(routs) - 1) && rcnt == old(rcnt) + 1
      ensures routs == if old(routs) - 1 > p.numQp then old(routs) - 1 else p.rxDepth
      ensures p.numQp <= routs <= p.rxDepth && posted == routs + rcnt
    {
      routs := routs - 1;
      if routs <= p.numQp {
        var n := PostRecv(p.rxDepth - routs);
        routs := routs + n;
      }
      rcnt := rcnt + 1;
    }

    /** Counting one completion and clearing its bit. */
    method CountAndClear(q: nat, wrid: bv8)
      requires Valid() && q < p.numQp && (wrid == SEND_WRID || wrid == RECV_WRID)
      modifies `scnt, `routs, `rcnt, `posted, pending
      ensures Valid()
      ensures pending[..] == old(pending[..])[q := old(pending[q]) & !wrid]
      ensures if wrid == SEND_WRID then scnt == old(scnt) + 1 && routs == old(routs) && rcnt == old(rcnt)
              else scnt == old(scnt) && rcnt == old(rcnt) + 1
                   && routs == if old(routs) - 1 > p.numQp then old(routs) - 1 else p.rxDepth
      ensures View() == Take(p, old(View()), if wrid == SEND_WRID then Sent(q) else Received(q))
    {
      var mask := pending[q];
      ClearSend(mask);
      ClearRecv(mask);
      if wrid == SEND_WRID {
        scnt := scnt + 1;
      } else {
        CountReceive();
      }
      pending[q] := mask & !wrid;
      assert pending[..] == old(pending[..])[q := mask & !wrid];
      MaskedUpdate(old(pending[..]), q, mask & !wrid);
    }

    /** Posting the next send on a queue pair whose two bits are clear, while sends remain. */
    method PostIfDue(q: nat)
      requires Valid() && q < p.numQp
      modifies `out, `posts, pending
      ensures Valid()
      ensures if scnt < p.iters && old(pending[q]) == 0
              then pending[..] == old(pending[..])[q := RECV_WRID | SEND_WRID]
                   && out == old(out)[q := Flying] && posts == old(posts) + 1
              else pending[..] == old(pending[..]) && out == old(out) && posts == old(posts)
      ensures View() == Settle(p, old(View()), q)
    {
      ZeroMask(pending[q]);
      if scnt < p.iters && pending[q] == 0 {
        PostSend(q);
        pending[q] := RECV_WRID | SEND_WRID;
        assert pending[..] == old(pending[..])[q := RECV_WRID | SEND_WRID];
        MaskedUpdate(old(pending[..]), q, RECV_WRID | SEND_WRID);
      }
    }

    /** Both, for a completion that is accepted. */
    method Account(q: nat, wrid: bv8)
      requires Valid() && q < p.numQp && (wrid == SEND_WRID || wrid == RECV_WRID)
      modifies `scnt, `routs, `rcnt, `posted, `out, `posts, pending
      ensures Valid()
      ensures if wrid == SEND_WRID then scnt == old(scnt) + 1 && routs == old(routs) && rcnt == old(rcnt)
              else scnt == old(scnt) && rcnt == old(rcnt) + 1
                   && routs == if old(routs) - 1 > p.numQp then old(routs) - 1 else p.rxDepth
      ensures var left := old(pending[q]) & !wrid;
              if scnt < p.iters && left == 0
              then pending[..] == old(pending[..])[q := RECV_WRID | SEND_WRID]
                   && out == old(out)[q := Flying] && posts == old(posts) + 1
              else pending[..] == old(pending[..])[q := left] && out == old(out) && posts == old(posts)
      ensures View() == Handle(p, old(View()), if wrid == SEND_WRID then Sent(q) else Received(q))
    {
      CountAndClear(q, wrid);
      PostIfDue(q);
    }

    /** The queue pair of a completion, or -1 for one that is refused. */
    method Locate(raw: RawWc) returns (q: int)
      requires Valid()
      ensures -1 <= q < p.numQp
      ensures q >= 0 <==> raw.success && raw.qpNum in qpNums && (raw.wrid == SEND_WRID || raw.wrid == RECV_WRID)
      ensures q >= 0 <==> Decode(qpNums, raw).Some?
      ensures q >= 0 ==> IndexOf(qpNums, raw.qpNum) == Some(q)
    {
      if !raw.success {
        return -1;
      }
      q := FindQp(raw.qpNum);
      if raw.wrid != SEND_WRID && raw.wrid != RECV_WRID {
        return -1;
      }
    }

    /** One completion: counted, its bit cleared, and the next send posted if one is due. */
    method HandleOne(raw: RawWc) returns (ok: bool)
      requires Valid()
      modifies this, pending
      ensures Valid() && pending == old(pending)
      ensures ok <==> raw.success && raw.qpNum in qpNums && (raw.wrid == SEND_WRID || raw.wrid == RECV_WRID)
      ensures !ok || raw.wrid == SEND_WRID ==> routs == old(routs) && rcnt == old(rcnt)
      ensures ok && raw.wrid == RECV_WRID ==> rcnt == old(rcnt) + 1
      ensures ok && raw.wrid == RECV_WRID ==>
                routs == if old(routs) - 1 > p.numQp then old(routs) - 1 else p.rxDepth
      ensures scnt == old(scnt) + if ok && raw.wrid == SEND_WRID then 1 else 0
      ensures !ok ==> pending[..] == old(pending[..]) && out == old(out) && posts == old(posts)
      ensures ok ==>
                var q := IndexOf(qpNums, raw.qpNum).value;
                var left := old(pending[q]) & !raw.wrid;
                if scnt < p.iters && left == 0
                then pending[..] == old(pending[..])[q := RECV_WRID | SEND_WRID]
                     && out == old(out)[q := Flying] && posts == old(posts) + 1
                else pending[..] == old(pending[..])[q := left] && out == old(out) && posts == old(posts)
      ensures ok == Decode(qpNums, raw).Some?
      ensures View() == if ok then Handle(p, old(View()), Decode(qpNums, raw).value) else old(View())
    {
      var q := Locate(raw);
      ok := q >= 0;
      if ok {
        Account(q, raw.wrid);
      }
    }

    /** The completions of one poll, in order, until one is refused. */
    method HandleBatch(wc: seq<RawWc>) returns (ok: bool)
      requires Valid()
      modifies this, pending
      ensures Valid() && pending == old(pending)
      ensures View() == HandleAll(p, old(View()), Accepted(qpNums, wc))
      ensures ok <==> |Accepted(qpNums, wc)| == |wc|
    {
      var i := 0;
      ghost var target := HandleAll(p, View(), Accepted(qpNums, wc));
      assert wc[0..] == wc;
      while i < |wc|
        invariant 0 <= i <= |wc|
        invariant Valid() && pending == old(pending)
        invariant HandleAll(p, View(), Accepted(qpNums, wc[i..])) == target
        invariant |Accepted(qpNums, wc)| == i + |Accepted(qpNums, wc[i..])|
      {
        AcceptedAt(qpNums, wc, i);
        ghost var x := View();
        var accepted := HandleOne(wc[i]);
        if !accepted {
          return false;
        }
        HandleFirst(p, x, Decode(qpNums, wc[i]).value, Accepted(qpNums, wc[i + 1..]));
        i := i + 1;
      }
      return true;
    }
  }
}
