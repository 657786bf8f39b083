/** The reliable-connection ping-pong: the same side with one queue pair, whose mask is one word,
    and the exact counts that follow. */
module RcPingpong {
  import opened PingPong
  import SrqLoop
  import SrqPingpong

  const RECV_WRID: bv8 := 1
  const SEND_WRID: bv8 := 2

  function Meaning(wrid: bv8): Wc { if wrid == SEND_WRID then Sent(0) else Received(0) }

  class Context {
    const p: Params
    const starts: bool
    var routs: int
    var scnt: nat
    var rcnt: nat
    var pending: bv8
    /** The send slot, and the sends and receives posted since the start. */
    var out: Flight
    var posts: nat
    var posted: int

    ghost predicate Valid() reads this {
      && p.numQp == 1 <= p.rxDepth && 1 <= routs <= p.rxDepth && posted == routs + rcnt
      && pending & !3 == 0
    }

    ghost function View(): (x: Side) reads this
      ensures p.numQp == 1 ==> WellFormed(p, x)
    {
      Side(starts, routs, scnt, rcnt, posts, [SrqLoop.Bits(pending, SEND_WRID)],
           [SrqLoop.Bits(pending, RECV_WRID)], [out], [], [], false)
    }

    constructor (p: Params, starts: bool)
      requires ValidParams(p) && p.numQp == 1
      ensures Valid() && this.p == p && this.starts == starts
      ensures View() == Start(p, starts)
    {
      this.p, this.starts := p, starts;
      routs, scnt, rcnt, posts, posted := p.rxDepth, 0, 0, if starts then 1 else 0, p.rxDepth;
      out := if starts then Flying else Idle;
      pending := if starts then RECV_WRID | SEND_WRID else RECV_WRID;
    }

    method PostRecv(n: int) returns (i: int)
      requires n >= 0
      modifies `posted
      ensures i == n && posted == old(posted) + n
    {
      i := 0;
      while i < n
        invariant 0 <= i <= n && posted == old(posted) + i
      {
        posted := posted + 1;
        i := i + 1;
      }
    }

    method CountReceive()
      requires Valid()
      modifies `routs, `rcnt, `posted
      ensures routs == Refill(p, old(routs) - 1) && rcnt == old(rcnt) + 1
      ensures routs == if old(routs) - 1 > 1 then old(routs) - 1 else p.rxDepth
      ensures 1 <= routs <= p.rxDepth && posted == routs + rcnt
    {
      routs := routs - 1;
      if routs <= 1 {
        var n := PostRecv(p.rxDepth - routs);
        routs := routs + n;
      }
      rcnt := rcnt + 1;
    }

    method CountAndClear(wrid: bv8)
      requires Valid() && (wrid == SEND_WRID || wrid == RECV_WRID)
      modifies `scnt, `rcnt, `routs, `posted, `pending
      ensures Valid()
      ensures pending == old(pending) & !wrid
      ensures if wrid == SEND_WRID then scnt == old(scnt) + 1 && routs == old(routs) && rcnt == old(rcnt)
              else scnt == old(scnt) && rcnt == old(rcnt) + 1
                   && routs == if old(routs) - 1 > 1 then old(routs) - 1 else p.rxDepth
      ensures View() == Take(p, old(View()), Meaning(wrid))
    {
      SrqLoop.ClearSend(pending);
      SrqLoop.ClearRecv(pending);
      if wrid == SEND_WRID {
        scnt := scnt + 1;
        pending := pending & !SEND_WRID;
      } else {
        CountReceive();
        pending := pending & !RECV_WRID;
      }
    }

    method PostIfDue()
      requires Valid()
      modifies `out, `posts, `pending
      ensures Valid()
      ensures if scnt < p.iters && old(pending) == 0
              then pending == RECV_WRID | SEND_WRID && out == Flying && posts == old(posts) + 1
              else pending == old(pending) && out == old(out) && posts == old(posts)
      ensures View() == Settle(p, old(View()), 0)
    {
      SrqLoop.ZeroMask(pending);
      if scnt < p.iters && pending == 0 {
        out := Flying;
        posts := posts + 1;
        pending := RECV_WRID | SEND_WRID;
      }
    }

    /** One completion of the given kind; answers true where the source answers 0. */
    method ParseSingleWc(success: bool, wrid: bv8) returns (ok: bool)
      requires Valid()
      modifies this
      ensures Valid()
      ensures ok <==> success && (wrid == SEND_WRID || wrid == RECV_WRID)
      ensures scnt == old(scnt) + (if ok && wrid == SEND_WRID then 1 else 0)
      ensures rcnt == old(rcnt) + (if ok && wrid == RECV_WRID then 1 else 0)
      ensures routs == if !ok || wrid == SEND_WRID then old(routs)
                       else if old(routs) - 1 > 1 then old(routs) - 1 else p.rxDepth
      ensures var left := old(pending) & !wrid;
              if ok && scnt < p.iters && left == 0
              then pending == RECV_WRID | SEND_WRID && out == Flying && posts == old(posts) + 1
              else pending == (if ok then left else old(pending)) && out == old(out) && posts == old(posts)
      ensures View() == if ok then Handle(p, old(View()), Meaning(wrid)) else old(View())
    {
      if !success || (wrid != SEND_WRID && wrid != RECV_WRID) {
        return false;
      }
      CountAndClear(wrid);
      PostIfDue();
      return true;
    }
  }

  /** In every state of every run: each side has at most one send whose completion it has not handled,
      and never more than iters sends; the client's counters differ by at most one, and the server has
      received up to two more than the sends it has seen complete. */
  lemma CountsThroughout(p: Params, ls: seq<SrqPingpong.Label>)
    requires ValidParams(p) && p.numQp == 1 && SrqPingpong.Run(p, SrqPingpong.Init(p), ls)
    ensures var s := SrqPingpong.After(p, SrqPingpong.Init(p), ls);
            && -1 <= s.client.rcnt - s.client.scnt <= 1
            && 0 <= s.server.rcnt - s.server.scnt <= 2
            && Count(SrqPingpong.Outstanding(p, s.client)) == s.client.posts - s.client.scnt <= 1
            && Count(SrqPingpong.Outstanding(p, s.server)) == s.server.posts - s.server.scnt <= 1
            && s.client.posts <= p.iters && s.server.posts <= p.iters
            && s.client.rcnt <= p.iters && s.server.rcnt <= p.iters
            && |Queue(s.client)| <= 2 && |Queue(s.server)| <= 2
  {
    SrqPingpong.InitInv(p);
    SrqPingpong.EveryRun(p, SrqPingpong.Init(p), ls);
    var s := SrqPingpong.After(p, SrqPingpong.Init(p), ls);
    SrqPingpong.CompletionsFit(p, s.client);
    SrqPingpong.CompletionsFit(p, s.server);
    SrqPingpong.PostedIsCountedOrOut(p, s.client);
    SrqPingpong.PostedIsCountedOrOut(p, s.server);
  }

  /** A run that cannot be continued leaves both sides with exactly iters sends and iters receives. */
  lemma ExactlyIters(p: Params, ls: seq<SrqPingpong.Label>)
    requires ValidParams(p) && p.numQp == 1 && SrqPingpong.Run(p, SrqPingpong.Init(p), ls)
    requires SrqPingpong.Stuck(p, SrqPingpong.After(p, SrqPingpong.Init(p), ls))
    ensures var s := SrqPingpong.After(p, SrqPingpong.Init(p), ls);
            && s.client.done && s.server.done
            && s.client.scnt == s.client.rcnt == s.server.scnt == s.server.rcnt == p.iters
  {
    CountsThroughout(p, ls);
    SrqPingpong.InitInv(p);
    SrqPingpong.EveryRun(p, SrqPingpong.Init(p), ls);
    SrqPingpong.StuckMeansDone(p, SrqPingpong.After(p, SrqPingpong.Init(p), ls));
  }
}
