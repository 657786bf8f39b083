/** The shared-receive-queue ping-pong as a system of two sides and the fabric between them:
    what every step keeps, and what every run comes to. */
module SrqPingpong {
  import opened PingPong

  // ---------- What a side keeps on its own ----------

  predicate Distinct(ws: seq<Wc>) {
    forall i, j :: 0 <= i < j < |ws| ==> ws[i] != ws[j]
  }

  /** The send bit of q is set exactly while its one send is out or its completion unprocessed. */
  predicate SendFits(x: Side, q: nat)
    requires q < |x.sendPending| && q < |x.out|
  {
    && (x.sendPending[q] <==> !x.out[q].Idle? || Sent(q) in Queue(x))
    && !(!x.out[q].Idle? && Sent(q) in Queue(x))
  }

  /** How far the receive counter is ahead of the send counter is read off the masks. */
  predicate CountersFit(p: Params, x: Side) {
    x.rcnt + Count(x.recvPending) == x.scnt + Count(x.sendPending) + (if x.starts then 0 else p.numQp)
  }

  predicate Core(p: Params, x: Side) {
    && WellFormed(p, x)
    && Distinct(Queue(x))
    && (forall i :: 0 <= i < |Queue(x)| ==> Queue(x)[i].qp < p.numQp)
    && (forall q :: 0 <= q < p.numQp ==> SendFits(x, q))
    && CountersFit(p, x)
    && x.posts == x.scnt + Count(x.sendPending)
    && x.routs <= p.rxDepth && (x.routs > p.numQp || x.routs == p.rxDepth)
    && x.scnt + Count(x.sendPending) < p.iters + p.numQp
    && (x.done ==> !More(p, x) && x.batch == [])
  }

  /** No queue pair is left with both bits clear while sends remain. */
  predicate Settled(p: Params, x: Side) {
    WellFormed(p, x) && forall q :: 0 <= q < p.numQp ==> !Due(p, x, q)
  }

  // ---------- What two sides keep together ----------

  predicate FlyingOn(x: Side, q: nat) { q < |x.out| && x.out[q].Flying? }

  predicate HoldsBall(x: Side, q: nat) { q < |x.recvPending| && !x.recvPending[q] }

  /** Every queue pair's ball is in one place: on the wire, landed, or held, on one side. */
  predicate OneBall(x: Side, y: Side, q: nat) {
    Bit(FlyingOn(x, q)) + Bit(Received(q) in Queue(y)) + Bit(HoldsBall(y, q))
    + Bit(FlyingOn(y, q)) + Bit(Received(q) in Queue(x)) + Bit(HoldsBall(x, q)) == 1
  }

  predicate Balls(p: Params, x: Side, y: Side) {
    forall q :: 0 <= q < p.numQp ==> OneBall(x, y, q)
  }

  /** The queue pairs whose ball is on its way from x to y. */
  function Transit(p: Params, x: Side, y: Side): seq<bool> {
    seq(p.numQp, q requires 0 <= q => FlyingOn(x, q) || Received(q) in Queue(y))
  }

  /** Everything x posted was received by y or is on its way. */
  predicate Conserved(p: Params, x: Side, y: Side) {
    x.scnt + Count(x.sendPending) == y.rcnt + Count(Transit(p, x, y))
  }

  predicate Pair(p: Params, x: Side, y: Side) {
    && Core(p, x) && Core(p, y) && Settled(p, x) && Settled(p, y)
    && Balls(p, x, y) && Conserved(p, x, y) && Conserved(p, y, x)
  }

  lemma PairSymmetric(p: Params, x: Side, y: Side)
    requires Pair(p, x, y)
    ensures Pair(p, y, x)
  {
    forall q | 0 <= q < p.numQp ensures OneBall(y, x, q) {
      assert OneBall(x, y, q);
    }
  }

  // ---------- Processing one completion ----------

  /** What a side looks like with the completion at hand taken off its batch. */
  function Popped(x: Side): Side
    requires x.batch != []
  {
    x.(batch := x.batch[1..])
  }

  lemma PopQueue(p: Params, x: Side)
    requires Core(p, x) && x.batch != []
    ensures Queue(x) == [x.batch[0]] + Queue(Popped(x))
    ensures Distinct(Queue(Popped(x))) && x.batch[0] !in Queue(Popped(x))
    ensures forall i :: 0 <= i < |Queue(Popped(x))| ==> Queue(Popped(x))[i].qp < p.numQp
    ensures forall w :: w in Queue(x) <==> w == x.batch[0] || w in Queue(Popped(x))
  {
    var all, rest := Queue(x), Queue(Popped(x));
    assert all == [x.batch[0]] + rest;
    forall i, j | 0 <= i < j < |rest| ensures rest[i] != rest[j] {
      assert all[i + 1] != all[j + 1];
    }
    forall i | 0 <= i < |rest| ensures rest[i].qp < p.numQp && rest[i] != x.batch[0] {
      assert all[i + 1].qp < p.numQp && all[0] != all[i + 1];
    }
  }

  lemma TakeSentKeepsCore(p: Params, x: Side, q: nat)
    requires Core(p, x) && x.batch != [] && x.batch[0] == Sent(q)
    ensures q < p.numQp && Core(p, Take(p, Popped(x), Sent(q)))
  {
    PopQueue(p, x);
    var x' := Take(p, Popped(x), Sent(q));
    CountUpdate(x.sendPending, q, false);
    assert SendFits(x, q);
    forall r | 0 <= r < p.numQp ensures SendFits(x', r) {
      assert SendFits(x, r);
    }
  }

  lemma TakeReceivedKeepsCore(p: Params, x: Side, y: Side, q: nat)
    requires Core(p, x) && Balls(p, x, y) && x.batch != [] && x.batch[0] == Received(q)
    ensures q < p.numQp && Core(p, Take(p, Popped(x), Received(q)))
  {
    PopQueue(p, x);
    var x' := Take(p, Popped(x), Received(q));
    CountUpdate(x.recvPending, q, false);
    assert OneBall(x, y, q);
    forall r | 0 <= r < p.numQp ensures SendFits(x', r) {
      assert SendFits(x, r);
    }
  }

  /** Processing moves a landed ball into the hand; the send bits play no part. */
  lemma TakeKeepsBalls(p: Params, x: Side, y: Side)
    requires Core(p, x) && WellFormed(p, y) && Balls(p, x, y) && x.batch != []
    ensures x.batch[0].qp < p.numQp && Balls(p, Take(p, Popped(x), x.batch[0]), y)
  {
    PopQueue(p, x);
    var w := x.batch[0];
    assert Queue(x)[0] == w;
    var x' := Take(p, Popped(x), w);
    forall r | 0 <= r < p.numQp ensures OneBall(x', y, r) {
      assert OneBall(x, y, r);
    }
  }

  lemma TakeConserves(p: Params, x: Side, y: Side)
    requires Core(p, x) && WellFormed(p, y) && Balls(p, x, y) && Conserved(p, x, y) && Conserved(p, y, x)
    requires x.batch != [] && x.batch[0].qp < p.numQp
    ensures var x' := Take(p, Popped(x), x.batch[0]); Conserved(p, x', y) && Conserved(p, y, x')
  {
    PopQueue(p, x);
    var w := x.batch[0];
    var x' := Take(p, Popped(x), w);
    assert Transit(p, x', y) == Transit(p, x, y);
    if w.Sent? {
      assert Transit(p, y, x') == Transit(p, y, x);
      assert SendFits(x, w.qp);
      CountUpdate(x.sendPending, w.qp, false);
    } else {
      assert OneBall(x, y, w.qp);
      assert Transit(p, y, x') == Transit(p, y, x)[w.qp := false];
      CountUpdate(Transit(p, y, x), w.qp, false);
    }
  }

  lemma SettleKeepsCore(p: Params, x: Side, q: nat)
    requires Core(p, x) && !x.done && q < p.numQp
    ensures Core(p, Settle(p, x, q))
  {
    if Due(p, x, q) {
      var x' := Settle(p, x, q);
      CountUpdate(x.sendPending, q, true);
      CountUpdate(x.recvPending, q, true);
      CountSome(x.sendPending, q);
      assert Queue(x') == Queue(x);
      forall r | 0 <= r < p.numQp ensures SendFits(x', r) {
        assert SendFits(x, r);
      }
    }
  }

  lemma SettleKeepsPair(p: Params, x: Side, y: Side, q: nat)
    requires Core(p, x) && WellFormed(p, y) && q < p.numQp
    requires Balls(p, x, y) && Conserved(p, x, y) && Conserved(p, y, x)
    ensures var x' := Settle(p, x, q); Balls(p, x', y) && Conserved(p, x', y) && Conserved(p, y, x')
  {
    if Due(p, x, q) {
      var x' := Settle(p, x, q);
      assert SendFits(x, q) && OneBall(x, y, q);
      forall r | 0 <= r < p.numQp ensures OneBall(x', y, r) {
        assert OneBall(x, y, r);
      }
      assert Transit(p, x', y) == Transit(p, x, y)[q := true];
      CountUpdate(Transit(p, x, y), q, true);
      CountUpdate(x.sendPending, q, true);
      assert Transit(p, y, x') == Transit(p, y, x);
    }
  }

  lemma HandleSettles(p: Params, x: Side, w: Wc)
    requires WellFormed(p, x) && Settled(p, x) && w.qp < p.numQp
    ensures Settled(p, Handle(p, x, w))
  {
    var t := Take(p, x, w);
    var x' := Handle(p, x, w);
    forall q | 0 <= q < p.numQp ensures !Due(p, x', q) {
      assert !Due(p, x, q);
    }
  }

  lemma ProcessKeeps(p: Params, x: Side, y: Side)
    requires Pair(p, x, y) && CanProcess(p, x)
    ensures Pair(p, Process(p, x), y)
  {
    var w := x.batch[0];
    var t := Take(p, Popped(x), w);
    TakeKeepsBalls(p, x, y);
    TakeConserves(p, x, y);
    if w.Sent? {
      TakeSentKeepsCore(p, x, w.qp);
    } else {
      TakeReceivedKeepsCore(p, x, y, w.qp);
    }
    SettleKeepsCore(p, t, w.qp);
    SettleKeepsPair(p, t, y, w.qp);
    assert forall q :: 0 <= q < p.numQp ==> Due(p, Popped(x), q) == Due(p, x, q);
    HandleSettles(p, Popped(x), w);
  }

  // ---------- The other steps ----------

  lemma PollKeeps(p: Params, x: Side, y: Side, n: nat)
    requires Pair(p, x, y) && CanPoll(p, x, n)
    ensures Pair(p, Poll(x, n), y)
  {
    var x' := Poll(x, n);
    assert Queue(x') == Queue(x);
    forall q | 0 <= q < p.numQp ensures SendFits(x', q) && !Due(p, x', q) && OneBall(x', y, q) {
      assert SendFits(x, q) && !Due(p, x, q) && OneBall(x, y, q);
    }
    assert Transit(p, x', y) == Transit(p, x, y) && Transit(p, y, x') == Transit(p, y, x);
  }

  lemma LeaveKeeps(p: Params, x: Side, y: Side)
    requires Pair(p, x, y) && CanLeave(p, x)
    ensures Pair(p, x.(done := true), y)
  {
    var x' := x.(done := true);
    assert Queue(x') == Queue(x);
    forall q | 0 <= q < p.numQp ensures SendFits(x', q) && !Due(p, x', q) && OneBall(x', y, q) {
      assert SendFits(x, q) && !Due(p, x, q) && OneBall(x, y, q);
    }
    assert Transit(p, x', y) == Transit(p, x, y) && Transit(p, y, x') == Transit(p, y, x);
  }

  /** A completion not yet in the queue, put at its end. */
  lemma QueueGrows(p: Params, x: Side, x': Side, w: Wc)
    requires Distinct(Queue(x)) && forall i :: 0 <= i < |Queue(x)| ==> Queue(x)[i].qp < p.numQp
    requires x'.batch == x.batch && x'.cq == x.cq + [w] && w !in Queue(x) && w.qp < p.numQp
    ensures Distinct(Queue(x')) && forall i :: 0 <= i < |Queue(x')| ==> Queue(x')[i].qp < p.numQp
    ensures forall v :: v in Queue(x') <==> v == w || v in Queue(x)
  {
    assert Queue(x') == Queue(x) + [w];
  }

  lemma CompleteKeepsCore(p: Params, x: Side, q: nat)
    requires Core(p, x) && Settled(p, x) && CanComplete(x, q)
    ensures Core(p, Complete(x, q)) && Settled(p, Complete(x, q))
  {
    var x' := Complete(x, q);
    assert SendFits(x, q);
    QueueGrows(p, x, x', Sent(q));
    forall r | 0 <= r < p.numQp ensures SendFits(x', r) && !Due(p, x', r) {
      assert SendFits(x, r) && !Due(p, x, r);
    }
  }

  lemma CompleteKeepsBalls(p: Params, x: Side, y: Side, q: nat)
    requires Balls(p, x, y) && CanComplete(x, q)
    ensures Balls(p, Complete(x, q), y)
    ensures Transit(p, Complete(x, q), y) == Transit(p, x, y) && Transit(p, y, Complete(x, q)) == Transit(p, y, x)
  {
    var x' := Complete(x, q);
    assert Queue(x') == Queue(x) + [Sent(q)];
    forall r | 0 <= r < p.numQp ensures OneBall(x', y, r) {
      assert OneBall(x, y, r);
    }
  }

  lemma CompleteKeeps(p: Params, x: Side, y: Side, q: nat)
    requires Pair(p, x, y) && CanComplete(x, q)
    ensures Pair(p, Complete(x, q), y)
  {
    CompleteKeepsCore(p, x, q);
    CompleteKeepsBalls(p, x, y, q);
  }

  lemma AcceptKeepsCore(p: Params, x: Side, q: nat)
    requires Core(p, x) && Settled(p, x) && FlyingOn(x, q)
    ensures Core(p, Accept(x, q)) && Settled(p, Accept(x, q))
  {
    var x' := Accept(x, q);
    assert Queue(x') == Queue(x);
    forall r | 0 <= r < p.numQp ensures SendFits(x', r) && !Due(p, x', r) {
      assert SendFits(x, r) && !Due(p, x, r);
    }
  }

  lemma LandKeepsCore(p: Params, y: Side, q: nat)
    requires Core(p, y) && Settled(p, y) && q < p.numQp && Received(q) !in Queue(y)
    ensures Core(p, Land(y, q)) && Settled(p, Land(y, q))
  {
    var y' := Land(y, q);
    QueueGrows(p, y, y', Received(q));
    forall r | 0 <= r < p.numQp ensures SendFits(y', r) && !Due(p, y', r) {
      assert SendFits(y, r) && !Due(p, y, r);
    }
  }

  lemma DeliverKeepsBalls(p: Params, x: Side, y: Side, q: nat)
    requires Balls(p, x, y) && FlyingOn(x, q) && q < p.numQp
    ensures Balls(p, Accept(x, q), Land(y, q))
    ensures Transit(p, Accept(x, q), Land(y, q)) == Transit(p, x, y)
    ensures Transit(p, Land(y, q), Accept(x, q)) == Transit(p, y, x)
  {
    var x', y' := Accept(x, q), Land(y, q);
    assert Queue(x') == Queue(x) && Queue(y') == Queue(y) + [Received(q)];
    forall r | 0 <= r < p.numQp ensures OneBall(x', y', r) {
      assert OneBall(x, y, r);
    }
  }

  lemma DeliverKeeps(p: Params, x: Side, y: Side, q: nat)
    requires Pair(p, x, y) && FlyingOn(x, q)
    ensures Pair(p, Accept(x, q), Land(y, q))
  {
    assert OneBall(x, y, q);
    AcceptKeepsCore(p, x, q);
    LandKeepsCore(p, y, q);
    DeliverKeepsBalls(p, x, y, q);
  }

  // ---------- Receives, completions and sends never run out of room ----------

  /** The queue pairs with a receive completion in the queue. */
  function Landed(n: nat, ws: seq<Wc>): seq<bool> { seq(n, q requires 0 <= q => Received(q) in ws) }

  function Returned(n: nat, ws: seq<Wc>): seq<bool> { seq(n, q requires 0 <= q => Sent(q) in ws) }

  lemma {:induction false} CountQueue(n: nat, ws: seq<Wc>)
    requires Distinct(ws) && forall i :: 0 <= i < |ws| ==> ws[i].qp < n
    ensures Receives(ws) == Count(Landed(n, ws))
    ensures |ws| == Count(Landed(n, ws)) + Count(Returned(n, ws))
  {
    if ws == [] {
      CountZero(Landed(n, ws));
      CountZero(Returned(n, ws));
    } else {
      var w, rest := ws[0], ws[1..];
      assert ws == [w] + rest;
      assert w !in rest;
      CountQueue(n, rest);
      if w.Received? {
        assert Landed(n, ws) == Landed(n, rest)[w.qp := true];
        assert Returned(n, ws) == Returned(n, rest);
        CountUpdate(Landed(n, rest), w.qp, true);
      } else {
        assert Returned(n, ws) == Returned(n, rest)[w.qp := true];
        assert Landed(n, ws) == Landed(n, rest);
        CountUpdate(Returned(n, rest), w.qp, true);
      }
    }
  }

  /** A message on the wire always finds a posted receive. */
  lemma ReceivesCoverTheWire(p: Params, x: Side, y: Side, q: nat)
    requires ValidParams(p) && Pair(p, x, y) && q < |x.out| && x.out[q].Flying?
    ensures Receives(y.batch + y.cq) < y.routs
  {
    assert OneBall(x, y, q);
    CountQueue(p.numQp, Queue(y));
    CountSome(Landed(p.numQp, Queue(y)), q);
  }

  /** More than that: the receives posted are at least as many as the messages on the wire, and
      never more than the shared queue holds. */
  lemma CreditsCoverAllOnTheWire(p: Params, x: Side, y: Side)
    requires ValidParams(p) && Pair(p, x, y)
    ensures Count(seq(p.numQp, q requires 0 <= q => FlyingOn(x, q))) <= y.routs - Receives(y.batch + y.cq) <= p.rxDepth
  {
    var flying := seq(p.numQp, q requires 0 <= q => FlyingOn(x, q));
    CountQueue(p.numQp, Queue(y));
    forall q | 0 <= q < p.numQp ensures !(flying[q] && Landed(p.numQp, Queue(y))[q]) {
      assert OneBall(x, y, q);
    }
    CountDisjoint(flying, Landed(p.numQp, Queue(y)));
  }

  lemma {:induction false} CountDisjoint(a: seq<bool>, b: seq<bool>)
    requires |a| == |b| && forall q :: 0 <= q < |a| ==> !(a[q] && b[q])
    ensures Count(a) + Count(b) <= |a|
  {
    if a != [] { CountDisjoint(a[1..], b[1..]); }
  }

  /** The completion queue, made for rxDepth + numQp entries, never overflows. */
  lemma CompletionsFit(p: Params, x: Side)
    requires ValidParams(p) && Core(p, x)
    ensures |Queue(x)| <= 2 * p.numQp <= p.rxDepth + p.numQp
  {
    CountQueue(p.numQp, Queue(x));
  }

  /** A send is only ever posted on a queue pair whose one send slot is free. */
  lemma PostsIntoFreeSlot(p: Params, x: Side, y: Side)
    requires Pair(p, x, y) && CanProcess(p, x)
    requires Process(p, x) != Take(p, Popped(x), x.batch[0])
    ensures x.out[x.batch[0].qp].Idle?
    ensures Sent(x.batch[0].qp) !in Queue(Process(p, x))
  {
    var w := x.batch[0];
    var t := Take(p, Popped(x), w);
    if w.Sent? {
      TakeSentKeepsCore(p, x, w.qp);
    } else {
      TakeReceivedKeepsCore(p, x, y, w.qp);
    }
    assert SendFits(t, w.qp);
    assert Queue(Settle(p, t, w.qp)) == Queue(t);
  }

  /** The queue pairs whose one send is on the wire, accepted, or completed and not handled. */
  function Outstanding(p: Params, x: Side): seq<bool> {
    seq(p.numQp, q requires 0 <= q => q < |x.out| && (!x.out[q].Idle? || Sent(q) in Queue(x)))
  }

  /** Every send ever posted has been counted or is outstanding, one to a queue pair. */
  lemma PostedIsCountedOrOut(p: Params, x: Side)
    requires Core(p, x)
    ensures x.posts == x.scnt + Count(Outstanding(p, x))
  {
    forall q | 0 <= q < p.numQp ensures Outstanding(p, x)[q] == x.sendPending[q] {
      assert SendFits(x, q);
    }
    assert Outstanding(p, x) == x.sendPending;
  }

  // ---------- Runs ----------

  datatype State = State(server: Side, client: Side)

  datatype Label =
    | PollL(client: bool, n: nat)
    | ProcessL(client: bool)
    | LeaveL(client: bool)
    | DeliverL(client: bool, q: nat)
    | CompleteL(client: bool, q: nat)

  predicate SideEnabled(p: Params, x: Side, y: Side, l: Label) {
    match l
    case PollL(_, n) => CanPoll(p, x, n)
    case ProcessL(_) => CanProcess(p, x)
    case LeaveL(_) => CanLeave(p, x)
    case DeliverL(_, q) => CanDeliver(x, y, q)
    case CompleteL(_, q) => CanComplete(x, q)
  }

  function SideStep(p: Params, x: Side, y: Side, l: Label): (Side, Side)
    requires SideEnabled(p, x, y, l)
  {
    match l
    case PollL(_, n) => (Poll(x, n), y)
    case ProcessL(_) => (Process(p, x), y)
    case LeaveL(_) => (x.(done := true), y)
    case DeliverL(_, q) => (Accept(x, q), Land(y, q))
    case CompleteL(_, q) => (Complete(x, q), y)
  }

  predicate Enabled(p: Params, s: State, l: Label) {
    if l.client then SideEnabled(p, s.client, s.server, l) else SideEnabled(p, s.server, s.client, l)
  }

  function Step(p: Params, s: State, l: Label): State
    requires Enabled(p, s, l)
  {
    if l.client then
      var (c, v) := SideStep(p, s.client, s.server, l); State(v, c)
    else
      var (v, c) := SideStep(p, s.server, s.client, l); State(v, c)
  }

  function Init(p: Params): State { State(Start(p, false), Start(p, true)) }

  predicate Inv(p: Params, s: State) {
    Pair(p, s.server, s.client) && !s.server.starts && s.client.starts
  }

  lemma StartCounts(p: Params, starts: bool)
    ensures Count(Start(p, starts).recvPending) == p.numQp
    ensures Count(Start(p, starts).sendPending) == if starts then p.numQp else 0
  {
    CountAll(Start(p, starts).recvPending);
    if starts {
      CountAll(Start(p, starts).sendPending);
    } else {
      CountZero(Start(p, starts).sendPending);
    }
  }

  lemma StartIsCore(p: Params, starts: bool)
    requires ValidParams(p)
    ensures Core(p, Start(p, starts)) && Settled(p, Start(p, starts))
  {
    StartCounts(p, starts);
  }

  lemma StartsBalance(p: Params)
    requires ValidParams(p)
    ensures var s := Init(p);
            && Balls(p, s.server, s.client)
            && Conserved(p, s.server, s.client) && Conserved(p, s.client, s.server)
  {
    var s := Init(p);
    StartCounts(p, false);
    StartCounts(p, true);
    CountAll(Transit(p, s.client, s.server));
    CountZero(Transit(p, s.server, s.client));
  }

  lemma InitInv(p: Params)
    requires ValidParams(p)
    ensures Inv(p, Init(p))
  {
    StartIsCore(p, false);
    StartIsCore(p, true);
    StartsBalance(p);
  }

  lemma SideKeeps(p: Params, x: Side, y: Side, l: Label)
    requires Pair(p, x, y) && SideEnabled(p, x, y, l)
    ensures var (x', y') := SideStep(p, x, y, l); Pair(p, x', y') && x'.starts == x.starts && y'.starts == y.starts
  {
    match l
    case PollL(_, n) => PollKeeps(p, x, y, n);
    case ProcessL(_) => ProcessKeeps(p, x, y);
    case LeaveL(_) => LeaveKeeps(p, x, y);
    case DeliverL(_, q) => DeliverKeeps(p, x, y, q);
    case CompleteL(_, q) => CompleteKeeps(p, x, y, q);
  }

  lemma StepKeeps(p: Params, s: State, l: Label)
    requires Inv(p, s) && Enabled(p, s, l)
    ensures Inv(p, Step(p, s, l))
  {
    PairSymmetric(p, s.server, s.client);
    if l.client {
      SideKeeps(p, s.client, s.server, l);
      var t := Step(p, s, l);
      PairSymmetric(p, t.client, t.server);
    } else {
      SideKeeps(p, s.server, s.client, l);
    }
  }

  // ---------- Every run ends ----------

  function Energy(out: seq<Flight>): nat {
    if out == [] then 0
    else Weight(out[0]) + Energy(out[1..])
  }

  function Weight(f: Flight): nat { match f case Flying => 6 case Acked => 3 case Idle => 0 }

  lemma {:induction false} EnergyUpdate(out: seq<Flight>, q: nat, f: Flight)
    requires q < |out|
    ensures Energy(out[q := f]) + Weight(out[q]) == Energy(out) + Weight(f)
  {
    if q == 0 {
      assert out[q := f][1..] == out[1..];
    } else {
      assert out[q := f][1..] == out[1..][q - 1 := f];
      EnergyUpdate(out[1..], q - 1, f);
    }
  }

  /** What a side has still to do. */
  function Left(p: Params, x: Side): int {
    7 * (p.iters + p.numQp - 1 - x.posts) + Energy(x.out) + 2 * |x.cq| + |x.batch| + Bit(!x.done)
  }

  lemma ProcessPays(p: Params, x: Side, y: Side)
    requires Pair(p, x, y) && CanProcess(p, x)
    ensures Left(p, Process(p, x)) < Left(p, x)
  {
    var w := x.batch[0];
    var t := Take(p, Popped(x), w);
    if w.Sent? {
      assert SendFits(x, w.qp) && w in Queue(x);
      CountUpdate(x.sendPending, w.qp, false);
    }
    if Due(p, t, w.qp) {
      PostsIntoFreeSlot(p, x, y);
      CountUpdate(t.sendPending, w.qp, true);
      EnergyUpdate(t.out, w.qp, Flying);
    }
  }

  lemma SidePays(p: Params, x: Side, y: Side, l: Label)
    requires Pair(p, x, y) && SideEnabled(p, x, y, l)
    ensures var (x', y') := SideStep(p, x, y, l); Left(p, x') + Left(p, y') < Left(p, x) + Left(p, y)
  {
    match l
    case ProcessL(_) => ProcessPays(p, x, y);
    case DeliverL(_, q) => EnergyUpdate(x.out, q, Acked);
    case CompleteL(_, q) => EnergyUpdate(x.out, q, Idle);
    case _ =>
  }

  function Measure(p: Params, s: State): int { Left(p, s.server) + Left(p, s.client) }

  predicate Run(p: Params, s: State, ls: seq<Label>)
    decreases |ls|
  {
    ls == [] || (Enabled(p, s, ls[0]) && Run(p, Step(p, s, ls[0]), ls[1..]))
  }

  function After(p: Params, s: State, ls: seq<Label>): State
    requires Run(p, s, ls)
    decreases |ls|
  {
    if ls == [] then s else After(p, Step(p, s, ls[0]), ls[1..])
  }

  lemma {:induction false} EveryRun(p: Params, s: State, ls: seq<Label>)
    requires Inv(p, s) && Run(p, s, ls)
    ensures Inv(p, After(p, s, ls))
    ensures Measure(p, After(p, s, ls)) + |ls| <= Measure(p, s)
    decreases |ls|
  {
    if ls != [] {
      StepKeeps(p, s, ls[0]);
      PairSymmetric(p, s.server, s.client);
      if ls[0].client {
        SidePays(p, s.client, s.server, ls[0]);
      } else {
        SidePays(p, s.server, s.client, ls[0]);
      }
      EveryRun(p, Step(p, s, ls[0]), ls[1..]);
    }
  }

  // ---------- The receive counter ----------

  /** The counter goes down by one with every receive, from rx_depth to num_qp + 1, and round again. */
  predicate Cycles(p: Params, x: Side) {
    x.routs == if p.numQp < p.rxDepth then p.rxDepth - x.rcnt % (p.rxDepth - p.numQp) else p.rxDepth
  }

  lemma NextInCycle(d: nat, k: nat)
    requires d > 0
    ensures (k + 1) % d == if k % d + 1 == d then 0 else k % d + 1
  {
    var q, r := k / d, k % d;
    assert k == d * q + r;
    if r + 1 == d {
      assert k + 1 == d * (q + 1);
      ModIs(d, k + 1, q + 1, 0);
    } else {
      ModIs(d, k + 1, q, r + 1);
    }
  }

  lemma HandleCycles(p: Params, x: Side, w: Wc)
    requires ValidParams(p) && WellFormed(p, x) && w.qp < p.numQp && Cycles(p, x)
    ensures Cycles(p, Handle(p, x, w))
  {
    if p.numQp < p.rxDepth {
      NextInCycle(p.rxDepth - p.numQp, x.rcnt);
    }
  }

  lemma SideCycles(p: Params, x: Side, y: Side, l: Label)
    requires ValidParams(p) && SideEnabled(p, x, y, l) && Cycles(p, x) && Cycles(p, y)
    ensures var (x', y') := SideStep(p, x, y, l); Cycles(p, x') && Cycles(p, y')
  {
    if l.ProcessL? {
      HandleCycles(p, x.(batch := x.batch[1..]), x.batch[0]);
    }
  }

  lemma {:induction false} EveryRunCycles(p: Params, s: State, ls: seq<Label>)
    requires ValidParams(p) && Run(p, s, ls) && Cycles(p, s.server) && Cycles(p, s.client)
    ensures Cycles(p, After(p, s, ls).server) && Cycles(p, After(p, s, ls).client)
    decreases |ls|
  {
    if ls != [] {
      if ls[0].client {
        SideCycles(p, s.client, s.server, ls[0]);
      } else {
        SideCycles(p, s.server, s.client, ls[0]);
      }
      EveryRunCycles(p, Step(p, s, ls[0]), ls[1..]);
    }
  }

  /** In every state of every run the receives counted as posted are rx_depth less those received since
      the last refill, which comes with every (rx_depth - num_qp)-th receive. */
  lemma ReceivesInEveryState(p: Params, ls: seq<Label>)
    requires ValidParams(p) && Run(p, Init(p), ls)
    ensures var s := After(p, Init(p), ls);
            var d := p.rxDepth - p.numQp;
            && s.server.routs == p.rxDepth - (if d > 0 then s.server.rcnt % d else 0)
            && s.client.routs == p.rxDepth - (if d > 0 then s.client.rcnt % d else 0)
  {
    if p.numQp < p.rxDepth {
      ModIs(p.rxDepth - p.numQp, 0, 0, 0);
    }
    EveryRunCycles(p, Init(p), ls);
  }

  // ---------- No stuck state ----------

  /** Neither side can move, and the fabric holds nothing x sent. */
  predicate Quiet(p: Params, x: Side) {
    && x.batch == []
    && (forall q :: 0 <= q < |x.out| ==> x.out[q].Idle?)
    && (!x.done ==> More(p, x) && x.cq == [])
  }

  /** Nothing x sent is in flight, and no completion of x is unprocessed. */
  predicate Still(x: Side) {
    x.batch == [] && x.cq == [] && forall q :: 0 <= q < |x.out| ==> x.out[q].Idle?
  }

  lemma StillSends(p: Params, x: Side)
    requires Core(p, x) && Still(x)
    ensures Count(x.sendPending) == 0
  {
    forall q | 0 <= q < p.numQp ensures !x.sendPending[q] {
      assert SendFits(x, q);
    }
    CountZero(x.sendPending);
  }

  /** A side with no completion left has received everything the other ever posted. */
  lemma ReceivedAll(p: Params, x: Side, y: Side)
    requires Pair(p, x, y) && x.batch == [] && x.cq == [] && forall q :: 0 <= q < |y.out| ==> y.out[q].Idle?
    ensures x.rcnt == y.posts
  {
    CountZero(Transit(p, y, x));
  }

  lemma HolderAndPeerSentAll(p: Params, x: Side, y: Side)
    requires ValidParams(p) && Pair(p, x, y) && Still(x) && Still(y) && HoldsBall(x, 0)
    ensures x.scnt >= p.iters && y.scnt >= p.iters
  {
    StillSends(p, x);
    StillSends(p, y);
    ReceivedAll(p, x, y);
    assert !Due(p, x, 0) && SendFits(x, 0);
    if forall q :: 0 <= q < p.numQp ==> !x.recvPending[q] {
      CountZero(x.recvPending);
    } else {
      var q :| 0 <= q < p.numQp && x.recvPending[q];
      assert OneBall(x, y, q) && !Due(p, y, q) && SendFits(y, q);
    }
  }

  /** With nothing in flight and nothing unprocessed, both sides meet their exit condition. */
  lemma StillMeansBothMayLeave(p: Params, x: Side, y: Side)
    requires ValidParams(p) && Pair(p, x, y) && Still(x) && Still(y)
    ensures !More(p, x) && !More(p, y)
  {
    PairSymmetric(p, x, y);
    StillSends(p, x);
    StillSends(p, y);
    ReceivedAll(p, x, y);
    ReceivedAll(p, y, x);
    assert OneBall(x, y, 0);
    if HoldsBall(x, 0) {
      HolderAndPeerSentAll(p, x, y);
    } else {
      HolderAndPeerSentAll(p, y, x);
    }
  }

  /** When the other side has left, what it sent is enough. */
  lemma LeftMeansEnough(p: Params, x: Side, y: Side)
    requires Pair(p, x, y) && Still(x) && y.done && forall q :: 0 <= q < |y.out| ==> y.out[q].Idle?
    ensures !More(p, x)
  {
    StillSends(p, x);
    ReceivedAll(p, x, y);
  }

  lemma QuietMeansDone(p: Params, x: Side, y: Side)
    requires ValidParams(p) && Pair(p, x, y) && Quiet(p, x) && Quiet(p, y)
    ensures x.done
  {
    if !x.done && y.done {
      LeftMeansEnough(p, x, y);
    } else if !x.done {
      StillMeansBothMayLeave(p, x, y);
    }
  }

  ghost predicate Stuck(p: Params, s: State) {
    forall l: Label :: !Enabled(p, s, l)
  }

  lemma BatchHead(p: Params, x: Side)
    requires Core(p, x)
    ensures x.batch == [] || CanProcess(p, x)
  {
    assert x.batch == [] || Queue(x)[0] == x.batch[0];
  }

  lemma StuckSideIsQuiet(p: Params, s: State, client: bool)
    requires ValidParams(p) && Inv(p, s) && Stuck(p, s)
    ensures Quiet(p, if client then s.client else s.server)
  {
    PairSymmetric(p, s.server, s.client);
    var x, y := if client then s.client else s.server, if client then s.server else s.client;
    assert !Enabled(p, s, ProcessL(client)) && !Enabled(p, s, LeaveL(client)) && !Enabled(p, s, PollL(client, 1));
    BatchHead(p, x);
    forall q | 0 <= q < |x.out| ensures x.out[q].Idle? {
      assert !Enabled(p, s, DeliverL(client, q)) && !Enabled(p, s, CompleteL(client, q));
      if FlyingOn(x, q) {
        ReceivesCoverTheWire(p, x, y, q);
      }
    }
  }

  lemma StuckMeansDone(p: Params, s: State)
    requires ValidParams(p) && Inv(p, s) && Stuck(p, s)
    ensures s.server.done && s.client.done
  {
    PairSymmetric(p, s.server, s.client);
    StuckSideIsQuiet(p, s, true);
    StuckSideIsQuiet(p, s, false);
    QuietMeansDone(p, s.server, s.client);
    QuietMeansDone(p, s.client, s.server);
  }

  /** The theorem: whatever the completion order and the batching, a run is finite; at every
      moment the shared receive queue covers the wire and the completion queue has room; when no
      step is left both sides have left their loops, each having posted at least iters and at
      most iters + numQp - 1 sends. */
  lemma EveryMaximalRunFinishes(p: Params, ls: seq<Label>)
    requires ValidParams(p) && Run(p, Init(p), ls)
    ensures |ls| <= 14 * p.iters + 13 * p.numQp - 12
    ensures var s := After(p, Init(p), ls);
            && |Queue(s.server)| <= p.rxDepth + p.numQp && |Queue(s.client)| <= p.rxDepth + p.numQp
            && (forall q :: FlyingOn(s.client, q) ==> Receives(s.server.batch + s.server.cq) < s.server.routs)
            && (forall q :: FlyingOn(s.server, q) ==> Receives(s.client.batch + s.client.cq) < s.client.routs)
            && s.server.posts < p.iters + p.numQp && s.client.posts < p.iters + p.numQp
            && (Stuck(p, s) ==>
                  s.server.done && s.client.done && s.server.posts >= p.iters && s.client.posts >= p.iters)
  {
    var s := After(p, Init(p), ls);
    InitInv(p);
    InitMeasure(p);
    EveryRun(p, Init(p), ls);
    PairSymmetric(p, s.server, s.client);
    CompletionsFit(p, s.server);
    CompletionsFit(p, s.client);
    forall q: nat | FlyingOn(s.client, q) ensures Receives(s.server.batch + s.server.cq) < s.server.routs {
      ReceivesCoverTheWire(p, s.client, s.server, q);
    }
    forall q: nat | FlyingOn(s.server, q) ensures Receives(s.client.batch + s.client.cq) < s.client.routs {
      ReceivesCoverTheWire(p, s.server, s.client, q);
    }
    if Stuck(p, s) {
      StuckMeansDone(p, s);
    }
  }

  lemma {:induction false} EnergyOfAll(out: seq<Flight>, f: Flight)
    requires forall q :: 0 <= q < |out| ==> out[q] == f
    ensures Energy(out) == Weight(f) * |out|
  {
    if out != [] { EnergyOfAll(out[1..], f); }
  }

  lemma InitMeasure(p: Params)
    requires ValidParams(p)
    ensures Measure(p, Init(p)) == 14 * p.iters + 13 * p.numQp - 12
  {
    StartCounts(p, false);
    StartCounts(p, true);
    EnergyOfAll(Start(p, true).out, Flying);
    EnergyOfAll(Start(p, false).out, Idle);
  }
}
