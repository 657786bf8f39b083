/** One side of the completion-driven ping-pong loops: N queue pairs, one shared receive queue,
    one completion queue, and a mask of awaited completions per queue pair. */
module PingPong {

  datatype Params = Params(numQp: nat, rxDepth: nat, iters: nat)

  /** What the options must satisfy: at least one receive per queue pair is checked at start. */
  predicate ValidParams(p: Params) {
    1 <= p.numQp <= p.rxDepth && 1 <= p.iters
  }

  datatype Wc = Sent(qp: nat) | Received(qp: nat)

  /** The one send a queue pair can hold: posted, then accepted by the peer, then completed. */
  datatype Flight = Idle | Flying | Acked

  /** `starts` is the client, which opens with one send per queue pair. `posts` is history: the sends
      posted. `cq` is the completion queue, `batch` what was polled and not yet processed. */
  datatype Side = Side(
    starts: bool,
    routs: int, scnt: nat, rcnt: nat, posts: nat,
    sendPending: seq<bool>, recvPending: seq<bool>,
    out: seq<Flight>,
    cq: seq<Wc>, batch: seq<Wc>, done: bool)

  function Start(p: Params, starts: bool): Side {
    Side(starts, p.rxDepth, 0, 0, if starts then p.numQp else 0,
         seq(p.numQp, _ => starts), seq(p.numQp, _ => true),
         seq(p.numQp, _ => if starts then Flying else Idle),
         [], [], false)
  }

  /** Completions generated and not yet processed. */
  function Queue(x: Side): seq<Wc> { x.batch + x.cq }

  function Refill(p: Params, routs: int): int {
    if routs <= p.numQp then p.rxDepth else routs
  }

  predicate WellFormed(p: Params, x: Side) {
    |x.sendPending| == |x.recvPending| == |x.out| == p.numQp
  }

  predicate More(p: Params, x: Side) { x.rcnt < p.iters || x.scnt < p.iters }

  /** Counting one completion, and clearing its bit. */
  function Take(p: Params, x: Side, w: Wc): Side
    requires WellFormed(p, x) && w.qp < p.numQp
  {
    match w
    case Sent(q) => x.(scnt := x.scnt + 1, sendPending := x.sendPending[q := false])
    case Received(q) =>
      x.(routs := Refill(p, x.routs - 1), rcnt := x.rcnt + 1, recvPending := x.recvPending[q := false])
  }

  predicate Due(p: Params, x: Side, q: nat)
    requires WellFormed(p, x) && q < p.numQp
  {
    x.scnt < p.iters && !x.sendPending[q] && !x.recvPending[q]
  }

  /** Posting the next send on a queue pair, if one is due. */
  function Settle(p: Params, x: Side, q: nat): Side
    requires WellFormed(p, x) && q < p.numQp
  {
    if Due(p, x, q) then
      x.(sendPending := x.sendPending[q := true], recvPending := x.recvPending[q := true],
         out := x.out[q := Flying], posts := x.posts + 1)
    else x
  }

  function Handle(p: Params, x: Side, w: Wc): Side
    requires WellFormed(p, x) && w.qp < p.numQp
  {
    Settle(p, Take(p, x, w), w.qp)
  }

  // ---------- The steps of a side ----------

  predicate CanPoll(p: Params, x: Side, n: nat) {
    !x.done && x.batch == [] && More(p, x) && 1 <= n <= |x.cq| && n <= p.numQp + p.rxDepth
  }

  function Poll(x: Side, n: nat): Side
    requires n <= |x.cq|
  {
    x.(batch := x.cq[..n], cq := x.cq[n..])
  }

  predicate CanProcess(p: Params, x: Side) {
    x.batch != [] && WellFormed(p, x) && x.batch[0].qp < p.numQp
  }

  function Process(p: Params, x: Side): Side
    requires CanProcess(p, x)
  {
    Handle(p, x.(batch := x.batch[1..]), x.batch[0])
  }

  predicate CanLeave(p: Params, x: Side) { !x.done && x.batch == [] && !More(p, x) }

  function Receives(ws: seq<Wc>): nat {
    if ws == [] then 0 else (if ws[0].Received? then 1 else 0) + Receives(ws[1..])
  }

  /** The peer's adapter accepts what x sent on q: it consumes one receive of y, and of those posted there
      must be one that no message has consumed. */
  predicate CanDeliver(x: Side, y: Side, q: nat) {
    q < |x.out| && x.out[q].Flying? && Receives(y.batch + y.cq) < y.routs
  }

  function Accept(x: Side, q: nat): Side
    requires q < |x.out|
  {
    x.(out := x.out[q := Acked])
  }

  function Land(y: Side, q: nat): Side {
    y.(cq := y.cq + [Received(q)])
  }

  predicate CanComplete(x: Side, q: nat) { q < |x.out| && x.out[q].Acked? }

  function Complete(x: Side, q: nat): Side
    requires q < |x.out|
  {
    x.(out := x.out[q := Idle], cq := x.cq + [Sent(q)])
  }

  // ---------- Counting over queue pairs ----------

  function Count(b: seq<bool>): (n: nat)
    ensures n <= |b|
  {
    if b == [] then 0 else (if b[0] then 1 else 0) + Count(b[1..])
  }

  function Bit(b: bool): nat { if b then 1 else 0 }

  lemma {:induction false} CountUpdate(b: seq<bool>, q: nat, v: bool)
    requires q < |b|
    ensures Count(b[q := v]) + Bit(b[q]) == Count(b) + Bit(v)
  {
    if q == 0 {
      assert b[q := v][1..] == b[1..];
    } else {
      assert b[q := v][1..] == b[1..][q - 1 := v];
      CountUpdate(b[1..], q - 1, v);
    }
  }

  lemma {:induction false} CountZero(b: seq<bool>)
    requires forall q :: 0 <= q < |b| ==> !b[q]
    ensures Count(b) == 0
  {
    if b != [] { CountZero(b[1..]); }
  }

  lemma {:induction false} CountAll(b: seq<bool>)
    requires forall q :: 0 <= q < |b| ==> b[q]
    ensures Count(b) == |b|
  {
    if b != [] { CountAll(b[1..]); }
  }

  lemma {:induction false} CountSome(b: seq<bool>, q: nat)
    requires q < |b| && !b[q]
    ensures Count(b) < |b|
  {
    if q > 0 { CountSome(b[1..], q - 1); }
  }

  // ---------- Remainders ----------

  lemma ModIs(n: nat, x: nat, d: nat, r: nat)
    requires n > 0 && r < n && x == n * d + r
    ensures x % n == r
  {
    var e := x / n - d;
    assert x == n * (x / n) + x % n;
    assert n * e == r - x % n by { assert n * (x / n) - n * d == n * e; }
    MultipleIsFar(n, e);
  }

  lemma MultipleIsFar(n: nat, e: int)
    ensures e > 0 ==> n * e >= n
    ensures e < 0 ==> n * e + n <= 0
  {}
}
