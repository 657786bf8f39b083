/** The part of the verbs interface the rendezvous benchmarks rely on, seen from two
    connected ranks: work requests, completions, the shared receive queue with its
    credits, and the registered memory both the program and the adapter touch. */
module Verbs {

  import opened Bytes

  // DeviceConfig defaults.
  const MAX_RECV_NUM := 8
  const MIN_RECV_NUM := 8
  const MAX_CQE_NUM := MAX_RECV_NUM + 1

  /** A control message line of registered memory, one slot a message field. */
  datatype Line = Line(w0: nat, w1: nat, w2: nat, w3: nat)

  datatype LineId = RtsLine | RtrLine | FinLine

  /** What an incoming message of n fields leaves in a line it lands in. */
  function Land(old_: Line, msg: Line, n: nat): Line {
    Line(if n > 0 then msg.w0 else old_.w0,
         if n > 1 then msg.w1 else old_.w1,
         if n > 2 then msg.w2 else old_.w2,
         if n > 3 then msg.w3 else old_.w3)
  }

  /** Work requests. A SEND names the line it gathers from: the adapter reads the line
      when the message is delivered, not when it is posted. */
  datatype Wqe =
    | SendImm(src: LineId, fields: nat, imm: nat)
    | RdmaWrite(laddr: nat, size: nat, raddr: nat, rkey: nat, wrid: nat)
    | RdmaWriteImm(laddr: nat, size: nat, raddr: nat, rkey: nat, imm: nat)
    | RdmaRead(laddr: nat, size: nat, raddr: nat, rkey: nat, wrid: nat)

  datatype Opcode = OpSend | OpWrite | OpRead | OpRecv | OpRecvWithImm

  /** A completion. `snap` is a history field: the message as it was delivered. */
  datatype Wc = Wc(opcode: Opcode, imm: nat, wrid: nat, snap: Line)

  /** Rendezvous contexts on a rank's heap; `link` is the peer's context where one is kept. */
  datatype Ctx = SendCtx(buf: nat, size: nat, link: nat) | RecvCtx(buf: nat, size: nat, link: nat)

  /** The send side of a rank. No rendezvous program posts a request before it has polled the
      completion of the one before, so one place holds the send queue, the acknowledged
      request and the send completion queue; posting into a taken place is a failure. */
  datatype Slot = Idle | Queued(w: Wqe) | Accepted(w: Wqe) | Finished(wc: Wc)

  /** Where a rank is inside the body of one iteration. */
  datatype Pc =
    | Stage | Announce | AwaitRtsSent            // sending half
    | AwaitRtr | GotRtr | AwaitWritten | GotWritten
    | AwaitRts | GotRts | AwaitRtrSent           // receiving half
    | AwaitRead | GotRead | AwaitImm | GotImm | CheckBuf
    | AwaitFin | GotFin | AwaitFinSent           // either half, by protocol
    | Done

  /** One rank: its program counter, its registered memory, its context heap, its queues.
      `log` and `got` are history: payloads staged, payloads seen where the buffer is checked. */
  datatype Node = Node(
    rank: nat, round: nat, second: bool, pc: Pc,
    rts: Line, rtr: Line, fin: Line, ctl: Line,
    sendAddr: nat, recvAddr: nat, rkey: nat,
    sendBuf: seq<Byte>, recvBuf: seq<Byte>,
    heap: map<nat, Ctx>, archive: seq<nat>,
    slot: Slot, rcq: seq<Wc>,
    posted: int, wc: Wc, ok: bool,
    log: seq<seq<Byte>>, got: seq<seq<Byte>>)

  /** The message sizes both ranks iterate over, and the capacity of the data buffers. */
  datatype Config = Config(sched: seq<nat>, maxSize: nat)

  predicate ValidConfig(c: Config) {
    forall i :: 0 <= i < |c.sched| ==> c.sched[i] <= c.maxSize
  }

  /** An iteration has two halves: rank 0 sends in the first one, rank 1 in the second. */
  predicate Sending(a: Node) { a.second <==> a.rank != 0 }

  function Size(c: Config, round: nat): nat {
    if round < |c.sched| then c.sched[round] else 0
  }

  function Begin(c: Config, a: Node): Node {
    a.(pc := if a.round >= |c.sched| then Done
             else if Sending(a) then Stage
             else AwaitRts)
  }

  /** On to the next half, or to the first half of the next iteration. */
  function Advance(c: Config, a: Node): Node {
    Begin(c, a.(second := !a.second, round := if a.second then a.round + 1 else a.round))
  }

  function LineOf(a: Node, id: LineId): Line {
    match id
    case RtsLine => a.rts
    case RtrLine => a.rtr
    case FinLine => a.fin
  }

  function Post(a: Node, w: Wqe): Node {
    a.(slot := Queued(w), ok := a.ok && a.slot.Idle?)
  }

  /** checkAndPostRecvs: the receive credit after the check. */
  function Replenished(posted: int): int {
    if posted < MIN_RECV_NUM && posted < MAX_RECV_NUM then MAX_RECV_NUM else posted
  }

  /** pollRecvCQ: take the oldest receive completion and give its credit back. */
  function PollRecv(a: Node): Node
    requires |a.rcq| > 0
  {
    a.(wc := a.rcq[0], rcq := a.rcq[1..], posted := Replenished(a.posted - 1))
  }

  function PollSend(a: Node): Node
    requires a.slot.Finished?
  {
    a.(wc := a.slot.wc, slot := Idle)
  }

  /** Poll the send queue and check what completed. */
  function PollSendOf(a: Node, op: Opcode): Node
    requires a.slot.Finished?
  {
    var p := PollSend(a);
    p.(ok := p.ok && p.wc.opcode == op)
  }

  /** Poll the receive queue for a message. */
  function PollRecvOf(a: Node): Node
    requires |a.rcq| > 0
  {
    var p := PollRecv(a);
    p.(ok := p.ok && p.wc.opcode == OpRecv)
  }

  /** Stage a round's payload at the front of the send buffer. */
  function WriteBuffer(a: Node, data: seq<Byte>): Node
    requires |data| <= |a.sendBuf|
  {
    a.(sendBuf := Overlay(a.sendBuf, data), log := a.log + [data])
  }

  /** Look at what arrived at the front of the receive buffer. */
  function CheckBuffer(a: Node, size: nat): Node
    requires size <= |a.recvBuf|
  {
    a.(got := a.got + [a.recvBuf[..size]])
  }

  predicate NeedsCredit(w: Wqe) { w.SendImm? || w.RdmaWriteImm? }

  /** The adapter can deliver a's request: a message needs a posted receive. */
  predicate CanDeliver(a: Node, b: Node) {
    && a.slot.Queued?
    && (NeedsCredit(a.slot.w) ==> |b.rcq| < b.posted)
  }

  function Overlay(buf: seq<Byte>, data: seq<Byte>): seq<Byte>
    requires |data| <= |buf|
  {
    data + buf[|data|..]
  }

  /** Deliver a's request to b. The requester is acknowledged
      later, so its completion never precedes the effect at the responder. */
  function Deliver(a: Node, b: Node): (Node, Node)
    requires CanDeliver(a, b)
  {
    var w := a.slot.w;
    var a' := a.(slot := Accepted(w));
    match w
    case SendImm(src, fields, imm) =>
      var m := LineOf(a, src);
      (a', b.(ctl := Land(b.ctl, m, fields), rcq := b.rcq + [Wc(OpRecv, imm, 0, m)]))
    case RdmaWrite(laddr, size, raddr, rkey, _) =>
      if laddr == a.sendAddr && raddr == b.recvAddr && rkey == b.rkey && size <= |a.sendBuf| && size <= |b.recvBuf| then
        (a', b.(recvBuf := Overlay(b.recvBuf, a.sendBuf[..size])))
      else
        (a'.(ok := false), b)
    case RdmaWriteImm(laddr, size, raddr, rkey, imm) =>
      if laddr == a.sendAddr && raddr == b.recvAddr && rkey == b.rkey && size <= |a.sendBuf| && size <= |b.recvBuf| then
        (a', b.(recvBuf := Overlay(b.recvBuf, a.sendBuf[..size]),
                rcq := b.rcq + [Wc(OpRecvWithImm, imm, 0, Line(0, 0, 0, 0))]))
      else
        (a'.(ok := false), b)
    case RdmaRead(laddr, size, raddr, rkey, _) =>
      if laddr == a.recvAddr && raddr == b.sendAddr && rkey == b.rkey && size <= |b.sendBuf| && size <= |a.recvBuf| then
        (a'.(recvBuf := Overlay(a.recvBuf, b.sendBuf[..size])), b)
      else
        (a'.(ok := false), b)
  }

  function Completion(w: Wqe): Wc {
    match w
    case SendImm(_, _, _) => Wc(OpSend, 0, 0, Line(0, 0, 0, 0))
    case RdmaWrite(_, _, _, _, id) => Wc(OpWrite, 0, id, Line(0, 0, 0, 0))
    case RdmaWriteImm(_, _, _, _, _) => Wc(OpWrite, 0, 0, Line(0, 0, 0, 0))
    case RdmaRead(_, _, _, _, id) => Wc(OpRead, 0, id, Line(0, 0, 0, 0))
  }

  /** The adapter refuses an RDMA request exactly when the address, the key or the size is not that of the
      peer's buffer; a message it never refuses. */
  lemma Refusals(a: Node, b: Node)
    requires CanDeliver(a, b)
    ensures var (a', b') := Deliver(a, b);
            && b'.ok == b.ok
            && a'.ok == (
                 && a.ok
                 && match a.slot.w
                    case SendImm(_, _, _) => true
                    case RdmaWrite(l, size, r, key, _) =>
                      l == a.sendAddr && r == b.recvAddr && key == b.rkey && size <= |a.sendBuf| && size <= |b.recvBuf|
                    case RdmaWriteImm(l, size, r, key, _) =>
                      l == a.sendAddr && r == b.recvAddr && key == b.rkey && size <= |a.sendBuf| && size <= |b.recvBuf|
                    case RdmaRead(l, size, r, key, _) =>
                      l == a.recvAddr && r == b.sendAddr && key == b.rkey && size <= |b.sendBuf| && size <= |a.recvBuf|)
  {}

  function Words(l: Line): seq<nat> { [l.w0, l.w1, l.w2, l.w3] }

  /** What a delivery changes: a message of n fields puts its n words over the first ones of the peer's line
      and gives one completion with its immediate; an RDMA request that is not refused copies its bytes over
      the first ones of the buffer. */
  lemma Delivered(a: Node, b: Node)
    requires CanDeliver(a, b)
    ensures var (a', b') := Deliver(a, b);
            match a.slot.w
            case SendImm(src, fields, imm) =>
              var n := if fields < 4 then fields else 4;
              && Words(b'.ctl) == Words(LineOf(a, src))[..n] + Words(b.ctl)[n..]
              && b'.rcq == b.rcq + [Wc(OpRecv, imm, 0, LineOf(a, src))]
              && a'.recvBuf == a.recvBuf && b'.recvBuf == b.recvBuf
            case RdmaWrite(_, size, _, _, _) =>
              && b'.ctl == b.ctl && b'.rcq == b.rcq && a'.recvBuf == a.recvBuf
              && (a.ok && a'.ok ==> b'.recvBuf == a.sendBuf[..size] + b.recvBuf[size..])
            case RdmaWriteImm(_, size, _, _, imm) =>
              && b'.ctl == b.ctl && a'.recvBuf == a.recvBuf
              && (a.ok && a'.ok ==>
                    && b'.recvBuf == a.sendBuf[..size] + b.recvBuf[size..]
                    && b'.rcq == b.rcq + [Wc(OpRecvWithImm, imm, 0, Line(0, 0, 0, 0))])
            case RdmaRead(_, size, _, _, _) =>
              && b' == b && (a.ok && a'.ok ==> a'.recvBuf == b.sendBuf[..size] + a.recvBuf[size..])
  {
    if a.slot.w.SendImm? {
      LandsInWords(b.ctl, LineOf(a, a.slot.w.src), a.slot.w.fields);
    }
  }

  /** Nothing else changes but that the request is accepted, and how. */
  lemma DeliveredOnly(a: Node, b: Node)
    requires CanDeliver(a, b)
    ensures var (a', b') := Deliver(a, b);
            && a' == a.(slot := Accepted(a.slot.w), ok := a'.ok, recvBuf := a'.recvBuf)
            && b' == b.(ctl := b'.ctl, rcq := b'.rcq, recvBuf := b'.recvBuf)
  {}

  lemma LandsInWords(old_: Line, msg: Line, fields: nat)
    ensures var n := if fields < 4 then fields else 4;
            Words(Land(old_, msg, fields)) == Words(msg)[..n] + Words(old_)[n..]
  {}

  /** The acknowledged request reaches the send completion queue. */
  function Complete(a: Node): Node
    requires a.slot.Accepted?
  {
    a.(slot := Finished(Completion(a.slot.w)))
  }

  /** The one request a waits for: posted, accepted or completed. */
  predicate Pending(a: Node, w: Wqe) {
    a.slot == Queued(w) || a.slot == Accepted(w) || a.slot == Finished(Completion(w))
  }

  lemma SizeFits(c: Config, round: nat)
    requires ValidConfig(c)
    ensures Size(c, round) <= c.maxSize
  {}

  /** A rank as run() sets it up, before its first turn. */
  predicate Fresh(c: Config, a: Node) {
    && a.rank < 2
    && a.round == 0 && !a.second
    && a == Begin(c, a)
    && |a.sendBuf| == |a.recvBuf| == c.maxSize
    && a.heap == map[]
    && a.slot.Idle? && a.rcq == []
    && a.posted == MAX_RECV_NUM
    && a.ok
    && a.log == [] && a.got == []
  }

  /** Payloads a rank has staged, and received, in the halves it has finished. */
  function SendsDone(a: Node): nat { a.round + if a.second && a.rank == 0 then 1 else 0 }
  function RecvsDone(a: Node): nat { a.round + if a.second && a.rank != 0 then 1 else 0 }

  /** Two ranks in the same half of the same iteration. */
  predicate SameHalf(a: Node, b: Node) { a.round == b.round && a.second == b.second }

  /** How far from the end of its half a rank is, in units a step takes more than one of. */
  function Rest(pc: Pc): nat {
    match pc
    case Stage => 27
    case Announce => 24
    case AwaitRtsSent => 21
    case AwaitRtr => 18
    case GotRtr => 15
    case AwaitWritten => 12
    case GotWritten => 11
    case AwaitRts => 27
    case GotRts => 24
    case AwaitRtrSent => 21
    case AwaitRead => 21
    case GotRead => 20
    case AwaitImm => 18
    case GotImm => 15
    case AwaitFin => 18
    case GotFin => 15
    case AwaitFinSent => 8
    case CheckBuf => 3
    case Done => 0
  }

  function Weight(w: Slot): nat {
    match w
    case Queued(_) => 2
    case Accepted(_) => 1
    case _ => 0
  }

  /** Work left for one rank. */
  function Left(c: Config, a: Node): int {
    60 * (|c.sched| - a.round) - (if a.second then 30 else 0) + Rest(a.pc) + Weight(a.slot)
  }

  lemma DeliverPays(c: Config, a: Node, b: Node)
    requires CanDeliver(a, b)
    ensures var (a', b') := Deliver(a, b);
            Left(c, a') < Left(c, a) && Left(c, b') == Left(c, b)
  {}

  datatype Label = Cpu(r: nat, addr: nat, data: seq<Byte>) | Deliver_(r: nat) | Complete_(r: nat)
}
