/** The read rendezvous: one rank's program, RTS then RDMA read then FIN, and the invariant
    two ranks running it keep. */
module ReadProgram {
  import opened Bytes
  import opened Verbs

  const MSG_RTS := 0
  const MSG_FIN := 1
  const RTS_FIELDS := 4
  const FIN_FIELDS := 1

  // ---------- What each handler does ----------

  function PostRts(a: Node, addr: nat, size: nat): Node {
    Post(a.(heap := a.heap[addr := SendCtx(a.sendAddr, size, 0)],
            rts := Line(addr, a.sendAddr, size, a.rkey)),
         SendImm(RtsLine, RTS_FIELDS, MSG_RTS))
  }

  function HandleRts(a: Node, addr: nat, size: nat): Node {
    Post(a.(ok := a.ok && a.wc.opcode == OpRecv && a.wc.imm == MSG_RTS && a.ctl.w2 <= size,
            heap := a.heap[addr := RecvCtx(a.recvAddr, size, a.ctl.w0)]),
         RdmaRead(a.recvAddr, size, a.ctl.w1, a.ctl.w3, addr))
  }

  function HandleReadCompletion(a: Node): Node {
    var p := a.wc.wrid;
    Post(a.(ok := a.ok && a.wc.opcode == OpRead && p in a.heap && a.heap[p].RecvCtx?,
            fin := Line(if p in a.heap then a.heap[p].link else 0, a.fin.w1, a.fin.w2, a.fin.w3),
            heap := a.heap - {p}),
         SendImm(FinLine, FIN_FIELDS, MSG_FIN))
  }

  /** Frees the context named by the rank's own rtsMsg, not the one the FIN names. */
  function HandleFin(a: Node): Node {
    a.(ok := a.ok && a.wc.imm == MSG_FIN && a.rts.w0 in a.heap && a.heap[a.rts.w0].SendCtx?,
       heap := a.heap - {a.rts.w0})
  }

  // ---------- One rank's program ----------

  predicate CpuEnabled(c: Config, a: Node, addr: nat, data: seq<Byte>) {
    match a.pc
    case Stage => |data| == Size(c, a.round) && |data| <= |a.sendBuf|
    case Announce => addr > 0 && addr !in a.heap
    case AwaitRtsSent => a.slot.Finished?
    case AwaitFin => |a.rcq| > 0
    case GotFin => true
    case AwaitRts => |a.rcq| > 0
    case GotRts => addr > 0 && addr !in a.heap
    case AwaitRead => a.slot.Finished?
    case GotRead => true
    case AwaitFinSent => a.slot.Finished?
    case CheckBuf => Size(c, a.round) <= |a.recvBuf|
    case _ => false
  }

  function CpuStep(c: Config, a: Node, addr: nat, data: seq<Byte>): Node
    requires CpuEnabled(c, a, addr, data)
  {
    var size := Size(c, a.round);
    match a.pc
    case Stage => WriteBuffer(a, data).(pc := Announce)
    case Announce => PostRts(a, addr, size).(pc := AwaitRtsSent)
    case AwaitRtsSent => PollSendOf(a, OpSend).(pc := AwaitFin)
    case AwaitFin => PollRecvOf(a).(pc := GotFin)
    case GotFin => Advance(c, HandleFin(a))
    case AwaitRts => PollRecvOf(a).(pc := GotRts)
    case GotRts => HandleRts(a, addr, size).(pc := AwaitRead)
    case AwaitRead => PollSend(a).(pc := GotRead)
    case GotRead => HandleReadCompletion(a).(pc := AwaitFinSent)
    case AwaitFinSent => PollSendOf(a, OpSend).(pc := CheckBuf)
    case CheckBuf => Advance(c, CheckBuffer(a, size))
  }

  /** The assertions of the program, statement by statement: a step fails exactly where one of them does, or
      where a request is posted before the completion of the one before was polled. */
  lemma Assertions(c: Config, a: Node, addr: nat, data: seq<Byte>)
    requires CpuEnabled(c, a, addr, data)
    ensures CpuStep(c, a, addr, data).ok == (
              && a.ok
              && match a.pc
                 case Announce => a.slot.Idle?
                 case AwaitRtsSent => a.slot.wc.opcode == OpSend
                 case AwaitFin => a.rcq[0].opcode == OpRecv
                 case GotFin => a.wc.imm == 1 && a.rts.w0 in a.heap && a.heap[a.rts.w0].SendCtx?
                 case AwaitRts => a.rcq[0].opcode == OpRecv
                 case GotRts => a.slot.Idle? && a.wc.opcode == OpRecv && a.wc.imm == 0 && a.ctl.w2 <= Size(c, a.round)
                 case GotRead => && a.slot.Idle? && a.wc.opcode == OpRead
                                 && a.wc.wrid in a.heap && a.heap[a.wc.wrid].RecvCtx?
                 case AwaitFinSent => a.slot.wc.opcode == OpSend
                 case _ => true)
  {}

  // ---------- First layer: where the ranks are, and how many messages lie between them ----------

  /** Finished halves. */
  function Halves(a: Node): nat { 2 * a.round + if a.second then 1 else 0 }

  /** Messages a has posted: one a half, the RTS or the FIN. */
  function Sent(a: Node): nat {
    Halves(a)
    + if a.pc.AwaitRtsSent? || a.pc.AwaitFin? || a.pc.GotFin? || a.pc.AwaitFinSent? || a.pc.CheckBuf? then 1 else 0
  }

  /** The read is posted, and its completion not handled. */
  predicate Reading(a: Node) { a.pc.AwaitRead? || a.pc.GotRead? }

  /** Messages a has polled: one a half as well. */
  function Polled(a: Node): nat {
    Halves(a) + if a.pc.GotFin? || a.pc.GotRts? || Reading(a) || a.pc.AwaitFinSent? || a.pc.CheckBuf? then 1 else 0
  }

  function Delivered(a: Node): int {
    Sent(a) - if a.slot.Queued? && a.slot.w.SendImm? then 1 else 0
  }

  predicate Control(c: Config, a: Node) {
    && a.ok
    && a.rank < 2
    && a.round <= |c.sched|
    && (a.round == |c.sched| ==> !a.second)
    && (a.pc.Done? <==> a.round == |c.sched|)
    && (if Sending(a)
        then a.pc.Stage? || a.pc.Announce? || a.pc.AwaitRtsSent? || a.pc.AwaitFin? || a.pc.GotFin? || a.pc.Done?
        else a.pc.AwaitRts? || a.pc.GotRts? || Reading(a) || a.pc.AwaitFinSent? || a.pc.CheckBuf? || a.pc.Done?)
    && |a.sendBuf| == c.maxSize && |a.recvBuf| == c.maxSize
    && a.posted == MAX_RECV_NUM
  }

  /** The context the read names, while it is pending and when it has completed. */
  function PendingId(a: Node): nat {
    if a.pc.GotRead? then a.wc.wrid else
    match a.slot
    case Idle => 0
    case Finished(wc) => wc.wrid
    case _ => if a.slot.w.RdmaRead? then a.slot.w.wrid else 0
  }

  function ReadOf(c: Config, a: Node, b: Node): Wqe {
    RdmaRead(a.recvAddr, Size(c, a.round), b.sendAddr, b.rkey, PendingId(a))
  }

  /** The send side of a is busy exactly while its program counter waits for it. */
  predicate SlotFits(c: Config, a: Node, b: Node) {
    match a.pc
    case AwaitRtsSent => Pending(a, SendImm(RtsLine, RTS_FIELDS, MSG_RTS))
    case AwaitFinSent => Pending(a, SendImm(FinLine, FIN_FIELDS, MSG_FIN))
    case AwaitRead => Pending(a, ReadOf(c, a, b))
    case GotRead => a.slot.Idle? && a.wc.opcode == OpRead
    case _ => a.slot.Idle?
  }

  /** The kind of message b polls next. */
  function Next(b: Node): nat {
    match b.pc
    case AwaitRts => MSG_RTS
    case GotFin => MSG_RTS
    case Done => MSG_RTS
    case _ => MSG_FIN
  }

  predicate Inbox(a: Node, b: Node) {
    && |b.rcq| == Delivered(a) - Polled(b)
    && |b.rcq| <= 2
    && (|b.rcq| > 0 ==> b.rcq[0].opcode == OpRecv && b.rcq[0].imm == Next(b))
    && (|b.rcq| > 1 ==> b.rcq[0].imm == MSG_FIN && b.rcq[1].opcode == OpRecv && b.rcq[1].imm == MSG_RTS)
    && (b.pc.GotFin? ==> b.wc.opcode == OpRecv && b.wc.imm == MSG_FIN)
    && (b.pc.GotRts? ==> b.wc.opcode == OpRecv && b.wc.imm == MSG_RTS)
  }

  /** The last message to land in b's receive line is an RTS b has not handled. */
  predicate RtsOpen(b: Node) {
    if |b.rcq| > 0 then b.rcq[|b.rcq| - 1].imm == MSG_RTS else b.pc.GotRts?
  }

  predicate Holding(a: Node) { a.pc.AwaitRtsSent? || a.pc.AwaitFin? || a.pc.GotFin? }

  /** The lines and contexts a's half of the round refers to. */
  predicate Sender(c: Config, a: Node) {
    if Holding(a) then
      && a.rts == Line(a.rts.w0, a.sendAddr, Size(c, a.round), a.rkey)
      && a.heap == map[a.rts.w0 := SendCtx(a.sendAddr, Size(c, a.round), 0)]
    else
      !Reading(a) ==> a.heap == map[]
  }

  predicate Receiver(c: Config, a: Node, b: Node) {
    && (Reading(a) ==>
          a.heap == map[PendingId(a) := RecvCtx(a.recvAddr, Size(c, a.round), b.rts.w0)])
    && (a.pc.AwaitFinSent? && a.slot.Queued? ==> a.fin.w0 == b.rts.w0)
    && (RtsOpen(a) ==> a.ctl == b.rts)
  }

  predicate Core(c: Config, a: Node, b: Node) {
    && ValidConfig(c)
    && a.rank + b.rank == 1
    && Control(c, a) && Control(c, b)
    && SlotFits(c, a, b) && SlotFits(c, b, a)
    && Inbox(a, b) && Inbox(b, a)
    && Sender(c, a) && Sender(c, b)
    && Receiver(c, a, b) && Receiver(c, b, a)
  }

  lemma InitCore(c: Config, a: Node, b: Node)
    requires ValidConfig(c) && Fresh(c, a) && Fresh(c, b) && a.rank + b.rank == 1
    ensures Core(c, a, b)
  {}

  lemma CompleteKeeps(c: Config, a: Node, b: Node)
    requires Core(c, a, b) && a.slot.Accepted?
    ensures Core(c, Complete(a), b)
  {}

  lemma DeliverRtsKeeps(c: Config, a: Node, b: Node)
    requires Core(c, a, b) && CanDeliver(a, b) && a.pc.AwaitRtsSent?
    ensures var (a', b') := Deliver(a, b); Core(c, a', b')
  {
    SizeFits(c, a.round);
  }

  lemma DeliverReadKeeps(c: Config, a: Node, b: Node)
    requires Core(c, a, b) && CanDeliver(a, b) && a.pc.AwaitRead?
    ensures var (a', b') := Deliver(a, b); Core(c, a', b')
  {
    SizeFits(c, a.round);
  }

  lemma DeliverFinKeeps(c: Config, a: Node, b: Node)
    requires Core(c, a, b) && CanDeliver(a, b) && a.pc.AwaitFinSent?
    ensures var (a', b') := Deliver(a, b); Core(c, a', b')
  {
    SizeFits(c, a.round);
  }

  lemma DeliverKeeps(c: Config, a: Node, b: Node)
    requires Core(c, a, b) && CanDeliver(a, b)
    ensures var (a', b') := Deliver(a, b); Core(c, a', b')
  {
    match a.pc
    case AwaitRtsSent => DeliverRtsKeeps(c, a, b);
    case AwaitRead => DeliverReadKeeps(c, a, b);
    case AwaitFinSent => DeliverFinKeeps(c, a, b);
    case _ => assert false;
  }

  lemma StageKeeps(c: Config, a: Node, b: Node, addr: nat, data: seq<Byte>)
    requires Core(c, a, b) && CpuEnabled(c, a, addr, data) && a.pc.Stage?
    ensures Core(c, CpuStep(c, a, addr, data), b)
  {}

  lemma AnnounceKeeps(c: Config, a: Node, b: Node, addr: nat, data: seq<Byte>)
    requires Core(c, a, b) && CpuEnabled(c, a, addr, data) && a.pc.Announce?
    ensures Core(c, CpuStep(c, a, addr, data), b)
  {}

  lemma AwaitRtsSentKeeps(c: Config, a: Node, b: Node, addr: nat, data: seq<Byte>)
    requires Core(c, a, b) && CpuEnabled(c, a, addr, data) && a.pc.AwaitRtsSent?
    ensures Core(c, CpuStep(c, a, addr, data), b)
  {}

  lemma AwaitFinKeeps(c: Config, a: Node, b: Node, addr: nat, data: seq<Byte>)
    requires Core(c, a, b) && CpuEnabled(c, a, addr, data) && a.pc.AwaitFin?
    ensures Core(c, CpuStep(c, a, addr, data), b)
  {}

  lemma GotFinKeeps(c: Config, a: Node, b: Node, addr: nat, data: seq<Byte>)
    requires Core(c, a, b) && CpuEnabled(c, a, addr, data) && a.pc.GotFin?
    ensures Core(c, CpuStep(c, a, addr, data), b)
  {}

  lemma AwaitRtsKeeps(c: Config, a: Node, b: Node, addr: nat, data: seq<Byte>)
    requires Core(c, a, b) && CpuEnabled(c, a, addr, data) && a.pc.AwaitRts?
    ensures Core(c, CpuStep(c, a, addr, data), b)
  {}

  lemma GotRtsKeeps(c: Config, a: Node, b: Node, addr: nat, data: seq<Byte>)
    requires Core(c, a, b) && CpuEnabled(c, a, addr, data) && a.pc.GotRts?
    ensures Core(c, CpuStep(c, a, addr, data), b)
  {}

  lemma AwaitReadKeeps(c: Config, a: Node, b: Node, addr: nat, data: seq<Byte>)
    requires Core(c, a, b) && CpuEnabled(c, a, addr, data) && a.pc.AwaitRead?
    ensures Core(c, CpuStep(c, a, addr, data), b)
  {}

  lemma GotReadKeeps(c: Config, a: Node, b: Node, addr: nat, data: seq<Byte>)
    requires Core(c, a, b) && CpuEnabled(c, a, addr, data) && a.pc.GotRead?
    ensures Core(c, CpuStep(c, a, addr, data), b)
  {}

  lemma CheckBufKeeps(c: Config, a: Node, b: Node, addr: nat, data: seq<Byte>)
    requires Core(c, a, b) && CpuEnabled(c, a, addr, data) && a.pc.CheckBuf?
    ensures Core(c, CpuStep(c, a, addr, data), b)
  {}

  lemma AwaitFinSentKeeps(c: Config, a: Node, b: Node, addr: nat, data: seq<Byte>)
    requires Core(c, a, b) && CpuEnabled(c, a, addr, data) && a.pc.AwaitFinSent?
    ensures Core(c, CpuStep(c, a, addr, data), b)
  {}

  lemma CpuKeeps(c: Config, a: Node, b: Node, addr: nat, data: seq<Byte>)
    requires Core(c, a, b) && CpuEnabled(c, a, addr, data)
    ensures Core(c, CpuStep(c, a, addr, data), b)
  {
    match a.pc
    case Stage => StageKeeps(c, a, b, addr, data);
    case Announce => AnnounceKeeps(c, a, b, addr, data);
    case AwaitRtsSent => AwaitRtsSentKeeps(c, a, b, addr, data);
    case AwaitFin => AwaitFinKeeps(c, a, b, addr, data);
    case GotFin => GotFinKeeps(c, a, b, addr, data);
    case AwaitRts => AwaitRtsKeeps(c, a, b, addr, data);
    case GotRts => GotRtsKeeps(c, a, b, addr, data);
    case AwaitRead => AwaitReadKeeps(c, a, b, addr, data);
    case GotRead => GotReadKeeps(c, a, b, addr, data);
    case AwaitFinSent => AwaitFinSentKeeps(c, a, b, addr, data);
    case CheckBuf => CheckBufKeeps(c, a, b, addr, data);
  }

  // ---------- Second layer: what the messages say ----------

  /** A waiting message still names what it was sent for. */
  predicate Names(a: Node, b: Node, x: Wc) {
    if x.imm == MSG_FIN then x.snap.w0 == b.rts.w0 else x.snap == a.rts
  }

  /** The last message to land in b's receive line is the FIN b still has to handle. */
  predicate FinOpen(b: Node) {
    if |b.rcq| > 0 then b.rcq[|b.rcq| - 1].imm == MSG_FIN else b.pc.GotFin?
  }

  predicate Mail(a: Node, b: Node) {
    && (FinOpen(b) ==> b.ctl.w0 == b.rts.w0)
    && (|b.rcq| > 0 ==> Names(a, b, b.rcq[0]))
    && (|b.rcq| > 1 ==> Names(a, b, b.rcq[1]))
    && (b.pc.GotFin? || b.pc.GotRts? ==> Names(a, b, b.wc))
  }

  lemma MailDeliver(c: Config, a: Node, b: Node)
    requires Core(c, a, b) && CanDeliver(a, b) && Mail(a, b) && Mail(b, a)
    ensures var (a', b') := Deliver(a, b); Mail(a', b') && Mail(b', a')
  {}

  lemma MailOut(c: Config, a: Node, b: Node, addr: nat, data: seq<Byte>)
    requires Core(c, a, b) && CpuEnabled(c, a, addr, data) && Mail(a, b)
    ensures Mail(CpuStep(c, a, addr, data), b)
  {}

  lemma MailInSending(c: Config, a: Node, b: Node, addr: nat, data: seq<Byte>)
    requires Core(c, a, b) && CpuEnabled(c, a, addr, data) && Mail(b, a)
    requires Sending(a) && !a.pc.AwaitFin? && !a.pc.GotFin?
    ensures Mail(b, CpuStep(c, a, addr, data))
  {}

  lemma MailInFin(c: Config, a: Node, b: Node, addr: nat, data: seq<Byte>)
    requires Core(c, a, b) && CpuEnabled(c, a, addr, data) && Mail(b, a) && (a.pc.AwaitFin? || a.pc.GotFin?)
    ensures Mail(b, CpuStep(c, a, addr, data))
  {}

  lemma MailIn(c: Config, a: Node, b: Node, addr: nat, data: seq<Byte>)
    requires Core(c, a, b) && CpuEnabled(c, a, addr, data) && Mail(b, a)
    ensures Mail(b, CpuStep(c, a, addr, data))
  {
    if a.pc.AwaitFin? || a.pc.GotFin? {
      MailInFin(c, a, b, addr, data);
    } else if Sending(a) {
      MailInSending(c, a, b, addr, data);
    }
  }

  // ---------- Third layer: the payloads ----------

  predicate Staged(a: Node) { a.pc.Announce? || Holding(a) }

  predicate History(c: Config, a: Node) {
    && |a.log| == SendsDone(a) + (if Staged(a) then 1 else 0)
    && |a.got| == RecvsDone(a)
    && (Staged(a) ==>
          && |a.log| > 0 && Size(c, a.round) <= |a.sendBuf|
          && a.log[|a.log| - 1] == a.sendBuf[..Size(c, a.round)])
  }

  /** a has read b's payload of this round into its buffer, and has not reported it yet. */
  predicate Fetched(a: Node) {
    (a.pc.AwaitRead? && !a.slot.Queued?) || a.pc.GotRead? || a.pc.AwaitFinSent? || a.pc.CheckBuf?
  }

  predicate Payload(c: Config, a: Node, b: Node) {
    && a.got <= b.log
    && (Fetched(a) ==>
          && |a.got| < |b.log|
          && Size(c, a.round) <= |a.recvBuf|
          && a.recvBuf[..Size(c, a.round)] == b.log[|a.got|])
  }

  predicate Data(c: Config, a: Node, b: Node) {
    History(c, a) && History(c, b) && Payload(c, a, b) && Payload(c, b, a)
  }

  /** While a is between the RTS and its FIN, b sits in the same round, its payload staged. */
  lemma PeerHolds(c: Config, a: Node, b: Node)
    requires Core(c, a, b)
    requires a.pc.GotRts? || Reading(a) || (a.pc.AwaitFinSent? && a.slot.Queued?)
    ensures SameHalf(a, b) && (b.pc.AwaitRtsSent? || b.pc.AwaitFin?)
    ensures Sending(b) && !Sending(a) && !b.slot.Queued?
  {}

  lemma DataDeliver(c: Config, a: Node, b: Node)
    requires Core(c, a, b) && CanDeliver(a, b) && Data(c, a, b)
    ensures var (a', b') := Deliver(a, b); Data(c, a', b')
  {
    SizeFits(c, a.round);
    if a.pc.AwaitRead? {
      PeerHolds(c, a, b);
      var (a', b') := Deliver(a, b);
      assert a'.recvBuf[..Size(c, a.round)] == b.sendBuf[..Size(c, a.round)];
      assert |a.got| == |b.log| - 1;
    }
  }

  lemma DataStage(c: Config, a: Node, b: Node, addr: nat, data: seq<Byte>)
    requires Core(c, a, b) && CpuEnabled(c, a, addr, data) && a.pc.Stage? && Data(c, a, b)
    ensures Data(c, CpuStep(c, a, addr, data), b)
  {
    var a' := CpuStep(c, a, addr, data);
    assert a'.sendBuf[..|data|] == data;
    assert b.got <= a.log <= a'.log;
  }

  lemma DataCheck(c: Config, a: Node, b: Node)
    requires Core(c, a, b) && CpuEnabled(c, a, 0, []) && a.pc.CheckBuf? && Data(c, a, b)
    ensures Data(c, CpuStep(c, a, 0, []), b)
  {
    var a' := CpuStep(c, a, 0, []);
    assert a'.got == a.got + [b.log[|a.got|]];
    assert a'.got <= b.log;
    assert !Staged(a) && !Staged(a') && !Fetched(a') && a'.log == a.log;
  }

  /** A step that leaves the payloads and the histories alone. */
  lemma DataSame(c: Config, a: Node, b: Node, a': Node)
    requires Data(c, a, b)
    requires a'.rank == a.rank && a'.log == a.log && a'.got == a.got
    requires a'.sendBuf == a.sendBuf && a'.recvBuf == a.recvBuf
    requires (SameHalf(a, a') && Staged(a') == Staged(a)) || (!Staged(a') && History(c, a'))
    requires Fetched(a') ==> Fetched(a) && a'.round == a.round
    ensures Data(c, a', b)
  {}

  lemma DataFreed(c: Config, a: Node, b: Node)
    requires Core(c, a, b) && a.pc.GotFin? && Data(c, a, b)
    ensures Data(c, CpuStep(c, a, 0, []), b)
  {
    var a' := CpuStep(c, a, 0, []);
    assert !Staged(a') && !Fetched(a');
    DataSame(c, a, b, a');
  }

  lemma DataQuietSending(c: Config, a: Node, b: Node, addr: nat, data: seq<Byte>)
    requires Core(c, a, b) && CpuEnabled(c, a, addr, data) && Data(c, a, b)
    requires a.pc.Announce? || a.pc.AwaitRtsSent? || a.pc.AwaitFin?
    ensures Data(c, CpuStep(c, a, addr, data), b)
  {
    DataSame(c, a, b, CpuStep(c, a, addr, data));
  }

  lemma DataQuietReceiving(c: Config, a: Node, b: Node, addr: nat, data: seq<Byte>)
    requires Core(c, a, b) && CpuEnabled(c, a, addr, data) && Data(c, a, b)
    requires a.pc.AwaitRts? || a.pc.GotRts? || Reading(a) || a.pc.AwaitFinSent?
    ensures Data(c, CpuStep(c, a, addr, data), b)
  {
    DataSame(c, a, b, CpuStep(c, a, addr, data));
  }

  lemma DataCpu(c: Config, a: Node, b: Node, addr: nat, data: seq<Byte>)
    requires Core(c, a, b) && CpuEnabled(c, a, addr, data) && Data(c, a, b)
    ensures Data(c, CpuStep(c, a, addr, data), b)
  {
    if a.pc.Stage? {
      DataStage(c, a, b, addr, data);
    } else if a.pc.CheckBuf? {
      DataCheck(c, a, b);
    } else if a.pc.GotFin? {
      DataFreed(c, a, b);
    } else if Sending(a) {
      DataQuietSending(c, a, b, addr, data);
    } else {
      DataQuietReceiving(c, a, b, addr, data);
    }
  }

  // ---------- The invariant, and what it says ----------

  predicate Pair(c: Config, a: Node, b: Node) {
    Core(c, a, b) && Mail(a, b) && Mail(b, a) && Data(c, a, b)
  }

  /** The control messages headed to b, oldest first: the one it has polled but not handled,
      those in its completion queue, and the one still on its way. */
  function Headed(a: Node, b: Node): seq<nat> {
    (if b.pc.GotFin? || b.pc.GotRts? then [b.wc.imm] else [])
    + (if |b.rcq| > 0 then [b.rcq[0].imm] else [])
    + (if |b.rcq| > 1 then [b.rcq[1].imm] else [])
    + (if a.slot.Queued? && a.slot.w.SendImm? then [a.slot.w.imm] else [])
  }

  lemma AtMostFinThenRts(c: Config, a: Node, b: Node)
    requires Pair(c, a, b)
    ensures |b.rcq| <= 2
    ensures |Headed(a, b)| <= 2
    ensures |Headed(a, b)| == 2 ==> Headed(a, b) == [MSG_FIN, MSG_RTS]
  {}

  /** When an RTS is handled, the shared receive line still holds exactly that RTS. */
  lemma RtsNeverOverwritten(c: Config, a: Node, b: Node)
    requires Pair(c, a, b) && b.pc.GotRts?
    ensures b.wc.imm == MSG_RTS && b.ctl == b.wc.snap == a.rts
    ensures a.rts == Line(a.rts.w0, a.sendAddr, Size(c, b.round), a.rkey)
    ensures a.heap == map[a.rts.w0 := SendCtx(a.sendAddr, Size(c, b.round), 0)]
  {}

  /** The handler as it was first written: it trusts the line the FIN landed in. */
  function HandleFinFromLine(a: Node): Node {
    a.(ok := a.ok && a.wc.imm == MSG_FIN && a.ctl.w0 in a.heap && a.heap[a.ctl.w0].SendCtx?,
       heap := a.heap - {a.ctl.w0})
  }

  /** The handler with the FIN's own words, as they were delivered. */
  function HandleFinAsDelivered(a: Node): Node {
    a.(ok := a.ok && a.wc.imm == MSG_FIN && a.wc.snap.w0 in a.heap && a.heap[a.wc.snap.w0].SendCtx?,
       heap := a.heap - {a.wc.snap.w0})
  }

  lemma FinFreesTheNamedContext(c: Config, a: Node, b: Node)
    requires Pair(c, a, b) && a.pc.GotFin?
    ensures a.heap.Keys == {a.wc.snap.w0}
    ensures HandleFin(a) == HandleFinAsDelivered(a)
    ensures HandleFin(a).ok && HandleFin(a).heap == map[]
  {}

  /** Reading the line instead frees the named context exactly when nothing has been delivered
      after the FIN, or the RTS that was delivered happens to carry the same number. */
  lemma LineHoldsFinExactly(c: Config, a: Node, b: Node)
    requires Pair(c, a, b) && a.pc.GotFin?
    ensures HandleFinFromLine(a) == HandleFinAsDelivered(a) <==> (a.rcq == [] || b.rts.w0 == a.rts.w0)
    ensures HandleFinFromLine(a).ok <==> (a.rcq == [] || b.rts.w0 == a.rts.w0)
  {
    if a.rcq != [] {
      assert a.ctl == b.rts;
    }
    if b.rts.w0 != a.rts.w0 && a.rcq != [] {
      assert a.ctl.w0 !in a.heap;
    }
  }

  lemma InitPair(c: Config, a: Node, b: Node)
    requires ValidConfig(c) && Fresh(c, a) && Fresh(c, b) && a.rank + b.rank == 1
    ensures Pair(c, a, b)
  {}

  lemma PairSymmetric(c: Config, a: Node, b: Node)
    requires Pair(c, a, b)
    ensures Pair(c, b, a)
  {}

  lemma PairCpu(c: Config, a: Node, b: Node, addr: nat, data: seq<Byte>)
    requires Pair(c, a, b) && CpuEnabled(c, a, addr, data)
    ensures Pair(c, CpuStep(c, a, addr, data), b)
  {
    CpuKeeps(c, a, b, addr, data);
    MailOut(c, a, b, addr, data);
    MailIn(c, a, b, addr, data);
    DataCpu(c, a, b, addr, data);
  }

  lemma PairDeliver(c: Config, a: Node, b: Node)
    requires Pair(c, a, b) && CanDeliver(a, b)
    ensures var (a', b') := Deliver(a, b); Pair(c, a', b')
  {
    DeliverKeeps(c, a, b);
    MailDeliver(c, a, b);
    DataDeliver(c, a, b);
  }

  lemma PairComplete(c: Config, a: Node, b: Node)
    requires Pair(c, a, b) && a.slot.Accepted?
    ensures Pair(c, Complete(a), b)
  {
    CompleteKeeps(c, a, b);
  }

  /** Each step of the program uses up work. */
  lemma CpuPays(c: Config, a: Node, addr: nat, data: seq<Byte>)
    requires CpuEnabled(c, a, addr, data)
    ensures Left(c, CpuStep(c, a, addr, data)) < Left(c, a)
  {}

  /** Unless both ranks are done, one of them or the fabric can move. */
  lemma CanMove(c: Config, a: Node, b: Node)
    requires Core(c, a, b)
    requires !a.pc.Done? || !b.pc.Done?
    requires !CanDeliver(a, b) && !CanDeliver(b, a) && !a.slot.Accepted? && !b.slot.Accepted?
    requires !CpuEnabled(c, a, 1, seq(Size(c, a.round), _ => 0))
    ensures CpuEnabled(c, b, 1, seq(Size(c, b.round), _ => 0))
  {}

  /** Nothing is left behind when both ranks are done, and every payload has arrived. */
  lemma AtTheEnd(c: Config, a: Node, b: Node)
    requires Pair(c, a, b) && a.pc.Done? && b.pc.Done?
    ensures a.slot.Idle? && a.rcq == [] && a.heap == map[] && a.posted == MAX_RECV_NUM
    ensures a.got == b.log && |a.got| == |c.sched|
  {}

  // ---------- For one rank, between two statements ----------

  /** What a rank may rely on. */
  lemma RankFacts(c: Config, a: Node, b: Node)
    requires Pair(c, a, b)
    ensures a.ok && a.rank < 2 && b.rank == 1 - a.rank && a.round <= |c.sched| && Left(c, a) >= 0
    ensures |a.sendBuf| == |a.recvBuf| == c.maxSize && a.posted == MAX_RECV_NUM
    ensures a.pc.Done? <==> a.round == |c.sched|
    ensures a.pc.Stage? || a.pc.AwaitRts? || a.pc.Done? ==>
              a.heap == map[] && |a.log| == SendsDone(a) && |a.got| == RecvsDone(a)
  {}

  /** What a rank may rely on at its peer. */
  lemma PeerFacts(c: Config, a: Node, b: Node)
    requires Pair(c, a, b)
    ensures Left(c, b) >= 0 && a.got <= b.log && |b.log| <= |c.sched|
    ensures b.pc.Stage? ==> |b.log| == b.round < |c.sched|
  {}

  lemma LogKept(c: Config, a: Node, addr: nat, data: seq<Byte>)
    requires CpuEnabled(c, a, addr, data)
    requires Reading(a) || a.pc.AwaitRts? || a.pc.GotRts? || a.pc.AwaitFinSent? || a.pc.CheckBuf?
    ensures CpuStep(c, a, addr, data).log == a.log
  {}

  /** Only staging a payload adds to what a rank has staged. */
  lemma LogGrows(c: Config, a: Node, addr: nat, data: seq<Byte>)
    requires CpuEnabled(c, a, addr, data)
    ensures CpuStep(c, a, addr, data).log == if a.pc.Stage? then a.log + [data] else a.log
  {
    if Reading(a) || a.pc.AwaitRts? || a.pc.GotRts? || a.pc.AwaitFinSent? || a.pc.CheckBuf? {
      LogKept(c, a, addr, data);
    }
  }
}
