/** The write rendezvous: one rank's program, RTS then RTR then RDMA write then FIN, and the
    invariant two ranks running it keep. */
module WriteProgram {
  import opened Bytes
  import opened Verbs

  const MSG_RTS := 0
  const MSG_RTR := 1
  const MSG_FIN := 2
  const RTS_FIELDS := 2
  const RTR_FIELDS := 4
  const FIN_FIELDS := 1

  // ---------- What each handler does ----------

  function PostRts(a: Node, addr: nat, size: nat): Node {
    Post(a.(heap := a.heap[addr := SendCtx(a.sendAddr, size, 0)],
            rts := Line(addr, size, a.rts.w2, a.rts.w3)),
         SendImm(RtsLine, RTS_FIELDS, MSG_RTS))
  }

  function HandleRts(a: Node, addr: nat, size: nat): Node {
    Post(a.(ok := a.ok && a.wc.opcode == OpRecv && a.wc.imm == MSG_RTS && a.ctl.w1 <= size,
            heap := a.heap[addr := RecvCtx(a.recvAddr, size, 0)],
            rtr := Line(a.ctl.w0, addr, a.recvAddr, a.rkey)),
         SendImm(RtrLine, RTR_FIELDS, MSG_RTR))
  }

  /** The context is the one the RTR names; a dead one is a failure. */
  function HandleRtr(a: Node): Node {
    var p := a.ctl.w0;
    if p in a.heap && a.heap[p].SendCtx? then
      var ctx := a.heap[p];
      Post(a.(ok := a.ok && a.wc.opcode == OpRecv && a.wc.imm == MSG_RTR,
              heap := a.heap[p := SendCtx(ctx.buf, ctx.size, a.ctl.w1)]),
           RdmaWrite(ctx.buf, ctx.size, a.ctl.w2, a.ctl.w3, p))
    else
      a.(ok := false)
  }

  function HandleWriteCompletion(a: Node): Node {
    var p := a.wc.wrid;
    if p in a.heap && a.heap[p].SendCtx? then
      Post(a.(ok := a.ok && a.wc.opcode == OpWrite,
              fin := Line(a.heap[p].link, a.fin.w1, a.fin.w2, a.fin.w3),
              heap := a.heap - {p}),
           SendImm(FinLine, FIN_FIELDS, MSG_FIN))
    else
      a.(ok := false)
  }

  function HandleFin(a: Node): Node {
    var p := a.ctl.w0;
    a.(ok := a.ok && a.wc.imm == MSG_FIN && p in a.heap && a.heap[p].RecvCtx?,
       heap := a.heap - {p})
  }

  // ---------- One rank's program ----------

  predicate CpuEnabled(c: Config, a: Node, addr: nat, data: seq<Byte>) {
    match a.pc
    case Stage => |data| == Size(c, a.round) && |data| <= |a.sendBuf|
    case Announce => addr > 0 && addr !in a.heap
    case AwaitRtsSent => a.slot.Finished?
    case AwaitRtr => |a.rcq| > 0
    case GotRtr => true
    case AwaitWritten => a.slot.Finished?
    case GotWritten => true
    case AwaitFinSent => a.slot.Finished?
    case AwaitRts => |a.rcq| > 0
    case GotRts => addr > 0 && addr !in a.heap
    case AwaitRtrSent => a.slot.Finished?
    case AwaitFin => |a.rcq| > 0
    case GotFin => true
    case CheckBuf => Size(c, a.round) <= |a.recvBuf|
    case _ => false
  }

  function CpuStep(c: Config, a: Node, addr: nat, data: seq<Byte>): Node
    requires CpuEnabled(c, a, addr, data)
  {
    var size := Size(c, a.round);
    match a.pc
    case Stage => WriteBuffer(a, data).(pc := Announce)
    case Announce => PostRts(a, addr, size).(pc := AwaitRtsSent)
    case AwaitRtsSent => PollSendOf(a, OpSend).(pc := AwaitRtr)
    case AwaitRtr => PollRecvOf(a).(pc := GotRtr)
    case GotRtr => HandleRtr(a).(pc := AwaitWritten)
    case AwaitWritten => PollSend(a).(pc := GotWritten)
    case GotWritten => HandleWriteCompletion(a).(pc := AwaitFinSent)
    case AwaitFinSent => Advance(c, PollSendOf(a, OpSend))
    case AwaitRts => PollRecvOf(a).(pc := GotRts)
    case GotRts => HandleRts(a, addr, size).(pc := AwaitRtrSent)
    case AwaitRtrSent => PollSendOf(a, OpSend).(pc := AwaitFin)
    case AwaitFin => PollRecvOf(a).(pc := GotFin)
    case GotFin => HandleFin(a).(pc := CheckBuf)
    case CheckBuf => Advance(c, CheckBuffer(a, size))
  }

  /** The assertions of the program, statement by statement: a step fails exactly where one of them does, or
      where a context is not there, or a request is posted before the completion of the one before was polled. */
  lemma Assertions(c: Config, a: Node, addr: nat, data: seq<Byte>)
    requires CpuEnabled(c, a, addr, data)
    ensures CpuStep(c, a, addr, data).ok == (
              && a.ok
              && match a.pc
                 case Announce => a.slot.Idle?
                 case AwaitRtsSent => a.slot.wc.opcode == OpSend
                 case AwaitRtr => a.rcq[0].opcode == OpRecv
                 case GotRtr => && a.slot.Idle? && a.wc.opcode == OpRecv && a.wc.imm == 1
                                && a.ctl.w0 in a.heap && a.heap[a.ctl.w0].SendCtx?
                 case GotWritten => && a.slot.Idle? && a.wc.opcode == OpWrite
                                    && a.wc.wrid in a.heap && a.heap[a.wc.wrid].SendCtx?
                 case AwaitFinSent => a.slot.wc.opcode == OpSend
                 case AwaitRts => a.rcq[0].opcode == OpRecv
                 case GotRts => a.slot.Idle? && a.wc.opcode == OpRecv && a.wc.imm == 0 && a.ctl.w1 <= Size(c, a.round)
                 case AwaitRtrSent => a.slot.wc.opcode == OpSend
                 case AwaitFin => a.rcq[0].opcode == OpRecv
                 case GotFin => a.wc.imm == 2 && a.ctl.w0 in a.heap && a.heap[a.ctl.w0].RecvCtx?
                 case _ => true)
  {
    if a.pc.GotRtr? || a.pc.GotWritten? || a.pc.GotRts? {
      HandlersPost(c, a, addr, data);
    }
  }

  lemma HandlersPost(c: Config, a: Node, addr: nat, data: seq<Byte>)
    requires CpuEnabled(c, a, addr, data) && (a.pc.GotRtr? || a.pc.GotWritten? || a.pc.GotRts?)
    ensures CpuStep(c, a, addr, data).ok == (
              && a.ok && a.slot.Idle?
              && if a.pc.GotRts? then a.wc.opcode == OpRecv && a.wc.imm == 0 && a.ctl.w1 <= Size(c, a.round)
                 else var p := if a.pc.GotRtr? then a.ctl.w0 else a.wc.wrid;
                      && p in a.heap && a.heap[p].SendCtx?
                      && if a.pc.GotRtr? then a.wc.opcode == OpRecv && a.wc.imm == 1 else a.wc.opcode == OpWrite)
  {}

  // ---------- First layer: where the ranks are, and how many messages lie between them ----------

  /** The RTS is posted, and its answer not handled. */
  predicate Holding(a: Node) { a.pc.AwaitRtsSent? || a.pc.AwaitRtr? || a.pc.GotRtr? }

  /** The write is posted, and its completion not handled. */
  predicate Writing(a: Node) { a.pc.AwaitWritten? || a.pc.GotWritten? }

  /** The RTS is answered, and the FIN not handled. */
  predicate Expecting(a: Node) { a.pc.AwaitRtrSent? || a.pc.AwaitFin? || a.pc.GotFin? }

  /** Messages a has posted: two in a sending turn, one in a receiving turn. */
  function Sent(a: Node): nat {
    3 * a.round + (if !a.second then 0 else if a.rank == 0 then 2 else 1) +
    if a.pc.AwaitFinSent? then 2
    else if Holding(a) || Writing(a) || Expecting(a) || a.pc.CheckBuf? then 1
    else 0
  }

  /** Messages a has polled: one in a sending turn, two in a receiving turn. */
  function Polled(a: Node): nat {
    3 * a.round + (if !a.second then 0 else if a.rank == 0 then 1 else 2) +
    if a.pc.GotFin? || a.pc.CheckBuf? then 2
    else if a.pc.GotRtr? || Writing(a) || a.pc.AwaitFinSent? then 1
    else if a.pc.GotRts? || a.pc.AwaitRtrSent? || a.pc.AwaitFin? then 1
    else 0
  }

  function Delivered(a: Node): int {
    Sent(a) - if a.slot.Queued? && a.slot.w.SendImm? then 1 else 0
  }

  predicate SendPc(pc: Pc) {
    || pc.Stage? || pc.Announce? || pc.AwaitRtsSent? || pc.AwaitRtr? || pc.GotRtr?
    || pc.AwaitWritten? || pc.GotWritten? || pc.AwaitFinSent?
  }

  predicate RecvPc(pc: Pc) {
    pc.AwaitRts? || pc.GotRts? || pc.AwaitRtrSent? || pc.AwaitFin? || pc.GotFin? || pc.CheckBuf?
  }

  predicate Control(c: Config, a: Node) {
    && a.ok
    && a.rank < 2
    && a.round <= |c.sched|
    && (a.round == |c.sched| ==> !a.second)
    && (a.pc.Done? <==> a.round == |c.sched|)
    && (a.pc.Done? || if Sending(a) then SendPc(a.pc) else RecvPc(a.pc))
    && |a.sendBuf| == c.maxSize && |a.recvBuf| == c.maxSize
    && a.posted == MAX_RECV_NUM
  }

  /** The kind of message b polls next. */
  function Next(b: Node): nat {
    if b.pc.GotRts? || b.pc.AwaitRtrSent? || b.pc.AwaitFin? then MSG_FIN
    else if b.pc.GotRtr? || Writing(b) || b.pc.AwaitFinSent? || b.pc.AwaitRts? || b.pc.Done? then MSG_RTS
    else MSG_RTR
  }

  predicate SlotFits(c: Config, a: Node, b: Node) {
    match a.pc
    case AwaitRtsSent => Pending(a, SendImm(RtsLine, RTS_FIELDS, MSG_RTS))
    case AwaitRtrSent => Pending(a, SendImm(RtrLine, RTR_FIELDS, MSG_RTR))
    case AwaitFinSent => Pending(a, SendImm(FinLine, FIN_FIELDS, MSG_FIN))
    case AwaitWritten => Pending(a, RdmaWrite(a.sendAddr, Size(c, a.round), b.recvAddr, b.rkey, a.rts.w0))
    case GotWritten => a.slot.Idle? && a.wc.opcode == OpWrite && a.wc.wrid == a.rts.w0
    case _ => a.slot.Idle?
  }

  predicate Inbox(a: Node, b: Node) {
    && |b.rcq| == Delivered(a) - Polled(b)
    && |b.rcq| <= 1
    && (|b.rcq| > 0 ==> b.rcq[0].opcode == OpRecv && b.rcq[0].imm == Next(b))
    && (b.pc.GotRts? ==> b.wc.opcode == OpRecv && b.wc.imm == MSG_RTS)
    && (b.pc.GotRtr? ==> b.wc.opcode == OpRecv && b.wc.imm == MSG_RTR)
    && (b.pc.GotFin? ==> b.wc.opcode == OpRecv && b.wc.imm == MSG_FIN)
  }

  /** A message of this kind lies in b's receive line and b has not handled it. */
  predicate Open(b: Node, kind: nat) {
    || (|b.rcq| > 0 && Next(b) == kind)
    || (kind == MSG_RTS && b.pc.GotRts?)
    || (kind == MSG_RTR && b.pc.GotRtr?)
    || (kind == MSG_FIN && b.pc.GotFin?)
  }

  /** The contexts a owns: one at most, and which one its program counter tells. */
  predicate Contexts(c: Config, a: Node, b: Node) {
    && a.heap == (
         if Holding(a) then map[a.rts.w0 := SendCtx(a.sendAddr, Size(c, a.round), 0)]
         else if Writing(a) then map[a.rts.w0 := SendCtx(a.sendAddr, Size(c, a.round), b.rtr.w1)]
         else if Expecting(a) then map[a.rtr.w1 := RecvCtx(a.recvAddr, Size(c, a.round), 0)]
         else map[])
  }

  /** What the lines between a and b say. */
  predicate Lines(c: Config, a: Node, b: Node) {
    && (Holding(a) ==> a.rts.w1 == Size(c, a.round))
    && (Expecting(b) ==> b.rtr == Line(b.rtr.w0, b.rtr.w1, b.recvAddr, b.rkey))
    && (Expecting(b) && Holding(a) ==> b.rtr.w0 == a.rts.w0)
    && (Open(b, MSG_RTS) ==> b.ctl.w0 == a.rts.w0 && b.ctl.w1 == a.rts.w1)
    && (Open(b, MSG_RTR) ==> b.ctl == a.rtr)
    && (Open(b, MSG_FIN) ==> b.ctl.w0 == b.rtr.w1)
    && (a.pc.AwaitFinSent? && a.slot.Queued? ==> a.fin.w0 == b.rtr.w1)
  }

  predicate Counts(c: Config, a: Node, b: Node) {
    && ValidConfig(c)
    && a.rank + b.rank == 1
    && Control(c, a) && Control(c, b)
    && SlotFits(c, a, b) && SlotFits(c, b, a)
    && Inbox(a, b) && Inbox(b, a)
  }

  predicate Core(c: Config, a: Node, b: Node) {
    && Counts(c, a, b)
    && Contexts(c, a, b) && Contexts(c, b, a)
    && Lines(c, a, b) && Lines(c, b, a)
  }

  lemma InitCore(c: Config, a: Node, b: Node)
    requires ValidConfig(c) && Fresh(c, a) && Fresh(c, b) && a.rank + b.rank == 1
    ensures Core(c, a, b)
  {}

  lemma CompleteCounts(c: Config, a: Node, b: Node)
    requires Counts(c, a, b) && a.slot.Accepted?
    ensures Counts(c, Complete(a), b)
  {}

  lemma CompleteKeeps(c: Config, a: Node, b: Node)
    requires Core(c, a, b) && a.slot.Accepted?
    ensures Core(c, Complete(a), b)
  {
    CompleteCounts(c, a, b);
  }

  lemma DeliverRtsKeeps(c: Config, a: Node, b: Node)
    requires Core(c, a, b) && CanDeliver(a, b) && a.pc.AwaitRtsSent?
    ensures var (a', b') := Deliver(a, b); Core(c, a', b')
  {
    SizeFits(c, a.round);
  }

  lemma DeliverRtrCounts(c: Config, a: Node, b: Node)
    requires Counts(c, a, b) && CanDeliver(a, b) && a.pc.AwaitRtrSent?
    ensures var (a', b') := Deliver(a, b); Counts(c, a', b')
  {}

  lemma DeliverRtrKeeps(c: Config, a: Node, b: Node)
    requires Core(c, a, b) && CanDeliver(a, b) && a.pc.AwaitRtrSent?
    ensures var (a', b') := Deliver(a, b); Core(c, a', b')
  {
    SizeFits(c, a.round);
    DeliverRtrCounts(c, a, b);
  }

  lemma DeliverWriteKeeps(c: Config, a: Node, b: Node)
    requires Core(c, a, b) && CanDeliver(a, b) && a.pc.AwaitWritten?
    ensures var (a', b') := Deliver(a, b); Core(c, a', b')
  {
    SizeFits(c, a.round);
    assert SameHalf(a, b) && Expecting(b);
  }

  /** While a FIN is on its way, the peer sits in the same half, waiting for it. */
  lemma PeerAwaitsFin(c: Config, a: Node, b: Node)
    requires Counts(c, a, b) && CanDeliver(a, b) && a.pc.AwaitFinSent?
    ensures a.slot.w == SendImm(FinLine, FIN_FIELDS, MSG_FIN)
    ensures SameHalf(a, b) && (b.pc.AwaitRtrSent? || b.pc.AwaitFin?) && b.rcq == []
  {}

  lemma DeliverFinCounts(c: Config, a: Node, b: Node)
    requires Counts(c, a, b) && CanDeliver(a, b) && a.pc.AwaitFinSent?
    ensures var (a', b') := Deliver(a, b); Counts(c, a', b')
  {
    PeerAwaitsFin(c, a, b);
  }

  lemma DeliverFinKeeps(c: Config, a: Node, b: Node)
    requires Core(c, a, b) && CanDeliver(a, b) && a.pc.AwaitFinSent?
    ensures var (a', b') := Deliver(a, b); Core(c, a', b')
  {
    SizeFits(c, a.round);
    DeliverFinCounts(c, a, b);
  }

  lemma DeliverKeeps(c: Config, a: Node, b: Node)
    requires Core(c, a, b) && CanDeliver(a, b)
    ensures var (a', b') := Deliver(a, b); Core(c, a', b')
  {
    match a.pc
    case AwaitRtsSent => DeliverRtsKeeps(c, a, b);
    case AwaitRtrSent => DeliverRtrKeeps(c, a, b);
    case AwaitWritten => DeliverWriteKeeps(c, a, b);
    case AwaitFinSent => DeliverFinKeeps(c, a, b);
    case _ => assert false;
  }

  lemma StageKeeps(c: Config, a: Node, b: Node, addr: nat, data: seq<Byte>)
    requires Core(c, a, b) && CpuEnabled(c, a, addr, data) && a.pc.Stage?
    ensures Core(c, CpuStep(c, a, addr, data), b)
  {}

  lemma AnnounceCounts(c: Config, a: Node, b: Node, addr: nat, data: seq<Byte>)
    requires Core(c, a, b) && CpuEnabled(c, a, addr, data) && a.pc.Announce?
    ensures Counts(c, CpuStep(c, a, addr, data), b)
  {}

  lemma AnnounceKeeps(c: Config, a: Node, b: Node, addr: nat, data: seq<Byte>)
    requires Core(c, a, b) && CpuEnabled(c, a, addr, data) && a.pc.Announce?
    ensures Core(c, CpuStep(c, a, addr, data), b)
  {
    AnnounceCounts(c, a, b, addr, data);
  }

  lemma AwaitRtsSentKeeps(c: Config, a: Node, b: Node, addr: nat, data: seq<Byte>)
    requires Core(c, a, b) && CpuEnabled(c, a, addr, data) && a.pc.AwaitRtsSent?
    ensures Core(c, CpuStep(c, a, addr, data), b)
  {}

  lemma AwaitRtrKeeps(c: Config, a: Node, b: Node, addr: nat, data: seq<Byte>)
    requires Core(c, a, b) && CpuEnabled(c, a, addr, data) && a.pc.AwaitRtr?
    ensures Core(c, CpuStep(c, a, addr, data), b)
  {}

  lemma GotRtrCounts(c: Config, a: Node, b: Node, addr: nat, data: seq<Byte>)
    requires Core(c, a, b) && CpuEnabled(c, a, addr, data) && a.pc.GotRtr?
    ensures Counts(c, CpuStep(c, a, addr, data), b)
  {}

  lemma GotRtrContexts(c: Config, a: Node, b: Node, addr: nat, data: seq<Byte>)
    requires Core(c, a, b) && CpuEnabled(c, a, addr, data) && a.pc.GotRtr?
    ensures var a' := CpuStep(c, a, addr, data); Contexts(c, a', b) && Contexts(c, b, a')
  {}

  lemma GotRtrLines(c: Config, a: Node, b: Node, addr: nat, data: seq<Byte>)
    requires Core(c, a, b) && CpuEnabled(c, a, addr, data) && a.pc.GotRtr?
    ensures var a' := CpuStep(c, a, addr, data); Lines(c, a', b) && Lines(c, b, a')
  {}

  lemma GotRtrKeeps(c: Config, a: Node, b: Node, addr: nat, data: seq<Byte>)
    requires Core(c, a, b) && CpuEnabled(c, a, addr, data) && a.pc.GotRtr?
    ensures Core(c, CpuStep(c, a, addr, data), b)
  {
    GotRtrCounts(c, a, b, addr, data);
    GotRtrContexts(c, a, b, addr, data);
    GotRtrLines(c, a, b, addr, data);
  }

  lemma AwaitWrittenKeeps(c: Config, a: Node, b: Node, addr: nat, data: seq<Byte>)
    requires Core(c, a, b) && CpuEnabled(c, a, addr, data) && a.pc.AwaitWritten?
    ensures Core(c, CpuStep(c, a, addr, data), b)
  {}

  lemma GotWrittenCounts(c: Config, a: Node, b: Node, addr: nat, data: seq<Byte>)
    requires Core(c, a, b) && CpuEnabled(c, a, addr, data) && a.pc.GotWritten?
    ensures Counts(c, CpuStep(c, a, addr, data), b)
  {}

  lemma GotWrittenContexts(c: Config, a: Node, b: Node, addr: nat, data: seq<Byte>)
    requires Core(c, a, b) && CpuEnabled(c, a, addr, data) && a.pc.GotWritten?
    ensures var a' := CpuStep(c, a, addr, data); Contexts(c, a', b) && Contexts(c, b, a')
  {}

  lemma GotWrittenLines(c: Config, a: Node, b: Node, addr: nat, data: seq<Byte>)
    requires Core(c, a, b) && CpuEnabled(c, a, addr, data) && a.pc.GotWritten?
    ensures var a' := CpuStep(c, a, addr, data); Lines(c, a', b) && Lines(c, b, a')
  {}

  lemma GotWrittenKeeps(c: Config, a: Node, b: Node, addr: nat, data: seq<Byte>)
    requires Core(c, a, b) && CpuEnabled(c, a, addr, data) && a.pc.GotWritten?
    ensures Core(c, CpuStep(c, a, addr, data), b)
  {
    GotWrittenCounts(c, a, b, addr, data);
    GotWrittenContexts(c, a, b, addr, data);
    GotWrittenLines(c, a, b, addr, data);
  }

  lemma AwaitFinSentKeeps(c: Config, a: Node, b: Node, addr: nat, data: seq<Byte>)
    requires Core(c, a, b) && CpuEnabled(c, a, addr, data) && a.pc.AwaitFinSent?
    ensures Core(c, CpuStep(c, a, addr, data), b)
  {}

  lemma AwaitRtsKeeps(c: Config, a: Node, b: Node, addr: nat, data: seq<Byte>)
    requires Core(c, a, b) && CpuEnabled(c, a, addr, data) && a.pc.AwaitRts?
    ensures Core(c, CpuStep(c, a, addr, data), b)
  {}

  lemma GotRtsKeeps(c: Config, a: Node, b: Node, addr: nat, data: seq<Byte>)
    requires Core(c, a, b) && CpuEnabled(c, a, addr, data) && a.pc.GotRts?
    ensures Core(c, CpuStep(c, a, addr, data), b)
  {}

  lemma AwaitRtrSentKeeps(c: Config, a: Node, b: Node, addr: nat, data: seq<Byte>)
    requires Core(c, a, b) && CpuEnabled(c, a, addr, data) && a.pc.AwaitRtrSent?
    ensures Core(c, CpuStep(c, a, addr, data), b)
  {}

  lemma AwaitFinKeeps(c: Config, a: Node, b: Node, addr: nat, data: seq<Byte>)
    requires Core(c, a, b) && CpuEnabled(c, a, addr, data) && a.pc.AwaitFin?
    ensures Core(c, CpuStep(c, a, addr, data), b)
  {}

  lemma GotFinKeeps(c: Config, a: Node, b: Node, addr: nat, data: seq<Byte>)
    requires Core(c, a, b) && CpuEnabled(c, a, addr, data) && a.pc.GotFin?
    ensures Core(c, CpuStep(c, a, addr, data), b)
  {}

  lemma CheckBufKeeps(c: Config, a: Node, b: Node, addr: nat, data: seq<Byte>)
    requires Core(c, a, b) && CpuEnabled(c, a, addr, data) && a.pc.CheckBuf?
    ensures Core(c, CpuStep(c, a, addr, data), b)
  {}

  lemma CpuKeeps(c: Config, a: Node, b: Node, addr: nat, data: seq<Byte>)
    requires Core(c, a, b) && CpuEnabled(c, a, addr, data)
    ensures Core(c, CpuStep(c, a, addr, data), b)
  {
    match a.pc
    case Stage => StageKeeps(c, a, b, addr, data);
    case Announce => AnnounceKeeps(c, a, b, addr, data);
    case AwaitRtsSent => AwaitRtsSentKeeps(c, a, b, addr, data);
    case AwaitRtr => AwaitRtrKeeps(c, a, b, addr, data);
    case GotRtr => GotRtrKeeps(c, a, b, addr, data);
    case AwaitWritten => AwaitWrittenKeeps(c, a, b, addr, data);
    case GotWritten => GotWrittenKeeps(c, a, b, addr, data);
    case AwaitFinSent => AwaitFinSentKeeps(c, a, b, addr, data);
    case AwaitRts => AwaitRtsKeeps(c, a, b, addr, data);
    case GotRts => GotRtsKeeps(c, a, b, addr, data);
    case AwaitRtrSent => AwaitRtrSentKeeps(c, a, b, addr, data);
    case AwaitFin => AwaitFinKeeps(c, a, b, addr, data);
    case GotFin => GotFinKeeps(c, a, b, addr, data);
    case CheckBuf => CheckBufKeeps(c, a, b, addr, data);
  }

  // ---------- Second layer: the payloads ----------

  predicate Staged(a: Node) {
    a.pc.Announce? || Holding(a) || Writing(a) || a.pc.AwaitFinSent?
  }

  predicate History(c: Config, a: Node) {
    && |a.log| == SendsDone(a) + (if Staged(a) then 1 else 0)
    && |a.got| == RecvsDone(a)
    && (Staged(a) ==>
          && |a.log| > 0 && Size(c, a.round) <= |a.sendBuf|
          && a.log[|a.log| - 1] == a.sendBuf[..Size(c, a.round)])
  }

  /** b's write of this half has been placed in a's receive buffer, and a has not checked it yet. */
  predicate Placed(a: Node, b: Node) {
    || a.pc.CheckBuf?
    || (Expecting(a) && (SameHalf(a, b) ==> (Writing(b) && !b.slot.Queued?) || b.pc.AwaitFinSent?))
  }

  predicate Payload(c: Config, a: Node, b: Node) {
    && a.got <= b.log
    && (Placed(a, b) ==>
          && |a.got| < |b.log|
          && Size(c, a.round) <= |a.recvBuf|
          && a.recvBuf[..Size(c, a.round)] == b.log[|a.got|])
  }

  predicate Data(c: Config, a: Node, b: Node) {
    History(c, a) && History(c, b) && Payload(c, a, b) && Payload(c, b, a)
  }

  /** While b's write is on its way, a sits in the same half, waiting for the FIN. */
  lemma PeerExpects(c: Config, a: Node, b: Node)
    requires Counts(c, a, b) && Writing(b)
    ensures SameHalf(a, b) && (a.pc.AwaitRtrSent? || a.pc.AwaitFin?)
    ensures !a.slot.Queued?
  {}

  /** The FIN is delivered only once the write has been placed. */
  lemma FinMeansPlaced(c: Config, a: Node, b: Node)
    requires Counts(c, a, b) && a.pc.GotFin?
    ensures Placed(a, b)
  {}

  lemma DataDeliverWrite(c: Config, a: Node, b: Node)
    requires Core(c, a, b) && CanDeliver(a, b) && Data(c, a, b) && a.pc.AwaitWritten?
    ensures var (a', b') := Deliver(a, b); Data(c, a', b')
  {
    SizeFits(c, a.round);
    PeerExpects(c, b, a);
    var (a', b') := Deliver(a, b);
    assert b'.recvBuf[..Size(c, b.round)] == a.sendBuf[..Size(c, a.round)];
    assert |b.got| == |a.log| - 1;
  }

  lemma DataDeliverMessage(c: Config, a: Node, b: Node)
    requires Data(c, a, b) && CanDeliver(a, b) && a.slot.w.SendImm? && !Writing(a)
    ensures var (a', b') := Deliver(a, b); Data(c, a', b')
  {}

  lemma DataDeliver(c: Config, a: Node, b: Node)
    requires Core(c, a, b) && CanDeliver(a, b) && Data(c, a, b)
    ensures var (a', b') := Deliver(a, b); Data(c, a', b')
  {
    if a.pc.AwaitWritten? {
      DataDeliverWrite(c, a, b);
    } else {
      DataDeliverMessage(c, a, b);
    }
  }

  lemma DataStage(c: Config, a: Node, b: Node, addr: nat, data: seq<Byte>)
    requires Counts(c, a, b) && CpuEnabled(c, a, addr, data) && a.pc.Stage? && Data(c, a, b)
    ensures Data(c, CpuStep(c, a, addr, data), b)
  {
    var a' := CpuStep(c, a, addr, data);
    assert a'.sendBuf[..|data|] == data;
    assert b.got <= a.log <= a'.log;
  }

  lemma DataCheck(c: Config, a: Node, b: Node)
    requires Counts(c, a, b) && CpuEnabled(c, a, 0, []) && a.pc.CheckBuf? && Data(c, a, b)
    ensures Data(c, CpuStep(c, a, 0, []), b)
  {
    var a' := CpuStep(c, a, 0, []);
    assert a'.got == a.got + [b.log[|a.got|]];
    assert a'.got <= b.log;
    assert !Staged(a) && !Staged(a') && !Placed(a', b) && a'.log == a.log;
  }

  /** A step that leaves the payloads and the histories alone. */
  lemma DataSame(c: Config, a: Node, b: Node, a': Node)
    requires Data(c, a, b)
    requires a'.rank == a.rank && a'.log == a.log && a'.got == a.got
    requires a'.sendBuf == a.sendBuf && a'.recvBuf == a.recvBuf
    requires (SameHalf(a, a') && Staged(a') == Staged(a)) || (!Staged(a') && History(c, a'))
    requires Placed(a', b) ==> Placed(a, b) && a'.round == a.round
    requires Placed(b, a') ==> Placed(b, a)
    ensures Data(c, a', b)
  {}

  /** Where a rank only announces or polls. */
  predicate Quiet(pc: Pc) {
    pc.Announce? || pc.AwaitRtsSent? || pc.AwaitRtr? || pc.AwaitRts? || pc.AwaitRtrSent? || pc.AwaitFin?
  }

  /** What such a step leaves alone. */
  lemma QuietStep(c: Config, a: Node, addr: nat, data: seq<Byte>)
    requires CpuEnabled(c, a, addr, data)
    requires Quiet(a.pc)
    ensures var a' := CpuStep(c, a, addr, data);
            && SameHalf(a, a') && a'.rank == a.rank && a'.log == a.log && a'.got == a.got
            && a'.sendBuf == a.sendBuf && a'.recvBuf == a.recvBuf
            && Staged(a') == Staged(a) && Expecting(a') == Expecting(a)
            && !Writing(a') && !a'.pc.AwaitFinSent? && !a'.pc.CheckBuf?
  {}

  lemma DataQuiet(c: Config, a: Node, b: Node, addr: nat, data: seq<Byte>)
    requires CpuEnabled(c, a, addr, data) && Data(c, a, b)
    requires Quiet(a.pc)
    ensures Data(c, CpuStep(c, a, addr, data), b)
  {
    QuietStep(c, a, addr, data);
    DataSame(c, a, b, CpuStep(c, a, addr, data));
  }

  lemma DataWrite(c: Config, a: Node, b: Node)
    requires Core(c, a, b) && CpuEnabled(c, a, 0, []) && a.pc.GotRtr? && Data(c, a, b)
    ensures Data(c, CpuStep(c, a, 0, []), b)
  {
    var a' := CpuStep(c, a, 0, []);
    assert SameHalf(a, a') && Staged(a') && a'.slot.Queued?;
    DataSame(c, a, b, a');
  }

  lemma DataWritten(c: Config, a: Node, b: Node)
    requires Core(c, a, b) && CpuEnabled(c, a, 0, []) && Writing(a) && Data(c, a, b)
    ensures Data(c, CpuStep(c, a, 0, []), b)
  {
    var a' := CpuStep(c, a, 0, []);
    assert SameHalf(a, a') && Staged(a');
    DataSame(c, a, b, a');
  }

  lemma DataFin(c: Config, a: Node, b: Node)
    requires Core(c, a, b) && CpuEnabled(c, a, 0, []) && a.pc.GotFin? && Data(c, a, b)
    ensures Data(c, CpuStep(c, a, 0, []), b)
  {
    FinMeansPlaced(c, a, b);
    DataSame(c, a, b, CpuStep(c, a, 0, []));
  }

  lemma DataAnswer(c: Config, a: Node, b: Node, addr: nat)
    requires Counts(c, a, b) && CpuEnabled(c, a, addr, []) && a.pc.GotRts? && Data(c, a, b)
    ensures Data(c, CpuStep(c, a, addr, []), b)
  {
    var a' := CpuStep(c, a, addr, []);
    assert SameHalf(a, b) && Holding(b);
    DataSame(c, a, b, a');
  }

  lemma DataSent(c: Config, a: Node, b: Node)
    requires Counts(c, a, b) && CpuEnabled(c, a, 0, []) && a.pc.AwaitFinSent? && Data(c, a, b)
    ensures Data(c, CpuStep(c, a, 0, []), b)
  {
    var a' := CpuStep(c, a, 0, []);
    assert !Staged(a') && History(c, a') && !Placed(a', b);
    DataSame(c, a, b, a');
  }

  lemma DataSending(c: Config, a: Node, b: Node, addr: nat, data: seq<Byte>)
    requires Core(c, a, b) && CpuEnabled(c, a, addr, data) && Data(c, a, b) && Sending(a)
    ensures Data(c, CpuStep(c, a, addr, data), b)
  {
    if a.pc.Stage? {
      DataStage(c, a, b, addr, data);
    } else if a.pc.GotRtr? {
      DataWrite(c, a, b);
    } else if Writing(a) {
      DataWritten(c, a, b);
    } else if a.pc.AwaitFinSent? {
      DataSent(c, a, b);
    } else {
      DataQuiet(c, a, b, addr, data);
    }
  }

  lemma DataReceiving(c: Config, a: Node, b: Node, addr: nat, data: seq<Byte>)
    requires Core(c, a, b) && CpuEnabled(c, a, addr, data) && Data(c, a, b) && !Sending(a)
    ensures Data(c, CpuStep(c, a, addr, data), b)
  {
    if a.pc.GotRts? {
      DataAnswer(c, a, b, addr);
    } else if a.pc.GotFin? {
      DataFin(c, a, b);
    } else if a.pc.CheckBuf? {
      DataCheck(c, a, b);
    } else {
      DataQuiet(c, a, b, addr, data);
    }
  }

  lemma DataCpu(c: Config, a: Node, b: Node, addr: nat, data: seq<Byte>)
    requires Core(c, a, b) && CpuEnabled(c, a, addr, data) && Data(c, a, b)
    ensures Data(c, CpuStep(c, a, addr, data), b)
  {
    if Sending(a) {
      DataSending(c, a, b, addr, data);
    } else {
      DataReceiving(c, a, b, addr, data);
    }
  }

  // ---------- The invariant, and what it says ----------

  predicate Pair(c: Config, a: Node, b: Node) { Core(c, a, b) && Data(c, a, b) }

  /** Control messages from a to b that are on their way, or that b has not handled. */
  function Unhandled(a: Node, b: Node): nat {
    |b.rcq|
    + (if b.pc.GotRts? || b.pc.GotRtr? || b.pc.GotFin? then 1 else 0)
    + (if a.slot.Queued? && a.slot.w.SendImm? then 1 else 0)
  }

  lemma OneFromTheSender(c: Config, a: Node, b: Node)
    requires Counts(c, a, b) && Sending(a)
    ensures Unhandled(a, b) + Unhandled(b, a) <= 1
  {}

  lemma OneControlMessageAtATime(c: Config, a: Node, b: Node)
    requires Counts(c, a, b)
    ensures Unhandled(a, b) + Unhandled(b, a) <= 1
  {
    if Sending(a) {
      OneFromTheSender(c, a, b);
    }
  }

  /** At each handleFIN the peer's payload of this round is in the receive buffer. */
  lemma DeliveredAtFin(c: Config, a: Node, b: Node)
    requires Pair(c, a, b) && a.pc.GotFin?
    ensures |a.got| < |b.log|
    ensures a.recvBuf[..Size(c, a.round)] == b.log[|a.got|]
  {
    FinMeansPlaced(c, a, b);
  }

  /** The contexts echoed through RTS, RTR and FIN are the live ones: when the RTR is handled, */
  lemma RtrNamesLiveContexts(c: Config, a: Node, b: Node)
    requires Core(c, a, b) && a.pc.GotRtr?
    ensures a.heap.Keys == {a.ctl.w0} && a.heap[a.ctl.w0].SendCtx?
    ensures a.ctl.w1 in b.heap && b.heap[a.ctl.w1].RecvCtx?
  {}

  /** when the write has completed, before and after the completion is polled, */
  lemma WriteNamesLiveContexts(c: Config, a: Node, b: Node)
    requires Core(c, a, b)
    ensures a.pc.AwaitWritten? && a.slot.Finished? ==>
              a.heap.Keys == {a.slot.wc.wrid} && a.heap[a.slot.wc.wrid].link in b.heap
    ensures a.pc.GotWritten? ==> a.heap.Keys == {a.wc.wrid} && a.heap[a.wc.wrid].link in b.heap
  {}

  /** and when the FIN is handled. */
  lemma FinNamesTheContext(c: Config, a: Node, b: Node)
    requires Core(c, a, b) && a.pc.GotFin?
    ensures a.heap.Keys == {a.ctl.w0} && HandleFin(a).ok && HandleFin(a).heap == map[]
  {}

  lemma InitPair(c: Config, a: Node, b: Node)
    requires ValidConfig(c) && Fresh(c, a) && Fresh(c, b) && a.rank + b.rank == 1
    ensures Pair(c, a, b)
  {}

  lemma PairSymmetric(c: Config, a: Node, b: Node)
    requires Pair(c, a, b)
    ensures Pair(c, b, a)
  {}

  lemma PairCpu(c: Config, a: Node, b: Node, addr: nat, data: seq<Byte>)
    requires Pair(c, a, b) && CpuEnabled(c, a, addr, data)
    ensures Pair(c, CpuStep(c, a, addr, data), b)
  {
    CpuKeeps(c, a, b, addr, data);
    DataCpu(c, a, b, addr, data);
  }

  lemma PairDeliver(c: Config, a: Node, b: Node)
    requires Pair(c, a, b) && CanDeliver(a, b)
    ensures var (a', b') := Deliver(a, b); Pair(c, a', b')
  {
    DeliverKeeps(c, a, b);
    DataDeliver(c, a, b);
  }

  lemma DataComplete(c: Config, a: Node, b: Node)
    requires Data(c, a, b) && a.slot.Accepted?
    ensures Data(c, Complete(a), b)
  {}

  lemma PairComplete(c: Config, a: Node, b: Node)
    requires Pair(c, a, b) && a.slot.Accepted?
    ensures Pair(c, Complete(a), b)
  {
    CompleteKeeps(c, a, b);
    DataComplete(c, a, b);
  }

  /** Each step of the program uses up work. */
  lemma CpuPays(c: Config, a: Node, addr: nat, data: seq<Byte>)
    requires CpuEnabled(c, a, addr, data)
    ensures Left(c, CpuStep(c, a, addr, data)) < Left(c, a)
  {}

  /** Unless both ranks are done, one of them or the fabric can move. */
  lemma CanMove(c: Config, a: Node, b: Node)
    requires Core(c, a, b)
    requires !a.pc.Done? || !b.pc.Done?
    requires !CanDeliver(a, b) && !CanDeliver(b, a) && !a.slot.Accepted? && !b.slot.Accepted?
    requires !CpuEnabled(c, a, 1, seq(Size(c, a.round), _ => 0))
    ensures CpuEnabled(c, b, 1, seq(Size(c, b.round), _ => 0))
  {}

  /** Nothing is left behind when both ranks are done, and every payload has arrived. */
  lemma AtTheEnd(c: Config, a: Node, b: Node)
    requires Pair(c, a, b) && a.pc.Done? && b.pc.Done?
    ensures a.slot.Idle? && a.rcq == [] && a.heap == map[] && a.posted == MAX_RECV_NUM
    ensures a.got == b.log && |a.got| == |c.sched|
  {}

  // ---------- For one rank, between two statements ----------

  /** What a rank may rely on. */
  lemma RankFacts(c: Config, a: Node, b: Node)
    requires Pair(c, a, b)
    ensures a.ok && a.rank < 2 && b.rank == 1 - a.rank && a.round <= |c.sched| && Left(c, a) >= 0
    ensures |a.sendBuf| == |a.recvBuf| == c.maxSize && a.posted == MAX_RECV_NUM
    ensures a.pc.Done? <==> a.round == |c.sched|
    ensures a.pc.Stage? || a.pc.AwaitRts? || a.pc.Done? ==>
              a.heap == map[] && |a.log| == SendsDone(a) && |a.got| == RecvsDone(a)
  {}

  /** What a rank may rely on at its peer. */
  lemma PeerFacts(c: Config, a: Node, b: Node)
    requires Pair(c, a, b)
    ensures Left(c, b) >= 0 && a.got <= b.log && |b.log| <= |c.sched|
    ensures b.pc.Stage? ==> |b.log| == b.round < |c.sched|
  {}

  lemma LogKept(c: Config, a: Node, addr: nat, data: seq<Byte>)
    requires CpuEnabled(c, a, addr, data) && RecvPc(a.pc)
    ensures CpuStep(c, a, addr, data).log == a.log
  {}

  /** Only staging a payload adds to what a rank has staged. */
  lemma LogGrows(c: Config, a: Node, addr: nat, data: seq<Byte>)
    requires CpuEnabled(c, a, addr, data)
    ensures CpuStep(c, a, addr, data).log == if a.pc.Stage? then a.log + [data] else a.log
  {
    if RecvPc(a.pc) {
      LogKept(c, a, addr, data);
    }
  }
}
