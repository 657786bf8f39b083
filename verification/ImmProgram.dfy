/** The rendezvous with an immediate: one rank's program, RTS then RTR then an RDMA write that
    carries the short key of the receiver's context, and the invariant two ranks keep. */
module ImmProgram {
  import opened Bytes
  import opened Verbs
  import LcmArchive

  const MSG_RTS := 0
  const MSG_RTR := 1
  const RTS_FIELDS := 2
  const RTR_FIELDS := 4

  /** LCM_archive_init(&recv_ctx_archive, 10) */
  const ARCHIVE_BITS: nat := 10

  predicate Archived(a: Node) { LcmArchive.Spacious(a.archive, ARCHIVE_BITS) }

  predicate NoKeys(slots: seq<nat>) { forall k :: 0 <= k < |slots| ==> slots[k] == LcmArchive.EMPTY }

  // ---------- What each handler does ----------

  function PostRts(a: Node, addr: nat, size: nat): Node {
    Post(a.(heap := a.heap[addr := SendCtx(a.sendAddr, size, 0)],
            rts := Line(addr, size, a.rts.w2, a.rts.w3)),
         SendImm(RtsLine, RTS_FIELDS, MSG_RTS))
  }

  /** The context is archived under a short key, which goes out in a 16-bit field. */
  function HandleRts(a: Node, addr: nat, size: nat): Node {
    if Archived(a) && LcmArchive.Put(a.archive, ARCHIVE_BITS, addr).Stored? then
      LcmArchive.StoredInside(a.archive, ARCHIVE_BITS, addr);
      AnswerRts(a, addr, size, LcmArchive.Put(a.archive, ARCHIVE_BITS, addr).key)
    else
      a.(ok := false)
  }

  function AnswerRts(a: Node, addr: nat, size: nat, key: nat): Node
    requires key < |a.archive|
  {
    Post(a.(ok := a.ok && a.wc.opcode == OpRecv && a.wc.imm == MSG_RTS && a.ctl.w1 <= size,
            heap := a.heap[addr := RecvCtx(a.recvAddr, size, 0)],
            archive := a.archive[key := addr],
            rtr := Line(a.ctl.w0, a.recvAddr, a.rkey, key % 0x1_0000)),
         SendImm(RtrLine, RTR_FIELDS, MSG_RTR))
  }

  /** The send context is freed as soon as the write is posted. */
  function HandleRtr(a: Node): Node {
    var p := a.ctl.w0;
    if p in a.heap && a.heap[p].SendCtx? then
      var ctx := a.heap[p];
      Post(a.(ok := a.ok && a.wc.opcode == OpRecv && a.wc.imm == MSG_RTR, heap := a.heap - {p}),
           RdmaWriteImm(ctx.buf, ctx.size, a.ctl.w1, a.ctl.w2, a.ctl.w3))
    else
      a.(ok := false)
  }

  function HandleWriteImm(a: Node): Node {
    var key := a.wc.imm;
    if key < |a.archive| then
      var p := a.archive[key];
      a.(ok := a.ok && a.wc.opcode == OpRecvWithImm && p in a.heap && a.heap[p].RecvCtx?,
         archive := a.archive[key := LcmArchive.EMPTY],
         heap := a.heap - {p})
    else
      a.(ok := false)
  }

  // ---------- One rank's program ----------

  predicate CpuEnabled(c: Config, a: Node, addr: nat, data: seq<Byte>) {
    match a.pc
    case Stage => |data| == Size(c, a.round) && |data| <= |a.sendBuf|
    case Announce => addr > 0 && addr !in a.heap
    case AwaitRtsSent => a.slot.Finished?
    case AwaitRtr => |a.rcq| > 0
    case GotRtr => true
    case AwaitWritten => a.slot.Finished?
    case AwaitRts => |a.rcq| > 0
    case GotRts => addr > 0 && addr !in a.heap
    case AwaitRtrSent => a.slot.Finished?
    case AwaitImm => |a.rcq| > 0
    case GotImm => true
    case CheckBuf => Size(c, a.round) <= |a.recvBuf|
    case _ => false
  }

  function CpuStep(c: Config, a: Node, addr: nat, data: seq<Byte>): Node
    requires CpuEnabled(c, a, addr, data)
  {
    var size := Size(c, a.round);
    match a.pc
    case Stage => WriteBuffer(a, data).(pc := Announce)
    case Announce => PostRts(a, addr, size).(pc := AwaitRtsSent)
    case AwaitRtsSent => PollSendOf(a, OpSend).(pc := AwaitRtr)
    case AwaitRtr => PollRecv(a).(pc := GotRtr)
    case GotRtr => HandleRtr(a).(pc := AwaitWritten)
    case AwaitWritten => Advance(c, PollSendOf(a, OpWrite))
    case AwaitRts => PollRecv(a).(pc := GotRts)
    case GotRts => HandleRts(a, addr, size).(pc := AwaitRtrSent)
    case AwaitRtrSent => PollSendOf(a, OpSend).(pc := AwaitImm)
    case AwaitImm => PollRecv(a).(pc := GotImm)
    case GotImm => HandleWriteImm(a).(pc := CheckBuf)
    case CheckBuf => Advance(c, CheckBuffer(a, size))
  }

  /** The assertions of the program, statement by statement: a step fails exactly where one of them does, or
      where a context, a free slot or a key is not there, or a request is posted before the completion of
      the one before was polled. */
  lemma Assertions(c: Config, a: Node, addr: nat, data: seq<Byte>)
    requires CpuEnabled(c, a, addr, data)
    ensures CpuStep(c, a, addr, data).ok == (
              && a.ok
              && match a.pc
                 case Announce => a.slot.Idle?
                 case AwaitRtsSent => a.slot.wc.opcode == OpSend
                 case GotRtr => && a.slot.Idle? && a.wc.opcode == OpRecv && a.wc.imm == 1
                                && a.ctl.w0 in a.heap && a.heap[a.ctl.w0].SendCtx?
                 case AwaitWritten => a.slot.wc.opcode == OpWrite
                 case GotRts => && a.slot.Idle? && a.wc.opcode == OpRecv && a.wc.imm == 0
                                && a.ctl.w1 <= Size(c, a.round)
                                && Archived(a) && LcmArchive.Put(a.archive, ARCHIVE_BITS, addr).Stored?
                 case AwaitRtrSent => a.slot.wc.opcode == OpSend
                 case GotImm => && a.wc.opcode == OpRecvWithImm && a.wc.imm < |a.archive|
                                && a.archive[a.wc.imm] in a.heap && a.heap[a.archive[a.wc.imm]].RecvCtx?
                 case _ => true)
  {
    if a.pc.GotRts? {
      RtsAssertions(c, a, addr);
    }
  }

  lemma RtsAssertions(c: Config, a: Node, addr: nat)
    ensures HandleRts(a, addr, Size(c, a.round)).ok == (
              && a.ok && a.slot.Idle? && a.wc.opcode == OpRecv && a.wc.imm == 0 && a.ctl.w1 <= Size(c, a.round)
              && Archived(a) && LcmArchive.Put(a.archive, ARCHIVE_BITS, addr).Stored?)
  {}

  // ---------- First layer: where the ranks are, and how many messages lie between them ----------

  /** The RTS is posted, and its answer not handled. */
  predicate Holding(a: Node) { a.pc.AwaitRtsSent? || a.pc.AwaitRtr? || a.pc.GotRtr? }

  /** The RTS is answered, and the write that brings the key back not handled. */
  predicate Expecting(a: Node) { a.pc.AwaitRtrSent? || a.pc.AwaitImm? || a.pc.GotImm? }

  /** Messages a has posted, the write among them: two in a sending half, one in a receiving half. */
  function Sent(a: Node): nat {
    3 * a.round + (if !a.second then 0 else if a.rank == 0 then 2 else 1) +
    if a.pc.AwaitWritten? then 2
    else if Holding(a) || Expecting(a) || a.pc.CheckBuf? then 1
    else 0
  }

  /** Messages a has polled: one in a sending half, two in a receiving half. */
  function Polled(a: Node): nat {
    3 * a.round + (if !a.second then 0 else if a.rank == 0 then 1 else 2) +
    if a.pc.GotImm? || a.pc.CheckBuf? then 2
    else if a.pc.GotRtr? || a.pc.AwaitWritten? || a.pc.GotRts? || a.pc.AwaitRtrSent? || a.pc.AwaitImm? then 1
    else 0
  }

  function Delivered(a: Node): int {
    Sent(a) - if a.slot.Queued? && NeedsCredit(a.slot.w) then 1 else 0
  }

  predicate SendPc(pc: Pc) {
    pc.Stage? || pc.Announce? || pc.AwaitRtsSent? || pc.AwaitRtr? || pc.GotRtr? || pc.AwaitWritten?
  }

  predicate RecvPc(pc: Pc) {
    pc.AwaitRts? || pc.GotRts? || pc.AwaitRtrSent? || pc.AwaitImm? || pc.GotImm? || pc.CheckBuf?
  }

  predicate Control(c: Config, a: Node) {
    && a.ok
    && a.rank < 2
    && a.round <= |c.sched|
    && (a.round == |c.sched| ==> !a.second)
    && (a.pc.Done? <==> a.round == |c.sched|)
    && (a.pc.Done? || if Sending(a) then SendPc(a.pc) else RecvPc(a.pc))
    && |a.sendBuf| == c.maxSize && |a.recvBuf| == c.maxSize
    && a.posted == MAX_RECV_NUM
    && Archived(a)
  }

  predicate SlotFits(c: Config, a: Node, b: Node) {
    match a.pc
    case AwaitRtsSent => Pending(a, SendImm(RtsLine, RTS_FIELDS, MSG_RTS))
    case AwaitRtrSent => Pending(a, SendImm(RtrLine, RTR_FIELDS, MSG_RTR))
    case AwaitWritten =>
      if a.slot.Queued? then a.slot == Queued(RdmaWriteImm(a.sendAddr, Size(c, a.round), b.recvAddr, b.rkey, b.rtr.w3))
      else (a.slot.Accepted? && a.slot.w.RdmaWriteImm?) || (a.slot.Finished? && a.slot.wc.opcode == OpWrite)
    case _ => a.slot.Idle?
  }

  /** The next thing b polls: an RTS, an RTR, or the write with its key. */
  predicate Arrived(b: Node, x: Wc) {
    if b.pc.AwaitRtrSent? || b.pc.AwaitImm? then x.opcode == OpRecvWithImm && x.imm == b.rtr.w3
    else if b.pc.GotRts? || b.pc.GotImm? || b.pc.CheckBuf? then false
    else if b.pc.Stage? || b.pc.Announce? || b.pc.AwaitRtsSent? || b.pc.AwaitRtr? then
      x.opcode == OpRecv && x.imm == MSG_RTR
    else x.opcode == OpRecv && x.imm == MSG_RTS
  }

  predicate Inbox(a: Node, b: Node) {
    && |b.rcq| == Delivered(a) - Polled(b)
    && |b.rcq| <= 1
    && (|b.rcq| > 0 ==> Arrived(b, b.rcq[0]))
    && (b.pc.GotRts? ==> b.wc.opcode == OpRecv && b.wc.imm == MSG_RTS)
    && (b.pc.GotRtr? ==> b.wc.opcode == OpRecv && b.wc.imm == MSG_RTR)
    && (b.pc.GotImm? ==> b.wc.opcode == OpRecvWithImm && b.wc.imm == b.rtr.w3)
  }

  /** An RTS (or RTR) lies in b's receive line and b has not handled it. */
  predicate RtsOpen(b: Node) {
    b.pc.GotRts? || (|b.rcq| > 0 && (b.pc.AwaitRts? || b.pc.Done? || b.pc.GotRtr? || b.pc.AwaitWritten?))
  }

  predicate RtrOpen(b: Node) {
    b.pc.GotRtr? || (|b.rcq| > 0 && (b.pc.AwaitRtsSent? || b.pc.AwaitRtr?))
  }

  /** The contexts a owns: one at most; a receive context is archived under the announced key. */
  predicate Contexts(c: Config, a: Node) {
    if Holding(a) then
      a.heap == map[a.rts.w0 := SendCtx(a.sendAddr, Size(c, a.round), 0)] && NoKeys(a.archive)
    else if Expecting(a) then
      && a.rtr.w3 < LcmArchive.Cap(ARCHIVE_BITS) && a.rtr.w3 < |a.archive|
      && a.heap == map[a.archive[a.rtr.w3] := RecvCtx(a.recvAddr, Size(c, a.round), 0)]
      && NoKeys(a.archive[a.rtr.w3 := LcmArchive.EMPTY])
    else
      a.heap == map[] && NoKeys(a.archive)
  }

  predicate Lines(c: Config, a: Node, b: Node) {
    && (Holding(a) ==> a.rts.w1 == Size(c, a.round))
    && (Expecting(b) ==> b.rtr.w1 == b.recvAddr && b.rtr.w2 == b.rkey)
    && (Expecting(b) && Holding(a) ==> b.rtr.w0 == a.rts.w0)
    && (RtsOpen(b) ==> b.ctl.w0 == a.rts.w0 && b.ctl.w1 == a.rts.w1)
    && (RtrOpen(b) ==> b.ctl == a.rtr)
  }

  predicate Counts(c: Config, a: Node, b: Node) {
    && ValidConfig(c)
    && a.rank + b.rank == 1
    && Control(c, a) && Control(c, b)
    && SlotFits(c, a, b) && SlotFits(c, b, a)
    && Inbox(a, b) && Inbox(b, a)
  }

  predicate Core(c: Config, a: Node, b: Node) {
    && Counts(c, a, b)
    && Contexts(c, a) && Contexts(c, b)
    && Lines(c, a, b) && Lines(c, b, a)
  }

  predicate FreshArchive(a: Node) { Archived(a) && NoKeys(a.archive) }

  lemma InitCore(c: Config, a: Node, b: Node)
    requires ValidConfig(c) && Fresh(c, a) && Fresh(c, b) && a.rank + b.rank == 1
    requires FreshArchive(a) && FreshArchive(b)
    ensures Core(c, a, b)
  {}

  lemma CompleteCounts(c: Config, a: Node, b: Node)
    requires Counts(c, a, b) && a.slot.Accepted?
    ensures Counts(c, Complete(a), b)
  {}

  lemma CompleteKeeps(c: Config, a: Node, b: Node)
    requires Core(c, a, b) && a.slot.Accepted?
    ensures Core(c, Complete(a), b)
  {
    CompleteCounts(c, a, b);
  }

  lemma DeliverRtsCounts(c: Config, a: Node, b: Node)
    requires Counts(c, a, b) && CanDeliver(a, b) && a.pc.AwaitRtsSent?
    ensures var (a', b') := Deliver(a, b); Counts(c, a', b')
  {}

  lemma DeliverRtsKeeps(c: Config, a: Node, b: Node)
    requires Core(c, a, b) && CanDeliver(a, b) && a.pc.AwaitRtsSent?
    ensures var (a', b') := Deliver(a, b); Core(c, a', b')
  {
    SizeFits(c, a.round);
    DeliverRtsCounts(c, a, b);
  }

  /** While an RTR is on its way, the peer sits in the same half, waiting for it. */
  lemma PeerHolds(c: Config, a: Node, b: Node)
    requires Counts(c, a, b) && CanDeliver(a, b) && a.pc.AwaitRtrSent?
    ensures a.slot.w == SendImm(RtrLine, RTR_FIELDS, MSG_RTR)
    ensures SameHalf(a, b) && Sending(b) && (b.pc.AwaitRtsSent? || b.pc.AwaitRtr?) && b.rcq == []
  {}

  lemma DeliverRtrCounts(c: Config, a: Node, b: Node)
    requires Counts(c, a, b) && CanDeliver(a, b) && a.pc.AwaitRtrSent?
    ensures var (a', b') := Deliver(a, b); Counts(c, a', b')
  {
    PeerHolds(c, a, b);
  }

  lemma DeliverRtrLines(c: Config, a: Node, b: Node)
    requires Core(c, a, b) && CanDeliver(a, b) && a.pc.AwaitRtrSent?
    ensures var (a', b') := Deliver(a, b); Lines(c, a', b') && Lines(c, b', a')
  {
    PeerHolds(c, a, b);
  }

  lemma DeliverRtrKeeps(c: Config, a: Node, b: Node)
    requires Core(c, a, b) && CanDeliver(a, b) && a.pc.AwaitRtrSent?
    ensures var (a', b') := Deliver(a, b); Core(c, a', b')
  {
    DeliverRtrCounts(c, a, b);
    DeliverRtrLines(c, a, b);
  }

  lemma DeliverWriteKeeps(c: Config, a: Node, b: Node)
    requires Core(c, a, b) && CanDeliver(a, b) && a.pc.AwaitWritten?
    ensures var (a', b') := Deliver(a, b); Core(c, a', b')
  {
    SizeFits(c, a.round);
    assert SameHalf(a, b) && Expecting(b);
  }

  lemma DeliverKeeps(c: Config, a: Node, b: Node)
    requires Core(c, a, b) && CanDeliver(a, b)
    ensures var (a', b') := Deliver(a, b); Core(c, a', b')
  {
    match a.pc
    case AwaitRtsSent => DeliverRtsKeeps(c, a, b);
    case AwaitRtrSent => DeliverRtrKeeps(c, a, b);
    case AwaitWritten => DeliverWriteKeeps(c, a, b);
    case _ => assert false;
  }

  lemma StageKeeps(c: Config, a: Node, b: Node, addr: nat, data: seq<Byte>)
    requires Core(c, a, b) && CpuEnabled(c, a, addr, data) && a.pc.Stage?
    ensures Core(c, CpuStep(c, a, addr, data), b)
  {}

  lemma AnnounceCounts(c: Config, a: Node, b: Node, addr: nat, data: seq<Byte>)
    requires Counts(c, a, b) && CpuEnabled(c, a, addr, data) && a.pc.Announce?
    ensures Counts(c, CpuStep(c, a, addr, data), b)
  {}

  lemma AnnounceKeeps(c: Config, a: Node, b: Node, addr: nat, data: seq<Byte>)
    requires Core(c, a, b) && CpuEnabled(c, a, addr, data) && a.pc.Announce?
    ensures Core(c, CpuStep(c, a, addr, data), b)
  {
    AnnounceCounts(c, a, b, addr, data);
  }

  lemma AwaitRtsSentKeeps(c: Config, a: Node, b: Node, addr: nat, data: seq<Byte>)
    requires Core(c, a, b) && CpuEnabled(c, a, addr, data) && a.pc.AwaitRtsSent?
    ensures Core(c, CpuStep(c, a, addr, data), b)
  {}

  lemma AwaitRtrKeeps(c: Config, a: Node, b: Node, addr: nat, data: seq<Byte>)
    requires Core(c, a, b) && CpuEnabled(c, a, addr, data) && a.pc.AwaitRtr?
    ensures Core(c, CpuStep(c, a, addr, data), b)
  {}

  lemma GotRtrCounts(c: Config, a: Node, b: Node, addr: nat, data: seq<Byte>)
    requires Core(c, a, b) && CpuEnabled(c, a, addr, data) && a.pc.GotRtr?
    ensures Counts(c, CpuStep(c, a, addr, data), b)
  {}

  lemma GotRtrContexts(c: Config, a: Node, b: Node, addr: nat, data: seq<Byte>)
    requires Core(c, a, b) && CpuEnabled(c, a, addr, data) && a.pc.GotRtr?
    ensures Contexts(c, CpuStep(c, a, addr, data))
  {}

  lemma GotRtrLines(c: Config, a: Node, b: Node, addr: nat, data: seq<Byte>)
    requires Core(c, a, b) && CpuEnabled(c, a, addr, data) && a.pc.GotRtr?
    ensures var a' := CpuStep(c, a, addr, data); Lines(c, a', b) && Lines(c, b, a')
  {}

  lemma GotRtrKeeps(c: Config, a: Node, b: Node, addr: nat, data: seq<Byte>)
    requires Core(c, a, b) && CpuEnabled(c, a, addr, data) && a.pc.GotRtr?
    ensures Core(c, CpuStep(c, a, addr, data), b)
  {
    GotRtrCounts(c, a, b, addr, data);
    GotRtrContexts(c, a, b, addr, data);
    GotRtrLines(c, a, b, addr, data);
  }

  lemma AwaitWrittenKeeps(c: Config, a: Node, b: Node, addr: nat, data: seq<Byte>)
    requires Core(c, a, b) && CpuEnabled(c, a, addr, data) && a.pc.AwaitWritten?
    ensures Core(c, CpuStep(c, a, addr, data), b)
  {}

  lemma AwaitRtsKeeps(c: Config, a: Node, b: Node, addr: nat, data: seq<Byte>)
    requires Core(c, a, b) && CpuEnabled(c, a, addr, data) && a.pc.AwaitRts?
    ensures Core(c, CpuStep(c, a, addr, data), b)
  {}

  lemma GotRtsCounts(c: Config, a: Node, b: Node, addr: nat, data: seq<Byte>)
    requires Core(c, a, b) && CpuEnabled(c, a, addr, data) && a.pc.GotRts?
    ensures Counts(c, CpuStep(c, a, addr, data), b)
  {}

  lemma GotRtsContexts(c: Config, a: Node, b: Node, addr: nat, data: seq<Byte>)
    requires Core(c, a, b) && CpuEnabled(c, a, addr, data) && a.pc.GotRts?
    ensures Contexts(c, CpuStep(c, a, addr, data))
  {}

  lemma GotRtsLines(c: Config, a: Node, b: Node, addr: nat, data: seq<Byte>)
    requires Core(c, a, b) && CpuEnabled(c, a, addr, data) && a.pc.GotRts?
    ensures var a' := CpuStep(c, a, addr, data); Lines(c, a', b) && Lines(c, b, a')
  {}

  lemma GotRtsKeeps(c: Config, a: Node, b: Node, addr: nat, data: seq<Byte>)
    requires Core(c, a, b) && CpuEnabled(c, a, addr, data) && a.pc.GotRts?
    ensures Core(c, CpuStep(c, a, addr, data), b)
  {
    GotRtsCounts(c, a, b, addr, data);
    GotRtsContexts(c, a, b, addr, data);
    GotRtsLines(c, a, b, addr, data);
  }

  lemma AwaitRtrSentCounts(c: Config, a: Node, b: Node, addr: nat, data: seq<Byte>)
    requires Counts(c, a, b) && CpuEnabled(c, a, addr, data) && a.pc.AwaitRtrSent?
    ensures Counts(c, CpuStep(c, a, addr, data), b)
  {}

  lemma AwaitRtrSentKeeps(c: Config, a: Node, b: Node, addr: nat, data: seq<Byte>)
    requires Core(c, a, b) && CpuEnabled(c, a, addr, data) && a.pc.AwaitRtrSent?
    ensures Core(c, CpuStep(c, a, addr, data), b)
  {
    AwaitRtrSentCounts(c, a, b, addr, data);
  }

  lemma AwaitImmKeeps(c: Config, a: Node, b: Node, addr: nat, data: seq<Byte>)
    requires Core(c, a, b) && CpuEnabled(c, a, addr, data) && a.pc.AwaitImm?
    ensures Core(c, CpuStep(c, a, addr, data), b)
  {}

  lemma GotImmKeeps(c: Config, a: Node, b: Node, addr: nat, data: seq<Byte>)
    requires Core(c, a, b) && CpuEnabled(c, a, addr, data) && a.pc.GotImm?
    ensures Core(c, CpuStep(c, a, addr, data), b)
  {}

  lemma CheckBufKeeps(c: Config, a: Node, b: Node, addr: nat, data: seq<Byte>)
    requires Core(c, a, b) && CpuEnabled(c, a, addr, data) && a.pc.CheckBuf?
    ensures Core(c, CpuStep(c, a, addr, data), b)
  {}

  lemma CpuKeeps(c: Config, a: Node, b: Node, addr: nat, data: seq<Byte>)
    requires Core(c, a, b) && CpuEnabled(c, a, addr, data)
    ensures Core(c, CpuStep(c, a, addr, data), b)
  {
    match a.pc
    case Stage => StageKeeps(c, a, b, addr, data);
    case Announce => AnnounceKeeps(c, a, b, addr, data);
    case AwaitRtsSent => AwaitRtsSentKeeps(c, a, b, addr, data);
    case AwaitRtr => AwaitRtrKeeps(c, a, b, addr, data);
    case GotRtr => GotRtrKeeps(c, a, b, addr, data);
    case AwaitWritten => AwaitWrittenKeeps(c, a, b, addr, data);
    case AwaitRts => AwaitRtsKeeps(c, a, b, addr, data);
    case GotRts => GotRtsKeeps(c, a, b, addr, data);
    case AwaitRtrSent => AwaitRtrSentKeeps(c, a, b, addr, data);
    case AwaitImm => AwaitImmKeeps(c, a, b, addr, data);
    case GotImm => GotImmKeeps(c, a, b, addr, data);
    case CheckBuf => CheckBufKeeps(c, a, b, addr, data);
  }

  // ---------- Second layer: the payloads ----------

  predicate Staged(a: Node) {
    a.pc.Announce? || Holding(a) || a.pc.AwaitWritten?
  }

  predicate History(c: Config, a: Node) {
    && |a.log| == SendsDone(a) + (if Staged(a) then 1 else 0)
    && |a.got| == RecvsDone(a)
    && (Staged(a) ==>
          && |a.log| > 0 && Size(c, a.round) <= |a.sendBuf|
          && a.log[|a.log| - 1] == a.sendBuf[..Size(c, a.round)])
  }

  /** b's write of this half has been placed in a's receive buffer, and a has not checked it yet. */
  predicate Placed(a: Node, b: Node) {
    || a.pc.CheckBuf?
    || (Expecting(a) && (SameHalf(a, b) ==> b.pc.AwaitWritten? && !b.slot.Queued?))
  }

  predicate Payload(c: Config, a: Node, b: Node) {
    && a.got <= b.log
    && (Placed(a, b) ==>
          && |a.got| < |b.log|
          && Size(c, a.round) <= |a.recvBuf|
          && a.recvBuf[..Size(c, a.round)] == b.log[|a.got|])
  }

  predicate Data(c: Config, a: Node, b: Node) {
    History(c, a) && History(c, b) && Payload(c, a, b) && Payload(c, b, a)
  }

  /** While b's write is on its way, a sits in the same half, waiting for it. */
  lemma PeerExpects(c: Config, a: Node, b: Node)
    requires Counts(c, a, b) && b.pc.AwaitWritten? && b.slot.Queued?
    ensures SameHalf(a, b) && (a.pc.AwaitRtrSent? || a.pc.AwaitImm?)
    ensures !a.slot.Queued?
  {}

  /** The immediate is received only once the write has been placed. */
  lemma ImmMeansPlaced(c: Config, a: Node, b: Node)
    requires Counts(c, a, b) && a.pc.GotImm?
    ensures Placed(a, b)
  {}

  lemma DataDeliverWrite(c: Config, a: Node, b: Node)
    requires Core(c, a, b) && CanDeliver(a, b) && Data(c, a, b) && a.pc.AwaitWritten?
    ensures var (a', b') := Deliver(a, b); Data(c, a', b')
  {
    SizeFits(c, a.round);
    PeerExpects(c, b, a);
    var (a', b') := Deliver(a, b);
    assert b'.recvBuf[..Size(c, b.round)] == a.sendBuf[..Size(c, a.round)];
    assert |b.got| == |a.log| - 1;
  }

  lemma DataDeliverMessage(c: Config, a: Node, b: Node)
    requires Data(c, a, b) && CanDeliver(a, b) && a.slot.w.SendImm? && !a.pc.AwaitWritten?
    ensures var (a', b') := Deliver(a, b); Data(c, a', b')
  {}

  lemma DataDeliver(c: Config, a: Node, b: Node)
    requires Core(c, a, b) && CanDeliver(a, b) && Data(c, a, b)
    ensures var (a', b') := Deliver(a, b); Data(c, a', b')
  {
    if a.pc.AwaitWritten? {
      DataDeliverWrite(c, a, b);
    } else {
      DataDeliverMessage(c, a, b);
    }
  }

  lemma DataStage(c: Config, a: Node, b: Node, addr: nat, data: seq<Byte>)
    requires Counts(c, a, b) && CpuEnabled(c, a, addr, data) && a.pc.Stage? && Data(c, a, b)
    ensures Data(c, CpuStep(c, a, addr, data), b)
  {
    var a' := CpuStep(c, a, addr, data);
    assert a'.sendBuf[..|data|] == data;
    assert b.got <= a.log <= a'.log;
  }

  lemma DataCheck(c: Config, a: Node, b: Node)
    requires Core(c, a, b) && CpuEnabled(c, a, 0, []) && a.pc.CheckBuf? && Data(c, a, b)
    ensures Data(c, CpuStep(c, a, 0, []), b)
  {
    var a' := CpuStep(c, a, 0, []);
    assert a'.got == a.got + [b.log[|a.got|]];
    assert a'.got <= b.log;
    assert !Staged(a) && !Staged(a') && !Placed(a', b) && a'.log == a.log;
  }

  /** A step that leaves the payloads and the histories alone. */
  lemma DataSame(c: Config, a: Node, b: Node, a': Node)
    requires Data(c, a, b)
    requires a'.rank == a.rank && a'.log == a.log && a'.got == a.got
    requires a'.sendBuf == a.sendBuf && a'.recvBuf == a.recvBuf
    requires (SameHalf(a, a') && Staged(a') == Staged(a)) || (!Staged(a') && History(c, a'))
    requires Placed(a', b) ==> Placed(a, b) && a'.round == a.round
    requires Placed(b, a') ==> Placed(b, a)
    ensures Data(c, a', b)
  {}

  /** Where a rank only announces or polls. */
  predicate Quiet(pc: Pc) {
    pc.Announce? || pc.AwaitRtsSent? || pc.AwaitRtr? || pc.AwaitRts? || pc.AwaitRtrSent? || pc.AwaitImm?
  }

  /** What such a step leaves alone. */
  lemma QuietStep(c: Config, a: Node, addr: nat, data: seq<Byte>)
    requires CpuEnabled(c, a, addr, data)
    requires Quiet(a.pc)
    ensures var a' := CpuStep(c, a, addr, data);
            && SameHalf(a, a') && a'.rank == a.rank && a'.log == a.log && a'.got == a.got
            && a'.sendBuf == a.sendBuf && a'.recvBuf == a.recvBuf
            && Staged(a') == Staged(a) && Expecting(a') == Expecting(a)
            && !a'.pc.AwaitWritten? && !a'.pc.CheckBuf?
  {}

  lemma DataQuiet(c: Config, a: Node, b: Node, addr: nat, data: seq<Byte>)
    requires CpuEnabled(c, a, addr, data) && Data(c, a, b)
    requires Quiet(a.pc)
    ensures Data(c, CpuStep(c, a, addr, data), b)
  {
    QuietStep(c, a, addr, data);
    DataSame(c, a, b, CpuStep(c, a, addr, data));
  }

  lemma DataWrite(c: Config, a: Node, b: Node)
    requires Core(c, a, b) && CpuEnabled(c, a, 0, []) && a.pc.GotRtr? && Data(c, a, b)
    ensures Data(c, CpuStep(c, a, 0, []), b)
  {
    var a' := CpuStep(c, a, 0, []);
    assert SameHalf(a, a') && Staged(a') && a'.slot.Queued?;
    DataSame(c, a, b, a');
  }

  lemma DataAnswer(c: Config, a: Node, b: Node, addr: nat)
    requires Counts(c, a, b) && CpuEnabled(c, a, addr, []) && a.pc.GotRts? && Data(c, a, b)
    ensures Data(c, CpuStep(c, a, addr, []), b)
  {
    var a' := CpuStep(c, a, addr, []);
    assert SameHalf(a, b) && Holding(b);
    DataSame(c, a, b, a');
  }

  lemma DataWritten(c: Config, a: Node, b: Node)
    requires Counts(c, a, b) && CpuEnabled(c, a, 0, []) && a.pc.AwaitWritten? && Data(c, a, b)
    ensures Data(c, CpuStep(c, a, 0, []), b)
  {
    var a' := CpuStep(c, a, 0, []);
    assert !Staged(a') && History(c, a') && !Placed(a', b);
    DataSame(c, a, b, a');
  }

  lemma DataImm(c: Config, a: Node, b: Node)
    requires Core(c, a, b) && CpuEnabled(c, a, 0, []) && a.pc.GotImm? && Data(c, a, b)
    ensures Data(c, CpuStep(c, a, 0, []), b)
  {
    ImmMeansPlaced(c, a, b);
    DataSame(c, a, b, CpuStep(c, a, 0, []));
  }

  lemma DataSending(c: Config, a: Node, b: Node, addr: nat, data: seq<Byte>)
    requires Core(c, a, b) && CpuEnabled(c, a, addr, data) && Data(c, a, b) && Sending(a)
    ensures Data(c, CpuStep(c, a, addr, data), b)
  {
    if a.pc.Stage? {
      DataStage(c, a, b, addr, data);
    } else if a.pc.GotRtr? {
      DataWrite(c, a, b);
    } else if a.pc.AwaitWritten? {
      DataWritten(c, a, b);
    } else {
      DataQuiet(c, a, b, addr, data);
    }
  }

  lemma DataReceiving(c: Config, a: Node, b: Node, addr: nat, data: seq<Byte>)
    requires Core(c, a, b) && CpuEnabled(c, a, addr, data) && Data(c, a, b) && !Sending(a)
    ensures Data(c, CpuStep(c, a, addr, data), b)
  {
    if a.pc.GotRts? {
      DataAnswer(c, a, b, addr);
    } else if a.pc.GotImm? {
      DataImm(c, a, b);
    } else if a.pc.CheckBuf? {
      DataCheck(c, a, b);
    } else {
      DataQuiet(c, a, b, addr, data);
    }
  }

  lemma DataCpu(c: Config, a: Node, b: Node, addr: nat, data: seq<Byte>)
    requires Core(c, a, b) && CpuEnabled(c, a, addr, data) && Data(c, a, b)
    ensures Data(c, CpuStep(c, a, addr, data), b)
  {
    if Sending(a) {
      DataSending(c, a, b, addr, data);
    } else {
      DataReceiving(c, a, b, addr, data);
    }
  }

  // ---------- The invariant, and what it says ----------

  predicate Pair(c: Config, a: Node, b: Node) { Core(c, a, b) && Data(c, a, b) }

  /** Whenever an RTS is handled the archive is empty, so the put takes its first probe, and the
      key fits both the 16-bit field and the immediate unchanged. */
  lemma PutTakesItsFirstProbe(c: Config, a: Node, b: Node, addr: nat)
    requires Pair(c, a, b) && a.pc.GotRts? && addr > 0
    ensures NoKeys(a.archive)
    ensures LcmArchive.Put(a.archive, ARCHIVE_BITS, addr) == LcmArchive.Stored((addr / 64) % 1024)
    ensures HandleRts(a, addr, Size(c, a.round)).rtr.w3 == (addr / 64) % 1024
  {
    LcmArchive.PutFromAnswers(a.archive, LcmArchive.Home(ARCHIVE_BITS, addr));
    LcmArchive.CapOfTen();
  }

  /** The archive never holds two contexts. */
  lemma OneKeyAtMost(c: Config, a: Node, b: Node, i: nat, j: nat)
    requires Pair(c, a, b)
    requires i < |a.archive| && j < |a.archive|
    requires a.archive[i] != LcmArchive.EMPTY && a.archive[j] != LcmArchive.EMPTY
    ensures i == j
  {
    if Expecting(a) {
      var rest := a.archive[a.rtr.w3 := LcmArchive.EMPTY];
      assert rest[i] == LcmArchive.EMPTY && rest[j] == LcmArchive.EMPTY;
    }
  }

  /** When the write with its immediate is polled, the key it carries finds the one receive
      context, and the peer's payload of this round is in the receive buffer. */
  lemma DeliveredAtImm(c: Config, a: Node, b: Node)
    requires Pair(c, a, b) && a.pc.GotImm?
    ensures a.wc.imm == a.rtr.w3 && a.wc.imm < |a.archive|
    ensures a.heap.Keys == {a.archive[a.wc.imm]}
    ensures HandleWriteImm(a).ok && HandleWriteImm(a).heap == map[] && NoKeys(HandleWriteImm(a).archive)
    ensures |a.got| < |b.log| && a.recvBuf[..Size(c, a.round)] == b.log[|a.got|]
  {
    ImmMeansPlaced(c, a, b);
  }

  /** When the write is posted, the send context the RTR names is the live one. */
  lemma NamedSendContextIsLive(c: Config, a: Node, b: Node)
    requires Pair(c, a, b) && a.pc.GotRtr?
    ensures a.heap.Keys == {a.ctl.w0} && a.ctl.w3 == b.rtr.w3
    ensures HandleRtr(a).ok && HandleRtr(a).heap == map[]
  {}

  lemma InitPair(c: Config, a: Node, b: Node)
    requires ValidConfig(c) && Fresh(c, a) && Fresh(c, b) && a.rank + b.rank == 1
    requires FreshArchive(a) && FreshArchive(b)
    ensures Pair(c, a, b)
  {}

  lemma PairSymmetric(c: Config, a: Node, b: Node)
    requires Pair(c, a, b)
    ensures Pair(c, b, a)
  {}

  lemma PairCpu(c: Config, a: Node, b: Node, addr: nat, data: seq<Byte>)
    requires Pair(c, a, b) && CpuEnabled(c, a, addr, data)
    ensures Pair(c, CpuStep(c, a, addr, data), b)
  {
    CpuKeeps(c, a, b, addr, data);
    DataCpu(c, a, b, addr, data);
  }

  lemma PairDeliver(c: Config, a: Node, b: Node)
    requires Pair(c, a, b) && CanDeliver(a, b)
    ensures var (a', b') := Deliver(a, b); Pair(c, a', b')
  {
    DeliverKeeps(c, a, b);
    DataDeliver(c, a, b);
  }

  lemma DataComplete(c: Config, a: Node, b: Node)
    requires Data(c, a, b) && a.slot.Accepted?
    ensures Data(c, Complete(a), b)
  {}

  lemma PairComplete(c: Config, a: Node, b: Node)
    requires Pair(c, a, b) && a.slot.Accepted?
    ensures Pair(c, Complete(a), b)
  {
    CompleteKeeps(c, a, b);
    DataComplete(c, a, b);
  }

  lemma AnswerPays(c: Config, a: Node, addr: nat, data: seq<Byte>)
    requires CpuEnabled(c, a, addr, data) && a.pc.GotRts?
    ensures Left(c, CpuStep(c, a, addr, data)) < Left(c, a)
  {}

  /** Each step of the program uses up work. */
  lemma CpuPays(c: Config, a: Node, addr: nat, data: seq<Byte>)
    requires CpuEnabled(c, a, addr, data)
    ensures Left(c, CpuStep(c, a, addr, data)) < Left(c, a)
  {
    if a.pc.GotRts? {
      AnswerPays(c, a, addr, data);
    }
  }

  /** Unless both ranks are done, one of them or the fabric can move. */
  lemma CanMove(c: Config, a: Node, b: Node)
    requires Core(c, a, b)
    requires !a.pc.Done? || !b.pc.Done?
    requires !CanDeliver(a, b) && !CanDeliver(b, a) && !a.slot.Accepted? && !b.slot.Accepted?
    requires !CpuEnabled(c, a, 1, seq(Size(c, a.round), _ => 0))
    ensures CpuEnabled(c, b, 1, seq(Size(c, b.round), _ => 0))
  {}

  /** Nothing is left behind when both ranks are done, and every payload has arrived. */
  lemma AtTheEnd(c: Config, a: Node, b: Node)
    requires Pair(c, a, b) && a.pc.Done? && b.pc.Done?
    ensures a.slot.Idle? && a.rcq == [] && a.heap == map[] && NoKeys(a.archive) && a.posted == MAX_RECV_NUM
    ensures a.got == b.log && |a.got| == |c.sched|
  {}

  // ---------- For one rank, between two statements ----------

  /** What a rank may rely on. */
  lemma RankFacts(c: Config, a: Node, b: Node)
    requires Pair(c, a, b)
    ensures a.ok && a.rank < 2 && b.rank == 1 - a.rank && a.round <= |c.sched| && Left(c, a) >= 0
    ensures |a.sendBuf| == |a.recvBuf| == c.maxSize && a.posted == MAX_RECV_NUM
    ensures a.pc.Done? <==> a.round == |c.sched|
    ensures a.pc.Stage? || a.pc.AwaitRts? || a.pc.Done? ==>
              a.heap == map[] && |a.log| == SendsDone(a) && |a.got| == RecvsDone(a)
  {}

  /** What a rank may rely on at its peer. */
  lemma PeerFacts(c: Config, a: Node, b: Node)
    requires Pair(c, a, b)
    ensures Left(c, b) >= 0 && a.got <= b.log && |b.log| <= |c.sched|
    ensures b.pc.Stage? ==> |b.log| == b.round < |c.sched|
  {}

  lemma LogKept(c: Config, a: Node, addr: nat, data: seq<Byte>)
    requires CpuEnabled(c, a, addr, data) && RecvPc(a.pc)
    ensures CpuStep(c, a, addr, data).log == a.log
  {}

  /** Only staging a payload adds to what a rank has staged. */
  lemma LogGrows(c: Config, a: Node, addr: nat, data: seq<Byte>)
    requires CpuEnabled(c, a, addr, data)
    ensures CpuStep(c, a, addr, data).log == if a.pc.Stage? then a.log + [data] else a.log
  {
    if RecvPc(a.pc) {
      LogKept(c, a, addr, data);
    }
  }
}
