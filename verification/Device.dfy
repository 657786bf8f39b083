/** A rank as its C++ program runs it: global state changed in place by the statements of run(), in the
    order of the source, while the peer and the fabric move whenever they can. Every execution is shown
    to be a run of the two-rank system, hence to end, to keep every assertion and to deliver. */
module Device {
  import opened Bytes
  import opened Verbs
  import opened Rendezvous
  import opened RankView
  import ReadProgram
  import WriteProgram
  import ImmProgram
  import LcmArchive

  class Device {
    const p: Protocol
    const c: Config
    const rank: nat
    const sendAddr: nat
    const recvAddr: nat
    const rkey: nat
    const archive: LcmArchive.Archive
    var rtsMsg: Line
    var rtrMsg: Line
    var finMsg: Line
    var controlRecvBuf: Line
    var sendBuf: seq<Byte>
    var recvBuf: seq<Byte>
    var heap: map<nat, Ctx>
    var slot: Slot
    var recvCq: seq<Wc>
    var postedRecvNum: int
    var wc: Wc
    var ok: bool

    /** Where the program stands, what it has staged, and what it has found at its checks. */
    var round: nat
    var second: bool
    var pc: Pc
    var log: seq<seq<Byte>>
    var got: seq<seq<Byte>>

    /** The other rank, what it will stage, and the steps taken so far. */
    var peer: Node
    const peerData: seq<seq<Byte>>
    ghost const start: State
    ghost var trace: seq<Label>

    function View(): Node reads this, archive.ptr {
      Node(rank, round, second, pc, rtsMsg, rtrMsg, finMsg, controlRecvBuf, sendAddr, recvAddr, rkey,
           sendBuf, recvBuf, heap, archive.ptr[..], slot, recvCq, postedRecvNum, wc, ok, log, got)
    }

    ghost function Now(): State reads this, archive.ptr { Both(rank, View(), peer) }

    /** The steps taken so far are a run of the two-rank system that leads to this rank's state being a. */
    ghost predicate LedTo(a: Node) reads `peer, `trace {
      && rank < 2 && archive.nbits == ImmProgram.ARCHIVE_BITS && archive.Valid()
      && Leads(p, c, start, trace, Both(rank, a, peer))
      && Payloads(c, peerData) && peer.log <= peerData
    }

    ghost predicate Running() reads this, archive.ptr { LedTo(View()) }

    ghost function Work(): int reads this, archive.ptr { Left(c, View()) + Left(c, peer) }

    lemma Facts()
      requires Running()
      ensures ok && peer.rank == 1 - rank && round <= |c.sched| && Work() >= 0 && postedRecvNum == MAX_RECV_NUM
      ensures |sendBuf| == |recvBuf| == c.maxSize && Size(c, round) <= c.maxSize
      ensures pc.Done? <==> round == |c.sched|
      ensures pc.Stage? || pc.AwaitRts? || pc.Done? ==>
                heap == map[] && |log| == SendsDone(View()) && |got| == RecvsDone(View())
      ensures peer.pc.Stage? ==> |peer.log| == peer.round < |c.sched|
      ensures got <= peer.log && |peer.log| <= |c.sched|
    {
      LeadsSafely(p, c, start, trace, Now());
      PairSymmetric(p, c, Now().n0, Now().n1);
      RankFacts(p, c, View(), peer);
    }

    lemma WorkIsNatural()
      requires Running()
      ensures Work() >= 0
    {
      Facts();
    }

    lemma BuffersFit()
      requires Running()
      ensures Size(c, round) <= |sendBuf| && Size(c, round) <= |recvBuf|
    {
      Facts();
    }

    /** The peer's next step, and that it stages what it was meant to stage. */
    lemma PeerStepIs(addr: nat, data: seq<Byte>)
      requires Running() && CpuEnabled(p, c, peer, addr, data)
      requires peer.pc.Stage? ==> peer.round < |peerData| && data == peerData[peer.round]
      ensures Enabled(p, c, Now(), Cpu(1 - rank, addr, data))
      ensures var next := CpuStep(p, c, peer, addr, data);
              Step(p, c, Now(), Cpu(1 - rank, addr, data)) == Both(rank, View(), next) && next.log <= peerData
    {
      Facts();
      LogGrows(p, c, peer, addr, data);
      assert peer.pc.Stage? ==> peer.log + [data] == peerData[..peer.round] + [data] == peerData[..peer.round + 1];
    }

    lemma Progress(addr: nat, data: seq<Byte>)
      requires Running() && addr > 0 && addr !in peer.heap && |data| == Size(c, peer.round)
      requires (PollsSend(p, pc) && !slot.Finished?) || (PollsRecv(p, pc) && recvCq == [])
      ensures CanDeliver(View(), peer) || slot.Accepted? || CanDeliver(peer, View()) || peer.slot.Accepted?
              || CpuEnabled(p, c, peer, addr, data)
    {
      LeadsSafely(p, c, start, trace, Now());
      PairSymmetric(p, c, Now().n0, Now().n1);
      SomethingElseMoves(p, c, View(), peer, addr, data);
    }

    /** A step was taken from s, by whomever. */
    ghost method Record(l: Label, s: State)
      requires rank < 2 && archive.nbits == ImmProgram.ARCHIVE_BITS && archive.Valid()
      requires Leads(p, c, start, trace, s) && Enabled(p, c, s, l) && Step(p, c, s, l) == Now()
      requires Payloads(c, peerData) && peer.log <= peerData
      modifies `trace
      ensures Running() && Work() < Measure(c, s)
    {
      LeadsOn(p, c, start, trace, s, l, Now());
      trace := trace + [l];
    }

    /** This rank took its next step, from a. */
    ghost method RecordMine(addr: nat, data: seq<Byte>, a: Node)
      requires LedTo(a) && CpuEnabled(p, c, a, addr, data) && View() == CpuStep(p, c, a, addr, data)
      modifies `trace
      ensures Running()
    {
      Record(Cpu(rank, addr, data), Both(rank, a, peer));
    }

    /** run() up to its first turn: the buffers laid out, the receive queue filled, the archive empty. */
    constructor (p: Protocol, c: Config, rank: nat, sendAddr: nat, recvAddr: nat, rkey: nat, memory: Line,
                 sendBuf: seq<Byte>, recvBuf: seq<Byte>, peer: Node, peerData: seq<seq<Byte>>)
      requires ValidConfig(c) && rank < 2 && |sendBuf| == |recvBuf| == c.maxSize
      requires Fresh(c, peer) && peer.rank == 1 - rank && (p.WriteImm? ==> ImmProgram.FreshArchive(peer))
      requires Payloads(c, peerData)
      ensures Running() && fresh(archive.ptr)
      ensures this.p == p && this.c == c && this.rank == rank && this.peerData == peerData
      ensures AtStart() && round == 0 && !second && log == [] && got == []
    {
      this.p, this.c, this.rank, this.peer, this.peerData := p, c, rank, peer, peerData;
      this.sendAddr, this.recvAddr, this.rkey, this.sendBuf, this.recvBuf := sendAddr, recvAddr, rkey, sendBuf, recvBuf;
      rtsMsg, rtrMsg, finMsg, controlRecvBuf, wc := memory, memory, memory, memory, Wc(OpSend, 0, 0, memory);
      archive := new LcmArchive.Archive(ImmProgram.ARCHIVE_BITS);
      round, second, heap, slot, recvCq, postedRecvNum, ok, log, got := 0, false, map[], Idle, [], 0, true, [], [];
      pc := StartOf(c, rank, 0, false);
      trace := [];
      start := Both(rank, FirstView(c, rank, sendAddr, recvAddr, rkey, memory, sendBuf, recvBuf), peer);
      new;
      CheckAndPostRecvs();
      assert View() == FirstView(c, rank, sendAddr, recvAddr, rkey, memory, sendBuf, recvBuf);
    }

    // ---------- The receive queue ----------

    method PostRecv()
      modifies `postedRecvNum
      ensures postedRecvNum == old(postedRecvNum) + 1
    {
      postedRecvNum := postedRecvNum + 1;
    }

    /** Refills the shared receive queue; whatever the credit was, it ends up where the
        constants put it. */
    method CheckAndPostRecvs()
      modifies `postedRecvNum
      ensures postedRecvNum == Replenished(old(postedRecvNum))
      ensures old(postedRecvNum) <= MAX_RECV_NUM ==> postedRecvNum == MAX_RECV_NUM
    {
      if postedRecvNum < MIN_RECV_NUM {
        var j := postedRecvNum;
        while j < MAX_RECV_NUM
          invariant j == postedRecvNum
          invariant old(postedRecvNum) < MAX_RECV_NUM ==> j <= MAX_RECV_NUM
          invariant old(postedRecvNum) >= MAX_RECV_NUM ==> j == old(postedRecvNum)
        {
          PostRecv();
          j := j + 1;
        }
      }
    }

    // ---------- The peer and the fabric ----------

    /** The adapter delivers this rank's request. */
    method DeliverMine()
      requires Running() && CanDeliver(View(), peer)
      modifies `slot, `recvBuf, `ok, `peer, `trace
      ensures Running() && Work() < old(Work())
    {
      ghost var s := Now();
      DeliverTouches(View(), peer);
      DeliveringIs(p, c, rank, View(), peer);
      var (a, b) := Deliver(View(), peer);
      slot, recvBuf, ok := a.slot, a.recvBuf, a.ok;
      peer := b;
      assert View() == a;
      Record(Deliver_(rank), s);
    }

    /** The adapter delivers a request of the peer. */
    method DeliverPeers()
      requires Running() && CanDeliver(peer, View())
      modifies `controlRecvBuf, `recvCq, `recvBuf, `peer, `trace
      ensures Running() && Work() < old(Work())
    {
      ghost var s := Now();
      Facts();
      DeliverTouches(peer, View());
      DeliveringIs(p, c, rank, View(), peer);
      var (b, a) := Deliver(peer, View());
      controlRecvBuf, recvCq, recvBuf := a.ctl, a.rcq, a.recvBuf;
      peer := b;
      assert View() == a;
      Record(Deliver_(1 - rank), s);
    }

    method CompleteMine()
      requires Running() && slot.Accepted?
      modifies `slot, `trace
      ensures Running() && Work() < old(Work())
    {
      ghost var s := Now();
      slot := Finished(Completion(slot.w));
      Record(Complete_(rank), s);
    }

    method CompletePeers()
      requires Running() && peer.slot.Accepted?
      modifies `peer, `trace
      ensures Running() && Work() < old(Work())
    {
      ghost var s := Now();
      Facts();
      peer := Complete(peer);
      Record(Complete_(1 - rank), s);
    }

    /** The peer's program takes its next step. */
    method PeerSteps(addr: nat, data: seq<Byte>)
      requires Running() && CpuEnabled(p, c, peer, addr, data)
      requires peer.pc.Stage? ==> peer.round < |peerData| && data == peerData[peer.round]
      modifies `peer, `trace
      ensures Running() && Work() < old(Work())
    {
      ghost var s := Now();
      PeerStepIs(addr, data);
      peer := CpuStep(p, c, peer, addr, data);
      Record(Cpu(1 - rank, addr, data), s);
    }

    predicate OutsideCan(k: nat, addr: nat, data: seq<Byte>) reads this, archive.ptr {
      match k
      case 0 => CanDeliver(View(), peer)
      case 1 => slot.Accepted?
      case 2 => CanDeliver(peer, View())
      case 3 => peer.slot.Accepted?
      case _ => CpuEnabled(p, c, peer, addr, data)
    }

    method OutsideMove(k: nat, addr: nat, data: seq<Byte>)
      requires Running() && OutsideCan(k, addr, data)
      requires peer.pc.Stage? ==> peer.round < |peerData| && data == peerData[peer.round]
      modifies `slot, `controlRecvBuf, `recvCq, `recvBuf, `ok, `peer, `trace
      ensures Running() && Work() < old(Work())
    {
      match k
      case 0 => DeliverMine();
      case 1 => CompleteMine();
      case 2 => DeliverPeers();
      case 3 => CompletePeers();
      case _ => PeerSteps(addr, data);
    }

    /** Any step of the peer or the fabric, if there is one to take. */
    method SomeMove() returns (moved: bool)
      requires Running()
      modifies `slot, `controlRecvBuf, `recvCq, `recvBuf, `ok, `peer, `trace
      ensures Running()
      ensures moved ==> Work() < old(Work())
      ensures !moved ==> old((PollsSend(p, pc) ==> slot.Finished?) && (PollsRecv(p, pc) ==> recvCq != []))
      ensures !moved ==> Now() == old(Now())
    {
      var addr := Malloc(peer.heap);
      var data := if peer.round < |peerData| then peerData[peer.round] else [];
      Facts();
      if exists k: nat :: k < 5 && OutsideCan(k, addr, data) {
        var k: nat :| k < 5 && OutsideCan(k, addr, data);
        OutsideMove(k, addr, data);
        moved := true;
      } else {
        moved := false;
        assert !OutsideCan(0, addr, data) && !OutsideCan(1, addr, data) && !OutsideCan(2, addr, data);
        assert !OutsideCan(3, addr, data) && !OutsideCan(4, addr, data);
        if (PollsSend(p, pc) && !slot.Finished?) || (PollsRecv(p, pc) && recvCq == []) {
          Progress(addr, data);
          assert false;
        }
      }
    }

    /** Between two statements the peer and the fabric take any number of steps. */
    method Meanwhile()
      requires Running()
      modifies `slot, `controlRecvBuf, `recvCq, `recvBuf, `ok, `peer, `trace
      ensures Running()
    {
      WorkIsNatural();
      while *
        invariant Running() && Work() >= 0
        decreases Work()
      {
        var moved := SomeMove();
        if !moved {
          break;
        }
        WorkIsNatural();
      }
    }

    // ---------- Polling ----------

    method Check(condition: bool)
      modifies `ok
      ensures ok == (old(ok) && condition)
    {
      ok := ok && condition;
    }

    method PostRequest(w: Wqe)
      modifies `slot, `ok
      ensures View() == Post(old(View()), w)
    {
      Check(slot.Idle?);
      slot := Queued(w);
    }

    /** While this rank polls in vain, something else takes a step. */
    method MoveOn()
      requires Running()
      requires (PollsSend(p, pc) && !slot.Finished?) || (PollsRecv(p, pc) && recvCq == [])
      modifies `slot, `controlRecvBuf, `recvCq, `recvBuf, `ok, `peer, `trace
      ensures Running() && 0 <= Work() < old(Work())
    {
      var moved := SomeMove();
      WorkIsNatural();
    }

    /** pollCQ(device.send_cq): the loop ends, whatever the peer and the fabric do. */
    method AwaitSent()
      requires Running() && PollsSend(p, pc)
      modifies `slot, `controlRecvBuf, `recvCq, `recvBuf, `ok, `peer, `trace
      ensures Running() && slot.Finished?
    {
      Meanwhile();
      WorkIsNatural();
      while !slot.Finished?
        invariant Running() && Work() >= 0
        decreases Work()
      {
        MoveOn();
      }
    }

    /** pollCQ(device.recv_cq), likewise. */
    method AwaitReceived()
      requires Running() && PollsRecv(p, pc)
      modifies `slot, `controlRecvBuf, `recvCq, `recvBuf, `ok, `peer, `trace
      ensures Running() && recvCq != []
    {
      Meanwhile();
      WorkIsNatural();
      while recvCq == []
        invariant Running() && Work() >= 0
        decreases Work()
      {
        MoveOn();
      }
    }

    method TakeSent()
      requires slot.Finished?
      modifies `wc, `slot
      ensures View() == PollSend(old(View()))
    {
      wc := slot.wc;
      slot := Idle;
    }

    /** A completion is taken and its opcode checked. */
    method TakeSentOf(op: Opcode)
      requires slot.Finished?
      modifies `wc, `slot, `ok
      ensures View() == PollSendOf(old(View()), op)
    {
      TakeSent();
      Check(wc.opcode == op);
    }

    method TakeReceived()
      requires recvCq != []
      modifies `wc, `recvCq, `postedRecvNum
      ensures View() == PollRecv(old(View()))
    {
      wc := recvCq[0];
      recvCq := recvCq[1..];
      postedRecvNum := postedRecvNum - 1;
      CheckAndPostRecvs();
    }

    /** Where a rank stands at the beginning of a half. */
    predicate AtStart() reads `round, `second, `pc {
      pc == StartOf(c, rank, round, second)
    }

    /** The half is over. */
    method EndHalf()
      modifies `round, `second, `pc
      ensures View() == Advance(c, old(View()))
      ensures AtStart() && (round, second) == NextHalf(old(round), old(second))
    {
      round, second := if second then round + 1 else round, !second;
      pc := StartOf(c, rank, round, second);
    }

    // ---------- The buffers ----------

    /** write_buffer */
    method WriteBuffer(data: seq<Byte>)
      requires |data| <= |sendBuf|
      modifies `sendBuf, `log
      ensures View() == Verbs.WriteBuffer(old(View()), data) && log == old(log) + [data]
    {
      sendBuf := data + sendBuf[|data|..];
      log := log + [data];
    }

    /** check_buffer: what it looks at is kept. */
    method CheckBuffer(size: nat)
      requires size <= |recvBuf|
      modifies `got
      ensures View() == Verbs.CheckBuffer(old(View()), size)
    {
      got := got + [recvBuf[..size]];
    }

    // ---------- The handlers, in place ----------

    method ReadPostRts(ctx: nat, size: nat)
      modifies `heap, `rtsMsg, `slot, `ok
      ensures View() == ReadProgram.PostRts(old(View()), ctx, size)
    {
      heap := heap[ctx := SendCtx(sendAddr, size, 0)];
      rtsMsg := rtsMsg.(w0 := ctx);
      rtsMsg := rtsMsg.(w1 := sendAddr);
      rtsMsg := rtsMsg.(w2 := size);
      rtsMsg := rtsMsg.(w3 := rkey);
      PostRequest(SendImm(RtsLine, ReadProgram.RTS_FIELDS, ReadProgram.MSG_RTS));
    }

    method ReadHandleRts(ctx: nat, size: nat)
      modifies `heap, `slot, `ok
      ensures View() == ReadProgram.HandleRts(old(View()), ctx, size)
    {
      Check(wc.opcode == OpRecv && wc.imm == ReadProgram.MSG_RTS);
      Check(controlRecvBuf.w2 <= size);
      heap := heap[ctx := RecvCtx(recvAddr, size, controlRecvBuf.w0)];
      PostRequest(RdmaRead(recvAddr, size, controlRecvBuf.w1, controlRecvBuf.w3, ctx));
    }

    method ReadHandleReadCompletion()
      modifies `heap, `finMsg, `slot, `ok
      ensures View() == ReadProgram.HandleReadCompletion(old(View()))
    {
      Check(wc.opcode == OpRead);
      var ctx := wc.wrid;
      Check(ctx in heap && heap[ctx].RecvCtx?);
      finMsg := finMsg.(w0 := if ctx in heap then heap[ctx].link else 0);
      heap := heap - {ctx};
      PostRequest(SendImm(FinLine, ReadProgram.FIN_FIELDS, ReadProgram.MSG_FIN));
    }

    method ReadHandleFin()
      modifies `heap, `ok
      ensures View() == ReadProgram.HandleFin(old(View())) && heap == old(heap) - {rtsMsg.w0}
    {
      Check(wc.imm == ReadProgram.MSG_FIN);
      var ctx := rtsMsg.w0;
      Check(ctx in heap && heap[ctx].SendCtx?);
      heap := heap - {ctx};
    }

    method WritePostRts(ctx: nat, size: nat)
      modifies `heap, `rtsMsg, `slot, `ok
      ensures View() == WriteProgram.PostRts(old(View()), ctx, size) == ImmProgram.PostRts(old(View()), ctx, size)
    {
      heap := heap[ctx := SendCtx(sendAddr, size, 0)];
      rtsMsg := rtsMsg.(w0 := ctx);
      rtsMsg := rtsMsg.(w1 := size);
      PostRequest(SendImm(RtsLine, WriteProgram.RTS_FIELDS, WriteProgram.MSG_RTS));
    }

    method WriteHandleRts(ctx: nat, size: nat)
      modifies `heap, `rtrMsg, `slot, `ok
      ensures View() == WriteProgram.HandleRts(old(View()), ctx, size)
    {
      Check(wc.opcode == OpRecv && wc.imm == WriteProgram.MSG_RTS);
      Check(controlRecvBuf.w1 <= size);
      heap := heap[ctx := RecvCtx(recvAddr, size, 0)];
      rtrMsg := rtrMsg.(w0 := controlRecvBuf.w0);
      rtrMsg := rtrMsg.(w1 := ctx);
      rtrMsg := rtrMsg.(w2 := recvAddr);
      rtrMsg := rtrMsg.(w3 := rkey);
      PostRequest(SendImm(RtrLine, WriteProgram.RTR_FIELDS, WriteProgram.MSG_RTR));
    }

    method WriteHandleRtr()
      modifies `heap, `slot, `ok
      ensures View() == WriteProgram.HandleRtr(old(View()))
    {
      var ctx := controlRecvBuf.w0;
      if ctx !in heap || !heap[ctx].SendCtx? {
        ok := false;
        return;
      }
      Check(wc.opcode == OpRecv && wc.imm == WriteProgram.MSG_RTR);
      heap := heap[ctx := heap[ctx].(link := controlRecvBuf.w1)];
      PostRequest(RdmaWrite(heap[ctx].buf, heap[ctx].size, controlRecvBuf.w2, controlRecvBuf.w3, ctx));
    }

    method WriteHandleWriteCompletion()
      modifies `heap, `finMsg, `slot, `ok
      ensures View() == WriteProgram.HandleWriteCompletion(old(View()))
    {
      var ctx := wc.wrid;
      if ctx !in heap || !heap[ctx].SendCtx? {
        ok := false;
        return;
      }
      Check(wc.opcode == OpWrite);
      finMsg := finMsg.(w0 := heap[ctx].link);
      heap := heap - {ctx};
      PostRequest(SendImm(FinLine, WriteProgram.FIN_FIELDS, WriteProgram.MSG_FIN));
    }

    method WriteHandleFin()
      modifies `heap, `ok
      ensures View() == WriteProgram.HandleFin(old(View()))
    {
      Check(wc.imm == WriteProgram.MSG_FIN);
      var ctx := controlRecvBuf.w0;
      Check(ctx in heap && heap[ctx].RecvCtx?);
      heap := heap - {ctx};
    }

    method ImmHandleRts(ctx: nat, size: nat)
      requires archive.nbits == ImmProgram.ARCHIVE_BITS && archive.Valid()
      modifies `heap, archive.ptr, `rtrMsg, `slot, `ok
      ensures archive.Valid() && View() == ImmProgram.HandleRts(old(View()), ctx, size)
    {
      LcmArchive.StoredInside(archive.ptr[..], archive.nbits, ctx);
      var put, visited := archive.PutValue(ctx);
      if put.Retry? {
        ok := false;
      } else {
        ImmAnswerRts(ctx, size, put.key);
      }
    }

    /** The rest of the handler, the context being archived. */
    method ImmAnswerRts(ctx: nat, size: nat, key: nat)
      requires key < archive.ptr.Length && archive.ptr[key] == ctx
      modifies `heap, `rtrMsg, `slot, `ok
      ensures View() == ImmProgram.AnswerRts(old(View()), ctx, size, key)
    {
      Check(wc.opcode == OpRecv && wc.imm == ImmProgram.MSG_RTS);
      Check(controlRecvBuf.w1 <= size);
      heap := heap[ctx := RecvCtx(recvAddr, size, 0)];
      rtrMsg := rtrMsg.(w0 := controlRecvBuf.w0);
      rtrMsg := rtrMsg.(w1 := recvAddr);
      rtrMsg := rtrMsg.(w2 := rkey);
      rtrMsg := rtrMsg.(w3 := key % 0x1_0000);
      PostRequest(SendImm(RtrLine, ImmProgram.RTR_FIELDS, ImmProgram.MSG_RTR));
    }

    method ImmHandleRtr()
      modifies `heap, `slot, `ok
      ensures View() == ImmProgram.HandleRtr(old(View()))
    {
      var p := controlRecvBuf.w0;
      if p !in heap || !heap[p].SendCtx? {
        ok := false;
        return;
      }
      Check(wc.opcode == OpRecv && wc.imm == ImmProgram.MSG_RTR);
      var ctx := heap[p];
      PostRequest(RdmaWriteImm(ctx.buf, ctx.size, controlRecvBuf.w1, controlRecvBuf.w2, controlRecvBuf.w3));
      heap := heap - {p};
    }

    method ImmHandleWriteImm()
      requires archive.Valid()
      modifies `heap, archive.ptr, `ok
      ensures archive.Valid() && View() == ImmProgram.HandleWriteImm(old(View()))
    {
      var key := wc.imm;
      if key >= archive.ptr.Length {
        ok := false;
        return;
      }
      Check(wc.opcode == OpRecvWithImm);
      var ctx := archive.RemoveKey(key);
      Check(ctx in heap && heap[ctx].RecvCtx?);
      heap := heap - {ctx};
    }

    // ---------- The longer steps, in place ----------

    method StepReceived()
      requires PollsRecv(p, pc) && recvCq != []
      modifies `wc, `recvCq, `postedRecvNum, `ok, `pc
      ensures CpuEnabled(p, c, old(View()), 0, []) && View() == CpuStep(p, c, old(View()), 0, [])
      ensures pc == Polled(old(pc))
    {
      PollRecvIs(p, c, View());
      TakeReceived();
      if !p.WriteImm? {
        Check(wc.opcode == OpRecv);
      }
      pc := Polled(pc);
    }

    method StepLast()
      requires slot.Finished? && !p.Read? && (if p.Write? then pc.AwaitFinSent? else pc.AwaitWritten?)
      modifies `wc, `slot, `ok, `round, `second, `pc
      ensures CpuEnabled(p, c, old(View()), 0, []) && View() == CpuStep(p, c, old(View()), 0, [])
      ensures AtStart() && (round, second) == NextHalf(old(round), old(second))
    {
      TakeSentOf(if p.Write? then OpSend else OpWrite);
      EndHalf();
    }

    method AnswerRts(ctx: nat, size: nat)
      requires pc.GotRts? && ctx > 0 && ctx !in heap && size == Size(c, round)
      requires archive.nbits == ImmProgram.ARCHIVE_BITS && archive.Valid()
      modifies `heap, `rtrMsg, `slot, `ok, archive.ptr, `pc
      ensures CpuEnabled(p, c, old(View()), ctx, []) && View() == CpuStep(p, c, old(View()), ctx, [])
      ensures if p.Read? then pc.AwaitRead? else pc.AwaitRtrSent?
    {
      match p {
        case Read => ReadHandleRts(ctx, size);
        case Write => WriteHandleRts(ctx, size);
        case WriteImm => ImmHandleRts(ctx, size);
      }
      pc := if p.Read? then AwaitRead else AwaitRtrSent;
    }

    /** check_buffer, and the half is over. */
    method CheckAndEnd(size: nat)
      requires pc.CheckBuf? && size == Size(c, round) && size <= |recvBuf|
      modifies `got, `round, `second, `pc
      ensures CpuEnabled(p, c, old(View()), 0, []) && View() == CpuStep(p, c, old(View()), 0, [])
      ensures AtStart() && (round, second) == NextHalf(old(round), old(second))
    {
      CheckingIs(p, c, View());
      CheckBuffer(size);
      EndHalf();
    }

    // ---------- The statements of run() ----------

    /** pollCQ(device.send_cq) for a message, and the check of what completed. */
    method PollSent()
      requires Running() && PollsMessage(p, pc)
      modifies `slot, `controlRecvBuf, `recvCq, `recvBuf, `ok, `peer, `trace
      modifies `wc, `pc
      ensures Running() && pc == AfterSent(p, old(pc))
    {
      AwaitSent();
      ghost var a := View();
      TakeSentOf(OpSend);
      pc := AfterSent(p, pc);
      PollSentIs(p, c, a);
      RecordMine(0, [], a);
    }

    /** pollRecvCQ; the third program leaves the opcode to its handlers. */
    method PollRecvCq()
      requires Running() && PollsRecv(p, pc)
      modifies `slot, `controlRecvBuf, `recvCq, `recvBuf, `ok, `peer, `trace
      modifies `wc, `pc, `postedRecvNum
      ensures Running() && postedRecvNum == MAX_RECV_NUM
      ensures match old(pc)
              case AwaitRts => pc.GotRts?
              case AwaitRtr => pc.GotRtr?
              case AwaitFin => pc.GotFin?
              case _ => pc.GotImm?
    {
      AwaitReceived();
      ghost var a := View();
      StepReceived();
      RecordMine(0, [], a);
      Facts();
    }

    method StagePayload(data: seq<Byte>)
      requires Running() && pc.Stage? && |data| == Size(c, round)
      modifies `slot, `controlRecvBuf, `recvCq, `recvBuf, `ok, `peer, `trace
      modifies `sendBuf, `log, `pc
      ensures Running() && pc.Announce? && log == old(log) + [data]
    {
      Meanwhile();
      BuffersFit();
      ghost var a := View();
      WriteBuffer(data);
      pc := Announce;
      StagingIs(p, c, a, data);
      RecordMine(0, data, a);
    }

    method PostRts(size: nat)
      requires Running() && pc.Announce? && size == Size(c, round)
      modifies `slot, `controlRecvBuf, `recvCq, `recvBuf, `ok, `peer, `trace
      modifies `heap, `rtsMsg, `pc
      ensures Running() && pc.AwaitRtsSent?
    {
      Meanwhile();
      ghost var a := View();
      var ctx := Malloc(heap);
      if p.Read? {
        ReadPostRts(ctx, size);
      } else {
        WritePostRts(ctx, size);
      }
      pc := AwaitRtsSent;
      RecordMine(ctx, [], a);
    }

    method HandleRts(size: nat)
      requires Running() && pc.GotRts? && size == Size(c, round)
      modifies `slot, `controlRecvBuf, `recvCq, `recvBuf, `ok, `peer, `trace
      modifies `heap, `rtrMsg, archive.ptr, `pc
      ensures Running() && if p.Read? then pc.AwaitRead? else pc.AwaitRtrSent?
    {
      Meanwhile();
      ghost var a := View();
      var ctx := Malloc(heap);
      AnswerRts(ctx, size);
      RecordMine(ctx, [], a);
    }

    method HandleRtr()
      requires Running() && !p.Read? && pc.GotRtr?
      modifies `slot, `controlRecvBuf, `recvCq, `recvBuf, `ok, `peer, `trace
      modifies `heap, `pc
      ensures Running() && pc.AwaitWritten?
    {
      Meanwhile();
      ghost var a := View();
      if p.Write? {
        WriteHandleRtr();
      } else {
        ImmHandleRtr();
      }
      pc := AwaitWritten;
      RecordMine(0, [], a);
    }

    /** pollCQ(device.send_cq) for the read, or the write. */
    method PollTransfer()
      requires Running() && PollsTransfer(p, pc)
      modifies `slot, `controlRecvBuf, `recvCq, `recvBuf, `ok, `peer, `trace
      modifies `wc, `pc
      ensures Running() && if p.Read? then pc.GotRead? else pc.GotWritten?
    {
      AwaitSent();
      ghost var a := View();
      PollTransferIs(p, c, a);
      TakeSent();
      pc := if p.Read? then GotRead else GotWritten;
      RecordMine(0, [], a);
    }

    /** handleReadCompletion or handleWriteCompletion. */
    method HandleCompletion()
      requires Running() && ((p.Read? && pc.GotRead?) || (p.Write? && pc.GotWritten?))
      modifies `slot, `controlRecvBuf, `recvCq, `recvBuf, `ok, `peer, `trace
      modifies `heap, `finMsg, `pc
      ensures Running() && pc.AwaitFinSent?
    {
      Meanwhile();
      ghost var a := View();
      if p.Read? {
        ReadHandleReadCompletion();
      } else {
        WriteHandleWriteCompletion();
      }
      pc := AwaitFinSent;
      RecordMine(0, [], a);
    }

    /** handleFIN of the write program, or handleWriteImm. */
    method HandleArrival()
      requires Running() && ((p.Write? && pc.GotFin?) || (p.WriteImm? && pc.GotImm?))
      modifies `slot, `controlRecvBuf, `recvCq, `recvBuf, `ok, `peer, `trace
      modifies `heap, archive.ptr, `pc
      ensures Running() && pc.CheckBuf?
    {
      Meanwhile();
      ghost var a := View();
      if p.Write? {
        WriteHandleFin();
      } else {
        ImmHandleWriteImm();
      }
      pc := CheckBuf;
      RecordMine(0, [], a);
    }

    // ---------- The last statements of a half ----------

    /** The FIN of the write program has gone. */
    method PollFinSent()
      requires Running() && p.Write? && pc.AwaitFinSent?
      modifies `slot, `controlRecvBuf, `recvCq, `recvBuf, `ok, `peer, `trace
      modifies `wc, `round, `second, `pc
      ensures Running() && AtStart() && (round, second) == NextHalf(old(round), old(second))
    {
      AwaitSent();
      ghost var a := View();
      StepLast();
      RecordMine(0, [], a);
    }

    /** The write that needs no FIN has completed. */
    method PollWritten()
      requires Running() && p.WriteImm? && pc.AwaitWritten?
      modifies `slot, `controlRecvBuf, `recvCq, `recvBuf, `ok, `peer, `trace
      modifies `wc, `round, `second, `pc
      ensures Running() && AtStart() && (round, second) == NextHalf(old(round), old(second))
    {
      AwaitSent();
      ghost var a := View();
      StepLast();
      RecordMine(0, [], a);
    }

    lemma FinNamesTheContext()
      requires Running() && p.Read? && pc.GotFin?
      ensures heap.Keys == {wc.snap.w0} && heap - {rtsMsg.w0} == map[]
    {
      LeadsSafely(p, c, start, trace, Now());
      PairSymmetric(p, c, Now().n0, Now().n1);
      ReadProgram.FinFreesTheNamedContext(c, View(), peer);
    }

    /** handleFIN of the read program: what it frees is what the FIN named, and nothing else was alive. */
    method HandleReadFin()
      requires Running() && p.Read? && pc.GotFin?
      modifies `slot, `controlRecvBuf, `recvCq, `recvBuf, `ok, `peer, `trace
      modifies `heap, `round, `second, `pc
      ensures old(heap).Keys == {old(wc).snap.w0} && heap == map[]
      ensures Running() && AtStart() && (round, second) == NextHalf(old(round), old(second))
    {
      Meanwhile();
      FinNamesTheContext();
      ghost var a := View();
      ReadHandleFin();
      EndHalf();
      RecordMine(0, [], a);
    }

    /** check_buffer, the last statement of every receiving half. */
    method CheckPayload(size: nat)
      requires Running() && pc.CheckBuf? && size == Size(c, round)
      modifies `slot, `controlRecvBuf, `recvCq, `recvBuf, `ok, `peer, `trace
      modifies `got, `round, `second, `pc
      ensures Running() && AtStart() && (round, second) == NextHalf(old(round), old(second))
    {
      Meanwhile();
      BuffersFit();
      ghost var a := View();
      CheckAndEnd(size);
      RecordMine(0, [], a);
    }

    // ---------- The halves of an iteration, statement by statement ----------

    /** Every send begins with write_buffer, postRTS, and the poll for the message. */
    method SendRts(data: seq<Byte>)
      requires Running() && pc.Stage? && |data| == Size(c, round)
      modifies `slot, `controlRecvBuf, `recvCq, `recvBuf, `ok, `peer, `trace
      modifies `wc, `pc, `sendBuf, `log, `heap, `rtsMsg
      ensures Running() && (if p.Read? then pc.AwaitFin? else pc.AwaitRtr?) && log == old(log) + [data]
    {
      StagePayload(data);
      PostRts(|data|);
      PollSent();
    }

    /** It ends, when the peer reads, with the FIN. */
    method EndReadSend()
      requires Running() && p.Read? && pc.AwaitFin?
      modifies `slot, `controlRecvBuf, `recvCq, `recvBuf, `ok, `peer, `trace
      modifies `wc, `pc, `postedRecvNum, `heap, `round, `second
      ensures Running() && AtStart() && (round, second) == NextHalf(old(round), old(second))
    {
      PollRecvCq();
      HandleReadFin();
    }

    method TakeRtr()
      requires Running() && !p.Read? && pc.AwaitRtr?
      modifies `slot, `controlRecvBuf, `recvCq, `recvBuf, `ok, `peer, `trace
      modifies `wc, `pc, `postedRecvNum, `heap
      ensures Running() && pc.AwaitWritten?
    {
      PollRecvCq();
      HandleRtr();
    }

    /** The read, or the write, completes and its FIN is posted. */
    method CompleteTransfer()
      requires Running() && PollsTransfer(p, pc)
      modifies `slot, `controlRecvBuf, `recvCq, `recvBuf, `ok, `peer, `trace
      modifies `wc, `pc, `heap, `finMsg
      ensures Running() && pc.AwaitFinSent?
    {
      PollTransfer();
      HandleCompletion();
    }

    method SendFin()
      requires Running() && p.Write? && pc.AwaitWritten?
      modifies `slot, `controlRecvBuf, `recvCq, `recvBuf, `ok, `peer, `trace
      modifies `wc, `pc, `heap, `finMsg, `round, `second
      ensures Running() && AtStart() && (round, second) == NextHalf(old(round), old(second))
    {
      CompleteTransfer();
      PollFinSent();
    }

    /** When it writes, with the RTR, the write, and the FIN unless the write said so itself. */
    method EndWriteSend()
      requires Running() && !p.Read? && pc.AwaitRtr?
      modifies `slot, `controlRecvBuf, `recvCq, `recvBuf, `ok, `peer, `trace
      modifies `wc, `pc, `postedRecvNum, `heap, `finMsg, `round, `second
      ensures Running() && AtStart() && (round, second) == NextHalf(old(round), old(second))
    {
      TakeRtr();
      if p.Write? {
        SendFin();
      } else {
        PollWritten();
      }
    }

    /** "post one rendezvous send" */
    method Send(data: seq<Byte>)
      requires Running() && pc.Stage? && |data| == Size(c, round)
      modifies `slot, `controlRecvBuf, `recvCq, `recvBuf, `ok, `peer, `trace
      modifies `wc, `pc, `postedRecvNum, `sendBuf, `log, `heap, `rtsMsg, `finMsg, `round, `second
      ensures Running() && AtStart() && (round, second) == NextHalf(old(round), old(second)) && log == old(log) + [data]
    {
      SendRts(data);
      if p.Read? {
        EndReadSend();
      } else {
        EndWriteSend();
      }
    }

    /** Every receive begins with the RTS. */
    method TakeRts(size: nat)
      requires Running() && pc.AwaitRts? && size == Size(c, round)
      modifies `slot, `controlRecvBuf, `recvCq, `recvBuf, `ok, `peer, `trace
      modifies `wc, `pc, `postedRecvNum, `heap, `rtrMsg, archive.ptr
      ensures Running() && if p.Read? then pc.AwaitRead? else pc.AwaitRtrSent?
    {
      PollRecvCq();
      HandleRts(size);
    }

    /** When it reads, the read completes and the FIN is sent. */
    method FinishRead()
      requires Running() && p.Read? && pc.AwaitRead?
      modifies `slot, `controlRecvBuf, `recvCq, `recvBuf, `ok, `peer, `trace
      modifies `wc, `pc, `heap, `finMsg
      ensures Running() && pc.CheckBuf?
    {
      CompleteTransfer();
      PollSent();
    }

    method AwaitWrite()
      requires Running() && !p.Read? && pc.AwaitRtrSent?
      modifies `slot, `controlRecvBuf, `recvCq, `recvBuf, `ok, `peer, `trace
      modifies `wc, `pc, `postedRecvNum
      ensures Running() && if p.Write? then pc.GotFin? else pc.GotImm?
    {
      PollSent();
      PollRecvCq();
    }

    /** When the peer writes, the RTR is sent, and the FIN or the write itself received. */
    method FinishWrite()
      requires Running() && !p.Read? && pc.AwaitRtrSent?
      modifies `slot, `controlRecvBuf, `recvCq, `recvBuf, `ok, `peer, `trace
      modifies `wc, `pc, `postedRecvNum, `heap, archive.ptr
      ensures Running() && pc.CheckBuf?
    {
      AwaitWrite();
      HandleArrival();
    }

    /** The RTS is answered, and the payload waited for. */
    method TakePayload(size: nat)
      requires Running() && pc.AwaitRts? && size == Size(c, round)
      modifies `slot, `controlRecvBuf, `recvCq, `recvBuf, `ok, `peer, `trace
      modifies `wc, `pc, `postedRecvNum, `heap, `rtrMsg, `finMsg, archive.ptr
      ensures Running() && pc.CheckBuf?
    {
      TakeRts(size);
      if p.Read? {
        FinishRead();
      } else {
        FinishWrite();
      }
    }

    /** "receive a rendezvous recv" */
    method Receive(size: nat)
      requires Running() && pc.AwaitRts? && size == Size(c, round)
      modifies `slot, `controlRecvBuf, `recvCq, `recvBuf, `ok, `peer, `trace
      modifies `wc, `pc, `postedRecvNum, `got, `heap, `rtrMsg, `finMsg, archive.ptr, `round, `second
      ensures Running() && AtStart() && (round, second) == NextHalf(old(round), old(second))
    {
      TakePayload(size);
      CheckPayload(size);
    }

    /** The body that RUN_VARY_MSG calls: rank 0 sends first, rank 1 receives first. */
    method Iterate(data: seq<Byte>)
      requires Running() && AtStart() && !second && round < |c.sched| && |data| == c.sched[round]
      modifies this, archive.ptr
      ensures Running() && AtStart() && !second && round == old(round) + 1 && log == old(log) + [data]
    {
      if rank == 0 {
        Send(data);
        Receive(|data|);
      } else {
        Receive(|data|);
        Send(data);
      }
    }

    lemma AtTheEnd()
      requires Running() && AtStart() && round == |c.sched| && !second
      ensures pc.Done? && ok && heap == map[] && postedRecvNum == MAX_RECV_NUM && got == peerData
    {
      Facts();
      assert got == peerData[..|c.sched|];
    }

    /** The whole benchmark of one rank. Whatever its peer and the fabric do in between, it ends: no
        assertion has failed, no context is left, every receive is posted again, and what was found in
        the receive buffer at the checks is, call by call, what the peer's program staged. */
    method RunBenchmark(data: seq<seq<Byte>>)
      requires Running() && AtStart() && !second && round == 0 && log == [] && Payloads(c, data)
      modifies this, archive.ptr
      ensures Running() && pc.Done?
      ensures ok && heap == map[] && postedRecvNum == MAX_RECV_NUM
      ensures log == data && got == peerData
    {
      while round < |c.sched|
        invariant Running() && AtStart() && !second && round <= |c.sched|
        invariant log == data[..round]
        decreases |c.sched| - round
      {
        Iterate(data[round]);
      }
      AtTheEnd();
    }
  }
}
