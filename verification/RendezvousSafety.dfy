/** What holds in every state of every run of the three rendezvous benchmarks. */
module RendezvousSafety {
  import opened Bytes
  import opened Verbs
  import opened Rendezvous
  import ReadProgram
  import WriteProgram
  import ImmProgram
  import LcmArchive

  /** The rank in question at the end of a run, and its peer. */
  function Rank(s: State, first: bool): Node { if first then s.n0 else s.n1 }

  lemma PairOfRun(p: Protocol, c: Config, s: State, ls: seq<Label>, first: bool)
    requires Init(p, c, s) && Run(p, c, s, ls)
    ensures var t := After(p, c, s, ls); Pair(p, c, Rank(t, first), Rank(t, !first)) && Rank(t, first).ok
  {
    InitInv(p, c, s);
    EveryRunIsSafe(p, c, s, ls);
    var t := After(p, c, s, ls);
    PairSymmetric(p, c, t.n0, t.n1);
  }

  /** All three: a posted request never waits for a receive, and the completions waiting in a rank's
      receive queue are fewer than the entries it was created with. */
  lemma EveryRunFitsItsQueues(p: Protocol, c: Config, s: State, ls: seq<Label>, first: bool)
    requires Init(p, c, s) && Run(p, c, s, ls)
    ensures var t := After(p, c, s, ls);
            var a, b := Rank(t, first), Rank(t, !first);
            (a.slot.Queued? ==> CanDeliver(a, b)) && |b.rcq| < b.posted == MAX_RECV_NUM < MAX_CQE_NUM
  {
    PairOfRun(p, c, s, ls, first);
    var t := After(p, c, s, ls);
    PostedFindsAReceive(p, c, Rank(t, first), Rank(t, !first));
  }

  /** Read: at most a FIN and then an RTS are headed to a rank; an RTS is still in the shared line
      when it is handled; and the context freed for a FIN is the one the FIN named, the only one
      alive, although the line may have been overwritten by then. */
  lemma EveryReadRun(c: Config, s: State, ls: seq<Label>, first: bool)
    requires Init(Read, c, s) && Run(Read, c, s, ls)
    ensures var t := After(Read, c, s, ls);
            var a, b := Rank(t, first), Rank(t, !first);
            && |ReadProgram.Headed(b, a)| <= 2
            && (|ReadProgram.Headed(b, a)| == 2 ==>
                  ReadProgram.Headed(b, a) == [ReadProgram.MSG_FIN, ReadProgram.MSG_RTS])
            && (a.pc.GotRts? ==> a.wc.imm == ReadProgram.MSG_RTS && a.ctl == a.wc.snap == b.rts)
            && (a.pc.GotFin? ==>
                  && a.heap.Keys == {a.wc.snap.w0}
                  && ReadProgram.HandleFin(a) == ReadProgram.HandleFinAsDelivered(a)
                  && ReadProgram.HandleFin(a).ok && ReadProgram.HandleFin(a).heap == map[])
  {
    PairOfRun(Read, c, s, ls, first);
    PairOfRun(Read, c, s, ls, !first);
    var t := After(Read, c, s, ls);
    var a, b := Rank(t, first), Rank(t, !first);
    ReadProgram.AtMostFinThenRts(c, b, a);
    if a.pc.GotRts? {
      ReadProgram.RtsNeverOverwritten(c, b, a);
    }
    if a.pc.GotFin? {
      ReadProgram.FinFreesTheNamedContext(c, a, b);
    }
  }

  /** Write: one control message at a time, both ways together; at a FIN the peer's payload of the
      round is in the receive buffer; and every context named in a message is alive when used. */
  lemma EveryWriteRun(c: Config, s: State, ls: seq<Label>, first: bool)
    requires Init(Write, c, s) && Run(Write, c, s, ls)
    ensures var t := After(Write, c, s, ls);
            var a, b := Rank(t, first), Rank(t, !first);
            && WriteProgram.Unhandled(a, b) + WriteProgram.Unhandled(b, a) <= 1
            && (a.pc.GotFin? ==>
                  && |a.got| < |b.log| && Size(c, a.round) <= |a.recvBuf|
                  && a.recvBuf[..Size(c, a.round)] == b.log[|a.got|]
                  && a.heap.Keys == {a.ctl.w0}
                  && WriteProgram.HandleFin(a).ok && WriteProgram.HandleFin(a).heap == map[])
            && (a.pc.GotRtr? ==>
                  && a.heap.Keys == {a.ctl.w0} && a.heap[a.ctl.w0].SendCtx?
                  && a.ctl.w1 in b.heap && b.heap[a.ctl.w1].RecvCtx?)
            && (a.pc.AwaitWritten? && a.slot.Finished? ==>
                  a.heap.Keys == {a.slot.wc.wrid} && a.heap[a.slot.wc.wrid].link in b.heap)
            && (a.pc.GotWritten? ==> a.heap.Keys == {a.wc.wrid} && a.heap[a.wc.wrid].link in b.heap)
  {
    PairOfRun(Write, c, s, ls, first);
    var t := After(Write, c, s, ls);
    var a, b := Rank(t, first), Rank(t, !first);
    WriteProgram.OneControlMessageAtATime(c, a, b);
    WriteProgram.WriteNamesLiveContexts(c, a, b);
    if a.pc.GotRtr? {
      WriteProgram.RtrNamesLiveContexts(c, a, b);
    } else if a.pc.GotFin? {
      SizeFits(c, a.round);
      WriteProgram.DeliveredAtFin(c, a, b);
      WriteProgram.FinNamesTheContext(c, a, b);
    }
  }

  /** Write with immediate: the put of every RTS takes its first probe, the key survives the 16-bit
      field and the immediate, and what it brings back is the context stored; the payload is then in
      the receive buffer, and the context and its archive entry are gone. */
  lemma EveryImmRun(c: Config, s: State, ls: seq<Label>, first: bool, addr: nat)
    requires Init(WriteImm, c, s) && Run(WriteImm, c, s, ls) && addr > 0
    ensures var t := After(WriteImm, c, s, ls);
            var a, b := Rank(t, first), Rank(t, !first);
            var key := (addr / 64) % 1024;
            && ImmProgram.Archived(a)
            && (a.pc.GotRts? ==>
                  && LcmArchive.Put(a.archive, ImmProgram.ARCHIVE_BITS, addr) == LcmArchive.Stored(key)
                  && ImmProgram.HandleRts(a, addr, Size(c, a.round)).rtr.w3 == key)
            && (a.pc.GotImm? ==>
                  && a.wc.imm == a.rtr.w3 && a.wc.imm < |a.archive| && a.heap.Keys == {a.archive[a.wc.imm]}
                  && ImmProgram.HandleWriteImm(a).ok && ImmProgram.HandleWriteImm(a).heap == map[]
                  && ImmProgram.NoKeys(ImmProgram.HandleWriteImm(a).archive)
                  && |a.got| < |b.log| && Size(c, a.round) <= |a.recvBuf|
                  && a.recvBuf[..Size(c, a.round)] == b.log[|a.got|])
            && (a.pc.GotRtr? ==> a.heap.Keys == {a.ctl.w0} && a.ctl.w3 == b.rtr.w3 && ImmProgram.HandleRtr(a).ok)
  {
    PairOfRun(WriteImm, c, s, ls, first);
    var t := After(WriteImm, c, s, ls);
    var a, b := Rank(t, first), Rank(t, !first);
    SizeFits(c, a.round);
    if a.pc.GotRts? {
      ImmProgram.PutTakesItsFirstProbe(c, a, b, addr);
    } else if a.pc.GotImm? {
      ImmProgram.DeliveredAtImm(c, a, b);
    } else if a.pc.GotRtr? {
      ImmProgram.NamedSendContextIsLive(c, a, b);
    }
  }
}
