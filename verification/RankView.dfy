/** What the two-rank system says to one rank of it: its own state and its peer's. */
module RankView {
  import opened Bytes
  import opened Verbs
  import opened Rendezvous
  import ReadProgram
  import WriteProgram
  import ImmProgram
  import LcmArchive

  function Both(rank: nat, a: Node, b: Node): State { if rank == 0 then State(a, b) else State(b, a) }

  /** Some steps taken from a start lead to s. */
  ghost predicate Leads(p: Protocol, c: Config, start: State, trace: seq<Label>, s: State) {
    Init(p, c, start) && Run(p, c, start, trace) && After(p, c, start, trace) == s
  }

  /** A run taken one step further. */
  lemma {:induction false} RunOn(p: Protocol, c: Config, s: State, ls: seq<Label>, l: Label)
    requires Run(p, c, s, ls) && Enabled(p, c, After(p, c, s, ls), l)
    ensures Run(p, c, s, ls + [l]) && After(p, c, s, ls + [l]) == Step(p, c, After(p, c, s, ls), l)
    decreases |ls|
  {
    if ls == [] {
      assert ls + [l] == [l] && [l][1..] == [];
    } else {
      assert (ls + [l])[1..] == ls[1..] + [l];
      RunOn(p, c, Step(p, c, s, ls[0]), ls[1..], l);
    }
  }

  lemma LeadsSafely(p: Protocol, c: Config, start: State, trace: seq<Label>, s: State)
    requires Leads(p, c, start, trace, s)
    ensures Inv(p, c, s)
  {
    InitInv(p, c, start);
    EveryRunIsSafe(p, c, start, trace);
  }

  lemma LeadsOn(p: Protocol, c: Config, start: State, trace: seq<Label>, s: State, l: Label, t: State)
    requires Leads(p, c, start, trace, s) && Enabled(p, c, s, l) && Step(p, c, s, l) == t
    ensures Leads(p, c, start, trace + [l], t) && Measure(c, t) < Measure(c, s)
  {
    LeadsSafely(p, c, start, trace, s);
    StepKeepsAndPays(p, c, s, l);
    RunOn(p, c, start, trace, l);
  }

  /** Where a rank polls its send queue, and its receive queue. */
  predicate PollsSend(p: Protocol, pc: Pc) {
    match p
    case Read => pc.AwaitRtsSent? || pc.AwaitRead? || pc.AwaitFinSent?
    case Write => pc.AwaitRtsSent? || pc.AwaitWritten? || pc.AwaitFinSent? || pc.AwaitRtrSent?
    case WriteImm => pc.AwaitRtsSent? || pc.AwaitWritten? || pc.AwaitRtrSent?
  }

  predicate PollsRecv(p: Protocol, pc: Pc) {
    match p
    case Read => pc.AwaitRts? || pc.AwaitFin?
    case Write => pc.AwaitRts? || pc.AwaitRtr? || pc.AwaitFin?
    case WriteImm => pc.AwaitRts? || pc.AwaitRtr? || pc.AwaitImm?
  }

  /** While a rank polls in vain, its peer or the fabric can move. */
  lemma SomethingElseMoves(p: Protocol, c: Config, a: Node, b: Node, addr: nat, data: seq<Byte>)
    requires Pair(p, c, a, b) && addr > 0 && addr !in b.heap && |data| == Size(c, b.round)
    requires (PollsSend(p, a.pc) && !a.slot.Finished?) || (PollsRecv(p, a.pc) && a.rcq == [])
    ensures CanDeliver(a, b) || a.slot.Accepted? || CanDeliver(b, a) || b.slot.Accepted?
            || CpuEnabled(p, c, b, addr, data)
  {
    if !CanDeliver(a, b) && !CanDeliver(b, a) && !a.slot.Accepted? && !b.slot.Accepted? {
      match p
      case Read => ReadProgram.CanMove(c, a, b);
      case Write => WriteProgram.CanMove(c, a, b);
      case WriteImm => ImmProgram.CanMove(c, a, b);
    }
  }

  /** What a rank may rely on between its statements. */
  lemma RankFacts(p: Protocol, c: Config, a: Node, b: Node)
    requires Pair(p, c, a, b)
    ensures a.ok && a.rank < 2 && b.rank == 1 - a.rank && a.round <= |c.sched| && Left(c, a) >= 0 && Left(c, b) >= 0
    ensures |a.sendBuf| == |a.recvBuf| == c.maxSize && Size(c, a.round) <= c.maxSize && a.posted == MAX_RECV_NUM
    ensures a.pc.Done? <==> a.round == |c.sched|
    ensures a.pc.Stage? || a.pc.AwaitRts? || a.pc.Done? ==>
              a.heap == map[] && |a.log| == SendsDone(a) && |a.got| == RecvsDone(a)
    ensures b.pc.Stage? ==> |b.log| == b.round < |c.sched|
    ensures a.got <= b.log && |b.log| <= |c.sched|
  {
    PairIsSized(p, c, a, b);
    match p
    case Read => ReadProgram.RankFacts(c, a, b); ReadProgram.PeerFacts(c, a, b);
    case Write => WriteProgram.RankFacts(c, a, b); WriteProgram.PeerFacts(c, a, b);
    case WriteImm => ImmProgram.RankFacts(c, a, b); ImmProgram.PeerFacts(c, a, b);
  }

  lemma PairIsSized(p: Protocol, c: Config, a: Node, b: Node)
    requires Pair(p, c, a, b)
    ensures Size(c, a.round) <= c.maxSize
  {
    SizeFits(c, a.round);
  }

  /** What a delivery may touch: at the requester, at the responder. */
  lemma DeliverTouches(a: Node, b: Node)
    requires CanDeliver(a, b)
    ensures var (a', b') := Deliver(a, b);
            && a' == a.(slot := a'.slot, recvBuf := a'.recvBuf, ok := a'.ok)
            && b' == b.(ctl := b'.ctl, rcq := b'.rcq, recvBuf := b'.recvBuf)
  {}

  lemma DeliveringIs(p: Protocol, c: Config, r: nat, a: Node, b: Node)
    requires r < 2
    ensures CanDeliver(a, b) ==>
              && Enabled(p, c, Both(r, a, b), Deliver_(r))
              && Step(p, c, Both(r, a, b), Deliver_(r)) == Both(r, Deliver(a, b).0, Deliver(a, b).1)
    ensures CanDeliver(b, a) ==>
              && Enabled(p, c, Both(r, a, b), Deliver_(1 - r))
              && Step(p, c, Both(r, a, b), Deliver_(1 - r)) == Both(r, Deliver(b, a).1, Deliver(b, a).0)
  {}

  lemma StagingIs(p: Protocol, c: Config, a: Node, data: seq<Byte>)
    requires a.pc.Stage? && |data| == Size(c, a.round) && |data| <= |a.sendBuf|
    ensures CpuEnabled(p, c, a, 0, data) && CpuStep(p, c, a, 0, data) == Verbs.WriteBuffer(a, data).(pc := Announce)
  {}

  /** A rank polls for a message it has sent and has more to do in its half. */
  predicate PollsMessage(p: Protocol, pc: Pc) {
    pc.AwaitRtsSent? || (!p.Read? && pc.AwaitRtrSent?) || (p.Read? && pc.AwaitFinSent?)
  }

  lemma PollSentIs(p: Protocol, c: Config, a: Node)
    requires PollsMessage(p, a.pc) && a.slot.Finished?
    ensures CpuEnabled(p, c, a, 0, [])
    ensures CpuStep(p, c, a, 0, []) == PollSendOf(a, OpSend).(pc := AfterSent(p, a.pc))
  {}

  /** Where the payload's own transfer is polled for, and its completion handled. */
  predicate PollsTransfer(p: Protocol, pc: Pc) { (p.Read? && pc.AwaitRead?) || (p.Write? && pc.AwaitWritten?) }

  lemma PollTransferIs(p: Protocol, c: Config, a: Node)
    requires PollsTransfer(p, a.pc) && a.slot.Finished?
    ensures CpuEnabled(p, c, a, 0, [])
    ensures CpuStep(p, c, a, 0, []) == PollSend(a).(pc := if p.Read? then GotRead else GotWritten)
  {}

  lemma CheckingIs(p: Protocol, c: Config, a: Node)
    requires a.pc.CheckBuf? && Size(c, a.round) <= |a.recvBuf|
    ensures CpuEnabled(p, c, a, 0, [])
    ensures CpuStep(p, c, a, 0, []) == Advance(c, Verbs.CheckBuffer(a, Size(c, a.round)))
  {}

  lemma PollRecvIs(p: Protocol, c: Config, a: Node)
    requires PollsRecv(p, a.pc) && |a.rcq| > 0
    ensures CpuEnabled(p, c, a, 0, [])
    ensures CpuStep(p, c, a, 0, []) == (if p.WriteImm? then PollRecv(a) else PollRecvOf(a)).(pc := Polled(a.pc))
  {}

  /** An address above all that are in use. */
  lemma FreshAddress(used: set<nat>) returns (m: nat)
    ensures m > 0 && forall x :: x in used ==> x < m
  {
    m := 1;
    if used != {} {
      var x :| x in used;
      var n := FreshAddress(used - {x});
      m := if n > x then n else x + 1;
      assert used == used - {x} + {x};
    }
  }

  /** malloc: any address that is not in use. */
  method Malloc(heap: map<nat, Ctx>) returns (ctx: nat)
    ensures ctx > 0 && ctx !in heap
  {
    ghost var m := FreshAddress(heap.Keys);
    assert m !in heap;
    ctx :| ctx > 0 && ctx !in heap;
  }

  /** Where a rank is once its message has gone, and once one has come. */
  function AfterSent(p: Protocol, pc: Pc): Pc {
    match pc
    case AwaitRtsSent => if p.Read? then AwaitFin else AwaitRtr
    case AwaitRtrSent => if p.Write? then AwaitFin else AwaitImm
    case _ => CheckBuf
  }

  function Polled(pc: Pc): Pc {
    match pc
    case AwaitRts => GotRts
    case AwaitRtr => GotRtr
    case AwaitFin => GotFin
    case AwaitImm => GotImm
    case _ => pc
  }

  function StartOf(c: Config, rank: nat, round: nat, second: bool): Pc {
    if round >= |c.sched| then Done else if second <==> rank != 0 then Stage else AwaitRts
  }

  function NextHalf(round: nat, second: bool): (nat, bool) { (if second then round + 1 else round, !second) }

  /** One payload for each iteration, of the size scheduled. */
  predicate Payloads(c: Config, data: seq<seq<Byte>>) {
    |data| == |c.sched| && forall i :: 0 <= i < |data| ==> |data[i]| == c.sched[i]
  }

  /** A rank before its first turn. */
  function FirstView(c: Config, rank: nat, sendAddr: nat, recvAddr: nat, rkey: nat, memory: Line,
                     sendBuf: seq<Byte>, recvBuf: seq<Byte>): Node {
    Node(rank, 0, false, if |c.sched| == 0 then Done else if rank == 0 then Stage else AwaitRts,
         memory, memory, memory, memory, sendAddr, recvAddr, rkey, sendBuf, recvBuf, map[],
         seq(LcmArchive.Cap(ImmProgram.ARCHIVE_BITS) + LcmArchive.SPILL, _ => LcmArchive.EMPTY),
         Idle, [], MAX_RECV_NUM, Wc(OpSend, 0, 0, memory), true, [], [])
  }
}
