/** The three rendezvous benchmarks as systems: two ranks, the fabric between them, and every
    interleaving of their steps. */
module Rendezvous {
  import opened Bytes
  import opened Verbs
  import ReadProgram
  import WriteProgram
  import ImmProgram

  datatype Protocol = Read | Write | WriteImm

  datatype State = State(n0: Node, n1: Node)

  // ---------- One step, whichever protocol is running ----------

  predicate CpuEnabled(p: Protocol, c: Config, a: Node, addr: nat, data: seq<Byte>) {
    match p
    case Read => ReadProgram.CpuEnabled(c, a, addr, data)
    case Write => WriteProgram.CpuEnabled(c, a, addr, data)
    case WriteImm => ImmProgram.CpuEnabled(c, a, addr, data)
  }

  function CpuStep(p: Protocol, c: Config, a: Node, addr: nat, data: seq<Byte>): Node
    requires CpuEnabled(p, c, a, addr, data)
  {
    match p
    case Read => ReadProgram.CpuStep(c, a, addr, data)
    case Write => WriteProgram.CpuStep(c, a, addr, data)
    case WriteImm => ImmProgram.CpuStep(c, a, addr, data)
  }

  predicate Init(p: Protocol, c: Config, s: State) {
    && ValidConfig(c)
    && Fresh(c, s.n0) && Fresh(c, s.n1)
    && s.n0.rank == 0 && s.n1.rank == 1
    && (p.WriteImm? ==> ImmProgram.FreshArchive(s.n0) && ImmProgram.FreshArchive(s.n1))
  }

  /** What a can do, b being its peer. */
  predicate SideEnabled(p: Protocol, c: Config, a: Node, b: Node, l: Label) {
    match l
    case Cpu(_, addr, data) => CpuEnabled(p, c, a, addr, data)
    case Deliver_(_) => CanDeliver(a, b)
    case Complete_(_) => a.slot.Accepted?
  }

  function SideStep(p: Protocol, c: Config, a: Node, b: Node, l: Label): (Node, Node)
    requires SideEnabled(p, c, a, b, l)
  {
    match l
    case Cpu(_, addr, data) => (CpuStep(p, c, a, addr, data), b)
    case Deliver_(_) => Deliver(a, b)
    case Complete_(_) => (Complete(a), b)
  }

  predicate Enabled(p: Protocol, c: Config, s: State, l: Label) {
    l.r < 2 && if l.r == 0 then SideEnabled(p, c, s.n0, s.n1, l) else SideEnabled(p, c, s.n1, s.n0, l)
  }

  function Step(p: Protocol, c: Config, s: State, l: Label): State
    requires Enabled(p, c, s, l)
  {
    if l.r == 0 then
      var (a, b) := SideStep(p, c, s.n0, s.n1, l); State(a, b)
    else
      var (b, a) := SideStep(p, c, s.n1, s.n0, l); State(a, b)
  }

  /** A run: labels taken one after the other, each enabled where it is taken. */
  predicate Run(p: Protocol, c: Config, s: State, ls: seq<Label>)
    decreases |ls|
  {
    ls == [] || (Enabled(p, c, s, ls[0]) && Run(p, c, Step(p, c, s, ls[0]), ls[1..]))
  }

  function After(p: Protocol, c: Config, s: State, ls: seq<Label>): State
    requires Run(p, c, s, ls)
    decreases |ls|
  {
    if ls == [] then s else After(p, c, Step(p, c, s, ls[0]), ls[1..])
  }

  // ---------- What every step keeps, and what it uses up ----------

  predicate Pair(p: Protocol, c: Config, a: Node, b: Node) {
    match p
    case Read => ReadProgram.Pair(c, a, b)
    case Write => WriteProgram.Pair(c, a, b)
    case WriteImm => ImmProgram.Pair(c, a, b)
  }

  predicate Inv(p: Protocol, c: Config, s: State) { Pair(p, c, s.n0, s.n1) }

  function Measure(c: Config, s: State): int { Left(c, s.n0) + Left(c, s.n1) }

  lemma CpuSide(p: Protocol, c: Config, a: Node, b: Node, addr: nat, data: seq<Byte>)
    requires Pair(p, c, a, b) && CpuEnabled(p, c, a, addr, data)
    ensures var a' := CpuStep(p, c, a, addr, data);
            Pair(p, c, a', b) && Left(c, a') < Left(c, a)
  {
    match p
    case Read => ReadProgram.PairCpu(c, a, b, addr, data); ReadProgram.CpuPays(c, a, addr, data);
    case Write => WriteProgram.PairCpu(c, a, b, addr, data); WriteProgram.CpuPays(c, a, addr, data);
    case WriteImm => ImmProgram.PairCpu(c, a, b, addr, data); ImmProgram.CpuPays(c, a, addr, data);
  }

  lemma DeliverSide(p: Protocol, c: Config, a: Node, b: Node)
    requires Pair(p, c, a, b) && CanDeliver(a, b)
    ensures var (a', b') := Deliver(a, b);
            Pair(p, c, a', b') && Left(c, a') < Left(c, a) && Left(c, b') == Left(c, b)
  {
    DeliverPays(c, a, b);
    match p
    case Read => ReadProgram.PairDeliver(c, a, b);
    case Write => WriteProgram.PairDeliver(c, a, b);
    case WriteImm => ImmProgram.PairDeliver(c, a, b);
  }

  lemma CompleteSide(p: Protocol, c: Config, a: Node, b: Node)
    requires Pair(p, c, a, b) && a.slot.Accepted?
    ensures Pair(p, c, Complete(a), b) && Left(c, Complete(a)) < Left(c, a)
  {
    match p
    case Read => ReadProgram.PairComplete(c, a, b);
    case Write => WriteProgram.PairComplete(c, a, b);
    case WriteImm => ImmProgram.PairComplete(c, a, b);
  }

  lemma SideKeepsAndPays(p: Protocol, c: Config, a: Node, b: Node, l: Label)
    requires Pair(p, c, a, b)
    requires SideEnabled(p, c, a, b, l)
    ensures var (a', b') := SideStep(p, c, a, b, l);
            Pair(p, c, a', b') && Left(c, a') + Left(c, b') < Left(c, a) + Left(c, b)
  {
    match l
    case Cpu(_, addr, data) => CpuSide(p, c, a, b, addr, data);
    case Deliver_(_) => DeliverSide(p, c, a, b);
    case Complete_(_) => CompleteSide(p, c, a, b);
  }

  lemma PairSymmetric(p: Protocol, c: Config, a: Node, b: Node)
    requires Pair(p, c, a, b)
    ensures Pair(p, c, b, a)
  {
    match p
    case Read => ReadProgram.PairSymmetric(c, a, b);
    case Write => WriteProgram.PairSymmetric(c, a, b);
    case WriteImm => ImmProgram.PairSymmetric(c, a, b);
  }

  /** Every step keeps the invariant and leaves strictly less to do. */
  lemma StepKeepsAndPays(p: Protocol, c: Config, s: State, l: Label)
    requires Inv(p, c, s) && Enabled(p, c, s, l)
    ensures Inv(p, c, Step(p, c, s, l))
    ensures Measure(c, Step(p, c, s, l)) < Measure(c, s)
  {
    if l.r == 0 {
      SideKeepsAndPays(p, c, s.n0, s.n1, l);
    } else {
      PairSymmetric(p, c, s.n0, s.n1);
      SideKeepsAndPays(p, c, s.n1, s.n0, l);
      var t := Step(p, c, s, l);
      PairSymmetric(p, c, t.n1, t.n0);
    }
  }

  lemma InitInv(p: Protocol, c: Config, s: State)
    requires Init(p, c, s)
    ensures Inv(p, c, s)
    ensures Measure(c, s) <= 120 * |c.sched| + 54
  {
    match p
    case Read => ReadProgram.InitPair(c, s.n0, s.n1);
    case Write => WriteProgram.InitPair(c, s.n0, s.n1);
    case WriteImm => ImmProgram.InitPair(c, s.n0, s.n1);
  }

  // ---------- The sizes of what is sent ----------

  /** Every payload staged has the size scheduled for its call. */
  predicate Sized(c: Config, a: Node) {
    |a.log| <= |c.sched| && forall i :: 0 <= i < |a.log| ==> |a.log[i]| == c.sched[i]
  }

  lemma LogGrows(p: Protocol, c: Config, a: Node, addr: nat, data: seq<Byte>)
    requires CpuEnabled(p, c, a, addr, data)
    ensures CpuStep(p, c, a, addr, data).log == if a.pc.Stage? then a.log + [data] else a.log
    ensures a.pc.Stage? ==> |data| == Size(c, a.round)
  {
    match p
    case Read => ReadProgram.LogGrows(c, a, addr, data);
    case Write => WriteProgram.LogGrows(c, a, addr, data);
    case WriteImm => ImmProgram.LogGrows(c, a, addr, data);
  }

  lemma StagedInTurn(p: Protocol, c: Config, a: Node, b: Node)
    requires Pair(p, c, a, b)
    ensures a.pc.Stage? ==> |a.log| == a.round < |c.sched|
  {
    PairSymmetric(p, c, a, b);
    match p
    case Read => ReadProgram.PeerFacts(c, b, a);
    case Write => WriteProgram.PeerFacts(c, b, a);
    case WriteImm => ImmProgram.PeerFacts(c, b, a);
  }

  lemma CpuKeepsSizes(p: Protocol, c: Config, a: Node, b: Node, addr: nat, data: seq<Byte>)
    requires Pair(p, c, a, b) && CpuEnabled(p, c, a, addr, data) && Sized(c, a)
    ensures Sized(c, CpuStep(p, c, a, addr, data))
  {
    LogGrows(p, c, a, addr, data);
    StagedInTurn(p, c, a, b);
  }

  lemma SideKeepsSizes(p: Protocol, c: Config, a: Node, b: Node, l: Label)
    requires Pair(p, c, a, b) && SideEnabled(p, c, a, b, l) && Sized(c, a) && Sized(c, b)
    ensures var (a', b') := SideStep(p, c, a, b, l); Sized(c, a') && Sized(c, b')
  {
    match l
    case Cpu(_, addr, data) => CpuKeepsSizes(p, c, a, b, addr, data);
    case Deliver_(_) => DeliverKeepsLogs(a, b);
    case Complete_(_) => assert Complete(a).log == a.log;
  }

  lemma DeliverKeepsLogs(a: Node, b: Node)
    requires CanDeliver(a, b)
    ensures var (a', b') := Deliver(a, b); a'.log == a.log && b'.log == b.log
  {}

  lemma {:induction false} EveryRunKeepsSizes(p: Protocol, c: Config, s: State, ls: seq<Label>)
    requires Inv(p, c, s) && Run(p, c, s, ls) && Sized(c, s.n0) && Sized(c, s.n1)
    ensures Sized(c, After(p, c, s, ls).n0) && Sized(c, After(p, c, s, ls).n1)
    decreases |ls|
  {
    if ls != [] {
      PairSymmetric(p, c, s.n0, s.n1);
      if ls[0].r == 0 {
        SideKeepsSizes(p, c, s.n0, s.n1, ls[0]);
      } else {
        SideKeepsSizes(p, c, s.n1, s.n0, ls[0]);
      }
      StepKeepsAndPays(p, c, s, ls[0]);
      EveryRunKeepsSizes(p, c, Step(p, c, s, ls[0]), ls[1..]);
    }
  }

  // ---------- Safety, progress and delivery, over every run ----------

  /** In every run: the invariant, hence no failed assertion, no dead context, no lost credit. */
  lemma {:induction false} EveryRunIsSafe(p: Protocol, c: Config, s: State, ls: seq<Label>)
    requires Inv(p, c, s) && Run(p, c, s, ls)
    ensures Inv(p, c, After(p, c, s, ls))
    ensures Measure(c, After(p, c, s, ls)) + |ls| <= Measure(c, s)
    decreases |ls|
  {
    if ls != [] {
      StepKeepsAndPays(p, c, s, ls[0]);
      EveryRunIsSafe(p, c, Step(p, c, s, ls[0]), ls[1..]);
    }
  }

  predicate Finished(s: State) { s.n0.pc.Done? && s.n1.pc.Done? }

  ghost predicate Stuck(p: Protocol, c: Config, s: State) {
    forall l: Label :: !Enabled(p, c, s, l)
  }

  lemma LeftIsNatural(p: Protocol, c: Config, a: Node, b: Node)
    requires Pair(p, c, a, b)
    ensures Left(c, a) >= 0
  {}

  /** A posted request can always be delivered: a message finds a posted receive, and its completion
      has room in the receiver's queue. */
  lemma PostedFindsAReceive(p: Protocol, c: Config, a: Node, b: Node)
    requires Pair(p, c, a, b)
    ensures a.slot.Queued? ==> CanDeliver(a, b)
    ensures |b.rcq| <= 2 <= b.posted && b.posted == MAX_RECV_NUM && MAX_RECV_NUM < MAX_CQE_NUM
  {}

  /** Unless both ranks are done some step is enabled, and no message ever waits for a receive. */
  lemma NotDoneMeansNotStuck(p: Protocol, c: Config, s: State)
    requires Inv(p, c, s) && !Finished(s)
    ensures !Stuck(p, c, s)
    ensures s.n0.slot.Queued? ==> CanDeliver(s.n0, s.n1)
    ensures s.n1.slot.Queued? ==> CanDeliver(s.n1, s.n0)
  {
    PairSymmetric(p, c, s.n0, s.n1);
    PostedFindsAReceive(p, c, s.n0, s.n1);
    PostedFindsAReceive(p, c, s.n1, s.n0);
    if Stuck(p, c, s) {
      assert !Enabled(p, c, s, Deliver_(0)) && !Enabled(p, c, s, Deliver_(1));
      assert !Enabled(p, c, s, Complete_(0)) && !Enabled(p, c, s, Complete_(1));
      assert !Enabled(p, c, s, Cpu(0, 1, seq(Size(c, s.n0.round), _ => 0)));
      assert !Enabled(p, c, s, Cpu(1, 1, seq(Size(c, s.n1.round), _ => 0)));
      match p
      case Read => ReadProgram.CanMove(c, s.n0, s.n1);
      case Write => WriteProgram.CanMove(c, s.n0, s.n1);
      case WriteImm => ImmProgram.CanMove(c, s.n0, s.n1);
    }
  }

  /** A finished pair of ranks: no assertion has failed, no context is left, nothing is queued, every receive
      is posted again, and what one rank found at its checks is what the other staged, in order. */
  lemma FinishedIsCleanAndDelivered(p: Protocol, c: Config, s: State)
    requires Inv(p, c, s) && Finished(s)
    ensures s.n0.ok && s.n1.ok && s.n0.heap == map[] && s.n1.heap == map[]
    ensures s.n0.slot.Idle? && s.n1.slot.Idle? && s.n0.rcq == [] && s.n1.rcq == []
    ensures s.n0.posted == s.n1.posted == MAX_RECV_NUM
    ensures s.n0.got == s.n1.log && s.n1.got == s.n0.log && |s.n0.log| == |s.n1.log| == |c.sched|
  {
    PairSymmetric(p, c, s.n0, s.n1);
    match p
    case Read =>
      ReadProgram.AtTheEnd(c, s.n0, s.n1); ReadProgram.AtTheEnd(c, s.n1, s.n0);
    case Write =>
      WriteProgram.AtTheEnd(c, s.n0, s.n1); WriteProgram.AtTheEnd(c, s.n1, s.n0);
    case WriteImm =>
      ImmProgram.AtTheEnd(c, s.n0, s.n1); ImmProgram.AtTheEnd(c, s.n1, s.n0);
  }

  /** The theorem for all three protocols: from any start, every run is finite, with a bound
      linear in the schedule; a run that cannot be continued has finished both ranks, freed
      every context once, returned every credit, and delivered every payload, each of the size scheduled. */
  lemma EveryMaximalRunDelivers(p: Protocol, c: Config, s: State, ls: seq<Label>)
    requires Init(p, c, s) && Run(p, c, s, ls)
    ensures |ls| <= 120 * |c.sched| + 54
    ensures After(p, c, s, ls).n0.ok && After(p, c, s, ls).n1.ok
    ensures var t := After(p, c, s, ls);
            Stuck(p, c, t) ==>
              && t.n0.pc.Done? && t.n1.pc.Done?
              && t.n0.heap == map[] && t.n1.heap == map[]
              && t.n0.slot.Idle? && t.n1.slot.Idle? && t.n0.rcq == [] && t.n1.rcq == []
              && t.n0.posted == t.n1.posted == MAX_RECV_NUM
              && t.n0.got == t.n1.log && t.n1.got == t.n0.log && |t.n0.log| == |t.n1.log| == |c.sched|
              && forall i :: 0 <= i < |c.sched| ==> |t.n0.log[i]| == |t.n1.log[i]| == c.sched[i]
  {
    InitInv(p, c, s);
    EveryRunKeepsSizes(p, c, s, ls);
    EveryRunIsSafe(p, c, s, ls);
    var t := After(p, c, s, ls);
    PairSymmetric(p, c, t.n0, t.n1);
    LeftIsNatural(p, c, t.n0, t.n1);
    LeftIsNatural(p, c, t.n1, t.n0);
    if Stuck(p, c, t) {
      if !Finished(t) {
        NotDoneMeansNotStuck(p, c, t);
      }
      FinishedIsCleanAndDelivered(p, c, t);
    }
  }
}
