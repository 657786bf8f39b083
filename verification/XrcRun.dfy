/** The XRC ping-pong as a whole program, on the server or on a client: the receive loop and the drain
    loop, while the other processes and the fabric move whenever they can. Every execution is shown to
    be a run of the system. */
module XrcRun {
  import opened PingPong
  import opened XrcPingpong
  import opened XrcLoop
  import SrqLoop
  import SrqRun

  datatype Who = Server | Client(i: nat)

  predicate Belongs(n: nat, w: Who) { w.Client? ==> w.i < n }

  function Peers(n: nat, w: Who): nat { if w.Server? then n else 1 }

  function CtxOf(w: Who, s: State): Ctx
    requires Belongs(|s.links|, w)
  {
    match w
    case Server => s.server
    case Client(i) => s.links[i].client
  }

  /** The two steps a process takes itself: a receive completion handled, a send completion drained. */
  function Receiving(w: Who): Label { match w case Server => ServerReceive case Client(i) => ClientReceive(i) }

  function Draining(w: Who): Label { match w case Server => ServerDrain case Client(i) => ClientDrain(i) }

  predicate Outside(w: Who, l: Label) { l != Receiving(w) && l != Draining(w) }

  /** Some steps taken from the start lead to s. */
  ghost predicate Leads(n: nat, t: nat, trace: seq<Label>, s: State) {
    n > 0 && t > 0 && Run(Init(n, t), trace) && After(Init(n, t), trace) == s
  }

  /** A run taken one step further. */
  lemma {:induction false} RunOn(s: State, ls: seq<Label>, l: Label)
    requires Run(s, ls) && Enabled(After(s, ls), l)
    ensures Run(s, ls + [l]) && After(s, ls + [l]) == Step(After(s, ls), l)
    decreases |ls|
  {
    if ls == [] {
      assert ls + [l] == [l] && [l][1..] == [];
    } else {
      assert (ls + [l])[1..] == ls[1..] + [l];
      RunOn(Step(s, ls[0]), ls[1..], l);
    }
  }

  lemma LeadsSafely(n: nat, t: nat, trace: seq<Label>, s: State)
    requires Leads(n, t, trace, s)
    ensures Inv(n, t, s) && Measure(n, t, s) >= 0
  {
    InitInv(n, t);
    EveryRun(n, t, Init(n, t), trace);
    MeasureIsNatural(n, t, s);
  }

  lemma LeadsOn(n: nat, t: nat, trace: seq<Label>, s: State, l: Label)
    requires Leads(n, t, trace, s) && Enabled(s, l)
    ensures Leads(n, t, trace + [l], Step(s, l))
    ensures Inv(n, t, s) && Inv(n, t, Step(s, l)) && 0 <= Measure(n, t, Step(s, l)) < Measure(n, t, s)
  {
    LeadsSafely(n, t, trace, s);
    RunOn(Init(n, t), trace, l);
    LeadsSafely(n, t, trace + [l], Step(s, l));
    StepPaysOne(n, t, s, l);
  }

  /** What the others and the fabric do leaves a process's counters alone. */
  lemma OutsideKeeps(n: nat, t: nat, w: Who, s: State, l: Label)
    requires Inv(n, t, s) && Belongs(n, w) && Enabled(s, l) && Outside(w, l)
    ensures |Step(s, l).links| == n && CtxOf(w, Step(s, l)) == CtxOf(w, s)
  {}

  /** A process has received everything and drained its completions. */
  predicate Through(x: Ctx) { x.cnt >= x.numClients * x.numTests && x.drained >= x.numClients }

  /** A process that is not through and cannot step is never alone: another one or the fabric can. */
  lemma SomethingElseMoves(n: nat, t: nat, w: Who, s: State) returns (l: Label)
    requires n > 0 && t > 0 && Inv(n, t, s) && Belongs(n, w)
    requires !Through(CtxOf(w, s)) && !Enabled(s, Receiving(w)) && !Enabled(s, Draining(w))
    ensures Outside(w, l) && Enabled(s, l)
  {
    if Stuck(s) {
      StuckIsFinished(n, t, s);
      assert false;
    }
    l :| Enabled(s, l);
  }

  /** A step by its kind and the client it concerns. */
  function LabelOf(kind: nat, i: nat): Label {
    match kind
    case 0 => DeliverDown(i)
    case 1 => ClientReceive(i)
    case 2 => DeliverUp(i)
    case 3 => ServerReceive
    case 4 => CompleteDown(i)
    case 5 => CompleteUp(i)
    case 6 => ServerDrain
    case _ => ClientDrain(i)
  }

  lemma LabelsAreListed(s: State, l: Label)
    requires Enabled(s, l)
    ensures exists kind: nat, i: nat :: kind < 8 && i < |s.links| && l == LabelOf(kind, i)
  {
    var i := if l.ServerReceive? || l.ServerDrain? then 0 else l.i;
    var kind := match l
      case DeliverDown(_) => 0
      case ClientReceive(_) => 1
      case DeliverUp(_) => 2
      case ServerReceive => 3
      case CompleteDown(_) => 4
      case CompleteUp(_) => 5
      case ServerDrain => 6
      case ClientDrain(_) => 7;
    assert l == LabelOf(kind, i);
  }

  /** The peer a completion belongs to is found by its queue pair. */
  lemma PeerIsFound(qpNums: seq<int>, i: nat)
    requires i < |qpNums| && SrqRun.Numbered(qpNums)
    ensures PeerOf(qpNums, qpNums[i]) == i
  {
    SrqLoop.FirstIsIndexOf(qpNums, qpNums[i], i);
  }

  /** A process that has received everything has sent everything. */
  lemma ReceivedMeansSent(n: nat, t: nat, w: Who, s: State)
    requires n > 0 && t > 0 && Inv(n, t, s) && Belongs(n, w)
    requires CtxOf(w, s).cnt >= CtxOf(w, s).numClients * t
    ensures CtxOf(w, s).cnt == CtxOf(w, s).numClients * t && CtxOf(w, s).ppCnt == seq(Peers(n, w), _ => t)
  {
    match w
    case Server => ServerSentAll(n, t, s);
    case Client(i) => assert LinkOk(n, t, i, s.links[i], s.server.ppCnt[i], i in s.recvCq);
  }

  lemma ServerSentAll(n: nat, t: nat, s: State)
    requires n > 0 && t > 0 && Inv(n, t, s) && s.server.cnt >= n * t
    ensures s.server.cnt == n * t && s.server.ppCnt == seq(n, _ => t)
  {
    DrainingMeansEmpty(n, t, s);
    forall i | 0 <= i < n ensures Backs(s.links)[i] <= t {
      assert LinkOk(n, t, i, s.links[i], s.server.ppCnt[i], i in s.recvCq);
    }
    SumWithin(Backs(s.links), t);
    forall i | 0 <= i < n ensures s.server.ppCnt[i] == t {
      assert LinkOk(n, t, i, s.links[i], s.server.ppCnt[i], i in s.recvCq) && Backs(s.links)[i] == t;
    }
  }

  lemma OpeningSends(n: nat, t: nat, i: nat)
    requires i < n
    ensures Init(n, t).links[i].down == [Send(i, i, 1 >= t)]
  {
    ModIs(n, i, 0, i);
  }

  // ---------- One process ----------

  class Endpoint {
    const n: nat
    const t: nat
    const who: Who
    const me: Process
    /** The processes and the wires between them, this process's counters as it keeps them itself. */
    var net: State
    ghost var trace: seq<Label>

    /** The steps taken so far are a run that leads here. */
    ghost predicate Running() reads this, me, me.ppCnt {
      && Leads(n, t, trace, net) && Belongs(n, who) && Fits(net) && |net.links| == n
      && me.Valid() && SrqRun.Numbered(me.qpNums)
      && me.View() == CtxOf(who, net) && me.numClients == Peers(n, who) && me.numTests == t
    }

    ghost function Work(): int reads `net requires Fits(net) { Measure(n, t, net) }

    lemma Facts()
      requires Running()
      ensures Inv(n, t, net) && Work() >= 0
    {
      LeadsSafely(n, t, trace, net);
    }

    /** Up to the loops: receives posted, on the server a send made to every client. */
    constructor (n: nat, t: nat, who: Who, qpNums: seq<int>)
      requires n > 0 && t > 0 && Belongs(n, who)
      requires |qpNums| == Peers(n, who) && SrqRun.Numbered(qpNums)
      ensures fresh(me) && fresh(me.ppCnt) && this.n == n && this.t == t && this.who == who
      ensures Running() && me.cnt == me.drained == 0
      ensures who.Server? ==> |me.sends| == n && forall i :: 0 <= i < n ==> net.links[i].down == [me.sends[i]]
    {
      this.n, this.t, this.who := n, t, who;
      me := new Process(Peers(n, who), t, qpNums, who.Server?);
      net, trace := Init(n, t), [];
      new;
      forall i | 0 <= i < n ensures net.links[i].down == [Send(i, i, 1 >= t)] {
        OpeningSends(n, t, i);
      }
    }

    // ---------- The others and the fabric ----------

    method OutsideMove(l: Label)
      requires Running() && Outside(who, l) && Enabled(net, l)
      modifies `net, `trace
      ensures Running() && 0 <= Work() < old(Work())
    {
      LeadsOn(n, t, trace, net, l);
      OutsideKeeps(n, t, who, net, l);
      trace := trace + [l];
      net := Step(net, l);
    }

    predicate OutsideCan(kind: nat, i: nat) reads `net {
      kind < 8 && i < |net.links| && Outside(who, LabelOf(kind, i)) && Enabled(net, LabelOf(kind, i))
    }

    predicate CanReceive() reads `net { Enabled(net, Receiving(who)) }

    predicate CanDrain() reads `net { Enabled(net, Draining(who)) }

    predicate IsThrough() reads me, me.ppCnt { Through(me.View()) }

    lemma SomethingMoves()
      requires Running() && !IsThrough() && !CanReceive() && !CanDrain()
      ensures exists kind, i :: OutsideCan(kind, i)
    {
      Facts();
      var l := SomethingElseMoves(n, t, who, net);
      LabelsAreListed(net, l);
      var kind: nat, i: nat :| kind < 8 && i < |net.links| && l == LabelOf(kind, i);
      assert OutsideCan(kind, i);
    }

    /** Any step of the others or the fabric, if there is one to take. */
    method SomeMove() returns (moved: bool)
      requires Running()
      modifies `net, `trace
      ensures Running()
      ensures if moved then 0 <= Work() < old(Work()) else net == old(net)
      ensures !IsThrough() && !old(CanReceive()) && !old(CanDrain()) ==> moved
    {
      if !IsThrough() && !CanReceive() && !CanDrain() {
        SomethingMoves();
      }
      moved := false;
      if exists kind: nat, i: nat :: kind < 8 && i < |net.links| && OutsideCan(kind, i) {
        var kind: nat, i: nat :| kind < 8 && i < |net.links| && OutsideCan(kind, i);
        OutsideMove(LabelOf(kind, i));
        moved := true;
      }
    }

    method Meanwhile()
      requires Running()
      modifies `net, `trace
      ensures Running() && 0 <= Work() <= old(Work())
    {
      Facts();
      while *
        invariant Running() && 0 <= Work() <= old(Work())
        decreases Work()
      {
        var moved := SomeMove();
        if !moved {
          break;
        }
      }
    }

    // ---------- The receive loop ----------

    /** This process took the step l, from s. */
    ghost method Record(l: Label, s: State)
      requires Leads(n, t, trace, s) && Enabled(s, l) && net == Step(s, l) && |net.links| == n
      requires Belongs(n, who) && me.Valid() && SrqRun.Numbered(me.qpNums)
      requires me.View() == CtxOf(who, net) && me.numClients == Peers(n, who) && me.numTests == t
      modifies `trace
      ensures Running() && 0 <= Work() < Measure(n, t, s)
    {
      LeadsOn(n, t, trace, s, l);
      trace := trace + [l];
    }

    /** The receive completions waiting. */
    function Received(): nat reads `net requires Belongs(|net.links|, who) {
      match who case Server => |net.recvCq| case Client(i) => net.links[i].downCq
    }

    lemma CanReceiveMeansReceived()
      requires Running()
      ensures CanReceive() <==> Received() > 0 && me.drained == 0
      ensures me.cnt >= me.numClients * t ==> Received() == 0
    {
      Facts();
      match who
      case Server =>
        if me.cnt >= me.numClients * t {
          DrainingMeansEmpty(n, t, net);
        }
      case Client(i) => assert LinkOk(n, t, i, net.links[i], net.server.ppCnt[i], i in net.recvCq);
    }

    /** One receive on the server; what it posts goes down the wire of the client it came from. */
    method ServerReceives()
      requires Running() && who.Server? && CanReceive()
      modifies me`cnt, me`posted, me`sends, me.ppCnt, `net, `trace
      ensures Running() && 0 <= Work() < old(Work())
    {
      ghost var s := net;
      var i, before := net.recvCq[0], |me.sends|;
      var k := net.links[i];
      PeerIsFound(me.qpNums, i);
      me.HandleReceive(me.qpNums[i]);
      net := net.(recvCq := net.recvCq[1..], server := me.View(),
                  links := net.links[i := k.(back := k.back + 1, down := k.down + me.sends[before..])]);
      Record(ServerReceive, s);
    }

    /** One receive on a client; what it posts goes up its wire. */
    method ClientReceives()
      requires Running() && who.Client? && CanReceive()
      modifies me`cnt, me`posted, me`sends, me.ppCnt, `net, `trace
      ensures Running() && 0 <= Work() < old(Work())
    {
      ghost var s := net;
      var i, before := who.i, |me.sends|;
      var k := net.links[i];
      PeerIsFound(me.qpNums, 0);
      me.HandleReceive(me.qpNums[0]);
      net := net.(links := net.links[i := k.(downCq := k.downCq - 1, client := me.View(),
                                             up := k.up + me.sends[before..])]);
      Record(ClientReceive(i), s);
    }

    /** ibv_poll_cq(recv_cq, 1), and what follows if it finds something. While it does not, and more is to
        come, something else takes a step. */
    method PollReceive() returns (ne: nat)
      requires Running() && me.drained == 0
      modifies me`cnt, me`posted, me`sends, me.ppCnt, `net, `trace
      ensures Running() && 0 <= Work() <= old(Work()) && ne <= 1
      ensures Work() == old(Work()) ==> ne == 0 && old(me.cnt) >= me.numClients * t
    {
      Meanwhile();
      CanReceiveMeansReceived();
      ne := if Received() > 0 then 1 else 0;
      if ne > 0 {
        if who.Server? {
          ServerReceives();
        } else {
          ClientReceives();
        }
      } else if me.cnt < me.numClients * t {
        var moved := SomeMove();
      }
    }

    /** do { ... } while (ne > 0) */
    method PollUntilEmpty()
      requires Running() && me.drained == 0 && me.cnt < me.numClients * t
      modifies me`cnt, me`posted, me`sends, me.ppCnt, `net, `trace
      ensures Running() && 0 <= Work() < old(Work())
    {
      var ne := PollReceive();
      while ne > 0
        invariant Running() && 0 <= Work() < old(Work())
        decreases Work(), ne
      {
        ne := PollReceive();
      }
    }

    /** while (cnt < total) */
    method ReceiveAll()
      requires Running() && me.drained == 0
      modifies me`cnt, me`posted, me`sends, me.ppCnt, `net, `trace
      ensures Running() && me.cnt >= me.numClients * t
    {
      Facts();
      while me.cnt < me.numClients * me.numTests
        invariant Running() && Work() >= 0
        decreases Work()
      {
        PollUntilEmpty();
      }
    }

    // ---------- The drain loop ----------

    /** The send completions waiting. */
    function Completed(): nat reads `net requires Belongs(|net.links|, who) {
      match who case Server => net.sendCq case Client(i) => net.links[i].sendCq
    }

    method TakeCompletion()
      requires Running() && CanDrain()
      modifies me`drained, `net, `trace
      ensures Running() && 0 <= Work() < old(Work()) && me.drained == old(me.drained) + 1
    {
      ghost var s := net;
      me.drained := me.drained + 1;
      match who {
        case Server => net := net.(sendCq := net.sendCq - 1, server := me.View());
        case Client(i) =>
          var k := net.links[i];
          net := net.(links := net.links[i := k.(sendCq := k.sendCq - 1, client := me.View())]);
      }
      Record(Draining(who), s);
    }

    /** ibv_poll_cq(send_cq, 1). While it finds nothing, something else takes a step. */
    method PollCompletion() returns (ne: nat)
      requires Running() && me.cnt >= me.numClients * t && me.drained < me.numClients
      modifies me`drained, `net, `trace
      ensures Running() && 0 <= Work() < old(Work()) && ne <= 1 && me.drained == old(me.drained) + ne
    {
      Meanwhile();
      CanReceiveMeansReceived();
      ne := if Completed() > 0 then 1 else 0;
      if ne > 0 {
        TakeCompletion();
      } else {
        var moved := SomeMove();
      }
    }

    /** for (cnt = 0; cnt < num_clients; cnt += ne) */
    method DrainAll()
      requires Running() && me.cnt >= me.numClients * t && me.drained == 0
      modifies me`drained, `net, `trace
      ensures Running() && me.drained == me.numClients
    {
      Facts();
      var cnt := 0;
      while cnt < me.numClients
        invariant Running() && Work() >= 0 && cnt == me.drained <= me.numClients
        decreases Work()
      {
        var ne := PollCompletion();
        cnt := cnt + ne;
      }
    }

    /** Both loops. Whatever the other processes and the fabric do in between, they end: num_tests messages
        from every peer were received, as many sent to it, and one completion per peer was drained. */
    method RunLoops()
      requires Running() && me.drained == 0
      modifies me`cnt, me`posted, me`sends, me`drained, me.ppCnt, `net, `trace
      ensures Running() && me.cnt == me.numClients * t && me.drained == me.numClients
      ensures me.ppCnt[..] == seq(me.numClients, _ => t)
    {
      ReceiveAll();
      DrainAll();
      Facts();
      ReceivedMeansSent(n, t, who, net);
    }
  }
}
