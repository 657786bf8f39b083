/** The shared-receive-queue loop as a whole program: the while loop, the poll, the batch, while the peer
    and the fabric move whenever they can. Every execution is shown to be a run of the two-sided system. */
module SrqRun {
  import opened PingPong
  import opened SrqPingpong
  import opened SrqLoop

  function Both(client: bool, x: Side, y: Side): State { if client then State(y, x) else State(x, y) }

  /** Some steps taken from the start lead to s. */
  ghost predicate Leads(p: Params, trace: seq<Label>, s: State) {
    Run(p, Init(p), trace) && After(p, Init(p), trace) == s
  }

  /** A run taken one step further. */
  lemma {:induction false} RunOn(p: Params, s: State, ls: seq<Label>, l: Label)
    requires Run(p, s, ls) && Enabled(p, After(p, s, ls), l)
    ensures Run(p, s, ls + [l]) && After(p, s, ls + [l]) == Step(p, After(p, s, ls), l)
    decreases |ls|
  {
    if ls == [] {
      assert ls + [l] == [l] && [l][1..] == [];
    } else {
      assert (ls + [l])[1..] == ls[1..] + [l];
      RunOn(p, Step(p, s, ls[0]), ls[1..], l);
    }
  }

  lemma LeadsSafely(p: Params, trace: seq<Label>, s: State)
    requires ValidParams(p) && Leads(p, trace, s)
    ensures Inv(p, s) && Measure(p, s) >= 0
  {
    InitInv(p);
    EveryRun(p, Init(p), trace);
  }

  lemma LeadsOn(p: Params, trace: seq<Label>, s: State, l: Label, t: State)
    requires ValidParams(p) && Leads(p, trace, s) && Enabled(p, s, l) && Step(p, s, l) == t
    ensures Leads(p, trace + [l], t) && 0 <= Measure(p, t) < Measure(p, s)
  {
    LeadsSafely(p, trace, s);
    RunOn(p, Init(p), trace, l);
    LeadsSafely(p, trace + [l], t);
    assert [l][1..] == [];
    EveryRun(p, s, [l]);
  }

  // ---------- What the adapter reports ----------

  /** The queue pair numbers of one process are distinct. */
  predicate Numbered(qpNums: seq<int>) {
    forall i, j :: 0 <= i < j < |qpNums| ==> qpNums[i] != qpNums[j]
  }

  /** The work completion in which a completion is reported. */
  function Report(qpNums: seq<int>, w: Wc): RawWc
    requires w.qp < |qpNums|
  {
    RawWc(true, qpNums[w.qp], if w.Sent? then SEND_WRID else RECV_WRID)
  }

  predicate Reported(qpNums: seq<int>, raws: seq<RawWc>, ws: seq<Wc>) {
    && |raws| == |ws|
    && forall i :: 0 <= i < |ws| ==> ws[i].qp < |qpNums| && raws[i] == Report(qpNums, ws[i])
  }

  function Reports(qpNums: seq<int>, ws: seq<Wc>): (raws: seq<RawWc>)
    requires forall i :: 0 <= i < |ws| ==> ws[i].qp < |qpNums|
    ensures Reported(qpNums, raws, ws)
  {
    seq(|ws|, i requires 0 <= i < |ws| => Report(qpNums, ws[i]))
  }

  /** What is reported is never refused, and is understood as what it was. */
  lemma ReportDecodes(qpNums: seq<int>, w: Wc)
    requires Numbered(qpNums) && w.qp < |qpNums|
    ensures Decode(qpNums, Report(qpNums, w)) == Option.Some(w)
  {
    FirstIsIndexOf(qpNums, qpNums[w.qp], w.qp);
  }

  /** Handling a completion leaves alone what is queued and whether the loop was left. */
  lemma HandleApart(p: Params, x: Side, w: Wc, cq: seq<Wc>, batch: seq<Wc>, done: bool)
    requires WellFormed(p, x) && w.qp < p.numQp
    ensures Handle(p, x.(cq := cq, batch := batch, done := done), w)
            == Handle(p, x, w).(cq := cq, batch := batch, done := done)
  {}

  /** A step by its kind, its queue pair or its number of completions. */
  function LabelOf(client: bool, kind: nat, n: nat): Label {
    match kind
    case 0 => DeliverL(client, n)
    case 1 => CompleteL(client, n)
    case 2 => PollL(client, n)
    case 3 => ProcessL(client)
    case _ => LeaveL(client)
  }

  /** The steps one side does not take itself: all of its peer's, and the fabric's. */
  predicate Outside(client: bool, l: Label) { l.client != client || l.DeliverL? || l.CompleteL? }

  lemma LabelsAreListed(p: Params, s: State, l: Label)
    requires Enabled(p, s, l) && |s.server.out| == |s.client.out| == p.numQp
    ensures exists kind: nat, n: nat :: kind < 5 && n <= p.numQp + p.rxDepth && l == LabelOf(l.client, kind, n)
  {
    var n := match l case DeliverL(_, q) => q case CompleteL(_, q) => q case PollL(_, k) => k case _ => 0;
    var kind := match l
      case DeliverL(_, _) => 0
      case CompleteL(_, _) => 1
      case PollL(_, _) => 2
      case ProcessL(_) => 3
      case LeaveL(_) => 4;
    assert l == LabelOf(l.client, kind, n);
  }

  /** A side that polls in vain is never alone: its peer or the fabric can move. */
  lemma SomethingElseMoves(p: Params, client: bool, x: Side, y: Side) returns (l: Label)
    requires ValidParams(p) && Inv(p, Both(client, x, y))
    requires !x.done && More(p, x) && x.batch == [] && x.cq == []
    ensures Outside(client, l) && Enabled(p, Both(client, x, y), l)
  {
    var s := Both(client, x, y);
    if Stuck(p, s) {
      StuckMeansDone(p, s);
      assert false;
    }
    l :| Enabled(p, s, l);
  }

  // ---------- One process ----------

  class Endpoint {
    const loop: Loop
    const client: bool
    /** The completion queue, what was polled and is still to be handled, and whether the loop was left. */
    var cq: seq<Wc>
    var batch: seq<Wc>
    var done: bool
    /** The other process, and the steps taken so far. */
    var peer: Side
    ghost var trace: seq<Label>

    function View(): Side reads this, loop, loop.pending requires loop.Valid() {
      loop.View().(cq := cq, batch := batch, done := done)
    }

    function Now(): State reads this, loop, loop.pending requires loop.Valid() { Both(client, View(), peer) }

    /** The steps taken so far are a run that leads to this side being x. */
    ghost predicate LedTo(x: Side) reads this, loop, loop.pending {
      && ValidParams(loop.p) && Numbered(loop.qpNums) && loop.Valid()
      && Leads(loop.p, trace, Both(client, x, peer))
    }

    ghost predicate Running() reads this, loop, loop.pending { loop.Valid() && LedTo(View()) }

    ghost function Work(): int reads this, loop, loop.pending requires loop.Valid() { Measure(loop.p, Now()) }

    lemma Facts()
      requires Running()
      ensures Pair(loop.p, View(), peer) && Inv(loop.p, Now()) && Work() >= 0
    {
      LeadsSafely(loop.p, trace, Now());
      PairSymmetric(loop.p, Now().server, Now().client);
    }

    /** A step was taken from s, by whomever. */
    ghost method Record(l: Label, s: State)
      requires ValidParams(loop.p) && Numbered(loop.qpNums) && loop.Valid()
      requires Leads(loop.p, trace, s) && Enabled(loop.p, s, l) && Step(loop.p, s, l) == Now()
      modifies `trace
      ensures Running() && 0 <= Work() < Measure(loop.p, s)
    {
      LeadsOn(loop.p, trace, s, l, Now());
      trace := trace + [l];
    }

    /** Up to the loop: receives posted, on the client a send on every queue pair. */
    constructor (p: Params, client: bool, qpNums: seq<int>)
      requires ValidParams(p) && |qpNums| == p.numQp && Numbered(qpNums)
      ensures fresh(loop) && fresh(loop.pending) && loop.p == p && loop.qpNums == qpNums && this.client == client
      ensures Running() && batch == [] && !done
    {
      this.client := client;
      loop := new Loop(p, client, qpNums);
      cq, batch, done, peer, trace := [], [], false, Start(p, !client), [];
    }

    // ---------- The peer and the fabric ----------

    /** The fabric accepts, or completes, a send of this side. */
    method FabricStep(l: Label)
      requires Running() && l.client == client && (l.DeliverL? || l.CompleteL?) && Enabled(loop.p, Now(), l)
      modifies loop`out, `cq, `peer, `trace
      ensures Running() && 0 <= Work() < old(Work())
    {
      ghost var s := Now();
      if l.DeliverL? {
        loop.out := loop.out[l.q := Acked];
        peer := Land(peer, l.q);
      } else {
        loop.out := loop.out[l.q := Idle];
        cq := cq + [Sent(l.q)];
      }
      Record(l, s);
    }

    /** The peer takes a step, or the fabric one with what the peer sent. */
    method PeerStep(l: Label)
      requires Running() && l.client != client && Enabled(loop.p, Now(), l)
      modifies `cq, `peer, `trace
      ensures Running() && 0 <= Work() < old(Work())
    {
      ghost var s := Now();
      peer := SideStep(loop.p, peer, View(), l).0;
      if l.DeliverL? {
        cq := cq + [Received(l.q)];
      }
      Record(l, s);
    }

    method OutsideMove(l: Label)
      requires Running() && Outside(client, l) && Enabled(loop.p, Now(), l)
      modifies loop`out, `cq, `peer, `trace
      ensures Running() && 0 <= Work() < old(Work())
    {
      if l.client == client {
        FabricStep(l);
      } else {
        PeerStep(l);
      }
    }

    predicate OutsideCan(whose: bool, kind: nat, n: nat) reads this, loop, loop.pending requires loop.Valid() {
      && kind < 5 && n <= loop.p.numQp + loop.p.rxDepth
      && Outside(client, LabelOf(whose, kind, n)) && Enabled(loop.p, Now(), LabelOf(whose, kind, n))
    }

    predicate PollsInVain() reads this, loop, loop.pending requires loop.Valid() {
      !done && More(loop.p, View()) && batch == [] && cq == []
    }

    /** A side that polls in vain is never alone. */
    lemma SomethingMoves()
      requires Running() && PollsInVain()
      ensures exists whose, kind, n :: OutsideCan(whose, kind, n)
    {
      Facts();
      var l := SomethingElseMoves(loop.p, client, View(), peer);
      LabelsAreListed(loop.p, Now(), l);
      var kind: nat, n: nat :| kind < 5 && n <= loop.p.numQp + loop.p.rxDepth && l == LabelOf(l.client, kind, n);
      assert OutsideCan(l.client, kind, n);
    }

    /** Any step of the peer or the fabric, if there is one to take. */
    method SomeMove() returns (moved: bool)
      requires Running()
      modifies loop`out, `cq, `peer, `trace
      ensures Running()
      ensures if moved then 0 <= Work() < old(Work()) else Now() == old(Now()) && trace == old(trace)
      ensures old(PollsInVain()) ==> moved
    {
      if PollsInVain() {
        SomethingMoves();
      }
      moved := false;
      if exists whose: bool, kind: nat, n: nat ::
           kind < 5 && n <= loop.p.numQp + loop.p.rxDepth && OutsideCan(whose, kind, n) {
        var whose: bool, kind: nat, n: nat :|
          kind < 5 && n <= loop.p.numQp + loop.p.rxDepth && OutsideCan(whose, kind, n);
        OutsideMove(LabelOf(whose, kind, n));
        moved := true;
      }
    }

    /** Between two statements the peer and the fabric take any number of steps. */
    method Meanwhile()
      requires Running()
      modifies loop`out, `cq, `peer, `trace
      ensures Running() && 0 <= Work() <= old(Work())
    {
      Facts();
      while *
        invariant Running() && 0 <= Work() <= old(Work())
        decreases Work()
      {
        var moved := SomeMove();
        if !moved {
          break;
        }
      }
    }

    // ---------- The loop ----------

    /** ibv_poll_cq until it finds something: the loop ends. */
    method AwaitCompletion()
      requires Running() && batch == [] && !done && More(loop.p, View())
      modifies loop`out, `cq, `peer, `trace
      ensures Running() && 0 <= Work() <= old(Work()) && cq != []
    {
      Meanwhile();
      while cq == []
        invariant Running() && 0 <= Work() <= old(Work())
        decreases Work()
      {
        var moved := SomeMove();
      }
    }

    /** What it finds: any number of completions, up to num_wc. */
    method TakeSome() returns (wc: seq<RawWc>)
      requires Running() && batch == [] && !done && More(loop.p, View()) && cq != []
      modifies `cq, `batch, `trace
      ensures Running() && 0 <= Work() < old(Work())
      ensures wc != [] && Reported(loop.qpNums, wc, batch)
    {
      ghost var s := Now();
      var n: nat :| 1 <= n <= |cq| && n <= loop.p.numQp + loop.p.rxDepth;
      batch, cq := cq[..n], cq[n..];
      Record(PollL(client, n), s);
      InRange();
      wc := Reports(loop.qpNums, batch);
    }

    lemma InRange()
      requires Running()
      ensures forall i :: 0 <= i < |batch| ==> batch[i].qp < |loop.qpNums|
    {
      Facts();
      forall i | 0 <= i < |batch| ensures batch[i].qp < |loop.qpNums| {
        assert Queue(View())[i] == batch[i];
      }
    }

    method PollCq() returns (wc: seq<RawWc>)
      requires Running() && batch == [] && !done && More(loop.p, View())
      modifies loop`out, `cq, `batch, `peer, `trace
      ensures Running() && 0 <= Work() < old(Work())
      ensures wc != [] && Reported(loop.qpNums, wc, batch)
    {
      AwaitCompletion();
      wc := TakeSome();
    }

    /** The next completion of the batch: it is never refused. */
    method HandleNext(raw: RawWc)
      requires Running() && !done && batch != [] && batch[0].qp < |loop.qpNums| && raw == Report(loop.qpNums, batch[0])
      modifies loop, loop.pending, `cq, `batch, `peer, `trace
      ensures Running() && 0 <= Work() < old(Work()) && batch == old(batch)[1..] && loop.pending == old(loop.pending)
    {
      Meanwhile();
      ghost var s, x := Now(), loop.View();
      ReportDecodes(loop.qpNums, batch[0]);
      var ok := loop.HandleOne(raw);
      assert ok;
      HandleApart(loop.p, x, batch[0], cq, batch[1..], done);
      batch := batch[1..];
      Record(ProcessL(client), s);
    }

    /** for (i = 0; i < ne; ++i) */
    method HandleBatch(wc: seq<RawWc>)
      requires Running() && !done && Reported(loop.qpNums, wc, batch)
      modifies loop, loop.pending, `cq, `batch, `peer, `trace
      ensures Running() && 0 <= Work() <= old(Work()) && batch == [] && loop.pending == old(loop.pending)
    {
      Facts();
      for i := 0 to |wc|
        invariant Running() && 0 <= Work() <= old(Work()) && loop.pending == old(loop.pending)
        invariant batch == old(batch)[i..]
      {
        HandleNext(wc[i]);
      }
    }

    /** The body of the loop. */
    method PollAndHandle()
      requires Running() && batch == [] && !done && More(loop.p, View())
      modifies loop, loop.pending, `cq, `batch, `peer, `trace
      ensures Running() && 0 <= Work() < old(Work()) && batch == [] && loop.pending == old(loop.pending)
    {
      var wc := PollCq();
      HandleBatch(wc);
    }

    /** while (rcnt < iters || scnt < iters) */
    method Turns()
      requires Running() && batch == [] && !done
      modifies loop, loop.pending, `cq, `batch, `peer, `trace
      ensures Running() && batch == [] && !More(loop.p, View())
    {
      Facts();
      while loop.rcnt < loop.p.iters || loop.scnt < loop.p.iters
        invariant Running() && Work() >= 0 && batch == [] && loop.pending == old(loop.pending)
        decreases Work()
      {
        PollAndHandle();
      }
    }

    method Leave()
      requires Running() && batch == [] && !done && !More(loop.p, View())
      modifies `done, `trace
      ensures Running() && done
    {
      ghost var s := Now();
      done := true;
      Record(LeaveL(client), s);
    }

    lemma AtTheEnd()
      requires Running() && done
      ensures loop.p.iters <= loop.rcnt && loop.p.iters <= loop.scnt <= loop.posts < loop.p.iters + loop.p.numQp
      ensures loop.posts == loop.scnt + Count(Outstanding(loop.p, View()))
    {
      Facts();
      PostedIsCountedOrOut(loop.p, View());
    }

    /** The whole loop. Whatever its peer and the fabric do in between, it ends: nothing was refused, the
        side has counted at least iters sends and receives, and every send it ever posted, fewer than
        iters + num_qp of them, is counted or still out on its queue pair. */
    method RunLoop()
      requires Running() && batch == [] && !done
      modifies this, loop, loop.pending
      ensures Running() && done
      ensures loop.p.iters <= loop.rcnt && loop.p.iters <= loop.scnt <= loop.posts < loop.p.iters + loop.p.numQp
      ensures loop.posts == loop.scnt + Count(Outstanding(loop.p, View()))
    {
      Turns();
      Leave();
      AtTheEnd();
    }
  }
}
