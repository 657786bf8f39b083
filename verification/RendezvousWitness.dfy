/** A concrete run of the read rendezvous in which the line a FIN landed in is overwritten by
    the next RTS before the FIN is handled. */
module RendezvousWitness {
  import opened Bytes
  import opened Verbs
  import opened Rendezvous
  import ReadProgram

  const SMALL := Config([1], 1)
  const ZERO := Line(0, 0, 0, 0)
  const RTS0 := Line(100, 1000, 1, 7)
  const RTS1 := Line(300, 1000, 1, 7)
  const FIN1 := Line(100, 0, 0, 0)

  function StartNode(rank: nat): Node {
    Begin(SMALL, Node(rank, 0, false, Done, ZERO, ZERO, ZERO, ZERO, 1000, 2000, 7, [0], [0], map[], [],
      Idle, [], MAX_RECV_NUM, Wc(OpSend, 0, 0, ZERO), true, [], []))
  }

  // Rank 0 has announced the payload 5.
  function Announced(): State {
    State(StartNode(0).(pc := AwaitRtsSent, sendBuf := [5], log := [[5]], heap := map[100 := SendCtx(1000, 1, 0)],
                        rts := RTS0, slot := Queued(SendImm(RtsLine, 4, 0))),
          StartNode(1))
  }

  // Rank 1 has polled the RTS.
  function Heard(): State {
    State(Announced().n0.(slot := Accepted(SendImm(RtsLine, 4, 0))),
          StartNode(1).(pc := GotRts, ctl := RTS0, wc := Wc(OpRecv, 0, 0, RTS0)))
  }

  // Rank 1 has handled the RTS and posted its read.
  function Reading(): State {
    State(Heard().n0,
          Heard().n1.(pc := AwaitRead, heap := map[200 := RecvCtx(2000, 1, 100)],
                      slot := Queued(RdmaRead(2000, 1, 1000, 7, 200))))
  }

  // Rank 1 has the payload, and has polled the completion of its read.
  function HasRead(): State {
    State(Reading().n0,
          Reading().n1.(pc := GotRead, recvBuf := [5], wc := Wc(OpRead, 0, 200, ZERO), slot := Idle))
  }

  // Rank 1 has posted its FIN.
  function Fetched(): State {
    State(HasRead().n0,
          HasRead().n1.(pc := AwaitFinSent, heap := map[], fin := FIN1, slot := Queued(SendImm(FinLine, 1, 1))))
  }

  // The FIN has been delivered, and rank 1 has polled its completion.
  function Checking(): State {
    State(Fetched().n0.(ctl := FIN1, rcq := [Wc(OpRecv, 1, 0, FIN1)]),
          Fetched().n1.(pc := CheckBuf, slot := Idle, wc := Wc(OpSend, 0, 0, ZERO)))
  }

  // Rank 1 has checked its buffer and gone on to its own half.
  function Turned(): State {
    State(Checking().n0, Checking().n1.(pc := Stage, second := true, got := [[5]]))
  }

  // Rank 1 has staged the payload 9 and posted its own RTS.
  function Answering(): State {
    State(Turned().n0,
          Turned().n1.(pc := AwaitRtsSent, sendBuf := [9], log := [[9]], heap := map[300 := SendCtx(1000, 1, 0)],
                       rts := RTS1, slot := Queued(SendImm(RtsLine, 4, 0))))
  }

  // Rank 1's RTS has landed on top of the FIN.
  function Overwritten(): State {
    State(Answering().n0.(ctl := RTS1, rcq := [Wc(OpRecv, 1, 0, FIN1), Wc(OpRecv, 0, 0, RTS1)]),
          Answering().n1.(slot := Accepted(SendImm(RtsLine, 4, 0))))
  }

  // Rank 0 has found its own RTS sent.
  function Waiting(): State {
    State(Overwritten().n0.(pc := AwaitFin, slot := Idle, wc := Wc(OpSend, 0, 0, ZERO)), Overwritten().n1)
  }

  // Rank 0 has polled the FIN.
  function Polled(): State {
    State(Waiting().n0.(pc := GotFin, wc := Wc(OpRecv, 1, 0, FIN1), rcq := [Wc(OpRecv, 0, 0, RTS1)]), Waiting().n1)
  }

  predicate Leads(s: State, ls: seq<Label>, t: State) {
    Run(Read, SMALL, s, ls) && After(Read, SMALL, s, ls) == t
  }

  lemma {:induction false} Join(s: State, ls: seq<Label>, t: State, l: Label)
    requires Leads(s, ls, t) && Enabled(Read, SMALL, t, l)
    ensures Leads(s, ls + [l], Step(Read, SMALL, t, l))
    decreases |ls|
  {
    if ls == [] {
      assert (ls + [l])[0] == l && (ls + [l])[1..] == [];
      assert Run(Read, SMALL, Step(Read, SMALL, s, l), []);
    } else {
      assert (ls + [l])[0] == ls[0] && (ls + [l])[1..] == ls[1..] + [l];
      Join(Step(Read, SMALL, s, ls[0]), ls[1..], t, l);
    }
  }

  ghost predicate Reached(t: State) {
    exists ls: seq<Label> :: Leads(State(StartNode(0), StartNode(1)), ls, t)
  }

  lemma Next(t: State, l: Label, u: State)
    requires Reached(t) && Enabled(Read, SMALL, t, l) && Step(Read, SMALL, t, l) == u
    ensures Reached(u)
  {
    var s := State(StartNode(0), StartNode(1));
    var ls :| Leads(s, ls, t);
    Join(s, ls, t, l);
  }

  lemma ReachAnnounced()
    ensures Reached(Announced())
  {
    var s := State(StartNode(0), StartNode(1));
    assert Leads(s, [], s);
    var t := s.(n0 := s.n0.(pc := Announce, sendBuf := [5], log := [[5]]));
    Next(s, Cpu(0, 1, [5]), t);
    Next(t, Cpu(0, 100, []), Announced());
  }

  lemma ReachHeard()
    ensures Reached(Heard())
  {
    ReachAnnounced();
    var s := Announced();
    var w := Wc(OpRecv, 0, 0, RTS0);
    var t := State(Heard().n0, s.n1.(ctl := RTS0, rcq := [w]));
    Next(s, Deliver_(0), t);
    Next(t, Cpu(1, 1, []), Heard());
  }

  lemma ReachReading()
    ensures Reached(Reading())
  {
    ReachHeard();
    Next(Heard(), Cpu(1, 200, []), Reading());
  }

  lemma ReachRead()
    ensures Reached(HasRead())
  {
    ReachReading();
    var s := Reading();
    var t := State(s.n0, s.n1.(recvBuf := [5], slot := Accepted(RdmaRead(2000, 1, 1000, 7, 200))));
    assert Overlay([0], s.n0.sendBuf[..1]) == [5];
    Next(s, Deliver_(1), t);
    var u := State(t.n0, t.n1.(slot := Finished(Wc(OpRead, 0, 200, ZERO))));
    Next(t, Complete_(1), u);
    Next(u, Cpu(1, 1, []), HasRead());
  }

  lemma ReachFetched()
    ensures Reached(Fetched())
  {
    ReachRead();
    Next(HasRead(), Cpu(1, 1, []), Fetched());
  }

  lemma ReachChecking()
    ensures Reached(Checking())
  {
    ReachFetched();
    var s := Fetched();
    var t := State(Checking().n0, s.n1.(slot := Accepted(SendImm(FinLine, 1, 1))));
    Next(s, Deliver_(1), t);
    var u := State(t.n0, t.n1.(slot := Finished(Wc(OpSend, 0, 0, ZERO))));
    Next(t, Complete_(1), u);
    Next(u, Cpu(1, 1, []), Checking());
  }

  lemma ReachTurned()
    ensures Reached(Turned())
  {
    ReachChecking();
    assert Checking().n1.recvBuf[..1] == [5];
    Next(Checking(), Cpu(1, 1, []), Turned());
  }

  lemma ReachAnswering()
    ensures Reached(Answering())
  {
    ReachTurned();
    var s := Turned();
    var t := State(s.n0, s.n1.(pc := Announce, sendBuf := [9], log := [[9]]));
    assert Overlay(s.n1.sendBuf, [9]) == [9];
    Next(s, Cpu(1, 1, [9]), t);
    Next(t, Cpu(1, 300, []), Answering());
  }

  lemma ReachOverwritten()
    ensures Reached(Overwritten())
  {
    ReachAnswering();
    Next(Answering(), Deliver_(1), Overwritten());
  }

  lemma ReachWaiting()
    ensures Reached(Waiting())
  {
    ReachOverwritten();
    var s := Overwritten();
    var t := State(s.n0.(slot := Finished(Wc(OpSend, 0, 0, ZERO))), s.n1);
    Next(s, Complete_(0), t);
    Next(t, Cpu(0, 1, []), Waiting());
  }

  lemma ReachPolled()
    ensures Reached(Polled())
  {
    ReachWaiting();
    Next(Waiting(), Cpu(0, 1, []), Polled());
  }

  /** The first version of handleFIN would free a context that does not exist, in a state the
      benchmark really reaches; the shipped version frees the right one. */
  lemma FinLineIsOverwritten()
    ensures Init(Read, SMALL, State(StartNode(0), StartNode(1)))
    ensures Reached(Polled()) && Polled().n0.pc.GotFin?
    ensures !ReadProgram.HandleFinFromLine(Polled().n0).ok
    ensures ReadProgram.HandleFin(Polled().n0).ok && ReadProgram.HandleFin(Polled().n0).heap == map[]
  {
    ReachPolled();
  }
}
