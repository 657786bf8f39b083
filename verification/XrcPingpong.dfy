/** The XRC ping-pong: one server and n clients, each message to a client sent round robin over
    the server's queue pairs, only the last send to a peer asking for a completion. */
module XrcPingpong {
  import opened PingPong

  datatype Send = Send(index: nat, qp: nat, signaled: bool)

  /** The counters of one process; a client is the same program with one peer. */
  datatype Ctx = Ctx(numClients: nat, numTests: nat, ppCnt: seq<nat>, cnt: nat, drained: nat)

  function QpOf(n: nat, index: nat, k: nat): (q: nat)
    requires n > 0
    ensures q < n
  {
    (index + k) % n
  }

  /** The next send to a peer. */
  function Outgoing(x: Ctx, index: nat): Send
    requires index < |x.ppCnt| && x.numClients > 0
  {
    Send(index, QpOf(x.numClients, index, x.ppCnt[index]), x.ppCnt[index] + 1 >= x.numTests)
  }

  function Counted(x: Ctx, index: nat): Ctx
    requires index < |x.ppCnt|
  {
    x.(ppCnt := x.ppCnt[index := x.ppCnt[index] + 1])
  }

  predicate Answers(x: Ctx, index: nat)
    requires index < |x.ppCnt|
  {
    x.ppCnt[index] < x.numTests
  }

  /** Handling one receive from a peer: a send back while tests remain, and the count. */
  function Handled(x: Ctx, index: nat): Ctx
    requires index < |x.ppCnt|
  {
    (if Answers(x, index) then Counted(x, index) else x).(cnt := x.cnt + 1)
  }

  function Reply(x: Ctx, index: nat): seq<Send>
    requires index < |x.ppCnt| && x.numClients > 0
  {
    if Answers(x, index) then [Outgoing(x, index)] else []
  }

  // ---------- The system ----------

  /** Client i and the wires between it and the server. `down` and `up` are sends not yet accepted,
      `downCq` receive completions the client has not handled; `back` counts the client's messages
      the server has handled. Signaled sends pass from accepted to completed to drained. */
  datatype Link = Link(
    client: Ctx,
    down: seq<Send>, downCq: nat, ackDown: nat, doneDown: nat,
    up: seq<Send>, back: nat, ackUp: nat, sendCq: nat)

  datatype State = State(server: Ctx, links: seq<Link>, recvCq: seq<nat>, sendCq: nat)

  datatype Label =
    | DeliverDown(i: nat)
    | ClientReceive(i: nat)
    | DeliverUp(i: nat)
    | ServerReceive
    | CompleteDown(i: nat)
    | CompleteUp(i: nat)
    | ServerDrain
    | ClientDrain(i: nat)

  function FreshLink(n: nat, t: nat, i: nat): Link
    requires n > 0
  {
    Link(Ctx(1, t, [0], 0, 0), [Send(i, QpOf(n, i, 0), 1 >= t)], 0, 0, 0, [], 0, 0, 0)
  }

  /** The server has sent once to every client before it enters its loop. */
  function Init(n: nat, t: nat): State
    requires n > 0
  {
    State(Ctx(n, t, seq(n, _ => 1), 0, 0), seq(n, i requires 0 <= i => FreshLink(n, t, i)), [], 0)
  }

  predicate Fits(s: State) {
    && |s.links| == |s.server.ppCnt| == s.server.numClients > 0
    && forall i :: 0 <= i < |s.links| ==> |s.links[i].client.ppCnt| == 1 == s.links[i].client.numClients
  }

  /** What can happen next. A receive is posted at the start for every peer, and again for every one
      handled, so the posted ones that no message has consumed are numClients less those to handle. */
  predicate Enabled(s: State, l: Label) {
    && Fits(s)
    && match l
       case DeliverDown(i) => i < |s.links| && s.links[i].down != [] && s.links[i].downCq < s.links[i].client.numClients
       case ClientReceive(i) => i < |s.links| && s.links[i].downCq > 0 && s.links[i].client.drained == 0
       case DeliverUp(i) => i < |s.links| && s.links[i].up != [] && |s.recvCq| < s.server.numClients
       case ServerReceive => s.recvCq != [] && s.recvCq[0] < |s.links| && s.server.drained == 0
       case CompleteDown(i) => i < |s.links| && s.links[i].ackDown > 0
       case CompleteUp(i) => i < |s.links| && s.links[i].ackUp > 0
       case ServerDrain =>
         && s.server.cnt >= s.server.numClients * s.server.numTests
         && s.server.drained < s.server.numClients && s.sendCq > 0
       case ClientDrain(i) =>
         && i < |s.links|
         && var k := s.links[i]; k.client.cnt >= k.client.numTests && k.client.drained < 1 && k.sendCq > 0
  }

  function Step(s: State, l: Label): State
    requires Enabled(s, l)
  {
    match l
    case DeliverDown(i) =>
      var k := s.links[i];
      s.(links := s.links[i := k.(down := k.down[1..], downCq := k.downCq + 1,
                                  ackDown := k.ackDown + Bit(k.down[0].signaled))])
    case ClientReceive(i) =>
      var k := s.links[i];
      s.(links := s.links[i := k.(downCq := k.downCq - 1, client := Handled(k.client, 0),
                                  up := k.up + Reply(k.client, 0))])
    case DeliverUp(i) =>
      var k := s.links[i];
      s.(links := s.links[i := k.(up := k.up[1..], ackUp := k.ackUp + Bit(k.up[0].signaled))], recvCq := s.recvCq + [i])
    case ServerReceive =>
      var i := s.recvCq[0];
      var k := s.links[i];
      s.(recvCq := s.recvCq[1..], server := Handled(s.server, i),
         links := s.links[i := k.(back := k.back + 1, down := k.down + Reply(s.server, i))])
    case CompleteDown(i) =>
      var k := s.links[i];
      s.(links := s.links[i := k.(ackDown := k.ackDown - 1, doneDown := k.doneDown + 1)], sendCq := s.sendCq + 1)
    case CompleteUp(i) =>
      var k := s.links[i];
      s.(links := s.links[i := k.(ackUp := k.ackUp - 1, sendCq := k.sendCq + 1)])
    case ServerDrain =>
      s.(sendCq := s.sendCq - 1, server := s.server.(drained := s.server.drained + 1))
    case ClientDrain(i) =>
      var k := s.links[i];
      s.(links := s.links[i := k.(sendCq := k.sendCq - 1, client := k.client.(drained := k.client.drained + 1))])
  }

  // ---------- The invariant ----------

  /** What holds of client i, the server having sent it `sent` messages. */
  predicate LinkOk(n: nat, t: nat, i: nat, k: Link, sent: nat, landed: bool) {
    && n > 0
    && k.client.numClients == 1 && k.client.numTests == t && k.client.ppCnt == [k.client.cnt]
    && k.client.cnt + |k.down| + k.downCq == sent
    && k.client.cnt == k.back + |k.up| + Bit(landed)
    && sent == (if k.back < t then k.back + 1 else t)
    && k.back <= t
    && (k.down != [] ==> k.down[0] == Send(i, QpOf(n, i, sent - 1), sent == t))
    && (k.up != [] ==> k.up[0].signaled == (k.client.cnt == t))
    && Bit(k.down != [] && sent == t) + k.ackDown + k.doneDown == Bit(sent == t)
    && Bit(k.up != [] && k.client.cnt == t) + k.ackUp + k.sendCq + k.client.drained == Bit(k.client.cnt == t)
  }

  function Backs(links: seq<Link>): seq<nat> { seq(|links|, i requires 0 <= i < |links| => links[i].back) }

  function Dones(links: seq<Link>): seq<nat> { seq(|links|, i requires 0 <= i < |links| => links[i].doneDown) }

  function Sum(s: seq<nat>): nat { if s == [] then 0 else s[0] + Sum(s[1..]) }

  predicate Apart(s: seq<nat>) { forall a, b :: 0 <= a < b < |s| ==> s[a] != s[b] }

  predicate LinksOk(n: nat, t: nat, s: State) {
    && Fits(s)
    && s.server.numClients == n && s.server.numTests == t
    && forall i :: 0 <= i < n ==> LinkOk(n, t, i, s.links[i], s.server.ppCnt[i], i in s.recvCq)
  }

  predicate Inv(n: nat, t: nat, s: State) {
    && LinksOk(n, t, s)
    && Apart(s.recvCq) && (forall a :: 0 <= a < |s.recvCq| ==> s.recvCq[a] < n)
    && s.server.cnt == Sum(Backs(s.links))
    && s.sendCq + s.server.drained == Sum(Dones(s.links))
    && (s.server.drained > 0 ==> s.server.cnt >= n * t)
  }

  lemma {:induction false} SumUpdate(s: seq<nat>, i: nat, v: nat)
    requires i < |s|
    ensures Sum(s[i := v]) + s[i] == Sum(s) + v
  {
    if i == 0 {
      assert s[i := v][1..] == s[1..];
    } else {
      assert s[i := v][1..] == s[1..][i - 1 := v];
      SumUpdate(s[1..], i - 1, v);
    }
  }

  lemma {:induction false} SumWithin(s: seq<nat>, m: nat)
    requires forall i :: 0 <= i < |s| ==> s[i] <= m
    ensures Sum(s) <= |s| * m
    ensures Sum(s) == |s| * m ==> forall i :: 0 <= i < |s| ==> s[i] == m
  {
    if s != [] {
      SumWithin(s[1..], m);
      assert |s| * m == m + |s[1..]| * m;
      assert forall i :: 0 < i < |s| ==> s[i] == s[1..][i - 1];
    }
  }

  lemma {:induction false} SumAll(s: seq<nat>, m: nat)
    requires forall i :: 0 <= i < |s| ==> s[i] == m
    ensures Sum(s) == |s| * m
  {
    if s != [] {
      SumAll(s[1..], m);
      assert |s| * m == m + |s[1..]| * m;
    }
  }

  lemma SumsOf(links: seq<Link>, i: nat, k: Link)
    requires i < |links|
    ensures Sum(Backs(links[i := k])) + links[i].back == Sum(Backs(links)) + k.back
    ensures Sum(Dones(links[i := k])) + links[i].doneDown == Sum(Dones(links)) + k.doneDown
  {
    assert Backs(links[i := k]) == Backs(links)[i := k.back];
    assert Dones(links[i := k]) == Dones(links)[i := k.doneDown];
    SumUpdate(Backs(links), i, k.back);
    SumUpdate(Dones(links), i, k.doneDown);
  }

  lemma InitInv(n: nat, t: nat)
    requires n > 0 && t > 0
    ensures Inv(n, t, Init(n, t))
  {
    var s := Init(n, t);
    SumAll(Backs(s.links), 0);
    SumAll(Dones(s.links), 0);
  }

  /** The client whose link a step touches, if it touches one. */
  predicate Touches(s: State, l: Label, i: nat) {
    match l
    case ServerReceive => s.recvCq != [] && s.recvCq[0] == i
    case ServerDrain => false
    case _ => l.i == i
  }

  lemma UntouchedKeeps(n: nat, t: nat, s: State, l: Label, i: nat)
    requires Inv(n, t, s) && Enabled(s, l) && i < n && !Touches(s, l, i)
    ensures Fits(Step(s, l)) && Step(s, l).links[i] == s.links[i] && Step(s, l).server.ppCnt[i] == s.server.ppCnt[i]
    ensures i in Step(s, l).recvCq <==> i in s.recvCq
  {
    if l.ServerReceive? {
      assert s.recvCq == [s.recvCq[0]] + s.recvCq[1..];
    }
  }

  lemma TouchedKeeps(n: nat, t: nat, s: State, l: Label, i: nat)
    requires Inv(n, t, s) && Enabled(s, l) && i < n && Touches(s, l, i)
    ensures var s' := Step(s, l);
            Fits(s') && LinkOk(n, t, i, s'.links[i], s'.server.ppCnt[i], i in s'.recvCq)
  {
    var k := s.links[i];
    assert LinkOk(n, t, i, k, s.server.ppCnt[i], i in s.recvCq);
    if l.ServerReceive? {
      assert s.recvCq == [i] + s.recvCq[1..];
      assert i !in s.recvCq[1..];
    }
  }

  lemma StepKeepsLinks(n: nat, t: nat, s: State, l: Label)
    requires Inv(n, t, s) && Enabled(s, l)
    ensures LinksOk(n, t, Step(s, l))
  {
    var s' := Step(s, l);
    forall i | 0 <= i < n ensures LinkOk(n, t, i, s'.links[i], s'.server.ppCnt[i], i in s'.recvCq) {
      assert LinkOk(n, t, i, s.links[i], s.server.ppCnt[i], i in s.recvCq);
      if Touches(s, l, i) {
        TouchedKeeps(n, t, s, l, i);
      } else {
        UntouchedKeeps(n, t, s, l, i);
      }
    }
  }

  lemma StepKeepsQueue(n: nat, t: nat, s: State, l: Label)
    requires Inv(n, t, s) && Enabled(s, l)
    ensures var q := Step(s, l).recvCq; Apart(q) && forall a :: 0 <= a < |q| ==> q[a] < n
  {
    if l.DeliverUp? {
      assert LinkOk(n, t, l.i, s.links[l.i], s.server.ppCnt[l.i], l.i in s.recvCq);
    }
  }

  lemma StepKeepsSums(n: nat, t: nat, s: State, l: Label)
    requires Inv(n, t, s) && Enabled(s, l)
    ensures var s' := Step(s, l);
            && s'.server.cnt == Sum(Backs(s'.links))
            && s'.sendCq + s'.server.drained == Sum(Dones(s'.links))
  {
    var s' := Step(s, l);
    if !l.ServerDrain? {
      var i := if l.ServerReceive? then s.recvCq[0] else l.i;
      var k := s'.links[i];
      assert s'.links == s.links[i := k];
      SumsOf(s.links, i, k);
    }
  }

  lemma StepKeepsDrain(n: nat, t: nat, s: State, l: Label)
    requires Inv(n, t, s) && Enabled(s, l)
    ensures Step(s, l).server.drained > 0 ==> Step(s, l).server.cnt >= n * t
  {}

  lemma StepKeeps(n: nat, t: nat, s: State, l: Label)
    requires Inv(n, t, s) && Enabled(s, l)
    ensures Inv(n, t, Step(s, l))
  {
    StepKeepsLinks(n, t, s, l);
    StepKeepsQueue(n, t, s, l);
    StepKeepsSums(n, t, s, l);
    StepKeepsDrain(n, t, s, l);
  }

  // ---------- n receives, n receive completions and n send completions suffice ----------

  lemma {:induction false} ApartFits(ws: seq<nat>, n: nat)
    requires Apart(ws) && forall a :: 0 <= a < |ws| ==> ws[a] < n
    ensures |ws| == Count(seq(n, q requires 0 <= q => q in ws))
  {
    var present := seq(n, q requires 0 <= q => q in ws);
    if ws == [] {
      CountZero(present);
    } else {
      var rest := ws[1..];
      assert ws == [ws[0]] + rest;
      ApartFits(rest, n);
      assert present == seq(n, q requires 0 <= q => q in rest)[ws[0] := true];
      CountUpdate(seq(n, q requires 0 <= q => q in rest), ws[0], true);
    }
  }

  /** One ball per client: at most one message between it and the server, either way, handled or not. */
  lemma OneMessagePerClient(n: nat, t: nat, s: State, i: nat)
    requires Inv(n, t, s) && i < n
    ensures var k := s.links[i]; |k.down| + k.downCq + |k.up| + Bit(i in s.recvCq) <= 1
  {
    assert LinkOk(n, t, i, s.links[i], s.server.ppCnt[i], i in s.recvCq);
  }

  /** What is in flight to client i is its latest send: the k-th goes out on queue pair
      (i + k) mod n, and only the last of the t sends asks for a completion. */
  lemma SendInFlight(n: nat, t: nat, s: State, i: nat)
    requires Inv(n, t, s) && i < n && s.links[i].down != []
    ensures var k := s.server.ppCnt[i] - 1;
            0 <= k < t && s.links[i].down == [Send(i, (i + k) % n, k == t - 1)]
  {
    OneMessagePerClient(n, t, s, i);
    assert LinkOk(n, t, i, s.links[i], s.server.ppCnt[i], i in s.recvCq);
  }

  /** Whatever is in flight finds a posted receive, and no completion queue of the server overflows. */
  lemma ReceivesSuffice(n: nat, t: nat, s: State, i: nat)
    requires Inv(n, t, s) && i < n
    ensures s.links[i].down != [] ==> s.links[i].downCq < s.links[i].client.numClients == 1
    ensures s.links[i].up != [] ==> |s.recvCq| < s.server.numClients == n
    ensures |s.recvCq| <= n && s.sendCq <= n && s.links[i].downCq <= 1 && s.links[i].sendCq <= 1
  {
    OneMessagePerClient(n, t, s, i);
    ApartFits(s.recvCq, n);
    var present := seq(n, q requires 0 <= q => q in s.recvCq);
    if s.links[i].up != [] {
      CountSome(present, i);
    }
    forall j | 0 <= j < n ensures Dones(s.links)[j] <= 1 {
      assert LinkOk(n, t, j, s.links[j], s.server.ppCnt[j], j in s.recvCq);
    }
    SumWithin(Dones(s.links), 1);
    assert LinkOk(n, t, i, s.links[i], s.server.ppCnt[i], i in s.recvCq);
  }

  // ---------- Every run ends, after the same number of steps ----------

  /** The steps that remain for one client and its wires. */
  function LinkLeft(t: nat, k: Link, sent: nat): int {
    (t - (sent - |k.down|)) + (t - k.client.cnt) + (t - (k.client.cnt - |k.up|)) + (t - k.back)
    + (1 - k.doneDown) + (1 - k.sendCq - k.client.drained) + (1 - k.client.drained)
  }

  function Lefts(t: nat, s: State): (r: seq<int>)
    requires Fits(s)
  {
    seq(|s.links|, i requires 0 <= i < |s.links| => LinkLeft(t, s.links[i], s.server.ppCnt[i]))
  }

  function Total(s: seq<int>): int { if s == [] then 0 else s[0] + Total(s[1..]) }

  function Measure(n: nat, t: nat, s: State): int
    requires Fits(s)
  {
    Total(Lefts(t, s)) + n - s.server.drained
  }

  lemma {:induction false} TotalUpdate(s: seq<int>, i: nat, v: int)
    requires i < |s|
    ensures Total(s[i := v]) + s[i] == Total(s) + v
  {
    if i == 0 {
      assert s[i := v][1..] == s[1..];
    } else {
      assert s[i := v][1..] == s[1..][i - 1 := v];
      TotalUpdate(s[1..], i - 1, v);
    }
  }

  lemma {:induction false} TotalAll(s: seq<int>, m: int)
    requires forall i :: 0 <= i < |s| ==> s[i] == m
    ensures Total(s) == |s| * m
  {
    if s != [] {
      TotalAll(s[1..], m);
      assert |s| * m == m + |s[1..]| * m;
    }
  }

  lemma LinkPays(n: nat, t: nat, s: State, l: Label, i: nat)
    requires Inv(n, t, s) && Enabled(s, l) && i < n && Touches(s, l, i)
    ensures var s' := Step(s, l);
            Fits(s') && LinkLeft(t, s'.links[i], s'.server.ppCnt[i]) == LinkLeft(t, s.links[i], s.server.ppCnt[i]) - 1
  {
    assert LinkOk(n, t, i, s.links[i], s.server.ppCnt[i], i in s.recvCq);
  }

  lemma OneLeftChanges(n: nat, t: nat, s: State, l: Label, i: nat)
    requires Inv(n, t, s) && Enabled(s, l) && i < n && Touches(s, l, i)
    ensures Fits(Step(s, l)) && Lefts(t, Step(s, l)) == Lefts(t, s)[i := Lefts(t, s)[i] - 1]
  {
    LinkPays(n, t, s, l, i);
    forall j | 0 <= j < n && j != i ensures Lefts(t, Step(s, l))[j] == Lefts(t, s)[j] {
      UntouchedKeeps(n, t, s, l, j);
    }
  }

  /** Every step does exactly one unit of what remains. */
  lemma StepPaysOne(n: nat, t: nat, s: State, l: Label)
    requires Inv(n, t, s) && Enabled(s, l)
    ensures Fits(Step(s, l)) && Measure(n, t, Step(s, l)) == Measure(n, t, s) - 1
  {
    StepKeeps(n, t, s, l);
    var s' := Step(s, l);
    if l.ServerDrain? {
      assert Lefts(t, s') == Lefts(t, s);
    } else {
      var i := if l.ServerReceive? then s.recvCq[0] else l.i;
      OneLeftChanges(n, t, s, l, i);
      TotalUpdate(Lefts(t, s), i, Lefts(t, s)[i] - 1);
    }
  }

  predicate Run(s: State, ls: seq<Label>)
    decreases |ls|
  {
    ls == [] || (Enabled(s, ls[0]) && Run(Step(s, ls[0]), ls[1..]))
  }

  function After(s: State, ls: seq<Label>): State
    requires Run(s, ls)
    decreases |ls|
  {
    if ls == [] then s else After(Step(s, ls[0]), ls[1..])
  }

  lemma {:induction false} EveryRun(n: nat, t: nat, s: State, ls: seq<Label>)
    requires Inv(n, t, s) && Run(s, ls)
    ensures Inv(n, t, After(s, ls))
    ensures Measure(n, t, After(s, ls)) + |ls| == Measure(n, t, s)
    decreases |ls|
  {
    if ls != [] {
      StepKeeps(n, t, s, ls[0]);
      StepPaysOne(n, t, s, ls[0]);
      EveryRun(n, t, Step(s, ls[0]), ls[1..]);
    }
  }

  ghost predicate Stuck(s: State) { forall l: Label :: !Enabled(s, l) }

  /** Client i is through: every message sent, received and answered, its completions drained. */
  predicate LinkDone(t: nat, k: Link, sent: nat) {
    && sent == t && k.client.ppCnt == [t] && k.client.cnt == t && k.back == t
    && k.down == [] && k.up == [] && k.downCq == 0
    && k.doneDown == 1 && k.client.drained == 1
  }

  lemma StuckLinkIsDone(n: nat, t: nat, s: State, i: nat)
    requires n > 0 && t > 0 && Inv(n, t, s) && i < n && Stuck(s) && s.recvCq == []
    ensures LinkDone(t, s.links[i], s.server.ppCnt[i])
  {
    assert LinkOk(n, t, i, s.links[i], s.server.ppCnt[i], i in s.recvCq);
    ReceivesSuffice(n, t, s, i);
    assert !Enabled(s, DeliverDown(i)) && !Enabled(s, DeliverUp(i)) && !Enabled(s, CompleteDown(i));
    assert !Enabled(s, CompleteUp(i)) && !Enabled(s, ClientDrain(i)) && !Enabled(s, ClientReceive(i));
  }

  predicate Finished(n: nat, t: nat, s: State) {
    && Fits(s) && |s.links| == n
    && (forall i :: 0 <= i < n ==> LinkDone(t, s.links[i], s.server.ppCnt[i]))
    && s.server.cnt == n * t && s.server.drained == n && s.sendCq == 0 && s.recvCq == []
  }

  lemma LandedMeansLess(n: nat, t: nat, s: State, i: nat)
    requires Inv(n, t, s) && i in s.recvCq
    ensures i < n && Backs(s.links)[i] < t
  {
    assert i < n && LinkOk(n, t, i, s.links[i], s.server.ppCnt[i], i in s.recvCq);
  }

  /** While the server drains it has received everything, so its receive queue is empty. */
  lemma DrainingMeansEmpty(n: nat, t: nat, s: State)
    requires Inv(n, t, s) && s.server.cnt >= n * t
    ensures s.server.cnt == n * t && s.recvCq == []
  {
    forall i | 0 <= i < n ensures Backs(s.links)[i] <= t {
      assert LinkOk(n, t, i, s.links[i], s.server.ppCnt[i], i in s.recvCq);
    }
    SumWithin(Backs(s.links), t);
    if s.recvCq != [] {
      LandedMeansLess(n, t, s, s.recvCq[0]);
    }
  }

  lemma StuckIsFinished(n: nat, t: nat, s: State)
    requires n > 0 && t > 0 && Inv(n, t, s) && Stuck(s)
    ensures Finished(n, t, s)
  {
    assert !Enabled(s, ServerReceive) && !Enabled(s, ServerDrain);
    if s.recvCq != [] {
      DrainingMeansEmpty(n, t, s);
    }
    forall i | 0 <= i < n ensures LinkDone(t, s.links[i], s.server.ppCnt[i]) {
      StuckLinkIsDone(n, t, s, i);
    }
    SumAll(Backs(s.links), t);
    SumAll(Dones(s.links), 1);
  }

  lemma InitMeasure(n: nat, t: nat)
    requires n > 0 && t > 0
    ensures Fits(Init(n, t)) && Measure(n, t, Init(n, t)) == 4 * (n * t) + 4 * n
  {
    var s := Init(n, t);
    TotalAll(Lefts(t, s), 4 * t + 3);
    assert n * (4 * t + 3) == 4 * (n * t) + 3 * n;
  }

  /** The theorem: every run that cannot be continued has taken exactly 4n(t + 1) steps, and has
      ended with n*t messages sent and received by the server, t by each client, exactly one
      completion drained per peer, and nothing left anywhere. */
  lemma EveryMaximalRunConserves(n: nat, t: nat, ls: seq<Label>)
    requires n > 0 && t > 0 && Run(Init(n, t), ls)
    ensures |ls| <= 4 * (n * t) + 4 * n
    ensures var e := After(Init(n, t), ls);
            Stuck(e) ==>
              && |ls| == 4 * (n * t) + 4 * n
              && e.server.cnt == n * t && e.server.drained == n && e.recvCq == [] && e.sendCq == 0
              && e.server.ppCnt == seq(n, _ => t) && Sum(e.server.ppCnt) == n * t
              && |e.links| == n
              && forall i :: 0 <= i < n ==>
                   var k := e.links[i];
                   && k.client.ppCnt == [t] && k.client.cnt == t && k.client.drained == 1
                   && k.down == [] && k.up == [] && k.downCq == 0
  {
    InitInv(n, t);
    InitMeasure(n, t);
    EveryRun(n, t, Init(n, t), ls);
    var s := After(Init(n, t), ls);
    MeasureIsNatural(n, t, s);
    if Stuck(s) {
      StuckIsFinished(n, t, s);
      FinishedLeavesNothing(n, t, s);
      assert forall i :: 0 <= i < n ==> LinkDone(t, s.links[i], s.server.ppCnt[i]);
    }
  }

  lemma FinishedLeavesNothing(n: nat, t: nat, s: State)
    requires Inv(n, t, s) && Finished(n, t, s)
    ensures Sum(s.server.ppCnt) == n * t && Measure(n, t, s) == 0
  {
    SumAll(s.server.ppCnt, t);
    forall i | 0 <= i < n ensures Lefts(t, s)[i] == 0 {
      LinkLeavesNothing(n, t, i, s.links[i], s.server.ppCnt[i], i in s.recvCq);
    }
    TotalAll(Lefts(t, s), 0);
  }

  lemma LinkLeavesNothing(n: nat, t: nat, i: nat, k: Link, sent: nat, landed: bool)
    requires LinkOk(n, t, i, k, sent, landed) && LinkDone(t, k, sent)
    ensures LinkLeft(t, k, sent) == 0
  {}

  lemma {:induction false} TotalNatural(s: seq<int>)
    requires forall i :: 0 <= i < |s| ==> s[i] >= 0
    ensures Total(s) >= 0
  {
    if s != [] { TotalNatural(s[1..]); }
  }

  lemma MeasureIsNatural(n: nat, t: nat, s: State)
    requires Inv(n, t, s)
    ensures Measure(n, t, s) >= 0
  {
    forall i | 0 <= i < n ensures Lefts(t, s)[i] >= 0 && Dones(s.links)[i] <= 1 {
      assert LinkOk(n, t, i, s.links[i], s.server.ppCnt[i], i in s.recvCq);
    }
    TotalNatural(Lefts(t, s));
    SumWithin(Dones(s.links), 1);
  }

  // ---------- Round robin ----------

  /** The k-th sends to the peers use each queue pair exactly once. */
  lemma RoundRobin(n: nat, k: nat, q: nat)
    requires n > 0 && q < n
    ensures exists i: nat :: i < n && QpOf(n, i, k) == (i + k) % n == q
    ensures forall i: nat, j: nat :: i < n && j < n && QpOf(n, i, k) == q && QpOf(n, j, k) == q ==> i == j
  {
    var r := k % n;
    forall i: nat | i < n ensures QpOf(n, i, k) == if i + r < n then i + r else i + r - n {
      ModWraps(n, i, k);
    }
    var i := if q >= r then q - r else q + n - r;
    assert QpOf(n, i, k) == q;
  }

  /** The queue pairs of n sends to one peer that follow each other, from the k-th on. */
  function InTurn(n: nat, index: nat, k: nat): (qps: seq<nat>)
    requires n > 0
    ensures |qps| == n && forall j :: 0 <= j < n ==> qps[j] == QpOf(n, index, k + j)
  {
    seq<nat>(n, j requires 0 <= j => QpOf(n, index, k + j))
  }

  /** They are all different, and every queue pair is among them. */
  lemma EachQpInTurn(n: nat, index: nat, k: nat, q: nat)
    requires n > 0 && q < n
    ensures var qps := InTurn(n, index, k);
            && (forall j :: 0 <= j < n ==> qps[j] == (index + k + j) % n)
            && (forall i, j :: 0 <= i < j < n ==> qps[i] != qps[j])
            && q in qps
  {
    var qps := InTurn(n, index, k);
    forall j | 0 <= j < n ensures qps[j] == (index + k + j) % n == QpOf(n, j, index + k) {
      assert index + (k + j) == j + (index + k);
    }
    forall i, j | 0 <= i < j < n ensures qps[i] != qps[j] {
      RoundRobin(n, index + k, qps[i]);
    }
    RoundRobin(n, index + k, q);
    var j: nat :| j < n && QpOf(n, j, index + k) == q;
    assert qps[j] == q;
  }

  /** The next send to a peer goes out on the queue pair after the one before. */
  lemma NextQp(x: Ctx, index: nat)
    requires index < |x.ppCnt| && x.numClients > 0
    ensures Outgoing(x, index).qp == (index + x.ppCnt[index]) % x.numClients
    ensures Outgoing(Counted(x, index), index).qp == (Outgoing(x, index).qp + 1) % x.numClients
  {
    NextModulo(x.numClients, index + x.ppCnt[index]);
  }

  lemma NextModulo(n: nat, k: nat)
    requires n > 0
    ensures (k + 1) % n == (k % n + 1) % n
  {
    ModIs(n, k, k / n, k % n);
    if k % n + 1 < n {
      ModIs(n, k + 1, k / n, k % n + 1);
      ModIs(n, k % n + 1, 0, k % n + 1);
    } else {
      ModIs(n, k + 1, k / n + 1, 0);
      ModIs(n, n, 1, 0);
    }
  }

  lemma ModWraps(n: nat, i: nat, k: nat)
    requires n > 0 && i < n
    ensures (i + k) % n == if i + k % n < n then i + k % n else i + k % n - n
  {
    var d, r := k / n, k % n;
    assert k == n * d + r;
    if i + r < n {
      ModIs(n, i + k, d, i + r);
    } else {
      assert i + k == n * (d + 1) + (i + r - n);
      ModIs(n, i + k, d + 1, i + r - n);
    }
  }

  /** The sends that used queue pair q once every peer has been sent t messages. */
  function UsesOf(n: nat, t: nat, q: nat): set<(nat, nat)>
    requires n > 0
  {
    set i: nat, k: nat | i < n && k < t && QpOf(n, i, k) == q :: (i, k)
  }

  /** Every queue pair carries exactly t of them, so a send queue of n*t never fills. */
  lemma {:induction false} EachQpCarriesItsShare(n: nat, t: nat, q: nat)
    requires n > 0 && q < n
    ensures |UsesOf(n, t, q)| == t
  {
    if t > 0 {
      RoundRobin(n, t - 1, q);
      var i: nat :| i < n && QpOf(n, i, t - 1) == q;
      EachQpCarriesItsShare(n, t - 1, q);
      assert UsesOf(n, t, q) == UsesOf(n, t - 1, q) + {(i, t - 1)};
      assert (i, t - 1) !in UsesOf(n, t - 1, q);
    }
  }
}
