/** The XRC ping-pong process as it runs: a counter per peer, changed in place. */
module XrcLoop {
  import opened PingPong
  import opened XrcPingpong
  import SrqLoop

  /** The peer a receive completion came from; an unknown number is taken for peer 0. */
  function PeerOf(qpNums: seq<int>, qpn: int): (i: nat)
    ensures |qpNums| > 0 ==> i < |qpNums|
  {
    if |qpNums| == 1 then 0
    else match SrqLoop.IndexOf(qpNums, qpn) case None => 0 case Some(i) => i
  }

  class Process {
    const numClients: nat
    const numTests: nat
    const qpNums: seq<int>
    var ppCnt: array<nat>
    var cnt: nat
    var drained: nat
    /** Receives posted since the start, and the sends posted, in order. */
    var posted: nat
    var sends: seq<Send>

    ghost predicate Valid() reads this {
      0 < numClients == ppCnt.Length == |qpNums|
    }

    function View(): Ctx reads this, ppCnt {
      Ctx(numClients, numTests, ppCnt[..], cnt, drained)
    }

    /** The state the receive loop is entered in: every receive posted; on the server, which has
        opened with one send per peer, each counter at one. */
    constructor (numClients: nat, numTests: nat, qpNums: seq<int>, server: bool)
      requires 0 < numClients == |qpNums|
      ensures Valid() && fresh(ppCnt)
      ensures this.numClients == numClients && this.numTests == numTests && this.qpNums == qpNums
      ensures View() == Ctx(numClients, numTests, seq(numClients, _ => if server then 1 else 0), 0, 0)
      ensures posted == numClients
      ensures |sends| == if server then numClients else 0
      ensures forall i :: 0 <= i < |sends| ==> sends[i] == Send(i, i, 1 >= numTests)
    {
      this.numClients, this.numTests, this.qpNums := numClients, numTests, qpNums;
      ppCnt := new nat[numClients](_ => 0);
      cnt, drained, posted, sends := 0, 0, 0, [];
      new;
      PostRecv(numClients);
      if server {
        for i := 0 to numClients
          modifies this`sends, ppCnt
          invariant posted == numClients && cnt == 0 && drained == 0
          invariant forall j :: 0 <= j < numClients ==> ppCnt[j] == if j < i then 1 else 0
          invariant |sends| == i && forall j :: 0 <= j < i ==> sends[j] == Send(j, j, 1 >= numTests)
        {
          ModIs(numClients, i, 0, i);
          PostSend(i);
        }
      }
      assert ppCnt[..] == seq(numClients, _ => if server then 1 else 0);
    }

    method PostRecv(n: nat)
      modifies `posted
      ensures posted == old(posted) + n
    {
      for i := 0 to n
        invariant posted == old(posted) + i
      {
        posted := posted + 1;
      }
    }

    method PostSend(index: nat)
      requires Valid() && index < numClients
      modifies `sends, ppCnt
      ensures var k := old(ppCnt[index]);
              && sends == old(sends) + [Send(index, (index + k) % numClients, k + 1 >= numTests)]
              && ppCnt[..] == old(ppCnt[..])[index := k + 1]
      ensures sends == old(sends) + [Outgoing(old(View()), index)]
      ensures View() == Counted(old(View()), index)
    {
      var qpi := (index + ppCnt[index]) % numClients;
      ppCnt[index] := ppCnt[index] + 1;
      sends := sends + [Send(index, qpi, ppCnt[index] >= numTests)];
      assert ppCnt[..] == old(ppCnt[..])[index := old(ppCnt[index]) + 1];
    }

    method FindQp(qpn: int) returns (i: nat)
      requires Valid()
      ensures i == PeerOf(qpNums, qpn) < numClients
      ensures numClients == 1 || qpn !in qpNums ==> i == 0
      ensures numClients > 1 && qpn in qpNums ==> qpNums[i] == qpn && qpn !in qpNums[..i]
    {
      if numClients == 1 {
        return 0;
      }
      i := 0;
      while i < numClients
        invariant 0 <= i <= numClients && qpn !in qpNums[..i]
      {
        if qpNums[i] == qpn {
          SrqLoop.FirstIsIndexOf(qpNums, qpn, i);
          return;
        }
        i := i + 1;
      }
      assert qpNums[..i] == qpNums;
      return 0;
    }

    /** One receive completion: the receive is posted again, the peer answered while tests remain. */
    method HandleReceive(qpn: int)
      requires Valid()
      modifies `cnt, `posted, `sends, ppCnt
      ensures Valid() && posted == old(posted) + 1 && cnt == old(cnt) + 1
      ensures var i := PeerOf(qpNums, qpn);
              var k := old(ppCnt[i]);
              && sends == old(sends) + (if k < numTests then [Send(i, (i + k) % numClients, k + 1 >= numTests)] else [])
              && ppCnt[..] == old(ppCnt[..])[i := if k < numTests then k + 1 else k]
      ensures View() == Handled(old(View()), PeerOf(qpNums, qpn))
      ensures sends == old(sends) + Reply(old(View()), PeerOf(qpNums, qpn))
    {
      PostRecv(1);
      var qpi := FindQp(qpn);
      if ppCnt[qpi] < numTests {
        PostSend(qpi);
      }
      cnt := cnt + 1;
    }
  }
}
