/** A writer and a reader of PMI2 commands at the two ends of a byte stream. Each write moves any
    number of bytes, each read takes any number of those that are there, in any interleaving. */
module Pmi2Stream {
  import opened Bytes
  import opened Scanf
  import opened Pmi2Wire

  /** A command that fits the writer's buffer with its final NUL. */
  predicate Fits(c: Command) { COMMANDLEN_SIZE + |Body(c)| < MAX_COMMAND_LEN }

  predicate AllFit(cs: seq<Command>) { forall i :: 0 <= i < |cs| ==> Fits(cs[i]) }

  /** One that also reaches a reader with his record at `self`. */
  predicate Sendable(self: Address, c: Command) { Receivable(self, c) && Fits(c) }

  /** Where the record is that the k-th command is read into. */
  type Records = nat -> Address

  predicate AllSendable(at: Records, cs: seq<Command>) { forall i :: 0 <= i < |cs| ==> Sendable(at(i), cs[i]) }

  function Frames(cs: seq<Command>): (s: seq<Byte>)
    requires AllFit(cs)
    ensures s == [] <==> cs == []
  {
    if cs == [] then [] else Frame(cs[0]) + Frames(cs[1..])
  }

  /** Where the reader is: collecting the length field, or the command it announced; or it got
      something that is not stored for its caller. */
  datatype Reader = InHeader(acc: seq<Byte>) | InBody(len: nat, acc: seq<Byte>) | Failed

  /** `current` is what is left of the command being written, `queue` the commands after it. */
  datatype State = State(current: seq<Byte>, queue: seq<Command>, pipe: seq<Byte>, reader: Reader, got: seq<Command>)

  datatype Label = Format | Write(n: nat) | Read(n: nat)

  /** How many bytes the reader asks for. */
  function Want(r: Reader): int {
    match r
    case InHeader(acc) => COMMANDLEN_SIZE - |acc|
    case InBody(len, acc) => len - |acc|
    case Failed => 0
  }

  predicate Enabled(s: State, l: Label) {
    match l
    case Format => s.current == [] && s.queue != [] && Fits(s.queue[0])
    case Write(n) => 1 <= n <= |s.current|
    case Read(n) => 1 <= n <= |s.pipe| && n <= Want(s.reader)
  }

  /** The reader after one more piece, and the command it completes, if it completes one. */
  function Advance(self: Address, r: Reader, piece: seq<Byte>): (Reader, seq<Command>) {
    match r
    case InHeader(acc) =>
      var acc' := acc + piece;
      (if |acc'| < COMMANDLEN_SIZE then InHeader(acc') else InBody(Scan(10, acc'), []), [])
    case InBody(len, acc) =>
      var acc' := acc + piece;
      if |acc'| < len then (InBody(len, acc'), [])
      else (match Receive(self, acc') case Accepted(c) => (InHeader([]), [c]) case _ => (Failed, []))
    case Failed => (Failed, [])
  }

  function Step(at: Records, s: State, l: Label): State
    requires Enabled(s, l)
  {
    match l
    case Format => s.(current := Frame(s.queue[0]), queue := s.queue[1..])
    case Write(n) => s.(current := s.current[n..], pipe := s.pipe + s.current[..n])
    case Read(n) =>
      var (r, cs) := Advance(at(|s.got|), s.reader, s.pipe[..n]);
      s.(pipe := s.pipe[n..], reader := r, got := s.got + cs)
  }

  function Init(cs: seq<Command>): State { State([], cs, [], InHeader([]), []) }

  // ---------- The invariant ----------

  /** The bytes of the next command the reader has consumed. */
  function Consumed(r: Reader): seq<Byte> {
    match r
    case InHeader(acc) => acc
    case InBody(len, acc) => (if len < MAX_COMMAND_LEN then Header(len) else []) + acc
    case Failed => []
  }

  predicate ReaderFits(r: Reader) {
    match r
    case InHeader(acc) => |acc| < COMMANDLEN_SIZE
    case InBody(len, acc) => |acc| < len < MAX_COMMAND_LEN
    case Failed => false
  }

  /** The bytes not yet consumed. */
  function Ahead(s: State): seq<Byte>
    requires AllFit(s.queue)
  {
    s.pipe + (s.current + Frames(s.queue))
  }

  /** The commands read are the first ones written; the bytes in between are the rest. */
  predicate Inv(at: Records, cs: seq<Command>, s: State) {
    && AllSendable(at, cs) && AllFit(cs) && AllFit(s.queue) && ReaderFits(s.reader)
    && |s.got| <= |cs| && s.got == cs[..|s.got|]
    && Consumed(s.reader) + Ahead(s) == Frames(cs[|s.got|..])
  }

  /** What has been read of a frame and what follows, cut after the header or after the frame. */
  lemma FrameCut(c: Command, tail: seq<Byte>, front: seq<Byte>, back: seq<Byte>)
    requires |Body(c)| < MAX_COMMAND_LEN && front + back == Frame(c) + tail
    ensures |front| == COMMANDLEN_SIZE ==> front == Header(|Body(c)|)
    ensures |front| == COMMANDLEN_SIZE + |Body(c)| ==> front == Frame(c) && back == tail
  {
    var f, h := Frame(c) + tail, Header(|Body(c)|);
    assert f == h + (Body(c) + tail);
    assert front == f[..|front|] && back == f[|front|..];
    assert f[..COMMANDLEN_SIZE] == h;
    assert f[..|Frame(c)|] == Frame(c) && f[|Frame(c)|..] == tail;
  }

  lemma FirstFrame(cs: seq<Command>, front: seq<Byte>, back: seq<Byte>)
    requires AllFit(cs) && front + back == Frames(cs) && |front| >= COMMANDLEN_SIZE
    ensures cs != []
    ensures |front| == COMMANDLEN_SIZE ==> front == Header(|Body(cs[0])|)
    ensures |front| == COMMANDLEN_SIZE + |Body(cs[0])| ==> front == Frame(cs[0]) && back == Frames(cs[1..])
  {
    assert cs != [];
    FrameCut(cs[0], Frames(cs[1..]), front, back);
  }

  /** Moving n bytes over the border of two neighbours leaves the whole as it was. */
  lemma Shift(a: seq<Byte>, b: seq<Byte>, n: nat, c: seq<Byte>)
    requires n <= |b|
    ensures (a + b[..n]) + (b[n..] + c) == a + (b + c)
  {}

  /** A reader in the body was told the length of the command it reads. */
  lemma AnnouncedLength(at: Records, cs: seq<Command>, s: State)
    requires Inv(at, cs, s) && s.reader.InBody?
    ensures |s.got| < |cs| && s.reader.len == |Body(cs[|s.got|])|
  {
    var rest := cs[|s.got|..];
    var h := Header(s.reader.len);
    Regroup(h, s.reader.acc, Ahead(s));
    FirstFrame(rest, h, s.reader.acc + Ahead(s));
    HeaderReads(s.reader.len);
    HeaderReads(|Body(rest[0])|);
  }

  lemma ReadHeaderKeeps(at: Records, cs: seq<Command>, s: State, n: nat)
    requires Inv(at, cs, s) && Enabled(s, Read(n)) && s.reader.InHeader?
    ensures Inv(at, cs, Step(at, s, Read(n)))
  {
    var s' := Step(at, s, Read(n));
    var acc' := s.reader.acc + s.pipe[..n];
    Shift(s.reader.acc, s.pipe, n, s.current + Frames(s.queue));
    assert s'.got == s.got;
    if |acc'| == COMMANDLEN_SIZE {
      FirstFrame(cs[|s.got|..], acc', Ahead(s'));
      HeaderReads(|Body(cs[|s.got|])|);
      assert Consumed(s'.reader) == acc';
    }
  }

  /** The read that completes a body completes the next command's body, and nothing more. */
  lemma BodyReads(at: Records, cs: seq<Command>, s: State, n: nat)
    requires Inv(at, cs, s) && Enabled(s, Read(n)) && s.reader.InBody? && n == Want(s.reader)
    ensures |s.got| < |cs| && s.reader.acc + s.pipe[..n] == Body(cs[|s.got|])
    ensures s.pipe[n..] + (s.current + Frames(s.queue)) == Frames(cs[|s.got|..][1..])
  {
    AnnouncedLength(at, cs, s);
    var h := Header(s.reader.len);
    var acc' := s.reader.acc + s.pipe[..n];
    Shift(h + s.reader.acc, s.pipe, n, s.current + Frames(s.queue));
    Regroup(h, s.reader.acc, s.pipe[..n]);
    FirstFrame(cs[|s.got|..], h + acc', s.pipe[n..] + (s.current + Frames(s.queue)));
    BodyIs(h, acc', Body(cs[|s.got|]));
  }

  lemma AdvanceCompletes(self: Address, r: Reader, piece: seq<Byte>, c: Command)
    requires r.InBody? && Receivable(self, c) && r.acc + piece == Body(c) && |Body(c)| == r.len
    ensures Advance(self, r, piece) == (InHeader([]), [c])
  {
    ReceivableIsProper(self, c);
    ReceivedExactly(self, c);
  }

  lemma BodyComplete(at: Records, cs: seq<Command>, s: State, n: nat)
    requires Inv(at, cs, s) && Enabled(s, Read(n)) && s.reader.InBody? && n == Want(s.reader)
    ensures Inv(at, cs, Step(at, s, Read(n)))
  {
    BodyReads(at, cs, s, n);
    AnnouncedLength(at, cs, s);
    AdvanceCompletes(at(|s.got|), s.reader, s.pipe[..n], cs[|s.got|]);
    OneMore(cs, |s.got|);
    var s' := Step(at, s, Read(n));
    assert s'.got == cs[..|s.got| + 1] && s'.reader == InHeader([]);
    assert Consumed(s'.reader) + Ahead(s') == Ahead(s');
  }

  lemma OneMore(cs: seq<Command>, k: nat)
    requires k < |cs|
    ensures cs[..k] + [cs[k]] == cs[..k + 1] && cs[k..][1..] == cs[k + 1..]
  {}

  lemma BodyIs(h: seq<Byte>, a: seq<Byte>, b: seq<Byte>)
    requires h + a == h + b
    ensures a == b
  {
    assert a == (h + a)[|h|..];
    assert b == (h + b)[|h|..];
  }

  lemma ReadBodyKeeps(at: Records, cs: seq<Command>, s: State, n: nat)
    requires Inv(at, cs, s) && Enabled(s, Read(n)) && s.reader.InBody?
    ensures Inv(at, cs, Step(at, s, Read(n)))
  {
    if n == Want(s.reader) {
      BodyComplete(at, cs, s, n);
    } else {
      var h := Header(s.reader.len);
      Shift(h + s.reader.acc, s.pipe, n, s.current + Frames(s.queue));
      Regroup(h, s.reader.acc, s.pipe[..n]);
      assert Step(at, s, Read(n)).got == s.got;
    }
  }

  lemma StepKeeps(at: Records, cs: seq<Command>, s: State, l: Label)
    requires Inv(at, cs, s) && Enabled(s, l)
    ensures Inv(at, cs, Step(at, s, l))
  {
    match l
    case Format =>
      assert [] + Frames(s.queue) == Frames(s.queue);
      assert Ahead(Step(at, s, l)) == Ahead(s);
    case Write(n) =>
      Shift(s.pipe, s.current, n, Frames(s.queue));
    case Read(n) =>
      if s.reader.InHeader? {
        ReadHeaderKeeps(at, cs, s, n);
      } else {
        ReadBodyKeeps(at, cs, s, n);
      }
  }

  // ---------- Runs ----------

  predicate Run(at: Records, s: State, ls: seq<Label>)
    decreases |ls|
  {
    ls == [] || (Enabled(s, ls[0]) && Run(at, Step(at, s, ls[0]), ls[1..]))
  }

  function After(at: Records, s: State, ls: seq<Label>): State
    requires Run(at, s, ls)
    decreases |ls|
  {
    if ls == [] then s else After(at, Step(at, s, ls[0]), ls[1..])
  }

  /** A byte to be formatted, written and read; a command to be formatted. */
  function Left(s: State): nat
    requires AllFit(s.queue)
  {
    |s.queue| + 2 * |Frames(s.queue)| + 2 * |s.current| + |s.pipe|
  }

  lemma {:induction false} EveryRun(at: Records, cs: seq<Command>, s: State, ls: seq<Label>)
    requires Inv(at, cs, s) && Run(at, s, ls)
    ensures Inv(at, cs, After(at, s, ls)) && Left(After(at, s, ls)) + |ls| <= Left(s)
    decreases |ls|
  {
    if ls != [] {
      StepKeeps(at, cs, s, ls[0]);
      EveryRun(at, cs, Step(at, s, ls[0]), ls[1..]);
    }
  }

  ghost predicate Stuck(s: State) { forall l: Label :: !Enabled(s, l) }

  lemma FramesLong(cs: seq<Command>)
    requires AllFit(cs) && cs != []
    ensures |Frames(cs)| >= COMMANDLEN_SIZE + |Body(cs[0])|
  {}

  /** With nothing ahead the reader is between two commands, and no command is left. */
  lemma NothingAhead(at: Records, cs: seq<Command>, s: State)
    requires Inv(at, cs, s) && Ahead(s) == []
    ensures s.reader == InHeader([]) && s.got == cs
  {
    var rest := cs[|s.got|..];
    assert Consumed(s.reader) == Frames(rest);
    if s.reader.InBody? {
      AnnouncedLength(at, cs, s);
      FramesLong(rest);
      assert false;
    }
    if rest != [] {
      FramesLong(rest);
      assert false;
    }
  }

  lemma QueueHead(cs: seq<Command>)
    requires AllFit(cs)
    ensures cs == [] || Fits(cs[0])
  {}

  lemma StuckHasReadAll(at: Records, cs: seq<Command>, s: State)
    requires Inv(at, cs, s) && Stuck(s)
    ensures s == State([], [], [], InHeader([]), cs)
  {
    assert !Enabled(s, Format) && !Enabled(s, Write(1)) && !Enabled(s, Read(1));
    QueueHead(s.queue);
    NothingAhead(at, cs, s);
  }

  /** The theorem: whatever the commands, wherever the records are that they are read into, and however
      the bytes are cut into writes and reads, the run ends; all along, what has been read is the
      first of the commands, whole and in order; and at the end all of them have been read, with no byte
      left over anywhere. */
  lemma EveryMaximalRunDelivers(at: Records, cs: seq<Command>, ls: seq<Label>)
    requires AllSendable(at, cs) && Run(at, Init(cs), ls)
    ensures |ls| <= |cs| + 2 * |Frames(cs)|
    ensures After(at, Init(cs), ls).got <= cs && !After(at, Init(cs), ls).reader.Failed?
    ensures Stuck(After(at, Init(cs), ls)) ==> After(at, Init(cs), ls) == State([], [], [], InHeader([]), cs)
  {
    assert [] + ([] + Frames(cs)) == Frames(cs) && cs[0..] == cs;
    EveryRun(at, cs, Init(cs), ls);
    if Stuck(After(at, Init(cs), ls)) {
      StuckHasReadAll(at, cs, After(at, Init(cs), ls));
    }
  }
}
