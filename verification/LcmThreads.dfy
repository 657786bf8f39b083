/** The archive shared by any number of threads: the test, the compare-and-swap, the read and the
    clear are separate steps, and the steps of different threads interleave freely. */
module LcmThreads {
  import opened Bytes
  import opened LcmArchive

  /** What a thread is in the middle of. `start` is the moment the put began. */
  datatype Op =
    | Resting
    | Testing(value: nat, i: nat, start: nat)
    | Swapping(value: nat, i: nat, start: nat)
    | Reading(key: nat)
    | Clearing(key: nat, val: nat)

  /** What the thread's last call returned; `put` records the value stored under the key. */
  datatype Answer =
    | NoAnswer
    | PutDone(value: nat, key: nat)
    | PutRetry(value: nat, start: nat, end: nat)
    | Got(key: nat, val: nat, put: nat)
    | Removed(key: nat, val: nat, put: nat)

  /** `held` are the thread's live puts: keys it was given and has not removed. */
  datatype Thread = Thread(op: Op, held: map<nat, nat>, answer: Answer)

  datatype State = State(nbits: nat, now: nat, slots: seq<nat>, threads: seq<Thread>)

  datatype Label =
    | BeginPut(t: nat, value: nat)
    | Test(t: nat)
    | Swap(t: nat)
    | BeginRemove(t: nat, key: nat)
    | Read(t: nat)
    | Clear(t: nat)
    | Get(t: nat, key: nat)
    | HandOver(t: nat, to: nat, key: nat)

  function Target(s: State, op: Op): nat
    requires op.Testing? || op.Swapping?
  {
    Probe(Home(s.nbits, op.value), op.i)
  }

  predicate Enabled(s: State, l: Label) {
    && l.t < |s.threads|
    && var me := s.threads[l.t];
       match l
       case BeginPut(_, value) => me.op.Resting? && value != EMPTY
       case Test(_) => me.op.Testing? && Target(s, me.op) < |s.slots|
       case Swap(_) => me.op.Swapping? && Target(s, me.op) < |s.slots|
       case BeginRemove(_, key) => me.op.Resting? && key in me.held
       case Read(_) => me.op.Reading? && me.op.key < |s.slots|
       case Clear(_) => me.op.Clearing? && me.op.key < |s.slots| && me.op.key in me.held
       case Get(_, key) => me.op.Resting? && key in me.held && key < |s.slots|
       case HandOver(_, to, key) => me.op.Resting? && key in me.held && to < |s.threads| && to != l.t
  }

  /** The probed slot was taken: on to the next probe, or give up after the third. */
  function Missed(s: State, me: Thread): Thread
    requires me.op.Testing? || me.op.Swapping?
  {
    if me.op.i + 1 < NTRY then me.(op := Testing(me.op.value, me.op.i + 1, me.op.start))
    else me.(op := Resting, answer := PutRetry(me.op.value, me.op.start, s.now))
  }

  function Step(s: State, l: Label): State
    requires Enabled(s, l)
  {
    var me := s.threads[l.t];
    var s' := s.(now := s.now + 1);
    match l
    case BeginPut(t, value) => s'.(threads := s.threads[t := me.(op := Testing(value, 0, s.now))])
    case Test(t) =>
      if s.slots[Target(s, me.op)] == EMPTY then
        s'.(threads := s.threads[t := me.(op := Swapping(me.op.value, me.op.i, me.op.start))])
      else
        s'.(threads := s.threads[t := Missed(s, me)])
    case Swap(t) =>
      var key := Target(s, me.op);
      if s.slots[key] == EMPTY then
        s'.(slots := s.slots[key := me.op.value],
            threads := s.threads[t := Thread(Resting, me.held[key := me.op.value], PutDone(me.op.value, key))])
      else
        s'.(threads := s.threads[t := Missed(s, me)])
    case BeginRemove(t, key) => s'.(threads := s.threads[t := me.(op := Reading(key))])
    case Read(t) => s'.(threads := s.threads[t := me.(op := Clearing(me.op.key, s.slots[me.op.key]))])
    case Clear(t) =>
      var key := me.op.key;
      s'.(slots := s.slots[key := EMPTY],
          threads := s.threads[t := Thread(Resting, me.held - {key}, Removed(key, me.op.val, me.held[key]))])
    case Get(t, key) =>
      s'.(threads := s.threads[t := me.(answer := Got(key, s.slots[key], me.held[key]))])
    case HandOver(t, to, key) =>
      var you := s.threads[to];
      s'.(threads := s.threads[t := me.(held := me.held - {key})][to := you.(held := you.held[key := me.held[key]])])
  }

  predicate Init(s: State) {
    && s.now == 0
    && Spacious(s.slots, s.nbits)
    && (forall k :: 0 <= k < |s.slots| ==> s.slots[k] == EMPTY)
    && (forall t :: 0 <= t < |s.threads| ==> s.threads[t] == Thread(Resting, map[], NoAnswer))
  }

  // ---------- The invariant ----------

  /** Thread t's live puts include key k. */
  predicate Holder(s: State, t: nat, k: nat) { t < |s.threads| && k in s.threads[t].held }

  predicate SlotHeld(s: State, t: nat, k: nat) {
    t < |s.threads| && k in s.threads[t].held && k < |s.slots| && s.slots[k] == s.threads[t].held[k] != EMPTY
  }

  /** A live put's slot holds its value. */
  ghost predicate Owned(s: State) {
    forall t: nat, k: nat :: Holder(s, t, k) ==> SlotHeld(s, t, k)
  }

  /** Two live puts never hold the same key. */
  ghost predicate Exclusive(s: State) {
    forall t: nat, u: nat, k: nat :: Holder(s, t, k) && Holder(s, u, k) ==> t == u
  }

  /** A taken slot belongs to a live put. */
  ghost predicate NoOrphans(s: State) {
    forall k :: 0 <= k < |s.slots| && s.slots[k] != EMPTY ==> exists t: nat :: Holder(s, t, k)
  }

  predicate OpFits(s: State, me: Thread) {
    match me.op
    case Resting => true
    case Testing(value, i, start) => value != EMPTY && i < NTRY && start < s.now
    case Swapping(value, i, start) => value != EMPTY && i < NTRY && start < s.now
    case Reading(key) => key in me.held
    case Clearing(key, val) => key in me.held && val == me.held[key]
  }

  /** get and remove return exactly the value put under the key. */
  predicate AnswerFits(s: State, me: Thread) {
    match me.answer
    case Got(_, val, put) => val == put
    case Removed(_, val, put) => val == put
    case PutRetry(_, start, end) => start <= end < s.now
    case _ => true
  }

  ghost predicate Inv(s: State) {
    && Spacious(s.slots, s.nbits)
    && Owned(s) && Exclusive(s) && NoOrphans(s)
    && ThreadsFit(s)
  }

  predicate ThreadsFit(s: State) {
    forall t :: 0 <= t < |s.threads| ==> OpFits(s, s.threads[t]) && AnswerFits(s, s.threads[t])
  }

  lemma MoverFits(s: State, l: Label)
    requires Inv(s) && Enabled(s, l)
    ensures var s' := Step(s, l); OpFits(s', s'.threads[l.t]) && AnswerFits(s', s'.threads[l.t])
  {
    assert OpFits(s, s.threads[l.t]) && AnswerFits(s, s.threads[l.t]);
    if l.Read? {
      assert Holder(s, l.t, s.threads[l.t].op.key);
    } else if l.Get? {
      assert Holder(s, l.t, l.key);
    }
  }

  lemma ThreadsFitKept(s: State, l: Label)
    requires Inv(s) && Enabled(s, l)
    ensures ThreadsFit(Step(s, l))
  {
    var s' := Step(s, l);
    MoverFits(s, l);
    forall u | 0 <= u < |s'.threads| && u != l.t ensures OpFits(s', s'.threads[u]) && AnswerFits(s', s'.threads[u]) {
      var you := s.threads[u];
      assert OpFits(s, you) && AnswerFits(s, you);
      if l.HandOver? && (you.op.Reading? || you.op.Clearing?) {
        assert Holder(s, l.t, l.key) && Holder(s, u, you.op.key);
      }
    }
  }

  /** Where a key held after the step was held before it. */
  lemma HeldBefore(s: State, l: Label, u: nat, k: nat)
    requires Inv(s) && Enabled(s, l) && Holder(Step(s, l), u, k)
    ensures Holder(s, u, k)
            || (l.Swap? && u == l.t && k == Target(s, s.threads[u].op) && s.slots[k] == EMPTY)
            || (l.HandOver? && u == l.to && k == l.key)
  {}

  lemma OwnedKept(s: State, l: Label)
    requires Inv(s) && Enabled(s, l)
    ensures Owned(Step(s, l))
  {
    var s' := Step(s, l);
    forall u: nat, k: nat | Holder(s', u, k) ensures SlotHeld(s', u, k) {
      HeldBefore(s, l, u, k);
      assert Holder(s, u, k) ==> SlotHeld(s, u, k);
      if l.Clear? {
        assert OpFits(s, s.threads[l.t]);
        assert Holder(s, l.t, s.threads[l.t].op.key);
      } else if l.HandOver? {
        assert Holder(s, l.t, l.key) && SlotHeld(s, l.t, l.key);
      }
    }
  }

  lemma ExclusiveKept(s: State, l: Label)
    requires Inv(s) && Enabled(s, l)
    ensures Exclusive(Step(s, l))
  {
    var s' := Step(s, l);
    forall t: nat, u: nat, k: nat | Holder(s', t, k) && Holder(s', u, k) ensures t == u {
      HeldBefore(s, l, t, k);
      HeldBefore(s, l, u, k);
      if l.Swap? {
        assert Holder(s, t, k) ==> SlotHeld(s, t, k);
        assert Holder(s, u, k) ==> SlotHeld(s, u, k);
      } else if l.HandOver? {
        assert Holder(s, l.t, l.key);
      }
    }
  }

  lemma NoOrphansKept(s: State, l: Label)
    requires Inv(s) && Enabled(s, l)
    ensures NoOrphans(Step(s, l))
  {
    var s' := Step(s, l);
    forall k | 0 <= k < |s'.slots| && s'.slots[k] != EMPTY ensures exists t: nat :: Holder(s', t, k) {
      if s.slots[k] != EMPTY {
        var t: nat :| Holder(s, t, k);
        assert Holder(s', t, k) || (l.HandOver? && Holder(s', l.to, k));
      } else {
        assert Holder(s', l.t, k);
      }
    }
  }

  lemma StepKeeps(s: State, l: Label)
    requires Inv(s) && Enabled(s, l)
    ensures Inv(Step(s, l))
    ensures Step(s, l).now == s.now + 1 && Step(s, l).nbits == s.nbits && |Step(s, l).threads| == |s.threads|
  {
    OwnedKept(s, l);
    ExclusiveKept(s, l);
    NoOrphansKept(s, l);
    ThreadsFitKept(s, l);
  }

  /** Every operation in progress can take its next step: no access leaves the allocated memory. */
  lemma BusyThreadsCanStep(s: State, t: nat)
    requires Inv(s) && t < |s.threads| && !s.threads[t].op.Resting?
    ensures Enabled(s, Test(t)) || Enabled(s, Swap(t)) || Enabled(s, Read(t)) || Enabled(s, Clear(t))
  {
    var op := s.threads[t].op;
    assert OpFits(s, s.threads[t]);
    if op.Reading? || op.Clearing? {
      assert Holder(s, t, op.key);
    }
  }

  // ---------- Runs ----------

  ghost predicate Next(s: State, s': State) {
    exists l :: Enabled(s, l) && s' == Step(s, l)
  }

  /** A run as the sequence of its states. */
  ghost predicate Run(b: seq<State>) {
    |b| > 0 && if |b| == 1 then Init(b[0]) else Run(b[..|b| - 1]) && Next(b[|b| - 2], b[|b| - 1])
  }

  /** At some moment from `start` to `end` the slot was taken. */
  predicate TakenDuring(b: seq<State>, start: nat, end: nat, slot: nat) {
    exists m :: start <= m <= end && m < |b| && slot < |b[m].slots| && b[m].slots[slot] != EMPTY
  }

  /** The first i probes of a value were each seen taken. */
  predicate Witnessed(b: seq<State>, nbits: nat, value: nat, i: nat, start: nat, end: nat) {
    forall e :: 0 <= e < i ==> TakenDuring(b, start, end, Probe(Home(nbits, value), e))
  }

  /** What a thread's state at the last moment of a run says about the run. */
  predicate ThreadWitnessed(b: seq<State>, nbits: nat, me: Thread)
    requires |b| > 0
  {
    && (me.op.Testing? || me.op.Swapping? ==> Witnessed(b, nbits, me.op.value, me.op.i, me.op.start, |b| - 1))
    && (me.answer.PutRetry? ==> Witnessed(b, nbits, me.answer.value, NTRY, me.answer.start, me.answer.end))
  }

  lemma WitnessGrows(b: seq<State>, s: State, nbits: nat, value: nat, i: nat, start: nat, end: nat, end': nat)
    requires Witnessed(b, nbits, value, i, start, end) && end <= end'
    ensures Witnessed(b + [s], nbits, value, i, start, end')
  {
    forall e | 0 <= e < i ensures TakenDuring(b + [s], start, end', Probe(Home(nbits, value), e)) {
      assert TakenDuring(b, start, end, Probe(Home(nbits, value), e));
      var m :| start <= m <= end && m < |b| && Probe(Home(nbits, value), e) < |b[m].slots|
               && b[m].slots[Probe(Home(nbits, value), e)] != EMPTY;
      assert (b + [s])[m] == b[m];
    }
  }

  /** A miss adds the slot just seen to the witnesses. */
  lemma MissWitnessed(b: seq<State>, s': State, me: Thread)
    requires |b| > 0 && (me.op.Testing? || me.op.Swapping?) && OpFits(b[|b| - 1], me)
    requires b[|b| - 1].now == |b| - 1
    requires ThreadWitnessed(b, b[|b| - 1].nbits, me)
    requires Target(b[|b| - 1], me.op) < |b[|b| - 1].slots| && b[|b| - 1].slots[Target(b[|b| - 1], me.op)] != EMPTY
    requires me.answer.PutRetry? ==> me.answer.end < |b|
    ensures ThreadWitnessed(b + [s'], b[|b| - 1].nbits, Missed(b[|b| - 1], me))
  {
    var s := b[|b| - 1];
    var op := me.op;
    assert (b + [s'])[|b| - 1] == s;
    WitnessGrows(b, s', s.nbits, op.value, op.i, op.start, |b| - 1, |b| - 1);
    WitnessGrows(b, s', s.nbits, op.value, op.i, op.start, |b| - 1, |b|);
    assert TakenDuring(b + [s'], op.start, |b| - 1, Target(s, op));
    assert TakenDuring(b + [s'], op.start, |b|, Target(s, op));
    if me.answer.PutRetry? {
      WitnessGrows(b, s', s.nbits, me.answer.value, NTRY, me.answer.start, me.answer.end, me.answer.end);
    }
  }

  lemma ThreadUnmoved(b: seq<State>, s': State, nbits: nat, me: Thread)
    requires |b| > 0 && ThreadWitnessed(b, nbits, me)
    ensures ThreadWitnessed(b + [s'], nbits, me)
  {
    if me.op.Testing? || me.op.Swapping? {
      WitnessGrows(b, s', nbits, me.op.value, me.op.i, me.op.start, |b| - 1, |b|);
    }
    if me.answer.PutRetry? {
      WitnessGrows(b, s', nbits, me.answer.value, NTRY, me.answer.start, me.answer.end, me.answer.end);
    }
  }

  predicate AllWitnessed(b: seq<State>)
    requires |b| > 0
  {
    var s := b[|b| - 1];
    forall t :: 0 <= t < |s.threads| ==> ThreadWitnessed(b, s.nbits, s.threads[t])
  }

  lemma StepWitnessed(b: seq<State>, l: Label)
    requires |b| > 0 && Inv(b[|b| - 1]) && Enabled(b[|b| - 1], l) && b[|b| - 1].now == |b| - 1
    requires AllWitnessed(b)
    ensures AllWitnessed(b + [Step(b[|b| - 1], l)])
  {
    var s := b[|b| - 1];
    var s' := Step(s, l);
    StepKeeps(s, l);
    forall t | 0 <= t < |s'.threads| ensures ThreadWitnessed(b + [s'], s'.nbits, s'.threads[t]) {
      var me := s.threads[t];
      ThreadUnmoved(b, s', s.nbits, me);
      if t == l.t && (l.Test? || l.Swap?) && s.slots[Target(s, me.op)] != EMPTY {
        MissWitnessed(b, s', me);
      }
    }
  }

  lemma InitFits(s: State)
    requires Init(s)
    ensures Inv(s) && AllWitnessed([s])
  {}

  lemma ExtendRun(a: seq<State>, s': State)
    requires |a| > 0 && Inv(a[|a| - 1]) && a[|a| - 1].now == |a| - 1 && AllWitnessed(a)
    requires Next(a[|a| - 1], s')
    ensures Inv(s') && s'.now == |a| && AllWitnessed(a + [s'])
  {
    var l :| Enabled(a[|a| - 1], l) && s' == Step(a[|a| - 1], l);
    StepKeeps(a[|a| - 1], l);
    StepWitnessed(a, l);
  }

  /** Over every run: the invariant holds, so live puts never share a key and get and remove
      return what was put; and a put answers RETRY only if each of its three slots was taken
      at some moment during the call. */
  lemma {:induction false} EveryRun(b: seq<State>)
    requires Run(b)
    ensures var s := b[|b| - 1]; Inv(s) && s.now == |b| - 1
    ensures AllWitnessed(b)
    decreases |b|
  {
    if |b| == 1 {
      assert b == [b[0]];
      InitFits(b[0]);
    } else {
      var a := b[..|b| - 1];
      EveryRun(a);
      ExtendRun(a, b[|b| - 1]);
      assert a + [b[|b| - 1]] == b;
    }
  }

  // ---------- From when to when a call goes on ----------

  predicate Putting(op: Op, value: nat) { (op.Testing? || op.Swapping?) && op.value == value }

  /** From one moment to another thread t is in one and the same call, a put of the value: resting at the
      first, putting the value at all the others. */
  predicate Spans(b: seq<State>, t: nat, value: nat, start: nat, end: nat) {
    && start < end < |b| && t < |b[start].threads| && b[start].threads[t].op.Resting?
    && forall m :: start < m <= end ==> t < |b[m].threads| && Putting(b[m].threads[t].op, value)
  }

  /** The moments that thread t's state names are those of its call. */
  predicate ThreadSpans(b: seq<State>, t: nat)
    requires |b| > 0
  {
    var s := b[|b| - 1];
    t < |s.threads| ==>
      var me := s.threads[t];
      && (me.op.Testing? || me.op.Swapping? ==> Spans(b, t, me.op.value, me.op.start, |b| - 1))
      && (me.answer.PutRetry? ==> Spans(b, t, me.answer.value, me.answer.start, me.answer.end))
  }

  lemma SpanKept(b: seq<State>, s': State, t: nat, value: nat, start: nat, end: nat)
    requires Spans(b, t, value, start, end)
    ensures Spans(b + [s'], t, value, start, end)
    ensures end == |b| - 1 && t < |s'.threads| && Putting(s'.threads[t].op, value) ==>
              Spans(b + [s'], t, value, start, |b|)
  {}

  lemma SpanBegins(b: seq<State>, s': State, t: nat, value: nat)
    requires |b| > 0 && t < |b[|b| - 1].threads| && b[|b| - 1].threads[t].op.Resting?
    requires t < |s'.threads| && Putting(s'.threads[t].op, value)
    ensures Spans(b + [s'], t, value, |b| - 1, |b|)
  {}

  lemma StepSpans(b: seq<State>, l: Label, t: nat)
    requires |b| > 0 && Enabled(b[|b| - 1], l) && b[|b| - 1].now == |b| - 1 && ThreadSpans(b, t)
    ensures ThreadSpans(b + [Step(b[|b| - 1], l)], t)
  {
    var s := b[|b| - 1];
    var s' := Step(s, l);
    if t < |s.threads| {
      var me := s.threads[t];
      if me.op.Testing? || me.op.Swapping? {
        SpanKept(b, s', t, me.op.value, me.op.start, |b| - 1);
      }
      if me.answer.PutRetry? {
        SpanKept(b, s', t, me.answer.value, me.answer.start, me.answer.end);
      }
      if l.BeginPut? && l.t == t {
        SpanBegins(b, s', t, l.value);
      }
    }
  }

  lemma {:induction false} EveryCallSpans(b: seq<State>, t: nat)
    requires Run(b)
    ensures ThreadSpans(b, t)
    decreases |b|
  {
    if |b| > 1 {
      var a := b[..|b| - 1];
      EveryRun(a);
      EveryCallSpans(a, t);
      var l :| Enabled(a[|a| - 1], l) && b[|b| - 1] == Step(a[|a| - 1], l);
      StepSpans(a, l, t);
      assert a + [b[|b| - 1]] == b;
    }
  }

  /** At the end of every run no two live puts share a key, each key's slot holds the value put
      there, and get and remove have answered with it. */
  lemma LivePutsAreSafe(b: seq<State>, t: nat, u: nat, k: nat)
    requires Run(b)
    ensures var s := b[|b| - 1];
            && (Holder(s, t, k) && Holder(s, u, k) ==> t == u)
            && (Holder(s, t, k) ==> k < |s.slots| && s.slots[k] == s.threads[t].held[k])
            && (t < |s.threads| && s.threads[t].answer.Got? ==> s.threads[t].answer.val == s.threads[t].answer.put)
            && (t < |s.threads| && s.threads[t].answer.Removed? ==> s.threads[t].answer.val == s.threads[t].answer.put)
  {
    EveryRun(b);
    var s := b[|b| - 1];
    if t < |s.threads| {
      assert AnswerFits(s, s.threads[t]);
    }
  }

  /** A put that answered RETRY found each of the three slots of its value taken at some
      moment from the last one before the call to the last one in it. */
  lemma RetryMeansTaken(b: seq<State>, t: nat)
    requires Run(b) && t < |b[|b| - 1].threads| && b[|b| - 1].threads[t].answer.PutRetry?
    ensures var r := b[|b| - 1].threads[t].answer;
            var h := (r.value / 64) % Pow(2, b[|b| - 1].nbits);
            && r.start < r.end < |b| && t < |b[r.start].threads| && b[r.start].threads[t].op.Resting?
            && (forall m :: r.start < m <= r.end ==>
                  && t < |b[m].threads| && (b[m].threads[t].op.Testing? || b[m].threads[t].op.Swapping?)
                  && b[m].threads[t].op.value == r.value)
            && (exists m :: r.start <= m <= r.end && h < |b[m].slots| && b[m].slots[h] != EMPTY)
            && (exists m :: r.start <= m <= r.end && h + 1 < |b[m].slots| && b[m].slots[h + 1] != EMPTY)
            && (exists m :: r.start <= m <= r.end && h + 5 < |b[m].slots| && b[m].slots[h + 5] != EMPTY)
  {
    EveryRun(b);
    var s := b[|b| - 1];
    assert ThreadWitnessed(b, s.nbits, s.threads[t]) && AnswerFits(s, s.threads[t]);
    var r := s.threads[t].answer;
    EveryCallSpans(b, t);
    HomeExactly(s.nbits, r.value);
    var home := Home(s.nbits, r.value);
    assert Probe(home, 0) == home && Probe(home, 1) == home + 1 && Probe(home, 2) == home + 5;
    assert Witnessed(b, s.nbits, r.value, NTRY, r.start, r.end);
  }

  // ---------- Alone, a thread does what the sequential archive does ----------

  /** Steps of thread t alone, until its put has an answer. */
  ghost function Solo(s: State, t: nat): (e: State)
    requires Inv(s) && t < |s.threads|
    ensures |e.threads| == |s.threads|
    decreases
      if s.threads[t].op.Testing? then 2 * (NTRY - s.threads[t].op.i)
      else if s.threads[t].op.Swapping? then 2 * (NTRY - s.threads[t].op.i) - 1
      else 0
  {
    if s.threads[t].op.Testing? then
      StepKeeps(s, Test(t));
      Solo(Step(s, Test(t)), t)
    else if s.threads[t].op.Swapping? then
      StepKeeps(s, Swap(t));
      Solo(Step(s, Swap(t)), t)
    else s
  }

  lemma {:induction false} SoloPut(s: State, t: nat)
    requires Inv(s) && t < |s.threads| && s.threads[t].op.Testing?
    ensures var me := s.threads[t];
            var r := PutFrom(s.slots, Home(s.nbits, me.op.value), me.op.i);
            var e := Solo(s, t);
            && (r.Stored? ==> r.key < |s.slots| && e.slots == s.slots[r.key := me.op.value]
                              && e.threads[t].answer == PutDone(me.op.value, r.key))
            && (r.Retry? ==> e.slots == s.slots && e.threads[t].answer.PutRetry?)
    decreases NTRY - s.threads[t].op.i
  {
    var me := s.threads[t];
    var s1 := Step(s, Test(t));
    StepKeeps(s, Test(t));
    if s.slots[Target(s, me.op)] == EMPTY {
      assert s1.threads[t].op.Swapping?;
      var s2 := Step(s1, Swap(t));
      StepKeeps(s1, Swap(t));
      assert Solo(s2, t) == s2;
      assert Solo(s, t) == Solo(s1, t) == s2;
    } else if me.op.i + 1 < NTRY {
      SoloPut(s1, t);
    } else {
      assert Solo(s1, t) == s1;
    }
  }
}
