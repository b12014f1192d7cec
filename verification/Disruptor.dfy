/** The fan-out ring from one producer to many consumers, each with its own cursor. Nothing stops
    the producer from lapping a slow consumer; `DisruptorLaps` says exactly when that happens. */
module Disruptor {
  import opened Basics
  import opened Bits

  const BUFFER_SIZE: nat := 0x1_0000
  const MASK: nat := BUFFER_SIZE - 1

  datatype Slot<T> = Slot(cell: Cell<T>, sequence: int)

  datatype Producer = Idle | Claimed(seqno: nat) | Writing(seqno: nat) | Written(seqno: nat)

  /** `dirty` records that the producer was writing the slot at some moment of the read. */
  datatype Phase = Waiting | Passed | Reading(dirty: bool)

  /** A consumer: its cursor, what it was given so far, and whether its lag was at most
      BUFFER_SIZE at every moment of every read. */
  datatype Consumer<T> = Consumer(at: int, phase: Phase, got: seq<Cell<T>>, kept: bool)

  /** `log` lists the ticks in the order in which their sequence numbers were claimed. */
  datatype State<T> = State(
    slots: seq<Slot<T>>,
    producer: Producer,
    consumers: seq<Consumer<T>>,
    log: seq<T>)
  {
    function ProducerSeq(): int { |log| - 1 }

    /** The number of ticks whose publication is complete. */
    function Published(): int { if producer.Idle? then |log| else |log| - 1 }

    function Lag(c: Consumer<T>): int { ProducerSeq() - c.at }
  }

  datatype Event<T> =
    | Claim(x: T) | Begin | End | Store
    | Check(c: nat) | ReadBegin(c: nat) | ReadEnd(c: nat)

  function Init<T>(consumers: nat): State<T> {
    State(seq(BUFFER_SIZE, _ => Slot(Blank, -1)), Idle,
          seq(consumers, _ => Consumer(-1, Waiting, [], true)), [])
  }

  function SlotOf(n: nat): nat { And(n, MASK) }

  function Step<T>(s: State<T>, e: Event<T>): State<T> {
    match e
    case Claim(x) =>
      if s.producer.Idle? then
        var s' := s.(log := s.log + [x], producer := Claimed(|s.log|));
        s'.(consumers := seq(|s.consumers|, i requires 0 <= i < |s.consumers| =>
          Watched(s', s.consumers[i])))
      else s
    case Begin =>
      if s.producer.Claimed? && SlotOf(s.producer.seqno) < |s.slots| then
        var j := SlotOf(s.producer.seqno);
        s.(slots := s.slots[j := s.slots[j].(cell := Torn)],
           producer := Writing(s.producer.seqno),
           consumers := seq(|s.consumers|, i requires 0 <= i < |s.consumers| =>
             Disturbed(s.consumers[i], j)))
      else s
    case End =>
      if s.producer.Writing? && SlotOf(s.producer.seqno) < |s.slots| && s.producer.seqno < |s.log| then
        var j := SlotOf(s.producer.seqno);
        s.(slots := s.slots[j := s.slots[j].(cell := Full(s.log[s.producer.seqno]))],
           producer := Written(s.producer.seqno))
      else s
    case Store =>
      if s.producer.Written? && SlotOf(s.producer.seqno) < |s.slots| then
        var j := SlotOf(s.producer.seqno);
        s.(slots := s.slots[j := s.slots[j].(sequence := s.producer.seqno)], producer := Idle)
      else s
    case Check(c) =>
      if c < |s.consumers| && s.consumers[c].phase.Waiting? && s.consumers[c].at >= -1 &&
         SlotOf(s.consumers[c].at + 1) < |s.slots| &&
         s.slots[SlotOf(s.consumers[c].at + 1)].sequence >= s.consumers[c].at + 1 then
        s.(consumers := s.consumers[c := Watched(s, s.consumers[c].(phase := Passed))])
      else s
    case ReadBegin(c) =>
      if c < |s.consumers| && s.consumers[c].phase.Passed? && s.consumers[c].at >= -1 &&
         SlotOf(s.consumers[c].at + 1) < |s.slots| then
        var dirty := s.slots[SlotOf(s.consumers[c].at + 1)].cell.Torn?;
        s.(consumers := s.consumers[c := s.consumers[c].(phase := Reading(dirty))])
      else s
    case ReadEnd(c) =>
      if c < |s.consumers| && s.consumers[c].phase.Reading? && s.consumers[c].at >= -1 &&
         SlotOf(s.consumers[c].at + 1) < |s.slots| then
        var r := s.consumers[c];
        var cell := if r.phase.dirty then Torn else s.slots[SlotOf(r.at + 1)].cell;
        s.(consumers := s.consumers[c := r.(at := r.at + 1, phase := Waiting, got := r.got + [cell])])
      else s
  }

  /** A consumer in the middle of a read notes when its lag exceeds the buffer. */
  function Watched<T>(s: State<T>, c: Consumer<T>): Consumer<T> {
    if c.phase.Waiting? then c else c.(kept := c.kept && s.Lag(c) <= BUFFER_SIZE)
  }

  /** A consumer that is reading slot `j` notes that a write of it begins. */
  function Disturbed<T>(c: Consumer<T>, j: nat): Consumer<T> {
    if c.phase.Reading? && c.at >= -1 && SlotOf(c.at + 1) == j then c.(phase := Reading(true)) else c
  }

  function Run<T>(consumers: nat, es: seq<Event<T>>): State<T> {
    if es == [] then Init(consumers) else Step(Run(consumers, es[..|es| - 1]), es[|es| - 1])
  }

  /** `c` is a tick of the log whose number is `n` or later by a multiple of the buffer size. */
  ghost predicate Lapped<T>(log: seq<T>, n: nat, c: Cell<T>) {
    exists q :: n <= q < |log| && q % BUFFER_SIZE == n % BUFFER_SIZE && c == Full(log[q])
  }

  ghost predicate SlotOk<T>(s: State<T>, j: nat)
    requires j < |s.slots|
  {
    var slot := s.slots[j];
    && (if slot.sequence == -1 then s.Published() <= j
        else 0 <= slot.sequence < s.Published() <= slot.sequence + BUFFER_SIZE
             && slot.sequence % BUFFER_SIZE == j)
    && slot.cell ==
       if s.producer.Writing? && s.producer.seqno % BUFFER_SIZE == j then Torn
       else if s.producer.Written? && s.producer.seqno % BUFFER_SIZE == j && s.log != [] then Full(s.log[|s.log| - 1])
       else if slot.sequence == -1 || slot.sequence >= |s.log| then Blank
       else Full(s.log[slot.sequence])
  }

  ghost predicate RingOk<T>(s: State<T>) {
    && |s.slots| == BUFFER_SIZE
    && (!s.producer.Idle? ==> s.producer.seqno == |s.log| - 1)
    && forall j :: 0 <= j < BUFFER_SIZE ==> SlotOk(s, j)
  }

  ghost predicate ConsumerOk<T>(s: State<T>, c: Consumer<T>)
    requires |s.slots| == BUFFER_SIZE
  {
    && -1 <= c.at < s.Published() && |c.got| == c.at + 1
    && (forall n :: 0 <= n < |c.got| ==> c.got[n] == Torn || Lapped(s.log, n, c.got[n]))
    && (!c.phase.Waiting? ==> s.slots[(c.at + 1) % BUFFER_SIZE].sequence >= c.at + 1)
    && (c.phase == Reading(false) ==> !s.slots[(c.at + 1) % BUFFER_SIZE].cell.Torn?)
    && (c.kept ==> KeptOk(s, c))
  }

  ghost predicate KeptOk<T>(s: State<T>, c: Consumer<T>) {
    && (forall n :: 0 <= n < |c.got| ==> n < |s.log| && c.got[n] == Full(s.log[n]))
    && (!c.phase.Waiting? ==> s.Lag(c) <= BUFFER_SIZE)
    && c.phase != Reading(true)
  }

  ghost predicate Inv<T>(s: State<T>) {
    RingOk(s) && forall i :: 0 <= i < |s.consumers| ==> ConsumerOk(s, s.consumers[i])
  }

  lemma SlotOfIsMod(n: nat)
    ensures SlotOf(n) == n % BUFFER_SIZE
  {
    Pow2Sum(8, 8);
    assert Pow2(8) == 0x100;
    AndMask(n, 16);
  }

  lemma Congruent(a: int, b: int)
    requires a % BUFFER_SIZE == b % BUFFER_SIZE && a < b
    ensures a + BUFFER_SIZE <= b
  {
  }

  /** A sequence check passes exactly when the tick that the consumer waits for is published. */
  lemma CheckIsExact<T>(s: State<T>, c: Consumer<T>)
    requires Inv(s) && ConsumerOk(s, c)
    ensures s.slots[(c.at + 1) % BUFFER_SIZE].sequence >= c.at + 1 <==> c.at + 1 < s.Published()
  {
    var next := c.at + 1;
    assert SlotOk(s, next % BUFFER_SIZE);
    var q := s.slots[next % BUFFER_SIZE].sequence;
    if q == -1 {
    } else if q < next {
      Congruent(q, next);
    }
  }

  /** Within the lag bound the slot being read holds the awaited tick and nobody writes it. */
  lemma KeptReadIsSafe<T>(s: State<T>, c: Consumer<T>)
    requires Inv(s) && ConsumerOk(s, c) && !c.phase.Waiting? && s.Lag(c) <= BUFFER_SIZE
    ensures c.at + 1 < |s.log|
    ensures s.slots[(c.at + 1) % BUFFER_SIZE].cell == Full(s.log[c.at + 1])
    ensures !s.producer.Idle? ==> s.producer.seqno % BUFFER_SIZE != (c.at + 1) % BUFFER_SIZE
  {
    var next := c.at + 1;
    assert SlotOk(s, next % BUFFER_SIZE);
    var q := s.slots[next % BUFFER_SIZE].sequence;
    if q > next {
      Congruent(next, q);
    }
    if !s.producer.Idle? && s.producer.seqno % BUFFER_SIZE == next % BUFFER_SIZE {
      Congruent(next, s.producer.seqno);
    }
  }

  lemma ClaimKeepsInv<T>(s: State<T>, x: T)
    requires Inv(s) && s.producer.Idle?
    ensures Inv(Step(s, Claim(x)))
  {
    var s' := Step(s, Claim(x));
    forall j | 0 <= j < BUFFER_SIZE
      ensures SlotOk(s', j)
    {
      assert SlotOk(s, j);
    }
    forall i | 0 <= i < |s.consumers|
      ensures ConsumerOk(s', s'.consumers[i])
    {
      var c := s.consumers[i];
      assert ConsumerOk(s, c);
      forall n | 0 <= n < |c.got| && Lapped(s.log, n, c.got[n])
        ensures Lapped(s'.log, n, c.got[n])
      {
        var q :| n <= q < |s.log| && q % BUFFER_SIZE == n % BUFFER_SIZE && c.got[n] == Full(s.log[q]);
        assert s'.log[q] == s.log[q];
      }
    }
  }

  lemma WriteKeepsInv<T>(s: State<T>, e: Event<T>)
    requires Inv(s) && ((e.Begin? && s.producer.Claimed?) || (e.End? && s.producer.Writing?))
    ensures Inv(Step(s, e))
  {
    hide SlotOf;
    var s' := Step(s, e);
    SlotOfIsMod(s.producer.seqno);
    forall j | 0 <= j < BUFFER_SIZE
      ensures SlotOk(s', j)
    {
      assert SlotOk(s, j);
    }
    forall i | 0 <= i < |s.consumers|
      ensures ConsumerOk(s', s'.consumers[i])
    {
      var c := s.consumers[i];
      assert ConsumerOk(s, c);
      SlotOfIsMod(c.at + 1);
      if !c.phase.Waiting? && s.Lag(c) <= BUFFER_SIZE {
        KeptReadIsSafe(s, c);
      }
    }
  }

  lemma StoreKeepsInv<T>(s: State<T>)
    requires Inv(s) && s.producer.Written?
    ensures Inv(Step(s, Store))
  {
    hide SlotOf;
    var s' := Step(s, Store);
    SlotOfIsMod(s.producer.seqno);
    forall j | 0 <= j < BUFFER_SIZE
      ensures SlotOk(s', j)
    {
      assert SlotOk(s, j);
    }
    forall i | 0 <= i < |s.consumers|
      ensures ConsumerOk(s', s'.consumers[i])
    {
      assert ConsumerOk(s, s.consumers[i]);
      assert SlotOk(s, (s.consumers[i].at + 1) % BUFFER_SIZE);
    }
  }

  /** A step that changes only consumer `i` keeps the invariant if it keeps that consumer's. */
  lemma ConsumerFrame<T>(s: State<T>, i: nat, c: Consumer<T>)
    requires Inv(s) && i < |s.consumers| && ConsumerOk(s, c)
    ensures Inv(s.(consumers := s.consumers[i := c]))
  {
    var s' := s.(consumers := s.consumers[i := c]);
    forall j | 0 <= j < BUFFER_SIZE
      ensures SlotOk(s', j)
    {
      assert SlotOk(s, j);
    }
  }

  lemma CheckKeepsInv<T>(s: State<T>, i: nat)
    requires Inv(s) && i < |s.consumers|
    ensures Inv(Step(s, Check(i)))
  {
    var c := s.consumers[i];
    SlotOfIsMod(c.at + 1);
    if Step(s, Check(i)) != s {
      ConsumerFrame(s, i, Watched(s, c.(phase := Passed)));
    }
  }

  lemma ReadBeginKeepsInv<T>(s: State<T>, i: nat)
    requires Inv(s) && i < |s.consumers| && s.consumers[i].phase.Passed?
    ensures Inv(Step(s, ReadBegin(i)))
  {
    var c := s.consumers[i];
    assert ConsumerOk(s, c);
    SlotOfIsMod(c.at + 1);
    if s.Lag(c) <= BUFFER_SIZE {
      KeptReadIsSafe(s, c);
    }
    ConsumerFrame(s, i, c.(phase := Reading(s.slots[(c.at + 1) % BUFFER_SIZE].cell.Torn?)));
  }

  lemma ReadEndKeepsInv<T>(s: State<T>, i: nat)
    requires Inv(s) && i < |s.consumers| && s.consumers[i].phase.Reading?
    ensures Inv(Step(s, ReadEnd(i)))
  {
    var c := s.consumers[i];
    assert ConsumerOk(s, c);
    SlotOfIsMod(c.at + 1);
    CheckIsExact(s, c);
    var cell := if c.phase.dirty then Torn else s.slots[(c.at + 1) % BUFFER_SIZE].cell;
    if c.kept {
      KeptReadIsSafe(s, c);
    }
    if !c.phase.dirty {
      ReadIsLapped(s, c);
    }
    var c' := c.(at := c.at + 1, phase := Waiting, got := c.got + [cell]);
    assert c'.got[c.at + 1] == cell;
    ConsumerFrame(s, i, c');
  }

  lemma ReadIsLapped<T>(s: State<T>, c: Consumer<T>)
    requires Inv(s) && ConsumerOk(s, c) && c.phase == Reading(false)
    ensures Lapped(s.log, c.at + 1, s.slots[(c.at + 1) % BUFFER_SIZE].cell)
  {
    var j := (c.at + 1) % BUFFER_SIZE;
    assert SlotOk(s, j);
    var slot := s.slots[j];
    var q := if s.producer.Written? && s.producer.seqno % BUFFER_SIZE == j then |s.log| - 1 else slot.sequence;
    assert c.at + 1 <= q < |s.log| && slot.cell == Full(s.log[q]);
  }

  lemma StepKeepsInv<T>(s: State<T>, e: Event<T>)
    requires Inv(s)
    ensures Inv(Step(s, e))
  {
    if Step(s, e) != s {
      match e
      case Claim(x) => ClaimKeepsInv(s, x);
      case Begin => WriteKeepsInv(s, e);
      case End => WriteKeepsInv(s, e);
      case Store => StoreKeepsInv(s);
      case Check(i) => CheckKeepsInv(s, i);
      case ReadBegin(i) => ReadBeginKeepsInv(s, i);
      case ReadEnd(i) => ReadEndKeepsInv(s, i);
    }
  }

  lemma {:induction false} RunInv<T>(consumers: nat, es: seq<Event<T>>)
    ensures Inv(Run(consumers, es))
    decreases |es|
  {
    if es != [] {
      RunInv(consumers, es[..|es| - 1]);
      StepKeepsInv(Run(consumers, es[..|es| - 1]), es[|es| - 1]);
    }
  }

  /** A consumer whose lag stays within the buffer during each read gets the published log from its
      first tick on: no gap, no repeat, nothing torn. */
  lemma KeptConsumerGetsTheLog<T>(consumers: nat, es: seq<Event<T>>, i: nat)
    requires i < |Run(consumers, es).consumers| && Run(consumers, es).consumers[i].kept
    ensures var s := Run(consumers, es);
      var c := s.consumers[i];
      && |c.got| == c.at + 1 <= s.Published()
      && c.got == seq(|c.got|, n requires 0 <= n < |c.got| => if n < |s.log| then Full(s.log[n]) else Torn)
  {
    RunInv(consumers, es);
    assert ConsumerOk(Run(consumers, es), Run(consumers, es).consumers[i]);
  }

  /** With no bound on the lag: the n-th delivery is torn, or it is the n-th tick of the log or one
      that is a multiple of the buffer size later; and no cursor passes the producer. */
  lemma AnyConsumerGetsLappedTicks<T>(consumers: nat, es: seq<Event<T>>, i: nat, n: nat)
    requires i < |Run(consumers, es).consumers| && n < |Run(consumers, es).consumers[i].got|
    ensures var s := Run(consumers, es);
      var c := s.consumers[i];
      && (c.got[n] == Torn || Lapped(s.log, n, c.got[n]))
      && n <= c.at <= s.ProducerSeq()
  {
    RunInv(consumers, es);
    assert ConsumerOk(Run(consumers, es), Run(consumers, es).consumers[i]);
  }

  /** In every reachable state a waiting consumer is served exactly when its next tick is published. */
  lemma ServedExactlyWhenPublished<T>(consumers: nat, es: seq<Event<T>>, i: nat)
    requires i < |Run(consumers, es).consumers| && Run(consumers, es).consumers[i].phase.Waiting?
    ensures var s := Run(consumers, es);
      Step(s, Check(i)).consumers[i].phase.Passed? <==> s.consumers[i].at + 1 < s.Published()
  {
    hide SlotOf, Run;
    RunInv(consumers, es);
    var s := Run(consumers, es);
    assert ConsumerOk(s, s.consumers[i]);
    SlotOfIsMod(s.consumers[i].at + 1);
    CheckIsExact(s, s.consumers[i]);
  }

  // ---------------------------------------------------------------------------------------------

  datatype Entry<T> = Entry(tick: T, sequence: int)

  /** The ring as one caller at a time sees it. */
  class TickDisruptor<T(0, ==)> {
    const buffer: array<Entry<T>>
    var producerSeq: int
    ghost var log: seq<T>

    ghost predicate Valid()
      reads this, buffer
    {
      && buffer.Length == BUFFER_SIZE
      && producerSeq == |log| - 1
      && forall j :: 0 <= j < BUFFER_SIZE ==> EntryOk(buffer[j], log, j)
    }

    /** Entry `j` is unused, or holds the latest tick whose number falls on `j`. */
    static ghost predicate EntryOk(e: Entry<T>, log: seq<T>, j: nat) {
      if e.sequence == -1 then |log| <= j
      else 0 <= e.sequence < |log| <= e.sequence + BUFFER_SIZE
           && e.sequence % BUFFER_SIZE == j && e.tick == log[e.sequence]
    }

    constructor (blank: T)
      ensures Valid() && log == [] && fresh(buffer)
    {
      buffer := new Entry<T>[BUFFER_SIZE](_ => Entry(blank, -1));
      producerSeq := -1;
      log := [];
    }

    method ClaimNext() returns (n: int)
      requires Valid()
      modifies this`producerSeq
      ensures n == producerSeq == old(producerSeq) + 1
    {
      producerSeq := producerSeq + 1;
      n := producerSeq;
    }

    method Publish(n: nat, tick: T)
      requires buffer.Length == BUFFER_SIZE
      modifies buffer
      ensures buffer[n % BUFFER_SIZE] == Entry(tick, n)
      ensures forall j :: 0 <= j < BUFFER_SIZE && j != n % BUFFER_SIZE ==> buffer[j] == old(buffer[j])
    {
      var j := And(n, MASK);
      SlotOfIsMod(n);
      buffer[j] := buffer[j].(tick := tick);
      buffer[j] := buffer[j].(sequence := n);
    }

    /** Claim a number, write the slot, make it visible. */
    method Push(tick: T)
      requires Valid()
      modifies this`producerSeq, this`log, buffer
      ensures Valid() && log == old(log) + [tick]
    {
      var n := ClaimNext();
      Publish(n, tick);
      forall j | 0 <= j < BUFFER_SIZE && j != n % BUFFER_SIZE
        ensures EntryOk(buffer[j], log + [tick], j)
      {
        assert EntryOk(old(buffer[j]), log, j);
      }
      log := log + [tick];
    }

    /** Served exactly when the next tick is published; what is served is that tick unless the
        caller lags by more than the buffer, and then it is the latest tick of the same slot. */
    method TryConsume(cursor0: int, out0: T) returns (ok: bool, cursor: int, out: T)
      requires Valid() && cursor0 >= -1
      ensures ok <==> cursor0 + 1 <= producerSeq
      ensures !ok ==> cursor == cursor0 && out == out0
      ensures ok ==> cursor == cursor0 + 1
      ensures ok ==> exists q ::
        cursor <= q < |log| <= q + BUFFER_SIZE && q % BUFFER_SIZE == cursor % BUFFER_SIZE && out == log[q]
      ensures ok && producerSeq - cursor0 <= BUFFER_SIZE ==> out == log[cursor]
    {
      var next := cursor0 + 1;
      var j := And(next, MASK);
      SlotOfIsMod(next);
      assert EntryOk(buffer[j], log, j);
      if buffer[j].sequence < next {
        if buffer[j].sequence != -1 {
          Congruent(buffer[j].sequence, next);
        }
        return false, cursor0, out0;
      }
      if buffer[j].sequence > next {
        Congruent(next, buffer[j].sequence);
      }
      return true, next, buffer[j].tick;
    }

    method Lag(cursor: int) returns (n: int)
      requires Valid()
      ensures n == |log| - 1 - cursor
    {
      n := producerSeq - cursor;
    }
  }
}
