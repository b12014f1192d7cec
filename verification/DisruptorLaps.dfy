/** Exactly when a consumer of the fan-out ring is given the wrong thing: a read is torn if a write of
    its slot overlaps it, and wrong if the producer has begun to write the slot a lap later. */
module DisruptorLaps {
  import opened Basics
  import opened Disruptor

  // ----------------------------------------------------------------------------------- torn reads

  /** The producer is writing the slot that consumer `i` waits for. */
  predicate Busy<T>(s: State<T>, i: nat)
    requires i < |s.consumers|
  {
    s.producer.Writing? && s.producer.seqno % BUFFER_SIZE == (s.consumers[i].at + 1) % BUFFER_SIZE
  }

  predicate IsReading<T>(s: State<T>, i: nat) {
    i < |s.consumers| && s.consumers[i].phase.Reading?
  }

  /** At some moment of the read that consumer `i` is in the middle of, the producer was writing the
      slot. */
  predicate Overlapped<T>(consumers: nat, es: seq<Event<T>>, i: nat) {
    && es != []
    && IsReading(Run(consumers, es), i)
    && (Busy(Run(consumers, es), i)
        || (IsReading(Run(consumers, es[..|es| - 1]), i) && Overlapped(consumers, es[..|es| - 1], i)))
  }

  lemma CleanIsNotBusy<T>(s: State<T>, i: nat)
    requires Inv(s) && i < |s.consumers| && s.consumers[i].phase == Reading(false)
    ensures !Busy(s, i)
  {
    assert ConsumerOk(s, s.consumers[i]);
    assert SlotOk(s, (s.consumers[i].at + 1) % BUFFER_SIZE);
  }

  lemma BeginDisturbs<T>(s: State<T>, i: nat)
    requires Inv(s) && s.producer.Claimed? && IsReading(s, i)
    ensures var s' := Step(s, Begin);
      && IsReading(s', i) && s'.consumers[i].at == s.consumers[i].at
      && (s'.consumers[i].phase.dirty <==> s.consumers[i].phase.dirty || Busy(s', i))
  {
    assert ConsumerOk(s, s.consumers[i]);
    SlotOfIsMod(s.producer.seqno);
    SlotOfIsMod(s.consumers[i].at + 1);
  }

  /** A read goes on: it is disturbed if it was, or if the producer is writing its slot now. */
  lemma ReadGoesOn<T>(s: State<T>, e: Event<T>, i: nat)
    requires Inv(s) && IsReading(s, i) && IsReading(Step(s, e), i)
    ensures var s' := Step(s, e);
      && s'.consumers[i].at == s.consumers[i].at
      && (s'.consumers[i].phase.dirty <==> s.consumers[i].phase.dirty || Busy(s', i))
  {
    if e.Begin? && s.producer.Claimed? {
      BeginDisturbs(s, i);
    } else {
      hide SlotOf, Disturbed;
      if !s.consumers[i].phase.dirty {
        CleanIsNotBusy(s, i);
      }
    }
  }

  lemma ReadStarts<T>(s: State<T>, e: Event<T>, i: nat)
    requires Inv(s) && !IsReading(s, i) && IsReading(Step(s, e), i)
    ensures Step(s, e).consumers[i].phase.dirty <==> Busy(Step(s, e), i)
  {
    assert e == ReadBegin(i) by {
      hide SlotOf;
    }
    var c := s.consumers[i];
    assert ConsumerOk(s, c);
    SlotOfIsMod(c.at + 1);
    assert SlotOk(s, (c.at + 1) % BUFFER_SIZE);
  }

  lemma {:induction false} DirtyIsOverlapped<T>(consumers: nat, es: seq<Event<T>>, i: nat)
    requires IsReading(Run(consumers, es), i)
    ensures Run(consumers, es).consumers[i].phase.dirty <==> Overlapped(consumers, es, i)
    decreases |es|
  {
    hide Step, Busy;
    if es != [] {
      var init, e := es[..|es| - 1], es[|es| - 1];
      var s := Run(consumers, init);
      RunInv(consumers, init);
      if IsReading(s, i) {
        DirtyIsOverlapped(consumers, init, i);
        ReadGoesOn(s, e, i);
      } else {
        ReadStarts(s, e, i);
      }
    } else {
      NobodyReads<T>(consumers, i);
    }
  }

  lemma NobodyReads<T>(consumers: nat, i: nat)
    ensures !IsReading(Init<T>(consumers), i)
  {
  }

  /** A read delivers a torn tick exactly when a write of its slot overlapped it. */
  lemma TornExactlyWhenDisturbed<T>(consumers: nat, es: seq<Event<T>>, i: nat)
    requires IsReading(Run(consumers, es), i)
    ensures var c := Step(Run(consumers, es), ReadEnd(i)).consumers[i];
      |c.got| > 0 && (c.got[|c.got| - 1] == Torn <==> Overlapped(consumers, es, i))
  {
    hide Run, Overlapped;
    RunInv(consumers, es);
    DirtyIsOverlapped(consumers, es, i);
    ReadEndDelivers(Run(consumers, es), i);
    var s := Run(consumers, es);
    assert ConsumerOk(s, s.consumers[i]);
  }

  /** What the end of a read hands over. */
  lemma ReadEndDelivers<T>(s: State<T>, i: nat)
    requires Inv(s) && IsReading(s, i)
    ensures var c, s' := s.consumers[i], Step(s, ReadEnd(i));
      && c.at >= -1 && |s'.consumers| == |s.consumers| && s'.log == s.log
      && s'.consumers[i].got ==
           c.got + [if c.phase.dirty then Torn else s.slots[(c.at + 1) % BUFFER_SIZE].cell]
  {
    assert ConsumerOk(s, s.consumers[i]);
    SlotOfIsMod(s.consumers[i].at + 1);
  }

  // ---------------------------------------------------------------------------------- wrong ticks

  /** How many ticks the producer has begun to write. */
  function Begun<T>(s: State<T>): int {
    if s.producer.Claimed? then |s.log| - 1 else |s.log|
  }

  predicate Distinct<T(==)>(log: seq<T>) {
    forall i, j :: 0 <= i < j < |log| ==> log[i] != log[j]
  }

  lemma PassedIsPublished<T>(s: State<T>, i: nat)
    requires Inv(s) && i < |s.consumers| && !s.consumers[i].phase.Waiting?
    ensures -1 <= s.consumers[i].at && s.consumers[i].at + 1 < s.Published() <= |s.log|
  {
    assert ConsumerOk(s, s.consumers[i]);
    CheckIsExact(s, s.consumers[i]);
  }

  lemma BusyIsLate<T>(s: State<T>, i: nat)
    requires Inv(s) && IsReading(s, i) && Busy(s, i)
    ensures Begun(s) > s.consumers[i].at + 1 + BUFFER_SIZE
  {
    PassedIsPublished(s, i);
    Congruent(s.consumers[i].at + 1, s.producer.seqno);
  }

  lemma BegunGrows<T>(s: State<T>, e: Event<T>)
    ensures Begun(Step(s, e)) >= Begun(s)
    ensures s.log <= Step(s, e).log && |Step(s, e).consumers| == |s.consumers|
  {
    hide SlotOf;
  }

  lemma {:induction false} DirtyIsLate<T>(consumers: nat, es: seq<Event<T>>, i: nat)
    requires IsReading(Run(consumers, es), i) && Run(consumers, es).consumers[i].phase.dirty
    ensures Begun(Run(consumers, es)) > Run(consumers, es).consumers[i].at + 1 + BUFFER_SIZE
    decreases |es|
  {
    hide Step, Busy, Begun;
    RunInv(consumers, es);
    if es != [] {
      var init, e := es[..|es| - 1], es[|es| - 1];
      var s := Run(consumers, init);
      RunInv(consumers, init);
      BegunGrows(s, e);
      if IsReading(s, i) {
        ReadGoesOn(s, e, i);
        if s.consumers[i].phase.dirty {
          DirtyIsLate(consumers, init, i);
        } else {
          BusyIsLate(Step(s, e), i);
        }
      } else {
        ReadStarts(s, e, i);
        BusyIsLate(Step(s, e), i);
      }
    } else {
      NobodyReads<T>(consumers, i);
    }
  }

  /** A slot that is not being written holds the awaited tick exactly when the write a lap later has
      not begun. */
  lemma CleanIsRightExactlyInTime<T>(s: State<T>, i: nat)
    requires Inv(s) && Distinct(s.log) && i < |s.consumers| && s.consumers[i].phase == Reading(false)
    ensures var next := s.consumers[i].at + 1;
      0 <= next < |s.log| &&
      (s.slots[next % BUFFER_SIZE].cell == Full(s.log[next]) <==> Begun(s) <= next + BUFFER_SIZE)
  {
    var next := s.consumers[i].at + 1;
    var j := next % BUFFER_SIZE;
    PassedIsPublished(s, i);
    CleanIsNotBusy(s, i);
    assert ConsumerOk(s, s.consumers[i]) && SlotOk(s, j);
    var q := if s.producer.Written? && s.producer.seqno % BUFFER_SIZE == j then |s.log| - 1 else s.slots[j].sequence;
    assert next <= q < |s.log| && q % BUFFER_SIZE == j && s.slots[j].cell == Full(s.log[q]);
    if q > next {
      Congruent(next, q);
    }
  }

  /** The read that ends with `e`, if there is one, ends before the producer begins to write the slot
      again. */
  predicate EndsInTime<T>(s: State<T>, e: Event<T>, i: nat) {
    e == ReadEnd(i) && IsReading(s, i) ==> Begun(s) <= s.consumers[i].at + 1 + BUFFER_SIZE
  }

  predicate InTime<T>(consumers: nat, es: seq<Event<T>>, i: nat) {
    es != [] ==>
      && InTime(consumers, es[..|es| - 1], i)
      && EndsInTime(Run(consumers, es[..|es| - 1]), es[|es| - 1], i)
  }

  /** The consumer was given the log from its first tick on. */
  predicate HasTheLog<T(==)>(s: State<T>, i: nat)
    requires i < |s.consumers|
  {
    var got := s.consumers[i].got;
    |got| <= |s.log| && forall n :: 0 <= n < |got| ==> got[n] == Full(s.log[n])
  }

  lemma OtherEventsDeliverNothing<T>(s: State<T>, e: Event<T>, i: nat)
    requires i < |s.consumers| && !(e == ReadEnd(i) && IsReading(s, i))
    ensures |Step(s, e).consumers| == |s.consumers|
    ensures Step(s, e).consumers[i].got == s.consumers[i].got
  {
    hide SlotOf;
  }

  lemma StepHasTheLog<T>(s: State<T>, e: Event<T>, i: nat)
    requires Inv(s) && i < |s.consumers| && Distinct(s.log)
    requires IsReading(s, i) && s.consumers[i].phase.dirty ==> Begun(s) > s.consumers[i].at + 1 + BUFFER_SIZE
    ensures |Step(s, e).consumers| == |s.consumers|
    ensures HasTheLog(Step(s, e), i) <==> HasTheLog(s, i) && EndsInTime(s, e, i)
  {
    hide Step, Begun;
    var s' := Step(s, e);
    assert ConsumerOk(s, s.consumers[i]);
    BegunGrows(s, e);
    var c := s.consumers[i];
    if e == ReadEnd(i) && IsReading(s, i) {
      PassedIsPublished(s, i);
      ReadEndDelivers(s, i);
      if !c.phase.dirty {
        CleanIsRightExactlyInTime(s, i);
      }
      var got := s'.consumers[i].got;
      assert got[c.at + 1] == if c.phase.dirty then Torn else s.slots[(c.at + 1) % BUFFER_SIZE].cell;
      assert forall n :: 0 <= n < |c.got| ==> got[n] == c.got[n];
    } else {
      OtherEventsDeliverNothing(s, e, i);
      PublishedBoundsGot(s, i);
    }
  }

  lemma PublishedBoundsGot<T>(s: State<T>, i: nat)
    requires Inv(s) && i < |s.consumers|
    ensures |s.consumers[i].got| <= |s.log|
  {
    assert ConsumerOk(s, s.consumers[i]);
  }

  /** For distinct ticks: a consumer is given the log, no gap, no repeat, nothing torn, exactly when each
      of its reads ends before the producer begins to write the slot again. */
  lemma {:induction false} LogExactlyWhenInTime<T>(consumers: nat, es: seq<Event<T>>, i: nat)
    requires i < consumers && Distinct(Run(consumers, es).log)
    ensures |Run(consumers, es).consumers| == consumers
    ensures HasTheLog(Run(consumers, es), i) <==> InTime(consumers, es, i)
    decreases |es|
  {
    hide Step, EndsInTime, HasTheLog;
    if es == [] {
      NothingGiven<T>(consumers, i);
    } else {
      var init, e := es[..|es| - 1], es[|es| - 1];
      var s := Run(consumers, init);
      BegunGrows(s, e);
      assert forall n :: 0 <= n < |s.log| ==> s.log[n] == Run(consumers, es).log[n];
      LogExactlyWhenInTime(consumers, init, i);
      RunInv(consumers, init);
      if IsReading(s, i) && s.consumers[i].phase.dirty {
        DirtyIsLate(consumers, init, i);
      }
      StepHasTheLog(s, e, i);
    }
  }

  lemma NothingGiven<T>(consumers: nat, i: nat)
    requires i < consumers
    ensures |Init<T>(consumers).consumers| == consumers && HasTheLog(Init<T>(consumers), i)
  {
  }

  // ---------------------------------------------------------------------------------- all happen

  function Numbers(n: nat): seq<nat> { seq(n, k requires 0 <= k < n => k) }

  /** The numbers below `n` are published, and the one consumer has not moved. */
  predicate Filled(s: State<nat>, n: nat) {
    s.producer.Idle? && s.consumers == [Consumer(-1, Waiting, [], true)] && s.log == Numbers(n)
  }

  lemma RunAppend(es: seq<Event<nat>>, e: Event<nat>)
    ensures Run(1, es + [e]) == Step(Run(1, es), e)
  {
    assert (es + [e])[..|es + [e]| - 1] == es;
  }

  lemma Then(es: seq<Event<nat>>, e: Event<nat>) returns (es': seq<Event<nat>>)
    ensures Run(1, es') == Step(Run(1, es), e)
  {
    es' := es + [e];
    RunAppend(es, e);
  }

  lemma PublishNext(es: seq<Event<nat>>, n: nat) returns (es': seq<Event<nat>>)
    requires Filled(Run(1, es), n)
    ensures Filled(Run(1, es'), n + 1)
  {
    hide Run, SlotOf;
    RunInv(1, es);
    SlotOfIsMod(n);
    es' := Then(es, Claim(n));
    es' := Then(es', Begin);
    es' := Then(es', End);
    es' := Then(es', Store);
    assert Numbers(n) + [n] == Numbers(n + 1);
  }

  lemma FillRing(n: nat) returns (es: seq<Event<nat>>)
    ensures Filled(Run(1, es), n)
  {
    es := [];
    for i := 0 to n
      invariant Filled(Run(1, es), i)
    {
      es := PublishNext(es, i);
    }
  }

  /** The consumer begins to read its first tick. */
  lemma BeginReading(es: seq<Event<nat>>, n: nat) returns (es': seq<Event<nat>>)
    requires Filled(Run(1, es), n) && n > 0
    ensures var s, s' := Run(1, es), Run(1, es');
      && |s.slots| == BUFFER_SIZE
      && s' == s.(consumers := [Consumer(-1, Reading(false), [], n <= BUFFER_SIZE)])
  {
    hide Run, SlotOf;
    var s := Run(1, es);
    RunInv(1, es);
    SlotOfIsMod(0);
    CheckIsExact(s, s.consumers[0]);
    assert SlotOk(s, 0);
    es' := Then(es, Check(0));
    es' := Then(es', ReadBegin(0));
  }

  /** A consumer that does not move while one tick more than the ring holds is published is then given
      the last of them for the first. */
  lemma LappedDelivery() returns (es: seq<Event<nat>>)
    ensures var s := Run(1, es);
      |s.consumers| == 1 && s.consumers[0].got == [Full(65536)] && s.log == Numbers(65537)
  {
    hide Run, SlotOf;
    es := FillRing(BUFFER_SIZE + 1);
    es := BeginReading(es, BUFFER_SIZE + 1);
    var s := Run(1, es);
    RunInv(1, es);
    assert SlotOk(s, 0);
    SlotOfIsMod(0);
    es := Then(es, ReadEnd(0));
  }

  /** If the next write of its slot begins during the read, what it is given is torn. */
  lemma TornDelivery() returns (es: seq<Event<nat>>)
    ensures var s := Run(1, es); |s.consumers| == 1 && s.consumers[0].got == [Torn]
  {
    hide Run, SlotOf;
    es := FillRing(BUFFER_SIZE);
    es := BeginReading(es, BUFFER_SIZE);
    SlotOfIsMod(0);
    SlotOfIsMod(BUFFER_SIZE);
    es := Then(es, Claim(BUFFER_SIZE));
    es := Then(es, Begin);
    es := Then(es, ReadEnd(0));
  }

  /** If the number of that write is only claimed by the end of the read, the lag has exceeded the ring
      and the tick is still right. */
  lemma RightBeyondTheLag() returns (es: seq<Event<nat>>)
    ensures var s := Run(1, es);
      |s.consumers| == 1 && s.consumers[0].got == [Full(0)] && !s.consumers[0].kept
  {
    hide Run, SlotOf;
    es := FillRing(BUFFER_SIZE);
    es := BeginReading(es, BUFFER_SIZE);
    var s := Run(1, es);
    RunInv(1, es);
    assert SlotOk(s, 0);
    SlotOfIsMod(0);
    es := Then(es, Claim(BUFFER_SIZE));
    es := Then(es, ReadEnd(0));
  }
}
