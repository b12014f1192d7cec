/** The tick normaliser: it takes raw ticks from the queue, drops the bad ones, and hands the others to
    the strategies' ring and to the candle builder. */
module Pipeline {
  import opened Records
  import opened Reals
  import opened Fifo
  import opened SpscQueue
  import opened Disruptor
  import opened CandleHierarchy
  import opened CandleBuilder

  datatype Verdict = Accept | DropStale | DropInsane

  /** A price is compared with the day's open, if there is one. A deviation of more than a fifth is
      looked at again, and only one of more than a half is dropped. */
  function Validate(t: Tick): Verdict {
    if t.isStale then DropStale
    else if t.ltp <= 0.0 then DropInsane
    else if t.open > 0.0 && AbsReal(t.ltp - t.open) / t.open > 0.20 && AbsReal(t.ltp - t.open) / t.open > 0.5
    then DropInsane
    else Accept
  }

  /** A tick passes exactly when it is fresh, priced, and within half of the open either way: the first
      threshold decides nothing. */
  lemma AcceptedExactly(t: Tick)
    ensures Validate(t).Accept? <==>
      !t.isStale && t.ltp > 0.0 && (t.open > 0.0 ==> t.open - 0.5 * t.open <= t.ltp <= t.open + 0.5 * t.open)
  {
    if t.open > 0.0 {
      Deviation(t.ltp, t.open, 0.5);
    }
  }

  /** The state of the pipeline: what is queued, what was taken from the queue, what the ring and the
      builder were given, and the three counters. */
  datatype Pipe = Pipe(
    queue: seq<Tick>, popped: seq<Tick>, published: seq<Tick>, builder: Builder,
    processed: nat, stale: nat, insane: nat)

  const START := Pipe([], [], [], NEW, 0, 0, 0)

  /** One turn of the loop. */
  function Turn(p: Pipe): Pipe {
    if p.queue == [] then p
    else
      var t := p.queue[0];
      var q := p.(queue := p.queue[1..], popped := p.popped + [t]);
      match Validate(t)
      case Accept =>
        q.(published := p.published + [t], builder := Ticked(p.builder, t), processed := p.processed + 1)
      case DropStale => q.(stale := p.stale + 1)
      case DropInsane => q.(insane := p.insane + 1)
  }

  function Turns(p: Pipe, n: nat): Pipe {
    if n == 0 then p else Turn(Turns(p, n - 1))
  }

  /** Raw ticks arrive, and are refused by a full queue; or the loop makes a turn. */
  datatype Step = Arrive(t: Tick) | Loop

  function Take(p: Pipe, capacity: nat, s: Step): Pipe {
    match s
    case Arrive(t) => if Permits(capacity, p.queue, Enqueue(t)) then p.(queue := After(p.queue, Enqueue(t))) else p
    case Loop => Turn(p)
  }

  function Drive(capacity: nat, ss: seq<Step>): Pipe {
    if ss == [] then START else Take(Drive(capacity, ss[..|ss| - 1]), capacity, ss[|ss| - 1])
  }

  /** The ticks that get through, in order. */
  function Passing(ts: seq<Tick>): seq<Tick> {
    if ts == [] then []
    else if Validate(ts[|ts| - 1]).Accept? then Passing(ts[..|ts| - 1]) + [ts[|ts| - 1]]
    else Passing(ts[..|ts| - 1])
  }

  /** How many are stale, and how many are fresh and still do not pass. */
  function StaleIn(ts: seq<Tick>): nat {
    if ts == [] then 0 else StaleIn(ts[..|ts| - 1]) + if ts[|ts| - 1].isStale then 1 else 0
  }

  function InsaneIn(ts: seq<Tick>): nat {
    if ts == [] then 0
    else
      var t := ts[|ts| - 1];
      InsaneIn(ts[..|ts| - 1]) + if !t.isStale && !Validate(t).Accept? then 1 else 0
  }

  lemma PassingAppend(ts: seq<Tick>, t: Tick)
    ensures Passing(ts + [t]) == if Validate(t).Accept? then Passing(ts) + [t] else Passing(ts)
    ensures StaleIn(ts + [t]) == StaleIn(ts) + if t.isStale then 1 else 0
    ensures InsaneIn(ts + [t]) == InsaneIn(ts) + if !t.isStale && !Validate(t).Accept? then 1 else 0
  {
    assert (ts + [t])[..|ts + [t]| - 1] == ts;
  }

  lemma StreamAppend(ts: seq<Tick>, t: Tick)
    ensures Stream(ts + [t]) == Ticked(Stream(ts), t)
  {
    assert (ts + [t])[..|ts + [t]| - 1] == ts;
  }

  ghost predicate PipeOk(p: Pipe) {
    && p.published == Passing(p.popped)
    && p.builder == Stream(p.published)
    && AllPriced(p.published)
    && p.processed == |p.published|
    && p.stale == StaleIn(p.popped) && p.insane == InsaneIn(p.popped)
    && |p.popped| == p.processed + p.stale + p.insane
  }

  lemma TurnKeeps(p: Pipe)
    requires PipeOk(p)
    ensures PipeOk(Turn(p))
  {
    hide Ticked, Passing, StaleIn, InsaneIn, Stream, Validate;
    if p.queue != [] {
      PassingAppend(p.popped, p.queue[0]);
      StreamAppend(p.published, p.queue[0]);
      Verdicts(p.queue[0]);
    }
  }

  lemma Verdicts(t: Tick)
    ensures Validate(t).Accept? ==> t.ltp > 0.0 && !t.isStale
    ensures Validate(t).DropStale? <==> t.isStale
  {
  }

  /** After any arrivals and any turns of the loop: the ring and the candle builder were given the same
      ticks, exactly those taken from the queue that pass, in order; all of them are priced; and every
      tick taken is counted once, under the reason for which it was dropped if it was. */
  lemma {:induction false} PipelineFilters(capacity: nat, ss: seq<Step>)
    ensures PipeOk(Drive(capacity, ss))
    decreases |ss|
  {
    hide Turn;
    if ss != [] {
      PipelineFilters(capacity, ss[..|ss| - 1]);
      TurnKeeps(Drive(capacity, ss[..|ss| - 1]));
    } else {
      assert Stream([]) == NEW;
    }
  }

  /** What was taken and what is queued together are the arrivals that found room, in order. */
  function Arrivals(capacity: nat, ss: seq<Step>): seq<Tick> {
    if ss == [] then []
    else
      var init := ss[..|ss| - 1];
      match ss[|ss| - 1]
      case Arrive(t) =>
        if Permits(capacity, Drive(capacity, init).queue, Enqueue(t)) then Arrivals(capacity, init) + [t]
        else Arrivals(capacity, init)
      case Loop => Arrivals(capacity, init)
  }

  lemma {:induction false} NothingIsReordered(capacity: nat, ss: seq<Step>)
    ensures Drive(capacity, ss).popped + Drive(capacity, ss).queue == Arrivals(capacity, ss)
    decreases |ss|
  {
    if ss != [] {
      var p := Drive(capacity, ss[..|ss| - 1]);
      NothingIsReordered(capacity, ss[..|ss| - 1]);
      if ss[|ss| - 1].Loop? && p.queue != [] {
        assert p.queue == [p.queue[0]] + p.queue[1..];
        assert Turn(p).popped == p.popped + [p.queue[0]] && Turn(p).queue == p.queue[1..];
      }
    }
  }

  /** From raw ticks to candles: for every instrument, the coarse candles that the pipeline has emitted
      are joins of consecutive groups of fine candles that it has emitted. No assumption on prices is
      left, because the filter discharges it. */
  lemma PipelineCandlesAgree(capacity: nat, ss: seq<Step>, token: nat, i: nat, j: nat)
    requires i < j < |INTERVALS|
    ensures var p := Drive(capacity, ss);
      MadeOf(LogOf(p.builder.log, Key(token, INTERVALS[j])), LogOf(p.builder.log, Key(token, INTERVALS[i])),
        Mine(Passing(p.popped), token), INTERVALS[i], INTERVALS[j])
  {
    hide Passing, Stream, Mine, LogOf, MadeOf;
    PipelineFilters(capacity, ss);
    var p := Drive(capacity, ss);
    CoarseCandlesAreMadeOfFineOnes(p.published, Tick(token, 1.0, 0.0, 0, 0, 0, 0, false), 0, token, i, j);
  }

  // ------------------------------------------------------------------------------- the normaliser

  class TickNormalizer {
    const rawQueue: SpscQueue<Tick>
    const ring: TickDisruptor<Tick>
    const builder: CandleBuilder
    var ticksProcessed: nat
    var staleDropped: nat
    var sanityRejected: nat
    ghost var popped: seq<Tick>

    ghost predicate Valid()
      reads this, rawQueue, rawQueue.data, ring, ring.buffer
    {
      rawQueue.Valid() && ring.Valid()
    }

    ghost function View(): Pipe
      reads this, rawQueue, ring, builder
    {
      Pipe(rawQueue.items, popped, ring.log, builder.View(), ticksProcessed, staleDropped, sanityRejected)
    }

    constructor (queue: SpscQueue<Tick>, disruptor: TickDisruptor<Tick>, candles: CandleBuilder)
      requires queue.Valid() && disruptor.Valid()
      ensures Valid() && rawQueue == queue && ring == disruptor && builder == candles
      ensures View() == Pipe(queue.items, [], disruptor.log, candles.View(), 0, 0, 0)
    {
      rawQueue, ring, builder := queue, disruptor, candles;
      ticksProcessed, staleDropped, sanityRejected, popped := 0, 0, 0, [];
    }

    /** False if the tick is to be dropped; then one of the two drop counters moves. */
    method ValidateTick(t: Tick) returns (ok: bool)
      modifies this`staleDropped, this`sanityRejected
      ensures ok <==> Validate(t).Accept?
      ensures staleDropped == old(staleDropped) + if Validate(t).DropStale? then 1 else 0
      ensures sanityRejected == old(sanityRejected) + if Validate(t).DropInsane? then 1 else 0
    {
      if t.isStale {
        staleDropped := staleDropped + 1;
        return false;
      }
      if t.ltp <= 0.0 {
        sanityRejected := sanityRejected + 1;
        return false;
      }
      if t.open > 0.0 {
        var deviation := AbsReal(t.ltp - t.open) / t.open;
        if deviation > 0.20 {
          if deviation > 0.5 {
            sanityRejected := sanityRejected + 1;
            return false;
          }
        }
      }
      return true;
    }

    /** The loop, for as many turns as pass before it is told to stop. */
    method Run(rounds: nat)
      requires Valid()
      modifies this, rawQueue, ring, ring.buffer, builder
      ensures Valid() && View() == Turns(old(View()), rounds)
    {
      var tick := Tick(0, 0.0, 0.0, 0, 0, 0, 0, false);
      for i := 0 to rounds
        invariant Valid() && View() == Turns(old(View()), i)
      {
        tick := OneTurn(tick);
      }
    }

    method OneTurn(tick0: Tick) returns (tick: Tick)
      requires Valid()
      modifies this, rawQueue, ring, ring.buffer, builder
      ensures Valid() && View() == Turn(old(View()))
    {
      hide Validate, Ticked;
      var got;
      got, tick := rawQueue.TryPop(tick0);
      if !got {
        return;
      }
      popped := popped + [tick];
      var ok := ValidateTick(tick);
      if !ok {
        return;
      }
      ring.Push(tick);
      builder.OnTick(tick);
      ticksProcessed := ticksProcessed + 1;
    }
  }
}
