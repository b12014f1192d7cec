/** The order rate limiter: a token bucket refilled lazily, when it is asked. */
module TokenBucket {

  const NANOS: real := 1000000000.0

  /** Burst is a whole number of tokens, the level is a real; time is in nanoseconds. */
  datatype Bucket = Bucket(rate: int, burst: int, tokens: real, last: int)

  function New(rate: int, burst: int, now: int): Bucket {
    var b := if burst < 0 then rate * 2 else burst;
    Bucket(rate, b, b as real, now)
  }

  function MinReal(x: real, y: real): real { if y < x then y else x }

  /** The tokens that flow in between two moments. */
  function Inflow(rate: int, from: int, to: int): real {
    (to - from) as real / NANOS * rate as real
  }

  function Refill(b: Bucket, now: int): Bucket {
    b.(tokens := MinReal(b.tokens + Inflow(b.rate, b.last, now), b.burst as real), last := now)
  }

  predicate Grants(b: Bucket, now: int) { Refill(b, now).tokens >= 1.0 }

  /** The bucket after a call at `now`. */
  function Consume(b: Bucket, now: int): Bucket {
    var r := Refill(b, now);
    if r.tokens >= 1.0 then r.(tokens := r.tokens - 1.0) else r
  }

  /** The bucket after calls at the times `ts`. */
  function Run(b: Bucket, ts: seq<int>): Bucket {
    if ts == [] then b else Consume(Run(b, ts[..|ts| - 1]), ts[|ts| - 1])
  }

  /** What each of the calls answered. */
  function Answers(b: Bucket, ts: seq<int>): (r: seq<bool>)
    ensures |r| == |ts|
  {
    if ts == [] then [] else Answers(b, ts[..|ts| - 1]) + [Grants(Run(b, ts[..|ts| - 1]), ts[|ts| - 1])]
  }

  function Count(answers: seq<bool>): nat {
    if answers == [] then 0 else Count(answers[..|answers| - 1]) + (if answers[|answers| - 1] then 1 else 0)
  }

  /** The clock does not run backwards, neither before the first call nor between calls. */
  predicate Monotone(last: int, ts: seq<int>) {
    ts != [] ==> Monotone(last, ts[..|ts| - 1]) && Latest(last, ts[..|ts| - 1]) <= ts[|ts| - 1]
  }

  function Latest(last: int, ts: seq<int>): int {
    if ts == [] then last else ts[|ts| - 1]
  }

  predicate Sound(b: Bucket) {
    b.rate >= 0 && b.burst >= 0 && 0.0 <= b.tokens <= b.burst as real
  }

  /** A new limiter of non-negative rate, with a burst given or not, starts so. */
  lemma NewIsSound(rate: int, burst: int, now: int)
    requires rate >= 0
    ensures Sound(New(rate, burst, now)) && New(rate, burst, now).last == now
  {
  }

  lemma InflowNonNegative(rate: int, from: int, to: int)
    requires rate >= 0 && from <= to
    ensures Inflow(rate, from, to) >= 0.0
  {
  }

  lemma InflowAdds(rate: int, a: int, b: int, c: int)
    ensures Inflow(rate, a, c) == Inflow(rate, a, b) + Inflow(rate, b, c)
  {
    var x, y := (b - a) as real / NANOS, (c - b) as real / NANOS;
    assert (c - a) as real / NANOS == x + y;
    assert (x + y) * rate as real == x * rate as real + y * rate as real;
  }

  lemma {:induction false} RunFacts(b: Bucket, ts: seq<int>)
    requires Sound(b) && Monotone(b.last, ts)
    ensures var r := Run(b, ts);
      Sound(r) && r.rate == b.rate && r.burst == b.burst && r.last == Latest(b.last, ts)
    decreases |ts|
  {
    if ts != [] {
      var init, t := ts[..|ts| - 1], ts[|ts| - 1];
      RunFacts(b, init);
      InflowNonNegative(b.rate, Run(b, init).last, t);
    }
  }

  /** Calls granted plus tokens left never exceed tokens at the start plus what has flowed in. */
  lemma {:induction false} GrantsAreFunded(b: Bucket, ts: seq<int>)
    requires Sound(b) && Monotone(b.last, ts)
    ensures var r := Run(b, ts);
      Count(Answers(b, ts)) as real + r.tokens <= b.tokens + Inflow(b.rate, b.last, r.last)
    decreases |ts|
  {
    if ts != [] {
      var init, t := ts[..|ts| - 1], ts[|ts| - 1];
      GrantsAreFunded(b, init);
      RunFacts(b, init);
      InflowAdds(b.rate, b.last, Run(b, init).last, t);
      CountAppend(Answers(b, init), Grants(Run(b, init), t));
    }
  }

  lemma CountAppend(answers: seq<bool>, a: bool)
    ensures Count(answers + [a]) == Count(answers) + if a then 1 else 0
  {
    assert (answers + [a])[..|answers + [a]| - 1] == answers;
  }

  /** The rate bound, for any window: calls at times `window`, after any calls `before`, are granted at
      most burst plus rate times the time from the first to the last of them. */
  lemma WindowBound(b: Bucket, before: seq<int>, window: seq<int>)
    requires Sound(b) && Monotone(b.last, before) && window != []
    requires Monotone(Latest(b.last, before), window)
    ensures Count(Answers(Run(b, before), window)) as real
      <= b.burst as real + Inflow(b.rate, window[0], window[|window| - 1])
  {
    hide Answers, Count, Inflow;
    RunFacts(b, before);
    var r := Run(b, before);
    MonotoneFrom(r.last, window);
    InflowNonNegative(r.rate, r.last, window[0]);
    RefillFirst(r, window);
    GrantsAreFunded(Refill(r, window[0]), window);
    RunFacts(Refill(r, window[0]), window);
  }

  lemma {:induction false} MonotoneFrom(last: int, ts: seq<int>)
    requires ts != [] && Monotone(last, ts)
    ensures last <= ts[0] && Monotone(ts[0], ts)
    decreases |ts|
  {
    if |ts| > 1 {
      MonotoneFrom(last, ts[..|ts| - 1]);
    }
  }

  /** Refilling at the moment of the first call, before it, changes nothing. */
  lemma {:induction false} RefillFirst(b: Bucket, ts: seq<int>)
    requires ts != [] && Sound(b) && b.last <= ts[0]
    ensures Answers(Refill(b, ts[0]), ts) == Answers(b, ts) && Run(Refill(b, ts[0]), ts) == Run(b, ts)
    decreases |ts|
  {
    if |ts| == 1 {
      assert ts[..0] == [];
      RefillTwice(b, ts[0], ts[0]);
    } else {
      RefillFirst(b, ts[..|ts| - 1]);
    }
  }

  /** Capped refills compose: refilling twice is refilling once, at the later time. */
  lemma RefillTwice(b: Bucket, t: int, u: int)
    requires b.rate >= 0 && b.last <= t <= u
    ensures Refill(Refill(b, t), u) == Refill(b, u)
  {
    InflowAdds(b.rate, b.last, t, u);
    InflowNonNegative(b.rate, t, u);
  }

  /** A full bucket asked any number of times at one instant grants exactly its burst. */
  lemma {:induction false} FullBucketGrantsBurst(b: Bucket, ts: seq<int>)
    requires b.rate >= 0 && b.burst >= 0 && b.tokens == b.burst as real
    requires forall i :: 0 <= i < |ts| ==> ts[i] == b.last
    ensures Count(Answers(b, ts)) == if |ts| <= b.burst then |ts| else b.burst
    ensures Run(b, ts) == b.(tokens := (b.burst - Count(Answers(b, ts))) as real)
    decreases |ts|
  {
    if ts != [] {
      var init := ts[..|ts| - 1];
      FullBucketGrantsBurst(b, init);
      CountAppend(Answers(b, init), Grants(Run(b, init), ts[|ts| - 1]));
      assert Inflow(b.rate, b.last, b.last) == 0.0;
    }
  }

  // ----------------------------------------------------------------------------------- in numbers

  lemma InflowInNumbers(rate: int, from: int, to: int)
    ensures Inflow(rate, from, to) == ((to - from) * rate) as real / 1_000_000_000.0
  {
    var n, r := (to - from) as real, rate as real;
    assert ((to - from) * rate) as real == n * r;
    assert n / NANOS * r == n * r / NANOS;
  }

  /** What one more call does after any others: elapsed nanoseconds times rate, divided by a thousand
      million, flow in, up to the burst; and if that makes a whole token, it is granted and taken. */
  lemma LevelAfterCall(b: Bucket, ts: seq<int>, t: int)
    requires Sound(b) && Monotone(b.last, ts)
    ensures var before, after := Run(b, ts), Run(b, ts + [t]);
      var elapsed := t - if ts == [] then b.last else ts[|ts| - 1];
      var filled := before.tokens + (elapsed * b.rate) as real / 1_000_000_000.0;
      var level := if filled <= b.burst as real then filled else b.burst as real;
      && |Answers(b, ts + [t])| == |ts| + 1
      && Answers(b, ts + [t])[|ts|] == (level >= 1.0)
      && after.tokens == (if level >= 1.0 then level - 1.0 else level)
      && after.last == t && after.rate == b.rate && after.burst == b.burst
  {
    RunFacts(b, ts);
    InflowInNumbers(b.rate, Run(b, ts).last, t);
    assert (ts + [t])[..|ts + [t]| - 1] == ts;
  }

  /** Whatever was asked before: after an idle time in which one token flows in, a call is granted. */
  lemma GrantedAfterIdleTime(b: Bucket, ts: seq<int>, t: int)
    requires Sound(b) && b.burst >= 1 && Monotone(b.last, ts)
    requires (t - if ts == [] then b.last else ts[|ts| - 1]) * b.rate >= 1_000_000_000
    ensures |Answers(b, ts + [t])| == |ts| + 1 && Answers(b, ts + [t])[|ts|]
  {
    LevelAfterCall(b, ts, t);
    RunFacts(b, ts);
  }

  /** The rate bound in whole numbers: tokens are counted in billionths. */
  lemma WindowBoundInNumbers(b: Bucket, before: seq<int>, window: seq<int>)
    requires Sound(b) && Monotone(b.last, before) && window != []
    requires Monotone(Latest(b.last, before), window)
    ensures Count(Answers(Run(b, before), window)) * 1_000_000_000
      <= b.burst * 1_000_000_000 + (window[|window| - 1] - window[0]) * b.rate
  {
    hide Answers, Count, Run, Inflow, Monotone;
    WindowBound(b, before, window);
    InflowInNumbers(b.rate, window[0], window[|window| - 1]);
    Billionths(Count(Answers(Run(b, before), window)), b.burst, (window[|window| - 1] - window[0]) * b.rate);
  }

  lemma Billionths(n: int, burst: int, flow: int)
    requires n as real <= burst as real + flow as real / 1_000_000_000.0
    ensures n * 1_000_000_000 <= burst * 1_000_000_000 + flow
  {
  }

  /** A new limiter asked at once grants the burst it was given, or twice its rate if none was. */
  lemma NewGrantsItsBurst(rate: int, burst: int, now: int, n: nat)
    requires rate >= 0
    ensures var most := if burst < 0 then 2 * rate else burst;
      Count(Answers(New(rate, burst, now), seq(n, _ => now))) == if n <= most then n else most
  {
    FullBucketGrantsBurst(New(rate, burst, now), seq(n, _ => now));
  }

  // ---------------------------------------------------------------------------- lazy refill is exact

  /** The elements of `s` kept by the mask. */
  function Keep<T>(s: seq<T>, mask: seq<bool>): seq<T>
    requires |s| == |mask|
  {
    if s == [] then []
    else if mask[|s| - 1] then Keep(s[..|s| - 1], mask[..|s| - 1]) + [s[|s| - 1]]
    else Keep(s[..|s| - 1], mask[..|s| - 1])
  }

  /** The levels after each call. */
  function Levels(b: Bucket, ts: seq<int>): (r: seq<real>)
    ensures |r| == |ts|
  {
    if ts == [] then [] else Levels(b, ts[..|ts| - 1]) + [Run(b, ts).tokens]
  }

  /** `lazy` has not been asked since `eager` was; asked now, it catches up. */
  predicate CatchesUp(lazy: Bucket, eager: Bucket) {
    lazy.last <= eager.last && Refill(lazy, eager.last) == eager
  }

  lemma SameAnswer(lazy: Bucket, eager: Bucket, t: int)
    requires CatchesUp(lazy, eager) && lazy.rate >= 0 && eager.last <= t
    ensures Grants(lazy, t) <==> Grants(eager, t)
    ensures Consume(lazy, t) == Consume(eager, t)
  {
    RefillTwice(lazy, eager.last, t);
  }

  /** Calls that were refused may as well not have been made: leave out any of them, and every other
      call gets the same answer and leaves the same level. */
  lemma {:induction false} RefusedCallsLeaveNoTrace(b: Bucket, ts: seq<int>, mask: seq<bool>)
    requires Sound(b) && Monotone(b.last, ts) && |mask| == |ts|
    requires forall i :: 0 <= i < |ts| && !mask[i] ==> !Answers(b, ts)[i]
    ensures Answers(b, Keep(ts, mask)) == Keep(Answers(b, ts), mask)
    ensures Levels(b, Keep(ts, mask)) == Keep(Levels(b, ts), mask)
    ensures CatchesUp(Run(b, Keep(ts, mask)), Run(b, ts))
    ensures Run(b, Keep(ts, mask)).rate == b.rate
    decreases |ts|
  {
    if ts == [] {
      SelfCatchUp(b);
    } else {
      var n := |ts| - 1;
      assert Answers(b, ts)[..n] == Answers(b, ts[..n]);
      assert forall i :: 0 <= i < n ==> Answers(b, ts)[i] == Answers(b, ts[..n])[i];
      RefusedCallsLeaveNoTrace(b, ts[..n], mask[..n]);
      LastCall(b, ts, mask);
    }
  }

  lemma LastCall(b: Bucket, ts: seq<int>, mask: seq<bool>)
    requires ts != [] && |mask| == |ts| && Sound(b) && Monotone(b.last, ts)
    requires var n := |ts| - 1;
      && (!mask[n] ==> !Answers(b, ts)[n])
      && Answers(b, Keep(ts[..n], mask[..n])) == Keep(Answers(b, ts[..n]), mask[..n])
      && Levels(b, Keep(ts[..n], mask[..n])) == Keep(Levels(b, ts[..n]), mask[..n])
      && CatchesUp(Run(b, Keep(ts[..n], mask[..n])), Run(b, ts[..n]))
      && Run(b, Keep(ts[..n], mask[..n])).rate == b.rate
    ensures Answers(b, Keep(ts, mask)) == Keep(Answers(b, ts), mask)
    ensures Levels(b, Keep(ts, mask)) == Keep(Levels(b, ts), mask)
    ensures CatchesUp(Run(b, Keep(ts, mask)), Run(b, ts))
    ensures Run(b, Keep(ts, mask)).rate == b.rate
  {
    hide Grants, Consume, CatchesUp, Sound, Keep;
    var n := |ts| - 1;
    var init, m, t := ts[..n], mask[..n], ts[n];
    var lazy, eager := Run(b, Keep(init, m)), Run(b, init);
    RunFacts(b, init);
    RunFacts(b, ts);
    assert ts == init + [t] && mask == m + [mask[n]];
    KeepAppend(init, t, m, mask[n]);
    KeepAppend(Answers(b, init), Grants(eager, t), m, mask[n]);
    KeepAppend(Levels(b, init), Run(b, ts).tokens, m, mask[n]);
    if mask[n] {
      SameAnswer(lazy, eager, t);
      var kept := Keep(init, m) + [t];
      assert kept[..|kept| - 1] == Keep(init, m);
      SelfCatchUp(Consume(eager, t));
    } else {
      StillCatchesUp(lazy, eager, t);
    }
  }

  lemma KeepAppend<T>(s: seq<T>, x: T, mask: seq<bool>, k: bool)
    requires |s| == |mask|
    ensures Keep(s + [x], mask + [k]) == if k then Keep(s, mask) + [x] else Keep(s, mask)
  {
    assert (s + [x])[..|s|] == s && (mask + [k])[..|s|] == mask;
  }

  /** A refused call only refills. */
  lemma StillCatchesUp(lazy: Bucket, eager: Bucket, t: int)
    requires CatchesUp(lazy, eager) && lazy.rate >= 0 && eager.last <= t && !Grants(eager, t)
    ensures CatchesUp(lazy, Consume(eager, t))
  {
    RefillTwice(lazy, eager.last, t);
  }

  lemma SelfCatchUp(b: Bucket)
    requires Sound(b)
    ensures CatchesUp(b, b)
  {
    assert Inflow(b.rate, b.last, b.last) == 0.0;
  }

  class TokenBucketLimiter {
    const maxRate: int
    const burst: int
    var tokens: real
    var lastRefill: int

    ghost function View(): Bucket
      reads this
    {
      Bucket(maxRate, burst, tokens, lastRefill)
    }

    constructor (maxRate: int, burst: int, now: int)
      ensures View() == New(maxRate, burst, now)
    {
      this.maxRate := maxRate;
      this.burst := if burst < 0 then maxRate * 2 else burst;
      tokens := (if burst < 0 then maxRate * 2 else burst) as real;
      lastRefill := now;
    }

    method TryConsume(now: int) returns (ok: bool)
      modifies this
      ensures ok <==> Grants(old(View()), now)
      ensures View() == Consume(old(View()), now)
    {
      var elapsed := (now - lastRefill) as real / NANOS;
      lastRefill := now;
      var newTokens := tokens + elapsed * maxRate as real;
      newTokens := MinReal(newTokens, burst as real);
      tokens := newTokens;
      if tokens >= 1.0 {
        tokens := tokens - 1.0;
        return true;
      }
      return false;
    }
  }
}
