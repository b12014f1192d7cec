/** The streaming candle builder: one open bar per instrument and interval, updated in place. */
module CandleBuilder {
  import opened Bits
  import opened Records
  import opened Candles
  import opened CandleHierarchy

  const INTERVALS: seq<nat> := [60, 300, 900, 3600]

  datatype Key = Key(token: nat, interval: nat)

  /** The open bars, and the candles handed to the callbacks, oldest first. */
  datatype Builder = Builder(bars: map<Key, Bar>, log: seq<Candle>)

  const NEW := Builder(map[], [])

  function FirstBar(t: Tick, sec: nat): Bar
    requires sec > 0
  {
    Bar(t.token, BarStart(t, sec), sec, Summary(t.ltp, t.ltp, t.ltp, t.ltp, t.volume, t.oi))
  }

  function ExtendBar(b: Bar, t: Tick): Bar {
    b.(v := Summary(
         b.v.open,
         if t.ltp > b.v.high then t.ltp else b.v.high,
         if t.ltp < b.v.low then t.ltp else b.v.low,
         t.ltp,
         if t.volume > b.v.volume then t.volume else b.v.volume,
         t.oi))
  }

  function UpdateBar(b: Builder, t: Tick, sec: nat): Builder
    requires sec > 0
  {
    var key := Key(t.token, sec);
    if key in b.bars && b.bars[key].start == BarStart(t, sec) then
      b.(bars := b.bars[key := ExtendBar(b.bars[key], t)])
    else
      Builder(b.bars[key := FirstBar(t, sec)],
              if key in b.bars && b.bars[key].v.open > 0.0
              then b.log + [Close(b.bars[key], b.bars[key].start + sec * SECOND - 1)]
              else b.log)
  }

  /** A tick in the middle of `on_tick`: the first `k` intervals are updated. */
  function Partly(b: Builder, t: Tick, k: nat): Builder
    requires k <= |INTERVALS|
  {
    if k == 0 then b else UpdateBar(Partly(b, t, k - 1), t, INTERVALS[k - 1])
  }

  function Ticked(b: Builder, t: Tick): Builder { Partly(b, t, |INTERVALS|) }

  function Stream(ts: seq<Tick>): Builder {
    if ts == [] then NEW else Ticked(Stream(ts[..|ts| - 1]), ts[|ts| - 1])
  }

  /** The candles of one instrument and interval. */
  function LogOf(log: seq<Candle>, key: Key): seq<Candle> {
    if log == [] then []
    else
      var init, c := log[..|log| - 1], log[|log| - 1];
      if c.token == key.token && c.interval == key.interval then LogOf(init, key) + [c] else LogOf(init, key)
  }

  /** The ticks of one instrument. */
  function Mine(ts: seq<Tick>, token: nat): seq<Tick> {
    if ts == [] then []
    else
      var init, t := ts[..|ts| - 1], ts[|ts| - 1];
      if t.token == token then Mine(init, token) + [t] else Mine(init, token)
  }

  /** For this key the builder stands where the run decomposition of `mine` says: the completed runs
      are emitted, the last one is the open bar. */
  ghost predicate Tracks(b: Builder, mine: seq<Tick>, key: Key)
    requires key.interval > 0
  {
    && LogOf(b.log, key) == Emitted(mine, key.interval)
    && (key in b.bars <==> mine != [])
    && (mine != [] ==>
          var rs := Runs(mine, key.interval);
          b.bars[key] == BarOf(rs[|rs| - 1], key.interval))
  }

  predicate OneToken(ts: seq<Tick>, token: nat) {
    forall i :: 0 <= i < |ts| ==> ts[i].token == token
  }

  lemma {:induction false} MineIsOneToken(ts: seq<Tick>, token: nat)
    ensures OneToken(Mine(ts, token), token)
    ensures AllPriced(ts) ==> AllPriced(Mine(ts, token))
    decreases |ts|
  {
    if ts != [] {
      MineIsOneToken(ts[..|ts| - 1], token);
    }
  }

  lemma LogAppend(log: seq<Candle>, c: Candle, key: Key)
    ensures LogOf(log + [c], key) ==
      if c.token == key.token && c.interval == key.interval then LogOf(log, key) + [c] else LogOf(log, key)
  {
    assert (log + [c])[..|log + [c]| - 1] == log;
  }

  /** A run extended by one tick of its bucket is summarised by the extended bar. */
  lemma ExtendedRun(r: seq<Tick>, t: Tick, sec: nat)
    requires sec > 0 && r != []
    ensures BarOf(r + [t], sec) == ExtendBar(BarOf(r, sec), t)
    ensures BarOf([t], sec) == FirstBar(t, sec)
  {
    hide Bucket;
    SummariseConcat(r, [t]);
    assert Highest([t]) == t.ltp && Lowest([t]) == t.ltp && Volume([t]) == t.volume;
  }

  /** Bars start at the same moment exactly when the buckets agree. */
  lemma SameStart(t: Tick, u: Tick, sec: nat)
    requires sec > 0
    ensures BarStart(t, sec) == BarStart(u, sec) <==> Bucket(t, sec) == Bucket(u, sec)
  {
    hide Bucket;
    var n := sec * SECOND;
    DivUnique(n, Bucket(t, sec), 0, if BarStart(t, sec) == BarStart(u, sec) then Bucket(u, sec) else Bucket(t, sec), 0);
  }

  lemma RunElements(ts: seq<Tick>, sec: nat, token: nat)
    requires sec > 0 && OneToken(ts, token)
    ensures forall i :: 0 <= i < |Runs(ts, sec)| ==> Runs(ts, sec)[i][0].token == token
  {
    hide Bucket;
    RunsAreMaximal(ts, sec);
    forall i | 0 <= i < |Runs(ts, sec)|
      ensures Runs(ts, sec)[i][0].token == token
    {
      ConcatElement(Runs(ts, sec), i);
      assert Runs(ts, sec)[i][0] in ts;
    }
  }

  /** The first tick of an instrument opens its first run. */
  lemma UpdateOpens(b: Builder, t: Tick, sec: nat)
    requires sec > 0 && Tracks(b, [], Key(t.token, sec))
    ensures Tracks(UpdateBar(b, t, sec), [t], Key(t.token, sec))
  {
    hide Bucket, BarStart, Runs, Summarise, FirstBar, ExtendBar;
    RunsAppend([], t, sec);
    NoRuns(sec);
    ExtendedRun([t], t, sec);
    assert [] + [t] == [t] && CandlesOf([], sec) == [];
  }

  /** A tick of the open bucket extends the last run. */
  lemma UpdateExtends(b: Builder, mine: seq<Tick>, t: Tick, sec: nat)
    requires sec > 0 && mine != [] && Tracks(b, mine, Key(t.token, sec))
    requires b.bars[Key(t.token, sec)].start == BarStart(t, sec)
    ensures Tracks(UpdateBar(b, t, sec), mine + [t], Key(t.token, sec))
  {
    hide Bucket, BarStart, Runs, Summarise, FirstBar, ExtendBar, CandlesOf, LogOf;
    var rs := Runs(mine, sec);
    var last := rs[|rs| - 1];
    RunsAppend(mine, t, sec);
    ExtendedRun(last, t, sec);
    SameStart(last[0], t, sec);
  }

  /** A tick of another bucket closes the last run, whose candle is emitted, and opens a new one. */
  lemma UpdateCloses(b: Builder, mine: seq<Tick>, t: Tick, sec: nat)
    requires sec > 0 && mine != [] && Tracks(b, mine, Key(t.token, sec)) && OneToken(mine, t.token)
    requires b.bars[Key(t.token, sec)].start != BarStart(t, sec)
    ensures Tracks(UpdateBar(b, t, sec), mine + [t], Key(t.token, sec))
  {
    hide Bucket, BarStart, Runs, Summarise, FirstBar, ExtendBar, LogOf;
    var key, rs := Key(t.token, sec), Runs(mine, sec);
    var last := rs[|rs| - 1];
    RunsAppend(mine, t, sec);
    RunElements(mine, sec, t.token);
    ExtendedRun(last, t, sec);
    SameStart(last[0], t, sec);
    LogAppend(b.log, Close(b.bars[key], b.bars[key].start + sec * SECOND - 1), key);
    assert (rs + [[t]])[..|rs + [[t]]| - 1] == rs;
    SummaryOpen(last);
  }

  /** One update follows the decomposition of the ticks by one tick. */
  lemma UpdateTracks(b: Builder, mine: seq<Tick>, t: Tick, sec: nat)
    requires sec > 0 && Tracks(b, mine, Key(t.token, sec)) && OneToken(mine, t.token)
    ensures Tracks(UpdateBar(b, t, sec), mine + [t], Key(t.token, sec))
  {
    if mine == [] {
      assert [] + [t] == [t];
      UpdateOpens(b, t, sec);
    } else if b.bars[Key(t.token, sec)].start == BarStart(t, sec) {
      UpdateExtends(b, mine, t, sec);
    } else {
      UpdateCloses(b, mine, t, sec);
    }
    hide Tracks, UpdateBar;
  }

  lemma SummaryOpen(r: seq<Tick>)
    requires r != []
    ensures Summarise(r).open == r[0].ltp
  {
  }

  lemma UpdateLeavesOthers(b: Builder, mine: seq<Tick>, t: Tick, sec: nat, key: Key)
    requires sec > 0 && key.interval > 0 && Tracks(b, mine, key) && key != Key(t.token, sec)
    requires WellKeyed(b)
    ensures Tracks(UpdateBar(b, t, sec), mine, key)
  {
    hide Bucket, BarStart, Runs, BarOf, Emitted;
    var own := Key(t.token, sec);
    if own in b.bars {
      LogAppend(b.log, Close(b.bars[own], b.bars[own].start + sec * SECOND - 1), key);
    }
  }

  /** Every bar is filed under its instrument and interval. */
  predicate WellKeyed(b: Builder) {
    forall key :: key in b.bars ==> b.bars[key].token == key.token && b.bars[key].interval == key.interval
  }

  lemma UpdateKeepsKeys(b: Builder, t: Tick, sec: nat)
    requires sec > 0 && WellKeyed(b)
    ensures WellKeyed(UpdateBar(b, t, sec))
  {
    hide BarStart;
  }

  lemma {:induction false} PartlyKeepsKeys(b: Builder, t: Tick, k: nat)
    requires k <= |INTERVALS| && WellKeyed(b)
    ensures WellKeyed(Partly(b, t, k))
  {
    hide UpdateBar;
    if k > 0 {
      PartlyKeepsKeys(b, t, k - 1);
      UpdateKeepsKeys(Partly(b, t, k - 1), t, INTERVALS[k - 1]);
    }
  }

  /** Half way through a tick the intervals already updated have seen it, the others have not. */
  lemma {:induction false} PartlyTracks(b: Builder, mine: seq<Tick>, t: Tick, k: nat, token: nat, i: nat)
    requires k <= |INTERVALS| && i < |INTERVALS| && WellKeyed(b) && OneToken(mine, token)
    requires Tracks(b, mine, Key(token, INTERVALS[i]))
    ensures Tracks(Partly(b, t, k), if t.token == token && i < k then mine + [t] else mine, Key(token, INTERVALS[i]))
  {
    hide UpdateBar, Tracks;
    if k > 0 {
      PartlyTracks(b, mine, t, k - 1, token, i);
      PartlyKeepsKeys(b, t, k - 1);
      var p := Partly(b, t, k - 1);
      if t.token == token && i == k - 1 {
        UpdateTracks(p, mine, t, INTERVALS[i]);
      } else {
        IntervalsDiffer(i, k - 1);
        UpdateLeavesOthers(p, if t.token == token && i < k - 1 then mine + [t] else mine, t, INTERVALS[k - 1],
          Key(token, INTERVALS[i]));
      }
    }
  }

  lemma IntervalsDiffer(i: nat, j: nat)
    requires i < |INTERVALS| && j < |INTERVALS|
    ensures INTERVALS[i] > 0 && (i != j ==> INTERVALS[i] != INTERVALS[j])
  {
  }

  /** The builder, fed tick by tick, has emitted for every instrument and interval the candles of all
      maximal runs but the last, and holds the last one as its open bar. */
  lemma {:induction false} StreamFollowsRuns(ts: seq<Tick>, token: nat, i: nat)
    requires i < |INTERVALS|
    ensures WellKeyed(Stream(ts))
    ensures Tracks(Stream(ts), Mine(ts, token), Key(token, INTERVALS[i]))
    decreases |ts|
  {
    hide Tracks, Partly;
    if ts == [] {
      NewTracks(Key(token, INTERVALS[i]));
    } else {
      var init, t := ts[..|ts| - 1], ts[|ts| - 1];
      StreamFollowsRuns(init, token, i);
      MineIsOneToken(init, token);
      PartlyKeepsKeys(Stream(init), t, |INTERVALS|);
      PartlyTracks(Stream(init), Mine(init, token), t, |INTERVALS|, token, i);
    }
  }

  lemma NewTracks(key: Key)
    requires key.interval > 0
    ensures Tracks(NEW, [], key)
  {
  }

  lemma IntervalsDivide(i: nat, j: nat)
    requires i < j < |INTERVALS|
    ensures INTERVALS[i] > 0 && INTERVALS[j] / INTERVALS[i] > 0
    ensures INTERVALS[j] == INTERVALS[i] * (INTERVALS[j] / INTERVALS[i])
  {
    assert j == 1 || j == 2 || j == 3;
    assert i == 0 || i == 1 || i == 2;
  }

  /** After any ticks with positive prices, and at any moment inside the next one: for every instrument
      and any two intervals, the coarse candles emitted are made of fine ones that are already emitted. */
  lemma CoarseCandlesAreMadeOfFineOnes(ts: seq<Tick>, t: Tick, k: nat, token: nat, i: nat, j: nat)
    requires i < j < |INTERVALS| && k <= |INTERVALS| && AllPriced(ts) && t.ltp > 0.0
    ensures var b := Partly(Stream(ts), t, k);
      var seen := if t.token == token && j < k then Mine(ts, token) + [t] else Mine(ts, token);
      MadeOf(LogOf(b.log, Key(token, INTERVALS[j])), LogOf(b.log, Key(token, INTERVALS[i])),
        seen, INTERVALS[i], INTERVALS[j])
  {
    hide Partly, Runs, Emitted, Mine, Stream, LogOf, MadeOf;
    var mine := Mine(ts, token);
    StreamFollowsRuns(ts, token, i);
    StreamFollowsRuns(ts, token, j);
    MineIsOneToken(ts, token);
    PartlyTracks(Stream(ts), mine, t, k, token, i);
    PartlyTracks(Stream(ts), mine, t, k, token, j);
    IntervalsDivide(i, j);
    var seen := if t.token == token && j < k then mine + [t] else mine;
    var more := if t.token == token && i < k && !(j < k) then [t] else [];
    assert seen + more == if t.token == token && i < k then mine + [t] else mine;
    CoarseCandlesJoinFineOnes(seen, more, INTERVALS[i], INTERVALS[j] / INTERVALS[i]);
  }

  // ------------------------------------------------------------------------------- end of the day

  /** The candle that closing the bar of a key yields, if any. */
  function ClosedAt(bars: map<Key, Bar>, key: Key, now: nat): seq<Candle> {
    if key in bars && bars[key].v.open > 0.0 then [Close(bars[key], now)] else []
  }

  /** The candles of one key after everything is flushed at `now`. */
  function Flushed(mine: seq<Tick>, sec: nat, now: nat): seq<Candle>
    requires sec > 0
  {
    if mine == [] then []
    else
      var rs := Runs(mine, sec);
      Emitted(mine, sec) + (if rs[|rs| - 1][0].ltp > 0.0 then [Close(BarOf(rs[|rs| - 1], sec), now)] else [])
  }

  /** Then every priced tick is in exactly one candle: there is one candle per maximal run, in order,
      and the runs together are the ticks. */
  lemma FlushCoversEveryTick(mine: seq<Tick>, sec: nat, now: nat)
    requires sec > 0 && AllPriced(mine)
    ensures var rs, cs := Runs(mine, sec), Flushed(mine, sec, now);
      && MaximalRuns(rs, mine, sec)
      && |cs| == |rs|
      && forall i :: 0 <= i < |rs| ==> cs[i].v == Summarise(rs[i]) && cs[i].openTs == BarStart(rs[i][0], sec)
  {
    hide Bucket, Summarise, BarStart, Runs, Priced;
    RunsAreMaximal(mine, sec);
    RunsPriced(mine, sec);
    if mine != [] {
      PricedCandles(Runs(mine, sec), sec, now);
    } else {
      NoRuns(sec);
    }
  }

  lemma PricedCandles(rs: seq<seq<Tick>>, sec: nat, now: nat)
    requires sec > 0 && rs != [] && Priced(rs)
    ensures var cs := CandlesOf(rs[..|rs| - 1], sec) + [Close(BarOf(rs[|rs| - 1], sec), now)];
      && |cs| == |rs|
      && forall i :: 0 <= i < |rs| ==> cs[i].v == Summarise(rs[i]) && cs[i].openTs == BarStart(rs[i][0], sec)
  {
    hide Bucket, Summarise, BarStart, CandlesOf;
    var init := rs[..|rs| - 1];
    assert Priced(init);
    if init == [] {
      NoCandles(sec);
    } else {
      CandleAt(init, sec, 0);
    }
    forall i | 0 <= i < |init|
      ensures CandlesOf(init, sec)[i] == CandleOf(init[i], sec)
    {
      CandleAt(init, sec, i);
    }
  }

  lemma NoCandles(sec: nat)
    requires sec > 0
    ensures CandlesOf([], sec) == []
  {
  }

  /** Flushing the builder does that for every instrument and interval. */
  lemma FlushClosesTheLastRun(ts: seq<Tick>, token: nat, i: nat, now: nat)
    requires i < |INTERVALS|
    ensures var b, key := Stream(ts), Key(token, INTERVALS[i]);
      LogOf(b.log, key) + ClosedAt(b.bars, key, now) == Flushed(Mine(ts, token), INTERVALS[i], now)
  {
    hide Bucket, BarStart, Runs, Stream, Summarise, LogOf, Mine, CandlesOf;
    StreamFollowsRuns(ts, token, i);
    var mine := Mine(ts, token);
    if mine != [] {
      var rs := Runs(mine, INTERVALS[i]);
      SummaryOpen(rs[|rs| - 1]);
    }
    hide Emitted;
  }

  /** Coarse candles are joins of groups of fine ones, and the groups are all the fine ones, the last of
      which may have been closed at another time. */
  ghost predicate AllMadeOf(coarse: seq<Candle>, fine: seq<Candle>, seen: seq<Tick>, a: nat, b: nat) {
    && a > 0 && b > 0
    && |coarse| == |Runs(seen, b)|
    && (forall x :: 0 <= x < |coarse| ==>
          Group(seen, a, b, x) != [] && coarse[x].v == JoinAll(Group(seen, a, b, x)))
    && var groups := Groups(seen, a, b, |coarse|);
       && |groups| == |fine|
       && forall y :: 0 <= y < |fine| ==> groups[y].v == fine[y].v && groups[y].openTs == fine[y].openTs
  }

  lemma FlushedCoarseJoinFine(mine: seq<Tick>, a: nat, m: nat, now: nat)
    requires a > 0 && m > 0 && a * m > 0 && AllPriced(mine)
    ensures AllMadeOf(Flushed(mine, a * m, now), Flushed(mine, a, now), mine, a, a * m)
  {
    hide Bucket, Runs, Summarise, BarStart, Flushed, Join, JoinAll, Group, Groups, Fine, CandlesOf;
    var b := a * m;
    var rs := Runs(mine, b);
    FlushCoversEveryTick(mine, b, now);
    FlushCoversEveryTick(mine, a, now);
    forall x | 0 <= x < |rs|
      ensures Group(mine, a, b, x) != [] && Summarise(rs[x]) == JoinAll(Group(mine, a, b, x))
    {
      CoarseIsJoinOfGroup(mine, a, b, x);
    }
    GroupsAreFine(mine, a, b, |rs|);
    assert rs[..|rs|] == rs;
    FineRunsNest(rs, mine, a, m);
    RunsPriced(mine, a);
    var fine := Runs(mine, a);
    CandlesOfLength(fine, a);
    forall y | 0 <= y < |fine|
      ensures CandlesOf(fine, a)[y] == CandleOf(fine[y], a)
    {
      CandleAt(fine, a, y);
    }
  }

  /** After the flush the hierarchy is complete: for every instrument and any two intervals each coarse
      candle, the last one included, is the join of its group, and every fine candle is in a group. */
  lemma FlushedCandlesAgree(ts: seq<Tick>, token: nat, i: nat, j: nat, now: nat)
    requires i < j < |INTERVALS| && AllPriced(ts)
    ensures var b, fine, coarse := Stream(ts), Key(token, INTERVALS[i]), Key(token, INTERVALS[j]);
      AllMadeOf(LogOf(b.log, coarse) + ClosedAt(b.bars, coarse, now),
        LogOf(b.log, fine) + ClosedAt(b.bars, fine, now), Mine(ts, token), INTERVALS[i], INTERVALS[j])
  {
    hide Stream, Mine, LogOf, ClosedAt, Flushed, AllMadeOf;
    IntervalsDivide(i, j);
    MineIsOneToken(ts, token);
    FlushClosesTheLastRun(ts, token, i, now);
    FlushClosesTheLastRun(ts, token, j, now);
    FlushedCoarseJoinFine(Mine(ts, token), INTERVALS[i], INTERVALS[j] / INTERVALS[i], now);
  }

  // ----------------------------------------------------------------------- what a candle tells, literally

  /** The candle belongs to the interval of the clock in which all these ticks fell: the exchange's clock, or
      the receiver's where the exchange gave no time. It tells first, highest, lowest and last price, the
      greatest volume and the last open interest. */
  ghost predicate Tells(c: Candle, r: seq<Tick>, sec: nat)
    requires sec > 0
  {
    && r != [] && c.token == r[0].token && c.interval == sec
    && c.openTs % (sec * 1_000_000_000) == 0
    && (forall i :: 0 <= i < |r| ==>
          c.openTs <= (if r[i].exchangeTs > 0 then r[i].exchangeTs else r[i].recvTs) < c.openTs + sec * 1_000_000_000)
    && c.v.open == r[0].ltp && c.v.close == r[|r| - 1].ltp && c.v.oi == r[|r| - 1].oi
    && (forall i :: 0 <= i < |r| ==> c.v.low <= r[i].ltp <= c.v.high && r[i].volume <= c.v.volume)
    && (exists i :: 0 <= i < |r| && r[i].ltp == c.v.high)
    && (exists i :: 0 <= i < |r| && r[i].ltp == c.v.low)
    && (exists i :: 0 <= i < |r| && r[i].volume == c.v.volume)
  }

  lemma TimeInBar(x: nat, n: nat)
    requires n > 0
    ensures x / n * n <= x < x / n * n + n && (x / n * n) % n == 0
  {
    assert x == x / n * n + x % n;
    ModUnique(x / n * n, n, x / n, 0);
  }

  lemma BarTells(r: seq<Tick>, sec: nat, closeTs: nat)
    requires sec > 0 && Homogeneous(r, sec)
    ensures Tells(Close(BarOf(r, sec), closeTs), r, sec)
  {
    var n := sec * SECOND;
    TimeInBar(Time(r[0]), n);
    forall i | 0 <= i < |r|
      ensures BarStart(r[0], sec) <= Time(r[i]) < BarStart(r[0], sec) + n
    {
      TimeInBar(Time(r[i]), n);
      assert Time(r[i]) / n == Time(r[0]) / n;
    }
    hide Bucket, BarStart, Homogeneous;
  }

  /** The runs that open at a positive price, in order. */
  function PricedOnly(rs: seq<seq<Tick>>): seq<seq<Tick>> {
    if rs == [] then []
    else
      var r := rs[|rs| - 1];
      PricedOnly(rs[..|rs| - 1]) + if r != [] && r[0].ltp > 0.0 then [r] else []
  }

  lemma {:induction false} CandlesTell(rs: seq<seq<Tick>>, sec: nat)
    requires sec > 0 && forall i :: 0 <= i < |rs| ==> rs[i] != [] && Homogeneous(rs[i], sec)
    ensures var cs, ps := CandlesOf(rs, sec), PricedOnly(rs);
      && |cs| == |ps|
      && forall x :: 0 <= x < |cs| ==>
           Tells(cs[x], ps[x], sec) && cs[x].closeTs == cs[x].openTs + sec * 1_000_000_000 - 1
    decreases |rs|
  {
    hide Bucket, BarStart, Summarise, Tells;
    if rs != [] {
      CandlesTell(rs[..|rs| - 1], sec);
      var r := rs[|rs| - 1];
      BarTells(r, sec, BarStart(r[0], sec) + sec * SECOND - 1);
    }
  }

  /** The cut is made by the clock, and nowhere else: ticks of a run fall into one interval, and adjacent
      runs into different ones. */
  lemma RunsAreCutByTheClock(mine: seq<Tick>, sec: nat)
    requires sec > 0
    ensures var rs, n := Runs(mine, sec), sec * 1_000_000_000;
      && Concat(rs) == mine
      && (forall x :: 0 <= x < |rs| ==> rs[x] != [])
      && (forall x, i :: 0 <= x < |rs| && 0 <= i < |rs[x]| ==>
            (if rs[x][i].exchangeTs > 0 then rs[x][i].exchangeTs else rs[x][i].recvTs) / n
            == (if rs[x][0].exchangeTs > 0 then rs[x][0].exchangeTs else rs[x][0].recvTs) / n)
      && (forall x, y :: 0 <= x < y < |rs| && y == x + 1 ==>
            (if rs[x][0].exchangeTs > 0 then rs[x][0].exchangeTs else rs[x][0].recvTs) / n
            != (if rs[y][0].exchangeTs > 0 then rs[y][0].exchangeTs else rs[y][0].recvTs) / n)
  {
    hide Runs;
    RunsAreMaximal(mine, sec);
    var rs := Runs(mine, sec);
    assert forall x :: 0 <= x < |rs| ==> Homogeneous(rs[x], sec);
  }

  /** What a builder has emitted for an instrument and interval, and what a flush adds: one candle for each run
      that opens at a positive price, each telling of its run; a completed one closes with the last
      nanosecond of its interval, the one that the flush closes at the time of the flush. */
  lemma EmittedCandlesTell(ts: seq<Tick>, token: nat, i: nat, now: nat)
    requires i < |INTERVALS| && Mine(ts, token) != []
    ensures var b, key, sec := Stream(ts), Key(token, INTERVALS[i]), INTERVALS[i];
      sec > 0 && var rs := Runs(Mine(ts, token), sec);
      var done := PricedOnly(rs[..|rs| - 1]);
      var cs, rest := LogOf(b.log, key), ClosedAt(b.bars, key, now);
      && |cs| == |done|
      && (forall x :: 0 <= x < |cs| ==>
            Tells(cs[x], done[x], sec) && cs[x].closeTs == cs[x].openTs + sec * 1_000_000_000 - 1)
      && (if rs[|rs| - 1][0].ltp > 0.0 then
            |rest| == 1 && Tells(rest[0], rs[|rs| - 1], sec) && rest[0].closeTs == now
          else rest == [])
  {
    hide Bucket, BarStart, Summarise, Tells, Stream, Runs, Mine, LogOf, CandlesOf, PricedOnly;
    StreamFollowsRuns(ts, token, i);
    var rs := Runs(Mine(ts, token), INTERVALS[i]);
    CandlesTell(rs[..|rs| - 1], INTERVALS[i]);
    BarTells(rs[|rs| - 1], INTERVALS[i], now);
    SummaryOpen(rs[|rs| - 1]);
  }

  lemma {:induction false} PartlyIntervals(b: Builder, t: Tick, k: nat)
    requires k <= |INTERVALS| && forall key :: key in b.bars ==> key.interval in {60, 300, 900, 3600}
    ensures forall key :: key in Partly(b, t, k).bars ==> key.interval in {60, 300, 900, 3600}
  {
    hide BarStart, ExtendBar, FirstBar;
    if k > 0 {
      PartlyIntervals(b, t, k - 1);
    }
  }

  lemma {:induction false} StreamIntervals(ts: seq<Tick>)
    ensures forall key :: key in Stream(ts).bars ==> key.interval in {60, 300, 900, 3600}
    decreases |ts|
  {
    hide Partly;
    if ts != [] {
      StreamIntervals(ts[..|ts| - 1]);
      PartlyIntervals(Stream(ts[..|ts| - 1]), ts[|ts| - 1], |INTERVALS|);
    }
  }

  /** Every instrument that ticked has a bar open for one minute, five, fifteen and sixty, and for nothing
      else. */
  lemma FourIntervals(ts: seq<Tick>, key: Key)
    ensures key in Stream(ts).bars <==> Mine(ts, key.token) != [] && key.interval in {60, 300, 900, 3600}
  {
    hide Stream, Mine, Runs, Emitted, LogOf;
    StreamIntervals(ts);
    for i := 0 to |INTERVALS|
      invariant forall j :: 0 <= j < i ==>
        (Key(key.token, INTERVALS[j]) in Stream(ts).bars <==> Mine(ts, key.token) != [])
    {
      StreamFollowsRuns(ts, key.token, i);
    }
    assert INTERVALS[0] == 60 && INTERVALS[1] == 300 && INTERVALS[2] == 900 && INTERVALS[3] == 3600;
  }

  // ---------------------------------------------------------------------------------- the builder

  class CandleBuilder {
    var openBars: map<Key, Bar>
    ghost var emitted: seq<Candle>

    ghost function View(): Builder
      reads this
    {
      Builder(openBars, emitted)
    }

    constructor ()
      ensures View() == NEW
    {
      openBars, emitted := map[], [];
    }

    /** The callbacks are not modelled; that they are called is. */
    method EmitCandle(bar: Bar, closeTs: nat)
      modifies this`emitted
      ensures emitted == old(emitted) + [Close(bar, closeTs)]
    {
      emitted := emitted + [Candle(bar.token, bar.start, closeTs, bar.interval, bar.v)];
    }

    method UpdateOneBar(tick: Tick, sec: nat)
      requires sec > 0
      modifies this
      ensures View() == UpdateBar(old(View()), tick, sec)
    {
      var ts := if tick.exchangeTs > 0 then tick.exchangeTs else tick.recvTs;
      var intervalNs := sec * SECOND;
      var barStart := ts / intervalNs * intervalNs;
      assert barStart == BarStart(tick, sec);
      hide BarStart;
      var key := Key(tick.token, sec);
      if key !in openBars || openBars[key].start != barStart {
        if key in openBars && openBars[key].v.open > 0.0 {
          EmitCandle(openBars[key], openBars[key].start + intervalNs - 1);
        }
        openBars := openBars[key := Bar(tick.token, barStart, sec,
          Summary(tick.ltp, tick.ltp, tick.ltp, tick.ltp, tick.volume, tick.oi))];
        return;
      }
      var v := openBars[key].v;
      if tick.ltp > v.high {
        v := v.(high := tick.ltp);
      }
      if tick.ltp < v.low {
        v := v.(low := tick.ltp);
      }
      v := v.(close := tick.ltp);
      if tick.volume > v.volume {
        v := v.(volume := tick.volume);
      }
      v := v.(oi := tick.oi);
      openBars := openBars[key := openBars[key].(v := v)];
    }

    method OnTick(tick: Tick)
      modifies this
      ensures View() == Ticked(old(View()), tick)
      ensures old(WellKeyed(View())) ==> WellKeyed(View())
    {
      if WellKeyed(View()) {
        PartlyKeepsKeys(View(), tick, |INTERVALS|);
      }
      for k := 0 to |INTERVALS|
        invariant View() == Partly(old(View()), tick, k)
      {
        UpdateOneBar(tick, INTERVALS[k]);
      }
    }

    /** Closes every open bar, in whatever order the map yields them; with no time given, at the time
        of the clock. A builder that is new or was fed by `OnTick` has its bars well keyed. */
    method FlushAll(ts: nat, clock: nat)
      requires WellKeyed(View())
      modifies this
      ensures openBars == map[]
      ensures forall key ::
        LogOf(emitted, key) == LogOf(old(emitted), key) + ClosedAt(old(openBars), key, if ts != 0 then ts else clock)
    {
      hide LogOf;
      var now := if ts != 0 then ts else clock;
      var rest := openBars;
      while rest != map[]
        invariant forall key :: key in rest ==> key in openBars && rest[key] == openBars[key]
        invariant openBars == old(openBars)
        invariant forall key ::
          LogOf(emitted, key) == LogOf(old(emitted), key) + (if key in rest then [] else ClosedAt(openBars, key, now))
        decreases |rest|
      {
        var k :| k in rest;
        if rest[k].v.open > 0.0 {
          forall key
            ensures LogOf(emitted + [Close(rest[k], now)], key) ==
              if key == k then LogOf(emitted, key) + [Close(rest[k], now)] else LogOf(emitted, key)
          {
            LogAppend(emitted, Close(rest[k], now), key);
          }
          EmitCandle(rest[k], now);
        }
        rest := rest - {k};
      }
      openBars := map[];
    }
  }
}
