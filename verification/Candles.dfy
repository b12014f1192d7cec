/** What candles are, said without streaming: the ticks of one instrument fall into maximal runs that
    share a time bucket, and a candle summarises a run. */
module Candles {
  import opened Records

  const SECOND: nat := 1_000_000_000

  /** Open, high, low and close price, volume and open interest. */
  datatype Summary = Summary(open: real, high: real, low: real, close: real, volume: nat, oi: nat)

  datatype Bar = Bar(token: nat, start: nat, interval: nat, v: Summary)

  datatype Candle = Candle(token: nat, openTs: nat, closeTs: nat, interval: nat, v: Summary)

  function Time(t: Tick): nat {
    if t.exchangeTs > 0 then t.exchangeTs else t.recvTs
  }

  /** The number of the time bucket of a tick, for an interval in seconds. */
  function Bucket(t: Tick, sec: nat): nat
    requires sec > 0
  {
    Time(t) / (sec * SECOND)
  }

  function BarStart(t: Tick, sec: nat): nat
    requires sec > 0
  {
    Bucket(t, sec) * (sec * SECOND)
  }

  // ----------------------------------------------------------------------------------------- runs

  function Concat<T>(ss: seq<seq<T>>): seq<T> {
    if ss == [] then [] else Concat(ss[..|ss| - 1]) + ss[|ss| - 1]
  }

  /** All in one bucket, and not empty. */
  predicate Homogeneous(r: seq<Tick>, sec: nat)
    requires sec > 0
  {
    r != [] && forall i :: 0 <= i < |r| ==> Bucket(r[i], sec) == Bucket(r[0], sec)
  }

  /** The ticks cut wherever the bucket changes, and nowhere else. */
  ghost predicate MaximalRuns(rs: seq<seq<Tick>>, ts: seq<Tick>, sec: nat)
    requires sec > 0
  {
    && Concat(rs) == ts
    && (forall i :: 0 <= i < |rs| ==> Homogeneous(rs[i], sec))
    && (forall i, j :: 0 <= i < j < |rs| && j == i + 1 ==> Bucket(rs[i][0], sec) != Bucket(rs[j][0], sec))
  }

  /** One more tick goes to the last run or opens a new one. */
  function Extend(rs: seq<seq<Tick>>, t: Tick, sec: nat): seq<seq<Tick>>
    requires sec > 0 && forall i :: 0 <= i < |rs| ==> rs[i] != []
  {
    if rs != [] && Bucket(rs[|rs| - 1][0], sec) == Bucket(t, sec) then rs[..|rs| - 1] + [rs[|rs| - 1] + [t]]
    else rs + [[t]]
  }

  function Runs(ts: seq<Tick>, sec: nat): (rs: seq<seq<Tick>>)
    requires sec > 0
    ensures ts != [] ==> rs != []
    ensures forall i :: 0 <= i < |rs| ==> Homogeneous(rs[i], sec)
  {
    if ts == [] then [] else Extend(Runs(ts[..|ts| - 1], sec), ts[|ts| - 1], sec)
  }

  lemma ConcatAppend<T>(ss: seq<seq<T>>, s: seq<T>)
    ensures Concat(ss + [s]) == Concat(ss) + s
  {
    assert (ss + [s])[..|ss|] == ss;
  }

  lemma RunsAppend(ts: seq<Tick>, t: Tick, sec: nat)
    requires sec > 0
    ensures Runs(ts + [t], sec) == Extend(Runs(ts, sec), t, sec)
  {
    hide Bucket, Extend;
    assert (ts + [t])[..|ts + [t]| - 1] == ts;
  }

  lemma {:induction false} RunsAreMaximal(ts: seq<Tick>, sec: nat)
    requires sec > 0
    ensures MaximalRuns(Runs(ts, sec), ts, sec)
    decreases |ts|
  {
    hide Bucket, Runs;
    if ts == [] {
      NoRuns(sec);
    } else {
      var init, t := ts[..|ts| - 1], ts[|ts| - 1];
      assert ts == init + [t];
      RunsAreMaximal(init, sec);
      RunsAppend(init, t, sec);
      MaximalAppend(Runs(init, sec), init, t, sec);
    }
  }

  lemma NoRuns(sec: nat)
    requires sec > 0
    ensures Runs([], sec) == []
  {
  }

  lemma MaximalAppend(rs: seq<seq<Tick>>, ts: seq<Tick>, t: Tick, sec: nat)
    requires sec > 0 && MaximalRuns(rs, ts, sec)
    ensures MaximalRuns(Extend(rs, t, sec), ts + [t], sec)
  {
    hide Bucket;
    if rs != [] && Bucket(rs[|rs| - 1][0], sec) == Bucket(t, sec) {
      var last := rs[|rs| - 1];
      ConcatAppend(rs[..|rs| - 1], last + [t]);
      assert Concat(rs) == Concat(rs[..|rs| - 1]) + last;
    } else {
      ConcatAppend(rs, [t]);
    }
  }

  /** Where the bucket changes, the runs of the two sides stand side by side. */
  lemma {:induction false} RunsSplit(x: seq<Tick>, y: seq<Tick>, sec: nat)
    requires sec > 0 && y != []
    requires x != [] ==> Bucket(x[|x| - 1], sec) != Bucket(y[0], sec)
    ensures Runs(x + y, sec) == Runs(x, sec) + Runs(y, sec)
    decreases |y|
  {
    hide Bucket, Runs;
    var init, t := y[..|y| - 1], y[|y| - 1];
    assert y == init + [t] && x + y == (x + init) + [t];
    RunsAppend(x + init, t, sec);
    RunsAppend(init, t, sec);
    NoRuns(sec);
    if init == [] {
      assert x + init == x;
      if x != [] {
        LastRun(x, sec);
      }
    } else {
      RunsSplit(x, init, sec);
      ExtendSecond(Runs(x, sec), Runs(init, sec), t, sec);
    }
  }

  lemma ExtendSecond(rx: seq<seq<Tick>>, ry: seq<seq<Tick>>, t: Tick, sec: nat)
    requires sec > 0 && ry != []
    requires (forall i :: 0 <= i < |rx| ==> rx[i] != []) && (forall i :: 0 <= i < |ry| ==> ry[i] != [])
    ensures Extend(rx + ry, t, sec) == rx + Extend(ry, t, sec)
  {
    hide Bucket;
    assert (rx + ry)[|rx + ry| - 1] == ry[|ry| - 1];
    assert (rx + ry)[..|rx + ry| - 1] == rx + ry[..|ry| - 1];
  }

  /** The last run has the bucket of the last tick. */
  lemma LastRun(ts: seq<Tick>, sec: nat)
    requires sec > 0 && ts != []
    ensures var rs := Runs(ts, sec); Bucket(rs[|rs| - 1][0], sec) == Bucket(ts[|ts| - 1], sec)
  {
  }

  lemma {:induction false} RunsOfHomogeneous(r: seq<Tick>, sec: nat)
    requires sec > 0 && Homogeneous(r, sec)
    ensures Runs(r, sec) == [r]
    decreases |r|
  {
    hide Bucket, Runs;
    var init, t := r[..|r| - 1], r[|r| - 1];
    assert r == init + [t];
    RunsAppend(init, t, sec);
    if init == [] {
      NoRuns(sec);
    } else {
      RunsOfHomogeneous(init, sec);
    }
  }

  /** There is only one way to cut ticks into maximal runs. */
  lemma {:induction false} MaximalRunsAreUnique(rs: seq<seq<Tick>>, ts: seq<Tick>, sec: nat)
    requires sec > 0 && MaximalRuns(rs, ts, sec)
    ensures rs == Runs(ts, sec)
    decreases |rs|
  {
    hide Bucket, Runs, Homogeneous;
    if rs == [] {
      NoRuns(sec);
    } else {
      var init, r := rs[..|rs| - 1], rs[|rs| - 1];
      LastBoundary(rs, ts, sec);
      MaximalRunsAreUnique(init, Concat(init), sec);
      RunsOfHomogeneous(r, sec);
      RunsSplit(Concat(init), r, sec);
    }
  }

  /** Without the last run the others are maximal, and the bucket changes at the cut. */
  lemma LastBoundary(rs: seq<seq<Tick>>, ts: seq<Tick>, sec: nat)
    requires sec > 0 && rs != [] && MaximalRuns(rs, ts, sec)
    ensures rs[|rs| - 1] != []
    ensures var c, r := Concat(rs[..|rs| - 1]), rs[|rs| - 1];
      && MaximalRuns(rs[..|rs| - 1], c, sec)
      && ts == c + r
      && (c != [] ==> Bucket(c[|c| - 1], sec) != Bucket(r[0], sec))
  {
    hide Bucket;
    var init := rs[..|rs| - 1];
    if init != [] {
      var before := init[|init| - 1];
      assert before == rs[|rs| - 2] && before != [];
      assert Concat(init) == Concat(init[..|init| - 1]) + before;
    }
  }

  // ------------------------------------------------------------------------------------- summaries

  function Highest(r: seq<Tick>): (h: real)
    requires r != []
    ensures forall i :: 0 <= i < |r| ==> r[i].ltp <= h
    ensures exists i :: 0 <= i < |r| && r[i].ltp == h
  {
    if |r| == 1 then r[0].ltp
    else
      var h := Highest(r[1..]);
      if r[0].ltp >= h then r[0].ltp else h
  }

  function Lowest(r: seq<Tick>): (l: real)
    requires r != []
    ensures forall i :: 0 <= i < |r| ==> l <= r[i].ltp
    ensures exists i :: 0 <= i < |r| && r[i].ltp == l
  {
    if |r| == 1 then r[0].ltp
    else
      var l := Lowest(r[1..]);
      if r[0].ltp <= l then r[0].ltp else l
  }

  function Volume(r: seq<Tick>): (v: nat)
    requires r != []
    ensures forall i :: 0 <= i < |r| ==> r[i].volume <= v
    ensures exists i :: 0 <= i < |r| && r[i].volume == v
  {
    if |r| == 1 then r[0].volume
    else
      var v := Volume(r[1..]);
      if r[0].volume >= v then r[0].volume else v
  }

  /** First price, highest, lowest and last price, greatest volume, last open interest. */
  function Summarise(r: seq<Tick>): Summary
    requires r != []
  {
    Summary(r[0].ltp, Highest(r), Lowest(r), r[|r| - 1].ltp, Volume(r), r[|r| - 1].oi)
  }

  function BarOf(r: seq<Tick>, sec: nat): Bar
    requires sec > 0 && r != []
  {
    Bar(r[0].token, BarStart(r[0], sec), sec, Summarise(r))
  }

  /** The candle of a bar that is closed at `closeTs`. */
  function Close(b: Bar, closeTs: nat): Candle {
    Candle(b.token, b.start, closeTs, b.interval, b.v)
  }

  /** The candle of a completed run: it closes with the last nanosecond of its bucket. */
  function CandleOf(r: seq<Tick>, sec: nat): Candle
    requires sec > 0 && r != []
  {
    Close(BarOf(r, sec), BarStart(r[0], sec) + sec * SECOND - 1)
  }

  /** A run that opens at no positive price yields no candle. */
  function CandlesOf(rs: seq<seq<Tick>>, sec: nat): seq<Candle>
    requires sec > 0 && forall i :: 0 <= i < |rs| ==> rs[i] != []
  {
    if rs == [] then []
    else
      CandlesOf(rs[..|rs| - 1], sec)
      + (if rs[|rs| - 1][0].ltp > 0.0 then [CandleOf(rs[|rs| - 1], sec)] else [])
  }

  /** Two summaries of adjacent stretches as one. */
  function Join(a: Summary, b: Summary): Summary {
    Summary(a.open, if a.high >= b.high then a.high else b.high, if a.low <= b.low then a.low else b.low,
            b.close, if a.volume >= b.volume then a.volume else b.volume, b.oi)
  }

  lemma SummariseConcat(x: seq<Tick>, y: seq<Tick>)
    requires x != [] && y != []
    ensures Summarise(x + y) == Join(Summarise(x), Summarise(y))
  {
    hide Highest, Lowest, Volume;
    HighestOfConcat(x, y);
    LowestOfConcat(x, y);
    VolumeOfConcat(x, y);
  }

  lemma HighestOfConcat(x: seq<Tick>, y: seq<Tick>)
    requires x != [] && y != []
    ensures Highest(x + y) == if Highest(x) >= Highest(y) then Highest(x) else Highest(y)
  {
    var z := x + y;
    var i :| 0 <= i < |z| && z[i].ltp == Highest(z);
    var j :| 0 <= j < |x| && x[j].ltp == Highest(x);
    var k :| 0 <= k < |y| && y[k].ltp == Highest(y);
    assert z[j] == x[j] && z[|x| + k] == y[k];
    assert if i < |x| then z[i] == x[i] else z[i] == y[i - |x|];
  }

  lemma LowestOfConcat(x: seq<Tick>, y: seq<Tick>)
    requires x != [] && y != []
    ensures Lowest(x + y) == if Lowest(x) <= Lowest(y) then Lowest(x) else Lowest(y)
  {
    var z := x + y;
    var i :| 0 <= i < |z| && z[i].ltp == Lowest(z);
    var j :| 0 <= j < |x| && x[j].ltp == Lowest(x);
    var k :| 0 <= k < |y| && y[k].ltp == Lowest(y);
    assert z[j] == x[j] && z[|x| + k] == y[k];
    assert if i < |x| then z[i] == x[i] else z[i] == y[i - |x|];
  }

  lemma VolumeOfConcat(x: seq<Tick>, y: seq<Tick>)
    requires x != [] && y != []
    ensures Volume(x + y) == if Volume(x) >= Volume(y) then Volume(x) else Volume(y)
  {
    var z := x + y;
    var i :| 0 <= i < |z| && z[i].volume == Volume(z);
    var j :| 0 <= j < |x| && x[j].volume == Volume(x);
    var k :| 0 <= k < |y| && y[k].volume == Volume(y);
    assert z[j] == x[j] && z[|x| + k] == y[k];
    assert if i < |x| then z[i] == x[i] else z[i] == y[i - |x|];
  }
}
