/** Candles of different intervals agree: where one interval divides another, each coarse candle is
    the summary of exactly the fine candles emitted over its ticks. */
module CandleHierarchy {
  import opened Bits
  import opened Records
  import opened Candles

  lemma Regroup(q: nat, r: nat, p: nat, m: nat)
    requires p > 0 && m > 0 && r < m
    ensures (q * m + r) * p == q * (p * m) + r * p
    ensures r * p + p <= p * m
  {
    assert (q * m + r) * p == q * m * p + r * p;
    assert q * m * p == q * (m * p) == q * (p * m);
    assert (m - r) * p == m * p - r * p;
    MulAtLeast(m - r, p);
  }

  /** Dividing in two steps. */
  lemma DivideTwice(x: nat, p: nat, m: nat)
    requires p > 0 && m > 0
    ensures p * m > 0 && x / (p * m) == x / p / m
  {
    var q := x / p;
    Regroup(q / m, q % m, p, m);
    ModUnique(x, p * m, q / m, q % m * p + x % p);
  }

  /** Ticks in one fine bucket are in one coarse bucket. */
  lemma BucketsNest(t: Tick, u: Tick, a: nat, m: nat)
    requires a > 0 && m > 0
    ensures a * m > 0
    ensures Bucket(t, a) == Bucket(u, a) ==> Bucket(t, a * m) == Bucket(u, a * m)
  {
    DivideTwice(Time(t), a * SECOND, m);
    DivideTwice(Time(u), a * SECOND, m);
    assert a * m * SECOND == a * SECOND * m;
  }

  /** Each coarse run cut into its fine runs, one after the other. */
  function Fine(rs: seq<seq<Tick>>, a: nat): (fs: seq<seq<Tick>>)
    requires a > 0
    ensures forall i :: 0 <= i < |fs| ==> fs[i] != []
  {
    if rs == [] then [] else Fine(rs[..|rs| - 1], a) + Runs(rs[|rs| - 1], a)
  }

  /** Cutting coarsely and then finely is cutting finely. */
  lemma {:induction false} FineRunsNest(rs: seq<seq<Tick>>, ts: seq<Tick>, a: nat, m: nat)
    requires a > 0 && m > 0 && a * m > 0 && MaximalRuns(rs, ts, a * m)
    ensures Fine(rs, a) == Runs(ts, a)
    decreases |rs|
  {
    hide Bucket, Runs;
    if rs == [] {
      NoRuns(a);
    } else {
      var init, r := rs[..|rs| - 1], rs[|rs| - 1];
      FineRunsNest(init, Concat(init), a, m);
      BoundaryDiffers(rs, a, m);
      RunsSplit(Concat(init), r, a);
    }
  }

  /** Between coarse runs the fine bucket changes too. */
  lemma BoundaryDiffers(rs: seq<seq<Tick>>, a: nat, m: nat)
    requires a > 0 && m > 0 && a * m > 0 && rs != [] && MaximalRuns(rs, Concat(rs), a * m)
    ensures rs[|rs| - 1] != []
    ensures var c := Concat(rs[..|rs| - 1]);
      c != [] ==> Bucket(c[|c| - 1], a) != Bucket(rs[|rs| - 1][0], a)
  {
    hide Bucket;
    var init, r := rs[..|rs| - 1], rs[|rs| - 1];
    if init != [] {
      var before := init[|init| - 1];
      assert Concat(init) == Concat(init[..|init| - 1]) + before;
      assert before == rs[|rs| - 2] && before != [];
      BucketsNest(before[|before| - 1], r[0], a, m);
    }
  }

  /** The summary of candles that follow one another. */
  function JoinAll(cs: seq<Candle>): Summary
    requires cs != []
  {
    if |cs| == 1 then cs[0].v else Join(JoinAll(cs[..|cs| - 1]), cs[|cs| - 1].v)
  }

  /** Every run opens at a positive price. */
  predicate Priced(rs: seq<seq<Tick>>) {
    forall i :: 0 <= i < |rs| ==> rs[i] != [] && rs[i][0].ltp > 0.0
  }

  lemma {:induction false} JoinOfRuns(rs: seq<seq<Tick>>, a: nat)
    requires a > 0 && rs != [] && Priced(rs)
    ensures |CandlesOf(rs, a)| == |rs| && Concat(rs) != []
    ensures Summarise(Concat(rs)) == JoinAll(CandlesOf(rs, a))
    decreases |rs|
  {
    hide Bucket, Summarise, Join;
    var init, r := rs[..|rs| - 1], rs[|rs| - 1];
    if init == [] {
      assert Concat(rs) == r;
      assert CandlesOf(rs, a) == [CandleOf(r, a)];
    } else {
      JoinOfRuns(init, a);
      SummariseConcat(Concat(init), r);
      var cs := CandlesOf(rs, a);
      assert cs[..|cs| - 1] == CandlesOf(init, a);
    }
  }

  lemma {:induction false} CandlesOfConcat(xs: seq<seq<Tick>>, ys: seq<seq<Tick>>, a: nat)
    requires a > 0 && (forall i :: 0 <= i < |xs| ==> xs[i] != []) && (forall i :: 0 <= i < |ys| ==> ys[i] != [])
    ensures CandlesOf(xs + ys, a) == CandlesOf(xs, a) + CandlesOf(ys, a)
    decreases |ys|
  {
    hide CandleOf;
    if ys == [] {
      assert xs + ys == xs;
    } else {
      assert (xs + ys)[..|xs + ys| - 1] == xs + ys[..|ys| - 1];
      CandlesOfConcat(xs, ys[..|ys| - 1], a);
    }
  }

  predicate AllPriced(ts: seq<Tick>) {
    forall i :: 0 <= i < |ts| ==> ts[i].ltp > 0.0
  }

  lemma {:induction false} ConcatElement(rs: seq<seq<Tick>>, i: nat)
    requires i < |rs|
    ensures forall t :: t in rs[i] ==> t in Concat(rs)
    decreases |rs|
  {
    if i < |rs| - 1 {
      ConcatElement(rs[..|rs| - 1], i);
    }
  }

  lemma RunsPriced(ts: seq<Tick>, sec: nat)
    requires sec > 0 && AllPriced(ts)
    ensures Priced(Runs(ts, sec))
    ensures forall i :: 0 <= i < |Runs(ts, sec)| ==> AllPriced(Runs(ts, sec)[i])
  {
    hide Bucket;
    RunsAreMaximal(ts, sec);
    var rs := Runs(ts, sec);
    forall i | 0 <= i < |rs|
      ensures AllPriced(rs[i]) && rs[i] != [] && rs[i][0].ltp > 0.0
    {
      ConcatElement(rs, i);
      assert forall j :: 0 <= j < |rs[i]| ==> rs[i][j] in ts;
    }
  }

  /** The candles emitted so far: those of all runs but the last, which is still open. */
  function Emitted(ts: seq<Tick>, sec: nat): seq<Candle>
    requires sec > 0
  {
    if ts == [] then [] else CandlesOf(Runs(ts, sec)[..|Runs(ts, sec)| - 1], sec)
  }

  /** The fine candles that belong to the j-th coarse run. */
  function Group(coarse: seq<Tick>, a: nat, b: nat, j: nat): seq<Candle>
    requires a > 0 && b > 0 && j < |Runs(coarse, b)|
  {
    CandlesOf(Runs(Runs(coarse, b)[j], a), a)
  }

  function Groups(coarse: seq<Tick>, a: nat, b: nat, n: nat): seq<Candle>
    requires a > 0 && b > 0 && n <= |Runs(coarse, b)|
  {
    if n == 0 then [] else Groups(coarse, a, b, n - 1) + Group(coarse, a, b, n - 1)
  }

  lemma {:induction false} GroupsAreFine(coarse: seq<Tick>, a: nat, b: nat, n: nat)
    requires a > 0 && b > 0 && n <= |Runs(coarse, b)|
    ensures Groups(coarse, a, b, n) == CandlesOf(Fine(Runs(coarse, b)[..n], a), a)
    decreases n
  {
    hide Bucket, Runs;
    var rs := Runs(coarse, b);
    if n > 0 {
      GroupsAreFine(coarse, a, b, n - 1);
      assert rs[..n][..n - 1] == rs[..n - 1];
      CandlesOfConcat(Fine(rs[..n - 1], a), Runs(rs[n - 1], a), a);
    }
  }

  /** A coarse candle is the join of its group. */
  lemma CoarseIsJoinOfGroup(coarse: seq<Tick>, a: nat, b: nat, j: nat)
    requires a > 0 && b > 0 && AllPriced(coarse) && j < |Runs(coarse, b)|
    ensures Group(coarse, a, b, j) != []
    ensures Summarise(Runs(coarse, b)[j]) == JoinAll(Group(coarse, a, b, j))
  {
    hide Bucket, Summarise, Join;
    RunsPriced(coarse, b);
    var r := Runs(coarse, b)[j];
    RunsPriced(r, a);
    RunsAreMaximal(r, a);
    JoinOfRuns(Runs(r, a), a);
  }

  lemma {:induction false} CandlesOfLength(rs: seq<seq<Tick>>, sec: nat)
    requires sec > 0 && Priced(rs)
    ensures |CandlesOf(rs, sec)| == |rs|
    decreases |rs|
  {
    hide Bucket;
    if rs != [] {
      CandlesOfLength(rs[..|rs| - 1], sec);
    }
  }

  lemma {:induction false} CandleAt(rs: seq<seq<Tick>>, sec: nat, j: nat)
    requires sec > 0 && Priced(rs) && j < |rs|
    ensures |CandlesOf(rs, sec)| == |rs| && CandlesOf(rs, sec)[j] == CandleOf(rs[j], sec)
    decreases |rs|
  {
    hide Bucket;
    CandlesOfLength(rs[..|rs| - 1], sec);
    if j < |rs| - 1 {
      CandleAt(rs[..|rs| - 1], sec, j);
    }
  }

  /** Where the bucket changes, everything before is complete. */
  lemma DoneIsEmitted(done: seq<Tick>, rest: seq<Tick>, a: nat)
    requires a > 0 && rest != []
    requires done != [] ==> Bucket(done[|done| - 1], a) != Bucket(rest[0], a)
    ensures CandlesOf(Runs(done, a), a) <= Emitted(done + rest, a)
  {
    hide Bucket, Runs, BarOf, CandleOf, CandlesOf;
    RunsSplit(done, rest, a);
    var fine, open := Runs(done, a), Runs(rest, a);
    assert (fine + open)[..|fine + open| - 1] == fine + open[..|open| - 1];
    CandlesOfConcat(fine, open[..|open| - 1], a);
  }

  /** The fine candles of all completed coarse runs have been emitted, and come first. */
  lemma GroupsComeFirst(coarse: seq<Tick>, more: seq<Tick>, a: nat, m: nat)
    requires a > 0 && m > 0 && a * m > 0 && coarse != []
    ensures var n := |Runs(coarse, a * m)| - 1;
      n >= 0 && Groups(coarse, a, a * m, n) <= Emitted(coarse + more, a)
  {
    hide Bucket, Runs, CandlesOf, Fine, Groups, Emitted;
    RunsAreMaximal(coarse, a * m);
    var rs := Runs(coarse, a * m);
    var n := |rs| - 1;
    GroupsAreFine(coarse, a, a * m, n);
    CompletedRuns(rs, coarse, a * m);
    FineRunsNest(rs[..n], Concat(rs[..n]), a, m);
    BoundaryDiffers(rs, a, m);
    assert coarse + more == Concat(rs[..n]) + (rs[n] + more);
    DoneIsEmitted(Concat(rs[..n]), rs[n] + more, a);
  }

  lemma CompletedRuns(rs: seq<seq<Tick>>, ts: seq<Tick>, sec: nat)
    requires sec > 0 && rs != [] && MaximalRuns(rs, ts, sec)
    ensures MaximalRuns(rs[..|rs| - 1], Concat(rs[..|rs| - 1]), sec)
    ensures ts == Concat(rs[..|rs| - 1]) + rs[|rs| - 1]
  {
    hide Bucket;
  }

  /** The coarse candles emitted for the ticks `seen` are joins of groups of fine candles, and the groups
      follow one another from the first fine candle on. */
  ghost predicate MadeOf(coarse: seq<Candle>, fine: seq<Candle>, seen: seq<Tick>, a: nat, b: nat) {
    && a > 0 && b > 0
    && |coarse| <= |Runs(seen, b)|
    && Groups(seen, a, b, |coarse|) <= fine
    && forall x :: 0 <= x < |coarse| ==> Group(seen, a, b, x) != [] && coarse[x].v == JoinAll(Group(seen, a, b, x))
  }

  /** At any moment, if the coarse interval has seen the ticks `coarse` of an instrument and the fine
      one has seen these and possibly `more`: every coarse candle emitted is the join of a group of
      fine candles, and the groups, one after the other, are the beginning of the fine candles
      emitted. No fine candle is missing from a coarse one, counted twice, or emitted too late. */
  lemma CoarseCandlesJoinFineOnes(coarse: seq<Tick>, more: seq<Tick>, a: nat, m: nat)
    requires a > 0 && m > 0 && a * m > 0 && AllPriced(coarse)
    ensures MadeOf(Emitted(coarse, a * m), Emitted(coarse + more, a), coarse, a, a * m)
    ensures coarse != [] ==> |Emitted(coarse, a * m)| == |Runs(coarse, a * m)| - 1
  {
    hide Bucket, Runs, Summarise, Join, JoinAll, Group, Groups;
    var b := a * m;
    if coarse == [] {
      NoGroups(a, b);
      return;
    }
    GroupsComeFirst(coarse, more, a, m);
    RunsPriced(coarse, b);
    var rs := Runs(coarse, b);
    var n := |rs| - 1;
    assert Priced(rs[..n]);
    CandlesOfLength(rs[..n], b);
    forall j | 0 <= j < n
      ensures Group(coarse, a, b, j) != [] && Emitted(coarse, b)[j].v == JoinAll(Group(coarse, a, b, j))
    {
      CandleAt(rs[..n], b, j);
      CoarseIsJoinOfGroup(coarse, a, b, j);
    }
  }

  lemma NoGroups(a: nat, b: nat)
    requires a > 0 && b > 0
    ensures Groups([], a, b, 0) == []
  {
  }
}
