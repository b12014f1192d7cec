/** Positions, cash and profit. `Settle` is the branch structure of `process_fill` on one position;
    the class below does the same in place. */
module Portfolio {
  import opened Records
  import opened MapSum
  import opened SpscQueue

  datatype Position = Position(
    token: nat, strategy: string, quantity: int, avgPrice: real, currentPrice: real,
    realizedPnl: real, unrealizedPnl: real)
  {
    /** Market value; the position counts the same long or short. */
    function Value(): real { Abs(quantity) as real * currentPrice }
  }

  const NO_POSITION := Position(0, "", 0, 0.0, 0.0, 0.0, 0.0)

  datatype Snapshot = Snapshot(
    positions: map<nat, Position>, totalRealized: real, totalUnrealized: real,
    availableCapital: real, ts: nat)
  {
    function GetPosition(token: nat): Position {
      if token in positions then positions[token] else NO_POSITION
    }
  }

  function Empty(capital: real): Snapshot { Snapshot(map[], 0.0, 0.0, capital, 0) }

  /** The position a fill is applied to: created on first use, and then labelled with the
      instrument and the strategy of the fill. */
  function Opened(s: Snapshot, f: Fill): Position {
    var p := s.GetPosition(f.token);
    if p.token == 0 then p.(token := f.token, strategy := f.strategy) else p
  }

  predicate Increases(q: int, d: int) { (d > 0 && q > 0) || (d < 0 && q < 0) }

  /** The profit per unit closed, with the sign of the side of the fill. */
  function Gain(p: Position, f: Fill): real {
    if f.side.SELL? then f.price - p.avgPrice else p.avgPrice - f.price
  }

  /** The profit that the reducing branch books. */
  function Booked(p: Position, f: Fill): real {
    if p.quantity == 0 || Increases(p.quantity, f.Delta()) then 0.0
    else
      Min(Abs(f.Delta()), Abs(p.quantity)) as real * Gain(p, f)
  }

  /** What the enlarged position has cost. */
  function TotalValue(p: Position, f: Fill): real {
    Abs(p.quantity) as real * p.avgPrice + Abs(f.Delta()) as real * f.price
  }

  function Settle(p: Position, f: Fill): Position {
    var q := p.quantity + f.Delta();
    if p.quantity == 0 then
      p.(quantity := q, avgPrice := f.price)
    else if Increases(p.quantity, f.Delta()) then
      p.(quantity := q,
         avgPrice := TotalValue(p, f) / (Abs(q) as real))
    else
      p.(quantity := q,
         avgPrice := if q == 0 then 0.0 else p.avgPrice,
         realizedPnl := p.realizedPnl + Booked(p, f))
  }

  function Apply(s: Snapshot, f: Fill): Snapshot {
    var p := Opened(s, f);
    s.(positions := s.positions[f.token := Settle(p, f)],
       totalRealized := s.totalRealized + Booked(p, f),
       availableCapital := s.availableCapital - f.Delta() as real * f.price,
       ts := f.ts)
  }

  function ApplyAll(s: Snapshot, fs: seq<Fill>): Snapshot {
    if fs == [] then s else Apply(ApplyAll(s, fs[..|fs| - 1]), fs[|fs| - 1])
  }

  // ------------------------------------------------------------------------ conservation of cash

  function BookValue(p: Position): real { p.quantity as real * p.avgPrice }

  function Realized(p: Position): real { p.realizedPnl }

  function Unrealized(p: Position): real { p.unrealizedPnl }

  /** Cash, plus positions at cost, minus profit taken: what a sound ledger never changes. */
  ghost function Ledger(s: Snapshot): real {
    s.availableCapital + Sum(s.positions, BookValue) - s.totalRealized
  }

  /** The fill takes a position through zero to the other side. */
  predicate Crosses(p: Position, f: Fill) {
    var q := p.quantity + f.Delta();
    (p.quantity > 0 && q < 0) || (p.quantity < 0 && q > 0)
  }

  /** By how much a fill breaks the ledger. A crossing fill leaves the rest of the position at the
      old average price; a reducing fill of negative quantity books the profit of the wrong side. */
  function Drift(p: Position, f: Fill): real {
    (if Crosses(p, f) then (p.quantity + f.Delta()) as real * (f.price - p.avgPrice) else 0.0)
    + (if f.quantity < 0 then 2.0 * Booked(p, f) else 0.0)
  }

  function TotalDrift(s: Snapshot, fs: seq<Fill>): real {
    if fs == [] then 0.0
    else
      var before := ApplyAll(s, fs[..|fs| - 1]);
      TotalDrift(s, fs[..|fs| - 1]) + Drift(Opened(before, fs[|fs| - 1]), fs[|fs| - 1])
  }

  lemma SettleDrift(p: Position, f: Fill)
    ensures BookValue(Settle(p, f)) - f.Delta() as real * f.price - Booked(p, f) == BookValue(p) - Drift(p, f)
  {
    var q, d := p.quantity, f.Delta();
    if q == 0 {
    } else if Increases(q, d) {
      AverageTimesQuantity(q, d, p.avgPrice, f.price);
    } else {
      var a, b := q as real, d as real;
      if q + d == 0 {
        assert b == -a;
      }
    }
  }

  lemma AverageTimesQuantity(q: int, d: int, avg: real, price: real)
    requires Increases(q, d)
    ensures (q + d) as real * ((Abs(q) as real * avg + Abs(d) as real * price) / (Abs(q + d) as real))
         == q as real * avg + d as real * price
  {
    var n := Abs(q + d) as real;
    var v := Abs(q) as real * avg + Abs(d) as real * price;
    assert n * (v / n) == v;
    if q < 0 {
      assert (q + d) as real * (v / n) == -(n * (v / n));
    }
  }

  lemma ApplyLedger(s: Snapshot, f: Fill)
    ensures Ledger(Apply(s, f)) == Ledger(s) - Drift(Opened(s, f), f)
  {
    hide Settle, Drift, Booked;
    var p := Opened(s, f);
    SumUpdate(s.positions, BookValue, f.token, Settle(p, f));
    SettleDrift(p, f);
    assert BookValue(p) == At(s.positions, BookValue, f.token);
  }

  /** After any fills at all, the ledger has moved by exactly the drift of those fills. */
  lemma {:induction false} LedgerMovesByDrift(s: Snapshot, fs: seq<Fill>)
    ensures Ledger(ApplyAll(s, fs)) == Ledger(s) - TotalDrift(s, fs)
    decreases |fs|
  {
    if fs != [] {
      LedgerMovesByDrift(s, fs[..|fs| - 1]);
      ApplyLedger(ApplyAll(s, fs[..|fs| - 1]), fs[|fs| - 1]);
    }
  }

  /** No fill of the sequence crosses zero or has a negative quantity. */
  predicate Plain(s: Snapshot, fs: seq<Fill>) {
    fs != [] ==>
      var before := ApplyAll(s, fs[..|fs| - 1]);
      && Plain(s, fs[..|fs| - 1])
      && fs[|fs| - 1].quantity >= 0
      && !Crosses(Opened(before, fs[|fs| - 1]), fs[|fs| - 1])
  }

  /** Starting flat, cash plus positions at cost equals the starting capital plus the profit taken,
      as long as no fill crosses zero. */
  lemma {:induction false} CashIsConserved(capital: real, fs: seq<Fill>)
    requires Plain(Empty(capital), fs)
    ensures Ledger(ApplyAll(Empty(capital), fs)) == capital
    decreases |fs|
  {
    if fs != [] {
      CashIsConserved(capital, fs[..|fs| - 1]);
      ApplyLedger(ApplyAll(Empty(capital), fs[..|fs| - 1]), fs[|fs| - 1]);
    }
  }

  /** One fill of non-negative quantity leaves the ledger alone exactly when it does not cross zero,
      or crosses it at the old average price. */
  lemma ConservedExactlyWithoutCrossing(s: Snapshot, f: Fill)
    requires f.quantity >= 0
    ensures Ledger(Apply(s, f)) == Ledger(s)
       <==> !Crosses(Opened(s, f), f) || f.price == Opened(s, f).avgPrice
  {
    hide Ledger, Apply, Opened, Booked;
    ApplyLedger(s, f);
    var p := Opened(s, f);
    if Crosses(p, f) {
      ProductIsZero((p.quantity + f.Delta()) as real, f.price - p.avgPrice);
    }
  }

  lemma ProductIsZero(x: real, y: real)
    requires x != 0.0
    ensures x * y == 0.0 <==> y == 0.0
  {
  }

  /** Buy 1 at 100, sell 2 at 110: the short that remains is carried at 100, and the ledger has
      gained the 10 that it was really sold for above that. */
  lemma CrossingExample() returns (fs: seq<Fill>)
    ensures Ledger(ApplyAll(Empty(1000.0), fs)) == 1010.0
    ensures ApplyAll(Empty(1000.0), fs).GetPosition(7).quantity == -1
    ensures ApplyAll(Empty(1000.0), fs).GetPosition(7).avgPrice == 100.0
  {
    var buy := Fill("a", "1", "s", 7, BUY, 1, 100.0, 0);
    var sell := Fill("b", "2", "s", 7, SELL, 2, 110.0, 1);
    fs := [buy, sell];
    var s0 := Empty(1000.0);
    assert fs[..1] == [buy] && [buy][..0] == [];
    assert ApplyAll(s0, [buy]) == Apply(s0, buy);
    assert ApplyAll(s0, fs) == Apply(Apply(s0, buy), sell);
    ApplyLedger(s0, buy);
    ApplyLedger(Apply(s0, buy), sell);
    assert Ledger(s0) == 1000.0;
  }

  /** The total of realised profit is the sum over the positions. */
  lemma {:induction false} RealizedAddsUp(s: Snapshot, fs: seq<Fill>)
    requires s.totalRealized == Sum(s.positions, Realized)
    ensures ApplyAll(s, fs).totalRealized == Sum(ApplyAll(s, fs).positions, Realized)
    decreases |fs|
  {
    if fs != [] {
      var before, f := ApplyAll(s, fs[..|fs| - 1]), fs[|fs| - 1];
      RealizedAddsUp(s, fs[..|fs| - 1]);
      var p := Opened(before, f);
      SumUpdate(before.positions, Realized, f.token, Settle(p, f));
      assert Realized(p) == At(before.positions, Realized, f.token);
    }
  }

  /** Every position is the signed sum of the fills of its instrument. */
  lemma {:induction false} PositionIsNetQuantity(capital: real, fs: seq<Fill>, token: nat)
    ensures ApplyAll(Empty(capital), fs).GetPosition(token).quantity == NetQuantity(fs, token)
    decreases |fs|
  {
    if fs != [] {
      PositionIsNetQuantity(capital, fs[..|fs| - 1], token);
    }
  }

  /** The strategy of the first fill of an instrument; for instrument 0, of the last one. */
  function LabelOf(fs: seq<Fill>, token: nat): string {
    if fs == [] then ""
    else
      var init, f := fs[..|fs| - 1], fs[|fs| - 1];
      if f.token == token && (token == 0 || !exists i :: 0 <= i < |init| && init[i].token == token) then f.strategy
      else LabelOf(init, token)
  }

  /** A position belongs to the strategy that first traded its instrument. */
  lemma {:induction false} PositionBelongsToFirst(capital: real, fs: seq<Fill>, token: nat)
    ensures var ps := ApplyAll(Empty(capital), fs).positions;
      && (token in ps <==> exists i :: 0 <= i < |fs| && fs[i].token == token)
      && (token in ps ==> ps[token].token == token && ps[token].strategy == LabelOf(fs, token))
    decreases |fs|
  {
    hide Booked;
    if fs != [] {
      var init, f := fs[..|fs| - 1], fs[|fs| - 1];
      PositionBelongsToFirst(capital, init, token);
      assert forall i :: 0 <= i < |init| ==> fs[i] == init[i];
      if f.token == token {
        assert fs[|init|].token == token;
      }
    }
  }

  // ------------------------------------------------------------------------- average entry price

  /** The prices of the fills that opened or enlarged the position since it was last flat. */
  function Entries(capital: real, fs: seq<Fill>, token: nat): seq<real> {
    if fs == [] then []
    else
      var init, f := fs[..|fs| - 1], fs[|fs| - 1];
      var q := ApplyAll(Empty(capital), init).GetPosition(token).quantity;
      if f.token != token then Entries(capital, init, token)
      else if q + f.Delta() == 0 then []
      else if q == 0 then [f.price]
      else if Increases(q, f.Delta()) then Entries(capital, init, token) + [f.price]
      else Entries(capital, init, token)
  }

  predicate Positive(fs: seq<Fill>) {
    forall i :: 0 <= i < |fs| ==> fs[i].quantity > 0 && fs[i].price > 0.0
  }

  lemma ScaleBounds(a: real, x: real, lo: real, hi: real)
    requires a >= 0.0 && lo <= x <= hi
    ensures lo * a <= a * x <= hi * a
  {
  }

  lemma SignOfProduct(x: real, n: real)
    requires n > 0.0 && x * n >= 0.0
    ensures x >= 0.0
  {
  }

  /** A weighted average lies between its bounds. */
  lemma AverageBetween(a: nat, b: nat, x: real, y: real, lo: real, hi: real)
    requires a > 0 && b > 0 && lo <= x <= hi && lo <= y <= hi
    ensures lo <= (a as real * x + b as real * y) / ((a + b) as real) <= hi
  {
    var n := (a + b) as real;
    var v := a as real * x + b as real * y;
    ScaleBounds(a as real, x, lo, hi);
    ScaleBounds(b as real, y, lo, hi);
    assert lo * n == lo * (a as real) + lo * (b as real);
    assert hi * n == hi * (a as real) + hi * (b as real);
    QuotientBetween(v, n, lo, hi);
  }

  lemma QuotientBetween(v: real, n: real, lo: real, hi: real)
    requires n > 0.0 && lo * n <= v <= hi * n
    ensures lo <= v / n <= hi
  {
    var d := v / n;
    assert d * n == v;
    assert (d - lo) * n == v - lo * n && (hi - d) * n == hi * n - v;
    SignOfProduct(d - lo, n);
    SignOfProduct(hi - d, n);
  }

  /** The bounds carry over from the position to the settled one. */
  lemma SettleBetween(p: Position, f: Fill, lo: real, hi: real)
    requires f.quantity > 0 && f.price > 0.0 && !Crosses(p, f)
    requires p.avgPrice >= 0.0 && (p.avgPrice == 0.0 <==> p.quantity == 0)
    requires p.quantity != 0 ==> lo <= p.avgPrice <= hi
    requires p.quantity == 0 || Increases(p.quantity, f.Delta()) ==> lo <= f.price <= hi
    ensures var r := Settle(p, f);
      && (r.quantity != 0 ==> lo <= r.avgPrice <= hi)
      && r.avgPrice >= 0.0
      && (r.avgPrice == 0.0 <==> r.quantity == 0)
  {
    if p.quantity != 0 && Increases(p.quantity, f.Delta()) {
      var a, b := Abs(p.quantity), Abs(f.Delta());
      assert Abs(p.quantity + f.Delta()) == a + b;
      AverageBetween(a, b, p.avgPrice, f.price, lo, hi);
      AverageBetween(a, b, p.avgPrice, f.price, if p.avgPrice <= f.price then p.avgPrice else f.price,
        p.avgPrice + f.price);
    }
  }

  /** While nothing crosses zero, the average price of an open position lies between the lowest and
      the highest price it was entered at, and it is zero exactly when the position is flat. */
  lemma {:induction false} AverageWithinEntries(capital: real, fs: seq<Fill>, token: nat, lo: real, hi: real)
    requires Plain(Empty(capital), fs) && Positive(fs)
    requires forall x :: x in Entries(capital, fs, token) ==> lo <= x <= hi
    ensures var p := ApplyAll(Empty(capital), fs).GetPosition(token);
      && (p.quantity != 0 ==> lo <= p.avgPrice <= hi && Entries(capital, fs, token) != [])
      && p.avgPrice >= 0.0
      && (p.avgPrice == 0.0 <==> p.quantity == 0)
    decreases |fs|
  {
    hide Settle, Booked;
    if fs != [] {
      var init, f := fs[..|fs| - 1], fs[|fs| - 1];
      var before := ApplyAll(Empty(capital), init);
      var p := before.GetPosition(token);
      var es, es' := Entries(capital, init, token), Entries(capital, fs, token);
      assert Positive(init);
      if f.token == token && p.quantity + f.Delta() == 0 {
        if es == [] {
          AverageWithinEntries(capital, init, token, 0.0, 0.0);
        } else {
          var lo', hi' := Bounds(es);
          AverageWithinEntries(capital, init, token, lo', hi');
        }
        ClosedAverage(Opened(before, f), f);
      } else if f.token == token && p.quantity == 0 {
        assert f.price in es';
        if es == [] {
          AverageWithinEntries(capital, init, token, lo, hi);
        } else {
          var lo', hi' := Bounds(es);
          AverageWithinEntries(capital, init, token, lo', hi');
        }
        SettleBetween(Opened(before, f), f, lo, hi);
      } else {
        forall x | x in es
          ensures x in es'
        {
        }
        AverageWithinEntries(capital, init, token, lo, hi);
        if f.token == token {
          if Increases(p.quantity, f.Delta()) {
            assert es'[|es|] == f.price && f.price in es';
          }
          SettleBetween(Opened(before, f), f, lo, hi);
        }
      }
      SettleQuantity(Opened(before, f), f);
    }
  }

  lemma SettleQuantity(p: Position, f: Fill)
    ensures Settle(p, f).quantity == p.quantity + f.Delta()
  {
  }

  lemma ClosedAverage(p: Position, f: Fill)
    requires p.quantity != 0 && p.quantity + f.Delta() == 0
    ensures Settle(p, f).avgPrice == 0.0
  {
  }

  lemma {:induction false} Bounds(es: seq<real>) returns (lo: real, hi: real)
    ensures forall x :: x in es ==> lo <= x <= hi
  {
    if es == [] {
      lo, hi := 0.0, 0.0;
    } else {
      lo, hi := Bounds(es[1..]);
      lo, hi := if es[0] < lo then es[0] else lo, if es[0] > hi then es[0] else hi;
      assert es == [es[0]] + es[1..];
    }
  }

  // ------------------------------------------------------------------------------ mark to market

  /** The position after a price update: the unrealised profit of a flat position stays as it was. */
  function Marked(p: Position, price: real): Position {
    if p.quantity != 0 && p.avgPrice > 0.0 then
      p.(currentPrice := price, unrealizedPnl := p.quantity as real * (price - p.avgPrice))
    else p.(currentPrice := price)
  }

  ghost function Mark(s: Snapshot, token: nat, price: real): Snapshot {
    if token !in s.positions then s
    else
      var ps := s.positions[token := Marked(s.positions[token], price)];
      s.(positions := ps, totalUnrealized := Sum(ps, Unrealized))
  }

  /** What the true unrealised profit exceeds the stored one by. */
  function Staleness(p: Position): real {
    p.quantity as real * (p.currentPrice - p.avgPrice) - p.unrealizedPnl
  }

  function MarketValue(p: Position): real { p.quantity as real * p.currentPrice }

  /** The two ways in which the engine is called. */
  datatype MarketEvent = Filled(fill: Fill) | Priced(token: nat, price: real)

  ghost function Next(s: Snapshot, e: MarketEvent): Snapshot {
    match e
    case Filled(f) => Apply(s, f)
    case Priced(token, price) => Mark(s, token, price)
  }

  /** A new engine after these calls. */
  ghost function MarketRun(capital: real, es: seq<MarketEvent>): Snapshot {
    if es == [] then Empty(capital) else Next(MarketRun(capital, es[..|es| - 1]), es[|es| - 1])
  }

  ghost function MarketDrift(capital: real, es: seq<MarketEvent>): real {
    if es == [] then 0.0
    else
      var init, e := es[..|es| - 1], es[|es| - 1];
      MarketDrift(capital, init) + if e.Filled? then Drift(Opened(MarketRun(capital, init), e.fill), e.fill) else 0.0
  }

  lemma MarkKeepsLedger(s: Snapshot, token: nat, price: real)
    ensures Ledger(Mark(s, token, price)) == Ledger(s)
  {
    if token in s.positions {
      SumUpdate(s.positions, BookValue, token, Marked(s.positions[token], price));
    }
  }

  /** Both totals are sums over the positions. */
  ghost predicate TotalsAddUp(s: Snapshot) {
    s.totalRealized == Sum(s.positions, Realized) && s.totalUnrealized == Sum(s.positions, Unrealized)
  }

  lemma ApplyKeepsTotals(s: Snapshot, f: Fill)
    requires TotalsAddUp(s)
    ensures TotalsAddUp(Apply(s, f))
  {
    var p := Opened(s, f);
    SumUpdate(s.positions, Realized, f.token, Settle(p, f));
    SumUpdate(s.positions, Unrealized, f.token, Settle(p, f));
    assert Realized(p) == At(s.positions, Realized, f.token);
    assert Unrealized(p) == At(s.positions, Unrealized, f.token);
  }

  lemma MarkKeepsTotals(s: Snapshot, token: nat, price: real)
    requires TotalsAddUp(s)
    ensures TotalsAddUp(Mark(s, token, price))
  {
    if token in s.positions {
      SumUpdate(s.positions, Realized, token, Marked(s.positions[token], price));
    }
  }

  lemma {:induction false} MarketTotals(capital: real, es: seq<MarketEvent>)
    ensures TotalsAddUp(MarketRun(capital, es))
    ensures Ledger(MarketRun(capital, es)) == capital - MarketDrift(capital, es)
    decreases |es|
  {
    hide Apply, Mark, Ledger, TotalsAddUp;
    if es == [] {
      NothingHeld(capital);
    } else {
      var before := MarketRun(capital, es[..|es| - 1]);
      MarketTotals(capital, es[..|es| - 1]);
      match es[|es| - 1]
      case Filled(f) =>
        ApplyKeepsTotals(before, f);
        ApplyLedger(before, f);
      case Priced(token, price) =>
        MarkKeepsTotals(before, token, price);
        MarkKeepsLedger(before, token, price);
    }
  }

  lemma NothingHeld(capital: real)
    ensures TotalsAddUp(Empty(capital)) && Ledger(Empty(capital)) == capital
  {
  }

  /** After any fills and price updates, interleaved in any way: cash plus positions at market is the
      starting capital plus realised plus unrealised profit, and what is wrong with this is exactly
      how stale the unrealised profit is, less the drift of the fills. */
  lemma AccountEquation(capital: real, es: seq<MarketEvent>)
    ensures var s := MarketRun(capital, es);
      s.availableCapital + Sum(s.positions, MarketValue)
      == capital + s.totalRealized + s.totalUnrealized + Sum(s.positions, Staleness) - MarketDrift(capital, es)
  {
    hide MarketRun, MarketDrift;
    MarketTotals(capital, es);
    var s := MarketRun(capital, es);
    var trueUnrealized := (p: Position) => p.quantity as real * (p.currentPrice - p.avgPrice);
    SumAdd(s.positions, Unrealized, Staleness, trueUnrealized);
    forall k | k in s.positions
      ensures MarketValue(s.positions[k]) == BookValue(s.positions[k]) + trueUnrealized(s.positions[k])
    {
      ValueSplits(s.positions[k]);
    }
    SumAdd(s.positions, BookValue, trueUnrealized, MarketValue);
  }

  lemma ValueSplits(p: Position)
    ensures MarketValue(p) == BookValue(p) + p.quantity as real * (p.currentPrice - p.avgPrice)
  {
  }

  // ------------------------------------------------------------------- what fills and prices may touch

  predicate HasFill(es: seq<MarketEvent>, token: nat) {
    exists i :: 0 <= i < |es| && es[i].Filled? && es[i].fill.token == token
  }

  /** The last price announced for an instrument since its first fill, zero if there is none. */
  function LastQuote(es: seq<MarketEvent>, token: nat): real {
    if es == [] then 0.0
    else
      var init, e := es[..|es| - 1], es[|es| - 1];
      if e.Priced? && e.token == token && HasFill(init, token) then e.price else LastQuote(init, token)
  }

  lemma HasFillAppend(es: seq<MarketEvent>, e: MarketEvent, token: nat)
    ensures HasFill(es + [e], token) <==> HasFill(es, token) || (e.Filled? && e.fill.token == token)
  {
    var more := es + [e];
    assert more[|es|] == e && forall i :: 0 <= i < |es| ==> more[i] == es[i];
    if HasFill(es, token) {
      var i :| 0 <= i < |es| && es[i].Filled? && es[i].fill.token == token;
      assert more[i] == es[i];
    }
  }

  /** Fills create positions and never touch a market price; price updates do nothing else but set it. */
  lemma {:induction false} MarketPriceIsLastQuote(capital: real, es: seq<MarketEvent>, token: nat)
    ensures token in MarketRun(capital, es).positions <==> HasFill(es, token)
    ensures MarketRun(capital, es).GetPosition(token).currentPrice == LastQuote(es, token)
    decreases |es|
  {
    hide HasFill, Booked;
    if es == [] {
      NoFillYet(token);
    } else {
      var init, e := es[..|es| - 1], es[|es| - 1];
      assert es == init + [e];
      MarketPriceIsLastQuote(capital, init, token);
      HasFillAppend(init, e, token);
    }
  }

  lemma NoFillYet(token: nat)
    ensures !HasFill([], token)
  {
  }

  /** The fills of a run, without the price updates. */
  function FillsOf(es: seq<MarketEvent>): seq<Fill> {
    if es == [] then []
    else FillsOf(es[..|es| - 1]) + if es[|es| - 1].Filled? then [es[|es| - 1].fill] else []
  }

  /** The same up to market prices and unrealised profit. */
  ghost predicate SameBook(s: Snapshot, t: Snapshot) {
    && s.positions.Keys == t.positions.Keys
    && (forall k :: k in s.positions ==>
          var p, q := s.positions[k], t.positions[k];
          && p.token == q.token && p.strategy == q.strategy && p.quantity == q.quantity
          && p.avgPrice == q.avgPrice && p.realizedPnl == q.realizedPnl)
    && s.totalRealized == t.totalRealized && s.availableCapital == t.availableCapital && s.ts == t.ts
  }

  /** Price updates move no quantity, no average price, no realised profit and no cash: what the fills alone
      would have led to is there, and everything said of runs of fills holds in any market. */
  lemma {:induction false} PricesDoNotMoveTheBook(capital: real, es: seq<MarketEvent>)
    ensures SameBook(MarketRun(capital, es), ApplyAll(Empty(capital), FillsOf(es)))
    decreases |es|
  {
    hide SameBook, Apply, Mark;
    if es == [] {
      SameEmpty(capital);
    } else {
      var init, e := es[..|es| - 1], es[|es| - 1];
      PricesDoNotMoveTheBook(capital, init);
      var s, t := MarketRun(capital, init), ApplyAll(Empty(capital), FillsOf(init));
      match e
      case Filled(f) =>
        assert FillsOf(es)[..|FillsOf(es)| - 1] == FillsOf(init);
        FillKeepsSame(s, t, f);
      case Priced(token, price) =>
        assert FillsOf(es) == FillsOf(init);
        PriceKeepsSame(s, t, token, price);
    }
  }

  lemma SameEmpty(capital: real)
    ensures SameBook(Empty(capital), Empty(capital))
  {
  }

  lemma FillKeepsSame(s: Snapshot, t: Snapshot, f: Fill)
    requires SameBook(s, t)
    ensures SameBook(Apply(s, f), Apply(t, f))
  {
    hide TotalValue;
    SameValue(Opened(s, f), Opened(t, f), f);
  }

  lemma SameValue(p: Position, q: Position, f: Fill)
    requires p.quantity == q.quantity && p.avgPrice == q.avgPrice
    ensures TotalValue(p, f) == TotalValue(q, f)
  {
  }

  lemma PriceKeepsSame(s: Snapshot, t: Snapshot, token: nat, price: real)
    requires SameBook(s, t)
    ensures SameBook(Mark(s, token, price), t)
  {
  }

  /** The time of the snapshot is that of the last fill. */
  lemma {:induction false} TimeIsOfLastFill(capital: real, fs: seq<Fill>)
    ensures ApplyAll(Empty(capital), fs).ts == if fs == [] then 0 else fs[|fs| - 1].ts
  {
  }

  predicate PositiveFills(es: seq<MarketEvent>) {
    forall i :: 0 <= i < |es| && es[i].Filled? ==> es[i].fill.quantity > 0 && es[i].fill.price > 0.0
  }

  /** The average price tells whether the position is open. */
  predicate Telling(p: Position) {
    p.avgPrice >= 0.0 && (p.avgPrice > 0.0 <==> p.quantity != 0)
  }

  lemma SettleKeepsTelling(p: Position, f: Fill)
    requires Telling(p) && f.quantity > 0 && f.price > 0.0
    ensures Telling(Settle(p, f))
  {
    if p.quantity != 0 && Increases(p.quantity, f.Delta()) {
      var a, b := Abs(p.quantity), Abs(f.Delta());
      assert Abs(p.quantity + f.Delta()) == a + b;
      AverageBetween(a, b, p.avgPrice, f.price, if p.avgPrice <= f.price then p.avgPrice else f.price,
        p.avgPrice + f.price);
    }
  }

  /** Through any number of fills of positive quantity and price, crossing ones included. */
  lemma {:induction false} AverageTellsOpen(capital: real, es: seq<MarketEvent>)
    requires PositiveFills(es)
    ensures forall k :: k in MarketRun(capital, es).positions ==> Telling(MarketRun(capital, es).positions[k])
    decreases |es|
  {
    hide Settle, Booked, Telling;
    if es != [] {
      var init, e := es[..|es| - 1], es[|es| - 1];
      AverageTellsOpen(capital, init);
      var before := MarketRun(capital, init);
      match e
      case Filled(f) =>
        OpenedIsTelling(before, f);
        SettleKeepsTelling(Opened(before, f), f);
      case Priced(token, price) =>
        if token in before.positions {
          MarkedIsTelling(before.positions[token], price);
        }
    }
  }

  lemma OpenedIsTelling(s: Snapshot, f: Fill)
    requires f.token in s.positions ==> Telling(s.positions[f.token])
    ensures Telling(Opened(s, f))
  {
  }

  lemma MarkedIsTelling(p: Position, price: real)
    requires Telling(p)
    ensures Telling(Marked(p, price))
  {
  }

  /** In every run of positive fills and of price updates, a price update leaves the unrealised profit
      of an open position true, and that of a flat one as it was: so it is true exactly if the
      position is open or had no unrealised profit left. */
  lemma MarkIsFreshExactlyWhenOpen(capital: real, es: seq<MarketEvent>, token: nat, price: real)
    requires PositiveFills(es) && token in MarketRun(capital, es).positions
    ensures var s := MarketRun(capital, es);
      var p, p' := s.positions[token], Mark(s, token, price).positions[token];
      && Staleness(p') == (if p.quantity != 0 then 0.0 else -p.unrealizedPnl)
      && (Staleness(p') == 0.0 <==> p.quantity != 0 || p.unrealizedPnl == 0.0)
  {
    hide MarketRun, Telling, Staleness, Marked;
    AverageTellsOpen(capital, es);
    MarkedStaleness(MarketRun(capital, es).positions[token], price);
  }

  lemma MarkedStaleness(p: Position, price: real)
    requires Telling(p)
    ensures Staleness(Marked(p, price)) == if p.quantity != 0 then 0.0 else -p.unrealizedPnl
  {
  }

  /** A price update sets the market price of a known position, whatever else holds; its unrealised profit only
      if it is open at a positive average price. */
  lemma MarkWrites(s: Snapshot, token: nat, price: real, profit: real)
    requires token in s.positions ==>
      var p := s.positions[token];
      profit == if p.quantity != 0 && p.avgPrice > 0.0 then p.quantity as real * (price - p.avgPrice)
                else p.unrealizedPnl
    ensures token !in s.positions ==> Mark(s, token, price) == s
    ensures token in s.positions ==>
      Mark(s, token, price).positions ==
        s.positions[token := s.positions[token].(currentPrice := price, unrealizedPnl := profit)]
  {
    if token in s.positions {
      assert Marked(s.positions[token], price) == s.positions[token].(currentPrice := price, unrealizedPnl := profit);
      hide Marked;
    }
  }

  /** A fill of a flat position opens it at the price of the fill, and changes nothing else. */
  lemma FillOpens(p: Position, f: Fill)
    requires p.quantity == 0
    ensures Settle(p, f) == p.(quantity := if f.side == BUY then f.quantity else -f.quantity, avgPrice := f.price)
  {
  }

  /** One that makes it larger averages the price over the quantities, and changes nothing else. */
  lemma FillGrows(p: Position, f: Fill, d: int, total: real)
    requires d == (if f.side == BUY then f.quantity else -f.quantity)
    requires (d > 0 && p.quantity > 0) || (d < 0 && p.quantity < 0)
    requires total == Abs(p.quantity) as real * p.avgPrice + Abs(d) as real * f.price
    ensures Settle(p, f) == p.(quantity := p.quantity + d, avgPrice := total / (Abs(p.quantity + d) as real))
  {
    assert f.Delta() == d && total == TotalValue(p, f);
    hide TotalValue;
  }

  /** Any other books the profit of what it closes, keeps the average unless nothing is left, and changes
      nothing else. */
  lemma FillShrinks(p: Position, f: Fill, d: int, gain: real)
    requires d == (if f.side == BUY then f.quantity else -f.quantity)
    requires p.quantity != 0 && !(d > 0 && p.quantity > 0) && !(d < 0 && p.quantity < 0)
    requires gain == if f.side == SELL then f.price - p.avgPrice else p.avgPrice - f.price
    ensures Settle(p, f) == p.(
      quantity := p.quantity + d,
      avgPrice := if p.quantity + d == 0 then 0.0 else p.avgPrice,
      realizedPnl := p.realizedPnl + Min(Abs(d), Abs(p.quantity)) as real * gain)
  {
    assert f.Delta() == d && gain == Gain(p, f);
    hide Gain;
  }

  /** A position opened at price zero, as a paper market order opens it, shows no unrealised profit at any
      price: buy 10 at 0, mark at 50. */
  lemma FreePositionsAreNotMarked() returns (es: seq<MarketEvent>)
    ensures var s := MarketRun(1000.0, es);
      && s.GetPosition(7).quantity == 10 && s.GetPosition(7).currentPrice == 50.0
      && s.totalUnrealized == 0.0 && Staleness(s.GetPosition(7)) == 500.0
  {
    hide Apply, Mark, MarketRun, Settle, Booked, Staleness, Marked;
    var buy := Fill("a", "1", "s", 7, BUY, 10, 0.0, 0);
    es := [Filled(buy), Priced(7, 50.0)];
    TwoEvents(1000.0, Filled(buy), Priced(7, 50.0));
    FreeOpened(buy);
    var s := Apply(Empty(1000.0), buy);
    OneMark(s, 7, 50.0);
    FreeStaysUnmarked(s.positions[7]);
  }

  lemma FreeOpened(buy: Fill)
    requires buy == Fill("a", "1", "s", 7, BUY, 10, 0.0, 0)
    ensures Apply(Empty(1000.0), buy).positions == map[7 := Position(7, "s", 10, 0.0, 0.0, 0.0, 0.0)]
  {
    hide Apply, Booked;
    OneFill(Empty(1000.0), NO_POSITION.(token := 7, strategy := "s"), buy);
  }

  lemma FreeStaysUnmarked(p: Position)
    requires p == Position(7, "s", 10, 0.0, 0.0, 0.0, 0.0)
    ensures var p' := Marked(p, 50.0);
      p' == Position(7, "s", 10, 0.0, 50.0, 0.0, 0.0) && Staleness(p') == 500.0
  {
  }

  lemma TwoEvents(capital: real, e: MarketEvent, e': MarketEvent)
    ensures MarketRun(capital, [e, e']) == Next(Next(Empty(capital), e), e')
  {
    var none: seq<MarketEvent> := [];
    assert [e, e'][..1] == [e] && [e][..0] == none;
    assert MarketRun(capital, none) == Empty(capital);
    assert MarketRun(capital, [e]) == Next(Empty(capital), e);
  }

  /** Buy 1 at 100, mark at 110, sell at 120, mark at 130: nothing is held, 20 are realised, and 10 are
      still reported as unrealised. */
  lemma StaleExample() returns (es: seq<MarketEvent>)
    ensures var s := MarketRun(1000.0, es);
      && PositiveFills(es) && s.GetPosition(7).quantity == 0
      && s.totalRealized == 20.0 && s.totalUnrealized == 10.0 && s.availableCapital == 1020.0
  {
    hide Apply, Mark;
    var buy := Fill("a", "1", "s", 7, BUY, 1, 100.0, 0);
    var sell := Fill("b", "2", "s", 7, SELL, 1, 120.0, 1);
    es := [Filled(buy), Priced(7, 110.0), Filled(sell), Priced(7, 130.0)];
    assert es[..3] == [Filled(buy), Priced(7, 110.0), Filled(sell)] && es[..3][..2] == [Filled(buy), Priced(7, 110.0)];
    assert es[..3][..2][..1] == [Filled(buy)] && es[..3][..2][..1][..0] == [];
    var none: seq<MarketEvent> := [];
    assert MarketRun(1000.0, none) == Empty(1000.0);
    assert MarketRun(1000.0, es[..3][..2][..1]) == Apply(Empty(1000.0), buy);
    assert MarketRun(1000.0, es[..3][..2]) == Mark(Apply(Empty(1000.0), buy), 7, 110.0);
    assert MarketRun(1000.0, es) == Mark(Apply(Mark(Apply(Empty(1000.0), buy), 7, 110.0), sell), 7, 130.0);
    StaleSteps(buy, sell);
  }

  lemma StaleSteps(buy: Fill, sell: Fill)
    requires buy == Fill("a", "1", "s", 7, BUY, 1, 100.0, 0) && sell == Fill("b", "2", "s", 7, SELL, 1, 120.0, 1)
    ensures var s := Mark(Apply(Mark(Apply(Empty(1000.0), buy), 7, 110.0), sell), 7, 130.0);
      && s.GetPosition(7).quantity == 0
      && s.totalRealized == 20.0 && s.totalUnrealized == 10.0 && s.availableCapital == 1020.0
  {
    hide Apply, Mark;
    OneFill(Empty(1000.0), NO_POSITION.(token := 7, strategy := "s"), buy);
    var s1 := Apply(Empty(1000.0), buy);
    OneMark(s1, 7, 110.0);
    var s2 := Mark(s1, 7, 110.0);
    OneFill(s2, s2.positions[7], sell);
    OneMark(Apply(s2, sell), 7, 130.0);
  }

  /** A fill of the only position there is, or of the first one. */
  lemma OneFill(s: Snapshot, p: Position, f: Fill)
    requires p == Opened(s, f) && s.positions.Keys <= {f.token}
    ensures var s' := Apply(s, f);
      && s'.positions == map[f.token := Settle(p, f)]
      && s'.totalRealized == s.totalRealized + Booked(p, f)
      && s'.availableCapital == s.availableCapital - f.Delta() as real * f.price
  {
    hide Settle, Booked;
    var q := Settle(p, f);
    assert s.positions[f.token := q] == map[f.token := q] by {
      assert s.positions[f.token := q].Keys == {f.token};
    }
  }

  lemma OneMark(s: Snapshot, token: nat, price: real)
    requires s.positions.Keys == {token}
    ensures var s', p := Mark(s, token, price), Marked(s.positions[token], price);
      && s'.positions == map[token := p] && s'.totalUnrealized == p.unrealizedPnl
      && s'.totalRealized == s.totalRealized && s'.availableCapital == s.availableCapital
  {
    var p := Marked(s.positions[token], price);
    var ps := s.positions[token := p];
    assert ps == map[token := p] by {
      assert ps.Keys == {token};
    }
    SumRemove(ps, Unrealized, token);
    var none: map<nat, Position> := map[];
    assert ps - {token} == none && Sum(none, Unrealized) == 0.0;
  }

  // ---------------------------------------------------------------------------------- the engine

  lemma CashOfSide(f: Fill)
    ensures f.Delta() as real * f.price
         == if f.side.BUY? then f.quantity as real * f.price else -(f.quantity as real * f.price)
  {
  }

  lemma SignedSize(q: int, sign: real, x: real)
    requires sign == if q > 0 then 1.0 else -1.0
    ensures sign * (Abs(q) as real) * x == q as real * x
  {
  }

  const STARTING_CAPITAL: real := 100000.0

  class PortfolioEngine {
    var positions: map<nat, Position>
    var totalRealized: real
    var totalUnrealized: real
    var availableCapital: real
    var snapshotTs: nat

    ghost function View(): Snapshot
      reads this
    {
      Snapshot(positions, totalRealized, totalUnrealized, availableCapital, snapshotTs)
    }

    constructor ()
      ensures View() == Empty(100000.0)
    {
      positions, totalRealized, totalUnrealized := map[], 0.0, 0.0;
      availableCapital, snapshotTs := STARTING_CAPITAL, 0;
    }

    /** The three branches of a fill on its position, and the profit they take. */
    static method Rebook(initial: Position, fill: Fill) returns (pos: Position, realized: real)
      ensures pos == Settle(initial, fill) && realized == Booked(initial, fill)
    {
      hide TotalValue, Gain;
      pos, realized := initial, 0.0;
      var qtyDelta := if fill.side.BUY? then fill.quantity else -fill.quantity;
      if pos.quantity == 0 {
        pos := pos.(quantity := qtyDelta, avgPrice := fill.price);
      } else if (qtyDelta > 0 && pos.quantity > 0) || (qtyDelta < 0 && pos.quantity < 0) {
        var totalValue := TotalValue(pos, fill);
        pos := pos.(quantity := pos.quantity + qtyDelta);
        pos := pos.(avgPrice := if pos.quantity != 0 then totalValue / (Abs(pos.quantity) as real) else 0.0);
      } else {
        var closeQty := Min(Abs(qtyDelta), Abs(pos.quantity));
        realized := closeQty as real * Gain(pos, fill);
        pos := pos.(realizedPnl := pos.realizedPnl + realized);
        pos := pos.(quantity := pos.quantity + qtyDelta);
        if pos.quantity == 0 {
          pos := pos.(avgPrice := 0.0);
        }
      }
    }

    method ProcessFill(fill: Fill)
      modifies this
      ensures View() == Apply(old(View()), fill)
    {
      hide Settle, Booked;
      var pos := if fill.token in positions then positions[fill.token] else NO_POSITION;
      if pos.token == 0 {
        pos := pos.(token := fill.token, strategy := fill.strategy);
      }
      var realized;
      pos, realized := Rebook(pos, fill);
      positions := positions[fill.token := pos];
      totalRealized := totalRealized + realized;

      var fillValue := fill.quantity as real * fill.price;
      CashOfSide(fill);
      if fill.side.BUY? {
        availableCapital := availableCapital - fillValue;
      } else {
        availableCapital := availableCapital + fillValue;
      }
      snapshotTs := fill.ts;
    }

    /** The loop over all positions, in whatever order the map yields them. */
    method SumUnrealized() returns (totalUpnl: real)
      ensures totalUpnl == Sum(positions, Unrealized)
    {
      var rest := positions;
      totalUpnl := 0.0;
      while rest != map[]
        invariant totalUpnl + Sum(rest, Unrealized) == Sum(positions, Unrealized)
        decreases |rest|
      {
        var k :| k in rest;
        SumRemove(rest, Unrealized, k);
        totalUpnl := totalUpnl + rest[k].unrealizedPnl;
        rest := rest - {k};
      }
    }

    method UpdatePrice(token: nat, price: real)
      modifies this
      ensures View() == Mark(old(View()), token, price)
    {
      if token !in positions {
        return;
      }
      var pos := positions[token];
      pos := pos.(currentPrice := price);
      if pos.quantity != 0 && pos.avgPrice > 0.0 {
        var sign := if pos.quantity > 0 then 1.0 else -1.0;
        var move := price - pos.avgPrice;
        SignedSize(pos.quantity, sign, move);
        pos := pos.(unrealizedPnl := sign * (Abs(pos.quantity) as real) * move);
      }
      assert pos == Marked(positions[token], price);
      hide Marked;
      positions := positions[token := pos];
      totalUnrealized := SumUnrealized();
    }

    /** The fill thread: `rounds` turns of its loop before it is told to stop. */
    method FillLoop(queue: SpscQueue<Fill>, rounds: nat)
      requires queue.Valid()
      modifies this, queue
      ensures queue.Valid()
      ensures var n := Min(rounds, |old(queue.items)|);
        && View() == ApplyAll(old(View()), old(queue.items)[..n])
        && queue.items == old(queue.items)[n..]
    {
      var fill := Fill("", "", "", 0, BUY, 0, 0.0, 0);
      ghost var items := queue.items;
      for i := 0 to rounds
        invariant queue.Valid()
        invariant Min(i, |items|) >= 0 && queue.items == items[Min(i, |items|)..]
        invariant View() == ApplyAll(old(View()), items[..Min(i, |items|)])
      {
        var ok;
        ok, fill := queue.TryPop(fill);
        if ok {
          assert items[..i + 1][..i] == items[..i] && fill == items[i];
          ProcessFill(fill);
        }
      }
    }
  }
}
