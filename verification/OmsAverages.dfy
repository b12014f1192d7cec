/** When the average fill price that an order records is the average price of its fills. */
module OmsAverages {
  import opened Records
  import opened OrderPool
  import opened Oms
  import opened OmsInvariants
  import opened OmsAccounting

  /** What the fills of an order cost. */
  function Cost(fs: seq<Fill>, id: string): real {
    if fs == [] then 0.0
    else
      var f := fs[|fs| - 1];
      Cost(fs[..|fs| - 1], id) + if f.orderId == id then f.quantity as real * f.price else 0.0
  }

  ghost predicate OnePrice(fs: seq<Fill>, id: string) {
    forall i, j :: 0 <= i < j < |fs| && fs[i].orderId == id && fs[j].orderId == id ==> fs[i].price == fs[j].price
  }

  predicate PositiveFor(fs: seq<Fill>, id: string) {
    forall i :: 0 <= i < |fs| && fs[i].orderId == id ==> fs[i].quantity > 0
  }

  lemma CostAppend(fs: seq<Fill>, f: Fill, id: string)
    ensures Cost(fs + [f], id) == Cost(fs, id) + if f.orderId == id then f.quantity as real * f.price else 0.0
  {
    assert (fs + [f])[..|fs + [f]| - 1] == fs;
  }

  lemma Distribute(f: int, q: int, p: real)
    ensures (f + q) as real * p == f as real * p + q as real * p
  {
  }

  /** Fills at one price cost that price times their quantity. */
  lemma {:induction false} CostAtOnePrice(fs: seq<Fill>, id: string)
    requires OnePrice(fs, id)
    ensures Cost(fs, id) == FilledBy(fs, id) as real * LastPrice(fs, id)
    ensures forall i :: 0 <= i < |fs| && fs[i].orderId == id ==> fs[i].price == LastPrice(fs, id)
    decreases |fs|
  {
    if fs != [] {
      var init, f := fs[..|fs| - 1], fs[|fs| - 1];
      CostAtOnePrice(init, id);
      if f.orderId == id {
        Distribute(FilledBy(init, id), f.quantity, f.price);
        if i :| 0 <= i < |init| && init[i].orderId == id {
          assert fs[i] == init[i];
          assert LastPrice(init, id) == f.price;
        } else {
          FilledByNone(init, id);
        }
      }
    }
  }

  lemma {:induction false} PositiveSum(fs: seq<Fill>, id: string)
    requires PositiveFor(fs, id)
    ensures FilledBy(fs, id) >= 0
    ensures FilledBy(fs, id) == 0 <==> forall i :: 0 <= i < |fs| ==> fs[i].orderId != id
    decreases |fs|
  {
    if fs != [] {
      PositiveSum(fs[..|fs| - 1], id);
      var init := fs[..|fs| - 1];
      assert forall i :: 0 <= i < |init| ==> init[i] == fs[i];
      if fs[|fs| - 1].orderId != id && FilledBy(fs, id) == 0 {
        assert forall i :: 0 <= i < |fs| ==> i < |init| || fs[i].orderId != id;
      }
    }
  }

  lemma ScaledEqual(f: int, a: real, b: real)
    requires f != 0
    ensures f as real * a == f as real * b <==> a == b
  {
    assert f as real * a - f as real * b == f as real * (a - b);
  }

  lemma OnePriceAppend(fs: seq<Fill>, f: Fill, id: string)
    requires f.orderId == id && OnePrice(fs, id) && PositiveFor(fs, id)
    ensures OnePrice(fs + [f], id) <==> FilledBy(fs, id) == 0 || f.price == LastPrice(fs, id)
  {
    var more := fs + [f];
    assert more[|fs|] == f && forall i :: 0 <= i < |fs| ==> more[i] == fs[i];
    CostAtOnePrice(fs, id);
    PositiveSum(fs, id);
    if FilledBy(fs, id) != 0 {
      var i :| 0 <= i < |fs| && fs[i].orderId == id;
      assert more[i].price == LastPrice(fs, id);
    }
  }

  /** After fills at one price the next one keeps the last price equal to the average exactly if it is at
      that price too. */
  lemma NextFill(fs: seq<Fill>, f: Fill, id: string)
    requires f.orderId == id && OnePrice(fs, id) && PositiveFor(fs, id)
    ensures FilledBy(fs + [f], id) as real * f.price == Cost(fs + [f], id) <==> OnePrice(fs + [f], id)
  {
    hide OnePrice, PositiveFor, FilledBy, Cost, LastPrice;
    CostAtOnePrice(fs, id);
    CostAppend(fs, f, id);
    FilledByAppend(fs, f, id);
    OnePriceAppend(fs, f, id);
    Distribute(FilledBy(fs, id), f.quantity, f.price);
    if FilledBy(fs, id) != 0 {
      ScaledEqual(FilledBy(fs, id), f.price, LastPrice(fs, id));
    }
  }

  /** The recorded average, times the filled quantity, is what the fills cost. */
  predicate AverageRight(o: Order, fs: seq<Fill>, id: string) {
    o.filledQty as real * o.avgFillPrice == Cost(fs, id)
  }

  predicate RightNow(s: State, id: string) {
    && (id in s.orders && s.orders[id] < |s.slots| ==> AverageRight(s.slots[s.orders[id]].order, s.accepted, id))
    && (id in s.retired ==> AverageRight(s.retired[id], s.accepted, id))
  }

  /** At every moment of the run, as long as the order is live and after a fill has retired it. */
  predicate AlwaysRight(n: nat, es: seq<Event>, id: string) {
    RightNow(Run(n, es), id) && (es != [] ==> AlwaysRight(n, es[..|es| - 1], id))
  }

  lemma RightAtOnePrice(s: State, id: string)
    requires LedgerOk(s) && OnePrice(s.accepted, id)
    ensures RightNow(s, id)
  {
    CostAtOnePrice(s.accepted, id);
  }

  /** A step applies no fill, or one to an order that is then live or retired. */
  lemma StepApplies(s: State, own: Owners, e: Event)
    requires Inv(s, own) && Hits(s, e)
    ensures var s' := Step(s, e);
      s'.accepted == s.accepted
      || (|s'.accepted| == |s.accepted| + 1 && s'.accepted[..|s.accepted|] == s.accepted
          && var id := s'.accepted[|s.accepted|].orderId; id in s'.orders || id in s'.retired)
  {
    hide PoolOk, IdsOk, LiveOk, FillOf, FilledOrder, FilledSm, Finishes;
    if e.Update? {
      hide UpdateStep;
      UpdateEffect(s, e.t, e.ts);
    } else {
      LogsElsewhere(s, e);
    }
  }

  lemma StepRight(s: State, s': State, id: string)
    requires LedgerOk(s') && PositiveFor(s'.accepted, id) && OnePrice(s.accepted, id)
    requires s'.accepted == s.accepted
      || (|s'.accepted| == |s.accepted| + 1 && s'.accepted[..|s.accepted|] == s.accepted
          && var x := s'.accepted[|s.accepted|].orderId; x in s'.orders || x in s'.retired)
    ensures RightNow(s', id) <==> OnePrice(s'.accepted, id)
  {
    hide OnePrice, PositiveFor, FilledBy, Cost, LastPrice;
    if s'.accepted == s.accepted {
      RightAtOnePrice(s', id);
    } else {
      var f := s'.accepted[|s.accepted|];
      assert s'.accepted == s.accepted + [f];
      FilledByAppend(s.accepted, f, id);
      FewerFills(s.accepted, s'.accepted, id);
      if f.orderId == id {
        NextFill(s.accepted, f, id);
      } else {
        OtherFill(s.accepted, f, id);
        RightAtOnePrice(s', id);
      }
    }
  }

  lemma OtherFill(fs: seq<Fill>, f: Fill, id: string)
    requires f.orderId != id && OnePrice(fs, id)
    ensures OnePrice(fs + [f], id)
  {
    assert forall i :: 0 <= i < |fs| ==> (fs + [f])[i] == fs[i];
  }

  /** In every run in which updates hit, and for fills of positive quantity: the recorded average is right
      at every moment exactly when all fills of the order have one price. */
  lemma {:induction false} AverageRightExactlyForEqualPrices(n: nat, es: seq<Event>, id: string)
    requires HitRun(n, es) && PositiveFor(Run(n, es).accepted, id)
    ensures AlwaysRight(n, es, id) <==> OnePrice(Run(n, es).accepted, id)
    decreases |es|
  {
    hide Step, LedgerOk, RightNow, OnePrice, Inv, Hits;
    RunLedger(n, es);
    if es == [] {
      NoFills(n, id);
    } else {
      var init, e := es[..|es| - 1], es[|es| - 1];
      var s, s' := Run(n, init), Run(n, es);
      var own := RunInv(n, init);
      StepApplies(s, own, e);
      FewerFills(s.accepted, s'.accepted, id);
      AverageRightExactlyForEqualPrices(n, init, id);
      if OnePrice(s.accepted, id) {
        StepRight(s, s', id);
      }
    }
  }

  lemma FewerFills(fs: seq<Fill>, more: seq<Fill>, id: string)
    requires fs <= more
    ensures OnePrice(more, id) ==> OnePrice(fs, id)
    ensures PositiveFor(more, id) ==> PositiveFor(fs, id)
  {
  }

  lemma NoFills(n: nat, id: string)
    ensures RightNow(Init(n), id) && OnePrice(Init(n).accepted, id)
  {
  }
}
