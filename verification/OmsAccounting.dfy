/** What the order manager's books say: every trade counts at most once, each order's filled quantity
    is the sum of the fills applied to it, and an order leaves the table when it is filled. */
module OmsAccounting {
  import opened Records
  import opened OrderState
  import opened OrderIds
  import opened OrderPool
  import opened Oms
  import opened OmsInvariants

  // ----------------------------------------------------------------------------------------- trades

  /** The fill is past the deduplicator and not yet applied. */
  predicate Pending(f: Flight) { f.Marked? || f.Found? }

  /** No trade is in two places: waiting, applied and lost exclude each other, and each happens once. */
  ghost predicate TradesOk(s: State) {
    && (forall i :: 0 <= i < |s.accepted| && s.accepted[i].tradeId != "" ==>
          s.accepted[i].tradeId in s.seen && s.accepted[i].tradeId !in s.lost)
    && (forall i, j :: 0 <= i < j < |s.accepted| && s.accepted[i].tradeId != "" ==>
          s.accepted[i].tradeId != s.accepted[j].tradeId)
    && (forall t :: t in s.flights && Pending(s.flights[t]) && s.flights[t].trade != "" ==>
          s.flights[t].trade in s.seen && s.flights[t].trade !in s.lost)
    && (forall t, i :: t in s.flights && Pending(s.flights[t]) && s.flights[t].trade != "" && 0 <= i < |s.accepted| ==>
          s.flights[t].trade != s.accepted[i].tradeId)
    && (forall t, u ::
          (t in s.flights && u in s.flights && t != u && Pending(s.flights[t]) && Pending(s.flights[u])
           && s.flights[t].trade != "")
          ==> s.flights[t].trade != s.flights[u].trade)
    && (forall x :: x in s.lost ==> x in s.seen)
  }

  lemma TradesMark(s: State, t: nat, ex: string, price: real, qty: int, trade: string)
    requires TradesOk(s)
    ensures TradesOk(MarkStep(s, t, ex, price, qty, trade))
  {
  }

  lemma TradesLookup(s: State, t: nat)
    requires TradesOk(s)
    ensures TradesOk(LookupStep(s, t))
  {
    hide Resolve;
  }

  lemma TradesUpdate(s: State, t: nat, ts: nat)
    requires TradesOk(s)
    ensures TradesOk(UpdateStep(s, t, ts))
  {
    hide UpdateStep;
    UpdateEffect(s, t, ts);
    if t in s.flights && s.flights[t].Found? && s.flights[t].slot < |s.slots| {
      TradesApplied(s, UpdateStep(s, t, ts), t);
    }
  }

  lemma TradesApplied(s: State, s': State, t: nat)
    requires TradesOk(s) && t in s.flights && Pending(s.flights[t])
    requires s'.seen == s.seen && s'.lost == s.lost
    requires |s'.accepted| == |s.accepted| + 1 && s'.accepted[..|s.accepted|] == s.accepted
    requires s'.accepted[|s.accepted|].tradeId == s.flights[t].trade
    requires t in s'.flights && !Pending(s'.flights[t]) && s'.flights == s.flights[t := s'.flights[t]]
    ensures TradesOk(s')
  {
    assert forall i :: 0 <= i < |s.accepted| ==> s'.accepted[i] == s.accepted[i];
  }

  lemma TradesFrame(s: State, s': State)
    requires TradesOk(s) && s'.seen == s.seen && s'.lost == s.lost && s'.accepted == s.accepted
    requires forall t :: t in s'.flights && Pending(s'.flights[t]) ==> t in s.flights && s'.flights[t] == s.flights[t]
    ensures TradesOk(s')
  {
  }

  lemma StepTrades(s: State, e: Event)
    requires TradesOk(s)
    ensures TradesOk(Step(s, e))
  {
    hide TradesOk;
    match e
    case Mark(t, ex, price, qty, trade) => TradesMark(s, t, ex, price, qty, trade);
    case Lookup(t) => TradesLookup(s, t);
    case Update(t, ts) => TradesUpdate(s, t, ts);
    case _ => TradesFrame(s, Step(s, e));
  }

  lemma {:induction false} RunTrades(n: nat, es: seq<Event>)
    ensures TradesOk(Run(n, es))
    decreases |es|
  {
    hide Step, TradesOk;
    if es == [] {
      assert TradesOk(Init(n)) by {
        InitTrades(n);
      }
    } else {
      RunTrades(n, es[..|es| - 1]);
      StepTrades(Run(n, es[..|es| - 1]), es[|es| - 1]);
    }
  }

  lemma InitTrades(n: nat)
    ensures TradesOk(Init(n))
  {
  }

  /** In every run, serialised or not: no trade id is applied twice, to whatever order. */
  lemma TradeCountsOnce(n: nat, es: seq<Event>, i: nat, j: nat)
    requires i < j < |Run(n, es).accepted| && Run(n, es).accepted[i].tradeId != ""
    ensures Run(n, es).accepted[i].tradeId != Run(n, es).accepted[j].tradeId
  {
    RunTrades(n, es);
  }

  /** A trade that arrives before its order can be found is gone for good: it stays marked as seen,
      so no later delivery of it is ever applied. */
  lemma LostTradeStaysLost(n: nat, es: seq<Event>, more: seq<Event>, trade: string)
    requires trade in Run(n, es).lost && trade != ""
    ensures trade in Run(n, es + more).lost
    ensures forall i :: 0 <= i < |Run(n, es + more).accepted| ==> Run(n, es + more).accepted[i].tradeId != trade
  {
    hide Run;
    LostStays(n, es, more, trade);
    RunTrades(n, es + more);
  }

  lemma {:induction false} LostStays(n: nat, es: seq<Event>, more: seq<Event>, trade: string)
    requires trade in Run(n, es).lost
    ensures trade in Run(n, es + more).lost
    decreases |more|
  {
    hide Run, Step;
    if more == [] {
      assert es + more == es;
    } else {
      var init, e := more[..|more| - 1], more[|more| - 1];
      LostStays(n, es, init, trade);
      assert es + more == es + init + [e];
      RunAppend(n, es + init, e);
      LostGrows(Run(n, es + init), e, trade);
    }
  }

  lemma LostGrows(s: State, e: Event, trade: string)
    requires trade in s.lost
    ensures trade in Step(s, e).lost
  {
    hide MakeId, OrderOf, Resolve, RejectTarget, Finishes;
  }

  ghost predicate IsPending(s: State, trade: string) {
    exists t :: t in s.flights && Pending(s.flights[t]) && s.flights[t].trade == trade
  }

  ghost predicate IsApplied(s: State, trade: string) {
    exists i :: 0 <= i < |s.accepted| && s.accepted[i].tradeId == trade
  }

  /** No trade is forgotten. */
  ghost predicate TradesCovered(s: State) {
    && "" !in s.seen
    && forall x :: x in s.seen ==> x in s.lost || IsPending(s, x) || IsApplied(s, x)
  }

  /** What was in flight stays there, or is applied, or is lost. */
  lemma CoveredFrame(s: State, s': State)
    requires TradesCovered(s) && s'.seen == s.seen && s.lost <= s'.lost && s.accepted <= s'.accepted
    requires forall t :: t in s.flights && Pending(s.flights[t]) && s.flights[t].trade != "" ==>
      s.flights[t].trade in s'.lost || IsPending(s', s.flights[t].trade) || IsApplied(s', s.flights[t].trade)
    ensures TradesCovered(s')
  {
    hide Pending;
    forall x | x in s.seen
      ensures x in s'.lost || IsPending(s', x) || IsApplied(s', x)
    {
      if i :| 0 <= i < |s.accepted| && s.accepted[i].tradeId == x {
        assert s'.accepted[i] == s.accepted[i];
      }
    }
  }

  /** A flight that is the same after a step is still waiting. */
  lemma StillPending(s: State, s': State, t: nat)
    requires t in s.flights && Pending(s.flights[t]) && t in s'.flights && Pending(s'.flights[t])
    requires s'.flights[t].trade == s.flights[t].trade
    ensures IsPending(s', s.flights[t].trade)
  {
  }

  lemma CoveredMark(s: State, t: nat, ex: string, price: real, qty: int, trade: string)
    requires TradesCovered(s)
    ensures TradesCovered(MarkStep(s, t, ex, price, qty, trade))
  {
    var s' := MarkStep(s, t, ex, price, qty, trade);
    forall x | x in s'.seen
      ensures x in s'.lost || IsPending(s', x) || IsApplied(s', x)
    {
      if u :| u in s.flights && Pending(s.flights[u]) && s.flights[u].trade == x {
        StillPending(s, s', u);
      } else if s' != s && x == trade {
        assert s'.flights[t].trade == x;
      } else if IsApplied(s, x) {
        assert IsApplied(s', x);
      }
    }
  }

  lemma CoveredLookup(s: State, t: nat)
    requires TradesCovered(s)
    ensures TradesCovered(LookupStep(s, t))
  {
    hide Resolve, IsPending, IsApplied, TradesCovered;
    var s' := LookupStep(s, t);
    forall u | u in s.flights && Pending(s.flights[u]) && s.flights[u].trade != ""
      ensures s.flights[u].trade in s'.lost || IsPending(s', s.flights[u].trade)
    {
      if u in s'.flights {
        StillPending(s, s', u);
      }
    }
    CoveredFrame(s, s');
  }

  lemma CoveredUpdate(s: State, t: nat, ts: nat)
    requires TradesCovered(s)
    ensures TradesCovered(UpdateStep(s, t, ts))
  {
    hide UpdateStep, FillOf, FilledOrder, FilledSm, AboutToRetire, IsPending, TradesCovered;
    UpdateEffect(s, t, ts);
    var s' := UpdateStep(s, t, ts);
    forall u | u in s.flights && Pending(s.flights[u]) && s.flights[u].trade != ""
      ensures IsPending(s', s.flights[u].trade) || IsApplied(s', s.flights[u].trade)
    {
      if s' != s && u == t {
        assert s'.accepted[|s.accepted|].tradeId == s.flights[u].trade;
      } else {
        StillPending(s, s', u);
      }
    }
    CoveredFrame(s, s');
  }

  lemma StepCovered(s: State, e: Event)
    requires TradesCovered(s)
    ensures TradesCovered(Step(s, e))
  {
    hide TradesCovered, IsPending, IsApplied;
    match e
    case Mark(t, ex, price, qty, trade) => CoveredMark(s, t, ex, price, qty, trade);
    case Lookup(t) => CoveredLookup(s, t);
    case Update(t, ts) => CoveredUpdate(s, t, ts);
    case _ => CoveredOthers(s, e);
  }

  lemma CoveredOthers(s: State, e: Event)
    requires TradesCovered(s) && !e.Mark? && !e.Lookup? && !e.Update?
    ensures TradesCovered(Step(s, e))
  {
    hide TradesCovered, IsPending, IsApplied, MakeId, OrderOf, RejectTarget;
    var s' := Step(s, e);
    forall u | u in s.flights && Pending(s.flights[u])
      ensures IsPending(s', s.flights[u].trade)
    {
      StillPending(s, s', u);
    }
    CoveredFrame(s, s');
  }

  lemma {:induction false} RunCovered(n: nat, es: seq<Event>)
    ensures TradesCovered(Run(n, es))
    decreases |es|
  {
    hide Step;
    if es != [] {
      hide TradesCovered;
      RunCovered(n, es[..|es| - 1]);
      StepCovered(Run(n, es[..|es| - 1]), es[|es| - 1]);
    }
  }

  /** In every run, serialised or not, a non-empty trade id that was seen is waiting, applied or lost,
      exactly one of these; so once nothing waits, it is applied exactly when it is not lost. */
  lemma EveryTradeIsAccountedFor(n: nat, es: seq<Event>, trade: string)
    requires trade != ""
    ensures var s := Run(n, es);
      var pending, applied, lost := IsPending(s, trade), IsApplied(s, trade), trade in s.lost;
      && (trade in s.seen <==> pending || applied || lost)
      && !(pending && applied) && !(pending && lost) && !(applied && lost)
  {
    RunTrades(n, es);
    RunCovered(n, es);
  }

  /** Of all the trades that are looked up, those are lost whose order is not in the table. */
  lemma LookupLosesExactlyUnknownOrders(n: nat, es: seq<Event>, t: nat)
    requires var s := Run(n, es); t in s.flights && s.flights[t].Marked? && s.flights[t].trade != ""
    ensures var s := Run(n, es);
      s.flights[t].trade in LookupStep(s, t).lost <==> Resolve(s, s.flights[t].exchangeId) !in s.orders
  {
    hide Resolve;
    RunTrades(n, es);
  }

  // ------------------------------------------------------------------------------- filled quantity

  /** The price of the last fill of an order, zero if there is none. */
  function LastPrice(fs: seq<Fill>, id: string): real {
    if fs == [] then 0.0
    else if fs[|fs| - 1].orderId == id then fs[|fs| - 1].price
    else LastPrice(fs[..|fs| - 1], id)
  }

  /** The record of an order sums up its fills. */
  predicate SumsUp(o: Order, fs: seq<Fill>, id: string) {
    o.filledQty == FilledBy(fs, id) && o.avgFillPrice == LastPrice(fs, id)
  }

  ghost predicate LedgerOk(s: State) {
    && (forall id :: id in s.orders ==>
          s.orders[id] < |s.slots| && SumsUp(s.slots[s.orders[id]].order, s.accepted, id))
    && (forall id :: id in s.retired ==> SumsUp(s.retired[id], s.accepted, id))
  }

  lemma FilledByAppend(fs: seq<Fill>, f: Fill, id: string)
    ensures FilledBy(fs + [f], id) == FilledBy(fs, id) + if f.orderId == id then f.quantity else 0
    ensures LastPrice(fs + [f], id) == if f.orderId == id then f.price else LastPrice(fs, id)
  {
    assert (fs + [f])[..|fs + [f]| - 1] == fs;
  }

  lemma {:induction false} FilledByNone(fs: seq<Fill>, id: string)
    requires forall i :: 0 <= i < |fs| ==> fs[i].orderId != id
    ensures FilledBy(fs, id) == 0 && LastPrice(fs, id) == 0.0
    decreases |fs|
  {
    if fs != [] {
      FilledByNone(fs[..|fs| - 1], id);
    }
  }

  /** Slots of live orders keep their filled quantity in every step but an update. */
  lemma LedgerFrame(s: State, s': State)
    requires LedgerOk(s) && SameFilled(s, s') && s'.accepted == s.accepted && s'.retired == s.retired
    ensures LedgerOk(s')
  {
  }

  lemma LedgerInsert(s: State, t: nat)
    requires LedgerOk(s) && IdsOk(s) && LiveOk(s)
    ensures LedgerOk(InsertStep(s, t))
  {
    if t in s.submits && s.submits[t].Stamped? {
      var id := s.submits[t].id;
      forall i | 0 <= i < |s.accepted|
        ensures s.accepted[i].orderId != id
      {
        assert Known(s, s.accepted[i].orderId);
      }
      FilledByNone(s.accepted, id);
    }
  }

  lemma LedgerUpdate(s: State, own: Owners, t: nat, ts: nat)
    requires LedgerOk(s) && PoolOk(s, own) && IdsOk(s) && Hits(s, Update(t, ts))
    ensures LedgerOk(UpdateStep(s, t, ts))
  {
    hide FilledSm, PoolOk, UpdateStep, FillOf;
    UpdateEffect(s, t, ts);
    if t in s.flights && s.flights[t].Found? && s.flights[t].slot < |s.slots| {
      var f, s' := s.flights[t], UpdateStep(s, t, ts);
      var fill := FillOf(s.slots[f.slot].order, f, ts);
      SlotsApart(s, own);
      assert f.id !in s.retired;
      forall id | id in s'.orders
        ensures s'.orders[id] < |s'.slots| && SumsUp(s'.slots[s'.orders[id]].order, s'.accepted, id)
      {
        FilledByAppend(s.accepted, fill, id);
      }
      forall id | id in s'.retired
        ensures SumsUp(s'.retired[id], s'.accepted, id)
      {
        FilledByAppend(s.accepted, fill, id);
      }
    }
  }

  /** Orders still in the table are the same ones, in the same slots, equally filled. */
  ghost predicate SameFilled(s: State, s': State) {
    && |s'.slots| == |s.slots|
    && forall id :: id in s'.orders ==>
         && id in s.orders && s'.orders[id] == s.orders[id] < |s.slots|
         && s'.slots[s'.orders[id]].order.filledQty == s.slots[s.orders[id]].order.filledQty
         && s'.slots[s'.orders[id]].order.avgFillPrice == s.slots[s.orders[id]].order.avgFillPrice
         && s'.slots[s'.orders[id]].order.quantity == s.slots[s.orders[id]].order.quantity
  }

  lemma FilledElsewhere(s: State, own: Owners, e: Event)
    requires PoolOk(s, own) && LiveOk(s) && !e.Insert? && !e.Update?
    ensures SameFilled(s, Step(s, e))
  {
    hide PoolOk, MakeId, Resolve, LiveOk;
    match e
    case Acquire(t, req) => PreparationFills(s, own, e);
    case Stamp(t, ts) => PreparationFills(s, own, e);
    case Ack(ex, id) => AckFills(s, own, ex, id);
    case Reject(ex) => RejectFills(s, own, ex);
    case _ => OrdersInRange(s, own);
  }

  lemma PreparationFills(s: State, own: Owners, e: Event)
    requires PoolOk(s, own) && LiveOk(s) && (e.Acquire? || e.Stamp?)
    ensures SameFilled(s, Step(s, e))
  {
    hide PoolOk, MakeId, OrderOf;
    SlotsApart(s, own);
  }

  lemma AckFills(s: State, own: Owners, ex: string, id: string)
    requires PoolOk(s, own) && LiveOk(s)
    ensures SameFilled(s, AckStep(s, ex, id))
  {
    hide PoolOk;
    SlotsApart(s, own);
  }

  lemma RejectFills(s: State, own: Owners, ex: string)
    requires PoolOk(s, own) && LiveOk(s)
    ensures SameFilled(s, RejectStep(s, ex))
  {
    hide PoolOk, RejectTarget;
    SlotsApart(s, own);
  }

  lemma StepLedger(s: State, own: Owners, e: Event)
    requires LedgerOk(s) && Inv(s, own) && Hits(s, e)
    ensures LedgerOk(Step(s, e))
  {
    hide LedgerOk, PoolOk, IdsOk, LiveOk;
    match e
    case Insert(t) => LedgerInsert(s, t);
    case Update(t, ts) => LedgerUpdate(s, own, t, ts);
    case _ =>
      FilledElsewhere(s, own, e);
      LogsElsewhere(s, e);
      hide Step;
      LedgerFrame(s, Step(s, e));
  }

  lemma LogsElsewhere(s: State, e: Event)
    requires !e.Update?
    ensures Step(s, e).accepted == s.accepted && Step(s, e).retired == s.retired
  {
    hide MakeId, Resolve, RejectTarget;
  }

  lemma {:induction false} RunLedger(n: nat, es: seq<Event>)
    requires HitRun(n, es)
    ensures LedgerOk(Run(n, es))
    decreases |es|
  {
    hide Step, LedgerOk, Inv;
    if es == [] {
      InitLedger(n);
    } else {
      RunLedger(n, es[..|es| - 1]);
      var own := RunInv(n, es[..|es| - 1]);
      StepLedger(Run(n, es[..|es| - 1]), own, es[|es| - 1]);
    }
  }

  lemma InitLedger(n: nat)
    ensures LedgerOk(Init(n))
  {
  }

  /** In every run in which updates hit, overlapping fills of one order included: the filled quantity of a
      live order, and of an order retired by a fill, is the sum of the fills applied to it, and its
      average fill price is the price of the last of them. */
  lemma FilledIsSumOfFills(n: nat, es: seq<Event>, id: string)
    requires HitRun(n, es)
    ensures var s := Run(n, es);
      && (id in s.orders ==>
            s.orders[id] < |s.slots| && SumsUp(s.slots[s.orders[id]].order, s.accepted, id))
      && (id in s.retired ==> id !in s.orders && SumsUp(s.retired[id], s.accepted, id))
  {
    RunLedger(n, es);
    var own := RunInv(n, es);
  }

  // --------------------------------------------------------------------------------- orderly runs

  /** Quantities are positive, and a fill is applied only after its order was acknowledged. */
  ghost predicate Orderly(s: State, e: Event) {
    match e
    case Acquire(_, req) => req.quantity > 0
    case Mark(_, _, _, qty, _) => qty > 0
    case Update(t, _) =>
      t in s.flights && s.flights[t].Found? && s.flights[t].slot < |s.slots| ==> !s.slots[s.flights[t].slot].sm.PENDING?
    case _ => true
  }

  ghost predicate OrderlyRun(n: nat, es: seq<Event>) {
    es != [] ==> OrderlyRun(n, es[..|es| - 1]) && Orderly(Run(n, es[..|es| - 1]), es[|es| - 1])
  }

  ghost predicate SizesOk(s: State) {
    && (forall id :: id in s.orders ==>
          && s.orders[id] < |s.slots|
          && 0 <= s.slots[s.orders[id]].order.filledQty < s.slots[s.orders[id]].order.quantity)
    && (forall t :: t in s.submits ==> s.submits[t].req.quantity > 0)
    && (forall t :: t in s.flights && Pending(s.flights[t]) ==> s.flights[t].qty > 0)
    && (forall id :: id in s.retired ==> s.retired[id].filledQty >= s.retired[id].quantity > 0)
  }

  lemma SizesUpdate(s: State, own: Owners, t: nat, ts: nat)
    requires SizesOk(s) && Inv(s, own) && Orderly(s, Update(t, ts)) && Hits(s, Update(t, ts))
    ensures SizesOk(UpdateStep(s, t, ts))
  {
    hide PoolOk, IdsOk, FillOf, UpdateStep, FilledOrder, FilledSm, IsTerminal;
    UpdateEffect(s, t, ts);
    if t in s.flights && s.flights[t].Found? && s.flights[t].slot < |s.slots| {
      SlotsApart(s, own);
      var p := s.slots[s.flights[t].slot];
      FinishedExactlyWhenFilled(p, FillOf(p.order, s.flights[t], ts));
      var s' := UpdateStep(s, t, ts);
      forall id | id in s'.orders
        ensures s'.orders[id] < |s'.slots|
        ensures 0 <= s'.slots[s'.orders[id]].order.filledQty < s'.slots[s'.orders[id]].order.quantity
      {
        assert id in s.orders && (id != s.flights[t].id ==> s.orders[id] != s.flights[t].slot);
      }
    }
  }

  /** A fill of an acknowledged order finishes it exactly when the quantity is reached. */
  lemma FinishedExactlyWhenFilled(p: Pooled, fill: Fill)
    requires p.sm.OPEN? || p.sm.PARTIAL?
    ensures var o := FilledOrder(p.order, fill);
      && o.quantity == p.order.quantity && o.filledQty == p.order.filledQty + fill.quantity
      && (IsTerminal(FilledSm(p.sm, o)) <==> o.filledQty >= o.quantity)
  {
  }

  lemma SizesFrame(s: State, s': State)
    requires SizesOk(s) && SameFilled(s, s') && s'.retired == s.retired
    requires forall t :: t in s'.submits ==> s'.submits[t].req.quantity > 0
    requires forall t :: t in s'.flights && Pending(s'.flights[t]) ==> s'.flights[t].qty > 0
    ensures SizesOk(s')
  {
  }

  lemma SizesInsert(s: State, own: Owners, t: nat)
    requires SizesOk(s) && Inv(s, own)
    ensures SizesOk(InsertStep(s, t))
  {
    hide PoolOk, IdsOk;
  }

  lemma StepSizes(s: State, own: Owners, e: Event)
    requires SizesOk(s) && Inv(s, own) && Orderly(s, e) && Hits(s, e)
    ensures SizesOk(Step(s, e))
  {
    hide SizesOk, PoolOk, IdsOk, LiveOk;
    match e
    case Insert(t) => SizesInsert(s, own, t);
    case Update(t, ts) => SizesUpdate(s, own, t, ts);
    case _ =>
      FilledElsewhere(s, own, e);
      LogsElsewhere(s, e);
      SizesInProgress(s, e);
      hide Step;
      SizesFrame(s, Step(s, e));
  }

  lemma SizesInProgress(s: State, e: Event)
    requires SizesOk(s) && Orderly(s, e) && !e.Insert? && !e.Update?
    ensures var s' := Step(s, e);
      && (forall t :: t in s'.submits ==> s'.submits[t].req.quantity > 0)
      && (forall t :: t in s'.flights && Pending(s'.flights[t]) ==> s'.flights[t].qty > 0)
  {
    hide MakeId, OrderOf, Resolve, RejectTarget;
  }

  lemma {:induction false} RunSizes(n: nat, es: seq<Event>)
    requires HitRun(n, es) && OrderlyRun(n, es)
    ensures SizesOk(Run(n, es))
    decreases |es|
  {
    hide Step, SizesOk, Inv, Orderly;
    if es == [] {
      InitSizes(n);
    } else {
      RunSizes(n, es[..|es| - 1]);
      var own := RunInv(n, es[..|es| - 1]);
      StepSizes(Run(n, es[..|es| - 1]), own, es[|es| - 1]);
    }
  }

  lemma InitSizes(n: nat)
    ensures SizesOk(Init(n))
  {
  }

  /** In every orderly run an order is in the table exactly as long as it is not filled. */
  lemma LiveMeansUnfilled(n: nat, es: seq<Event>, id: string)
    requires HitRun(n, es) && OrderlyRun(n, es)
    ensures var s := Run(n, es);
      && (id in s.orders ==>
            s.orders[id] < |s.slots| && 0 <= FilledBy(s.accepted, id) < s.slots[s.orders[id]].order.quantity)
      && (id in s.retired ==> id !in s.orders && FilledBy(s.accepted, id) >= s.retired[id].quantity > 0)
  {
    RunSizes(n, es);
    FilledIsSumOfFills(n, es, id);
  }

  /** Which updates break that: after a fill that reaches the quantity, the order stays in the table
      exactly when it had not been acknowledged. */
  lemma FilledOrderLingersExactlyWhenUnacknowledged(s: State, own: Owners, t: nat, ts: nat)
    requires Inv(s, own) && t in s.flights && s.flights[t].Found? && Hits(s, Update(t, ts))
    requires var o := s.slots[s.flights[t].slot].order; o.filledQty + s.flights[t].qty >= o.quantity
    ensures s.flights[t].id in UpdateStep(s, t, ts).orders <==> s.slots[s.flights[t].slot].sm.PENDING?
  {
    hide PoolOk, IdsOk;
    FillQuantity(s.slots[s.flights[t].slot].order, s.flights[t], ts);
  }

  /** And which fills those are: a lookup leads to an order not acknowledged only if the exchange id is
      not mapped and the order's id is what is left of it without six characters. */
  lemma PendingOnlyUnderPaperIds(n: nat, es: seq<Event>, ex: string)
    requires HitRun(n, es)
    requires var s := Run(n, es); Resolve(s, ex) in s.orders && s.orders[Resolve(s, ex)] < |s.slots|
    ensures var s := Run(n, es);
      s.slots[s.orders[Resolve(s, ex)]].sm.PENDING? ==> ex !in s.exchange && StripPaper(ex) in s.orders
  {
    hide Run, StripPaper;
    LiveTableIsConsistent(n, es);
  }

  // ------------------------------------------------------------- the record and the state machine

  /** The order's own status field says what its state machine says. */
  predicate RecordAgrees(p: Pooled) { p.order.status == p.sm }

  /** After an acknowledgement it does exactly when no fill had come before: an order acknowledged again
      after a partial fill is recorded as open while its machine stays partly filled. */
  lemma RecordAgreesAfterAckExactlyWhenUnfilled(s: State, own: Owners, ex: string, id: string)
    requires Inv(s, own) && id in s.orders
    ensures var k := s.orders[id];
      var s' := AckStep(s, ex, id);
      k < |s.slots| && k < |s'.slots| && (RecordAgrees(s'.slots[k]) <==> !s.slots[k].sm.PARTIAL?)
  {
    hide PoolOk, IdsOk;
  }

  /** After a fill it does exactly when the order had been acknowledged. */
  lemma RecordAgreesAfterFillExactlyWhenAcknowledged(s: State, own: Owners, t: nat, ts: nat)
    requires Inv(s, own) && t in s.flights && s.flights[t].Found? && Hits(s, Update(t, ts))
    ensures var k := s.flights[t].slot;
      var s' := UpdateStep(s, t, ts);
      k < |s.slots| && k < |s'.slots| && (RecordAgrees(s'.slots[k]) <==> !s.slots[k].sm.PENDING?)
  {
    hide PoolOk, IdsOk, FillOf, UpdateStep;
    UpdateEffect(s, t, ts);
  }
}
