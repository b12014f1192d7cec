/** What the order manager writes down: an order says what was requested, a fill says what its order says,
    and each handler changes exactly what it should. */
module OmsRecords {
  import opened Records
  import opened OrderState
  import opened OrderIds
  import opened OrderPool
  import opened Oms
  import opened OmsInvariants
  import opened OmsHandlers

  // ------------------------------------------------------------------- requests, orders and fills

  predicate Terms(o: Order, id: string, req: OrderRequest) {
    && o.id == id && o.strategy == req.strategy && o.token == req.token && o.side == req.side
    && o.orderType == req.orderType && o.quantity == req.quantity && o.limitPrice == req.limitPrice
  }

  predicate FillTerms(f: Fill, req: OrderRequest) {
    f.strategy == req.strategy && f.token == req.token && f.side == req.side
  }

  /** What was requested under each id made up so far. */
  function Requests(n: nat, es: seq<Event>): map<string, OrderRequest> {
    if es == [] then map[] else Requested(Run(n, es[..|es| - 1]), es[|es| - 1], Requests(n, es[..|es| - 1]))
  }

  function Requested(s: State, e: Event, reqs: map<string, OrderRequest>): map<string, OrderRequest> {
    if e.Stamp? && e.t in s.submits && s.submits[e.t].Acquired? && s.submits[e.t].slot < |s.slots| then
      reqs[MakeId(e.ts, s.nextSeq) := s.submits[e.t].req]
    else reqs
  }

  ghost predicate TermsOk(s: State, reqs: map<string, OrderRequest>) {
    && (forall id :: id in reqs ==> Trailing(id) < s.nextSeq)
    && (forall id :: id in s.orders ==>
          id in reqs && s.orders[id] < |s.slots| && Terms(s.slots[s.orders[id]].order, id, reqs[id]))
    && (forall t :: t in s.submits && s.submits[t].Stamped? ==>
          && s.submits[t].id in reqs && s.submits[t].slot < |s.slots|
          && Terms(s.slots[s.submits[t].slot].order, s.submits[t].id, reqs[s.submits[t].id]))
    && (forall id :: id in s.retired ==> id in reqs && Terms(s.retired[id], id, reqs[id]))
    && (forall i :: 0 <= i < |s.accepted| ==>
          s.accepted[i].orderId in reqs && FillTerms(s.accepted[i], reqs[s.accepted[i].orderId]))
  }

  lemma TermsAcquire(s: State, own: Owners, t: nat, req: OrderRequest, reqs: map<string, OrderRequest>)
    requires TermsOk(s, reqs) && PoolOk(s, own)
    ensures TermsOk(AcquireStep(s, t, req), reqs)
  {
    hide PoolOk, Terms, FillTerms, Trailing;
    SlotsApart(s, own);
  }

  lemma TermsStamp(s: State, own: Owners, t: nat, ts: nat, reqs: map<string, OrderRequest>)
    requires TermsOk(s, reqs) && PoolOk(s, own)
    ensures TermsOk(StampStep(s, t, ts), Requested(s, Stamp(t, ts), reqs))
  {
    hide PoolOk, FillTerms, Trailing, MakeId;
    SlotsApart(s, own);
    TrailingOfId("", ts, s.nextSeq);
    assert "" + MakeId(ts, s.nextSeq) == MakeId(ts, s.nextSeq);
    assert MakeId(ts, s.nextSeq) !in reqs;
  }

  lemma TermsInsert(s: State, t: nat, reqs: map<string, OrderRequest>)
    requires TermsOk(s, reqs)
    ensures TermsOk(InsertStep(s, t), reqs)
  {
    hide Terms, FillTerms, Trailing;
  }

  lemma TermsAck(s: State, own: Owners, ex: string, id: string, reqs: map<string, OrderRequest>)
    requires TermsOk(s, reqs) && PoolOk(s, own)
    ensures TermsOk(AckStep(s, ex, id), reqs)
  {
    hide PoolOk, FillTerms, Trailing;
    SlotsApart(s, own);
  }

  lemma TermsUpdate(s: State, own: Owners, t: nat, ts: nat, reqs: map<string, OrderRequest>)
    requires TermsOk(s, reqs) && PoolOk(s, own) && Hits(s, Update(t, ts))
    ensures TermsOk(UpdateStep(s, t, ts), reqs)
  {
    hide PoolOk, Trailing, UpdateStep, FilledSm, AboutToRetire, Terms, FillTerms, FillOf, FilledOrder;
    UpdateEffect(s, t, ts);
    if t in s.flights && s.flights[t].Found? && s.flights[t].slot < |s.slots| {
      SlotsApart(s, own);
      var f := s.flights[t];
      FilledTerms(s.slots[f.slot].order, f, ts, reqs[f.id]);
    }
  }

  lemma FilledTerms(o: Order, f: Flight, ts: nat, req: OrderRequest)
    requires f.Found? && Terms(o, f.id, req)
    ensures FillTerms(FillOf(o, f, ts), req) && Terms(FilledOrder(o, FillOf(o, f, ts)), f.id, req)
  {
  }

  lemma TermsReject(s: State, own: Owners, ex: string, reqs: map<string, OrderRequest>)
    requires TermsOk(s, reqs) && PoolOk(s, own)
    ensures TermsOk(RejectStep(s, ex), reqs)
  {
    hide PoolOk, Terms, FillTerms, Trailing, RejectTarget;
    SlotsApart(s, own);
  }

  lemma TermsFrame(s: State, s': State, reqs: map<string, OrderRequest>)
    requires TermsOk(s, reqs) && s'.nextSeq == s.nextSeq && s'.slots == s.slots && s'.submits == s.submits
    requires s'.retired == s.retired && s'.accepted == s.accepted
    requires forall id :: id in s'.orders ==> id in s.orders && s'.orders[id] == s.orders[id]
    ensures TermsOk(s', reqs)
  {
    hide Terms, FillTerms, Trailing;
  }

  lemma StepTerms(s: State, own: Owners, e: Event, reqs: map<string, OrderRequest>)
    requires TermsOk(s, reqs) && PoolOk(s, own) && Hits(s, e)
    ensures TermsOk(Step(s, e), Requested(s, e, reqs))
  {
    hide TermsOk, PoolOk, AcquireStep, StampStep, InsertStep, AckStep, UpdateStep, RejectStep, Resolve;
    match e
    case Acquire(t, req) => TermsAcquire(s, own, t, req, reqs);
    case Stamp(t, ts) => TermsStamp(s, own, t, ts, reqs);
    case Insert(t) => TermsInsert(s, t, reqs);
    case Ack(ex, id) => TermsAck(s, own, ex, id, reqs);
    case Update(t, ts) => TermsUpdate(s, own, t, ts, reqs);
    case Reject(ex) => TermsReject(s, own, ex, reqs);
    case _ => TermsFrame(s, Step(s, e), reqs);
  }

  lemma {:induction false} RunTerms(n: nat, es: seq<Event>)
    requires HitRun(n, es)
    ensures TermsOk(Run(n, es), Requests(n, es))
    decreases |es|
  {
    hide Step, TermsOk, Inv, Hits, Requested;
    if es == [] {
      NoTerms(n);
    } else {
      var init, e := es[..|es| - 1], es[|es| - 1];
      RunTerms(n, init);
      var own := RunInv(n, init);
      assert PoolOk(Run(n, init), own) by {
        PoolOfInv(Run(n, init), own);
      }
      StepTerms(Run(n, init), own, e, Requests(n, init));
    }
  }

  lemma NoTerms(n: nat)
    ensures TermsOk(Init(n), map[])
  {
  }

  lemma PoolOfInv(s: State, own: Owners)
    requires Inv(s, own)
    ensures PoolOk(s, own)
  {
  }

  /** From the request to the portfolio, through any overlapping handlers: a live order, and one retired by a
      fill, is the one that was requested under its id, and so is what every fill says of strategy, instrument
      and side. */
  lemma FillsFollowRequests(n: nat, es: seq<Event>)
    requires HitRun(n, es)
    ensures var s, reqs := Run(n, es), Requests(n, es);
      && (forall id :: id in s.orders ==>
            id in reqs && s.orders[id] < |s.slots| && Terms(s.slots[s.orders[id]].order, id, reqs[id]))
      && (forall id :: id in s.retired ==> id in reqs && Terms(s.retired[id], id, reqs[id]))
      && (forall i :: 0 <= i < |s.accepted| ==>
            s.accepted[i].orderId in reqs && FillTerms(s.accepted[i], reqs[s.accepted[i].orderId]))
  {
    hide Terms, FillTerms;
    RunTerms(n, es);
  }

  // ------------------------------------------------------------------------- handlers, literally

  /** A submission takes the slot freed last and writes the request into a clean record. */
  lemma SubmissionWrites(s: State, own: Owners, req: OrderRequest, ms: nat)
    requires Inv(s, own) && Quiescent(s) && s.free != []
    ensures var k, id := s.free[|s.free| - 1], MakeId(ms, s.nextSeq);
      && k < |s.slots| && id !in s.orders
      && Entered(s, req, ms) == s.(
           free := s.free[..|s.free| - 1], orders := s.orders[id := k], nextSeq := s.nextSeq + 1,
           slots := s.slots[k := Pooled(
             Order(id, req.strategy, req.token, req.side, req.orderType, PENDING, req.quantity, 0,
                   req.limitPrice, 0.0, 0), PENDING)])
  {
    hide PoolOk, IdsOk, LiveOk, MakeId, Entered;
    SlotsApart(s, own);
    NewIdIsFree(s, ms);
    assert s.free[|s.free| - 1] in s.free;
    EnteredEffect(s, req, ms);
  }

  /** An acknowledgement of a live order maps the exchange id to it and opens it if it was pending; one of any
      other id does nothing. */
  lemma AckWrites(s: State, own: Owners, ex: string, id: string)
    requires Inv(s, own)
    ensures id !in s.orders ==> AckStep(s, ex, id) == s
    ensures id in s.orders ==>
      var k := s.orders[id];
      k < |s.slots| && AckStep(s, ex, id) == s.(
        exchange := s.exchange[ex := id],
        slots := s.slots[k := Pooled(s.slots[k].order.(status := OPEN),
                                     if s.slots[k].sm == PENDING then OPEN else s.slots[k].sm)])
  {
    hide PoolOk, IdsOk;
  }

  /** A trade, unless its id was seen, enters as it is; one without an id always does. */
  lemma TradeEnters(s: State, t: nat, ex: string, price: real, qty: int, trade: string)
    requires t !in s.flights
    ensures trade == "" || trade !in s.seen ==>
      MarkStep(s, t, ex, price, qty, trade) == s.(
        seen := if trade == "" then s.seen else s.seen + {trade},
        flights := s.flights[t := Marked(ex, price, qty, trade)])
    ensures trade != "" && trade in s.seen ==> MarkStep(s, t, ex, price, qty, trade) == s
  {
  }

  /** A lookup keeps the trade as it is and adds the order it is for: the one the exchange id is mapped to, or,
      if it is not mapped, the one whose id is left without its first six characters. */
  lemma LookupFinds(s: State, t: nat)
    requires t in s.flights && s.flights[t].Marked?
    ensures var f := s.flights[t];
      var ex := f.exchangeId;
      var id := if ex in s.exchange then s.exchange[ex] else if |ex| > 6 then ex[6..] else ex;
      LookupStep(s, t) ==
        if id in s.orders then
          s.(flights := s.flights[t := Found(ex, id, s.orders[id], f.price, f.qty, f.trade)])
        else s.(flights := s.flights - {t}, lost := if f.trade == "" then s.lost else s.lost + {f.trade})
  {
  }

  /** The update applies one fill: the exchange's quantity and, if positive, its price, for what the order says;
      and it gives up order, slot and exchange id exactly if the order was acknowledged and is now filled. */
  lemma UpdateWrites(s: State, own: Owners, t: nat, ts: nat)
    requires Inv(s, own) && t in s.flights && s.flights[t].Found? && Hits(s, Update(t, ts))
    ensures s.flights[t].slot < |s.slots|
    ensures var f, p := s.flights[t], s.slots[s.flights[t].slot];
      var price := if f.price > 0.0 then f.price else p.order.limitPrice;
      var fill := Fill(f.id, f.trade, p.order.strategy, p.order.token, p.order.side, f.qty, price, ts);
      var full := p.order.filledQty + f.qty >= p.order.quantity;
      var o := p.order.(filledQty := p.order.filledQty + f.qty, avgFillPrice := price, lastUpdate := ts,
                        status := if full then COMPLETE else PARTIAL);
      var sm := if p.sm == PENDING then PENDING else if full then COMPLETE else PARTIAL;
      var s' := s.(slots := s.slots[f.slot := Pooled(o, sm)], flights := s.flights[t := Ready(fill)],
                   accepted := s.accepted + [fill]);
      UpdateStep(s, t, ts) ==
        if p.sm != PENDING && full then
          s'.(free := s.free + [f.slot], orders := s.orders - {f.id}, exchange := s.exchange - {f.exchangeId},
              retired := s.retired[f.id := o])
        else s'
  {
    hide PoolOk, IdsOk;
  }

  /** A rejection is for the order that its exchange id is mapped to, and, if it is not mapped, for the order of
      that very id. If that order is live, and only then, it leaves the table, its slot is free again and the
      exchange id is forgotten; the machine in the slot is rejected only if the order was still pending. */
  lemma RejectRetires(s: State, own: Owners, ex: string)
    requires Inv(s, own)
    ensures var id := if ex in s.exchange then s.exchange[ex] else ex;
      && (id !in s.orders ==> RejectStep(s, ex) == s)
      && (id in s.orders ==>
            var k := s.orders[id];
            k < |s.slots| && RejectStep(s, ex) == s.(
              orders := s.orders - {id}, exchange := s.exchange - {ex}, free := s.free + [k],
              slots := s.slots[k := Pooled(s.slots[k].order,
                                           if s.slots[k].sm == PENDING then REJECTED else s.slots[k].sm)]))
  {
    hide PoolOk, IdsOk;
  }

  /** A live submission that failed takes its own order out, if it is still there. */
  lemma AbortRetires(s: State, id: string)
    ensures id !in s.orders ==> AbortStep(s, id) == s
    ensures id in s.orders ==> AbortStep(s, id) == s.(orders := s.orders - {id}, free := s.free + [s.orders[id]])
  {
  }
}
