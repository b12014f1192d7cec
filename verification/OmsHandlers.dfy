/** Whole handlers of the order manager, called by one thread at a time: each is the sequence of its
    locked sections. Paper trading is the case where no other thread ever calls. */
module OmsHandlers {
  import opened Records
  import opened OrderState
  import opened OrderIds
  import opened OrderPool
  import opened Oms
  import opened OmsInvariants

  /** `submit` up to the entry of the order in the table. */
  function Entered(s: State, req: OrderRequest, ms: nat): State {
    InsertStep(StampStep(AcquireStep(s, 0, req), 0, ms), 0)
  }

  /** `on_fill` from the deduplicator to the fill queue. */
  function Filled(s: State, ex: string, price: real, qty: int, trade: string, ts: nat): State {
    PushStep(UpdateStep(LookupStep(MarkStep(s, 0, ex, price, qty, trade), 0), 0, ts), 0)
  }

  /** `submit` in paper mode: the order is entered, acknowledged and filled in one go. */
  function PaperTraded(s: State, req: OrderRequest, ms: nat, ts: nat): State {
    if s.free == [] then s
    else
      var id := MakeId(ms, s.nextSeq);
      var ack := AckStep(Entered(s, req, ms), "PAPER-" + id, id);
      Filled(ack, "PAPER-" + id, if req.limitPrice > 0.0 then req.limitPrice else 0.0, req.quantity,
             "PAPER-TRD-" + id, ts)
  }

  predicate Quiescent(s: State) { s.submits == map[] && s.flights == map[] }

  lemma EnteredEffect(s: State, req: OrderRequest, ms: nat)
    requires Quiescent(s) && s.free != [] && s.free[|s.free| - 1] < |s.slots|
    ensures var k, id := s.free[|s.free| - 1], MakeId(ms, s.nextSeq);
      Entered(s, req, ms) ==
        s.(free := s.free[..|s.free| - 1], slots := s.slots[k := Pooled(OrderOf(id, req), PENDING)],
           orders := s.orders[id := k], nextSeq := s.nextSeq + 1)
  {
    hide MakeId, OrderOf;
    var k := s.free[|s.free| - 1];
    var s1 := AcquireStep(s, 0, req);
    assert s1.slots[k] == Pooled(BLANK, PENDING);
    var s2 := StampStep(s1, 0, ms);
    assert s2.slots == s.slots[k := Pooled(OrderOf(MakeId(ms, s.nextSeq), req), PENDING)];
    assert s2.submits - {0} == map[];
  }

  /** The part of `on_fill` behind the lookup, on an order that was found. */
  function Booked(s: State, ex: string, id: string, price: real, qty: int, trade: string, ts: nat): State
    requires id in s.orders && s.orders[id] < |s.slots|
  {
    var k := s.orders[id];
    var p := s.slots[k];
    var fill := FillOf(p.order, Found(ex, id, k, price, qty, trade), ts);
    var o := FilledOrder(p.order, fill);
    var sm := FilledSm(p.sm, o);
    var s' := s.(slots := s.slots[k := Pooled(o, sm)], accepted := s.accepted + [fill], outbox := s.outbox + [fill]);
    if IsTerminal(sm) then
      s'.(free := s.free + [k], orders := s.orders - {id}, exchange := s.exchange - {ex},
          retired := s.retired[id := o])
    else s'
  }

  lemma FilledEffect(s: State, ex: string, price: real, qty: int, trade: string, ts: nat)
    requires Quiescent(s) && forall id :: id in s.orders ==> s.orders[id] < |s.slots|
    ensures Filled(s, ex, price, qty, trade, ts) ==
      if trade != "" && trade in s.seen then s
      else
        var s1 := if trade != "" then s.(seen := s.seen + {trade}) else s;
        var id := Resolve(s, ex);
        if id in s.orders then Booked(s1, ex, id, price, qty, trade, ts)
        else s1.(lost := if trade != "" then s.lost + {trade} else s.lost)
  {
    hide Resolve, FillOf, FilledOrder, FilledSm;
    if !(trade != "" && trade in s.seen) {
      var m := MarkStep(s, 0, ex, price, qty, trade);
      var l := LookupStep(m, 0);
      assert Resolve(m, ex) == Resolve(s, ex) by { ResolveSame(s, m, ex); }
      assert map[0 := m.flights[0]] - {0} == map[];
      if Resolve(s, ex) in s.orders {
        var u := UpdateStep(l, 0, ts);
        assert u.flights - {0} == map[];
      }
    }
  }

  lemma ResolveSame(s: State, s': State, ex: string)
    requires s'.exchange == s.exchange
    ensures Resolve(s', ex) == Resolve(s, ex)
  {
  }

  // ------------------------------------------------------------------------------- paper trading

  /** Every trade id seen was made up for an order entered before. */
  ghost predicate PaperTrades(s: State) {
    forall x :: x in s.seen ==> Trailing(x) < s.nextSeq
  }

  /** A paper order is filled on the spot: whole quantity, at its limit price, and then its slot is
      free again and the tables are as before. */
  lemma PaperOrderFillsAtOnce(s: State, own: Owners, req: OrderRequest, ms: nat, ts: nat)
    requires Inv(s, own) && Quiescent(s) && s.exchange == map[] && PaperTrades(s) && s.free != []
    ensures var s' := PaperTraded(s, req, ms, ts);
      var id := MakeId(ms, s.nextSeq);
      && s'.accepted == s.accepted + [Fill(id, "PAPER-TRD-" + id, req.strategy, req.token, req.side,
                                           req.quantity, req.limitPrice, ts)]
      && s'.outbox == s.outbox + [s'.accepted[|s.accepted|]]
      && s'.free == s.free && s'.orders == s.orders && s'.exchange == map[]
      && s'.nextSeq == s.nextSeq + 1 && PaperTrades(s') && Quiescent(s')
      && id in s'.retired && s'.retired[id].status == COMPLETE
  {
    hide PoolOk, IdsOk, LiveOk, MakeId, Trailing, StripPaper, OrderOf, AckStep, Booked, Entered, Filled;
    var id := MakeId(ms, s.nextSeq);
    var trade, ex := "PAPER-TRD-" + id, "PAPER-" + id;
    var price := if req.limitPrice > 0.0 then req.limitPrice else 0.0;
    var s2 := AckStep(Entered(s, req, ms), ex, id);
    AcknowledgedEffect(s, own, req, ms, ex);
    TrailingOfId("PAPER-TRD-", ms, s.nextSeq);
    assert trade !in s2.seen;
    OrdersInRange(s, own);
    FilledEffect(s2, ex, price, req.quantity, trade, ts);
    assert s2.exchange[ex] == id && Resolve(s2, ex) == id;
    var s3 := s2.(seen := s2.seen + {trade});
    OrderOfFields(id, req);
    BookedWhole(s3, ex, id, price, trade, ts);
    assert s2.orders - {id} == s.orders;
    assert s2.exchange - {ex} == map[];
  }

  lemma OrderOfFields(id: string, req: OrderRequest)
    ensures var o := OrderOf(id, req);
      && o.id == id && o.strategy == req.strategy && o.token == req.token && o.side == req.side
      && o.quantity == req.quantity && o.filledQty == 0 && o.limitPrice == req.limitPrice
  {
  }

  lemma AcknowledgedEffect(s: State, own: Owners, req: OrderRequest, ms: nat, ex: string)
    requires Inv(s, own) && Quiescent(s) && s.free != []
    ensures var k, id := s.free[|s.free| - 1], MakeId(ms, s.nextSeq);
      && k < |s.slots| && id !in s.orders
      && AckStep(Entered(s, req, ms), ex, id) ==
           s.(free := s.free[..|s.free| - 1], slots := s.slots[k := Pooled(OrderOf(id, req).(status := OPEN), OPEN)],
              orders := s.orders[id := k], exchange := s.exchange[ex := id], nextSeq := s.nextSeq + 1)
  {
    hide PoolOk, IdsOk, LiveOk, MakeId, OrderOf;
    SlotsApart(s, own);
    NewIdIsFree(s, ms);
    assert s.free[|s.free| - 1] in s.free;
    EnteredEffect(s, req, ms);
  }

  /** A fill of the whole quantity of an open order nothing of which is filled yet. */
  lemma BookedWhole(s: State, ex: string, id: string, price: real, trade: string, ts: nat)
    requires id in s.orders && s.orders[id] < |s.slots|
    requires var p := s.slots[s.orders[id]]; p.sm == OPEN && p.order.filledQty == 0
    ensures var o := s.slots[s.orders[id]].order;
      var s' := Booked(s, ex, id, price, o.quantity, trade, ts);
      var fill := Fill(id, trade, o.strategy, o.token, o.side, o.quantity,
                       if price > 0.0 then price else o.limitPrice, ts);
      && s'.accepted == s.accepted + [fill] && s'.outbox == s.outbox + [fill]
      && s'.free == s.free + [s.orders[id]] && s'.orders == s.orders - {id} && s'.exchange == s.exchange - {ex}
      && id in s'.retired && s'.retired[id].status == COMPLETE
      && s'.nextSeq == s.nextSeq && s'.seen == s.seen && s'.submits == s.submits && s'.flights == s.flights
  {
  }

  datatype PaperCall = PaperCall(req: OrderRequest, ms: nat, ts: nat)

  /** An engine in paper mode after these submissions. */
  function PaperRun(n: nat, calls: seq<PaperCall>): State {
    if calls == [] then Init(n)
    else
      var c := calls[|calls| - 1];
      PaperTraded(PaperRun(n, calls[..|calls| - 1]), c.req, c.ms, c.ts)
  }

  /** The fill that the k-th submission should produce. */
  function PaperFill(c: PaperCall, k: nat): Fill {
    var id := MakeId(c.ms, k);
    Fill(id, "PAPER-TRD-" + id, c.req.strategy, c.req.token, c.req.side, c.req.quantity, c.req.limitPrice, c.ts)
  }

  /** In paper mode the pool never runs dry, no order stays behind, and the fills handed to the
      portfolio are the submissions themselves, each once and in order. */
  lemma {:induction false} PaperModeMirrorsSubmissions(n: nat, calls: seq<PaperCall>)
    requires n > 0
    ensures var s := PaperRun(n, calls);
      && s.outbox == seq(|calls|, k requires 0 <= k < |calls| => PaperFill(calls[k], k))
      && s.accepted == s.outbox
      && s.free == AllSlots(n) && s.orders == map[] && s.exchange == map[]
      && s.nextSeq == |calls| && PaperTrades(s) && Quiescent(s)
      && exists own :: Inv(s, own)
    decreases |calls|
  {
    hide Inv, MakeId, PaperTraded, PaperTrades;
    if calls == [] {
      InitInv(n);
      assert PaperTrades(Init(n)) by { NoTradesYet(n); }
    } else {
      var init, c := calls[..|calls| - 1], calls[|calls| - 1];
      PaperModeMirrorsSubmissions(n, init);
      var s := PaperRun(n, init);
      var own :| Inv(s, own);
      PaperOrderFillsAtOnce(s, own, c.req, c.ms, c.ts);
      var own' := PaperKeepsInv(s, own, c.req, c.ms, c.ts);
      assert PaperRun(n, calls) == PaperTraded(s, c.req, c.ms, c.ts);
    }
  }

  lemma NoTradesYet(n: nat)
    ensures PaperTrades(Init(n))
  {
  }

  // ------------------------------------------------------------- the handlers keep the invariant

  lemma EnteredKeepsInv(s: State, own: Owners, req: OrderRequest, ms: nat) returns (own': Owners)
    requires Inv(s, own)
    ensures |own'| == |own| && Inv(Entered(s, req, ms), own')
  {
    hide Inv, AcquireStep, StampStep, InsertStep;
    own' := StepKeepsInv(s, own, Acquire(0, req));
    own' := StepKeepsInv(AcquireStep(s, 0, req), own', Stamp(0, ms));
    own' := StepKeepsInv(StampStep(AcquireStep(s, 0, req), 0, ms), own', Insert(0));
  }

  /** An update right after its lookup hits. */
  lemma FoundNowHits(s: State, t: nat, ts: nat)
    requires t in s.flights ==> s.flights[t].Marked?
    ensures Hits(LookupStep(s, t), Update(t, ts))
  {
    hide Resolve;
  }

  /** With no other fill in progress the four steps of a fill follow one another. */
  lemma FilledKeepsInv(s: State, own: Owners, ex: string, price: real, qty: int, trade: string, ts: nat)
    returns (own': Owners)
    requires Inv(s, own) && s.flights == map[]
    ensures |own'| == |own| && Inv(Filled(s, ex, price, qty, trade, ts), own')
  {
    hide Inv, LookupStep, UpdateStep, PushStep;
    own' := StepKeepsInv(s, own, Mark(0, ex, price, qty, trade));
    var m := MarkStep(s, 0, ex, price, qty, trade);
    own' := StepKeepsInv(m, own', Lookup(0));
    FoundNowHits(m, 0, ts);
    own' := StepKeepsInv(LookupStep(m, 0), own', Update(0, ts));
    own' := StepKeepsInv(UpdateStep(LookupStep(m, 0), 0, ts), own', Push(0));
  }

  lemma PaperKeepsInv(s: State, own: Owners, req: OrderRequest, ms: nat, ts: nat) returns (own': Owners)
    requires Inv(s, own) && Quiescent(s)
    ensures |own'| == |own| && Inv(PaperTraded(s, req, ms, ts), own')
  {
    hide Inv, AckStep, Filled, MakeId;
    own' := own;
    if s.free != [] {
      var id := MakeId(ms, s.nextSeq);
      own' := EnteredKeepsInv(s, own, req, ms);
      var e := Entered(s, req, ms);
      assert e.flights == map[] by { EnteredFlights(s, req, ms); }
      own' := StepKeepsInv(e, own', Ack("PAPER-" + id, id));
      var a := AckStep(e, "PAPER-" + id, id);
      assert a.flights == map[] by { FlightsElsewhere(e, Ack("PAPER-" + id, id)); }
      own' := FilledKeepsInv(a, own', "PAPER-" + id, if req.limitPrice > 0.0 then req.limitPrice else 0.0,
        req.quantity, "PAPER-TRD-" + id, ts);
    }
  }

  lemma FlightsElsewhere(s: State, e: Event)
    requires e.Acquire? || e.Stamp? || e.Insert? || e.Ack?
    ensures Step(s, e).flights == s.flights
  {
    hide MakeId, OrderOf;
  }

  lemma EnteredFlights(s: State, req: OrderRequest, ms: nat)
    ensures Entered(s, req, ms).flights == s.flights
  {
    hide AcquireStep, StampStep, InsertStep;
    FlightsElsewhere(s, Acquire(0, req));
    FlightsElsewhere(AcquireStep(s, 0, req), Stamp(0, ms));
    FlightsElsewhere(StampStep(AcquireStep(s, 0, req), 0, ms), Insert(0));
  }

  lemma NewIdIsFree(s: State, ms: nat)
    requires IdsOk(s)
    ensures MakeId(ms, s.nextSeq) !in s.orders
  {
    TrailingOfId("", ms, s.nextSeq);
    assert "" + MakeId(ms, s.nextSeq) == MakeId(ms, s.nextSeq);
  }
}
