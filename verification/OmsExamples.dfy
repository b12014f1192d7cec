/** Short runs of the order manager in which the conditions of the exact statements fail. */
module OmsExamples {
  import opened Records
  import opened OrderState
  import opened OrderIds
  import opened OrderPool
  import opened Oms
  import opened OmsInvariants
  import opened OmsAccounting
  import opened OmsAverages

  function Buy(quantity: int): OrderRequest { OrderRequest(7, BUY, MARKET, quantity, 0.0, "s") }

  const ID: string := MakeId(0, 0)

  /** The order has been entered, and nothing else has happened. */
  function Placed(o: Order): State {
    State([Pooled(o, PENDING)], [], map[ID := 0], map[], {}, 1, map[], map[], [], [], {}, map[])
  }

  lemma PlacedState(req: OrderRequest)
    ensures InsertStep(StampStep(AcquireStep(Init(1), 0, req), 0, 0), 0) == Placed(OrderOf(ID, req))
  {
    hide MakeId, OrderOf;
    var s1 := AcquireStep(Init(1), 0, req);
    assert s1.free == [] && s1.slots == [Pooled(BLANK, PENDING)] && s1.submits == map[0 := Acquired(0, req)];
    var s2 := StampStep(s1, 0, 0);
    assert s2.submits == map[0 := Stamped(0, ID, req)] && s2.submits - {0} == map[];
    assert s2.slots == [Pooled(OrderOf(ID, req), PENDING)];
  }

  /** One more event. */
  lemma Then(n: nat, es: seq<Event>, e: Event) returns (es': seq<Event>)
    ensures Run(n, es') == Step(Run(n, es), e)
    ensures HitRun(n, es') <==> HitRun(n, es) && Hits(Run(n, es), e)
    ensures SerialRun(n, es') <==> SerialRun(n, es) && Serialised(Run(n, es), e)
  {
    es' := es + [e];
    RunAppend(n, es, e);
    assert es'[..|es'| - 1] == es;
  }

  lemma PlaceOrder(req: OrderRequest) returns (es: seq<Event>)
    ensures Run(1, es) == Placed(OrderOf(ID, req)) && HitRun(1, es)
  {
    hide AcquireStep, StampStep, InsertStep, Placed, OrderOf;
    PlacedState(req);
    es := [];
    assert Run(1, es) == Init(1);
    es := Then(1, es, Acquire(0, req));
    es := Then(1, es, Stamp(0, 0));
    es := Then(1, es, Insert(0));
  }

  // ------------------------------------------------------------------------- two fills that overlap

  /** Acknowledged as "E", and with two trades for it, both past their lookup. */
  function TwoTradesFound(s: State): State {
    LookupStep(LookupStep(MarkStep(MarkStep(AckStep(s, "E", ID), 1, "E", 1.0, 1, "T1"), 2, "E", 1.0, 1, "T2"), 1), 2)
  }

  lemma TwoTradesState(o: Order)
    ensures var s := TwoTradesFound(Placed(o));
      && s.free == [] && s.slots == [Pooled(o.(status := OPEN), OPEN)]
      && s.flights == map[1 := Found("E", ID, 0, 1.0, 1, "T1"), 2 := Found("E", ID, 0, 1.0, 1, "T2")]
  {
    hide MakeId;
    var s1 := AckStep(Placed(o), "E", ID);
    assert s1.exchange == map["E" := ID] && s1.slots == [Pooled(o.(status := OPEN), OPEN)];
    var s2 := MarkStep(MarkStep(s1, 1, "E", 1.0, 1, "T1"), 2, "E", 1.0, 1, "T2");
    assert s2.flights == map[1 := Marked("E", 1.0, 1, "T1"), 2 := Marked("E", 1.0, 1, "T2")];
  }

  /** Ten steps suffice: one order for one unit, and two trades for it that overlap. */
  lemma DoubleReleaseHappens() returns (es: seq<Event>)
    ensures !NoDuplicates(Run(1, es).free)
  {
    hide Run, Placed, AckStep, MarkStep, LookupStep, UpdateStep;
    var o := OrderOf(ID, Buy(1));
    TwoTradesState(o);
    var s := TwoTradesFound(Placed(o));
    UpdateCompletes(s, 1, 0);
    UpdateCompletes(UpdateStep(s, 1, 0), 2, 0);
    var free := UpdateStep(UpdateStep(s, 1, 0), 2, 0).free;
    assert free == [0, 0] && free[0] == free[1];
    es := PlaceOrder(Buy(1));
    es := Then(1, es, Ack("E", ID));
    es := Then(1, es, Mark(1, "E", 1.0, 1, "T1"));
    es := Then(1, es, Mark(2, "E", 1.0, 1, "T2"));
    es := Then(1, es, Lookup(1));
    es := Then(1, es, Lookup(2));
    es := Then(1, es, Update(1, 0));
    es := Then(1, es, Update(2, 0));
  }

  /** The two trades overlap in the same way for an order of three units: nothing is serialised, every update
      hits, and the order is live with two units filled. */
  lemma OverlapThatHits() returns (es: seq<Event>)
    ensures HitRun(1, es) && !SerialRun(1, es)
    ensures var s := Run(1, es);
      && ID in s.orders && s.orders[ID] < |s.slots|
      && s.slots[s.orders[ID]].order.filledQty == 2 == FilledBy(s.accepted, ID)
  {
    hide Run, HitRun, SerialRun, Placed, AckStep, MarkStep, LookupStep, UpdateStep, MakeId;
    var o := OrderOf(ID, Buy(3));
    TwoTradesState(o);
    TwoTradesOrders(o);
    es := PlaceOrder(Buy(3));
    es := Then(1, es, Ack("E", ID));
    es := Then(1, es, Mark(1, "E", 1.0, 1, "T1"));
    es := Then(1, es, Mark(2, "E", 1.0, 1, "T2"));
    es := Then(1, es, Lookup(1));
    OneFound(o);
    es := Then(1, es, Lookup(2));
    var s := TwoTradesFound(Placed(o));
    PartialUpdate(s, 1);
    es := Then(1, es, Update(1, 0));
    PartialUpdate(UpdateStep(s, 1, 0), 2);
    es := Then(1, es, Update(2, 0));
    FilledIsSumOfFills(1, es, ID);
  }

  lemma TwoTradesOrders(o: Order)
    ensures TwoTradesFound(Placed(o)).orders == map[ID := 0]
  {
    hide MakeId;
  }

  /** The second lookup finds the first fill between its two sections. */
  lemma OneFound(o: Order)
    ensures var s := LookupStep(
        MarkStep(MarkStep(AckStep(Placed(o), "E", ID), 1, "E", 1.0, 1, "T1"), 2, "E", 1.0, 1, "T2"), 1);
      !Serialised(s, Lookup(2))
  {
    hide MakeId;
    var s0 := AckStep(Placed(o), "E", ID);
    assert s0.exchange == map["E" := ID];
    var s := LookupStep(MarkStep(MarkStep(s0, 1, "E", 1.0, 1, "T1"), 2, "E", 1.0, 1, "T2"), 1);
    assert s.flights[1] == Found("E", ID, 0, 1.0, 1, "T1");
    assert Busy(s, ID);
  }

  lemma PartialUpdate(s: State, t: nat)
    requires s.orders == map[ID := 0] && |s.slots| == 1 && (s.slots[0].sm.OPEN? || s.slots[0].sm.PARTIAL?)
    requires t in s.flights && s.flights[t].Found? && s.flights[t].slot == 0 && s.flights[t].qty == 1
    requires s.slots[0].order.filledQty + 1 < s.slots[0].order.quantity
    ensures var s' := UpdateStep(s, t, 0);
      && s'.orders == s.orders && s'.flights == s.flights[t := s'.flights[t]]
      && |s'.slots| == 1 && s'.slots[0].sm.PARTIAL?
      && s'.slots[0].order.filledQty == s.slots[0].order.filledQty + 1
      && s'.slots[0].order.quantity == s.slots[0].order.quantity
  {
    hide MakeId;
  }

  // ------------------------------------------------------------------------------ a trade too early

  function EarlyTrade(s: State): State {
    AckStep(LookupStep(MarkStep(s, 1, "E", 1.0, 1, "T"), 1), "E", ID)
  }

  lemma EarlyTradeState(o: Order)
    ensures EarlyTrade(Placed(o)) ==
      Placed(o).(seen := {"T"}, lost := {"T"}, exchange := map["E" := ID],
                 slots := [Pooled(o.(status := OPEN), OPEN)])
  {
    assert ID[0] == 'Q' && "E" != ID;
    hide MakeId;
    var s1 := MarkStep(Placed(o), 1, "E", 1.0, 1, "T");
    assert s1.flights == map[1 := Marked("E", 1.0, 1, "T")] && s1.flights - {1} == map[];
    assert Resolve(s1, "E") == "E";
  }

  /** The trade comes before the acknowledgement: it is lost. Delivered again after it, it is taken for
      a duplicate and changes nothing, and the order stays open and empty. */
  lemma EarlyTradeIsLost() returns (es: seq<Event>)
    ensures var s := Run(1, es);
      && "T" in s.lost && s.accepted == [] && s.flights == map[] && Resolve(s, "E") in s.orders
      && |s.slots| == 1 && s.slots[0].sm == OPEN && s.slots[0].order.filledQty == 0 < s.slots[0].order.quantity
      && Step(s, Mark(2, "E", 1.0, 1, "T")) == s
  {
    hide Run, MakeId;
    var o := OrderOf(ID, Buy(1));
    EarlyTradeState(o);
    es := PlaceOrder(Buy(1));
    es := Then(1, es, Mark(1, "E", 1.0, 1, "T"));
    es := Then(1, es, Lookup(1));
    es := Then(1, es, Ack("E", ID));
    assert Run(1, es) == EarlyTrade(Placed(o));
  }

  // ---------------------------------------------------------------------- a fill of a pending order

  function FilledUnacknowledged(s: State): State {
    UpdateStep(LookupStep(MarkStep(s, 1, "PAPER-" + ID, 1.0, 1, "T"), 1), 1, 0)
  }

  lemma FilledUnacknowledgedState(o: Order)
    requires o.quantity == 1 && o.filledQty == 0
    ensures var s := FilledUnacknowledged(Placed(o));
      && s.orders == map[ID := 0] && |s.slots| == 1 && s.slots[0].sm == PENDING
      && s.slots[0].order.status == COMPLETE && s.slots[0].order.filledQty == 1 == s.slots[0].order.quantity
  {
    StripPaperRoundTrip(0, 0);
    hide MakeId, StripPaper;
    var s1 := MarkStep(Placed(o), 1, "PAPER-" + ID, 1.0, 1, "T");
    assert s1.flights == map[1 := Marked("PAPER-" + ID, 1.0, 1, "T")];
    var s2 := LookupStep(s1, 1);
    assert s2.flights == map[1 := Found("PAPER-" + ID, ID, 0, 1.0, 1, "T")];
  }

  /** A trade reaches an order that is not acknowledged only under an exchange id that ends in the
      order's own id. Then the order is filled, recorded as complete, and still in the table with its
      machine pending. */
  lemma PendingOrderIsFilledAndLingers() returns (es: seq<Event>)
    ensures var s := Run(1, es);
      && ID in s.orders && s.orders[ID] < |s.slots|
      && var p := s.slots[s.orders[ID]];
         p.order.filledQty >= p.order.quantity > 0 && p.sm == PENDING && !RecordAgrees(p)
  {
    hide Run, MakeId, MarkStep, LookupStep, UpdateStep, Placed;
    FilledUnacknowledgedState(OrderOf(ID, Buy(1)));
    es := PlaceOrder(Buy(1));
    es := Then(1, es, Mark(1, "PAPER-" + ID, 1.0, 1, "T"));
    es := Then(1, es, Lookup(1));
    es := Then(1, es, Update(1, 0));
  }

  // ------------------------------------------------------------------------ a second acknowledgement

  function PartlyFilled(s: State): State {
    UpdateStep(LookupStep(MarkStep(AckStep(s, "E", ID), 1, "E", 1.0, 1, "T"), 1), 1, 0)
  }

  lemma PartlyFilledState(o: Order)
    requires o.quantity == 2 && o.filledQty == 0
    ensures var s := PartlyFilled(Placed(o));
      s.orders == map[ID := 0] && |s.slots| == 1 && s.slots[0].sm == PARTIAL && s.slots[0].order.status == PARTIAL
  {
    hide MakeId;
    var s1 := AckStep(Placed(o), "E", ID);
    assert s1.exchange == map["E" := ID] && s1.slots == [Pooled(o.(status := OPEN), OPEN)];
    var s2 := LookupStep(MarkStep(s1, 1, "E", 1.0, 1, "T"), 1);
    assert s2.flights == map[1 := Found("E", ID, 0, 1.0, 1, "T")];
  }

  /** Acknowledged again after half of it was filled, the order is recorded as open. */
  lemma SecondAckDisagrees() returns (es: seq<Event>)
    ensures var s := Run(1, es);
      && ID in s.orders && s.orders[ID] < |s.slots|
      && s.slots[s.orders[ID]].sm == PARTIAL && s.slots[s.orders[ID]].order.status == OPEN
  {
    hide Run, MakeId, MarkStep, LookupStep, UpdateStep, Placed;
    PartlyFilledState(OrderOf(ID, Buy(2)));
    es := PlaceOrder(Buy(2));
    es := Then(1, es, Ack("E", ID));
    es := Then(1, es, Mark(1, "E", 1.0, 1, "T"));
    es := Then(1, es, Lookup(1));
    es := Then(1, es, Update(1, 0));
    es := Then(1, es, Ack("E", ID));
  }

  // ------------------------------------------------------------------------------- fills at two prices

  function BothFilled(s: State): State {
    UpdateStep(LookupStep(MarkStep(PartlyFilled(s), 2, "E", 3.0, 1, "U"), 2), 2, 0)
  }

  lemma BothFilledState(o: Order)
    requires o.quantity == 2 && o.filledQty == 0
    ensures var s := BothFilled(Placed(o));
      && ID in s.retired && s.retired[ID].filledQty == 2 && s.retired[ID].avgFillPrice == 3.0
      && |s.accepted| == 2
      && s.accepted[0].orderId == ID && s.accepted[0].quantity == 1 && s.accepted[0].price == 1.0
      && s.accepted[1].orderId == ID && s.accepted[1].quantity == 1 && s.accepted[1].price == 3.0
  {
    hide MakeId;
    var s1 := AckStep(Placed(o), "E", ID);
    assert s1.exchange == map["E" := ID] && s1.slots == [Pooled(o.(status := OPEN), OPEN)];
    var s2 := LookupStep(MarkStep(s1, 1, "E", 1.0, 1, "T"), 1);
    assert s2.flights == map[1 := Found("E", ID, 0, 1.0, 1, "T")];
    var s3 := PartlyFilled(Placed(o));
    assert s3.slots[0].sm == PARTIAL && s3.slots[0].order.filledQty == 1 && s3.slots[0].order.quantity == 2;
    assert s3.exchange == map["E" := ID] && s3.orders == map[ID := 0] && 2 !in s3.flights && s3.seen == {"T"};
    var s4 := LookupStep(MarkStep(s3, 2, "E", 3.0, 1, "U"), 2);
    assert s4.flights[2] == Found("E", ID, 0, 3.0, 1, "U") && s4.slots == s3.slots && s4.accepted == s3.accepted;
  }

  /** One unit at 1 and one at 3 cost 4, and the record says two at 3. */
  lemma AverageIsTheLastPrice() returns (es: seq<Event>)
    ensures var s := Run(1, es);
      && ID in s.retired && s.retired[ID].filledQty == 2 && s.retired[ID].avgFillPrice == 3.0
      && Cost(s.accepted, ID) == 4.0
  {
    hide Run, MakeId, AckStep, MarkStep, LookupStep, UpdateStep, Placed;
    BothFilledState(OrderOf(ID, Buy(2)));
    es := PlaceOrder(Buy(2));
    es := Then(1, es, Ack("E", ID));
    es := Then(1, es, Mark(1, "E", 1.0, 1, "T"));
    es := Then(1, es, Lookup(1));
    es := Then(1, es, Update(1, 0));
    es := Then(1, es, Mark(2, "E", 3.0, 1, "U"));
    es := Then(1, es, Lookup(2));
    es := Then(1, es, Update(2, 0));
    CostOfTwo(Run(1, es).accepted, ID);
  }

  lemma CostOfTwo(fs: seq<Fill>, id: string)
    requires |fs| == 2 && fs[0].orderId == id && fs[1].orderId == id
    ensures Cost(fs, id) == fs[0].quantity as real * fs[0].price + fs[1].quantity as real * fs[1].price
  {
    CostAppend([], fs[0], id);
    CostAppend([fs[0]], fs[1], id);
    assert [] + [fs[0]] == [fs[0]] && [fs[0]] + [fs[1]] == fs;
  }

  // -------------------------------------------------------------------------- the empty exchange id

  const ID2: string := MakeId(0, 1)

  lemma IdsDiffer()
    ensures ID != ID2
  {
    if ID == ID2 {
      IdsAreUnique(0, 0, 0, 1);
    }
  }

  /** Of two orders in a pool of two slots the first is acknowledged under the empty id, and the second one
      is still on its way to the exchange. */
  function TwoOrders(o: Order, o2: Order): State {
    State([Pooled(o2, PENDING), Pooled(o.(status := OPEN), OPEN)], [], map[ID := 1, ID2 := 0], map["" := ID], {}, 2,
          map[], map[], [], [], {}, map[])
  }

  lemma FirstOrder(req: OrderRequest)
    ensures AckStep(InsertStep(StampStep(AcquireStep(Init(2), 0, req), 0, 0), 0), "", ID) ==
      State([Pooled(BLANK, PENDING), Pooled(OrderOf(ID, req).(status := OPEN), OPEN)], [0], map[ID := 1],
            map["" := ID], {}, 1, map[], map[], [], [], {}, map[])
  {
    hide MakeId, OrderOf;
    assert AllSlots(2) == [0, 1];
    var s1 := AcquireStep(Init(2), 0, req);
    assert s1.free == [0] && s1.submits == map[0 := Acquired(1, req)];
    assert s1.slots == [Pooled(BLANK, PENDING), Pooled(BLANK, PENDING)];
    var s2 := StampStep(s1, 0, 0);
    assert s2.submits == map[0 := Stamped(1, ID, req)] && s2.submits - {0} == map[];
    assert s2.slots == [Pooled(BLANK, PENDING), Pooled(OrderOf(ID, req), PENDING)];
    var s3 := InsertStep(s2, 0);
    assert s3.orders == map[ID := 1];
    assert AckStep(s3, "", ID).exchange == map["" := ID];
  }

  lemma SecondOrder(s: State, o: Order, req: OrderRequest)
    requires s == State([Pooled(BLANK, PENDING), Pooled(o.(status := OPEN), OPEN)], [0], map[ID := 1],
                        map["" := ID], {}, 1, map[], map[], [], [], {}, map[])
    ensures InsertStep(StampStep(AcquireStep(s, 0, req), 0, 0), 0) == TwoOrders(o, OrderOf(ID2, req))
  {
    hide MakeId, OrderOf;
    var s1 := AcquireStep(s, 0, req);
    assert s1.free == [] && s1.submits == map[0 := Acquired(0, req)] && s1.slots == s.slots;
    var s2 := StampStep(s1, 0, 0);
    assert s2.submits == map[0 := Stamped(0, ID2, req)] && s2.submits - {0} == map[];
    assert s2.slots == [Pooled(OrderOf(ID2, req), PENDING), Pooled(o.(status := OPEN), OPEN)];
    assert InsertStep(s2, 0).orders == map[ID := 1, ID2 := 0];
  }

  /** When the second submission fails, its callback rejects the empty id, which takes the first order out
      of the table although it is open at the exchange, and then removes its own. */
  lemma EmptyRejectHits() returns (es: seq<Event>)
    ensures var s := Run(2, es);
      && ID in s.orders && s.orders[ID] < |s.slots| && s.slots[s.orders[ID]].sm == OPEN
      && ID2 in s.orders && s.orders[ID2] < |s.slots| && s.slots[s.orders[ID2]].sm == PENDING
      && RejectStep(s, "").orders == map[ID2 := s.orders[ID2]]
      && AbortStep(RejectStep(s, ""), ID2).orders == map[]
  {
    hide Run, MakeId, AcquireStep, StampStep, InsertStep, AckStep, OrderOf, Init;
    IdsDiffer();
    FirstOrder(Buy(1));
    var o := OrderOf(ID, Buy(1));
    SecondOrder(AckStep(InsertStep(StampStep(AcquireStep(Init(2), 0, Buy(1)), 0, 0), 0), "", ID), o, Buy(1));
    es := StartOfTwo();
    es := Then(2, es, Acquire(0, Buy(1)));
    es := Then(2, es, Stamp(0, 0));
    es := Then(2, es, Insert(0));
    es := Then(2, es, Ack("", ID));
    es := Then(2, es, Acquire(0, Buy(1)));
    es := Then(2, es, Stamp(0, 0));
    es := Then(2, es, Insert(0));
    assert Run(2, es) == TwoOrders(o, OrderOf(ID2, Buy(1)));
    assert map[ID := 1, ID2 := 0] - {ID} == map[ID2 := 0] && map[ID2 := 0] - {ID2} == map[];
  }

  lemma StartOfTwo() returns (es: seq<Event>)
    ensures Run(2, es) == Init(2)
  {
    es := [];
  }
}
