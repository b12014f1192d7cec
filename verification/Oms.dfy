/** The order manager as a transition system. Each locked section of a handler is one step, and the
    steps of different threads interleave: a submission acquires a slot, makes up an id and enters
    the order; a fill is deduplicated, looked up, applied and handed on. */
module Oms {
  import opened Records
  import opened OrderState
  import opened OrderIds
  import opened OrderPool

  /** A submission under way: a slot taken from the pool, then also an id and a filled-in order. */
  datatype Submission =
    | Acquired(slot: nat, req: OrderRequest)
    | Stamped(slot: nat, id: string, req: OrderRequest)

  /** A fill under way: past the deduplicator, past the lookup, ready for the fill queue. */
  datatype Flight =
    | Marked(exchangeId: string, price: real, qty: int, trade: string)
    | Found(exchangeId: string, id: string, slot: nat, price: real, qty: int, trade: string)
    | Ready(fill: Fill)

  /** The fields of the manager, the work in progress of its threads, and three records kept for the
      statements: the fills applied, the trades dropped for want of an order, the orders retired. */
  datatype State = State(
    slots: seq<Pooled>,
    free: seq<nat>,
    orders: map<string, nat>,
    exchange: map<string, string>,
    seen: set<string>,
    nextSeq: nat,
    submits: map<nat, Submission>,
    flights: map<nat, Flight>,
    outbox: seq<Fill>,
    accepted: seq<Fill>,
    lost: set<string>,
    retired: map<string, Order>)

  datatype Event =
    | Acquire(t: nat, req: OrderRequest)
    | Stamp(t: nat, ts: nat)
    | Insert(t: nat)
    | Ack(exchangeId: string, id: string)
    | Mark(t: nat, exchangeId: string, price: real, qty: int, trade: string)
    | Lookup(t: nat)
    | Update(t: nat, ts: nat)
    | Push(t: nat)
    | Reject(exchangeId: string)
    | Abort(id: string)

  function Init(n: nat): State {
    State(seq(n, _ => Pooled(BLANK, PENDING)), AllSlots(n), map[], map[], {}, 0, map[], map[], [], [], {}, map[])
  }

  function OrderOf(id: string, req: OrderRequest): Order {
    BLANK.(id := id, strategy := req.strategy, token := req.token, side := req.side,
           orderType := req.orderType, status := PENDING, quantity := req.quantity,
           limitPrice := req.limitPrice)
  }

  function AcquireStep(s: State, t: nat, req: OrderRequest): State {
    if t in s.submits || s.free == [] || s.free[|s.free| - 1] >= |s.slots| then s
    else
      var k := s.free[|s.free| - 1];
      s.(free := s.free[..|s.free| - 1],
         slots := s.slots[k := Pooled(BLANK, PENDING)],
         submits := s.submits[t := Acquired(k, req)])
  }

  function StampStep(s: State, t: nat, ts: nat): State {
    if t in s.submits && s.submits[t].Acquired? && s.submits[t].slot < |s.slots| then
      var Acquired(k, req) := s.submits[t];
      var id := MakeId(ts, s.nextSeq);
      s.(nextSeq := s.nextSeq + 1,
         slots := s.slots[k := s.slots[k].(order := OrderOf(id, req))],
         submits := s.submits[t := Stamped(k, id, req)])
    else s
  }

  function InsertStep(s: State, t: nat): State {
    if t in s.submits && s.submits[t].Stamped? then
      s.(orders := s.orders[s.submits[t].id := s.submits[t].slot], submits := s.submits - {t})
    else s
  }

  function AckStep(s: State, exchangeId: string, id: string): State {
    if id in s.orders && s.orders[id] < |s.slots| then
      var k := s.orders[id];
      s.(exchange := s.exchange[exchangeId := id],
         slots := s.slots[k := Pooled(s.slots[k].order.(status := OPEN), Advance(s.slots[k].sm, OPEN))])
    else s
  }

  function MarkStep(s: State, t: nat, exchangeId: string, price: real, qty: int, trade: string): State {
    if t in s.flights || (trade != "" && trade in s.seen) then s
    else
      s.(seen := if trade != "" then s.seen + {trade} else s.seen,
         flights := s.flights[t := Marked(exchangeId, price, qty, trade)])
  }

  /** The order a fill is for; an unknown exchange id is taken to be a paper id. */
  function Resolve(s: State, exchangeId: string): string {
    if exchangeId in s.exchange then s.exchange[exchangeId] else StripPaper(exchangeId)
  }

  function LookupStep(s: State, t: nat): State {
    if t in s.flights && s.flights[t].Marked? then
      var Marked(ex, price, qty, trade) := s.flights[t];
      var id := Resolve(s, ex);
      if id in s.orders then
        s.(flights := s.flights[t := Found(ex, id, s.orders[id], price, qty, trade)])
      else
        s.(flights := s.flights - {t}, lost := if trade != "" then s.lost + {trade} else s.lost)
    else s
  }

  function FillOf(o: Order, f: Flight, ts: nat): Fill
    requires f.Found?
  {
    Fill(f.id, f.trade, o.strategy, o.token, o.side, f.qty, if f.price > 0.0 then f.price else o.limitPrice, ts)
  }

  function FilledOrder(o: Order, fill: Fill): Order {
    var filled := o.filledQty + fill.quantity;
    o.(filledQty := filled, avgFillPrice := fill.price, lastUpdate := fill.ts,
       status := if filled >= o.quantity then COMPLETE else PARTIAL)
  }

  /** The state machine after a fill that brings the order to `o`. */
  function FilledSm(sm: OrderStatus, o: Order): OrderStatus {
    Advance(sm, if o.filledQty >= o.quantity then COMPLETE else PARTIAL)
  }

  /** Will a fill of `qty` leave the order finished? */
  predicate Finishes(p: Pooled, qty: int) {
    IsTerminal(Advance(p.sm, if p.order.filledQty + qty >= p.order.quantity then COMPLETE else PARTIAL))
  }

  /** Thread `t` is about to update an order that this finishes, and will give its slot back. */
  predicate AboutToRetire(s: State, t: nat) {
    t in s.flights && s.flights[t].Found? && s.flights[t].slot < |s.slots|
    && Finishes(s.slots[s.flights[t].slot], s.flights[t].qty)
  }

  function UpdateStep(s: State, t: nat, ts: nat): State {
    if t in s.flights && s.flights[t].Found? && s.flights[t].slot < |s.slots| then
      var f := s.flights[t];
      var p := s.slots[f.slot];
      var fill := FillOf(p.order, f, ts);
      var o := FilledOrder(p.order, fill);
      var sm := FilledSm(p.sm, o);
      var s' := s.(slots := s.slots[f.slot := Pooled(o, sm)],
                   flights := s.flights[t := Ready(fill)],
                   accepted := s.accepted + [fill]);
      if IsTerminal(sm) then
        s'.(free := s.free + [f.slot], orders := s.orders - {f.id}, exchange := s.exchange - {f.exchangeId},
            retired := s.retired[f.id := o])
      else s'
    else s
  }

  /** What an update does: one fill is applied to one slot, and the order is retired if that finishes it. */
  lemma UpdateEffect(s: State, t: nat, ts: nat)
    ensures var s' := UpdateStep(s, t, ts);
      if t in s.flights && s.flights[t].Found? && s.flights[t].slot < |s.slots| then
        var f := s.flights[t];
        var p := s.slots[f.slot];
        var fill := FillOf(p.order, f, ts);
        && fill.orderId == f.id && fill.tradeId == f.trade && fill.quantity == f.qty
        && s'.accepted == s.accepted + [fill] && s'.outbox == s.outbox
        && s'.flights == s.flights[t := Ready(fill)]
        && s'.seen == s.seen && s'.lost == s.lost && s'.submits == s.submits && s'.nextSeq == s.nextSeq
        && s'.slots == s.slots[f.slot := Pooled(FilledOrder(p.order, fill), FilledSm(p.sm, FilledOrder(p.order, fill)))]
        && (IsTerminal(s'.slots[f.slot].sm) <==> AboutToRetire(s, t))
        && (if AboutToRetire(s, t) then
              && s'.orders == s.orders - {f.id} && s'.exchange == s.exchange - {f.exchangeId}
              && s'.retired == s.retired[f.id := s'.slots[f.slot].order]
              && s'.free == s.free + [f.slot]
            else s'.orders == s.orders && s'.exchange == s.exchange && s'.retired == s.retired && s'.free == s.free)
      else s' == s
  {
    FinishesExactly(s.slots, t, s.flights, ts);
    hide FilledOrder, FilledSm, Finishes;
  }

  lemma FinishesExactly(slots: seq<Pooled>, t: nat, flights: map<nat, Flight>, ts: nat)
    ensures t in flights && flights[t].Found? && flights[t].slot < |slots| ==>
      var p := slots[flights[t].slot];
      IsTerminal(FilledSm(p.sm, FilledOrder(p.order, FillOf(p.order, flights[t], ts))))
      <==> Finishes(p, flights[t].qty)
  {
  }

  function PushStep(s: State, t: nat): State {
    if t in s.flights && s.flights[t].Ready? then
      s.(outbox := s.outbox + [s.flights[t].fill], flights := s.flights - {t})
    else s
  }

  /** The order a rejection is for; an unknown exchange id is taken to be the order id itself. */
  function RejectTarget(s: State, exchangeId: string): string {
    if exchangeId in s.exchange then s.exchange[exchangeId] else exchangeId
  }

  function RejectStep(s: State, exchangeId: string): State {
    var id := RejectTarget(s, exchangeId);
    if id in s.orders && s.orders[id] < |s.slots| then
      var k := s.orders[id];
      s.(slots := s.slots[k := s.slots[k].(sm := Advance(s.slots[k].sm, REJECTED))],
         free := s.free + [k], orders := s.orders - {id}, exchange := s.exchange - {exchangeId})
    else s
  }

  /** The second half of the failure callback of a live submission. */
  function AbortStep(s: State, id: string): State {
    if id in s.orders then s.(free := s.free + [s.orders[id]], orders := s.orders - {id}) else s
  }

  function Step(s: State, e: Event): State {
    match e
    case Acquire(t, req) => AcquireStep(s, t, req)
    case Stamp(t, ts) => StampStep(s, t, ts)
    case Insert(t) => InsertStep(s, t)
    case Ack(ex, id) => AckStep(s, ex, id)
    case Mark(t, ex, price, qty, trade) => MarkStep(s, t, ex, price, qty, trade)
    case Lookup(t) => LookupStep(s, t)
    case Update(t, ts) => UpdateStep(s, t, ts)
    case Push(t) => PushStep(s, t)
    case Reject(ex) => RejectStep(s, ex)
    case Abort(id) => AbortStep(s, id)
  }

  function Run(n: nat, es: seq<Event>): State {
    if es == [] then Init(n) else Step(Run(n, es[..|es| - 1]), es[|es| - 1])
  }

  /** A fill for the order is between its lookup and its update. */
  ghost predicate Busy(s: State, id: string) {
    exists t :: t in s.flights && s.flights[t].Found? && s.flights[t].id == id
  }

  /** While a fill is between its two locked sections, no other fill of its order is looked up and the
      order is not rejected. */
  ghost predicate Serialised(s: State, e: Event) {
    match e
    case Lookup(t) => t in s.flights && s.flights[t].Marked? ==> !Busy(s, Resolve(s, s.flights[t].exchangeId))
    case Reject(ex) => !Busy(s, RejectTarget(s, ex))
    case Abort(id) => !Busy(s, id)
    case _ => true
  }

  /** An update that gives a slot back finds it still holding the order that the lookup found. */
  predicate Current(s: State, e: Event) {
    e.Update? && AboutToRetire(s, e.t) ==>
      s.flights[e.t].id in s.orders && s.orders[s.flights[e.t].id] == s.flights[e.t].slot
  }

  /** An update finds the order that its lookup found still in the table, in the same slot. */
  predicate Hits(s: State, e: Event) {
    e.Update? && e.t in s.flights && s.flights[e.t].Found? ==>
      s.flights[e.t].id in s.orders && s.orders[s.flights[e.t].id] == s.flights[e.t].slot
  }

  /** Fills of one order may overlap, as long as none of them is overtaken by the end of the order. */
  predicate HitRun(n: nat, es: seq<Event>) {
    es != [] ==> HitRun(n, es[..|es| - 1]) && Hits(Run(n, es[..|es| - 1]), es[|es| - 1])
  }

  ghost predicate SerialRun(n: nat, es: seq<Event>) {
    es != [] ==> SerialRun(n, es[..|es| - 1]) && Serialised(Run(n, es[..|es| - 1]), es[|es| - 1])
  }

  /** The total quantity of the fills of one order. */
  function FilledBy(fs: seq<Fill>, id: string): int {
    if fs == [] then 0
    else FilledBy(fs[..|fs| - 1], id) + (if fs[|fs| - 1].orderId == id then fs[|fs| - 1].quantity else 0)
  }
}
