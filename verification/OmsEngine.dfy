/** The order manager as the object its callers use, one call at a time. */
module OmsEngine {
  import opened Basics
  import opened Records
  import opened OrderState
  import opened OrderIds
  import opened OrderPool
  import opened SlotOwners
  import opened Oms
  import opened OmsInvariants
  import opened OmsHandlers
  import FillDedup
  import opened SpscQueue

  lemma LiveInRange(s: State, own: Owners)
    requires Inv(s, own)
    ensures forall id :: id in s.orders ==> s.orders[id] < |s.slots|
  {
    OrdersInRange(s, own);
  }

  class OrderManagementSystem {
    const pool: OrderPool
    const dedup: FillDedup.FillDeduplicator
    const fillQueue: SpscQueue<Fill>
    const paperMode: bool
    var orders: map<string, nat>
    var exchangeToInternal: map<string, string>
    var seqNo: nat
    ghost var outbox: seq<Fill>
    ghost var accepted: seq<Fill>
    ghost var lost: set<string>
    ghost var retired: map<string, Order>

    /** The fields as a state of the transition system, with no handler under way. */
    ghost function Model(): State
      reads this, pool, pool.slots, dedup
    {
      State(pool.slots[..], pool.freeList, orders, exchangeToInternal, dedup.processed, seqNo, map[], map[],
            outbox, accepted, lost, retired)
    }

    ghost predicate Valid()
      reads this, pool, pool.slots, dedup, fillQueue, fillQueue.data
    {
      && pool.Valid() && fillQueue.Valid()
      && exists own :: Inv(Model(), own)
    }

    constructor (poolSize: nat, queue: SpscQueue<Fill>, paper: bool)
      requires queue.Valid()
      ensures Valid() && Model() == Init(poolSize)
      ensures fillQueue == queue && paperMode == paper
      ensures fresh(pool) && fresh(pool.slots) && fresh(dedup)
    {
      pool := new OrderPool(poolSize);
      dedup := new FillDedup.FillDeduplicator();
      fillQueue, paperMode := queue, paper;
      orders, exchangeToInternal, seqNo := map[], map[], 0;
      outbox, accepted, lost, retired := [], [], {}, map[];
      new;
      assert pool.slots[..] == Init(poolSize).slots;
      assert Model() == Init(poolSize);
      InitInv(poolSize);
    }

    /** Enters the order; in paper mode also acknowledges and fills it. False exactly when the pool
        is exhausted. */
    method Submit(req: OrderRequest, ms: nat, ts: nat) returns (ok: bool, oid: string)
      requires Valid()
      modifies this, pool, pool.slots, dedup, fillQueue, fillQueue.data
      ensures Valid()
      ensures ok <==> old(pool.freeList) != []
      ensures !ok ==> Model() == old(Model())
      ensures ok ==> oid == MakeId(ms, old(seqNo)) && oid !in old(orders)
      ensures ok && paperMode ==> Model() == PaperTraded(old(Model()), req, ms, ts)
      ensures ok && !paperMode ==> Model() == Entered(old(Model()), req, ms)
    {
      hide IdsOk, LiveOk, Owned, MakeId, Trailing;
      ghost var own :| Inv(Model(), own);
      SlotsApart(Model(), own);
      NewIdIsFree(Model(), ms);
      var p := pool.Acquire();
      if p.None? {
        assert Model() == old(Model());
        return false, "";
      }
      var k := p.value;
      oid := MakeId(ms, seqNo);
      seqNo := seqNo + 1;
      pool.slots[k] := pool.slots[k].(order := OrderOf(oid, req));
      orders := orders[oid := k];
      EnteredEffect(old(Model()), req, ms);
      assert Model() == Entered(old(Model()), req, ms);
      own := EnteredKeepsInv(old(Model()), own, req, ms);
      if paperMode {
        OnOrderAck("PAPER-" + oid, oid);
        OnFill("PAPER-" + oid, if req.limitPrice > 0.0 then req.limitPrice else 0.0, req.quantity,
               "PAPER-TRD-" + oid, ts);
      }
      return true, oid;
    }

    method OnOrderAck(exchangeOid: string, internalOid: string)
      requires Valid()
      modifies this, pool.slots
      ensures Valid() && Model() == AckStep(old(Model()), exchangeOid, internalOid)
    {
      hide IdsOk, LiveOk, Owned;
      ghost var own :| Inv(Model(), own);
      SlotsApart(Model(), own);
      OrdersInRange(Model(), own);
      own := StepKeepsInv(Model(), own, Ack(exchangeOid, internalOid));
      if internalOid !in orders {
        return;
      }
      exchangeToInternal := exchangeToInternal[exchangeOid := internalOid];
      var k := orders[internalOid];
      pool.slots[k] := pool.slots[k].(sm := Advance(pool.slots[k].sm, OPEN));
      pool.slots[k] := pool.slots[k].(order := pool.slots[k].order.(status := OPEN));
      assert Model() == AckStep(old(Model()), exchangeOid, internalOid);
    }

    method OnFill(exchangeOid: string, fillPrice: real, fillQty: int, tradeId: string, ts: nat)
      requires Valid()
      modifies this, pool, pool.slots, dedup, fillQueue, fillQueue.data
      ensures Valid() && Model() == Filled(old(Model()), exchangeOid, fillPrice, fillQty, tradeId, ts)
      ensures |outbox| == |old(outbox)| + |accepted| - |old(accepted)|
      ensures outbox == old(outbox) ==> fillQueue.items == old(fillQueue.items)
      ensures outbox != old(outbox) ==>
        && outbox != []
        && fillQueue.items == if |old(fillQueue.items)| < fillQueue.capacity - 1
                              then old(fillQueue.items) + [outbox[|outbox| - 1]] else old(fillQueue.items)
    {
      hide Inv, Filled, Booked, StripPaper;
      ghost var own :| Inv(Model(), own);
      LiveInRange(Model(), own);
      FilledEffect(Model(), exchangeOid, fillPrice, fillQty, tradeId, ts);
      own := FilledKeepsInv(Model(), own, exchangeOid, fillPrice, fillQty, tradeId, ts);
      ghost var before := Model();

      if tradeId != "" {
        var isNew := dedup.TryMark(tradeId);
        if !isNew {
          assert dedup.processed == old(dedup.processed) && Model() == before;
          return;
        }
      }
      var internalOid := if exchangeOid in exchangeToInternal then exchangeToInternal[exchangeOid]
                         else StripPaper(exchangeOid);
      assert internalOid == Resolve(before, exchangeOid);
      if internalOid !in orders {
        lost := if tradeId != "" then lost + {tradeId} else lost;
        assert Model() == Filled(before, exchangeOid, fillPrice, fillQty, tradeId, ts);
        return;
      }
      ghost var s1 := Model();
      BookFill(exchangeOid, internalOid, fillPrice, fillQty, tradeId, ts);
      assert Model() == Filled(before, exchangeOid, fillPrice, fillQty, tradeId, ts);
    }

    /** From the lookup on: apply the fill to its order, retire the order if that finishes it, and
        offer the fill to the queue. A full queue drops it. */
    method BookFill(exchangeOid: string, internalOid: string, fillPrice: real, fillQty: int, tradeId: string, ts: nat)
      requires internalOid in orders && orders[internalOid] < pool.slots.Length
      requires pool.Valid() && fillQueue.Valid()
      modifies this, pool, pool.slots, fillQueue, fillQueue.data
      ensures pool.Valid() && fillQueue.Valid()
      ensures Model() == Booked(old(Model()), exchangeOid, internalOid, fillPrice, fillQty, tradeId, ts)
      ensures |outbox| == |old(outbox)| + 1 && |accepted| == |old(accepted)| + 1
      ensures fillQueue.items == if |old(fillQueue.items)| < fillQueue.capacity - 1
                                 then old(fillQueue.items) + [outbox[|outbox| - 1]] else old(fillQueue.items)
    {
      hide FillOf, FilledOrder, FilledSm, Slot;
      var k := orders[internalOid];
      var o := pool.slots[k].order;
      var fill := FillOf(o, Found(exchangeOid, internalOid, k, fillPrice, fillQty, tradeId), ts);

      o := FilledOrder(o, fill);
      pool.slots[k] := Pooled(o, FilledSm(pool.slots[k].sm, o));
      accepted := accepted + [fill];
      if IsTerminal(pool.slots[k].sm) {
        pool.Release(Some(k));
        orders := orders - {internalOid};
        exchangeToInternal := exchangeToInternal - {exchangeOid};
        retired := retired[internalOid := o];
      }
      var pushed := fillQueue.Push(fill);
      outbox := outbox + [fill];
      assert Model().slots == old(Model()).slots[k := pool.slots[k]];
    }

    method OnReject(exchangeOid: string)
      requires Valid()
      modifies this, pool, pool.slots
      ensures Valid() && Model() == RejectStep(old(Model()), exchangeOid)
    {
      hide IdsOk, LiveOk, Owned;
      ghost var own :| Inv(Model(), own);
      OrdersInRange(Model(), own);
      own := StepKeepsInv(Model(), own, Reject(exchangeOid));
      var internalOid := exchangeOid;
      if exchangeOid in exchangeToInternal {
        internalOid := exchangeToInternal[exchangeOid];
      }
      if internalOid in orders {
        var k := orders[internalOid];
        pool.slots[k] := pool.slots[k].(sm := Advance(pool.slots[k].sm, REJECTED));
        pool.Release(Some(k));
        orders := orders - {internalOid};
        exchangeToInternal := exchangeToInternal - {exchangeOid};
      }
      assert Model() == RejectStep(old(Model()), exchangeOid);
    }

    /** The failure callback of a live submission. */
    method OnLiveFailure(oid: string)
      requires Valid()
      modifies this, pool, pool.slots
      ensures Valid() && Model() == AbortStep(RejectStep(old(Model()), ""), oid)
    {
      hide IdsOk, LiveOk, Owned, RejectStep;
      OnReject("");
      label rejected:
      ghost var own :| Inv(Model(), own);
      OrdersInRange(Model(), own);
      own := StepKeepsInv(Model(), own, Abort(oid));
      if oid in orders {
        pool.Release(Some(orders[oid]));
        orders := orders - {oid};
      }
      assert Model() == AbortStep(old@rejected(Model()), oid);
    }

    /** Asks the exchange to cancel: exactly when the order is open or partly filled and a usable
        exchange id leads to it. Which one is used, if several do, depends on the map. */
    method Cancel(orderId: string) returns (ok: bool, exchangeOid: string)
      requires Valid()
      ensures ok ==>
        && orderId in orders && orders[orderId] < pool.slots.Length && exchangeOid != ""
        && (pool.slots[orders[orderId]].sm.OPEN? || pool.slots[orders[orderId]].sm.PARTIAL?)
        && exchangeOid in exchangeToInternal && exchangeToInternal[exchangeOid] == orderId
      ensures !ok ==>
        || orderId !in orders
        || (forall ex :: ex in exchangeToInternal ==> exchangeToInternal[ex] != orderId)
        || ("" in exchangeToInternal && exchangeToInternal[""] == orderId)
    {
      hide IdsOk, Owned;
      ghost var own :| Inv(Model(), own);
      OrdersInRange(Model(), own);
      if orderId !in orders {
        return false, "";
      }
      var sm := pool.slots[orders[orderId]].sm;
      assert sm == Model().slots[orders[orderId]].sm;
      if sm != OPEN && sm != PARTIAL {
        return false, "";
      }
      exchangeOid := "";
      var rest := exchangeToInternal;
      while rest != map[]
        invariant forall ex :: ex in rest ==> ex in exchangeToInternal && rest[ex] == exchangeToInternal[ex]
        invariant forall ex :: ex in exchangeToInternal && ex !in rest ==> exchangeToInternal[ex] != orderId
        invariant exchangeOid == ""
        decreases |rest|
      {
        var ex :| ex in rest;
        if rest[ex] == orderId {
          exchangeOid := ex;
          break;
        }
        rest := rest - {ex};
      }
      return exchangeOid != "", exchangeOid;
    }

    /** The loop counts the orders that are not terminal; the table holds no others. */
    method OpenOrderCount() returns (count: nat)
      requires Valid()
      ensures count == |orders|
    {
      hide IdsOk, Owned;
      ghost var own :| Inv(Model(), own);
      OrdersInRange(Model(), own);
      count := 0;
      var rest := orders;
      while rest != map[]
        invariant forall id :: id in rest ==> id in orders && rest[id] == orders[id]
        invariant count + |rest| == |orders|
        decreases |rest|
      {
        var id :| id in rest;
        assert pool.slots[orders[id]] == Model().slots[orders[id]];
        if !IsTerminal(pool.slots[rest[id]].sm) {
          count := count + 1;
        }
        RemoveSize(rest, id);
        rest := rest - {id};
      }
    }
  }
}
