/** What runs of the order manager keep: ids are never reused in any of them, and as long as updates
    find their orders, the pool is partitioned and the live table holds no finished order. */
module OmsInvariants {
  import opened Records
  import opened OrderState
  import opened OrderIds
  import opened OrderPool
  import opened SlotOwners
  import opened Oms

  /** The slots that submissions have taken and not yet entered. */
  function HeldSlots(s: State): map<nat, nat> {
    map t | t in s.submits :: s.submits[t].slot
  }

  ghost predicate PoolOk(s: State, own: seq<Owner<string>>) {
    |own| == |s.slots| && Owned(s.free, s.orders, HeldSlots(s), own)
  }

  /** The id belongs to an order that has been entered at some time. */
  ghost predicate Known(s: State, id: string) {
    && id != "" && Trailing(id) < s.nextSeq
    && forall t :: t in s.submits && s.submits[t].Stamped? ==> s.submits[t].id != id
  }

  ghost predicate IdsOk(s: State) {
    && (forall id :: id in s.orders ==> Known(s, id))
    && (forall ex :: ex in s.exchange ==> Known(s, s.exchange[ex]))
    && (forall id :: id in s.retired ==> Known(s, id) && id !in s.orders)
    && (forall i :: 0 <= i < |s.accepted| ==> Known(s, s.accepted[i].orderId))
    && (forall t :: t in s.flights && s.flights[t].Found? ==> Known(s, s.flights[t].id))
    && (forall t :: t in s.submits && s.submits[t].Stamped? ==>
          s.submits[t].id != "" && Trailing(s.submits[t].id) < s.nextSeq)
    && (forall t, t' :: t in s.submits && t' in s.submits && t != t' && s.submits[t].Stamped? && s.submits[t'].Stamped?
          ==> s.submits[t].id != s.submits[t'].id)
  }

  /** Live orders are unfinished, acknowledged ones open, and each slot names its order. */
  ghost predicate LiveOk(s: State) {
    && (forall id :: id in s.orders ==>
          && s.orders[id] < |s.slots|
          && s.slots[s.orders[id]].order.id == id
          && (s.slots[s.orders[id]].sm.PENDING? || s.slots[s.orders[id]].sm.OPEN? || s.slots[s.orders[id]].sm.PARTIAL?))
    && (forall ex :: ex in s.exchange && s.exchange[ex] in s.orders ==>
          !s.slots[s.orders[s.exchange[ex]]].sm.PENDING?)
    && (forall t :: t in s.submits ==>
          s.submits[t].slot < |s.slots| && s.slots[s.submits[t].slot].sm.PENDING? &&
          (s.submits[t].Stamped? ==>
             var o := s.slots[s.submits[t].slot].order;
             && o.id == s.submits[t].id && o.quantity == s.submits[t].req.quantity
             && o.filledQty == 0 && o.avgFillPrice == 0.0))
  }

  ghost predicate Inv(s: State, own: seq<Owner<string>>) {
    PoolOk(s, own) && IdsOk(s) && LiveOk(s)
  }

  type Owners = seq<Owner<string>>

  // -------------------------------------------------------------------------------------- the pool

  /** Retiring a live order in a step that gives its slot back. */
  lemma PoolRetire(s: State, s': State, own: Owners, id: string) returns (own': Owners)
    requires PoolOk(s, own) && id in s.orders
    requires |s'.slots| == |s.slots| && s'.free == s.free + [s.orders[id]]
    requires s'.orders == s.orders - {id} && s'.submits == s.submits
    ensures |own'| == |own| && PoolOk(s', own')
  {
    GiveBack(s.free, s.orders, HeldSlots(s), own, id);
    own' := own[s.orders[id] := Free(|s.free|)];
  }

  lemma PoolAcquire(s: State, own: Owners, t: nat, req: OrderRequest) returns (own': Owners)
    requires PoolOk(s, own)
    ensures |own'| == |own| && PoolOk(AcquireStep(s, t, req), own')
  {
    hide Owned;
    own' := own;
    var s' := AcquireStep(s, t, req);
    if t !in s.submits && s.free != [] {
      var k := s.free[|s.free| - 1];
      Take(s.free, s.orders, HeldSlots(s), own, t);
      assert HeldSlots(s') == HeldSlots(s)[t := k];
      own' := own[k := Held(t)];
    }
  }

  lemma PoolInsert(s: State, own: Owners, t: nat) returns (own': Owners)
    requires PoolOk(s, own) && IdsOk(s)
    ensures |own'| == |own| && PoolOk(InsertStep(s, t), own')
  {
    hide Owned, Trailing;
    own' := own;
    var s' := InsertStep(s, t);
    if t in s.submits && s.submits[t].Stamped? {
      var k, id := s.submits[t].slot, s.submits[t].id;
      assert id !in s.orders;
      Enter(s.free, s.orders, HeldSlots(s), own, t, id);
      assert HeldSlots(s') == HeldSlots(s) - {t};
      own' := own[k := Live(id)];
    }
  }

  lemma StepPool(s: State, own: Owners, e: Event) returns (own': Owners)
    requires PoolOk(s, own) && IdsOk(s) && Current(s, e)
    ensures |own'| == |own| && PoolOk(Step(s, e), own')
  {
    hide IdsOk, PoolOk, StampStep, UpdateStep, RejectStep, InsertStep, AcquireStep, AbortStep, Resolve, Current;
    own' := own;
    match e
    case Acquire(t, req) => own' := PoolAcquire(s, own, t, req);
    case Stamp(t, ts) => PoolStamp(s, own, t, ts);
    case Insert(t) => own' := PoolInsert(s, own, t);
    case Update(t, ts) => own' := PoolUpdate(s, own, t, ts);
    case Reject(ex) => own' := PoolReject(s, own, ex);
    case Abort(id) => own' := PoolAbort(s, own, id);
    case _ => PoolSame(s, Step(s, e), own);
  }

  lemma PoolSame(s: State, s': State, own: Owners)
    requires PoolOk(s, own) && |s'.slots| == |s.slots|
    requires s'.free == s.free && s'.orders == s.orders && s'.submits == s.submits
    ensures PoolOk(s', own)
  {
    hide Owned;
  }

  lemma PoolAbort(s: State, own: Owners, id: string) returns (own': Owners)
    requires PoolOk(s, own)
    ensures |own'| == |own| && PoolOk(AbortStep(s, id), own')
  {
    hide PoolOk;
    own' := own;
    if id in s.orders {
      own' := PoolRetire(s, AbortStep(s, id), own, id);
    }
  }

  lemma PoolReject(s: State, own: Owners, ex: string) returns (own': Owners)
    requires PoolOk(s, own)
    ensures |own'| == |own| && PoolOk(RejectStep(s, ex), own')
  {
    hide PoolOk, RejectTarget;
    own' := own;
    var id := RejectTarget(s, ex);
    if id in s.orders && s.orders[id] < |s.slots| {
      own' := PoolRetire(s, RejectStep(s, ex), own, id);
    }
  }

  lemma PoolFrame(s: State, s': State, own: Owners)
    requires PoolOk(s, own) && |s'.slots| == |s.slots|
    requires s'.free == s.free && s'.orders == s.orders && HeldSlots(s') == HeldSlots(s)
    ensures PoolOk(s', own)
  {
    hide Owned;
  }

  lemma PoolStamp(s: State, own: Owners, t: nat, ts: nat)
    requires PoolOk(s, own)
    ensures PoolOk(StampStep(s, t, ts), own)
  {
    hide PoolOk, MakeId, OrderOf;
    assert HeldSlots(StampStep(s, t, ts)) == HeldSlots(s);
    PoolFrame(s, StampStep(s, t, ts), own);
  }

  lemma PoolUpdate(s: State, own: Owners, t: nat, ts: nat) returns (own': Owners)
    requires PoolOk(s, own) && Current(s, Update(t, ts))
    ensures |own'| == |own| && PoolOk(UpdateStep(s, t, ts), own')
  {
    hide PoolOk, UpdateStep, FillOf, FilledOrder, FilledSm, Finishes;
    own' := own;
    UpdateEffect(s, t, ts);
    var s' := UpdateStep(s, t, ts);
    if AboutToRetire(s, t) {
      own' := PoolRetire(s, s', own, s.flights[t].id);
    } else {
      PoolFrame(s, s', own);
    }
  }

  // ---------------------------------------------------------------------------------- identifiers

  lemma IdsAcquire(s: State, t: nat, req: OrderRequest)
    requires IdsOk(s)
    ensures IdsOk(AcquireStep(s, t, req))
  {
    hide Trailing;
  }

  /** A new id is spelled with the next sequence number, which no earlier id ends in. */
  lemma IdsStamp(s: State, t: nat, ts: nat)
    requires IdsOk(s)
    ensures IdsOk(StampStep(s, t, ts))
  {
    hide Trailing, MakeId;
    IdNotEmpty(ts, s.nextSeq);
    TrailingOfId("", ts, s.nextSeq);
    assert "" + MakeId(ts, s.nextSeq) == MakeId(ts, s.nextSeq);
  }

  lemma IdsInsert(s: State, t: nat)
    requires IdsOk(s)
    ensures IdsOk(InsertStep(s, t))
  {
    hide Trailing;
  }

  lemma IdsAck(s: State, ex: string, id: string)
    requires IdsOk(s)
    ensures IdsOk(AckStep(s, ex, id))
  {
    hide Trailing;
  }

  lemma IdsUpdate(s: State, t: nat, ts: nat)
    requires IdsOk(s)
    ensures IdsOk(UpdateStep(s, t, ts))
  {
    hide Trailing, UpdateStep, FillOf, FilledOrder, FilledSm, IsTerminal, Finishes;
    UpdateEffect(s, t, ts);
    if t in s.flights && s.flights[t].Found? {
      assert Known(s, s.flights[t].id);
    }
  }

  lemma IdsLookup(s: State, t: nat)
    requires IdsOk(s)
    ensures IdsOk(LookupStep(s, t))
  {
    hide Trailing, Resolve;
  }

  /** A step that only forgets orders and exchange ids keeps the ids in order. */
  lemma IdsShrink(s: State, s': State)
    requires IdsOk(s) && s'.submits == s.submits && s'.nextSeq == s.nextSeq
    requires s'.retired == s.retired && s'.accepted == s.accepted
    requires forall id :: id in s'.orders ==> id in s.orders
    requires forall ex :: ex in s'.exchange ==> ex in s.exchange && s'.exchange[ex] == s.exchange[ex]
    requires forall t :: t in s'.flights && s'.flights[t].Found? ==> t in s.flights && s'.flights[t] == s.flights[t]
    ensures IdsOk(s')
  {
    hide Trailing;
  }

  lemma StepIds(s: State, e: Event)
    requires IdsOk(s)
    ensures IdsOk(Step(s, e))
  {
    hide IdsOk, MakeId, OrderOf, Resolve, RejectTarget, AcquireStep, StampStep, InsertStep, AckStep, LookupStep,
      UpdateStep;
    match e
    case Acquire(t, req) => IdsAcquire(s, t, req);
    case Stamp(t, ts) => IdsStamp(s, t, ts);
    case Insert(t) => IdsInsert(s, t);
    case Ack(ex, id) => IdsAck(s, ex, id);
    case Lookup(t) => IdsLookup(s, t);
    case Update(t, ts) => IdsUpdate(s, t, ts);
    case _ => IdsShrink(s, Step(s, e));
  }

  // ----------------------------------------------------------------------------------- live table

  lemma LiveAcquire(s: State, own: Owners, t: nat, req: OrderRequest)
    requires PoolOk(s, own) && LiveOk(s)
    ensures LiveOk(AcquireStep(s, t, req))
  {
    hide PoolOk;
    SlotsApart(s, own);
  }

  lemma LiveStamp(s: State, own: Owners, t: nat, ts: nat)
    requires PoolOk(s, own) && LiveOk(s)
    ensures LiveOk(StampStep(s, t, ts))
  {
    hide PoolOk;
    SlotsApart(s, own);
    hide MakeId;
  }

  lemma LiveInsert(s: State, own: Owners, t: nat)
    requires PoolOk(s, own) && IdsOk(s) && LiveOk(s)
    ensures LiveOk(InsertStep(s, t))
  {
    hide PoolOk;
    SlotsApart(s, own);
    hide Trailing;
  }

  lemma LiveAck(s: State, own: Owners, ex: string, id: string)
    requires PoolOk(s, own) && LiveOk(s)
    ensures LiveOk(AckStep(s, ex, id))
  {
    hide PoolOk;
    SlotsApart(s, own);
  }

  lemma LiveUpdate(s: State, own: Owners, t: nat, ts: nat)
    requires PoolOk(s, own) && LiveOk(s) && Hits(s, Update(t, ts))
    ensures LiveOk(UpdateStep(s, t, ts))
  {
    hide FillOf, FilledOrder, FilledSm, PoolOk, UpdateStep;
    UpdateEffect(s, t, ts);
    if t in s.flights && s.flights[t].Found? && s.flights[t].slot < |s.slots| {
      SlotsApart(s, own);
      var p := s.slots[s.flights[t].slot];
      FilledStaysLive(p, FillOf(p.order, s.flights[t], ts));
    }
  }

  lemma FilledStaysLive(p: Pooled, fill: Fill)
    requires p.sm.PENDING? || p.sm.OPEN? || p.sm.PARTIAL?
    ensures var o := FilledOrder(p.order, fill);
      var sm := FilledSm(p.sm, o);
      && o.id == p.order.id
      && (sm.PENDING? <==> p.sm.PENDING?)
      && (sm.PENDING? || sm.OPEN? || sm.PARTIAL? || IsTerminal(sm))
  {
  }

  lemma LiveReject(s: State, own: Owners, ex: string)
    requires PoolOk(s, own) && LiveOk(s)
    ensures LiveOk(RejectStep(s, ex))
  {
    hide PoolOk;
    SlotsApart(s, own);
  }

  lemma LiveFrame(s: State, s': State)
    requires LiveOk(s) && s'.slots == s.slots && s'.exchange == s.exchange && s'.submits == s.submits
    requires forall id :: id in s'.orders ==> id in s.orders && s'.orders[id] == s.orders[id]
    ensures LiveOk(s')
  {
  }

  /** Different owners own different slots. */
  lemma SlotsApart(s: State, own: Owners)
    requires PoolOk(s, own)
    ensures forall k :: k in s.free ==> k < |s.slots|
    ensures forall id, id' :: id in s.orders && id' in s.orders && id != id' ==> s.orders[id] != s.orders[id']
    ensures forall t, t' :: t in s.submits && t' in s.submits && t != t' ==> s.submits[t].slot != s.submits[t'].slot
    ensures forall id, t :: id in s.orders && t in s.submits ==> s.orders[id] != s.submits[t].slot
    ensures forall id :: id in s.orders ==> s.orders[id] !in s.free
    ensures forall t :: t in s.submits ==> s.submits[t].slot !in s.free
  {
    OwnedIsPartition(s.free, s.orders, HeldSlots(s), own);
    assert forall t :: t in s.submits ==> HeldSlots(s)[t] == s.submits[t].slot;
  }

  lemma OrdersInRange(s: State, own: Owners)
    requires PoolOk(s, own)
    ensures forall id :: id in s.orders ==> s.orders[id] < |s.slots|
  {
  }

  lemma StepLive(s: State, own: Owners, e: Event)
    requires PoolOk(s, own) && IdsOk(s) && LiveOk(s) && Hits(s, e)
    ensures LiveOk(Step(s, e))
  {
    hide PoolOk, IdsOk, LiveOk;
    match e
    case Acquire(t, req) => LiveAcquire(s, own, t, req);
    case Stamp(t, ts) => LiveStamp(s, own, t, ts);
    case Insert(t) => LiveInsert(s, own, t);
    case Ack(ex, id) => LiveAck(s, own, ex, id);
    case Update(t, ts) => LiveUpdate(s, own, t, ts);
    case Reject(ex) => LiveReject(s, own, ex);
    case _ => LiveFrame(s, Step(s, e));
  }

  // ----------------------------------------------------------------------------------------- runs

  lemma StepKeepsInv(s: State, own: Owners, e: Event) returns (own': Owners)
    requires Inv(s, own) && Hits(s, e)
    ensures |own'| == |own| && Inv(Step(s, e), own')
  {
    hide PoolOk, IdsOk, LiveOk;
    own' := StepPool(s, own, e);
    StepIds(s, e);
    StepLive(s, own, e);
  }

  lemma InitInv(n: nat)
    ensures Inv(Init(n), AllFree(n))
  {
    NewPoolOwned<string>(n);
    assert HeldSlots(Init(n)) == map[];
  }

  lemma {:induction false} RunInv(n: nat, es: seq<Event>) returns (own: Owners)
    requires HitRun(n, es)
    ensures |own| == n && Inv(Run(n, es), own)
    decreases |es|
  {
    hide Inv, Step, Init, Hits;
    if es == [] {
      InitInv(n);
      own := AllFree(n);
    } else {
      own := RunInv(n, es[..|es| - 1]);
      own := StepKeepsInv(Run(n, es[..|es| - 1]), own, es[|es| - 1]);
    }
  }

  lemma SlotsCovered(s: State, own: Owners)
    requires PoolOk(s, own)
    ensures |own| == |s.slots| && NoDuplicates(s.free)
    ensures forall k :: 0 <= k < |own| ==>
      || k in s.free
      || (exists id :: id in s.orders && s.orders[id] == k)
      || (exists t :: t in s.submits && s.submits[t].slot == k)
    ensures |s.free| + |s.orders| + |s.submits| == |own|
  {
    OwnedIsPartition(s.free, s.orders, HeldSlots(s), own);
    hide Owned;
    assert |HeldSlots(s)| == |s.submits| by {
      assert HeldSlots(s).Keys == s.submits.Keys;
      assert |HeldSlots(s).Keys| == |HeldSlots(s)| && |s.submits.Keys| == |s.submits|;
    }
    forall k | 0 <= k < |own|
      ensures k in s.free || (exists id :: id in s.orders && s.orders[id] == k)
        || (exists t :: t in s.submits && s.submits[t].slot == k)
    {
      if t :| t in HeldSlots(s) && HeldSlots(s)[t] == k {
        assert s.submits[t].slot == k;
      }
    }
  }

  /** In every run in which updates hit, the live table holds no finished order, and an exchange id that leads
      to a live order leads to one that is open or partly filled. */
  lemma LiveTableIsConsistent(n: nat, es: seq<Event>)
    requires HitRun(n, es)
    ensures var s := Run(n, es);
      && (forall id :: id in s.orders ==>
            s.orders[id] < |s.slots| && !IsTerminal(s.slots[s.orders[id]].sm) && s.slots[s.orders[id]].order.id == id)
      && (forall ex :: ex in s.exchange && s.exchange[ex] in s.orders ==>
            var sm := s.slots[s.orders[s.exchange[ex]]].sm;
            sm.OPEN? || sm.PARTIAL?)
  {
    var own := RunInv(n, es);
  }

  /** The failure callback of a live submission first rejects the exchange id "". That does nothing
      exactly when no live order was ever acknowledged under the empty id. */
  lemma EmptyRejectIsHarmless(n: nat, es: seq<Event>)
    requires HitRun(n, es)
    ensures var s := Run(n, es);
      RejectStep(s, "") == s <==> !("" in s.exchange && s.exchange[""] in s.orders)
  {
    var own := RunInv(n, es);
    var s := Run(n, es);
    if "" in s.exchange && s.exchange[""] in s.orders {
      assert |RejectStep(s, "").free| == |s.free| + 1;
    }
  }

  // ----------------------------------------------------------------- updates that may come too late

  ghost predicate Partitioned(s: State) {
    exists own :: PoolOk(s, own)
  }

  /** One update on its own, whatever happened to the order since the lookup: the pool stays
      partitioned exactly when the update retires nothing or the slot still belongs to its order. */
  lemma UpdateSafeExactlyWhenCurrent(s: State, t: nat, ts: nat)
    requires Partitioned(s)
    ensures Partitioned(UpdateStep(s, t, ts)) <==> Current(s, Update(t, ts))
  {
    hide FillOf, FilledOrder, FilledSm, Owned, UpdateStep, Finishes;
    var own :| PoolOk(s, own);
    UpdateEffect(s, t, ts);
    if Current(s, Update(t, ts)) {
      var own' := PoolUpdate(s, own, t, ts);
    } else {
      StaleReleaseBreaks(s, own, UpdateStep(s, t, ts), s.flights[t].id, s.flights[t].slot);
    }
  }

  lemma StaleReleaseBreaks(s: State, own: Owners, s': State, id: string, k: nat)
    requires PoolOk(s, own) && k < |own| && (id in s.orders ==> s.orders[id] != k)
    requires s'.free == s.free + [k] && s'.orders == s.orders - {id} && s'.submits == s.submits
    requires |s'.slots| == |s.slots|
    ensures !Partitioned(s')
  {
    assert s'.free[|s.free|] == k;
    assert OwnsBack(s.free, s.orders, HeldSlots(s), own[k], k);
    match own[k]
    case Free(i) => assert s'.free[i] == k;
    case Live(j) => assert j in s'.orders && s'.orders[j] == k;
    case Held(u) => assert u in HeldSlots(s') && HeldSlots(s')[u] == k;
  }

  /** Two fills of one open order, the first of which finishes it, and the second looked up before
      the first updates: the second one retires the order again, and its slot is on the free list
      twice. */
  lemma OverlappingFillsReleaseTwice(s: State, own: Owners, t: nat, u: nat, ts: nat)
    requires Inv(s, own)
    requires t in s.flights && s.flights[t].Found? && Hits(s, Update(t, ts))
    requires u in s.flights && s.flights[u].Marked? && Resolve(s, s.flights[u].exchangeId) == s.flights[t].id
    requires var p := s.slots[s.flights[t].slot];
      && (p.sm.OPEN? || p.sm.PARTIAL?)
      && p.order.filledQty + s.flights[t].qty >= p.order.quantity
    requires s.flights[u].qty >= 0
    ensures var k := s.flights[t].slot;
      var s' := UpdateStep(UpdateStep(LookupStep(s, u), t, ts), u, ts);
      s'.free == s.free + [k, k] && !NoDuplicates(s'.free)
  {
    hide FillOf, PoolOk, IdsOk, UpdateStep;
    var both := LookupStep(s, u);
    assert both.flights[u].slot == s.flights[t].slot;
    UpdateCompletes(both, t, ts);
    var s1 := UpdateStep(both, t, ts);
    UpdateCompletes(s1, u, ts);
    var s2 := UpdateStep(s1, u, ts);
    assert s2.free[|s.free|] == s2.free[|s.free| + 1];
  }

  ghost predicate AlwaysPartitioned(n: nat, es: seq<Event>) {
    forall k :: 0 <= k <= |es| ==> Partitioned(Run(n, es[..k]))
  }

  ghost predicate AlwaysCurrent(n: nat, es: seq<Event>) {
    forall k :: 0 <= k < |es| ==> Current(Run(n, es[..k]), es[k])
  }

  /** Over whole runs, serialised or not: the pool is partitioned at every moment exactly when every
      update that gives a slot back finds it still its order's. */
  lemma {:induction false} PartitionedExactlyWhileUpdatesAreCurrent(n: nat, es: seq<Event>)
    ensures AlwaysPartitioned(n, es) <==> AlwaysCurrent(n, es)
    decreases |es|
  {
    hide AlwaysPartitioned, AlwaysCurrent, Partitioned, Current, Run, Step;
    if es == [] {
      NothingYet(n);
    } else {
      var init, e := es[..|es| - 1], es[|es| - 1];
      assert es == init + [e];
      PartitionedExactlyWhileUpdatesAreCurrent(n, init);
      OneMoreEvent(n, init, e);
      RunAppend(n, init, e);
      RunIds(n, init);
      if Partitioned(Run(n, init)) {
        StepPartitionedExactlyWhenCurrent(Run(n, init), e);
      }
    }
  }

  lemma NothingYet(n: nat)
    ensures AlwaysPartitioned(n, []) && AlwaysCurrent(n, [])
  {
    InitPartitioned(n);
    var none: seq<Event> := [];
    assert forall k :: 0 <= k <= 0 ==> none[..k] == none;
  }

  lemma OneMoreEvent(n: nat, es: seq<Event>, e: Event)
    ensures AlwaysPartitioned(n, es + [e]) <==> AlwaysPartitioned(n, es) && Partitioned(Run(n, es + [e]))
    ensures AlwaysPartitioned(n, es) ==> Partitioned(Run(n, es))
    ensures AlwaysCurrent(n, es + [e]) <==> AlwaysCurrent(n, es) && Current(Run(n, es), e)
  {
    hide Partitioned, Current, Run;
    var more := es + [e];
    assert forall k :: 0 <= k <= |es| ==> more[..k] == es[..k];
    assert es[..|es|] == es && more[..|more|] == more && more[|es|] == e;
    if AlwaysPartitioned(n, more) {
      forall k | 0 <= k <= |es|
        ensures Partitioned(Run(n, es[..k]))
      {
        assert more[..k] == es[..k];
      }
    }
    if AlwaysCurrent(n, more) {
      assert more[..|es|] == es;
      forall k | 0 <= k < |es|
        ensures Current(Run(n, es[..k]), es[k])
      {
        assert more[..k] == es[..k] && more[k] == es[k];
      }
    }
  }

  lemma InitPartitioned(n: nat)
    ensures Run(n, []) == Init(n) && Partitioned(Init(n))
  {
    InitInv(n);
  }

  lemma StepPartitionedExactlyWhenCurrent(s: State, e: Event)
    requires Partitioned(s) && IdsOk(s)
    ensures Partitioned(Step(s, e)) <==> Current(s, e)
  {
    hide PoolOk, IdsOk;
    if e.Update? {
      UpdateSafeExactlyWhenCurrent(s, e.t, e.ts);
    } else {
      var own :| PoolOk(s, own);
      var own' := StepPool(s, own, e);
    }
  }

  /** In every such run, however its steps interleave: the free list is free of duplicates, no two
      orders share a slot, and every slot is free, live or being prepared, exactly one of them. */
  lemma PoolIsPartitioned(n: nat, es: seq<Event>)
    requires AlwaysCurrent(n, es)
    ensures var s := Run(n, es);
      && NoDuplicates(s.free)
      && (forall id, id' :: id in s.orders && id' in s.orders && id != id' ==> s.orders[id] != s.orders[id'])
      && (forall id :: id in s.orders ==> s.orders[id] !in s.free)
      && (forall t :: t in s.submits ==> s.submits[t].slot !in s.free)
      && (forall id, t :: id in s.orders && t in s.submits ==> s.orders[id] != s.submits[t].slot)
      && (forall k :: 0 <= k < n ==>
            || k in s.free
            || (exists id :: id in s.orders && s.orders[id] == k)
            || (exists t :: t in s.submits && s.submits[t].slot == k))
      && |s.free| + |s.orders| + |s.submits| == n
  {
    hide PoolOk, Run, AlwaysCurrent, AlwaysPartitioned;
    PartitionedExactlyWhileUpdatesAreCurrent(n, es);
    PartitionedNow(n, es);
    PoolSize(n, es);
    var own :| PoolOk(Run(n, es), own);
    SlotsApart(Run(n, es), own);
    SlotsCovered(Run(n, es), own);
  }

  lemma PartitionedNow(n: nat, es: seq<Event>)
    requires AlwaysPartitioned(n, es)
    ensures Partitioned(Run(n, es))
  {
    hide Partitioned, Run;
    assert es[..|es|] == es;
  }

  lemma {:induction false} PoolSize(n: nat, es: seq<Event>)
    ensures |Run(n, es).slots| == n
    decreases |es|
  {
    hide Step;
    if es != [] {
      PoolSize(n, es[..|es| - 1]);
      SlotsStay(Run(n, es[..|es| - 1]), es[|es| - 1]);
    }
  }

  lemma SlotsStay(s: State, e: Event)
    ensures |Step(s, e).slots| == |s.slots|
  {
    hide MakeId, OrderOf, Resolve, RejectTarget, FillOf, FilledOrder, FilledSm, Finishes;
  }

  /** Ids are never reused, serialised or not. */
  lemma {:induction false} RunIds(n: nat, es: seq<Event>)
    ensures IdsOk(Run(n, es))
    decreases |es|
  {
    hide Step;
    if es == [] {
    } else {
      RunIds(n, es[..|es| - 1]);
      hide IdsOk;
      StepIds(Run(n, es[..|es| - 1]), es[|es| - 1]);
    }
  }

  lemma RunAppend(n: nat, es: seq<Event>, e: Event)
    ensures Run(n, es + [e]) == Step(Run(n, es), e)
  {
    assert (es + [e])[..|es + [e]| - 1] == es;
  }

  /** A finishing fill of an order that is open, partly filled or already complete. */
  lemma UpdateCompletes(s: State, t: nat, ts: nat)
    requires t in s.flights && s.flights[t].Found? && s.flights[t].slot < |s.slots|
    requires var p := s.slots[s.flights[t].slot];
      && (p.sm.OPEN? || p.sm.PARTIAL? || p.sm.COMPLETE?)
      && p.order.filledQty + s.flights[t].qty >= p.order.quantity
    ensures var s' := UpdateStep(s, t, ts);
      var p, p' := s.slots[s.flights[t].slot], s'.slots[s.flights[t].slot];
      && |s'.slots| == |s.slots|
      && s'.free == s.free + [s.flights[t].slot]
      && s'.flights == s.flights[t := s'.flights[t]]
      && p'.sm == COMPLETE
      && p'.order.filledQty == p.order.filledQty + s.flights[t].qty
      && p'.order.quantity == p.order.quantity
  {
    FillQuantity(s.slots[s.flights[t].slot].order, s.flights[t], ts);
  }

  lemma FillQuantity(o: Order, f: Flight, ts: nat)
    requires f.Found?
    ensures FillOf(o, f, ts).quantity == f.qty && FillOf(o, f, ts).orderId == f.id
  {
  }

  // ------------------------------------------------------------------- handlers serialised per order

  /** Fills past the lookup hold the slot of a live order, each a different one. */
  ghost predicate FlightsOk(s: State) {
    && (forall t :: t in s.flights && s.flights[t].Found? ==>
          s.flights[t].id in s.orders && s.orders[s.flights[t].id] == s.flights[t].slot)
    && (forall t, t' :: t in s.flights && t' in s.flights && t != t' && s.flights[t].Found? && s.flights[t'].Found?
          ==> s.flights[t].id != s.flights[t'].id)
  }

  /** Nothing found is lost, and no order of a fill in progress is forgotten. */
  lemma FlightsFrame(s: State, s': State)
    requires FlightsOk(s)
    requires forall t :: t in s'.flights && s'.flights[t].Found? ==> t in s.flights && s'.flights[t] == s.flights[t]
    requires forall id :: id in s.orders && Busy(s, id) ==> id in s'.orders && s'.orders[id] == s.orders[id]
    ensures FlightsOk(s')
  {
    forall t | t in s'.flights && s'.flights[t].Found?
      ensures s'.flights[t].id in s'.orders && s'.orders[s'.flights[t].id] == s'.flights[t].slot
    {
      assert Busy(s, s.flights[t].id);
    }
  }

  lemma FlightsInsert(s: State, t: nat)
    requires IdsOk(s) && FlightsOk(s)
    ensures FlightsOk(InsertStep(s, t))
  {
    hide Trailing;
  }

  lemma FlightsLookup(s: State, t: nat)
    requires FlightsOk(s) && Serialised(s, Lookup(t))
    ensures FlightsOk(LookupStep(s, t))
  {
    hide Resolve;
  }

  lemma FlightsUpdate(s: State, t: nat, ts: nat)
    requires FlightsOk(s)
    ensures FlightsOk(UpdateStep(s, t, ts))
  {
    hide FillOf, FilledOrder, FilledSm;
  }

  lemma StepFlights(s: State, e: Event)
    requires IdsOk(s) && FlightsOk(s) && Serialised(s, e)
    ensures FlightsOk(Step(s, e))
  {
    hide FlightsOk, IdsOk, MakeId, OrderOf, Resolve;
    match e
    case Insert(t) => FlightsInsert(s, t);
    case Lookup(t) => FlightsLookup(s, t);
    case Update(t, ts) => FlightsUpdate(s, t, ts);
    case _ => FlightsFrame(s, Step(s, e));
  }

  lemma FlightsHit(s: State, e: Event)
    requires FlightsOk(s)
    ensures Hits(s, e)
  {
  }

  /** If no second lookup, rejection or removal of an order comes between the two sections of a fill, then
      every update hits. */
  lemma {:induction false} SerialRunsHit(n: nat, es: seq<Event>)
    requires SerialRun(n, es)
    ensures HitRun(n, es) && FlightsOk(Run(n, es))
    decreases |es|
  {
    hide Step, Serialised, Hits;
    if es != [] {
      hide FlightsOk;
      var init, e := es[..|es| - 1], es[|es| - 1];
      SerialRunsHit(n, init);
      RunIds(n, init);
      FlightsHit(Run(n, init), e);
      StepFlights(Run(n, init), e);
    }
  }

  /** If every update hits, then in particular every one that gives a slot back. */
  lemma {:induction false} HitRunsAreCurrent(n: nat, es: seq<Event>)
    requires HitRun(n, es)
    ensures AlwaysCurrent(n, es)
    decreases |es|
  {
    hide AlwaysPartitioned, AlwaysCurrent, Partitioned, Current, Run, Step, Hits;
    if es == [] {
      NothingYet(n);
    } else {
      var init, e := es[..|es| - 1], es[|es| - 1];
      assert es == init + [e];
      HitRunsAreCurrent(n, init);
      OneMoreEvent(n, init, e);
      HitIsCurrent(Run(n, init), e);
    }
  }

  lemma HitIsCurrent(s: State, e: Event)
    requires Hits(s, e)
    ensures Current(s, e)
  {
  }
}
