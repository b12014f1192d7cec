/** From the exchange's fills to the positions: the order manager applies a fill and offers it to the
    bounded fill queue, and the portfolio thread takes fills from the queue and books them. */
module Reconciliation {
  import opened Records
  import opened Oms
  import opened Portfolio
  import opened Fifo
  import opened OrderIds
  import opened OmsHandlers
  import opened OmsExamples

  /** `verdicts` says of every fill offered to the queue whether it was taken. */
  datatype System = System(
    oms: State, capacity: nat, queue: seq<Fill>, verdicts: seq<bool>, consumed: seq<Fill>, book: Snapshot)

  datatype Action = Manage(e: Event) | Consume

  function Start(poolSize: nat, capacity: nat, capital: real): System {
    System(Init(poolSize), capacity, [], [], [], Empty(capital))
  }

  /** A step of the order manager; if it offers a fill, the queue takes it unless it is full. The
      return value of that push is only logged. */
  function ManageStep(s: System, e: Event): System {
    var oms := Step(s.oms, e);
    if |oms.outbox| > |s.oms.outbox| then
      var fill := oms.outbox[|oms.outbox| - 1];
      var taken := Permits(s.capacity, s.queue, Enqueue(fill));
      s.(oms := oms, verdicts := s.verdicts + [taken],
         queue := if taken then After(s.queue, Enqueue(fill)) else s.queue)
    else s.(oms := oms)
  }

  /** One turn of the portfolio thread. */
  function ConsumeStep(s: System): System {
    if s.queue == [] then s
    else s.(queue := s.queue[1..], consumed := s.consumed + [s.queue[0]], book := Portfolio.Apply(s.book, s.queue[0]))
  }

  function Act(s: System, a: Action): System {
    match a
    case Manage(e) => ManageStep(s, e)
    case Consume => ConsumeStep(s)
  }

  function Runs(start: System, acts: seq<Action>): System {
    if acts == [] then start else Act(Runs(start, acts[..|acts| - 1]), acts[|acts| - 1])
  }

  /** One fill handler at a time: a new one starts only when none is under way. */
  ghost predicate OneAtATime(s: System, a: Action) {
    a.Manage? && a.e.Mark? ==> s.oms.flights == map[]
  }

  ghost predicate SerialFills(start: System, acts: seq<Action>) {
    acts != [] ==>
      && SerialFills(start, acts[..|acts| - 1])
      && OneAtATime(Runs(start, acts[..|acts| - 1]), acts[|acts| - 1])
  }

  /** The fills whose verdict is `v`, in order. */
  function Choose(fs: seq<Fill>, verdicts: seq<bool>, v: bool): seq<Fill>
    requires |fs| == |verdicts|
  {
    if fs == [] then []
    else
      Choose(fs[..|fs| - 1], verdicts[..|fs| - 1], v) + (if verdicts[|fs| - 1] == v then [fs[|fs| - 1]] else [])
  }

  /** The fill applied to its order and not yet offered to the queue, if there is one. */
  ghost predicate InHand(s: State, hand: seq<Fill>) {
    && |s.flights| <= 1
    && (forall t :: t in s.flights ==> if s.flights[t].Ready? then hand == [s.flights[t].fill] else hand == [])
    && (s.flights == map[] ==> hand == [])
  }

  ghost predicate Books(s: System, capital: real, hand: seq<Fill>) {
    && InHand(s.oms, hand)
    && s.oms.accepted == s.oms.outbox + hand
    && |s.verdicts| == |s.oms.outbox|
    && Choose(s.oms.outbox, s.verdicts, true) == s.consumed + s.queue
    && s.book == ApplyAll(Empty(capital), s.consumed)
  }

  lemma OneEntry<K, V>(m: map<K, V>, k: K, v: V)
    requires |m| <= 1 && k in m
    ensures m == map[k := m[k]] && m[k := v] == map[k := v] && m - {k} == map[]
  {
    assert m.Keys == {k} by {
      assert |m.Keys| == |m|;
      if j :| j in m && j != k {
        assert {j, k} <= m.Keys;
        SubsetSize({j, k}, m.Keys);
      }
    }
  }

  lemma {:induction false} SubsetSize<K>(a: set<K>, b: set<K>)
    requires a <= b
    ensures |a| <= |b|
    decreases |a|
  {
    if a != {} {
      var x :| x in a;
      SubsetSize(a - {x}, b - {x});
    }
  }

  /** The books of the order manager before and after a step: the fill in hand is applied and not
      yet offered, and at most one fill is offered. */
  ghost predicate HandedOn(s: State, s': State, hand': seq<Fill>) {
    && InHand(s', hand') && s'.accepted == s'.outbox + hand'
    && (s'.outbox == s.outbox || (|s'.outbox| == |s.outbox| + 1 && s'.outbox[..|s.outbox|] == s.outbox))
  }

  lemma LookupHands(s: State, t: nat, hand: seq<Fill>)
    requires InHand(s, hand) && s.accepted == s.outbox + hand
    ensures HandedOn(s, LookupStep(s, t), hand)
  {
    hide Resolve;
    if t in s.flights && s.flights[t].Marked? {
      var s' := LookupStep(s, t);
      OneEntry(s.flights, t, if t in s'.flights then s'.flights[t] else s.flights[t]);
    }
  }

  lemma UpdateHands(s: State, t: nat, ts: nat, hand: seq<Fill>) returns (hand': seq<Fill>)
    requires InHand(s, hand) && s.accepted == s.outbox + hand
    ensures HandedOn(s, UpdateStep(s, t, ts), hand')
  {
    hide UpdateStep, FillOf, FilledOrder, FilledSm, HandedOn;
    hand' := hand;
    UpdateEffect(s, t, ts);
    SameHanded(s, hand);
    if t in s.flights && s.flights[t].Found? && s.flights[t].slot < |s.slots| {
      var s' := UpdateStep(s, t, ts);
      OneEntry(s.flights, t, s'.flights[t]);
      hand' := [s'.flights[t].fill];
      AppliedHand(s, s', t, hand, s'.flights[t].fill);
    }
  }

  lemma SameHanded(s: State, hand: seq<Fill>)
    requires InHand(s, hand) && s.accepted == s.outbox + hand
    ensures HandedOn(s, s, hand)
  {
  }

  lemma AppliedHand(s: State, s': State, t: nat, hand: seq<Fill>, fill: Fill)
    requires InHand(s, hand) && s.accepted == s.outbox + hand
    requires t in s.flights && !s.flights[t].Ready? && s'.flights == map[t := Ready(fill)]
    requires s'.accepted == s.accepted + [fill] && s'.outbox == s.outbox
    ensures HandedOn(s, s', [fill])
  {
    assert s.accepted == s.outbox;
  }

  lemma PushHands(s: State, t: nat, hand: seq<Fill>) returns (hand': seq<Fill>)
    requires InHand(s, hand) && s.accepted == s.outbox + hand
    ensures HandedOn(s, PushStep(s, t), hand')
  {
    hand' := hand;
    if t in s.flights && s.flights[t].Ready? {
      OneEntry(s.flights, t, s.flights[t]);
      hand' := [];
    }
  }

  lemma FillSteps(s: State, e: Event, hand: seq<Fill>) returns (hand': seq<Fill>)
    requires InHand(s, hand) && (e.Mark? ==> s.flights == map[])
    requires s.accepted == s.outbox + hand
    ensures HandedOn(s, Step(s, e), hand')
  {
    hide InHand, AcquireStep, StampStep, InsertStep, AckStep, MarkStep, LookupStep, UpdateStep, PushStep,
      RejectStep, AbortStep;
    hand' := hand;
    match e
    case Mark(t, ex, price, qty, trade) => MarkHands(s, e, hand);
    case Lookup(t) => LookupHands(s, t, hand);
    case Update(t, ts) => hand' := UpdateHands(s, t, ts, hand);
    case Push(t) => hand' := PushHands(s, t, hand);
    case _ => OthersHand(s, e, hand);
  }

  lemma MarkHands(s: State, e: Event, hand: seq<Fill>)
    requires InHand(s, hand) && s.accepted == s.outbox + hand && e.Mark? && s.flights == map[]
    ensures HandedOn(s, Step(s, e), hand)
  {
    var s' := Step(s, e);
    assert s'.flights == map[] || s'.flights == map[e.t := s'.flights[e.t]];
  }

  lemma OthersHand(s: State, e: Event, hand: seq<Fill>)
    requires InHand(s, hand) && s.accepted == s.outbox + hand
    requires !e.Mark? && !e.Lookup? && !e.Update? && !e.Push?
    ensures HandedOn(s, Step(s, e), hand)
  {
    hide RejectTarget, InHand, HandedOn, MakeId, OrderOf;
    SameHand(s, Step(s, e), hand);
  }

  lemma SameHand(s: State, s': State, hand: seq<Fill>)
    requires InHand(s, hand) && s.accepted == s.outbox + hand
    requires s'.flights == s.flights && s'.outbox == s.outbox && s'.accepted == s.accepted
    ensures HandedOn(s, s', hand)
  {
  }

  lemma ChooseAppend(fs: seq<Fill>, f: Fill, verdicts: seq<bool>, x: bool, v: bool)
    requires |fs| == |verdicts|
    ensures Choose(fs + [f], verdicts + [x], v) == Choose(fs, verdicts, v) + if x == v then [f] else []
  {
    assert (fs + [f])[..|fs|] == fs && (verdicts + [x])[..|fs|] == verdicts;
  }

  lemma ManageKeepsBooks(s: System, capital: real, hand: seq<Fill>, e: Event) returns (hand': seq<Fill>)
    requires Books(s, capital, hand) && OneAtATime(s, Manage(e))
    ensures Books(ManageStep(s, e), capital, hand')
  {
    hide Step, InHand, ApplyAll;
    hand' := FillSteps(s.oms, e, hand);
    var s' := ManageStep(s, e);
    if |s'.oms.outbox| > |s.oms.outbox| {
      var fill := s'.oms.outbox[|s.oms.outbox|];
      assert s'.oms.outbox == s.oms.outbox + [fill];
      ChooseAppend(s.oms.outbox, fill, s.verdicts, s'.verdicts[|s.verdicts|], true);
    }
  }

  lemma ConsumeKeepsBooks(s: System, capital: real, hand: seq<Fill>)
    requires Books(s, capital, hand)
    ensures Books(ConsumeStep(s), capital, hand)
  {
    hide InHand, Portfolio.Apply;
    if s.queue != [] {
      var s' := ConsumeStep(s);
      assert s'.consumed[..|s'.consumed| - 1] == s.consumed;
      assert s.queue == [s.queue[0]] + s.queue[1..];
    }
  }

  /** In every run with serialised fills: what the order manager applied is what it offered to the
      queue and at most one fill in hand; of what it offered, the fills taken are those the
      portfolio booked followed by those still queued; and the book is exactly those fills. */
  lemma {:induction false} FillsReachThePortfolio(poolSize: nat, capacity: nat, capital: real, acts: seq<Action>)
    returns (hand: seq<Fill>)
    requires SerialFills(Start(poolSize, capacity, capital), acts)
    ensures Books(Runs(Start(poolSize, capacity, capital), acts), capital, hand)
    decreases |acts|
  {
    hide InHand, Act;
    var start := Start(poolSize, capacity, capital);
    if acts == [] {
      hand := [];
      NothingInHand(poolSize);
    } else {
      var init, a := acts[..|acts| - 1], acts[|acts| - 1];
      hand := FillsReachThePortfolio(poolSize, capacity, capital, init);
      var s := Runs(start, init);
      ActKeepsBooks(s, capital, hand, a);
      match a
      case Manage(e) => hand := ManageKeepsBooks(s, capital, hand, e);
      case Consume => ConsumeKeepsBooks(s, capital, hand);
    }
  }

  lemma ActKeepsBooks(s: System, capital: real, hand: seq<Fill>, a: Action)
    ensures a.Manage? ==> Act(s, a) == ManageStep(s, a.e)
    ensures a.Consume? ==> Act(s, a) == ConsumeStep(s)
  {
  }

  lemma NothingInHand(poolSize: nat)
    ensures InHand(Init(poolSize), [])
  {
  }

  lemma NetAppend(fs: seq<Fill>, f: Fill, token: nat)
    ensures NetQuantity(fs + [f], token) == NetQuantity(fs, token) + if f.token == token then f.Delta() else 0
  {
    assert (fs + [f])[..|fs + [f]| - 1] == fs;
  }

  lemma {:induction false} NetConcat(fs: seq<Fill>, gs: seq<Fill>, token: nat)
    ensures NetQuantity(fs + gs, token) == NetQuantity(fs, token) + NetQuantity(gs, token)
    decreases |gs|
  {
    if gs == [] {
      assert fs + gs == fs;
    } else {
      NetConcat(fs, gs[..|gs| - 1], token);
      NetAppend(fs + gs[..|gs| - 1], gs[|gs| - 1], token);
      assert fs + gs == fs + gs[..|gs| - 1] + [gs[|gs| - 1]];
    }
  }

  lemma {:induction false} NetChoose(fs: seq<Fill>, verdicts: seq<bool>, token: nat)
    requires |fs| == |verdicts|
    ensures NetQuantity(fs, token) ==
      NetQuantity(Choose(fs, verdicts, true), token) + NetQuantity(Choose(fs, verdicts, false), token)
    decreases |fs|
  {
    if fs != [] {
      var n := |fs| - 1;
      NetChoose(fs[..n], verdicts[..n], token);
      var taken, dropped := Choose(fs[..n], verdicts[..n], true), Choose(fs[..n], verdicts[..n], false);
      NetAppend(taken, fs[n], token);
      NetAppend(dropped, fs[n], token);
      assert taken + [] == taken && dropped + [] == dropped;
    }
  }

  /** Every position is the net quantity of the fills the order manager applied, less what is still
      queued or in hand, and less what a full queue dropped for good. */
  lemma PositionsReconcile(poolSize: nat, capacity: nat, capital: real, acts: seq<Action>, token: nat)
    returns (hand: seq<Fill>)
    requires SerialFills(Start(poolSize, capacity, capital), acts)
    ensures var s := Runs(Start(poolSize, capacity, capital), acts);
      && InHand(s.oms, hand) && |s.verdicts| == |s.oms.outbox|
      && s.book.GetPosition(token).quantity ==
           NetQuantity(s.oms.accepted, token) - NetQuantity(hand, token) - NetQuantity(s.queue, token)
           - NetQuantity(Choose(s.oms.outbox, s.verdicts, false), token)
  {
    hide InHand, ApplyAll;
    hand := FillsReachThePortfolio(poolSize, capacity, capital, acts);
    var s := Runs(Start(poolSize, capacity, capital), acts);
    PositionIsNetQuantity(capital, s.consumed, token);
    NetConcat(s.consumed, s.queue, token);
    NetConcat(s.oms.outbox, hand, token);
    NetChoose(s.oms.outbox, s.verdicts, token);
  }

  lemma {:induction false} ChooseAll(fs: seq<Fill>, verdicts: seq<bool>)
    requires |fs| == |verdicts|
    ensures |Choose(fs, verdicts, true)| <= |fs|
    ensures Choose(fs, verdicts, true) == fs <==> forall i :: 0 <= i < |fs| ==> verdicts[i]
    decreases |fs|
  {
    if fs != [] {
      var n := |fs| - 1;
      ChooseAll(fs[..n], verdicts[..n]);
      if verdicts[n] {
        assert Choose(fs, verdicts, true) == Choose(fs[..n], verdicts[..n], true) + [fs[n]];
        assert fs == fs[..n] + [fs[n]];
        assert (forall i :: 0 <= i < |fs| ==> verdicts[i]) <==> (forall i :: 0 <= i < n ==> verdicts[..n][i]);
      } else {
        assert Choose(fs, verdicts, true) == Choose(fs[..n], verdicts[..n], true);
      }
    }
  }

  /** With no handler under way, the fills applied are the fills booked followed by the fills queued
      exactly when no push ever found the queue full. */
  lemma NothingLostExactlyWhenNeverFull(poolSize: nat, capacity: nat, capital: real, acts: seq<Action>)
    requires SerialFills(Start(poolSize, capacity, capital), acts)
    requires Runs(Start(poolSize, capacity, capital), acts).oms.flights == map[]
    ensures var s := Runs(Start(poolSize, capacity, capital), acts);
      s.oms.accepted == s.consumed + s.queue <==> forall i :: 0 <= i < |s.verdicts| ==> s.verdicts[i]
  {
    var hand := FillsReachThePortfolio(poolSize, capacity, capital, acts);
    var s := Runs(Start(poolSize, capacity, capital), acts);
    assert hand == [] && s.oms.accepted == s.oms.outbox;
    ChooseAll(s.oms.outbox, s.verdicts);
  }

  // ----------------------------------------------------------------------- a fill that is dropped

  /** A trade for one unit, acknowledged as "E", from the deduplicator to the fill queue. */
  function Delivered(s: System, trade: string): System {
    ManageStep(ManageStep(ManageStep(ManageStep(s,
      Mark(0, "E", 1.0, 1, trade)), Lookup(0)), Update(0, 0)), Push(0))
  }

  lemma DeliveredEffect(s: System, trade: string, id: string)
    requires Quiescent(s.oms) && trade != "" && trade !in s.oms.seen
    requires "E" in s.oms.exchange && s.oms.exchange["E"] == id
    requires id in s.oms.orders && forall j :: j in s.oms.orders ==> s.oms.orders[j] < |s.oms.slots|
    ensures var d := Delivered(s, trade);
      var fill := FillOf(s.oms.slots[s.oms.orders[id]].order, Found("E", id, s.oms.orders[id], 1.0, 1, trade), 0);
      && d.oms == OmsHandlers.Booked(s.oms.(seen := s.oms.seen + {trade}), "E", id, 1.0, 1, trade, 0)
      && d.oms.outbox == s.oms.outbox + [fill]
      && d == s.(oms := d.oms, verdicts := s.verdicts + [|s.queue| < s.capacity - 1],
                 queue := if |s.queue| < s.capacity - 1 then s.queue + [fill] else s.queue)
  {
    hide FillOf, FilledOrder, FilledSm, MarkStep, LookupStep, UpdateStep, PushStep;
    FilledEffect(s.oms, "E", 1.0, 1, trade, 0);
    var o1 := MarkStep(s.oms, 0, "E", 1.0, 1, trade);
    var o2 := LookupStep(o1, 0);
    SameOutbox(s.oms, Mark(0, "E", 1.0, 1, trade));
    SameOutbox(o1, Lookup(0));
    SameOutbox(o2, Update(0, 0));
  }

  /** One more action; `e` may be a delivery only if no other is under way. */
  lemma Then(start: System, acts: seq<Action>, a: Action) returns (acts': seq<Action>)
    requires SerialFills(start, acts) && OneAtATime(Runs(start, acts), a)
    ensures Runs(start, acts') == Act(Runs(start, acts), a) && SerialFills(start, acts')
  {
    acts' := acts + [a];
    assert acts'[..|acts'| - 1] == acts;
  }

  lemma ThenDeliver(start: System, acts: seq<Action>, trade: string) returns (acts': seq<Action>)
    requires SerialFills(start, acts) && Runs(start, acts).oms.flights == map[]
    ensures Runs(start, acts') == Delivered(Runs(start, acts), trade) && SerialFills(start, acts')
  {
    hide Runs, ManageStep, SerialFills;
    acts' := Then(start, acts, Manage(Mark(0, "E", 1.0, 1, trade)));
    acts' := Then(start, acts', Manage(Lookup(0)));
    acts' := Then(start, acts', Manage(Update(0, 0)));
    acts' := Then(start, acts', Manage(Push(0)));
  }

  lemma ThenPlaced(start: System, capital: real) returns (acts: seq<Action>)
    requires start == Start(1, 2, capital)
    ensures SerialFills(start, acts)
    ensures var s := Runs(start, acts);
      && s == start.(oms := s.oms)
      && s.oms == AckStep(Placed(OrderOf(ID, Buy(2))), "E", ID)
  {
    hide Runs, SerialFills, AcquireStep, StampStep, InsertStep, AckStep, Placed, OrderOf, MakeId;
    PlacedState(Buy(2));
    var s1 := AcquireStep(Init(1), 0, Buy(2));
    var s2 := StampStep(s1, 0, 0);
    var s3 := InsertStep(s2, 0);
    SameOutbox(Init(1), Acquire(0, Buy(2)));
    SameOutbox(s1, Stamp(0, 0));
    SameOutbox(s2, Insert(0));
    SameOutbox(s3, Ack("E", ID));
    acts := NoActions(start);
    acts := Then(start, acts, Manage(Acquire(0, Buy(2))));
    acts := Then(start, acts, Manage(Stamp(0, 0)));
    acts := Then(start, acts, Manage(Insert(0)));
    acts := Then(start, acts, Manage(Ack("E", ID)));
  }

  lemma NoActions(start: System) returns (acts: seq<Action>)
    ensures Runs(start, acts) == start && SerialFills(start, acts)
  {
    acts := [];
  }

  lemma SameOutbox(s: State, e: Event)
    requires !e.Push?
    ensures Step(s, e).outbox == s.outbox
  {
    hide MakeId, OrderOf, Resolve, RejectTarget, FillOf, FilledOrder, FilledSm;
  }

  /** A live order for instrument 7, acknowledged as "E". */
  predicate Acked(s: State) {
    && Quiescent(s) && s.exchange == map["E" := ID] && s.orders == map[ID := 0] && |s.slots| == 1
    && s.slots[0].order.token == 7 && s.slots[0].order.side == BUY
    && (s.slots[0].sm.OPEN? || s.slots[0].sm.PARTIAL?)
  }

  lemma AckedOrder(s: State)
    requires s == AckStep(Placed(OrderOf(ID, Buy(2))), "E", ID)
    ensures Acked(s) && s.seen == {} && s.accepted == [] && s.outbox == []
    ensures s.slots[0].order.quantity == 2 && s.slots[0].order.filledQty == 0
  {
    hide MakeId;
  }

  lemma HalfFilled(s: State, trade: string)
    requires Acked(s) && s.slots[0].order.quantity == 2 && s.slots[0].order.filledQty == 0
    ensures var b := OmsHandlers.Booked(s.(seen := s.seen + {trade}), "E", ID, 1.0, 1, trade, 0);
      Acked(b) && b.seen == s.seen + {trade}
  {
    hide MakeId;
  }

  /** What is booked and what is offered is one unit bought of instrument 7. */
  lemma OneUnit(s: State, trade: string)
    requires Acked(s)
    ensures var fill := FillOf(s.slots[0].order, Found("E", ID, 0, 1.0, 1, trade), 0);
      var b := OmsHandlers.Booked(s.(seen := s.seen + {trade}), "E", ID, 1.0, 1, trade, 0);
      && fill.token == 7 && fill.Delta() == 1
      && b.accepted == s.accepted + [fill] && b.flights == map[]
  {
    hide MakeId, FilledOrder, FilledSm;
  }

  lemma NetOfUnits(fs: seq<Fill>)
    requires forall i :: 0 <= i < |fs| ==> fs[i].token == 7 && fs[i].Delta() == 1
    ensures NetQuantity(fs, 7) == |fs|
  {
  }

  lemma TwoTradesOneSlot(capital: real) returns (acts: seq<Action>)
    ensures var s := Runs(Start(1, 2, capital), acts);
      && SerialFills(Start(1, 2, capital), acts) && s.oms.flights == map[]
      && s.verdicts == [true, false]
      && NetQuantity(s.oms.accepted, 7) == 2
      && |s.queue| == 1 && s.queue[0].token == 7 && s.queue[0].Delta() == 1 && s.consumed == []
  {
    hide Runs, SerialFills, Delivered, FillOf, OmsHandlers.Booked, MakeId;
    var start := Start(1, 2, capital);
    acts := ThenPlaced(start, capital);
    var s0 := Runs(start, acts);
    AckedOrder(s0.oms);
    DeliveredEffect(s0, "T1", ID);
    OneUnit(s0.oms, "T1");
    HalfFilled(s0.oms, "T1");
    acts := ThenDeliver(start, acts, "T1");
    var s1 := Delivered(s0, "T1");
    DeliveredEffect(s1, "T2", ID);
    OneUnit(s1.oms, "T2");
    acts := ThenDeliver(start, acts, "T2");
    NetOfUnits(Delivered(s1, "T2").oms.accepted);
  }

  /** Turns of the portfolio thread book what is queued and touch nothing else. */
  lemma ThenConsume(start: System, acts: seq<Action>, turns: nat) returns (acts': seq<Action>)
    requires SerialFills(start, acts) && |Runs(start, acts).queue| == 1 && Runs(start, acts).consumed == []
    ensures SerialFills(start, acts')
    ensures var s, s' := Runs(start, acts), Runs(start, acts');
      && s'.oms == s.oms && s'.verdicts == s.verdicts
      && s'.queue == (if turns == 0 then s.queue else [])
      && s'.consumed == if turns == 0 then [] else s.queue
  {
    hide Runs, SerialFills, Portfolio.Apply;
    acts' := acts;
    for i := 0 to turns
      invariant SerialFills(start, acts')
      invariant var s, s' := Runs(start, acts), Runs(start, acts');
        && s'.oms == s.oms && s'.verdicts == s.verdicts
        && s'.queue == (if i == 0 then s.queue else [])
        && s'.consumed == if i == 0 then [] else s.queue
    {
      acts' := Then(start, acts', Consume);
    }
  }

  /** Two trades for an order of two units come before the portfolio thread takes its first turn, and the
      queue has two slots, one of which stays empty: both are applied to the order, the second is
      dropped, and however often the portfolio thread turns after that, it books one unit. */
  lemma FullQueueDropsAFill(capital: real, turns: nat) returns (acts: seq<Action>)
    ensures var s := Runs(Start(1, 2, capital), acts);
      && SerialFills(Start(1, 2, capital), acts) && s.oms.flights == map[]
      && s.verdicts == [true, false]
      && NetQuantity(s.oms.accepted, 7) == 2
      && s.book.GetPosition(7).quantity == Min(turns, 1)
      && (turns > 0 ==> s.queue == [])
  {
    hide Runs, SerialFills, InHand, ApplyAll;
    var start := Start(1, 2, capital);
    acts := TwoTradesOneSlot(capital);
    acts := ThenConsume(start, acts, turns);
    var s := Runs(start, acts);
    var hand := FillsReachThePortfolio(1, 2, capital, acts);
    PositionIsNetQuantity(capital, s.consumed, 7);
    NetOfUnits(s.consumed);
  }
}
