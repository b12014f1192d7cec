/** The order state machine under contention: `transition` is an atomic load, a legality check and a
    compare-and-swap, and any number of threads interleave these steps. */
module OrderStateRace {
  import opened OrderState

  /** How many more changes an order can go through. */
  function Rank(s: OrderStatus): nat {
    match s
    case PENDING => 4
    case TRIGGER_PENDING => 3
    case OPEN => 2
    case PARTIAL => 1
    case _ => 0
  }

  datatype Phase =
    | Idle
    | Loaded(from: OrderStatus, to: OrderStatus)   // has loaded status_
    | Checked(from: OrderStatus, to: OrderStatus)  // has found the change legal

  /** A successful swap: which thread, from which value to which. */
  datatype Win = Win(thread: nat, from: OrderStatus, to: OrderStatus)

  datatype State = State(status: OrderStatus, threads: map<nat, Phase>, wins: seq<Win>)

  datatype Event = Load(t: nat, to: OrderStatus) | Check(t: nat) | Swap(t: nat)

  function Init(s: OrderStatus): State { State(s, map[], []) }

  function Step(s: State, e: Event): State {
    match e
    case Load(t, to) =>
      if t in s.threads && !s.threads[t].Idle? then s
      else s.(threads := s.threads[t := Loaded(s.status, to)])
    case Check(t) =>
      if t in s.threads && s.threads[t].Loaded? then
        var p := s.threads[t];
        s.(threads := s.threads[t := if IsLegal(p.from, p.to) then Checked(p.from, p.to) else Idle])
      else s
    case Swap(t) =>
      if t in s.threads && s.threads[t].Checked? then
        var p := s.threads[t];
        if s.status == p.from then
          State(p.to, s.threads[t := Idle], s.wins + [Win(t, p.from, p.to)])
        else s.(threads := s.threads[t := Idle])
      else s
  }

  function Run(initial: OrderStatus, es: seq<Event>): State {
    if es == [] then Init(initial) else Step(Run(initial, es[..|es| - 1]), es[|es| - 1])
  }

  /** The wins lead from `a` to `b`, each one legal and starting where the one before ended. */
  predicate Path(a: OrderStatus, ws: seq<Win>, b: OrderStatus) {
    if ws == [] then a == b
    else
      var w := ws[|ws| - 1];
      w.to == b && IsLegal(w.from, w.to) && Path(a, ws[..|ws| - 1], w.from)
  }

  lemma {:induction false} RunIsPath(initial: OrderStatus, es: seq<Event>)
    ensures var s := Run(initial, es);
      && Path(initial, s.wins, s.status)
      && forall t :: t in s.threads && s.threads[t].Checked? ==> IsLegal(s.threads[t].from, s.threads[t].to)
    decreases |es|
  {
    if es != [] {
      var init := es[..|es| - 1];
      RunIsPath(initial, init);
      var s, s' := Run(initial, init), Run(initial, es);
      if |s'.wins| > |s.wins| {
        assert s'.wins[..|s'.wins| - 1] == s.wins;
      }
    }
  }

  /** Each win lowers the rank, so a path is short and never returns to a status. */
  lemma {:induction false} PathDescends(a: OrderStatus, ws: seq<Win>, b: OrderStatus, i: nat)
    requires Path(a, ws, b) && i < |ws|
    ensures |ws| + Rank(b) <= Rank(a)
    ensures Rank(ws[i].to) < Rank(ws[i].from) <= Rank(a) - i
    ensures Rank(ws[i].to) >= Rank(b)
    ensures forall j :: i < j < |ws| ==> Rank(ws[j].from) <= Rank(ws[i].to)
    decreases |ws|
  {
    var init, w := ws[..|ws| - 1], ws[|ws| - 1];
    if init == [] {
    } else if i < |init| {
      PathDescends(a, init, w.from, i);
      forall j | i < j < |ws|
        ensures Rank(ws[j].from) <= Rank(ws[i].to)
      {
        if j < |init| {
          assert ws[j] == init[j];
        }
      }
    } else {
      PathDescends(a, init, w.from, 0);
    }
  }

  /** However the threads interleave: the successful changes form a path in the legality graph, at
      most four of them, and none starts in a terminal status. */
  lemma TransitionsAreSafe(initial: OrderStatus, es: seq<Event>)
    ensures var s := Run(initial, es);
      && Path(initial, s.wins, s.status)
      && |s.wins| + Rank(s.status) <= Rank(initial) <= 4
      && forall i :: 0 <= i < |s.wins| ==> !IsTerminal(s.wins[i].from)
  {
    RunIsPath(initial, es);
    var s := Run(initial, es);
    if s.wins != [] {
      PathDescends(initial, s.wins, s.status, 0);
    }
    forall i | 0 <= i < |s.wins|
      ensures !IsTerminal(s.wins[i].from)
    {
      PathDescends(initial, s.wins, s.status, i);
    }
  }

  /** Of all threads that ever race to leave or to enter the same status, at most one wins; so an
      order is retired by at most one thread. */
  lemma OneWinnerPerStatus(initial: OrderStatus, es: seq<Event>, i: nat, j: nat)
    requires i < j < |Run(initial, es).wins|
    ensures var ws := Run(initial, es).wins;
      ws[i].from != ws[j].from && ws[i].to != ws[j].to && !IsTerminal(ws[i].to)
  {
    RunIsPath(initial, es);
    var s := Run(initial, es);
    PathDescends(initial, s.wins, s.status, i);
    PathDescends(initial, s.wins, s.status, j);
  }

  /** `es` followed by an undisturbed call of `transition(to)` from thread `t`. */
  function ThenCall(es: seq<Event>, t: nat, to: OrderStatus): seq<Event> {
    es + [Load(t, to), Check(t), Swap(t)]
  }

  lemma CallApplies(es: seq<Event>, t: nat, to: OrderStatus)
    requires var s := Run(PENDING, es); t in s.threads ==> s.threads[t].Idle?
    ensures var s, s' := Run(PENDING, es), Run(PENDING, ThenCall(es, t, to));
      && s'.status == Advance(s.status, to)
      && s'.threads == s.threads[t := Idle]
      && s'.wins == if IsLegal(s.status, to) then s.wins + [Win(t, s.status, to)] else s.wins
  {
    hide Run, IsLegal;
    var e1 := es + [Load(t, to)];
    var e2 := e1 + [Check(t)];
    RunAppend(es, Load(t, to));
    RunAppend(e1, Check(t));
    RunAppend(e2, Swap(t));
    assert e2 + [Swap(t)] == ThenCall(es, t, to);
  }

  lemma RunAppend(es: seq<Event>, e: Event)
    ensures Run(PENDING, es + [e]) == Step(Run(PENDING, es), e)
  {
    assert (es + [e])[..|es + [e]| - 1] == es;
  }

  /** The bound of four is met. */
  lemma FourChangesHappen() returns (es: seq<Event>)
    ensures |Run(PENDING, es).wins| == 4 && Run(PENDING, es).status == COMPLETE
  {
    es := [];
    var path := [TRIGGER_PENDING, OPEN, PARTIAL, COMPLETE];
    for i := 0 to 4
      invariant |Run(PENDING, es).wins| == i
      invariant Run(PENDING, es).status == if i == 0 then PENDING else path[i - 1]
      invariant forall t :: t in Run(PENDING, es).threads ==> Run(PENDING, es).threads[t].Idle?
    {
      CallApplies(es, i, path[i]);
      es := ThenCall(es, i, path[i]);
    }
  }
}
