/** The checks an order passes before it is submitted, and what a passed check guarantees of the
    portfolio after the order is filled. */
module RiskGate {
  import opened Records
  import opened Reals
  import opened MapSum
  import opened Portfolio
  import opened TokenBucket

  datatype RiskDecision =
    | PASS | REJECT_KILL_SWITCH | REJECT_MARKET_CLOSED | REJECT_RATE_LIMIT | REJECT_POSITION_LIMIT
    | REJECT_CAPITAL | REJECT_PRICE_SANITY | REJECT_DAILY_LOSS

  datatype RiskLimits = RiskLimits(
    maxSingleOrderValue: real, maxPositionValue: real, maxCapitalAllocation: real, maxDailyLoss: real)

  /** What a position contributes to the capital used by a strategy, and to its profit of the day. */
  function UsedBy(sid: string): Position -> real {
    (p: Position) => if p.strategy == sid then p.Value() else 0.0
  }

  function PnlOf(sid: string): Position -> real {
    (p: Position) => if p.strategy == sid then p.realizedPnl + p.unrealizedPnl else 0.0
  }

  ghost function UsedCapital(s: Snapshot, sid: string): real { Sum(s.positions, UsedBy(sid)) }

  ghost function DailyPnl(s: Snapshot, sid: string): real { Sum(s.positions, PnlOf(sid)) }

  function Price(prices: map<nat, real>, token: nat): real {
    if token in prices then prices[token] else 0.0
  }

  function OrderDelta(req: OrderRequest): int {
    if req.side.BUY? then req.quantity else -req.quantity
  }

  function NewQuantity(req: OrderRequest, s: Snapshot): int {
    s.GetPosition(req.token).quantity + OrderDelta(req)
  }

  /** The checks behind the rate limit; `ltp` is the last traded price, zero if there is none. */
  function LimitChecks(req: OrderRequest, lim: RiskLimits, s: Snapshot, ltp: real, used: real, pnl: real)
    : RiskDecision
  {
    if ltp > 0.0 && req.quantity as real * ltp > lim.maxSingleOrderValue then REJECT_POSITION_LIMIT
    else if ltp > 0.0 && Abs(NewQuantity(req, s)) as real * ltp > lim.maxPositionValue then REJECT_POSITION_LIMIT
    else if ltp > 0.0 && used + req.quantity as real * ltp > lim.maxCapitalAllocation then REJECT_CAPITAL
    else if req.orderType.LIMIT? && ltp > 0.0 && req.limitPrice > 0.0 && AbsReal(req.limitPrice - ltp) / ltp > 0.05
    then REJECT_PRICE_SANITY
    else if pnl < -lim.maxDailyLoss then REJECT_DAILY_LOSS
    else PASS
  }

  /** One call of the gate: the state of the switches and of the market, the time, and the request
      with the limits, the portfolio and the prices it is checked against. */
  datatype Call = Call(
    killed: bool, halted: bool, marketOpen: bool, now: int,
    req: OrderRequest, limits: RiskLimits, portfolio: Snapshot, prices: map<nat, real>)

  type Limiters = map<string, Bucket>

  /** Does the call get as far as the rate limiter? */
  predicate ReachesLimiter(c: Call) { !c.killed && !c.halted && c.marketOpen }

  ghost function Decision(ls: Limiters, c: Call): RiskDecision {
    var sid := c.req.strategy;
    if c.killed || c.halted then REJECT_KILL_SWITCH
    else if !c.marketOpen then REJECT_MARKET_CLOSED
    else if sid in ls && !Grants(ls[sid], c.now) then REJECT_RATE_LIMIT
    else
      LimitChecks(c.req, c.limits, c.portfolio, Price(c.prices, c.req.token),
                  UsedCapital(c.portfolio, sid), DailyPnl(c.portfolio, sid))
  }

  /** A token is taken whatever the later checks say. */
  function LimitersAfter(ls: Limiters, c: Call): Limiters {
    if ReachesLimiter(c) && c.req.strategy in ls then
      ls[c.req.strategy := Consume(ls[c.req.strategy], c.now)]
    else ls
  }

  // ------------------------------------------------------------------- the gate keeps the limits

  /** The position of each instrument is filed under that instrument; fills and marks keep it so. */
  predicate WellKeyed(s: Snapshot) {
    forall k :: k in s.positions ==> s.positions[k].token == k
  }

  lemma ApplyKeepsKeys(s: Snapshot, f: Fill)
    requires WellKeyed(s)
    ensures WellKeyed(Portfolio.Apply(s, f))
  {
    hide Booked;
    assert Opened(s, f).token == f.token;
  }

  lemma MarkKeepsKeys(s: Snapshot, token: nat, price: real)
    requires WellKeyed(s)
    ensures WellKeyed(Mark(s, token, price))
  {
  }

  lemma {:induction false} RunKeepsKeys(capital: real, es: seq<MarketEvent>)
    ensures WellKeyed(MarketRun(capital, es))
    decreases |es|
  {
    hide Portfolio.Apply, Mark, WellKeyed;
    if es == [] {
      assert WellKeyed(Empty(capital)) by { NothingFiled(capital); }
    } else {
      var before := MarketRun(capital, es[..|es| - 1]);
      RunKeepsKeys(capital, es[..|es| - 1]);
      match es[|es| - 1]
      case Filled(f) => ApplyKeepsKeys(before, f);
      case Priced(token, price) => MarkKeepsKeys(before, token, price);
    }
  }

  lemma NothingFiled(capital: real)
    ensures WellKeyed(Empty(capital))
  {
  }

  /** The whole order filled, at whatever price, and then marked at `ltp`. */
  ghost function AfterFill(s: Snapshot, f: Fill, ltp: real): Snapshot {
    Mark(Portfolio.Apply(s, f), f.token, ltp)
  }

  predicate FillsWhole(f: Fill, req: OrderRequest) {
    f.token == req.token && f.side == req.side && f.quantity == req.quantity && f.strategy == req.strategy
  }

  /** The fill does not relabel an open position of another strategy. Relabelling happens to
      instrument 0 only, which the portfolio takes for a position not yet labelled. */
  predicate KeepsLabel(s: Snapshot, req: OrderRequest) {
    req.token != 0 || 0 !in s.positions || s.positions[0].quantity == 0 || s.positions[0].strategy == req.strategy
  }

  /** How the capital used by any strategy changes. */
  lemma UsedAfterFill(s: Snapshot, f: Fill, ltp: real, sid: string)
    ensures var p := Opened(s, f);
      UsedCapital(AfterFill(s, f, ltp), sid) ==
        UsedCapital(s, sid) - At(s.positions, UsedBy(sid), f.token)
        + if p.strategy == sid then Abs(p.quantity + f.Delta()) as real * ltp else 0.0
  {
    hide Settle, Marked, AfterFill, Booked, Opened, UsedBy, At;
    var q := Marked(Settle(Opened(s, f), f), ltp);
    AfterPosition(s, f, ltp);
    SumUpdate(s.positions, UsedBy(sid), f.token, q);
    UsedByPosition(q, sid);
  }

  lemma UsedByPosition(q: Position, sid: string)
    ensures UsedBy(sid)(q) == if q.strategy == sid then Abs(q.quantity) as real * q.currentPrice else 0.0
  {
  }

  /** The one position that changes. */
  lemma AfterPosition(s: Snapshot, f: Fill, ltp: real)
    ensures var p, q := Opened(s, f), Marked(Settle(Opened(s, f), f), ltp);
      && AfterFill(s, f, ltp).positions == s.positions[f.token := q]
      && q.strategy == p.strategy && q.quantity == p.quantity + f.Delta() && q.currentPrice == ltp
  {
    hide Booked;
    SettleQuantity(Opened(s, f), f);
    SettleLabel(Opened(s, f), f);
    hide Settle;
  }

  lemma SettleLabel(p: Position, f: Fill)
    ensures Settle(p, f).strategy == p.strategy && Settle(p, f).token == p.token
  {
  }

  lemma ScaleSum(a: nat, b: nat, n: nat, x: real)
    requires a <= b + n && x > 0.0
    ensures a as real * x <= b as real * x + n as real * x && n as real * x >= 0.0
  {
    assert (b + n) as real * x == b as real * x + n as real * x;
    assert ((b + n) - a) as real * x >= 0.0;
    assert ((b + n) - a) as real * x == (b + n) as real * x - a as real * x;
  }

  /** If a priced order passes and is filled and marked at that price, its position stays within its limit,
      and its strategy does exactly if the fill keeps the label of the position, or the strategy could
      have afforded the whole position anew. */
  lemma PassKeepsLimits(ls: Limiters, c: Call, f: Fill)
    requires Decision(ls, c) == PASS && FillsWhole(f, c.req) && c.req.quantity >= 0
    requires WellKeyed(c.portfolio)
    requires var ltp := Price(c.prices, c.req.token);
      var p := c.portfolio.GetPosition(c.req.token);
      ltp > 0.0 && (p.quantity != 0 ==> p.currentPrice == ltp)
    ensures var ltp := Price(c.prices, c.req.token);
      var s' := AfterFill(c.portfolio, f, ltp);
      && Abs(s'.GetPosition(c.req.token).quantity) as real * ltp <= c.limits.maxPositionValue
      && (UsedCapital(s', c.req.strategy) <= c.limits.maxCapitalAllocation <==>
            KeepsLabel(c.portfolio, c.req)
            || UsedCapital(c.portfolio, c.req.strategy) + Abs(NewQuantity(c.req, c.portfolio)) as real * ltp
               <= c.limits.maxCapitalAllocation)
  {
    hide Settle, Marked, AfterFill, Booked, Decision, LimitChecks, UsedCapital, DailyPnl, At, UsedBy;
    var s, ltp := c.portfolio, Price(c.prices, c.req.token);
    PassMeansEveryCheck(ls, c);
    AfterPosition(s, f, ltp);
    assert Opened(s, f).quantity == s.GetPosition(f.token).quantity && f.Delta() == OrderDelta(c.req);
    if KeepsLabel(s, c.req) {
      LabelKeptWithinLimit(s, f, ltp, c.req, c.limits.maxCapitalAllocation);
    } else {
      RelabelledPositionCountsInFull(s, f, ltp);
    }
  }

  lemma LabelKeptWithinLimit(s: Snapshot, f: Fill, ltp: real, req: OrderRequest, limit: real)
    requires FillsWhole(f, req) && req.quantity >= 0 && WellKeyed(s) && KeepsLabel(s, req) && ltp > 0.0
    requires s.GetPosition(f.token).quantity != 0 ==> s.GetPosition(f.token).currentPrice == ltp
    requires UsedCapital(s, req.strategy) + req.quantity as real * ltp <= limit
    ensures UsedCapital(AfterFill(s, f, ltp), req.strategy) <= limit
  {
    hide Settle, Marked, AfterFill, Booked, UsedCapital, At, UsedBy;
    var p, before := Opened(s, f), s.GetPosition(f.token);
    UsedAfterFill(s, f, ltp, req.strategy);
    assert p.quantity == before.quantity && f.Delta() == OrderDelta(req);
    ScaleSum(Abs(p.quantity + f.Delta()), Abs(p.quantity), req.quantity, ltp);
    UsedBefore(s, f, ltp, req.strategy);
  }

  /** What the position contributed before the fill. */
  lemma UsedBefore(s: Snapshot, f: Fill, ltp: real, sid: string)
    requires f.token in s.positions && s.positions[f.token].quantity != 0 ==> s.positions[f.token].currentPrice == ltp
    requires f.token in s.positions ==>
      s.positions[f.token].token == f.token &&
      (f.token != 0 || s.positions[f.token].quantity == 0 || s.positions[f.token].strategy == f.strategy)
    requires sid == f.strategy
    ensures Opened(s, f).strategy == sid ==>
      At(s.positions, UsedBy(sid), f.token) == Abs(Opened(s, f).quantity) as real * ltp
    ensures Opened(s, f).strategy != sid ==> At(s.positions, UsedBy(sid), f.token) == 0.0
  {
    if f.token in s.positions && s.positions[f.token].quantity == 0 {
      assert s.positions[f.token].Value() == 0.0;
    }
  }

  /** The position stays charged to the strategy that first traded it: a fill by another strategy
      moves the capital of the first one, whose limit nobody checked, and leaves the other's alone. */
  lemma FillChargesTheLabel(s: Snapshot, f: Fill, ltp: real, other: string)
    requires WellKeyed(s) && f.token != 0 && f.token in s.positions
    requires s.positions[f.token].strategy != other && s.positions[f.token].currentPrice == ltp
    ensures var p := s.positions[f.token];
      && UsedCapital(AfterFill(s, f, ltp), p.strategy) ==
           UsedCapital(s, p.strategy) + (Abs(p.quantity + f.Delta()) - Abs(p.quantity)) as real * ltp
      && UsedCapital(AfterFill(s, f, ltp), other) == UsedCapital(s, other)
  {
    hide Settle, Marked, AfterFill, UsedCapital;
    var p := s.positions[f.token];
    UsedAfterFill(s, f, ltp, p.strategy);
    UsedAfterFill(s, f, ltp, other);
    ScaleDifference(Abs(p.quantity + f.Delta()), Abs(p.quantity), ltp);
  }

  lemma ScaleDifference(a: nat, b: nat, x: real)
    ensures (a - b) as real * x == a as real * x - b as real * x
  {
  }

  /** A relabelled position counts in full. */
  lemma RelabelledPositionCountsInFull(s: Snapshot, f: Fill, ltp: real)
    requires f.token == 0 && 0 in s.positions && s.positions[0].token == 0 && s.positions[0].strategy != f.strategy
    ensures UsedCapital(AfterFill(s, f, ltp), f.strategy) ==
      UsedCapital(s, f.strategy) + Abs(s.positions[0].quantity + f.Delta()) as real * ltp
  {
    hide Settle, Marked, AfterFill, UsedCapital, Booked;
    UsedAfterFill(s, f, ltp, f.strategy);
  }

  /** "A" buys ten units of instrument 0 at 1, and the position is marked at 1. An order of "B" for one more
      unit passes under a capital limit of 5, and then "B" uses 11. */
  lemma RelabelExample() returns (es: seq<MarketEvent>, c: Call, f: Fill)
    ensures c.portfolio == MarketRun(100.0, es) && PositiveFills(es)
    ensures Decision(map[], c) == PASS && FillsWhole(f, c.req) && Price(c.prices, c.req.token) == 1.0
    ensures UsedCapital(AfterFill(c.portfolio, f, 1.0), c.req.strategy) == 11.0 > c.limits.maxCapitalAllocation
  {
    hide Portfolio.Apply, Mark;
    var buy := Fill("a", "1", "A", 0, BUY, 10, 1.0, 0);
    es := [Filled(buy), Priced(0, 1.0)];
    var s := MarketRun(100.0, es);
    assert es[..1] == [Filled(buy)] && es[..1][..0] == [];
    var none: seq<MarketEvent> := [];
    assert MarketRun(100.0, none) == Empty(100.0);
    assert MarketRun(100.0, es[..1]) == Portfolio.Apply(Empty(100.0), buy);
    HeldByA(buy);
    var req := OrderRequest(0, BUY, MARKET, 1, 0.0, "B");
    c := Call(false, false, true, 0, req, RiskLimits(100.0, 100.0, 5.0, 100.0), s, map[0 := 1.0]);
    f := Fill("", "", "B", 0, BUY, 1, 1.0, 0);
    OtherUsesNothing(s);
    BPasses(c);
    RelabelledPositionCountsInFull(s, f, 1.0);
  }

  lemma HeldByA(buy: Fill)
    requires buy == Fill("a", "1", "A", 0, BUY, 10, 1.0, 0)
    ensures Mark(Portfolio.Apply(Empty(100.0), buy), 0, 1.0).positions ==
      map[0 := Position(0, "A", 10, 1.0, 1.0, 0.0, 0.0)]
  {
    hide Portfolio.Apply, Mark;
    OneFill(Empty(100.0), NO_POSITION.(strategy := "A"), buy);
    OneMark(Portfolio.Apply(Empty(100.0), buy), 0, 1.0);
  }

  lemma OtherUsesNothing(s: Snapshot)
    requires s.positions == map[0 := Position(0, "A", 10, 1.0, 1.0, 0.0, 0.0)]
    ensures UsedCapital(s, "B") == 0.0 && DailyPnl(s, "B") == 0.0
  {
    SumRemove(s.positions, UsedBy("B"), 0);
    SumRemove(s.positions, PnlOf("B"), 0);
    assert s.positions - {0} == map[];
  }

  lemma BPasses(c: Call)
    requires c == Call(false, false, true, 0, OrderRequest(0, BUY, MARKET, 1, 0.0, "B"),
                       RiskLimits(100.0, 100.0, 5.0, 100.0), c.portfolio, map[0 := 1.0])
    requires c.portfolio.positions == map[0 := Position(0, "A", 10, 1.0, 1.0, 0.0, 0.0)]
    requires UsedCapital(c.portfolio, "B") == 0.0 && DailyPnl(c.portfolio, "B") == 0.0
    ensures Decision(map[], c) == PASS
  {
    hide UsedCapital, DailyPnl;
  }

  /** Without a last price none of the size limits applies: the quantity does not matter. */
  lemma UnpricedOrdersAreUnlimited(ls: Limiters, c: Call, quantity: int)
    requires Price(c.prices, c.req.token) <= 0.0
    ensures Decision(ls, c) == Decision(ls, c.(req := c.req.(quantity := quantity)))
  {
  }

  /** A priced order passes exactly when every check does. */
  lemma PassMeansEveryCheck(ls: Limiters, c: Call)
    requires Price(c.prices, c.req.token) > 0.0
    ensures var ltp, sid := Price(c.prices, c.req.token), c.req.strategy;
      Decision(ls, c) == PASS <==>
        && ReachesLimiter(c)
        && (sid in ls ==> Grants(ls[sid], c.now))
        && c.req.quantity as real * ltp <= c.limits.maxSingleOrderValue
        && Abs(NewQuantity(c.req, c.portfolio)) as real * ltp <= c.limits.maxPositionValue
        && UsedCapital(c.portfolio, sid) + c.req.quantity as real * ltp <= c.limits.maxCapitalAllocation
        && (c.req.orderType.LIMIT? && c.req.limitPrice > 0.0 ==>
              ltp - 0.05 * ltp <= c.req.limitPrice <= ltp + 0.05 * ltp)
        && DailyPnl(c.portfolio, sid) >= -c.limits.maxDailyLoss
  {
    var ltp := Price(c.prices, c.req.token);
    Deviation(c.req.limitPrice, ltp, 0.05);
  }

  /** The rejections in the order in which the gate looks for them. */
  const REJECTIONS: seq<RiskDecision> := [
    REJECT_KILL_SWITCH, REJECT_MARKET_CLOSED, REJECT_RATE_LIMIT, REJECT_POSITION_LIMIT, REJECT_CAPITAL,
    REJECT_PRICE_SANITY, REJECT_DAILY_LOSS]

  /** What is wrong with a call, taken by itself. The size limits and the price band ask for a last price, the
      daily loss does not. */
  ghost predicate Wrong(d: RiskDecision, ls: Limiters, c: Call) {
    var req, lim, sid := c.req, c.limits, c.req.strategy;
    var priced := req.token in c.prices && c.prices[req.token] > 0.0;
    var ltp := if priced then c.prices[req.token] else 0.0;
    var held := if req.token in c.portfolio.positions then c.portfolio.positions[req.token].quantity else 0;
    match d
    case PASS => false
    case REJECT_KILL_SWITCH => c.killed || c.halted
    case REJECT_MARKET_CLOSED => !c.marketOpen
    case REJECT_RATE_LIMIT => sid in ls && !Grants(ls[sid], c.now)
    case REJECT_POSITION_LIMIT =>
      priced
      && (req.quantity as real * ltp > lim.maxSingleOrderValue
          || Abs(if req.side.BUY? then held + req.quantity else held - req.quantity) as real * ltp
             > lim.maxPositionValue)
    case REJECT_CAPITAL =>
      priced && UsedCapital(c.portfolio, sid) + req.quantity as real * ltp > lim.maxCapitalAllocation
    case REJECT_PRICE_SANITY =>
      priced && req.orderType == LIMIT && req.limitPrice > 0.0
      && !(ltp - 0.05 * ltp <= req.limitPrice <= ltp + 0.05 * ltp)
    case REJECT_DAILY_LOSS => DailyPnl(c.portfolio, sid) < -lim.maxDailyLoss
  }

  /** Every answer of the gate, for every call: an order passes exactly when nothing is wrong with it, and is
      rejected for the first thing that is. */
  lemma DecisionIsFirstWrong(ls: Limiters, c: Call)
    ensures Decision(ls, c) == PASS <==> forall i :: 0 <= i < |REJECTIONS| ==> !Wrong(REJECTIONS[i], ls, c)
    ensures forall i :: 0 <= i < |REJECTIONS| ==>
      (Decision(ls, c) == REJECTIONS[i] <==>
       Wrong(REJECTIONS[i], ls, c) && forall j :: 0 <= j < i ==> !Wrong(REJECTIONS[j], ls, c))
  {
    hide UsedCapital, DailyPnl, Grants;
    var ltp := Price(c.prices, c.req.token);
    if ltp > 0.0 {
      Deviation(c.req.limitPrice, ltp, 0.05);
    }
    FirstOf(Decision(ls, c), ls, c);
  }

  lemma FirstOf(d: RiskDecision, ls: Limiters, c: Call)
    requires d != PASS ==> Wrong(d, ls, c)
    requires forall x: RiskDecision :: Wrong(x, ls, c) ==> d != PASS && Rank(d) <= Rank(x)
    ensures d == PASS <==> forall i :: 0 <= i < |REJECTIONS| ==> !Wrong(REJECTIONS[i], ls, c)
    ensures forall i :: 0 <= i < |REJECTIONS| ==>
      (d == REJECTIONS[i] <==>
       Wrong(REJECTIONS[i], ls, c) && forall j :: 0 <= j < i ==> !Wrong(REJECTIONS[j], ls, c))
  {
    hide Wrong;
    RankIsIndex();
  }

  function Rank(d: RiskDecision): nat {
    match d
    case REJECT_KILL_SWITCH => 0
    case REJECT_MARKET_CLOSED => 1
    case REJECT_RATE_LIMIT => 2
    case REJECT_POSITION_LIMIT => 3
    case REJECT_CAPITAL => 4
    case REJECT_PRICE_SANITY => 5
    case REJECT_DAILY_LOSS => 6
    case PASS => 7
  }

  lemma RankIsIndex()
    ensures forall i :: 0 <= i < |REJECTIONS| ==> REJECTIONS[i] != PASS && Rank(REJECTIONS[i]) == i
    ensures forall d: RiskDecision :: d != PASS ==> Rank(d) < |REJECTIONS| && REJECTIONS[Rank(d)] == d
  {
  }

  /** Without a last price an order passes exactly when the switches, the market, the rate and the daily loss
      allow it, and is rejected for the loss exactly when only that does not. */
  lemma UnpricedDecision(ls: Limiters, c: Call)
    requires c.req.token in c.prices ==> c.prices[c.req.token] <= 0.0
    ensures var free := !c.killed && !c.halted && c.marketOpen
        && (c.req.strategy in ls ==> Grants(ls[c.req.strategy], c.now));
      var loss := DailyPnl(c.portfolio, c.req.strategy) < -c.limits.maxDailyLoss;
      (Decision(ls, c) == PASS <==> free && !loss) && (Decision(ls, c) == REJECT_DAILY_LOSS <==> free && loss)
  {
  }

  /** A call takes exactly one token decision from the limiter of its strategy if it gets that far, whatever
      the answer is, and touches no other limiter. */
  lemma CallAsksOnce(ls: Limiters, c: Call, sid: string)
    ensures sid in LimitersAfter(ls, c) <==> sid in ls
    ensures sid in ls ==>
      LimitersAfter(ls, c)[sid] ==
      TokenBucket.Run(ls[sid], if sid == c.req.strategy && !c.killed && !c.halted && c.marketOpen then [c.now] else [])
  {
    var one, none := [c.now], [];
    assert one[..0] == none && TokenBucket.Run(if sid in ls then ls[sid] else New(0, 0, 0), none)
      == if sid in ls then ls[sid] else New(0, 0, 0);
  }

  function Size(): Position -> real { (p: Position) => Abs(p.quantity) as real * p.currentPrice }

  function OthersSize(sid: string): Position -> real {
    (p: Position) => if p.strategy == sid then 0.0 else Abs(p.quantity) as real * p.currentPrice
  }

  function OthersPnl(sid: string): Position -> real {
    (p: Position) => if p.strategy == sid then 0.0 else p.realizedPnl + p.unrealizedPnl
  }

  /** A strategy's capital and profit are its share of the whole: with those of all the others they add up to
      the market size of all positions, and to the total realised and unrealised profit. */
  lemma StrategiesShareTheWhole(capital: real, es: seq<MarketEvent>, sid: string)
    ensures var s := MarketRun(capital, es);
      && UsedCapital(s, sid) + Sum(s.positions, OthersSize(sid)) == Sum(s.positions, Size())
      && DailyPnl(s, sid) + Sum(s.positions, OthersPnl(sid)) == s.totalRealized + s.totalUnrealized
  {
    hide MarketRun;
    MarketTotals(capital, es);
    var s := MarketRun(capital, es);
    SumAdd(s.positions, UsedBy(sid), OthersSize(sid), Size());
    var pnl := (p: Position) => p.realizedPnl + p.unrealizedPnl;
    SumAdd(s.positions, PnlOf(sid), OthersPnl(sid), pnl);
    SumAdd(s.positions, Realized, Unrealized, pnl);
  }

  /** What a rejection tells the caller about the order. */
  lemma RejectionNamesItsCause(ls: Limiters, c: Call)
    ensures var d, sid, ltp := Decision(ls, c), c.req.strategy, Price(c.prices, c.req.token);
      var value := c.req.quantity as real * ltp;
      && (d.REJECT_KILL_SWITCH? <==> c.killed || c.halted)
      && (d.REJECT_MARKET_CLOSED? <==> !c.killed && !c.halted && !c.marketOpen)
      && (d.REJECT_RATE_LIMIT? <==> ReachesLimiter(c) && sid in ls && !Grants(ls[sid], c.now))
      && (d.REJECT_POSITION_LIMIT? ==>
            value > c.limits.maxSingleOrderValue
            || Abs(NewQuantity(c.req, c.portfolio)) as real * ltp > c.limits.maxPositionValue)
      && (d.REJECT_CAPITAL? ==> UsedCapital(c.portfolio, sid) + value > c.limits.maxCapitalAllocation)
      && (d.REJECT_PRICE_SANITY? ==>
            ltp > 0.0 && !(ltp - 0.05 * ltp <= c.req.limitPrice <= ltp + 0.05 * ltp))
      && (d.REJECT_DAILY_LOSS? ==> DailyPnl(c.portfolio, sid) < -c.limits.maxDailyLoss)
  {
    var ltp := Price(c.prices, c.req.token);
    if ltp > 0.0 {
      Deviation(c.req.limitPrice, ltp, 0.05);
    }
  }

  // ------------------------------------------------------------------------- rate of passed orders

  function LimitersRun(ls: Limiters, calls: seq<Call>): Limiters {
    if calls == [] then ls else LimitersAfter(LimitersRun(ls, calls[..|calls| - 1]), calls[|calls| - 1])
  }

  /** How many orders of the strategy pass. */
  ghost function Passes(ls: Limiters, calls: seq<Call>, sid: string): nat {
    if calls == [] then 0
    else
      var init, c := calls[..|calls| - 1], calls[|calls| - 1];
      Passes(ls, init, sid)
      + (if c.req.strategy == sid && Decision(LimitersRun(ls, init), c) == PASS then 1 else 0)
  }

  /** The times at which the strategy's limiter is asked. */
  function Asked(calls: seq<Call>, sid: string): seq<int> {
    if calls == [] then []
    else
      var init, c := calls[..|calls| - 1], calls[|calls| - 1];
      if c.req.strategy == sid && ReachesLimiter(c) then Asked(init, sid) + [c.now] else Asked(init, sid)
  }

  predicate Within(calls: seq<Call>, from: int, to: int) {
    calls != [] ==>
      && Within(calls[..|calls| - 1], from, calls[|calls| - 1].now)
      && from <= calls[|calls| - 1].now <= to
  }

  lemma {:induction false} AskedWithin(calls: seq<Call>, sid: string, from: int, to: int)
    requires Within(calls, from, to) && from <= to
    ensures Monotone(from, Asked(calls, sid))
    ensures from <= Latest(from, Asked(calls, sid)) <= to
    ensures Asked(calls, sid) != [] ==> from <= Asked(calls, sid)[0]
    decreases |calls|
  {
    if calls != [] {
      var init, c := calls[..|calls| - 1], calls[|calls| - 1];
      AskedWithin(init, sid, from, c.now);
      var ts := Asked(init, sid) + [c.now];
      assert ts[..|ts| - 1] == Asked(init, sid);
    }
  }

  lemma {:induction false} PassesAreGranted(ls: Limiters, calls: seq<Call>, sid: string)
    requires sid in ls
    ensures sid in LimitersRun(ls, calls)
    ensures LimitersRun(ls, calls)[sid] == TokenBucket.Run(ls[sid], Asked(calls, sid))
    ensures Passes(ls, calls, sid) <= Count(Answers(ls[sid], Asked(calls, sid)))
    decreases |calls|
  {
    hide LimitChecks, Consume, Grants, DailyPnl, UsedCapital;
    if calls != [] {
      var init, c := calls[..|calls| - 1], calls[|calls| - 1];
      PassesAreGranted(ls, init, sid);
      var asked := Asked(init, sid);
      if c.req.strategy == sid && ReachesLimiter(c) {
        var ts := asked + [c.now];
        assert ts[..|ts| - 1] == asked;
        CountAppend(Answers(ls[sid], asked), Grants(TokenBucket.Run(ls[sid], asked), c.now));
      }
    }
  }

  /** The rate bound reaches through the gate: whatever calls came before, and whatever other
      strategies do, the orders of a strategy that pass within a span of time number at most its
      burst plus its rate times that span. */
  lemma PassRate(ls: Limiters, before: seq<Call>, window: seq<Call>, sid: string, start: int, from: int, to: int)
    requires sid in ls && Sound(ls[sid]) && ls[sid].last <= start <= from <= to
    requires Within(before, start, from) && Within(window, from, to)
    ensures Passes(LimitersRun(ls, before), window, sid) as real
      <= ls[sid].burst as real + Inflow(ls[sid].rate, from, to)
  {
    hide LimitChecks, Consume, Grants, Answers, Count;
    var b := ls[sid];
    var mid := LimitersRun(ls, before);
    PassesAreGranted(ls, before, sid);
    PassesAreGranted(mid, window, sid);
    var asked, ts := Asked(before, sid), Asked(window, sid);
    AskedWithin(before, sid, start, from);
    AskedWithin(window, sid, from, to);
    MonotoneEarlier(start, b.last, asked);
    InflowNonNegative(b.rate, from, to);
    if ts != [] {
      MonotoneEarlier(from, Latest(b.last, asked), ts);
      WindowBound(b, asked, ts);
      InflowAdds(b.rate, from, ts[0], to);
      InflowAdds(b.rate, ts[0], ts[|ts| - 1], to);
      InflowNonNegative(b.rate, from, ts[0]);
      InflowNonNegative(b.rate, ts[|ts| - 1], to);
    } else {
      NoCalls(mid[sid]);
    }
  }

  lemma NoCalls(b: Bucket)
    ensures Count(Answers(b, [])) == 0
  {
  }

  lemma {:induction false} MonotoneEarlier(last: int, earlier: int, ts: seq<int>)
    requires Monotone(last, ts) && earlier <= last
    ensures Monotone(earlier, ts)
    decreases |ts|
  {
    if ts != [] {
      MonotoneEarlier(last, earlier, ts[..|ts| - 1]);
    }
  }

  // ------------------------------------------------------------------------------------ the engine

  /** The strategy is first listed at `i`. */
  ghost predicate FirstAt(strategies: seq<(string, int)>, sid: string, i: nat) {
    i < |strategies| && strategies[i].0 == sid && forall j :: 0 <= j < i ==> strategies[j].0 != sid
  }

  class PreTradeRiskEngine {
    var globalKill: bool
    var halted: set<string>
    var limiters: map<string, TokenBucketLimiter>
    var priceCache: map<nat, real>

    ghost predicate Valid()
      reads this
    {
      forall a, b :: a in limiters && b in limiters && a != b ==> limiters[a] != limiters[b]
    }

    ghost function Buckets(): Limiters
      reads this, limiters.Values
    {
      map sid | sid in limiters :: limiters[sid].View()
    }

    constructor ()
      ensures Valid() && limiters == map[] && priceCache == map[] && halted == {} && !globalKill
    {
      globalKill, halted, limiters, priceCache := false, {}, map[], map[];
    }

    /** One limiter per strategy, with the rate it is first listed with; an id configured before keeps
        its limiter. */
    method Configure(strategies: seq<(string, int)>, now: int)
      requires Valid()
      modifies this`limiters
      ensures Valid()
      ensures forall sid :: sid in old(limiters) ==> sid in limiters && limiters[sid] == old(limiters[sid])
      ensures forall sid :: sid in limiters <==> sid in old(limiters) || exists i: nat :: FirstAt(strategies, sid, i)
      ensures forall sid :: sid in limiters && sid !in old(limiters) ==>
        && fresh(limiters[sid])
        && exists i: nat :: FirstAt(strategies, sid, i) && limiters[sid].View() == New(strategies[i].1, -1, now)
    {
      for i := 0 to |strategies|
        invariant Valid()
        invariant forall sid :: sid in old(limiters) ==> sid in limiters && limiters[sid] == old(limiters[sid])
        invariant forall sid :: sid in limiters ==>
          sid in old(limiters) || exists j: nat :: j < i && FirstAt(strategies, sid, j)
        invariant forall j :: 0 <= j < i ==> strategies[j].0 in limiters
        invariant forall sid :: sid in limiters && sid !in old(limiters) ==>
          && fresh(limiters[sid])
          && exists j: nat ::
            j < i && FirstAt(strategies, sid, j) && limiters[sid].View() == New(strategies[j].1, -1, now)
      {
        var (id, rate) := strategies[i];
        if id !in limiters {
          var l := new TokenBucketLimiter(rate, -1, now);
          limiters := limiters[id := l];
          assert FirstAt(strategies, id, i);
        }
      }
    }

    method UpdatePrice(token: nat, price: real)
      modifies this`priceCache
      ensures priceCache == old(priceCache)[token := price]
    {
      priceCache := priceCache[token := price];
    }

    /** The loop of `strategy_used_capital` over the positions of a snapshot. */
    static method StrategyUsedCapital(s: Snapshot, sid: string) returns (total: real)
      ensures total == UsedCapital(s, sid)
    {
      total := 0.0;
      var rest := s.positions;
      while rest != map[]
        invariant total + Sum(rest, UsedBy(sid)) == Sum(s.positions, UsedBy(sid))
        decreases |rest|
      {
        var k :| k in rest;
        SumRemove(rest, UsedBy(sid), k);
        if rest[k].strategy == sid {
          total := total + rest[k].Value();
        }
        rest := rest - {k};
      }
    }

    static method StrategyDailyPnl(s: Snapshot, sid: string) returns (total: real)
      ensures total == DailyPnl(s, sid)
    {
      total := 0.0;
      var rest := s.positions;
      while rest != map[]
        invariant total + Sum(rest, PnlOf(sid)) == Sum(s.positions, PnlOf(sid))
        decreases |rest|
      {
        var k :| k in rest;
        SumRemove(rest, PnlOf(sid), k);
        if rest[k].strategy == sid {
          total := total + rest[k].realizedPnl + rest[k].unrealizedPnl;
        }
        rest := rest - {k};
      }
    }

    method Check(req: OrderRequest, lim: RiskLimits, portfolio: Snapshot, now: int, marketOpen: bool)
      returns (d: RiskDecision)
      requires Valid()
      modifies limiters.Values
      ensures Valid()
      ensures var c := Call(globalKill, req.strategy in halted, marketOpen, now, req, lim, portfolio, priceCache);
        && d == Decision(old(Buckets()), c)
        && Buckets() == LimitersAfter(old(Buckets()), c)
    {
      var sid := req.strategy;
      if globalKill {
        return REJECT_KILL_SWITCH;
      }
      if sid in halted {
        return REJECT_KILL_SWITCH;
      }
      if !marketOpen {
        return REJECT_MARKET_CLOSED;
      }
      if sid in limiters {
        assert old(Buckets())[sid] == limiters[sid].View();
        var ok := limiters[sid].TryConsume(now);
        assert Buckets() == old(Buckets())[sid := limiters[sid].View()];
        if !ok {
          return REJECT_RATE_LIMIT;
        }
      }
      var ltp := if req.token in priceCache then priceCache[req.token] else 0.0;
      var used := StrategyUsedCapital(portfolio, sid);
      var pnl := StrategyDailyPnl(portfolio, sid);
      d := CheckLimits(req, lim, portfolio, ltp, used, pnl);
    }

    static method CheckLimits(req: OrderRequest, lim: RiskLimits, portfolio: Snapshot, ltp: real, used: real, pnl: real)
      returns (d: RiskDecision)
      ensures d == LimitChecks(req, lim, portfolio, ltp, used, pnl)
    {
      if ltp > 0.0 {
        var orderValue := req.quantity as real * ltp;
        if orderValue > lim.maxSingleOrderValue {
          return REJECT_POSITION_LIMIT;
        }
        var delta := if req.side.BUY? then req.quantity else -req.quantity;
        var newQty := portfolio.GetPosition(req.token).quantity + delta;
        var newValue := Abs(newQty) as real * ltp;
        if newValue > lim.maxPositionValue {
          return REJECT_POSITION_LIMIT;
        }
        var needed := req.quantity as real * ltp;
        if used + needed > lim.maxCapitalAllocation {
          return REJECT_CAPITAL;
        }
        if req.orderType.LIMIT? && req.limitPrice > 0.0 {
          var deviation := AbsReal(req.limitPrice - ltp) / ltp;
          if deviation > 0.05 {
            return REJECT_PRICE_SANITY;
          }
        }
      }
      if pnl < -lim.maxDailyLoss {
        return REJECT_DAILY_LOSS;
      }
      return PASS;
    }
  }
}
