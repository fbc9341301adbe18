/** Closing a session's positions: plan the orders from the wallet, place them
    one by one, apply the fills, and check that the targets are flat. */
module StopAndClose {
  import opened Prelude
  import opened Quantize

  datatype Market = Spot | Perpetual | Delivery

  /** One wallet of the portfolio. */
  datatype Route = Route(exchange: string, market: Market, venue: int)

  datatype Target = Target(exchange: string, market: Market, symbol: string)

  /** A futures position (one-way mode) or a spot asset, symbols in upper case. */
  datatype Holding =
    | Position(route: Route, symbol: string, qty: real, mark: real, entry: real, metadata: Option<Metadata>)
    | Asset(route: Route, symbol: string, qty: real, locked: real, price: real, avgEntry: real)

  datatype OpenOrder = OpenOrder(route: Route, symbol: string)

  datatype Side = Buy | Sell

  datatype StopOrder = StopOrder(route: Route, symbol: string, portfolioSymbol: string,
                                 side: Side, qty: real, markPrice: real)

  // ----- targets -----

  predicate Allowed(targets: set<Target>, route: Route, symbol: string) {
    symbol != "" && Target(route.exchange, route.market, symbol) in targets
  }

  /** A spot asset is a target under its own name or as a USDT pair. */
  predicate AssetAllowed(targets: set<Target>, route: Route, symbol: string) {
    symbol != "" && (Allowed(targets, route, symbol) || Allowed(targets, route, symbol + "USDT"))
  }

  predicate IsTarget(targets: set<Target>, h: Holding) {
    match h
    case Position(route, symbol, _, _, _, _) => Allowed(targets, route, symbol)
    case Asset(route, symbol, _, _, _, _) => symbol != "USDT" && AssetAllowed(targets, route, symbol)
  }

  predicate SameKey(a: Holding, b: Holding) {
    a.route == b.route && a.symbol == b.symbol
  }

  /** Futures positions sit in futures wallets, assets in spot wallets, and no
      wallet holds a symbol twice. */
  ghost predicate WellFormed(holdings: seq<Holding>) {
    && (forall i :: 0 <= i < |holdings| ==> (holdings[i].Asset? <==> holdings[i].route.market == Spot))
    && (forall i, j :: 0 <= i < j < |holdings| ==> !SameKey(holdings[i], holdings[j]))
  }

  // ----- the plan -----

  datatype Planned = Skip | Place(order: StopOrder) | Refuse(reason: string)

  function FirstNonZero(a: real, b: real): real {
    if a != 0.0 then a else b
  }

  /** What one holding adds to the plan. A position without a symbol refuses the
      whole plan before its target is looked at. */
  function PlanStep(targets: set<Target>, backtest: bool, h: Holding): Planned {
    match h
    case Position(route, symbol, qty, mark, entry, metadata) =>
      if Abs(qty) <= EPS then Skip
      else if symbol == "" then Refuse("invalid_futures_symbol")
      else if !Allowed(targets, route, symbol) then Skip
      else
        var q := Quantized(qty, metadata);
        if q <= EPS then Refuse("futures_qty_below_step_size")
        else Place(StopOrder(route, symbol, symbol, if qty > 0.0 then Sell else Buy, q, FirstNonZero(mark, entry)))
    case Asset(route, symbol, qty, locked, price, avgEntry) =>
      if symbol == "USDT" || !AssetAllowed(targets, route, symbol) then Skip
      else if qty - locked <= EPS then Skip
      else if !backtest then Refuse("spot_liquidation_not_supported")
      else
        var mark := FirstNonZero(price, avgEntry);
        if mark <= 0.0 then Refuse("missing_spot_mark_price")
        else Place(StopOrder(route, symbol + "USDT", symbol, Sell, qty - locked, mark))
  }

  predicate OpenTargetOrder(targets: set<Target>, openOrders: seq<OpenOrder>) {
    exists i :: 0 <= i < |openOrders| && Allowed(targets, openOrders[i].route, openOrders[i].symbol)
  }

  /** The plan is refused: an open order on a target, or a holding that cannot
      be closed. */
  predicate PlanRefused(targets: set<Target>, backtest: bool, holdings: seq<Holding>, openOrders: seq<OpenOrder>) {
    || OpenTargetOrder(targets, openOrders)
    || exists i :: 0 <= i < |holdings| && PlanStep(targets, backtest, holdings[i]).Refuse?
  }

  function Orders(targets: set<Target>, backtest: bool, holdings: seq<Holding>): seq<StopOrder> {
    if holdings == [] then []
    else
      var n := |holdings| - 1;
      var step := PlanStep(targets, backtest, holdings[n]);
      Orders(targets, backtest, holdings[..n]) + (if step.Place? then [step.order] else [])
  }

  /** One holding in plain terms: when it refuses the whole plan, when it is placed,
      and what exactly is ordered then. */
  lemma StepInPlainTerms(targets: set<Target>, backtest: bool, h: Holding)
    ensures PlanStep(targets, backtest, h).Refuse? <==>
              match h
              case Position(route, symbol, qty, _, _, metadata) =>
                && Abs(qty) > 0.000000000001
                && (symbol == ""
                    || (Target(route.exchange, route.market, symbol) in targets
                        && Quantized(qty, metadata) <= 0.000000000001))
              case Asset(route, symbol, qty, locked, price, avgEntry) =>
                && symbol != "USDT" && symbol != "" && qty - locked > 0.000000000001
                && (Target(route.exchange, route.market, symbol) in targets
                    || Target(route.exchange, route.market, symbol + "USDT") in targets)
                && (!backtest || (if price != 0.0 then price else avgEntry) <= 0.0)
    ensures PlanStep(targets, backtest, h).Place? <==>
              match h
              case Position(route, symbol, qty, _, _, metadata) =>
                && Abs(qty) > 0.000000000001 && symbol != ""
                && Target(route.exchange, route.market, symbol) in targets
                && Quantized(qty, metadata) > 0.000000000001
              case Asset(route, symbol, qty, locked, price, avgEntry) =>
                && symbol != "USDT" && symbol != "" && qty - locked > 0.000000000001
                && (Target(route.exchange, route.market, symbol) in targets
                    || Target(route.exchange, route.market, symbol + "USDT") in targets)
                && backtest && (if price != 0.0 then price else avgEntry) > 0.0
    ensures PlanStep(targets, backtest, h).Place? ==>
              var o := PlanStep(targets, backtest, h).order;
              && o.route == h.route && o.portfolioSymbol == h.symbol
              && match h
                 case Position(_, symbol, qty, mark, entry, metadata) =>
                   && o.symbol == symbol && o.side == (if qty > 0.0 then Sell else Buy)
                   && o.qty == Quantized(qty, metadata) && o.markPrice == (if mark != 0.0 then mark else entry)
                 case Asset(_, symbol, qty, locked, price, avgEntry) =>
                   && o.symbol == symbol + "USDT" && o.side == Sell && o.qty == qty - locked
                   && o.markPrice == (if price != 0.0 then price else avgEntry)
  {
    hide Quantized;
  }

  /** When a close is refused, in plain terms: an open order on a target, or a
      holding that cannot be closed. */
  lemma RefusedInPlainTerms(targets: set<Target>, backtest: bool, holdings: seq<Holding>, openOrders: seq<OpenOrder>)
    ensures PlanRefused(targets, backtest, holdings, openOrders) <==>
              || (exists i :: 0 <= i < |openOrders| && openOrders[i].symbol != "" &&
                    Target(openOrders[i].route.exchange, openOrders[i].route.market, openOrders[i].symbol) in targets)
              || (exists i :: 0 <= i < |holdings| &&
                    match holdings[i]
                    case Position(route, symbol, qty, _, _, metadata) =>
                      && Abs(qty) > 0.000000000001
                      && (symbol == ""
                          || (Target(route.exchange, route.market, symbol) in targets
                              && Quantized(qty, metadata) <= 0.000000000001))
                    case Asset(route, symbol, qty, locked, price, avgEntry) =>
                      && symbol != "USDT" && symbol != "" && qty - locked > 0.000000000001
                      && (Target(route.exchange, route.market, symbol) in targets
                          || Target(route.exchange, route.market, symbol + "USDT") in targets)
                      && (!backtest || (if price != 0.0 then price else avgEntry) <= 0.0))
  {
    hide Quantized;
    forall i | 0 <= i < |holdings|
      ensures PlanStep(targets, backtest, holdings[i]).Refuse? <==>
                match holdings[i]
                case Position(route, symbol, qty, _, _, metadata) =>
                  && Abs(qty) > 0.000000000001
                  && (symbol == ""
                      || (Target(route.exchange, route.market, symbol) in targets
                          && Quantized(qty, metadata) <= 0.000000000001))
                case Asset(route, symbol, qty, locked, price, avgEntry) =>
                  && symbol != "USDT" && symbol != "" && qty - locked > 0.000000000001
                  && (Target(route.exchange, route.market, symbol) in targets
                      || Target(route.exchange, route.market, symbol + "USDT") in targets)
                  && (!backtest || (if price != 0.0 then price else avgEntry) <= 0.0)
    {
      StepInPlainTerms(targets, backtest, holdings[i]);
    }
    hide PlanStep;
  }

  datatype Plan = Plan(orders: seq<StopOrder>) | Refused(reason: string)

  method BuildStopAndCloseOrders(targets: set<Target>, backtest: bool, holdings: seq<Holding>,
                                 openOrders: seq<OpenOrder>)
    returns (plan: Plan)
    ensures plan.Refused? <==> PlanRefused(targets, backtest, holdings, openOrders)
    ensures plan.Refused? <==>
              || (exists i :: 0 <= i < |openOrders| && openOrders[i].symbol != "" &&
                    Target(openOrders[i].route.exchange, openOrders[i].route.market, openOrders[i].symbol) in targets)
              || (exists i :: 0 <= i < |holdings| &&
                    match holdings[i]
                    case Position(route, symbol, qty, _, _, metadata) =>
                      && Abs(qty) > 0.000000000001
                      && (symbol == ""
                          || (Target(route.exchange, route.market, symbol) in targets
                              && Quantized(qty, metadata) <= 0.000000000001))
                    case Asset(route, symbol, qty, locked, price, avgEntry) =>
                      && symbol != "USDT" && symbol != "" && qty - locked > 0.000000000001
                      && (Target(route.exchange, route.market, symbol) in targets
                          || Target(route.exchange, route.market, symbol + "USDT") in targets)
                      && (!backtest || (if price != 0.0 then price else avgEntry) <= 0.0))
    ensures plan.Plan? ==> plan.orders == Orders(targets, backtest, holdings)
  {
    RefusedInPlainTerms(targets, backtest, holdings, openOrders);
    hide PlanStep, Allowed;
    var open := 0;
    for i := 0 to |openOrders|
      invariant open > 0 <==> exists k :: 0 <= k < i && Allowed(targets, openOrders[k].route, openOrders[k].symbol)
      invariant open >= 0
    {
      if Allowed(targets, openOrders[i].route, openOrders[i].symbol) {
        open := open + 1;
      }
    }
    if open > 0 {
      return Refused("open_orders_present");
    }
    var orders := [];
    for i := 0 to |holdings|
      invariant orders == Orders(targets, backtest, holdings[..i])
      invariant forall k :: 0 <= k < i ==> !PlanStep(targets, backtest, holdings[k]).Refuse?
    {
      assert holdings[..i + 1][..i] == holdings[..i];
      var step := PlanStep(targets, backtest, holdings[i]);
      match step
      case Skip =>
      case Place(order) => orders := orders + [order];
      case Refuse(reason) => return Refused(reason);
    }
    assert holdings[..|holdings|] == holdings;
    plan := Plan(orders);
  }

  // ----- fills -----

  predicate Matches(o: StopOrder, h: Holding) { h.route == o.route && h.symbol == o.portfolioSymbol }

  /** A fill moves the signed quantity of the holding it names, nothing else. */
  function FilledHolding(h: Holding, o: StopOrder): Holding {
    if !Matches(o, h) then h
    else if o.side == Sell then h.(qty := h.qty - o.qty)
    else h.(qty := h.qty + o.qty)
  }

  function Fill(holdings: seq<Holding>, o: StopOrder): (after: seq<Holding>)
    ensures |after| == |holdings|
    ensures forall i :: 0 <= i < |holdings| ==> after[i] == FilledHolding(holdings[i], o)
  {
    seq(|holdings|, i requires 0 <= i < |holdings| => FilledHolding(holdings[i], o))
  }

  /** A fill in plain terms: it moves the one holding of its route and symbol, down
      for a sale and up for a purchase. */
  lemma FillInPlainTerms(holdings: seq<Holding>, o: StopOrder, i: nat)
    requires i < |holdings|
    ensures Fill(holdings, o)[i] ==
              if holdings[i].route == o.route && holdings[i].symbol == o.portfolioSymbol
              then holdings[i].(qty := if o.side == Sell then holdings[i].qty - o.qty else holdings[i].qty + o.qty)
              else holdings[i]
    ensures FillAll(holdings, []) == holdings && FillAll(holdings, [o]) == Fill(holdings, o)
  {
    assert [o][..0] == [];
  }

  function FillAll(holdings: seq<Holding>, orders: seq<StopOrder>): (after: seq<Holding>)
    ensures |after| == |holdings|
  {
    if orders == [] then holdings
    else Fill(FillAll(holdings, orders[..|orders| - 1]), orders[|orders| - 1])
  }

  /** Where a holding ends when its planned order is filled exactly. */
  function Closed(targets: set<Target>, backtest: bool, h: Holding): Holding {
    var step := PlanStep(targets, backtest, h);
    if step.Place? then FilledHolding(h, step.order) else h
  }

  // ----- flatness -----

  predicate HoldingFlat(targets: set<Target>, h: Holding) {
    IsTarget(targets, h) ==>
      match h
      case Position(_, _, qty, _, _, _) => Abs(qty) <= EPS
      case Asset(_, _, qty, locked, _, _) => qty <= EPS && locked <= EPS
  }

  /** Flatness in plain terms. */
  lemma FlatInPlainTerms(targets: set<Target>, holdings: seq<Holding>)
    ensures (forall i :: 0 <= i < |holdings| ==> HoldingFlat(targets, holdings[i])) <==>
            (forall i :: 0 <= i < |holdings| ==>
               match holdings[i]
               case Position(route, symbol, qty, _, _, _) =>
                 symbol != "" && Target(route.exchange, route.market, symbol) in targets ==>
                   Abs(qty) <= 0.000000000001
               case Asset(route, symbol, qty, locked, _, _) =>
                 symbol != "" && symbol != "USDT"
                 && (Target(route.exchange, route.market, symbol) in targets
                     || Target(route.exchange, route.market, symbol + "USDT") in targets) ==>
                   qty <= 0.000000000001 && locked <= 0.000000000001)
  {
  }

  /** Goes through the holdings and open orders and stops at the first leftover. */
  method PortfolioIsFlat(targets: set<Target>, holdings: seq<Holding>, openOrders: seq<OpenOrder>) returns (flat: bool)
    ensures flat <==> !OpenTargetOrder(targets, openOrders) &&
                      forall i :: 0 <= i < |holdings| ==> HoldingFlat(targets, holdings[i])
    ensures flat <==>
              && (forall i :: 0 <= i < |openOrders| && openOrders[i].symbol != "" ==>
                    Target(openOrders[i].route.exchange, openOrders[i].route.market, openOrders[i].symbol) !in targets)
              && (forall i :: 0 <= i < |holdings| ==>
                    match holdings[i]
                    case Position(route, symbol, qty, _, _, _) =>
                      symbol != "" && Target(route.exchange, route.market, symbol) in targets ==>
                        Abs(qty) <= 0.000000000001
                    case Asset(route, symbol, qty, locked, _, _) =>
                      symbol != "" && symbol != "USDT"
                      && (Target(route.exchange, route.market, symbol) in targets
                          || Target(route.exchange, route.market, symbol + "USDT") in targets) ==>
                        qty <= 0.000000000001 && locked <= 0.000000000001)
  {
    FlatInPlainTerms(targets, holdings);
    for i := 0 to |holdings|
      invariant forall k :: 0 <= k < i ==> HoldingFlat(targets, holdings[k])
    {
      if !HoldingFlat(targets, holdings[i]) {
        return false;
      }
    }
    for i := 0 to |openOrders|
      invariant forall k :: 0 <= k < i ==> !Allowed(targets, openOrders[k].route, openOrders[k].symbol)
    {
      if Allowed(targets, openOrders[i].route, openOrders[i].symbol) {
        return false;
      }
    }
    flat := true;
  }

  /** What a caller can check beforehand: after ordering the quantized amount of
      this target, no more than the flatness limit would be left, and nothing of
      a spot asset is locked. */
  predicate ClosesFlat(targets: set<Target>, h: Holding) {
    IsTarget(targets, h) ==>
      match h
      case Position(_, _, qty, _, _, metadata) => Abs(qty) <= EPS || Abs(Abs(qty) - Quantized(qty, metadata)) <= EPS
      case Asset(_, _, qty, locked, _, _) => locked <= EPS && (qty - locked > EPS || qty <= EPS)
  }

  /** Closing flat in plain terms. */
  lemma ClosesFlatInPlainTerms(targets: set<Target>, h: Holding)
    ensures ClosesFlat(targets, h) <==>
              match h
              case Position(route, symbol, qty, _, _, metadata) =>
                symbol != "" && Target(route.exchange, route.market, symbol) in targets ==>
                  || Abs(qty) <= 0.000000000001
                  || Abs(Abs(qty) - Quantized(qty, metadata)) <= 0.000000000001
              case Asset(route, symbol, qty, locked, _, _) =>
                symbol != "" && symbol != "USDT"
                && (Target(route.exchange, route.market, symbol) in targets
                    || Target(route.exchange, route.market, symbol + "USDT") in targets) ==>
                  locked <= 0.000000000001 && (qty - locked > 0.000000000001 || qty <= 0.000000000001)
  {
    hide Quantized;
  }

  /** A holding that is not refused ends flat exactly when it closes flat. */
  lemma ClosedFlatIff(targets: set<Target>, backtest: bool, h: Holding)
    requires !PlanStep(targets, backtest, h).Refuse?
    requires h.Asset? <==> h.route.market == Spot
    ensures HoldingFlat(targets, Closed(targets, backtest, h)) <==> ClosesFlat(targets, h)
  {
    hide Quantized;
  }

  /** Every order is for an allowed target, against its position, and leaves
      less than before, less than one step where a step is set, and of a spot
      asset just what is locked; a holding that is no target keeps everything. */
  lemma OrderReducesTarget(targets: set<Target>, backtest: bool, h: Holding)
    ensures var step := PlanStep(targets, backtest, h);
            && (step.Place? ==>
                  && IsTarget(targets, h) && Matches(step.order, h) && step.order.qty > EPS
                  && (h.Position? ==> (step.order.side == Sell <==> h.qty > 0.0))
                  && (h.Asset? ==> step.order.side == Sell && step.order.qty == h.qty - h.locked))
            && (h.Position? && step.Place? ==> Abs(Closed(targets, backtest, h).qty) < Abs(h.qty))
            && (h.Asset? && step.Place? ==> Closed(targets, backtest, h).qty == h.locked < h.qty)
            && (h.Position? && step.Place? && h.metadata.Some? && h.metadata.value.step > 0.0 ==>
                  Abs(Closed(targets, backtest, h).qty) < h.metadata.value.step)
            && (!IsTarget(targets, h) ==> Closed(targets, backtest, h) == h)
  {
    if h.Position? && h.metadata.Some? && h.metadata.value.step > 0.0 {
      QuantizedIsMultiple(h.qty, h.metadata.value);
    }
    if h.Position? && PlanStep(targets, backtest, h).Place? {
      QuantizedLeavesLess(h.qty, h.metadata);
    }
    hide Quantized;
  }

  // ----- filling the whole plan -----

  lemma OrderTouchesOne(targets: set<Target>, backtest: bool, holdings: seq<Holding>, i: nat, j: nat, o: StopOrder)
    requires WellFormed(holdings) && i < |holdings| && j < |holdings| && i != j
    requires PlanStep(targets, backtest, holdings[i]) == Place(o)
    ensures !Matches(o, holdings[j])
  {
    hide Quantized;
    assert !SameKey(holdings[i], holdings[j]) && !SameKey(holdings[j], holdings[i]);
  }

  /** The first `n` holdings are closed, the others as they were. */
  ghost predicate ClosedUpTo(targets: set<Target>, backtest: bool, holdings: seq<Holding>, n: nat, now: seq<Holding>) {
    && |now| == |holdings|
    && forall i :: 0 <= i < |holdings| ==>
         now[i] == if i < n then Closed(targets, backtest, holdings[i]) else holdings[i]
  }

  lemma OneMoreClosed(targets: set<Target>, backtest: bool, holdings: seq<Holding>, n: nat, now: seq<Holding>)
    requires WellFormed(holdings) && n < |holdings| && ClosedUpTo(targets, backtest, holdings, n, now)
    ensures var step := PlanStep(targets, backtest, holdings[n]);
            ClosedUpTo(targets, backtest, holdings, n + 1, if step.Place? then Fill(now, step.order) else now)
  {
    var step := PlanStep(targets, backtest, holdings[n]);
    if step.Place? {
      forall i | 0 <= i < |holdings|
        ensures FilledHolding(now[i], step.order)
                  == if i < n + 1 then Closed(targets, backtest, holdings[i]) else holdings[i]
      {
        hide PlanStep;
        if i != n {
          OrderTouchesOne(targets, backtest, holdings, n, i, step.order);
        }
      }
    }
  }

  lemma FillAllSnoc(holdings: seq<Holding>, orders: seq<StopOrder>, o: StopOrder)
    ensures FillAll(holdings, orders + [o]) == Fill(FillAll(holdings, orders), o)
    ensures FillAll(holdings, []) == holdings
  {
    assert (orders + [o])[..|orders|] == orders;
  }

  lemma OrdersSnoc(targets: set<Target>, backtest: bool, holdings: seq<Holding>, n: nat)
    requires n < |holdings|
    ensures var step := PlanStep(targets, backtest, holdings[n]);
            Orders(targets, backtest, holdings[..n + 1])
              == Orders(targets, backtest, holdings[..n]) + (if step.Place? then [step.order] else [])
  {
    assert holdings[..n + 1][..n] == holdings[..n];
  }

  /** The plan for the first holdings touches only those, each exactly as planned. */
  lemma {:induction false} PlanFilled(targets: set<Target>, backtest: bool, holdings: seq<Holding>, n: nat)
    requires WellFormed(holdings) && n <= |holdings|
    ensures ClosedUpTo(targets, backtest, holdings, n, FillAll(holdings, Orders(targets, backtest, holdings[..n])))
  {
    if n > 0 {
      hide PlanStep, ClosedUpTo, WellFormed, FillAll, Orders;
      PlanFilled(targets, backtest, holdings, n - 1);
      var before := Orders(targets, backtest, holdings[..n - 1]);
      var step := PlanStep(targets, backtest, holdings[n - 1]);
      OrdersSnoc(targets, backtest, holdings, n - 1);
      OneMoreClosed(targets, backtest, holdings, n - 1, FillAll(holdings, before));
      if step.Place? {
        FillAllSnoc(holdings, before, step.order);
      } else {
        assert before + [] == before;
      }
    }
  }

  /** Fills of the plan, of any quantity, never touch a holding that is no target. */
  lemma {:induction false} FillsKeepOthers(targets: set<Target>, backtest: bool, holdings: seq<Holding>,
                                           fills: seq<StopOrder>, i: nat)
    requires WellFormed(holdings) && i < |holdings| && !IsTarget(targets, holdings[i])
    requires forall k :: 0 <= k < |fills| ==> OfPlan(targets, backtest, holdings, fills[k])
    ensures FillAll(holdings, fills)[i] == holdings[i]
  {
    if fills != [] {
      var n := |fills| - 1;
      FillsKeepOthers(targets, backtest, holdings, fills[..n], i);
      var j: nat :| PlannedBy(targets, backtest, holdings, fills[n], j);
      var step := PlanStep(targets, backtest, holdings[j]);
      OrderReducesTarget(targets, backtest, holdings[j]);
      hide PlanStep;
      OrderTouchesOne(targets, backtest, holdings, j, i, step.order);
    }
  }

  /** The order belongs to holding `j`, whatever its quantity. */
  ghost predicate PlannedBy(targets: set<Target>, backtest: bool, holdings: seq<Holding>, o: StopOrder, j: nat) {
    && j < |holdings| && PlanStep(targets, backtest, holdings[j]).Place?
    && PlanStep(targets, backtest, holdings[j]).order == o.(qty := PlanStep(targets, backtest, holdings[j]).order.qty)
  }

  ghost predicate OfPlan(targets: set<Target>, backtest: bool, holdings: seq<Holding>, o: StopOrder) {
    exists j: nat :: PlannedBy(targets, backtest, holdings, o, j)
  }

  lemma {:induction false} OrdersArePlanned(targets: set<Target>, backtest: bool, holdings: seq<Holding>, n: nat)
    requires n <= |holdings|
    ensures forall k :: 0 <= k < |Orders(targets, backtest, holdings[..n])| ==>
              OfPlan(targets, backtest, holdings, Orders(targets, backtest, holdings[..n])[k])
  {
    if n > 0 {
      OrdersArePlanned(targets, backtest, holdings, n - 1);
      assert holdings[..n][..n - 1] == holdings[..n - 1];
      var step := PlanStep(targets, backtest, holdings[n - 1]);
      hide PlanStep;
      if step.Place? {
        assert PlannedBy(targets, backtest, holdings, step.order, n - 1);
      }
    }
  }

  // ----- the close -----

  /** What came back for an order: filled for some quantity, or not. */
  datatype Placement = FilledFor(qty: real) | NotFilled

  /** The surroundings of one close: whether its time is up before the j-th
      order, what the exchange answers, and whether the wallet sync then fails. */
  datatype World = World(late: nat -> bool, place: nat -> Placement, syncFails: nat -> bool)

  datatype Outcome = Success | Failure(reason: string) | Raises

  /** Every order is filled exactly, in time, and every sync goes through. */
  ghost predicate Ideal(w: World, orders: seq<StopOrder>) {
    forall j: nat :: j < |orders| ==> !w.late(j) && w.place(j) == FilledFor(orders[j].qty) && !w.syncFails(j)
  }

  /** The k-th order is placed in time and reported filled, for some quantity. */
  predicate GoesThrough(w: World, k: nat) { !w.late(k) && w.place(k).FilledFor? }

  /** Among the first `n` orders, the wallet sync fails after one that goes
      through, and nothing went wrong before it. */
  ghost predicate SyncBreaks(w: World, n: nat) {
    exists j: nat :: j < n && GoesThrough(w, j) && w.syncFails(j)
                     && forall k: nat :: k < j ==> GoesThrough(w, k) && !w.syncFails(k)
  }

  /** The first `n` orders all go through, and so do their syncs. */
  ghost predicate Smooth(w: World, n: nat) {
    forall k: nat :: k < n ==> GoesThrough(w, k) && !w.syncFails(k)
  }

  /** How placing orders can go, in plain terms. */
  lemma PlacingInPlainTerms(w: World, n: nat)
    ensures SyncBreaks(w, n) <==>
              exists j: nat :: j < n && !w.late(j) && w.place(j).FilledFor? && w.syncFails(j)
                               && forall k: nat :: k < j ==> !w.late(k) && w.place(k).FilledFor? && !w.syncFails(k)
    ensures Smooth(w, n) <==>
              forall k: nat :: k < n ==> !w.late(k) && w.place(k).FilledFor? && !w.syncFails(k)
  {
    assert forall k: nat :: GoesThrough(w, k) <==> !w.late(k) && w.place(k).FilledFor?;
    if j: nat :| j < n && !w.late(j) && w.place(j).FilledFor? && w.syncFails(j)
                 && forall k: nat :: k < j ==> !w.late(k) && w.place(k).FilledFor? && !w.syncFails(k) {
      assert GoesThrough(w, j) && forall k: nat :: k < j ==> GoesThrough(w, k) && !w.syncFails(k);
    }
  }

  class Portfolio {
    var holdings: seq<Holding>
    var openOrders: seq<OpenOrder>

    constructor (holdings: seq<Holding>, openOrders: seq<OpenOrder>)
      ensures this.holdings == holdings && this.openOrders == openOrders
    {
      this.holdings, this.openOrders := holdings, openOrders;
    }

    /** Plans, places and applies the closing orders. Whatever goes wrong, the
        fills applied are those of the first orders of the plan, so nothing but
        targets ever changes. It raises exactly if a sync breaks, and succeeds
        exactly if every order goes through and all targets are flat then. When
        every order is filled exactly, it succeeds if and only if the plan is not
        refused and every target closes flat. */
    method StopAndClosePortfolio(targets: set<Target>, backtest: bool, w: World)
      returns (r: Outcome, ghost fills: seq<StopOrder>)
      requires WellFormed(holdings)
      modifies this`holdings
      ensures holdings == FillAll(old(holdings), fills)
      ensures forall i :: 0 <= i < |old(holdings)| && !IsTarget(targets, old(holdings)[i]) ==>
                holdings[i] == old(holdings)[i]
      ensures var refused := PlanRefused(targets, backtest, old(holdings), openOrders);
              var orders := Orders(targets, backtest, old(holdings));
              && (refused ==> r.Failure? && fills == [])
              && (!refused ==>
                    && |fills| <= |orders|
                    && (forall j: nat :: j < |fills| ==>
                          w.place(j).FilledFor? && fills[j] == orders[j].(qty := w.place(j).qty))
                    && (r == Success ==> |fills| == |orders|))
              && (refused <==>
                    || (exists i :: 0 <= i < |openOrders| && openOrders[i].symbol != "" &&
                          Target(openOrders[i].route.exchange, openOrders[i].route.market, openOrders[i].symbol)
                            in targets)
                    || (exists i :: 0 <= i < |old(holdings)| &&
                          match old(holdings)[i]
                          case Position(route, symbol, qty, _, _, metadata) =>
                            && Abs(qty) > 0.000000000001
                            && (symbol == ""
                                || (Target(route.exchange, route.market, symbol) in targets
                                    && Quantized(qty, metadata) <= 0.000000000001))
                          case Asset(route, symbol, qty, locked, price, avgEntry) =>
                            && symbol != "USDT" && symbol != "" && qty - locked > 0.000000000001
                            && (Target(route.exchange, route.market, symbol) in targets
                                || Target(route.exchange, route.market, symbol + "USDT") in targets)
                            && (!backtest || (if price != 0.0 then price else avgEntry) <= 0.0)))
              && (r.Raises? <==> !refused && SyncBreaks(w, |orders|))
              && (r == Success <==>
                    !refused && Smooth(w, |orders|)
                    && forall i :: 0 <= i < |holdings| ==> HoldingFlat(targets, holdings[i]))
              && (Ideal(w, orders) ==>
                    && !r.Raises?
                    && (!refused ==> fills == orders)
                    && (r == Success <==>
                          !refused && forall i :: 0 <= i < |old(holdings)| ==> ClosesFlat(targets, old(holdings)[i])))
    {
      ghost var before := holdings;
      fills := [];
      RefusedInPlainTerms(targets, backtest, holdings, openOrders);
      var plan := BuildStopAndCloseOrders(targets, backtest, holdings, openOrders);
      if plan.Refused? {
        r := Failure(plan.reason);
        return;
      }
      assert before[..|before|] == before;
      OrdersArePlanned(targets, backtest, before, |before|);
      hide PlanStep, Quantized, Orders, PlanRefused, ClosesFlat, HoldingFlat, OpenTargetOrder, WellFormed, FillAll,
        OfPlan;
      r, fills := PlaceOrders(targets, backtest, plan.orders, w);
      OthersKept(targets, backtest, before, fills);
      if r == Success {
        var flat := PortfolioIsFlat(targets, holdings, openOrders);
        r := if flat then Success else Failure("not_flat");
      }
      FlatIff(targets, backtest, before, openOrders);
    }

    /** Places the planned orders one by one and applies what was filled. */
    method PlaceOrders(ghost targets: set<Target>, ghost backtest: bool, orders: seq<StopOrder>, w: World)
      returns (r: Outcome, ghost fills: seq<StopOrder>)
      requires forall k :: 0 <= k < |orders| ==> OfPlan(targets, backtest, holdings, orders[k])
      modifies this`holdings
      ensures |fills| <= |orders|
      ensures forall k: nat :: k < |fills| ==>
                && w.place(k).FilledFor? && fills[k] == orders[k].(qty := w.place(k).qty)
                && OfPlan(targets, backtest, old(holdings), fills[k])
      ensures holdings == FillAll(old(holdings), fills)
      ensures r == Success ==> |fills| == |orders|
      ensures r.Raises? <==> SyncBreaks(w, |orders|)
      ensures r == Success <==> Smooth(w, |orders|)
      ensures Ideal(w, orders) ==> r == Success && fills == orders
    {
      hide PlanStep, OfPlan, FillAll;
      fills := [];
      FillAllSnoc(holdings, [], StopOrder(Route("", Spot, 0), "", "", Buy, 0.0, 0.0));
      for j := 0 to |orders|
        invariant |fills| == j && Smooth(w, j)
        invariant forall k: nat :: k < j ==>
                    && w.place(k).FilledFor? && fills[k] == orders[k].(qty := w.place(k).qty)
                    && OfPlan(targets, backtest, old(holdings), fills[k])
        invariant holdings == FillAll(old(holdings), fills)
      {
        if w.late(j) {
          assert !GoesThrough(w, j);
          r := Failure("timeout");
          return;
        }
        var answer := w.place(j);
        if answer.NotFilled? {
          assert !GoesThrough(w, j);
          r := Failure("order_rejected");
          return;
        }
        var fill := orders[j].(qty := answer.qty);
        SameOwner(targets, backtest, old(holdings), orders[j], fill);
        FillAllSnoc(old(holdings), fills, fill);
        holdings := Fill(holdings, fill);
        fills := fills + [fill];
        assert GoesThrough(w, j);
        if w.syncFails(j) {
          r := Raises;
          return;
        }
      }
      r := Success;
    }
  }

  lemma SameOwner(targets: set<Target>, backtest: bool, holdings: seq<Holding>, o: StopOrder, fill: StopOrder)
    requires OfPlan(targets, backtest, holdings, o) && fill == o.(qty := fill.qty)
    ensures OfPlan(targets, backtest, holdings, fill)
  {
    hide PlanStep;
    var j: nat :| PlannedBy(targets, backtest, holdings, o, j);
    assert PlannedBy(targets, backtest, holdings, fill, j);
  }

  lemma OthersKept(targets: set<Target>, backtest: bool, holdings: seq<Holding>, fills: seq<StopOrder>)
    requires WellFormed(holdings)
    requires forall k: nat :: k < |fills| ==> OfPlan(targets, backtest, holdings, fills[k])
    ensures forall i :: 0 <= i < |holdings| && !IsTarget(targets, holdings[i]) ==>
              FillAll(holdings, fills)[i] == holdings[i]
  {
    hide OfPlan, FillAll, IsTarget, WellFormed;
    forall i | 0 <= i < |holdings| && !IsTarget(targets, holdings[i])
      ensures FillAll(holdings, fills)[i] == holdings[i]
    {
      FillsKeepOthers(targets, backtest, holdings, fills, i);
    }
  }

  lemma FlatIff(targets: set<Target>, backtest: bool, holdings: seq<Holding>, openOrders: seq<OpenOrder>)
    requires WellFormed(holdings) && !PlanRefused(targets, backtest, holdings, openOrders)
    ensures var after := FillAll(holdings, Orders(targets, backtest, holdings));
            && !OpenTargetOrder(targets, openOrders)
            && ((forall i :: 0 <= i < |holdings| ==> HoldingFlat(targets, after[i])) <==>
                (forall i :: 0 <= i < |holdings| ==> ClosesFlat(targets, holdings[i])))
  {
    PlanFilled(targets, backtest, holdings, |holdings|);
    assert holdings[..|holdings|] == holdings;
    assert forall i :: 0 <= i < |holdings| ==> (holdings[i].Asset? <==> holdings[i].route.market == Spot);
    hide PlanStep, Closed, HoldingFlat, ClosesFlat, FillAll, Orders;
    forall i | 0 <= i < |holdings|
      ensures HoldingFlat(targets, Closed(targets, backtest, holdings[i])) <==> ClosesFlat(targets, holdings[i])
    {
      ClosedFlatIff(targets, backtest, holdings[i]);
    }
  }

  /** A futures target with a step closes flat exactly when its quantity is
      within the flatness limit of a whole number of steps. */
  lemma StepTargetClosesFlatIff(targets: set<Target>, h: Holding)
    requires h.Position? && IsTarget(targets, h) && h.metadata.Some? && h.metadata.value.step > 0.0
    ensures ClosesFlat(targets, h) <==> exists k: int :: NearMultiple(k, Abs(h.qty), h.metadata.value.step)
  {
    LeftoverIffNearMultiple(h.qty, h.metadata.value);
    hide Quantized, NearMultiple;
    if Abs(h.qty) <= EPS {
      ZeroIsNear(h.qty, h.metadata.value.step);
      assert NearMultiple(0, Abs(h.qty), h.metadata.value.step);
    }
  }

  /** A futures target with more than the flatness limit between two steps. */
  ghost predicate BetweenSteps(targets: set<Target>, h: Holding) {
    && h.Position? && IsTarget(targets, h) && h.metadata.Some? && h.metadata.value.step > 0.0
    && forall k: int :: !NearMultiple(k, Abs(h.qty), h.metadata.value.step)
  }

  /** As long as every order is filled for exactly its quantity, no close of a
      portfolio with such a target ever succeeds. */
  method CloseBetweenSteps(portfolio: Portfolio, targets: set<Target>, backtest: bool, w: World) returns (r: Outcome)
    requires WellFormed(portfolio.holdings)
    requires exists i :: 0 <= i < |portfolio.holdings| && BetweenSteps(targets, portfolio.holdings[i])
    requires Ideal(w, Orders(targets, backtest, portfolio.holdings))
    modifies portfolio
    ensures r.Failure?
  {
    hide *;
    ghost var i :| 0 <= i < |portfolio.holdings| && BetweenSteps(targets, portfolio.holdings[i]);
    NeverFlat(targets, portfolio.holdings[i]);
    ghost var fills;
    r, fills := portfolio.StopAndClosePortfolio(targets, backtest, w);
  }

  lemma NeverFlat(targets: set<Target>, h: Holding)
    requires BetweenSteps(targets, h)
    ensures !ClosesFlat(targets, h)
  {
    hide NearMultiple;
    StepTargetClosesFlatIff(targets, h);
  }

  /** Closing such a target leaves it between two steps. */
  lemma BetweenStepsStays(targets: set<Target>, backtest: bool, h: Holding)
    requires BetweenSteps(targets, h)
    ensures BetweenSteps(targets, Closed(targets, backtest, h))
  {
    var after := Closed(targets, backtest, h);
    if PlanStep(targets, backtest, h).Place? {
      var m := h.metadata.value;
      var q := Quantized(h.qty, h.metadata);
      QuantizedIsMultiple(h.qty, m);
      var u: nat :| q == Times(u, m.step);
      assert Abs(after.qty) == Abs(Abs(h.qty) - q);
      hide Quantized, Times, PlanStep, Closed, Allowed;
      forall k: int ensures !NearMultiple(k, Abs(after.qty), m.step) {
        TimesAdd(k, u, m.step);
        TimesAdd(u - k, k, m.step);
        assert !NearMultiple(k + u, Abs(h.qty), m.step) && !NearMultiple(u - k, Abs(h.qty), m.step);
      }
    }
  }

  /** A world that fills every one of these orders exactly. */
  function ExactWorld(orders: seq<StopOrder>): (w: World)
    ensures Ideal(w, orders)
  {
    World(_ => false, (j: nat) => if j < |orders| then FilledFor(orders[j].qty) else NotFilled, _ => false)
  }

  /** However often such a portfolio is closed with exact fills, every attempt
      fails. */
  method CloseAgainAndAgain(portfolio: Portfolio, targets: set<Target>, backtest: bool, attempts: nat)
    returns (results: seq<Outcome>)
    requires WellFormed(portfolio.holdings)
    requires exists i :: 0 <= i < |portfolio.holdings| && BetweenSteps(targets, portfolio.holdings[i])
    modifies portfolio
    ensures |results| == attempts && forall a :: 0 <= a < attempts ==> results[a].Failure?
  {
    hide *;
    results := [];
    ghost var i :| 0 <= i < |portfolio.holdings| && BetweenSteps(targets, portfolio.holdings[i]);
    for a := 0 to attempts
      invariant |results| == a && forall b :: 0 <= b < a ==> results[b].Failure?
      invariant WellFormed(portfolio.holdings)
      invariant i < |portfolio.holdings| && BetweenSteps(targets, portfolio.holdings[i])
    {
      ghost var before := portfolio.holdings;
      NeverFlat(targets, before[i]);
      AfterExactClose(targets, backtest, before, portfolio.openOrders, i);
      var r;
      ghost var fills;
      r, fills := portfolio.StopAndClosePortfolio(targets, backtest,
                                                  ExactWorld(Orders(targets, backtest, portfolio.holdings)));
      results := results + [r];
    }
  }

  lemma AfterExactClose(targets: set<Target>, backtest: bool, holdings: seq<Holding>, openOrders: seq<OpenOrder>,
                        i: nat)
    requires WellFormed(holdings) && i < |holdings| && BetweenSteps(targets, holdings[i])
    ensures FillAll(holdings, []) == holdings
    ensures !PlanRefused(targets, backtest, holdings, openOrders) ==>
              var after := FillAll(holdings, Orders(targets, backtest, holdings));
              WellFormed(after) && BetweenSteps(targets, after[i])
  {
    if !PlanRefused(targets, backtest, holdings, openOrders) {
      hide PlanStep, Closed, FillAll, Orders, BetweenSteps, PlanRefused, IsTarget;
      PlanFilled(targets, backtest, holdings, |holdings|);
      assert holdings[..|holdings|] == holdings;
      BetweenStepsStays(targets, backtest, holdings[i]);
      ClosedKeepsKeys(targets, backtest);
      KeysKept(holdings, FillAll(holdings, Orders(targets, backtest, holdings)));
      hide WellFormed;
    }
  }

  /** Holdings that keep their keys stay well formed. */
  lemma KeysKept(before: seq<Holding>, after: seq<Holding>)
    requires WellFormed(before)
    ensures |after| == |before|
            && (forall i :: 0 <= i < |before| ==>
                  SameKey(after[i], before[i]) && (after[i].Asset? <==> before[i].Asset?))
            ==> WellFormed(after)
  {
  }

  lemma ClosedKeepsKeys(targets: set<Target>, backtest: bool)
    ensures forall h :: SameKey(Closed(targets, backtest, h), h) && (Closed(targets, backtest, h).Asset? <==> h.Asset?)
  {
    hide Quantized;
  }

  /** Such a target: a quantity of one and a half with a step of one. */
  lemma OneAndAHalfIsBetweenSteps(route: Route, symbol: string)
    requires symbol != "" && route.market != Spot
    ensures var h := Position(route, symbol, 1.5, 10.0, 10.0, Some(Metadata(1.0, 0)));
            BetweenSteps({Target(route.exchange, route.market, symbol)}, h)
  {
    forall k: int ensures !NearMultiple(k, 1.5, 1.0) {
      assert Times(k, 1.0) == k as real;
      assert k <= 1 || k >= 2;
    }
  }

  lemma ZeroIsNear(qty: real, step: real)
    requires Abs(qty) <= EPS
    ensures NearMultiple(0, Abs(qty), step)
  {
  }
}
