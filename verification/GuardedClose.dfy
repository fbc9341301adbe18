/** The max-loss guard and the close it starts, put together: the balance comes
    from the account, the close from the portfolio, and both look at the session's
    one set of order targets. */
module GuardedClose {
  import opened Prelude
  import opened Session
  import opened BacktestRun
  import MarginBalance
  import StopAndClose

  /** How the guard reads the end of a close. */
  function CloseOf(r: StopAndClose.Outcome): CloseOutcome {
    match r
    case Success => Closed
    case Failure(reason) => CloseFailed(reason)
    case Raises => CloseRaised
  }

  function MarketOf(name: string): Option<StopAndClose.Market> {
    if name == "spot" then Some(StopAndClose.Spot)
    else if name == "perpetual_futures" then Some(StopAndClose.Perpetual)
    else if name == "delivery_futures" then Some(StopAndClose.Delivery)
    else None
  }

  lemma MarketsNamed()
    ensures forall name, m :: MarketOf(name) == Some(m) <==>
              name == match m
                      case Spot => "spot"
                      case Perpetual => "perpetual_futures"
                      case Delivery => "delivery_futures"
  {
    assert "spot"[0] == 's' && "perpetual_futures"[0] == 'p' && "delivery_futures"[0] == 'd';
  }

  /** The session's order targets as the close looks them up. */
  function TargetsOf(keys: seq<MarginBalance.TargetKey>): (targets: set<StopAndClose.Target>)
    ensures forall t :: t in targets <==>
              exists k :: k in keys && k.exchange == t.exchange && k.symbol == t.symbol
                          && k.market == (match t.market
                                          case Spot => "spot"
                                          case Perpetual => "perpetual_futures"
                                          case Delivery => "delivery_futures")
  {
    MarketsNamed();
    set k | k in keys && MarketOf(k.market).Some? ::
      StopAndClose.Target(k.exchange, MarketOf(k.market).value, k.symbol)
  }

  ghost predicate Refused(keys: seq<MarginBalance.TargetKey>, backtest: bool, p: StopAndClose.Portfolio)
    reads p
  {
    StopAndClose.PlanRefused(TargetsOf(keys), backtest, p.holdings, p.openOrders)
  }

  ghost function PlannedOrders(keys: seq<MarginBalance.TargetKey>, backtest: bool, p: StopAndClose.Portfolio)
    : seq<StopAndClose.StopOrder>
    reads p
  {
    StopAndClose.Orders(TargetsOf(keys), backtest, p.holdings)
  }

  /** What a caller can check before the bar: nothing refuses the plan, and every
      target closes flat. */
  ghost predicate CanCloseFlat(keys: seq<MarginBalance.TargetKey>, backtest: bool, p: StopAndClose.Portfolio)
    reads p
  {
    && !Refused(keys, backtest, p)
    && forall i :: 0 <= i < |p.holdings| ==> StopAndClose.ClosesFlat(TargetsOf(keys), p.holdings[i])
  }

  ghost predicate TargetsFlat(keys: seq<MarginBalance.TargetKey>, holdings: seq<StopAndClose.Holding>) {
    forall i :: 0 <= i < |holdings| ==> StopAndClose.HoldingFlat(TargetsOf(keys), holdings[i])
  }

  /** What is no target stays as it is. */
  ghost predicate OthersUntouched(keys: seq<MarginBalance.TargetKey>, before: seq<StopAndClose.Holding>,
                                  after: seq<StopAndClose.Holding>)
  {
    && |after| == |before|
    && forall j :: 0 <= j < |before| && !StopAndClose.IsTarget(TargetsOf(keys), before[j]) ==> after[j] == before[j]
  }

  ghost predicate Breached(c: Config, account: MarginBalance.Account, keys: seq<MarginBalance.TargetKey>) {
    var balance := MarginBalance.WatchedBalance(account, keys);
    balance.Ok? && Breach(c, balance.value)
  }

  /** The close itself, with its end told by what went through and what is flat. */
  method ClosePortfolio(keys: seq<MarginBalance.TargetKey>, portfolio: StopAndClose.Portfolio, backtest: bool,
                        w: StopAndClose.World)
    returns (r: CloseOutcome)
    requires StopAndClose.WellFormed(portfolio.holdings)
    modifies portfolio`holdings
    ensures OthersUntouched(keys, old(portfolio.holdings), portfolio.holdings)
    ensures var refused := old(Refused(keys, backtest, portfolio));
            var n := |old(PlannedOrders(keys, backtest, portfolio))|;
            && (refused ==> portfolio.holdings == old(portfolio.holdings))
            && (r == CloseRaised <==> !refused && StopAndClose.SyncBreaks(w, n))
            && (r == Closed <==> !refused && StopAndClose.Smooth(w, n) && TargetsFlat(keys, portfolio.holdings))
    ensures StopAndClose.Ideal(w, old(PlannedOrders(keys, backtest, portfolio))) ==>
              && r != CloseRaised
              && (r == Closed <==> old(CanCloseFlat(keys, backtest, portfolio)))
  {
    hide StopAndClose.PlanRefused, StopAndClose.Orders, StopAndClose.ClosesFlat, StopAndClose.HoldingFlat,
      StopAndClose.IsTarget, StopAndClose.FillAll, StopAndClose.WellFormed, StopAndClose.SyncBreaks,
      StopAndClose.Smooth, StopAndClose.Ideal, TargetsOf;
    var outcome;
    ghost var fills;
    NoFills(portfolio.holdings);
    outcome, fills := portfolio.StopAndClosePortfolio(TargetsOf(keys), backtest, w);
    r := CloseOf(outcome);
  }

  lemma NoFills(holdings: seq<StopAndClose.Holding>)
    ensures StopAndClose.FillAll(holdings, []) == holdings
  {
  }

  /** The guard after a completed bar. It acts exactly on a breach of the watched
      balance, never touches what is no target, and never leaves a session running
      that it acted on. Undisturbed, the session ends stopping exactly if the
      close's wallet sync breaks, and stopped exactly if every order goes through
      and leaves the targets flat; with exact fills that is if and only if the
      portfolio can be closed flat. */
  method GuardBar(state: SessionState, c: Config, account: MarginBalance.Account, keys: seq<MarginBalance.TargetKey>,
                  portfolio: StopAndClose.Portfolio, backtest: bool, w: StopAndClose.World, env: Environment, i: nat)
    returns (acted: bool)
    requires Allowed(env) && StopAndClose.WellFormed(portfolio.holdings)
    modifies state, portfolio`holdings
    ensures acted <==> old(state.status) == Running && !old(state.lossTriggered) && Breached(c, account, keys)
    ensures acted <==>
              && old(state.status) == Running && !old(state.lossTriggered)
              && var watched := MarginBalance.WatchedBalance(account, keys);
                 var share := if c.lossPct == 0.0 then 0.3 else c.lossPct;
                 watched.Ok? && c.initial > 0.0 && share > 0.0 && c.initial - watched.value >= share * c.initial
    ensures acted ==> state.status != Running
    ensures state.lossTriggered == (old(state.lossTriggered) || acted)
    ensures state.barsProcessed == old(state.barsProcessed)
    ensures !acted ==> state.Now() == old(state.Now()) && portfolio.holdings == old(portfolio.holdings)
    ensures OthersUntouched(keys, old(portfolio.holdings), portfolio.holdings)
    ensures acted && Quiet(env) ==>
              var refused := old(Refused(keys, backtest, portfolio));
              var n := |old(PlannedOrders(keys, backtest, portfolio))|;
              && (state.status == Stopping <==> !refused && StopAndClose.SyncBreaks(w, n))
              && (state.status == Stopped <==>
                    !refused && StopAndClose.Smooth(w, n) && TargetsFlat(keys, portfolio.holdings))
              && (state.status == Stopping || state.status == Stopped || state.status == StopFailed)
    ensures acted && Quiet(env) && StopAndClose.Ideal(w, old(PlannedOrders(keys, backtest, portfolio))) ==>
              state.status == if old(CanCloseFlat(keys, backtest, portfolio)) then Stopped else StopFailed
  {
    hide *;
    acted := false;
    Untouched(keys, portfolio.holdings);
    var balance := MarginBalance.TargetCloseMarginBalance(account, keys);
    if balance.Raised? {
      NoBalanceNoBreach(c, account, keys);
      return;
    }
    BreachedIs(c, account, keys);
    BreachIsLoss(c, balance.value);
    var closing;
    acted, closing := OpenGuard(state, c, balance.value, env, i);
    if closing {
      var close := ClosePortfolio(keys, portfolio, backtest, w);
      EndGuard(state, close, env, i);
    }
  }

  lemma Untouched(keys: seq<MarginBalance.TargetKey>, holdings: seq<StopAndClose.Holding>)
    ensures OthersUntouched(keys, holdings, holdings)
  {
  }

  /** What the close keeps and reaches, in plain terms. */
  lemma CloseInPlainTerms(keys: seq<MarginBalance.TargetKey>, before: seq<StopAndClose.Holding>,
                          after: seq<StopAndClose.Holding>)
    ensures OthersUntouched(keys, before, after) <==>
              && |after| == |before|
              && forall j :: 0 <= j < |before| && !StopAndClose.IsTarget(TargetsOf(keys), before[j]) ==>
                   after[j] == before[j]
    ensures TargetsFlat(keys, after) <==>
              forall i :: 0 <= i < |after| ==> StopAndClose.HoldingFlat(TargetsOf(keys), after[i])
    ensures forall h :: StopAndClose.IsTarget(TargetsOf(keys), h) <==>
              match h
              case Position(route, symbol, _, _, _, _) =>
                symbol != "" && StopAndClose.Target(route.exchange, route.market, symbol) in TargetsOf(keys)
              case Asset(route, symbol, _, _, _, _) =>
                && symbol != "" && symbol != "USDT"
                && (StopAndClose.Target(route.exchange, route.market, symbol) in TargetsOf(keys)
                    || StopAndClose.Target(route.exchange, route.market, symbol + "USDT") in TargetsOf(keys))
  {
  }

  lemma NoBalanceNoBreach(c: Config, account: MarginBalance.Account, keys: seq<MarginBalance.TargetKey>)
    requires MarginBalance.WatchedBalance(account, keys).Raised?
    ensures !Breached(c, account, keys)
  {
  }

  lemma BreachedIs(c: Config, account: MarginBalance.Account, keys: seq<MarginBalance.TargetKey>)
    requires MarginBalance.WatchedBalance(account, keys).Ok?
    ensures Breached(c, account, keys) <==> Breach(c, MarginBalance.WatchedBalance(account, keys).value)
  {
  }

  // ----- a close that raises -----

  const WITNESS_KEYS := [MarginBalance.TargetKey("binance", "perpetual_futures", "B")]

  const WITNESS_POSITION :=
    StopAndClose.Position(StopAndClose.Route("binance", StopAndClose.Perpetual, 0), "B", 1.0, 10.0, 10.0, None)

  const WITNESS_CONFIG := Config(100.0, 0.3)

  const WITNESS_ACCOUNT := MarginBalance.Account(None, Some(0.0), None, None)

  const BREAKING_SYNC := StopAndClose.World(_ => false, _ => StopAndClose.FilledFor(1.0), _ => true)

  /** The whole balance lost, one position, one order filled exactly, and a sync
      that fails after it: the session is left stopping. */
  method RaisingCloseLeavesStopping() returns (state: SessionState, portfolio: StopAndClose.Portfolio)
    ensures state.status == Stopping
  {
    hide *;
    WitnessBreach();
    WitnessPlan();
    WitnessSync();
    state := new SessionState();
    portfolio := new StopAndClose.Portfolio([WITNESS_POSITION], []);
    NothingHappens();
    WitnessView(state);
    WitnessRefused(portfolio);
    var acted := GuardBar(state, WITNESS_CONFIG, WITNESS_ACCOUNT, WITNESS_KEYS, portfolio, true, BREAKING_SYNC,
                          NOBODY, 0);
  }

  const NOBODY: Environment := (i: nat, p: nat) => []

  lemma NothingHappens()
    ensures Quiet(NOBODY) && Allowed(NOBODY)
    ensures StopAndClose.WellFormed([WITNESS_POSITION])
  {
  }

  lemma WitnessView(state: SessionState)
    requires state.Now() == View(Running, 0, "", false)
    ensures state.status == Running && !state.lossTriggered
  {
  }

  lemma WitnessRefused(p: StopAndClose.Portfolio)
    requires p.holdings == [WITNESS_POSITION] && p.openOrders == []
    ensures Refused(WITNESS_KEYS, true, p)
              == StopAndClose.PlanRefused(TargetsOf(WITNESS_KEYS), true, [WITNESS_POSITION], [])
    ensures PlannedOrders(WITNESS_KEYS, true, p)
              == StopAndClose.Orders(TargetsOf(WITNESS_KEYS), true, [WITNESS_POSITION])
  {
  }

  lemma WitnessBreach()
    ensures Breached(WITNESS_CONFIG, WITNESS_ACCOUNT, WITNESS_KEYS)
  {
    assert MarginBalance.WatchedBalance(WITNESS_ACCOUNT, WITNESS_KEYS) == Ok(0.0);
  }

  lemma WitnessPlan()
    ensures !StopAndClose.PlanRefused(TargetsOf(WITNESS_KEYS), true, [WITNESS_POSITION], [])
    ensures |StopAndClose.Orders(TargetsOf(WITNESS_KEYS), true, [WITNESS_POSITION])| == 1
  {
    var targets := TargetsOf(WITNESS_KEYS);
    assert WITNESS_KEYS[0] in WITNESS_KEYS;
    assert StopAndClose.Target("binance", StopAndClose.Perpetual, "B") in targets;
    assert StopAndClose.PlanStep(targets, true, WITNESS_POSITION).Place?;
    hide StopAndClose.PlanStep;
    assert [WITNESS_POSITION][..0] == [];
  }

  lemma WitnessSync()
    ensures StopAndClose.SyncBreaks(BREAKING_SYNC, 1)
  {
    assert StopAndClose.GoesThrough(BREAKING_SYNC, 0) && BREAKING_SYNC.syncFails(0);
  }
}
