/** A whole guarded backtest: pages are merged, routed and offered to the strategy,
    and after every bar the max-loss guard looks at the balance and may close the
    portfolio and end the run. */
module GuardedBacktest {
  import opened Prelude
  import opened StableMerge
  import opened PagedReplay
  import opened Inputs
  import opened Routing
  import opened BacktestPipeline
  import opened Session
  import opened GuardedClose
  import BacktestRun
  import MarginBalance
  import StopAndClose

  type TargetKeys = seq<MarginBalance.TargetKey>

  /** What the strategy's callback for one bar leaves behind: whether it raised,
      what the account answers, the portfolio, and how a close would go now. */
  datatype Day = Day(raises: bool, account: MarginBalance.Account, holdings: seq<StopAndClose.Holding>,
                     openOrders: seq<StopAndClose.OpenOrder>, w: StopAndClose.World)

  /** The surroundings of the session: its targets and threshold, whether it is a
      backtest portfolio, and the other threads. */
  datatype Setup = Setup(c: BacktestRun.Config, keys: TargetKeys, backtest: bool, env: BacktestRun.Environment)

  ghost predicate LossAt(x: Setup, d: Day) { Breached(x.c, d.account, x.keys) }

  /** A loss in plain terms: the watched balance has lost the configured share. */
  lemma LossInPlainTerms(x: Setup, d: Day)
    ensures LossAt(x, d) <==>
              var watched := MarginBalance.WatchedBalance(d.account, x.keys);
              var share := if x.c.lossPct == 0.0 then 0.3 else x.c.lossPct;
              watched.Ok? && x.c.initial > 0.0 && share > 0.0 && x.c.initial - watched.value >= share * x.c.initial
  {
    hide MarginBalance.WatchedBalance, BacktestRun.Breach;
    var watched := MarginBalance.WatchedBalance(d.account, x.keys);
    if watched.Ok? {
      BacktestRun.BreachIsLoss(x.c, watched.value);
    }
  }

  /** How the guard's close after this bar leaves an undisturbed session. */
  ghost predicate ClosedAs(x: Setup, d: Day, status: Status, holdings: seq<StopAndClose.Holding>) {
    var targets := TargetsOf(x.keys);
    var refused := StopAndClose.PlanRefused(targets, x.backtest, d.holdings, d.openOrders);
    var orders := StopAndClose.Orders(targets, x.backtest, d.holdings);
    && (status == Stopping || status == Stopped || status == StopFailed)
    && (status == Stopping <==> !refused && StopAndClose.SyncBreaks(d.w, |orders|))
    && (status == Stopped <==>
          !refused && StopAndClose.Smooth(d.w, |orders|) && TargetsFlat(x.keys, holdings))
    && (StopAndClose.Ideal(d.w, orders) ==>
          (status == Stopped <==>
             !refused && forall i :: 0 <= i < |d.holdings| ==> StopAndClose.ClosesFlat(targets, d.holdings[i])))
  }

  /** One bar: the tick reaches the strategy, other threads may step in, and if the
      callback does not raise the guard has its turn and the bar is counted. */
  method CompleteBar(engine: StrategyEngine, owner: BaseStrategy, view: InputView, declared: seq<Key>, bar: Tagged,
                     state: SessionState, portfolio: StopAndClose.Portfolio, x: Setup, d: Day, n: nat)
    returns (acted: bool)
    requires engine.Valid() && view.Valid() && BinanceInputs(declared) && bar.stream < |declared|
    requires owner in engine.created && LastDeclarer(engine.created, declared[bar.stream]) == Some(owner)
    requires BacktestRun.Allowed(x.env) && StopAndClose.WellFormed(d.holdings)
    modifies engine.created, view, state, portfolio
    ensures owner.received == old(owner.received) + [TickOf(declared, bar)]
    ensures view.Valid() && view.declared == old(view.declared)
    ensures view.history == old(view.history) + [TickOf(declared, bar)]
    ensures state.lossTriggered == (old(state.lossTriggered) || acted)
    ensures state.barsProcessed == if d.raises then old(state.barsProcessed) else n + 1
    ensures acted ==> !d.raises && !old(state.lossTriggered) && LossAt(x, d) && state.status != Running
                      && OthersUntouched(x.keys, d.holdings, portfolio.holdings)
    ensures !d.raises && !acted && !old(state.lossTriggered) && LossAt(x, d) ==> state.status != Running
    ensures BacktestRun.Quiet(x.env) ==>
              && (acted <==> !d.raises && old(state.status) == Running && !old(state.lossTriggered) && LossAt(x, d))
              && (!acted ==> state.status == old(state.status))
              && (acted ==> ClosedAs(x, d, state.status, portfolio.holdings))
  {
    hide *;
    acted := false;
    NowIs(state);
    HandOverBar(engine, owner, view, declared, bar);
    BacktestRun.Others(state, x.env, n, 1);
    NowIs(state);
    portfolio.holdings, portfolio.openOrders := d.holdings, d.openOrders;
    if d.raises {
      return;
    }
    PortfolioIs(portfolio, x, d);
    acted := GuardBar(state, x.c, d.account, x.keys, portfolio, x.backtest, d.w, x.env, n);
    NowIs(state);
    if acted {
      ClosedAsTold(x, d, state.status, portfolio.holdings);
    }
    state.barsProcessed := n + 1;
  }

  lemma NowIs(state: SessionState)
    ensures state.Now() == View(state.status, state.barsProcessed, state.error, state.lossTriggered)
  {
  }

  ghost predicate CanClose(x: Setup, d: Day) {
    && !StopAndClose.PlanRefused(TargetsOf(x.keys), x.backtest, d.holdings, d.openOrders)
    && forall i :: 0 <= i < |d.holdings| ==> StopAndClose.ClosesFlat(TargetsOf(x.keys), d.holdings[i])
  }

  ghost function DayOrders(x: Setup, d: Day): seq<StopAndClose.StopOrder> {
    StopAndClose.Orders(TargetsOf(x.keys), x.backtest, d.holdings)
  }

  ghost predicate DayRefused(x: Setup, d: Day) {
    StopAndClose.PlanRefused(TargetsOf(x.keys), x.backtest, d.holdings, d.openOrders)
  }

  /** The portfolio after the callback, read off the day. */
  lemma PortfolioIs(p: StopAndClose.Portfolio, x: Setup, d: Day)
    requires p.holdings == d.holdings && p.openOrders == d.openOrders
    ensures Refused(x.keys, x.backtest, p) == DayRefused(x, d)
    ensures PlannedOrders(x.keys, x.backtest, p) == DayOrders(x, d)
    ensures CanCloseFlat(x.keys, x.backtest, p) == CanClose(x, d)
    ensures LossAt(x, d) == Breached(x.c, d.account, x.keys)
  {
  }

  lemma ClosedAsTold(x: Setup, d: Day, status: Status, holdings: seq<StopAndClose.Holding>)
    ensures
      && (status == Stopping || status == Stopped || status == StopFailed)
      && (status == Stopping <==> !DayRefused(x, d) && StopAndClose.SyncBreaks(d.w, |DayOrders(x, d)|))
      && (status == Stopped <==>
            !DayRefused(x, d) && StopAndClose.Smooth(d.w, |DayOrders(x, d)|) && TargetsFlat(x.keys, holdings))
      && (StopAndClose.Ideal(d.w, DayOrders(x, d)) ==> (status == Stopped <==> CanClose(x, d)))
      <==> ClosedAs(x, d, status, holdings)
  {
    hide StopAndClose.SyncBreaks, StopAndClose.Smooth, TargetsFlat, StopAndClose.Ideal, StopAndClose.PlanRefused,
      StopAndClose.Orders, StopAndClose.ClosesFlat, TargetsOf;
  }

  // ----- the run -----

  /** How the loop ended: the pages ran out, a page was broken, a callback raised,
      or the session had left running. */
  datatype End = AllBars | PageBroken | CallbackRaised | LeftRunning

  /** No bar before the last completed one shows a loss, and after one that does
      the session is not running. */
  ghost predicate NoEarlierLoss(x: Setup, day: nat -> Day, n: nat) {
    forall j: nat :: j + 1 < n ==> !LossAt(x, day(j))
  }

  ghost predicate LossIsLast(x: Setup, day: nat -> Day, n: nat) { n > 0 && LossAt(x, day(n - 1)) }

  lemma OneMoreDay(x: Setup, day: nat -> Day, n: nat)
    ensures NoEarlierLoss(x, day, n) && !LossIsLast(x, day, n) ==> NoEarlierLoss(x, day, n + 1)
    ensures LossIsLast(x, day, n + 1) <==> LossAt(x, day(n))
    ensures NoEarlierLoss(x, day, 0) && !LossIsLast(x, day, 0)
  {
    hide LossAt;
  }

  /** The loop. Whatever the other threads do: the strategy and its view get a
      prefix of the stable merge, no completed bar but the last shows a loss, and
      if the guard acted it did so on that last bar and touched targets only. */
  method Loop(source: PagedBacktestDataSource, engine: StrategyEngine, owner: BaseStrategy, view: InputView,
              declared: seq<Key>, state: SessionState, portfolio: StopAndClose.Portfolio, x: Setup, day: nat -> Day)
    returns (n: nat, end: End, acted: bool, ghost taken: seq<Tagged>)
    requires source.Valid() && !source.started && !source.closed && |source.cursors| == |declared|
    requires engine.Valid() && BinanceInputs(declared) && view.Valid()
    requires owner in engine.created && forall k :: k in declared ==> LastDeclarer(engine.created, k) == Some(owner)
    requires BacktestRun.Allowed(x.env) && forall j: nat :: StopAndClose.WellFormed(day(j).holdings)
    requires state.status == Running && !state.lossTriggered && state.barsProcessed == 0
    modifies source, source.cursors, engine.created, view, state, portfolio
    ensures taken <= Merged(old(source.remaining)) && Tags(declared, taken)
    ensures |taken| == n + (if end == CallbackRaised then 1 else 0)
    ensures owner.received == old(owner.received) + Ticks(declared, taken)
    ensures view.Valid() && view.declared == old(view.declared)
    ensures view.history == old(view.history) + Ticks(declared, taken)
    ensures end == AllBars ==> taken == Merged(old(source.remaining)) && source.FullyRead()
    ensures end == PageBroken ==> !source.AllChainsOk()
    ensures end == CallbackRaised ==> day(n).raises
    ensures end == LeftRunning ==> state.status != Running
    ensures forall j: nat :: j < n ==> !day(j).raises
    ensures NoEarlierLoss(x, day, n)
    ensures LossIsLast(x, day, n) ==> state.status != Running
    ensures acted ==> LossIsLast(x, day, n) && end != CallbackRaised
                      && OthersUntouched(x.keys, day(n - 1).holdings, portfolio.holdings)
    ensures state.barsProcessed == n
    ensures BacktestRun.Quiet(x.env) ==>
              && (acted <==> LossIsLast(x, day, n))
              && (!acted ==> state.status == Running)
              && (acted ==> ClosedAs(x, day(n - 1), state.status, portfolio.holdings))
  {
    hide *;
    n, acted, taken := 0, false, [];
    ghost var all := Merged(source.remaining);
    AllTagged(source, declared);
    MergedIsMergeOf(source.remaining);
    TicksOfNone(declared);
    OneMoreDay(x, day, 0);
    while true
      invariant !source.closed && Going(source, declared, all, taken)
      invariant n == |taken| && Tags(declared, taken) && taken <= all
      invariant owner.received == old(owner.received) + Ticks(declared, taken)
      invariant view.Valid() && view.declared == old(view.declared)
      invariant view.history == old(view.history) + Ticks(declared, taken)
      invariant forall j: nat :: j < n ==> !day(j).raises
      invariant NoEarlierLoss(x, day, n)
      invariant LossIsLast(x, day, n) ==> state.status != Running
      invariant acted ==> LossIsLast(x, day, n) && OthersUntouched(x.keys, day(n - 1).holdings, portfolio.holdings)
      invariant state.barsProcessed == n && state.lossTriggered == acted
      invariant BacktestRun.Quiet(x.env) ==>
                  && (acted <==> LossIsLast(x, day, n))
                  && (!acted ==> state.status == Running)
                  && (acted ==> ClosedAs(x, day(n - 1), state.status, portfolio.holdings))
      decreases |all| - |taken|
    {
      var step, bar := NextBar(source, declared, all, taken);
      if !step.Yield? {
        return n, if step.Raise? then PageBroken else AllBars, acted, taken;
      }
      NowIs(state);
      BacktestRun.Others(state, x.env, n, 0);
      NowIs(state);
      if state.status != Running {
        return n, LeftRunning, acted, taken;
      }
      OneMoreTick(declared, taken, bar);
      OneMoreDay(x, day, n);
      acted := CompleteBar(engine, owner, view, declared, bar, state, portfolio, x, day(n), n);
      taken := taken + [bar];
      if day(n).raises {
        return n, CallbackRaised, acted, taken;
      }
      n := n + 1;
    }
  }

  /** The session's thread up to its finalizer: the loop and how it is concluded. A
      session that was left alone finishes if all bars ran without a loss, fails on
      a broken page or a raising callback, and after a loss ends as the guard's
      close left it, on the first bar that showed the loss. Only a close that broke
      off can still turn into a failure, by a page that is broken after it. */
  method RunGuarded(source: PagedBacktestDataSource, engine: StrategyEngine, owner: BaseStrategy, view: InputView,
                    declared: seq<Key>, state: SessionState, portfolio: StopAndClose.Portfolio, x: Setup,
                    day: nat -> Day)
    returns (n: nat, end: End, acted: bool, ghost taken: seq<Tagged>, ghost closedAs: Status)
    requires source.Valid() && !source.started && !source.closed && |source.cursors| == |declared|
    requires engine.Valid() && BinanceInputs(declared) && view.Valid()
    requires view.declared == InputsOf(declared) && view.history == []
    requires owner in engine.created && forall k :: k in declared ==> LastDeclarer(engine.created, k) == Some(owner)
    requires BacktestRun.Allowed(x.env) && forall j: nat :: StopAndClose.WellFormed(day(j).holdings)
    requires state.status == Running && !state.lossTriggered && state.barsProcessed == 0
    modifies source, source.cursors, engine.created, view, state, portfolio
    ensures taken <= Merged(old(source.remaining)) && Tags(declared, taken)
    ensures |taken| == n + (if end == CallbackRaised then 1 else 0)
    ensures owner.received == old(owner.received) + Ticks(declared, taken)
    ensures view.Valid() && forall i :: 0 <= i < |declared| ==>
              LatestTick(view, declared[i]) == Ok(LastRowTick(declared, i, Projection(taken, i)))
    ensures state.status != Running && state.barsProcessed == n
    ensures NoEarlierLoss(x, day, n)
    ensures acted ==> LossIsLast(x, day, n) && OthersUntouched(x.keys, day(n - 1).holdings, portfolio.holdings)
    ensures BacktestRun.Quiet(x.env) ==>
              && (acted <==> LossIsLast(x, day, n))
              && (!acted ==> end != LeftRunning && state.status == if end == AllBars then Finished else Failed)
              && (!acted && end == AllBars ==> taken == Merged(old(source.remaining)))
              && (acted ==>
                    && ClosedAs(x, day(n - 1), closedAs, portfolio.holdings)
                    && state.status == if closedAs == Stopping && end == PageBroken then Failed else closedAs)
  {
    hide *;
    n, end, acted, taken := Loop(source, engine, owner, view, declared, state, portfolio, x, day);
    closedAs := state.status;
    assert [] + Ticks(declared, taken) == Ticks(declared, taken);
    forall i | 0 <= i < |declared|
      ensures LatestTick(view, declared[i]) == Ok(LastRowTick(declared, i, Projection(taken, i)))
    {
      LatestAfter(view, declared, taken, i);
    }
    WhichEnd();
    if acted {
      LossNeedsBar(x, day, n);
      ClosedStatus(x, day(n - 1), closedAs, portfolio.holdings);
    }
    ConcludeSession(state, end, n, x.env);
  }

  lemma ClosedStatus(x: Setup, d: Day, status: Status, holdings: seq<StopAndClose.Holding>)
    ensures ClosedAs(x, d, status, holdings) ==> status == Stopping || status == Stopped || status == StopFailed
  {
  }

  lemma LossNeedsBar(x: Setup, day: nat -> Day, n: nat)
    ensures LossIsLast(x, day, n) ==> n > 0
  {
    hide LossAt;
  }

  lemma WhichEnd()
    ensures !Terminal(Running) && !Terminal(Stopping) && Terminal(Stopped) && Terminal(StopFailed)
  {
  }

  /** A loop that raised fails the session unless it has ended already; one that
      ran out of bars finishes it if it is still running. */
  method ConcludeSession(state: SessionState, end: End, n: nat, env: BacktestRun.Environment)
    requires BacktestRun.Allowed(env) && state.barsProcessed == n
    requires end == LeftRunning ==> state.status != Running
    modifies state
    ensures state.status != Running && state.barsProcessed == n
    ensures BacktestRun.Quiet(env) ==>
              state.status ==
                if (end == PageBroken || end == CallbackRaised) && !Terminal(old(state.status)) then Failed
                else if end == AllBars && old(state.status) == Running then Finished
                else old(state.status)
  {
    BacktestRun.Others(state, env, n, 4);
    if end == PageBroken || end == CallbackRaised {
      var _ := state.Transition(Failed, None, Some("loop raised"));
    } else if state.status == Running {
      BacktestRun.Others(state, env, n, 5);
      var _ := state.Transition(Finished, Some(n), None);
    }
  }
}
