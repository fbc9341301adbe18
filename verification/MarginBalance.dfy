/** The balance the loss guard watches: only what the session's own targets
    stand for, out of everything the portfolio's futures wallets hold. */
module MarginBalance {
  import opened Prelude
  import opened Text
  import opened Inputs

  /** A position; `pnl` is its own unrealised profit where it can tell. */
  datatype FuturesPosition = FuturesPosition(symbol: string, pnl: Option<real>, qty: real, entry: real, mark: real)

  /** One route's wallet; `balance` and `margin` are what its futures account
      answers, where it has one. */
  datatype Wallet = Wallet(exchange: string, market: string, balance: Option<real>, margin: Option<real>,
                           positions: seq<FuturesPosition>)

  /** A portfolio of route wallets (or none), and what it answers as a whole. */
  datatype Account = Account(routes: Option<seq<Wallet>>, ownMargin: Option<real>,
                             futuresMargin: Option<real>, totalValue: Option<real>)

  datatype TargetKey = TargetKey(exchange: string, market: string, symbol: string)

  const FUTURES_ROUTES := {"perpetual_futures", "delivery_futures"}

  function NormalizeTarget(t: TargetKey): Option<TargetKey> {
    var e, m := NormalizeExchange(t.exchange), NormalizeMarket(t.market);
    if e.Ok? && m.Ok? then Some(TargetKey(e.value, m.value, Upper(Strip(t.symbol)))) else None
  }

  /** A target in plain terms. */
  lemma TargetInPlainTerms(t: TargetKey)
    ensures var e, m := Lower(Strip(t.exchange)), Lower(Strip(t.market));
            NormalizeTarget(t) ==
              if e in {"binance", "okx"} && m in {"spot", "perpetual_futures", "delivery_futures"}
              then Some(TargetKey(e, m, Upper(Strip(t.symbol)))) else None
  {
    hide Strip, Lower, Upper;
  }

  /** The known targets in normal form. */
  ghost function KnownTargets(raw: seq<TargetKey>): (targets: set<TargetKey>)
    ensures forall t :: t in targets <==> exists i :: 0 <= i < |raw| && NormalizeTarget(raw[i]) == Some(t)
  {
    set i | 0 <= i < |raw| && NormalizeTarget(raw[i]).Some? :: NormalizeTarget(raw[i]).value
  }

  /** Targets on unknown exchanges or markets are dropped. */
  method NormalizeTargets(raw: seq<TargetKey>) returns (targets: set<TargetKey>)
    ensures forall t :: t in targets <==> exists i :: 0 <= i < |raw| && NormalizeTarget(raw[i]) == Some(t)
  {
    hide *;
    targets := {};
    for i := 0 to |raw|
      invariant forall t :: t in targets <==> exists j :: 0 <= j < i && NormalizeTarget(raw[j]) == Some(t)
    {
      var t := NormalizeTarget(raw[i]);
      if t.Some? {
        targets := targets + {t.value};
      }
    }
  }

  /** A position's unrealised profit: its own answer, or from its prices. */
  function Profit(p: FuturesPosition): real {
    if p.pnl.Some? then p.pnl.value
    else if p.entry > 0.0 && p.mark > 0.0 then p.qty * (p.mark - p.entry)
    else 0.0
  }

  /** The route's names in normal form, if it is a futures route at all. */
  function RouteName(w: Wallet): Option<(string, string)> {
    var e, m := NormalizeExchange(w.exchange), NormalizeMarket(w.market);
    if w.market in FUTURES_ROUTES && e.Ok? && m.Ok? then Some((e.value, m.value)) else None
  }

  ghost predicate OnRoute(targets: set<TargetKey>, name: (string, string)) {
    exists t :: t in targets && t.exchange == name.0 && t.market == name.1
  }

  /** Some target lives on this route and its futures account has a balance. */
  ghost predicate IsTargetRoute(targets: set<TargetKey>, w: Wallet) {
    RouteName(w).Some? && OnRoute(targets, RouteName(w).value) && w.balance.Some?
  }

  predicate IsTargetPosition(targets: set<TargetKey>, name: (string, string), p: FuturesPosition) {
    TargetKey(name.0, name.1, Upper(Strip(p.symbol))) in targets
  }

  /** The profit of the positions that are targets, or of those that are not. */
  function ProfitOf(targets: set<TargetKey>, name: (string, string), positions: seq<FuturesPosition>, wanted: bool)
    : real
  {
    if positions == [] then 0.0
    else
      var p := positions[|positions| - 1];
      ProfitOf(targets, name, positions[..|positions| - 1], wanted)
      + if IsTargetPosition(targets, name, p) == wanted then Profit(p) else 0.0
  }

  ghost function TargetTotal(targets: set<TargetKey>, wallets: seq<Wallet>): real {
    if wallets == [] then 0.0
    else
      var w := wallets[|wallets| - 1];
      TargetTotal(targets, wallets[..|wallets| - 1])
      + (if IsTargetRoute(targets, w) then TargetWorth(targets, w) else 0.0)
  }

  ghost function TargetWorth(targets: set<TargetKey>, w: Wallet): real
    requires IsTargetRoute(targets, w)
  {
    w.balance.value + ProfitOf(targets, RouteName(w).value, w.positions, true)
  }

  /** What a position adds to its route, in plain terms: nothing if it is no target;
      else its own profit where it states one, what its prices say where both are
      positive, and nothing otherwise. */
  lemma PositionCounts(targets: set<TargetKey>, name: (string, string), positions: seq<FuturesPosition>,
                       p: FuturesPosition)
    ensures ProfitOf(targets, name, [], true) == 0.0
    ensures ProfitOf(targets, name, positions + [p], true) == ProfitOf(targets, name, positions, true)
              + if TargetKey(name.0, name.1, Upper(Strip(p.symbol))) !in targets then 0.0
                else if p.pnl.Some? then p.pnl.value
                else if p.entry > 0.0 && p.mark > 0.0 then p.qty * (p.mark - p.entry)
                else 0.0
    ensures TotalProfit(positions + [p]) == TotalProfit(positions)
              + if p.pnl.Some? then p.pnl.value
                else if p.entry > 0.0 && p.mark > 0.0 then p.qty * (p.mark - p.entry)
                else 0.0
  {
    hide Strip, Upper;
    assert (positions + [p])[..|positions|] == positions;
  }

  /** What a route adds to the watched balance, in plain terms: a futures route on a
      known exchange that some target lives on, and whose account has a balance,
      adds that balance and its targets' profit; any other route adds nothing. */
  lemma RouteCounts(targets: set<TargetKey>, wallets: seq<Wallet>, w: Wallet)
    ensures TargetTotal(targets, []) == 0.0
    ensures var exchange, market := Lower(Strip(w.exchange)), Lower(Strip(w.market));
            TargetTotal(targets, wallets + [w]) == TargetTotal(targets, wallets)
              + if w.market in {"perpetual_futures", "delivery_futures"}
                   && exchange in {"binance", "okx"} && market in {"spot", "perpetual_futures", "delivery_futures"}
                   && (exists t :: t in targets && t.exchange == exchange && t.market == market)
                   && w.balance.Some?
                then w.balance.value + ProfitOf(targets, (exchange, market), w.positions, true)
                else 0.0
    ensures MarginTotal([]) == 0.0
    ensures MarginTotal(wallets + [w]) == MarginTotal(wallets)
              + if w.market in {"perpetual_futures", "delivery_futures"} && w.margin.Some? then w.margin.value else 0.0
  {
    hide Strip, Lower, ProfitOf;
    assert (wallets + [w])[..|wallets|] == wallets;
  }

  /** Replacing one position changes a route's profit by the difference between the
      two. */
  lemma {:induction false} OnePositionChanges(targets: set<TargetKey>, name: (string, string),
                                              positions: seq<FuturesPosition>, i: nat, p: FuturesPosition)
    requires i < |positions|
    requires IsTargetPosition(targets, name, positions[i]) && IsTargetPosition(targets, name, p)
    ensures ProfitOf(targets, name, positions[i := p], true)
              == ProfitOf(targets, name, positions, true) - Profit(positions[i]) + Profit(p)
  {
    hide Profit, IsTargetPosition;
    var n := |positions| - 1;
    if i < n {
      OnePositionChanges(targets, name, positions[..n], i, p);
      assert positions[i := p][..n] == positions[..n][i := p];
    } else {
      assert positions[i := p][..n] == positions[..n];
    }
  }

  lemma ProfitDrops(p: FuturesPosition, d: real)
    requires p.pnl.None? && p.entry > 0.0 && p.mark > 0.0 && p.mark - d > 0.0
    ensures Profit(p.(mark := p.mark - d)) == Profit(p) - p.qty * d
  {
  }

  /** For a portfolio with one target route the watched balance falls by exactly what
      a target loses: when a position that states no profit of its own drops in price
      by `d`, by its quantity times `d`. */
  lemma PriceDropLowersBalance(account: Account, raw: seq<TargetKey>, w: Wallet, i: nat, d: real)
    returns (before: real)
    requires IsTargetRoute(KnownTargets(raw), w) && i < |w.positions|
    requires IsTargetPosition(KnownTargets(raw), RouteName(w).value, w.positions[i])
    requires var p := w.positions[i]; p.pnl.None? && p.entry > 0.0 && p.mark > 0.0 && p.mark - d > 0.0
    ensures WatchedBalance(account.(routes := Some([w])), raw) == Ok(before)
    ensures var p := w.positions[i]; var lower := w.(positions := w.positions[i := p.(mark := p.mark - d)]);
            WatchedBalance(account.(routes := Some([lower])), raw) == Ok(before - p.qty * d)
  {
    hide *;
    var targets, p := KnownTargets(raw), w.positions[i];
    var q := p.(mark := p.mark - d);
    var lower := w.(positions := w.positions[i := q]);
    SameRoute(targets, w, lower);
    SamePlace(targets, RouteName(w).value, p, q);
    OnePositionChanges(targets, RouteName(w).value, w.positions, i, q);
    ProfitDrops(p, d);
    OneRoute(account, raw, w);
    OneRoute(account, raw, lower);
    before := w.balance.value + ProfitOf(targets, RouteName(w).value, w.positions, true);
  }

  lemma SameRoute(targets: set<TargetKey>, w: Wallet, other: Wallet)
    requires IsTargetRoute(targets, w) && other == w.(positions := other.positions)
    ensures IsTargetRoute(targets, other) && RouteName(other) == RouteName(w) && RouteName(w).Some? && w.balance.Some?
  {
    hide NormalizeExchange, NormalizeMarket;
  }

  lemma SamePlace(targets: set<TargetKey>, name: (string, string), p: FuturesPosition, q: FuturesPosition)
    requires IsTargetPosition(targets, name, p) && q.symbol == p.symbol
    ensures IsTargetPosition(targets, name, q)
  {
  }

  lemma OneRoute(account: Account, raw: seq<TargetKey>, w: Wallet)
    requires IsTargetRoute(KnownTargets(raw), w)
    ensures RouteName(w).Some? && w.balance.Some?
    ensures WatchedBalance(account.(routes := Some([w])), raw)
              == Ok(w.balance.value + ProfitOf(KnownTargets(raw), RouteName(w).value, w.positions, true))
  {
    hide RouteName, OnRoute, KnownTargets, ProfitOf;
    var targets, a := KnownTargets(raw), account.(routes := Some([w]));
    assert [w][..0] == [];
    assert TargetTotal(targets, [w]) == TargetTotal(targets, []) + TargetWorth(targets, w);
    assert Watched(targets, a) by {
      assert IsTargetRoute(targets, a.routes.value[0]);
    }
  }

  /** Whether any target is on the route. */
  method HasTargetOnRoute(targets: set<TargetKey>, name: (string, string)) returns (any: bool)
    ensures any <==> OnRoute(targets, name)
  {
    hide NormalizeExchange, NormalizeMarket;
    var left := targets;
    while left != {}
      invariant left <= targets
      invariant forall t :: t in targets - left ==> t.exchange != name.0 || t.market != name.1
    {
      var t :| t in left;
      if t.exchange == name.0 && t.market == name.1 {
        return true;
      }
      left := left - {t};
    }
    return false;
  }

  /** The route's balance plus the profit of its target positions. */
  method RouteValue(targets: set<TargetKey>, name: (string, string), balance: real, positions: seq<FuturesPosition>)
    returns (value: real)
    ensures value == balance + ProfitOf(targets, name, positions, true)
  {
    hide IsTargetPosition;
    value := balance;
    for i := 0 to |positions|
      invariant value == balance + ProfitOf(targets, name, positions[..i], true)
    {
      assert positions[..i + 1][..i] == positions[..i];
      var p := positions[i];
      if !IsTargetPosition(targets, name, p) {
        continue;
      }
      if p.pnl.Some? {
        value := value + p.pnl.value;
        continue;
      }
      if p.entry > 0.0 && p.mark > 0.0 {
        value := value + p.qty * (p.mark - p.entry);
      }
    }
    assert positions[..|positions|] == positions;
  }

  // ----- the portfolio-wide balance -----

  /** The margin balances of all futures routes that have one. */
  function MarginTotal(wallets: seq<Wallet>): real {
    if wallets == [] then 0.0
    else
      var w := wallets[|wallets| - 1];
      MarginTotal(wallets[..|wallets| - 1])
      + if w.market in FUTURES_ROUTES && w.margin.Some? then w.margin.value else 0.0
  }

  ghost predicate HasMargin(wallets: seq<Wallet>) {
    exists i :: 0 <= i < |wallets| && wallets[i].market in FUTURES_ROUTES && wallets[i].margin.Some?
  }

  /** Sums the futures routes, or asks the account itself. */
  method WalletMarginBalance(account: Account) returns (r: Result<real>)
    ensures r == WholeBalance(account)
    ensures var margins :=
              && account.routes.Some?
              && (exists i :: 0 <= i < |account.routes.value|
                              && account.routes.value[i].market in {"perpetual_futures", "delivery_futures"}
                              && account.routes.value[i].margin.Some?);
            && (margins ==> r == Ok(MarginTotal(account.routes.value)))
            && (!margins && account.ownMargin.Some? ==> r == Ok(account.ownMargin.value))
            && (!margins && account.ownMargin.None? && account.futuresMargin.Some? ==>
                  r == Ok(account.futuresMargin.value))
            && (!margins && account.ownMargin.None? && account.futuresMargin.None? ==>
                  if account.totalValue.Some? then r == Ok(account.totalValue.value) else r.Raised?)
  {
    if account.routes.Some? {
      var wallets := account.routes.value;
      var total, found := 0.0, false;
      for i := 0 to |wallets|
        invariant total == MarginTotal(wallets[..i])
        invariant found <==> exists j :: 0 <= j < i && wallets[j].market in FUTURES_ROUTES && wallets[j].margin.Some?
      {
        assert wallets[..i + 1][..i] == wallets[..i];
        if wallets[i].market in FUTURES_ROUTES && wallets[i].margin.Some? {
          total := total + wallets[i].margin.value;
          found := true;
        }
      }
      assert wallets[..|wallets|] == wallets;
      if found {
        return Ok(total);
      }
    }
    return OwnBalance(account);
  }

  /** What the account answers itself, best answer first. */
  function OwnBalance(account: Account): Result<real> {
    if account.ownMargin.Some? then Ok(account.ownMargin.value)
    else if account.futuresMargin.Some? then Ok(account.futuresMargin.value)
    else if account.totalValue.Some? then Ok(account.totalValue.value)
    else Raised("margin_balance unavailable")
  }

  // ----- the targets' balance -----

  ghost predicate Watched(targets: set<TargetKey>, account: Account) {
    && account.routes.Some?
    && exists i :: 0 <= i < |account.routes.value| && IsTargetRoute(targets, account.routes.value[i])
  }

  /** The balance without regard to targets. */
  ghost function WholeBalance(account: Account): Result<real> {
    if account.routes.Some? && HasMargin(account.routes.value) then Ok(MarginTotal(account.routes.value))
    else OwnBalance(account)
  }

  /** The balance of the target routes, if there is one; the portfolio-wide
      balance otherwise. */
  ghost function WatchedBalance(account: Account, raw: seq<TargetKey>): Result<real> {
    if Watched(KnownTargets(raw), account) then Ok(TargetTotal(KnownTargets(raw), account.routes.value))
    else WholeBalance(account)
  }

  /** The watched balance in plain terms: the target routes' total if there is one;
      else the futures routes' margins if any has one; else the account's own answer,
      its futures account's, or its total value; else an error. */
  lemma WatchedInPlainTerms(account: Account, raw: seq<TargetKey>)
    ensures var routes := if account.routes.Some? then account.routes.value else [];
            var b := WatchedBalance(account, raw);
            if exists i :: 0 <= i < |routes| && IsTargetRoute(KnownTargets(raw), routes[i])
            then b == Ok(TargetTotal(KnownTargets(raw), routes))
            else if exists i :: 0 <= i < |routes| && routes[i].margin.Some?
                                && routes[i].market in {"perpetual_futures", "delivery_futures"}
            then b == Ok(MarginTotal(routes))
            else if account.ownMargin.Some? then b == Ok(account.ownMargin.value)
            else if account.futuresMargin.Some? then b == Ok(account.futuresMargin.value)
            else if account.totalValue.Some? then b == Ok(account.totalValue.value)
            else b.Raised?
  {
    hide IsTargetRoute, KnownTargets, TargetTotal, MarginTotal;
  }

  /** The guard's balance, route by route. */
  method TargetCloseMarginBalance(account: Account, raw: seq<TargetKey>)
    returns (r: Result<real>)
    ensures r == WatchedBalance(account, raw)
  {
    hide NormalizeTarget, RouteName, OnRoute, HasMargin, MarginTotal, OwnBalance;
    var normalized := NormalizeTargets(raw);
    assert normalized == KnownTargets(raw);
    if normalized != {} && account.routes.Some? {
      var total, found := SumTargetRoutes(normalized, account.routes.value);
      if found {
        return Ok(total);
      }
    } else if normalized == {} {
      NoTargetsNoRoute();
    }
    r := WalletMarginBalance(account);
  }

  lemma NoTargetsNoRoute()
    ensures forall w :: !IsTargetRoute({}, w)
  {
  }

  method SumTargetRoutes(targets: set<TargetKey>, wallets: seq<Wallet>) returns (total: real, found: bool)
    ensures total == TargetTotal(targets, wallets)
    ensures found <==> exists i :: 0 <= i < |wallets| && IsTargetRoute(targets, wallets[i])
  {
    hide RouteName, OnRoute, ProfitOf;
    total, found := 0.0, false;
    for i := 0 to |wallets|
      invariant total == TargetTotal(targets, wallets[..i])
      invariant found <==> exists j :: 0 <= j < i && IsTargetRoute(targets, wallets[j])
    {
      assert wallets[..i + 1][..i] == wallets[..i];
      var w := wallets[i];
      var name := RouteName(w);
      if name.None? {
        continue;
      }
      var any := HasTargetOnRoute(targets, name.value);
      if !any || w.balance.None? {
        continue;
      }
      var value := RouteValue(targets, name.value, w.balance.value, w.positions);
      total := total + value;
      found := true;
    }
    assert wallets[..|wallets|] == wallets;
  }

  // ----- what the watched balance leaves out -----

  function TotalProfit(positions: seq<FuturesPosition>): real {
    if positions == [] then 0.0
    else TotalProfit(positions[..|positions| - 1]) + Profit(positions[|positions| - 1])
  }

  /** Every position counts on exactly one side. */
  lemma {:induction false} ProfitSplits(targets: set<TargetKey>, name: (string, string),
                                        positions: seq<FuturesPosition>)
    ensures ProfitOf(targets, name, positions, true) + ProfitOf(targets, name, positions, false)
         == TotalProfit(positions)
  {
    hide Profit, IsTargetPosition;
    if positions != [] {
      ProfitSplits(targets, name, positions[..|positions| - 1]);
    }
  }

  /** A route account whose margin balance is its wallet balance plus all of its
      unrealised profit. */
  ghost predicate Consistent(w: Wallet) {
    w.market in FUTURES_ROUTES ==>
      w.balance.Some? && w.margin == Some(w.balance.value + TotalProfit(w.positions))
  }

  /** The futures value that is not the session's: other routes as a whole, and
      other positions on the target routes. */
  ghost function OthersTotal(targets: set<TargetKey>, wallets: seq<Wallet>): real {
    if wallets == [] then 0.0
    else
      var w := wallets[|wallets| - 1];
      OthersTotal(targets, wallets[..|wallets| - 1])
      + if IsTargetRoute(targets, w) then ProfitOf(targets, RouteName(w).value, w.positions, false)
        else if w.market in FUTURES_ROUTES && w.margin.Some? then w.margin.value else 0.0
  }

  /** The watched balance and everything else make up the portfolio-wide balance:
      the guard sees each futures account's balance and each target's profit once,
      and no other position's profit at all. */
  lemma {:induction false} MarginSplits(targets: set<TargetKey>, wallets: seq<Wallet>)
    requires forall i :: 0 <= i < |wallets| ==> Consistent(wallets[i])
    ensures MarginTotal(wallets) == TargetTotal(targets, wallets) + OthersTotal(targets, wallets)
  {
    if wallets != [] {
      var w := wallets[|wallets| - 1];
      MarginSplits(targets, wallets[..|wallets| - 1]);
      assert Consistent(w);
      if IsTargetRoute(targets, w) {
        RouteNameIsFutures(w);
        ProfitSplits(targets, RouteName(w).value, w.positions);
      }
      hide IsTargetRoute, ProfitOf, RouteName, TotalProfit;
    }
  }

  lemma RouteNameIsFutures(w: Wallet)
    ensures RouteName(w).Some? ==> w.market in FUTURES_ROUTES
  {
    hide NormalizeExchange, NormalizeMarket;
  }

  /** The target positions of a route, in order. */
  function TargetsAmong(targets: set<TargetKey>, name: (string, string), positions: seq<FuturesPosition>)
    : seq<FuturesPosition>
  {
    if positions == [] then []
    else
      var p := positions[|positions| - 1];
      TargetsAmong(targets, name, positions[..|positions| - 1])
      + if IsTargetPosition(targets, name, p) then [p] else []
  }

  /** A portfolio with everything else taken out: the target routes, with their
      balances and their target positions. */
  ghost function TargetPart(targets: set<TargetKey>, wallets: seq<Wallet>): seq<Wallet> {
    if wallets == [] then []
    else
      var w := wallets[|wallets| - 1];
      TargetPart(targets, wallets[..|wallets| - 1])
      + if IsTargetRoute(targets, w) then [KeptPart(targets, w)] else []
  }

  ghost function KeptPart(targets: set<TargetKey>, w: Wallet): Wallet
    requires IsTargetRoute(targets, w)
  {
    w.(margin := None, positions := TargetsAmong(targets, RouteName(w).value, w.positions))
  }

  lemma KeptPartIsWorthTheSame(targets: set<TargetKey>, w: Wallet)
    requires IsTargetRoute(targets, w)
    ensures IsTargetRoute(targets, KeptPart(targets, w))
    ensures TargetWorth(targets, KeptPart(targets, w)) == TargetWorth(targets, w)
  {
    assert RouteName(KeptPart(targets, w)) == RouteName(w);
    hide RouteName, OnRoute, ProfitOf, TargetsAmong;
    ProfitOfTargetsAmong(targets, RouteName(w).value, w.positions);
  }

  lemma TargetTotalSnoc(targets: set<TargetKey>, wallets: seq<Wallet>, w: Wallet)
    requires IsTargetRoute(targets, w)
    ensures TargetTotal(targets, wallets + [w]) == TargetTotal(targets, wallets) + TargetWorth(targets, w)
  {
    hide IsTargetRoute, TargetWorth;
    assert (wallets + [w])[..|wallets|] == wallets;
  }

  lemma {:induction false} ProfitOfTargetsAmong(targets: set<TargetKey>, name: (string, string),
                                                positions: seq<FuturesPosition>)
    ensures ProfitOf(targets, name, TargetsAmong(targets, name, positions), true)
         == ProfitOf(targets, name, positions, true)
  {
    hide IsTargetPosition, Profit;
    if positions != [] {
      var before, p := positions[..|positions| - 1], positions[|positions| - 1];
      ProfitOfTargetsAmong(targets, name, before);
      if IsTargetPosition(targets, name, p) {
        assert (TargetsAmong(targets, name, before) + [p])[..|TargetsAmong(targets, name, before)|]
            == TargetsAmong(targets, name, before);
      } else {
        assert TargetsAmong(targets, name, positions) == TargetsAmong(targets, name, before);
      }
    }
  }

  lemma {:induction false} WatchedIsTargetPart(targets: set<TargetKey>, wallets: seq<Wallet>)
    ensures TargetTotal(targets, TargetPart(targets, wallets)) == TargetTotal(targets, wallets)
  {
    if wallets != [] {
      hide IsTargetRoute, TargetWorth, KeptPart;
      var before, w := wallets[..|wallets| - 1], wallets[|wallets| - 1];
      WatchedIsTargetPart(targets, before);
      if IsTargetRoute(targets, w) {
        KeptPartIsWorthTheSame(targets, w);
        TargetTotalSnoc(targets, TargetPart(targets, before), KeptPart(targets, w));
      } else {
        assert TargetPart(targets, before) + [] == TargetPart(targets, before);
      }
    }
  }

  lemma {:induction false} PartOfWatched(targets: set<TargetKey>, wallets: seq<Wallet>)
    ensures TargetPart(targets, wallets) != [] <==> exists i :: 0 <= i < |wallets| && IsTargetRoute(targets, wallets[i])
  {
    hide IsTargetRoute, KeptPart;
    if wallets != [] {
      var n := |wallets| - 1;
      PartOfWatched(targets, wallets[..n]);
      assert forall i :: 0 <= i < n ==> wallets[..n][i] == wallets[i];
    }
  }

  /** Whatever else a portfolio holds, on whatever routes, and however many other
      positions there are: portfolios with the same target part are watched at the
      same balance. */
  lemma OtherPositionsDoNotMatter(targets: set<TargetKey>, a: seq<Wallet>, b: seq<Wallet>)
    requires TargetPart(targets, a) == TargetPart(targets, b)
    ensures TargetTotal(targets, a) == TargetTotal(targets, b)
    ensures (exists i :: 0 <= i < |a| && IsTargetRoute(targets, a[i])) <==>
            (exists i :: 0 <= i < |b| && IsTargetRoute(targets, b[i]))
  {
    WatchedIsTargetPart(targets, a);
    WatchedIsTargetPart(targets, b);
    PartOfWatched(targets, a);
    PartOfWatched(targets, b);
  }
}
