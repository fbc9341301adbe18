/** From a declared input to the bars a strategy sees: the storage market a
    stream is read under, the way back from a bar to the declared market, and
    the router that hands ticks to strategies. */
module Routing {
  import opened Prelude
  import opened Text
  import opened Inputs
  import opened StableMerge

  const SPOT := "spot"
  const FUTURES := "futures"
  const PERPETUAL := "perpetual_futures"
  const DELIVERY := "delivery_futures"
  const BINANCE := "binance"

  /** The market name the stored bars use. */
  function StorageMarket(market: string): string {
    var key := Lower(Strip(market));
    if key == PERPETUAL then FUTURES else key
  }

  predicate Clean(market: string) { market != "" && Lower(Strip(market)) == market }

  /** Two markets share a storage name only if they are the same or are the pair
      of perpetual futures and the storage name itself. */
  lemma StorageCollision(a: string, b: string)
    requires Clean(a) && Clean(b)
    ensures StorageMarket(a) == StorageMarket(b) <==>
              a == b || (a == FUTURES && b == PERPETUAL) || (a == PERPETUAL && b == FUTURES)
  {
    hide Lower, Strip;
  }

  /** Only perpetual futures are stored under another name. */
  lemma StorageNames(market: string)
    requires Clean(market)
    ensures StorageMarket(market) == if market == "perpetual_futures" then "futures" else market
    ensures Clean(market) <==> market != "" && Lower(Strip(market)) == market
  {
    hide Lower, Strip;
  }

  datatype StreamKey = StreamKey(market: string, symbol: string, interval: string)

  /** How streams and bars are told apart; a blank interval stands for one minute. */
  function StreamKeyOf(market: string, symbol: string, interval: string): StreamKey {
    var i := Strip(interval);
    StreamKey(Lower(Strip(market)), Upper(Strip(symbol)), if i == "" then "1m" else i)
  }

  /** A replayed bar; a missing field is the empty string. */
  datatype Kline = Kline(market: string, symbol: string, interval: string, row: Row)

  function StreamOf(d: Key): StreamKey { StreamKeyOf(StorageMarket(d.market), d.symbol, d.interval) }

  /** A declared input: the parts are in normal form, whatever the market. */
  predicate NormalParts(d: Key) {
    Clean(d.market) && NormalizeSymbol(d.symbol) == Ok(d.symbol) && NormalizeInterval(d.interval) == Ok(d.interval)
  }

  predicate IsNormal(d: Key) { NormalizeKey(d.exchange, d.market, d.symbol, d.interval) == Ok(d) }

  lemma NormalKeyParts(d: Key)
    requires IsNormal(d)
    ensures NormalParts(d) && d.market in SUPPORTED_MARKETS && NormalizeMarket(d.market) == Ok(d.market)
    ensures d.exchange in SUPPORTED_EXCHANGES
  {
    hide Strip, Lower, Upper;
  }

  /** What a stream key of a declared input looks like. */
  lemma StreamOfNormal(d: Key)
    requires NormalParts(d)
    ensures StreamOf(d) == StreamKey(StorageMarket(d.market), d.symbol, d.interval)
    ensures StorageMarket(d.market) != ""
  {
    assert Strip(FUTURES) == FUTURES;
    assert Lower(FUTURES) == FUTURES;
    hide Strip, Lower, Upper;
  }

  /** The declared market by stream key, later inputs overwriting earlier ones. */
  function Canonical(declared: seq<Key>): map<StreamKey, string> {
    if declared == [] then map[]
    else
      var d := declared[|declared| - 1];
      Canonical(declared[..|declared| - 1])[StreamOf(d) := if d.market == "" then StorageMarket(d.market) else d.market]
  }

  lemma {:induction false} CanonicalValues(declared: seq<Key>, k: StreamKey)
    requires forall i :: 0 <= i < |declared| ==> declared[i].market != ""
    ensures k in Canonical(declared) <==> exists i :: 0 <= i < |declared| && StreamOf(declared[i]) == k
    ensures k in Canonical(declared) ==>
              exists i :: 0 <= i < |declared| && StreamOf(declared[i]) == k
                          && declared[i].market == Canonical(declared)[k]
  {
    hide StreamOf;
    if declared != [] {
      var n := |declared| - 1;
      var before := declared[..n];
      CanonicalValues(before, k);
      if k != StreamOf(declared[n]) && k in Canonical(before) {
        var i :| 0 <= i < n && StreamOf(before[i]) == k && before[i].market == Canonical(before)[k];
        assert declared[i] == before[i];
      }
      if i :| 0 <= i < n && StreamOf(declared[i]) == k {
        assert before[i] == declared[i];
      }
    }
  }

  /** Two inputs that differ only in being perpetual futures or "futures". */
  ghost predicate Clash(declared: seq<Key>) {
    exists i, j :: 0 <= i < |declared| && 0 <= j < |declared| &&
      declared[i].market == FUTURES && declared[j].market == PERPETUAL &&
      declared[i].symbol == declared[j].symbol && declared[i].interval == declared[j].interval
  }

  predicate AllNormalParts(declared: seq<Key>) { forall i :: 0 <= i < |declared| ==> NormalParts(declared[i]) }

  ghost predicate MapsBack(declared: seq<Key>) {
    forall i :: 0 <= i < |declared| ==>
      StreamOf(declared[i]) in Canonical(declared) && Canonical(declared)[StreamOf(declared[i])] == declared[i].market
  }

  /** Inputs with the same stream key have the same market, unless they clash. */
  lemma SameStream(a: Key, b: Key)
    requires NormalParts(a) && NormalParts(b)
    ensures StreamOf(a) == StreamOf(b) <==>
              a.symbol == b.symbol && a.interval == b.interval &&
              (a.market == b.market || (a.market == FUTURES && b.market == PERPETUAL)
                                    || (a.market == PERPETUAL && b.market == FUTURES))
  {
    StreamOfNormal(a);
    StreamOfNormal(b);
    StorageCollision(a.market, b.market);
    hide *;
  }

  /** Every bar finds its declared market again exactly if no two inputs clash. */
  lemma MapsBackIffNoClash(declared: seq<Key>)
    requires AllNormalParts(declared)
    ensures MapsBack(declared) <==> !Clash(declared)
  {
    hide StreamOf, NormalizeSymbol, NormalizeInterval, Strip, Lower, Upper, Canonical;
    if !Clash(declared) {
      forall i | 0 <= i < |declared|
        ensures StreamOf(declared[i]) in Canonical(declared)
        ensures Canonical(declared)[StreamOf(declared[i])] == declared[i].market
      {
        CanonicalValues(declared, StreamOf(declared[i]));
        var j :| 0 <= j < |declared| && StreamOf(declared[j]) == StreamOf(declared[i])
                 && declared[j].market == Canonical(declared)[StreamOf(declared[i])];
        SameStream(declared[i], declared[j]);
      }
    } else {
      var i, j :| 0 <= i < |declared| && 0 <= j < |declared| &&
        declared[i].market == FUTURES && declared[j].market == PERPETUAL &&
        declared[i].symbol == declared[j].symbol && declared[i].interval == declared[j].interval;
      SameStream(declared[i], declared[j]);
      assert FUTURES != PERPETUAL;
    }
  }

  lemma SupportedNeverClash(declared: seq<Key>)
    requires forall i :: 0 <= i < |declared| ==> IsNormal(declared[i])
    ensures AllNormalParts(declared) && !Clash(declared)
  {
    hide IsNormal, NormalParts;
    assert FUTURES !in SUPPORTED_MARKETS;
    forall i | 0 <= i < |declared| ensures NormalParts(declared[i]) && declared[i].market != FUTURES {
      NormalKeyParts(declared[i]);
    }
  }

  // ----- from a bar to the tick that is routed -----

  function CanonicalMarketForKline(k: Kline, canonical: map<StreamKey, string>): Option<string> {
    var key := StreamKeyOf(k.market, k.symbol, k.interval);
    if key in canonical && canonical[key] != "" then Some(canonical[key])
    else if Strip(k.market) != "" then Some(Lower(Strip(k.market)))
    else None
  }

  /** The tick made of a bar. It names no exchange. */
  function Adapt(k: Kline, market: Option<string>): Tick {
    var resolved := if market.Some? then market.value
                    else if Strip(k.market) != "" then Lower(Strip(k.market)) else FUTURES;
    Tick(None, resolved, k.symbol, Some(Strip(if k.interval == "" then "1m" else k.interval)),
         k.row.bar as real, k.row.openTime)
  }

  /** The router key of a tick; unlike a declared key, blank symbols and intervals
      pass. */
  function RouteOf(t: Tick): Result<Key> {
    var e := NormalizeExchange(if t.exchange.Some? then t.exchange.value else BINANCE);
    if e.Raised? then Raised(e.error) else
    var m := NormalizeMarket(t.market);
    if m.Raised? then Raised(m.error) else
    Ok(Key(e.value, m.value, Upper(Strip(t.symbol)), Strip(if t.interval.Some? then t.interval.value else "")))
  }

  /** A bar's tick in plain terms: the market of its stream if that is known, else the
      market it names itself, else futures; its own symbol, price and time; and one
      minute for a missing interval. */
  lemma TickInPlainTerms(k: Kline, canonical: map<StreamKey, string>)
    ensures var i := Strip(k.interval);
            var stream := StreamKey(Lower(Strip(k.market)), Upper(Strip(k.symbol)), if i == "" then "1m" else i);
            var t := Adapt(k, CanonicalMarketForKline(k, canonical));
            && t.market == (if stream in canonical && canonical[stream] != "" then canonical[stream]
                            else if Strip(k.market) != "" then Lower(Strip(k.market)) else "futures")
            && t.exchange == None && t.symbol == k.symbol
            && t.interval == Some(Strip(if k.interval == "" then "1m" else k.interval))
            && t.price == k.row.bar as real && t.timestamp == k.row.openTime
  {
    hide Strip, Lower, Upper;
  }

  /** A tick's route in plain terms. */
  lemma RouteInPlainTerms(t: Tick)
    ensures var e := Lower(Strip(if t.exchange.Some? then t.exchange.value else "binance"));
            RouteOf(t) ==
              if e !in {"binance", "okx"} then Raised("unsupported exchange")
              else if Lower(Strip(t.market)) !in {"spot", "perpetual_futures", "delivery_futures"}
              then Raised("unsupported market")
              else Ok(Key(e, Lower(Strip(t.market)), Upper(Strip(t.symbol)),
                          Strip(if t.interval.Some? then t.interval.value else "")))
  {
    hide Strip, Lower, Upper;
  }

  function BarTick(k: Kline, declared: seq<Key>): Tick {
    Adapt(k, CanonicalMarketForKline(k, Canonical(declared)))
  }

  /** The bar comes from the stream of input `d`, up to case and spaces. */
  predicate Echoes(k: Kline, d: Key) { StreamKeyOf(k.market, k.symbol, k.interval) == StreamOf(d) }

  lemma BinanceIsNormal()
    ensures NormalizeExchange(BINANCE) == Ok(BINANCE) && Strip("1m") == "1m"
  {
    assert Strip(BINANCE) == BINANCE;
    assert Lower(BINANCE) == BINANCE;
  }

  /** A replayed bar is routed under exactly the key of the input its stream was
      declared by, if that input is on binance and the bar's interval, where it
      has one, is not blank; and only then. */
  lemma RoutedUnderItsOwnKey(declared: seq<Key>, i: nat, k: Kline)
    requires forall j :: 0 <= j < |declared| ==> IsNormal(declared[j])
    requires i < |declared| && Echoes(k, declared[i])
    ensures RouteOf(BarTick(k, declared)) == Ok(declared[i]) <==>
              declared[i].exchange == BINANCE && (k.interval == "" || Strip(k.interval) != "")
  {
    var d := declared[i];
    hide Canonical, StreamOf, Lower, Upper, NormalizeExchange, NormalizeMarket, Strip, IsNormal, AllNormalParts,
      Clash, MapsBack, StorageMarket;
    FindsItsMarket(declared, i, k);
    NormalKeyParts(d);
    StreamOfNormal(d);
    BinanceIsNormal();
    StripIdempotent(k.interval);
    assert StreamKeyOf(k.market, k.symbol, k.interval) == StreamKey(StorageMarket(d.market), d.symbol, d.interval);
  }

  lemma FindsItsMarket(declared: seq<Key>, i: nat, k: Kline)
    requires forall j :: 0 <= j < |declared| ==> IsNormal(declared[j])
    requires i < |declared| && Echoes(k, declared[i])
    ensures CanonicalMarketForKline(k, Canonical(declared)) == Some(declared[i].market)
  {
    hide Canonical, StreamOf, StreamKeyOf, IsNormal, AllNormalParts, Clash;
    SupportedNeverClash(declared);
    MapsBackIffNoClash(declared);
    NormalKeyParts(declared[i]);
  }

  /** If the storage name itself could be declared beside perpetual futures, bars
      of one of the two would be routed under the other. */
  lemma ClashMisroutes()
    ensures var declared := [Key(BINANCE, PERPETUAL, "B", "1m"), Key(BINANCE, FUTURES, "B", "1m")];
            AllNormalParts(declared) && !MapsBack(declared)
  {
    var declared := [Key(BINANCE, PERPETUAL, "B", "1m"), Key(BINANCE, FUTURES, "B", "1m")];
    PlainMarkets();
    PlainSymbols();
    hide Strip, Lower, Upper, Canonical, StreamOf;
    assert NormalParts(declared[0]) && NormalParts(declared[1]);
    assert declared[1].market == FUTURES && declared[0].market == PERPETUAL;
    MapsBackIffNoClash(declared);
  }

  lemma PlainMarkets()
    ensures Lower(Strip(PERPETUAL)) == PERPETUAL && Lower(Strip(FUTURES)) == FUTURES
  {
    hide Lower, Strip;
    StaysLower(PERPETUAL);
    StaysLower(FUTURES);
  }

  lemma StaysLower(s: string)
    requires s != [] && forall c :: c in s ==> c == '_' || 'a' <= c <= 'z'
    ensures Lower(Strip(s)) == s
  {
    assert s[0] in s && s[|s| - 1] in s;
    assert Strip(s) == s;
    assert forall i :: 0 <= i < |s| ==> s[i] in s;
    assert Lower(s) == s;
  }

  lemma PlainSymbols()
    ensures Upper(Strip("B")) == "B" && Strip("1m") == "1m"
  {
    assert Strip("B") == "B" && Upper("B") == "B";
  }

  /** Recovering the market from the bar gives the tick that remembering it by
      stream position gives. */
  lemma MarketByPositionAgrees(declared: seq<Key>, i: nat, k: Kline)
    requires AllNormalParts(declared) && !Clash(declared)
    requires i < |declared| && Echoes(k, declared[i])
    ensures BarTick(k, declared) == Adapt(k, Some(declared[i].market))
  {
    MapsBackIffNoClash(declared);
    hide Canonical, StreamOf, Strip, Lower, Upper, Clash;
  }

  // ----- the router -----

  datatype OrderUpdate = OrderUpdate(sessionId: string, eventId: int)

  /** A running strategy, as far as the engine sees it: what it declared, its
      session, and what it has been handed. */
  class BaseStrategy {
    const inputs: seq<Key>
    const sessionId: string
    var received: seq<Tick>
    var updates: seq<OrderUpdate>

    constructor (inputs: seq<Key>, sessionId: string)
      ensures this.inputs == inputs && this.sessionId == sessionId
      ensures received == [] && updates == []
    {
      this.inputs, this.sessionId := inputs, sessionId;
      received, updates := [], [];
    }

    method Run(t: Tick)
      modifies this
      ensures received == old(received) + [t] && updates == old(updates)
    {
      received := received + [t];
    }

    method HandleOrderUpdate(event: OrderUpdate)
      modifies this
      ensures updates == old(updates) + [event] && received == old(received)
    {
      updates := updates + [event];
    }
  }

  /** The last of the strategies, in the order they were created, that declares
      the key. */
  function LastDeclarer(created: seq<BaseStrategy>, k: Key): Option<BaseStrategy> {
    if created == [] then None
    else if k in created[|created| - 1].inputs then Some(created[|created| - 1])
    else LastDeclarer(created[..|created| - 1], k)
  }

  lemma LastDeclarerSnoc(created: seq<BaseStrategy>, s: BaseStrategy, k: Key)
    ensures LastDeclarer(created + [s], k) == if k in s.inputs then Some(s) else LastDeclarer(created, k)
  {
    assert (created + [s])[..|created|] == created;
  }

  lemma {:induction false} LastDeclarerIsCreated(created: seq<BaseStrategy>, k: Key)
    ensures LastDeclarer(created, k).Some? ==>
              LastDeclarer(created, k).value in created && k in LastDeclarer(created, k).value.inputs
    ensures LastDeclarer(created, k).None? <==> forall s :: s in created ==> k !in s.inputs
  {
    if created != [] {
      var before := created[..|created| - 1];
      LastDeclarerIsCreated(before, k);
      assert created == before + [created[|created| - 1]];
    }
  }

  ghost predicate RouterExact(router: map<Key, BaseStrategy>, created: seq<BaseStrategy>) {
    forall k :: (if k in router then Some(router[k]) else None) == LastDeclarer(created, k)
  }

  ghost predicate OnePerUser(strategies: map<string, BaseStrategy>, created: seq<BaseStrategy>) {
    && (forall u :: u in strategies ==> strategies[u] in created)
    && (forall u, v :: u in strategies && v in strategies && u != v ==> strategies[u] != strategies[v])
  }

  /** A strategy is current after a creation if it is the new one, or was current
      and not the one replaced. */
  lemma CurrentAfter(strategies: map<string, BaseStrategy>, userId: string, s: BaseStrategy,
                     created: seq<BaseStrategy>, other: Option<BaseStrategy>)
    requires OnePerUser(strategies, created)
    ensures s in strategies[userId := s].Values
    ensures other.Some? && other.value != s ==>
              (other.value in strategies[userId := s].Values <==>
                 other.value in strategies.Values && !(userId in strategies && other.value == strategies[userId]))
  {
    var after := strategies[userId := s];
    assert after[userId] == s;
    if other.Some? && other.value != s {
      var o := other.value;
      if o in strategies.Values && !(userId in strategies && o == strategies[userId]) {
        var u :| u in strategies && strategies[u] == o;
        assert after[u] == o;
      }
      if o in after.Values {
        var u :| u in after && after[u] == o;
        assert strategies[u] == o;
      }
    }
  }

  /** The strategies by user and the router by key. `created` is every strategy
      ever created here, including those replaced since. */
  class StrategyEngine {
    var strategies: map<string, BaseStrategy>
    var router: map<Key, BaseStrategy>
    ghost var created: seq<BaseStrategy>

    ghost predicate Valid()
      reads this
    {
      RouterExact(router, created) && OnePerUser(strategies, created)
    }

    constructor ()
      ensures Valid() && created == []
    {
      strategies, router, created := map[], map[], [];
    }

    /** The key still leads to a strategy that is no user's strategy any more. */
    ghost predicate Stale(k: Key)
      reads this
    {
      k in router && router[k] !in strategies.Values
    }

    /** A key leads to a current strategy exactly if the last one that declared it
        is current. */
    lemma StaleIffLastDeclarerReplaced(k: Key)
      requires Valid()
      ensures Stale(k) <==> LastDeclarer(created, k).Some? && LastDeclarer(created, k).value !in strategies.Values
    {
      assert (if k in router then Some(router[k]) else None) == LastDeclarer(created, k);
    }

    /** A new strategy takes over every key it declares and, under its user, the
        place of the one before. A key is stale afterwards exactly if the new one
        does not declare it and it was stale before or led to the strategy that
        is replaced now. */
    method CreateStrategy(userId: string, inputs: seq<Key>, sessionId: string) returns (s: BaseStrategy)
      requires Valid()
      modifies this
      ensures Valid() && created == old(created) + [s]
      ensures fresh(s) && s.inputs == inputs && s.sessionId == sessionId && s.received == [] && s.updates == []
      ensures strategies == old(strategies)[userId := s]
      ensures forall k :: Stale(k) <==>
                k !in inputs && k in old(router)
                && (old(Stale(k)) || (userId in old(strategies) && old(router)[k] == old(strategies)[userId]))
    {
      s := new BaseStrategy(inputs, sessionId);
      strategies := strategies[userId := s];
      ghost var before := router;
      for i := 0 to |inputs|
        invariant forall k :: k in router <==> k in before || k in inputs[..i]
        invariant forall k :: k in router ==> router[k] == if k in inputs[..i] then s else before[k]
        invariant strategies == old(strategies)[userId := s] && created == old(created) && before == old(router)
        invariant s.received == [] && s.updates == []
      {
        assert inputs[..i + 1] == inputs[..i] + [inputs[i]];
        router := router[inputs[i] := s];
      }
      assert inputs[..|inputs|] == inputs;
      forall k ensures (if k in router then Some(router[k]) else None) == LastDeclarer(created + [s], k) {
        LastDeclarerSnoc(created, s, k);
        assert (if k in before then Some(before[k]) else None) == LastDeclarer(created, k);
      }
      created := created + [s];
      forall k
        ensures Stale(k) <==>
                  k !in inputs && k in old(router)
                  && (old(Stale(k)) || (userId in old(strategies) && old(router)[k] == old(strategies)[userId]))
      {
        CurrentAfter(old(strategies), userId, s, old(created), if k in before then Some(before[k]) else None);
      }
    }

    /** The tick goes to the strategy that last declared its key, and to no other;
        it raises for an unknown exchange or market. */
    method RunningStrategy(t: Tick) returns (r: Result<bool>)
      requires Valid()
      modifies created
      ensures Valid()
      ensures r.Raised? <==> RouteOf(t).Raised?
      ensures r.Ok? ==> (r.value <==> exists s :: s in created && RouteOf(t).value in s.inputs)
      ensures forall s :: s in created ==>
                && s.updates == old(s.updates)
                && s.received == old(s.received)
                     + if r.Ok? && LastDeclarer(created, RouteOf(t).value) == Some(s) then [t] else []
    {
      hide RouteOf;
      var key := RouteOf(t);
      if key.Raised? {
        return Raised(key.error);
      }
      LastDeclarerIsCreated(created, key.value);
      assert (if key.value in router then Some(router[key.value]) else None) == LastDeclarer(created, key.value);
      hide LastDeclarer, RouterExact, OnePerUser;
      if key.value !in router {
        return Ok(false);
      }
      var s := router[key.value];
      s.Run(t);
      return Ok(true);
    }

    /** An order update reaches every current strategy of its session, once, and
        no other; one without a session reaches nobody. */
    method HandleOrderUpdate(event: OrderUpdate) returns (delivered: bool)
      requires Valid()
      modifies created
      ensures Valid()
      ensures forall s :: s in created ==>
                && s.received == old(s.received)
                && s.updates == old(s.updates) + if s in strategies.Values && ForSession(event, s) then [event] else []
      ensures delivered <==> exists s :: s in strategies.Values && ForSession(event, s)
      ensures forall s :: s in created && s in strategies.Values
                          && Strip(event.sessionId) != "" && Strip(s.sessionId) == Strip(event.sessionId) ==>
                s.updates == old(s.updates) + [event] && delivered
      ensures forall s :: s in created
                          && !(s in strategies.Values
                               && Strip(event.sessionId) != "" && Strip(s.sessionId) == Strip(event.sessionId)) ==>
                s.updates == old(s.updates)
    {
      delivered := false;
      if Strip(event.sessionId) == "" {
        return;
      }
      assert forall s :: s in strategies.Values ==> s in created;
      hide *;
      // No two users share a strategy, so each value comes up once.
      delivered := DeliverUpdate(strategies.Values, event);
    }
  }

  method DeliverUpdate(strategies: set<BaseStrategy>, event: OrderUpdate) returns (delivered: bool)
    modifies strategies
    ensures forall s :: s in strategies ==>
              && s.received == old(s.received)
              && s.updates == old(s.updates) + if ForSession(event, s) then [event] else []
    ensures delivered <==> exists s :: s in strategies && ForSession(event, s)
  {
    hide *;
    delivered := false;
    var left := strategies;
    while left != {}
      invariant left <= strategies
      invariant forall s :: s in strategies ==> s.received == old(s.received)
      invariant forall s :: s in left ==> s.updates == old(s.updates)
      invariant forall s :: s in strategies - left ==>
                  s.updates == old(s.updates) + if ForSession(event, s) then [event] else []
      invariant delivered <==> exists s :: s in strategies - left && ForSession(event, s)
    {
      var s :| s in left;
      left := left - {s};
      if ForSession(event, s) {
        s.HandleOrderUpdate(event);
        delivered := true;
      }
    }
  }

  /** A user replaces a strategy by one with other inputs: the old key still leads
      to the old strategy. */
  method ReplacingLeavesStaleKey(a: Key, b: Key) returns (engine: StrategyEngine, first: BaseStrategy)
    requires a != b
    ensures engine.Valid() && engine.Stale(a) && engine.router[a] == first
  {
    engine := new StrategyEngine();
    first := engine.CreateStrategy("user", [a], "first");
    assert LastDeclarer(engine.created, a) == Some(first);
    hide RouterExact, OnePerUser;
    var second := engine.CreateStrategy("user", [b], "second");
  }

  /** One strategy in an engine of its own, as every session has it: all keys lead
      to it and none is stale. */
  method SoleStrategy(inputs: seq<Key>, sessionId: string) returns (engine: StrategyEngine, s: BaseStrategy)
    ensures fresh(engine) && fresh(s) && engine.Valid() && engine.created == [s]
    ensures s.inputs == inputs && s.received == [] && s.updates == []
    ensures forall k :: !engine.Stale(k)
    ensures forall k :: k in inputs ==> LastDeclarer(engine.created, k) == Some(s)
  {
    engine := new StrategyEngine();
    s := engine.CreateStrategy("user", inputs, sessionId);
  }

  predicate ForSession(event: OrderUpdate, s: BaseStrategy) {
    Strip(event.sessionId) != "" && Strip(s.sessionId) == Strip(event.sessionId)
  }

  // ----- a whole replay -----

  /** The bar the server sends for a row of a declared stream: it echoes the
      stream it was asked for. */
  function BarOf(declared: seq<Key>, t: Tagged): Kline
    requires t.stream < |declared|
  {
    var d := declared[t.stream];
    Kline(StorageMarket(d.market), d.symbol, d.interval, t.row)
  }

  ghost predicate Tags(declared: seq<Key>, bars: seq<Tagged>) {
    forall i :: 0 <= i < |bars| ==> bars[i].stream < |declared|
  }

  function TickOf(declared: seq<Key>, t: Tagged): Tick
    requires t.stream < |declared|
  {
    BarTick(BarOf(declared, t), declared)
  }

  function Ticks(declared: seq<Key>, bars: seq<Tagged>): (ticks: seq<Tick>)
    requires Tags(declared, bars)
    ensures |ticks| == |bars|
    ensures forall i :: 0 <= i < |bars| ==> ticks[i] == TickOf(declared, bars[i])
  {
    seq(|bars|, i requires 0 <= i < |bars| => TickOf(declared, bars[i]))
  }

  /** The ticks that are routed under one key, in order. */
  function RoutedTo(ticks: seq<Tick>, k: Key): seq<Tick> {
    if ticks == [] then []
    else (if RouteOf(ticks[0]) == Ok(k) then [ticks[0]] else []) + RoutedTo(ticks[1..], k)
  }

  ghost predicate BinanceInputs(declared: seq<Key>) {
    && (forall i :: 0 <= i < |declared| ==> IsNormal(declared[i]) && declared[i].exchange == BINANCE)
    && (forall i, j :: 0 <= i < j < |declared| ==> declared[i] != declared[j])
  }

  lemma TickIsRouted(declared: seq<Key>, t: Tagged)
    requires BinanceInputs(declared) && t.stream < |declared|
    ensures RouteOf(TickOf(declared, t)) == Ok(declared[t.stream])
    ensures TickOf(declared, t) == BarTick(BarOf(declared, t), declared)
    ensures TickOf(declared, t).timestamp == t.row.openTime && TickOf(declared, t).price == t.row.bar as real
  {
    var d := declared[t.stream];
    NormalKeyParts(d);
    StorageMarketStable(d.market);
    assert Echoes(BarOf(declared, t), d);
    hide StreamOf, StreamKeyOf, StorageMarket, Canonical, IsNormal, RouteOf;
    RoutedUnderItsOwnKey(declared, t.stream, BarOf(declared, t));
  }

  lemma StorageMarketStable(market: string)
    requires Clean(market)
    ensures Lower(Strip(StorageMarket(market))) == StorageMarket(market)
  {
    assert Strip(FUTURES) == FUTURES;
    assert Lower(FUTURES) == FUTURES;
  }

  /** What the rows of one input look like as ticks. */
  function RowTicks(declared: seq<Key>, i: nat, rows: seq<Row>): (ticks: seq<Tick>)
    requires i < |declared|
  {
    if rows == [] then [] else [TickOf(declared, Tagged(i, rows[0]))] + RowTicks(declared, i, rows[1..])
  }

  /** Of a whole replay, the ticks under an input's key are exactly that stream's
      bars, in order. */
  lemma {:induction false} EachKeyGetsItsStream(declared: seq<Key>, bars: seq<Tagged>, i: nat)
    requires BinanceInputs(declared) && Tags(declared, bars) && i < |declared|
    ensures RoutedTo(Ticks(declared, bars), declared[i]) == RowTicks(declared, i, Projection(bars, i))
  {
    if bars != [] {
      var tick, rest := TickOf(declared, bars[0]), bars[1..];
      EachKeyGetsItsStream(declared, rest, i);
      RoutedOnlyToItsOwn(declared, bars[0], i);
      TicksCons(declared, bars);
      RoutedToCons(tick, Ticks(declared, rest), declared[i]);
      RowTicksCons(declared, i, bars[0].row, Projection(rest, i));
      ProjectionCons(bars, i);
      hide *;
    }
  }

  lemma RoutedOnlyToItsOwn(declared: seq<Key>, bar: Tagged, i: nat)
    requires BinanceInputs(declared) && bar.stream < |declared| && i < |declared|
    ensures RouteOf(TickOf(declared, bar)) == Ok(declared[i]) <==> bar.stream == i
    ensures bar.stream == i ==> Tagged(i, bar.row) == bar
  {
    TickIsRouted(declared, bar);
    hide RouteOf, TickOf, IsNormal;
  }

  lemma TicksCons(declared: seq<Key>, bars: seq<Tagged>)
    requires Tags(declared, bars) && bars != []
    ensures Tags(declared, bars[1..])
    ensures Ticks(declared, bars) == [TickOf(declared, bars[0])] + Ticks(declared, bars[1..])
  {
    hide TickOf;
  }

  lemma ProjectionCons(bars: seq<Tagged>, i: nat)
    requires bars != []
    ensures Projection(bars, i) == if bars[0].stream == i then [bars[0].row] + Projection(bars[1..], i)
                                   else Projection(bars[1..], i)
  {
  }

  lemma RoutedToCons(t: Tick, rest: seq<Tick>, k: Key)
    ensures RoutedTo([t] + rest, k) == if RouteOf(t) == Ok(k) then [t] + RoutedTo(rest, k) else RoutedTo(rest, k)
  {
    hide RouteOf;
    assert ([t] + rest)[1..] == rest;
  }

  lemma RowTicksCons(declared: seq<Key>, i: nat, row: Row, rest: seq<Row>)
    requires i < |declared|
    ensures RowTicks(declared, i, [row] + rest) == [TickOf(declared, Tagged(i, row))] + RowTicks(declared, i, rest)
  {
    hide TickOf;
    assert ([row] + rest)[1..] == rest;
  }

  /** Replaying the merge of all streams hands every input, under its own key, all
      its rows and nothing else, in order. */
  lemma ReplayServesEveryInput(declared: seq<Key>, streams: seq<seq<Row>>, i: nat)
    requires BinanceInputs(declared) && |streams| == |declared| && AllIncreasing(streams) && i < |declared|
    ensures Tags(declared, Merged(streams))
    ensures RoutedTo(Ticks(declared, Merged(streams)), declared[i]) == RowTicks(declared, i, streams[i])
  {
    MergedIsStableMerge(streams);
    EachKeyGetsItsStream(declared, Merged(streams), i);
  }

  /** The replay's inner loop: every bar is adapted and routed. The strategy that
      declared the streams receives all of them in replay order. */
  method RouteBars(engine: StrategyEngine, declared: seq<Key>, bars: seq<Tagged>, owner: BaseStrategy)
    returns (n: nat)
    requires engine.Valid() && BinanceInputs(declared) && Tags(declared, bars)
    requires owner in engine.created && forall k :: k in declared ==> LastDeclarer(engine.created, k) == Some(owner)
    modifies engine.created
    ensures n == |bars|
    ensures owner.received == old(owner.received) + Ticks(declared, bars)
    ensures forall s :: s in engine.created && s != owner ==> s.received == old(s.received)
  {
    hide RouteOf, LastDeclarer, IsNormal, BinanceInputs, TickOf, BarTick, BarOf, RouterExact, OnePerUser;
    n := 0;
    while n < |bars|
      invariant n <= |bars| && engine.Valid()
      invariant owner.received == old(owner.received) + Ticks(declared, bars)[..n]
      invariant forall s :: s in engine.created && s != owner ==> s.received == old(s.received)
    {
      TickIsRouted(declared, bars[n]);
      var kline := BarOf(declared, bars[n]);
      var routed := engine.RunningStrategy(BarTick(kline, declared));
      assert owner.received == old(owner.received) + Ticks(declared, bars)[..n] + [TickOf(declared, bars[n])];
      assert Ticks(declared, bars)[..n + 1] == Ticks(declared, bars)[..n] + [Ticks(declared, bars)[n]];
      n := n + 1;
    }
    assert Ticks(declared, bars)[..n] == Ticks(declared, bars);
  }
}
