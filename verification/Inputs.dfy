/** A strategy's declared inputs: a nested index of the routes it may read and a
    cache of the last tick on each, which together behave like a flat set of
    normalised keys and the history of ticks. */
module Inputs {
  import opened Prelude
  import opened Text

  const SUPPORTED_EXCHANGES := {"binance", "okx"}
  const SUPPORTED_MARKETS := {"spot", "perpetual_futures", "delivery_futures"}

  datatype Key = Key(exchange: string, market: string, symbol: string, interval: string)

  function NormalizeExchange(value: string): Result<string> {
    var exchange := Lower(Strip(value));
    if exchange in SUPPORTED_EXCHANGES then Ok(exchange) else Raised("unsupported exchange")
  }

  function NormalizeMarket(value: string): Result<string> {
    var market := Lower(Strip(value));
    if market in SUPPORTED_MARKETS then Ok(market) else Raised("unsupported market")
  }

  function NormalizeSymbol(value: string): Result<string> {
    var symbol := Upper(Strip(value));
    if symbol == "" then Raised("INPUTS entry has empty symbol") else Ok(symbol)
  }

  function NormalizeInterval(value: string): Result<string> {
    var interval := Strip(value);
    if interval == "" then Raised("INPUTS entry has empty interval") else Ok(interval)
  }

  /** The parts in order; the first bad one decides the error. A normalised key
      normalises to itself. */
  function NormalizeKey(exchange: string, market: string, symbol: string, interval: string): (r: Result<Key>)
    ensures r.Ok? ==>
              && NormalizeExchange(exchange) == Ok(r.value.exchange)
              && NormalizeMarket(market) == Ok(r.value.market)
              && NormalizeSymbol(symbol) == Ok(r.value.symbol)
              && NormalizeInterval(interval) == Ok(r.value.interval)
    ensures r.Raised? <==> NormalizeExchange(exchange).Raised? || NormalizeMarket(market).Raised?
                           || NormalizeSymbol(symbol).Raised? || NormalizeInterval(interval).Raised?
  {
    var e := NormalizeExchange(exchange);
    if e.Raised? then Raised(e.error) else
    var m := NormalizeMarket(market);
    if m.Raised? then Raised(m.error) else
    var s := NormalizeSymbol(symbol);
    if s.Raised? then Raised(s.error) else
    var i := NormalizeInterval(interval);
    if i.Raised? then Raised(i.error) else Ok(Key(e.value, m.value, s.value, i.value))
  }

  /** A key in plain terms: which ones are well formed, and their normal form. */
  lemma KeyInPlainTerms(exchange: string, market: string, symbol: string, interval: string)
    ensures NormalizeKey(exchange, market, symbol, interval) ==
              if Lower(Strip(exchange)) !in {"binance", "okx"} then Raised("unsupported exchange")
              else if Lower(Strip(market)) !in {"spot", "perpetual_futures", "delivery_futures"}
              then Raised("unsupported market")
              else if Upper(Strip(symbol)) == "" then Raised("INPUTS entry has empty symbol")
              else if Strip(interval) == "" then Raised("INPUTS entry has empty interval")
              else Ok(Key(Lower(Strip(exchange)), Lower(Strip(market)), Upper(Strip(symbol)), Strip(interval)))
  {
    hide Strip, Lower, Upper;
  }

  lemma NormalizeKeyIdempotent(exchange: string, market: string, symbol: string, interval: string)
    requires NormalizeKey(exchange, market, symbol, interval).Ok?
    ensures var k := NormalizeKey(exchange, market, symbol, interval).value;
            NormalizeKey(k.exchange, k.market, k.symbol, k.interval) == Ok(k)
  {
    LowerStripIdempotent(exchange);
    LowerStripIdempotent(market);
    UpperStripIdempotent(symbol);
    StripIdempotent(interval);
    hide Strip, Lower, Upper;
  }

  // ----- the nested index and the flat key set -----

  type Symbols = map<string, set<string>>
  type Markets = map<string, Symbols>
  type Index = map<string, Markets>

  function MarketsOf(index: Index, exchange: string): Markets {
    if exchange in index then index[exchange] else map[]
  }

  function SymbolsOf(markets: Markets, market: string): Symbols {
    if market in markets then markets[market] else map[]
  }

  function IntervalsOf(symbols: Symbols, symbol: string): set<string> {
    if symbol in symbols then symbols[symbol] else {}
  }

  predicate InMarkets(markets: Markets, market: string, symbol: string, interval: string) {
    interval in IntervalsOf(SymbolsOf(markets, market), symbol)
  }

  /** The key is reached by walking the index. */
  predicate InIndex(index: Index, k: Key) {
    InMarkets(MarketsOf(index, k.exchange), k.market, k.symbol, k.interval)
  }

  /** No level of the index is empty, so every level leads to some key. */
  ghost predicate NoDeadEnds(index: Index) {
    forall e :: e in index ==> MarketsAlive(index[e])
  }

  ghost predicate MarketsAlive(markets: Markets) {
    markets != map[] && forall m :: m in markets ==> SymbolsAlive(markets[m])
  }

  ghost predicate SymbolsAlive(symbols: Symbols) {
    symbols != map[] && forall s :: s in symbols ==> symbols[s] != {}
  }

  function Insert(index: Index, k: Key): Index {
    var markets := MarketsOf(index, k.exchange);
    var symbols := SymbolsOf(markets, k.market);
    var intervals := IntervalsOf(symbols, k.symbol) + {k.interval};
    index[k.exchange := markets[k.market := symbols[k.symbol := intervals]]]
  }

  /** Inserting a key adds that key, no other, and leaves no dead end. */
  lemma InsertAddsOneKey(index: Index, k: Key, other: Key)
    ensures InIndex(Insert(index, k), other) <==> InIndex(index, other) || other == k
  {
  }

  lemma InsertKeepsAlive(index: Index, k: Key)
    requires NoDeadEnds(index)
    ensures NoDeadEnds(Insert(index, k)) && Insert(index, k) != map[]
  {
    var markets := MarketsOf(index, k.exchange);
    var symbols := SymbolsOf(markets, k.market);
    var intervals := IntervalsOf(symbols, k.symbol) + {k.interval};
    assert k.interval in intervals;
    var symbols' := symbols[k.symbol := intervals];
    assert k.symbol in symbols' && SymbolsAlive(symbols');
    var markets' := markets[k.market := symbols'];
    assert k.market in markets' && MarketsAlive(markets');
    assert k.exchange in Insert(index, k);
  }

  /** Each level of the index holds exactly what some key of the index has there. */
  lemma LevelsMeanKeys(index: Index, exchange: string, market: string, symbol: string)
    requires NoDeadEnds(index)
    ensures exchange in index <==> exists k :: InIndex(index, k) && k.exchange == exchange
    ensures market in MarketsOf(index, exchange) <==>
              exists k :: InIndex(index, k) && k.exchange == exchange && k.market == market
    ensures symbol in SymbolsOf(MarketsOf(index, exchange), market) <==>
              exists k :: InIndex(index, k) && k.exchange == exchange && k.market == market && k.symbol == symbol
  {
    if exchange in index {
      var m :| m in index[exchange];
      var s :| s in index[exchange][m];
      var i :| i in index[exchange][m][s];
      assert InIndex(index, Key(exchange, m, s, i));
    }
    if market in MarketsOf(index, exchange) {
      var s :| s in index[exchange][market];
      var i :| i in index[exchange][market][s];
      assert InIndex(index, Key(exchange, market, s, i));
    }
    if symbol in SymbolsOf(MarketsOf(index, exchange), market) {
      var i :| i in index[exchange][market][symbol];
      assert InIndex(index, Key(exchange, market, symbol, i));
    }
  }

  /** A declared input as written. */
  datatype Input = Input(exchange: string, market: string, symbol: string, interval: string)

  function KeyOf(d: Input): Result<Key> { NormalizeKey(d.exchange, d.market, d.symbol, d.interval) }

  /** Some declaration normalises to `k`. */
  ghost predicate Declares(declared: seq<Input>, k: Key) {
    exists j :: 0 <= j < |declared| && KeyOf(declared[j]) == Ok(k)
  }

  lemma DeclaresSnoc(declared: seq<Input>, n: nat, k: Key)
    requires n < |declared|
    ensures Declares(declared[..n + 1], k) <==> Declares(declared[..n], k) || KeyOf(declared[n]) == Ok(k)
  {
    hide KeyOf;
    var longer := declared[..n + 1];
    assert longer[n] == declared[n];
    assert forall j :: 0 <= j < n ==> longer[j] == declared[..n][j];
    if Declares(declared[..n], k) {
      var j :| 0 <= j < n && KeyOf(declared[..n][j]) == Ok(k);
      assert KeyOf(longer[j]) == Ok(k);
    }
  }

  ghost predicate Indexes(index: Index, declared: seq<Input>) {
    && NoDeadEnds(index)
    && (forall k :: InIndex(index, k) <==> Declares(declared, k))
    && (index == map[] <==> declared == [])
  }

  lemma EmptyIndexes(declared: seq<Input>)
    ensures Indexes(map[], declared[..0])
  {
    assert declared[..0] == [];
  }

  lemma IndexesSnoc(index: Index, declared: seq<Input>, n: nat)
    requires n < |declared| && Indexes(index, declared[..n]) && KeyOf(declared[n]).Ok?
    ensures Indexes(Insert(index, KeyOf(declared[n]).value), declared[..n + 1])
  {
    hide Insert, KeyOf, InIndex, Declares, NoDeadEnds;
    var key := KeyOf(declared[n]).value;
    InsertKeepsAlive(index, key);
    forall k ensures InIndex(Insert(index, key), k) <==> Declares(declared[..n + 1], k) {
      InsertAddsOneKey(index, key, k);
      DeclaresSnoc(declared, n, k);
      assert InIndex(index, k) <==> Declares(declared[..n], k);
    }
    assert |declared[..n + 1]| == n + 1;
  }

  ghost predicate WellFormed(declared: seq<Input>) {
    forall j :: 0 <= j < |declared| ==> KeyOf(declared[j]).Ok?
  }

  lemma WellFormedSnoc(declared: seq<Input>, n: nat)
    requires n < |declared| && WellFormed(declared[..n])
    ensures WellFormed(declared[..n + 1]) <==> KeyOf(declared[n]).Ok?
    ensures KeyOf(declared[n]).Raised? ==> !WellFormed(declared)
  {
    hide KeyOf;
    var longer := declared[..n + 1];
    assert longer[n] == declared[n];
    forall j | 0 <= j < n ensures KeyOf(longer[j]).Ok? {
      assert longer[j] == declared[..n][j];
    }
  }

  /** The nested index of a declaration: it holds exactly the normalised keys. It
      raises exactly on a declaration that is malformed. */
  method BuildIndex(declared: seq<Input>) returns (r: Result<Index>)
    ensures r.Ok? <==> WellFormed(declared)
    ensures r.Ok? ==> Indexes(r.value, declared)
  {
    var index: Index := map[];
    EmptyIndexes(declared);
    for n := 0 to |declared|
      invariant WellFormed(declared[..n]) && Indexes(index, declared[..n])
    {
      hide *;
      var key := KeyOf(declared[n]);
      WellFormedSnoc(declared, n);
      if key.Raised? {
        return Raised(key.error);
      }
      IndexesSnoc(index, declared, n);
      index := Insert(index, key.value);
    }
    assert declared[..|declared|] == declared;
    return Ok(index);
  }

  // ----- listing the index -----

  ghost predicate NoRepeats(keys: seq<Key>) {
    forall i, j :: 0 <= i < j < |keys| ==> keys[i] != keys[j]
  }

  /** `after` has the keys of `before` and, once each, those that `added` names. */
  ghost predicate Extends(before: seq<Key>, after: seq<Key>, added: Index) {
    NoRepeats(after) && forall k :: k in after <==> k in before || InIndex(added, k)
  }

  ghost predicate Apart(keys: seq<Key>, added: Index) {
    forall k :: k in keys ==> !InIndex(added, k)
  }

  method ListIntervals(exchange: string, market: string, symbol: string, intervals: set<string>, before: seq<Key>)
    returns (keys: seq<Key>)
    requires NoRepeats(before) && Apart(before, map[exchange := map[market := map[symbol := intervals]]])
    ensures Extends(before, keys, map[exchange := map[market := map[symbol := intervals]]])
  {
    keys := before;
    var left := intervals;
    while left != {}
      invariant left <= intervals && NoRepeats(keys)
      invariant forall k :: k in keys <==>
                  k in before || (k.exchange == exchange && k.market == market && k.symbol == symbol
                                  && k.interval in intervals - left)
    {
      var interval :| interval in left;
      var key := Key(exchange, market, symbol, interval);
      assert InIndex(map[exchange := map[market := map[symbol := intervals]]], key);
      keys := keys + [key];
      left := left - {interval};
    }
  }

  method ListSymbols(exchange: string, market: string, symbols: Symbols, before: seq<Key>) returns (keys: seq<Key>)
    requires NoRepeats(before) && Apart(before, map[exchange := map[market := symbols]])
    ensures Extends(before, keys, map[exchange := map[market := symbols]])
  {
    keys := before;
    var left := symbols.Keys;
    while left != {}
      invariant left <= symbols.Keys && NoRepeats(keys)
      invariant forall k :: k in keys <==>
                  k in before || (k.exchange == exchange && k.market == market && k.symbol !in left
                                  && k.interval in IntervalsOf(symbols, k.symbol))
    {
      var symbol :| symbol in left;
      keys := ListIntervals(exchange, market, symbol, symbols[symbol], keys);
      left := left - {symbol};
    }
  }

  method ListMarkets(exchange: string, markets: Markets, before: seq<Key>) returns (keys: seq<Key>)
    requires NoRepeats(before) && Apart(before, map[exchange := markets])
    ensures Extends(before, keys, map[exchange := markets])
  {
    keys := before;
    var left := markets.Keys;
    while left != {}
      invariant left <= markets.Keys && NoRepeats(keys)
      invariant forall k :: k in keys <==>
                  k in before || (k.exchange == exchange && k.market !in left
                                  && InMarkets(markets, k.market, k.symbol, k.interval))
    {
      var market :| market in left;
      keys := ListSymbols(exchange, market, markets[market], keys);
      left := left - {market};
    }
  }

  /** Walks the whole index: every key it holds is listed, once. */
  method ListIndex(index: Index) returns (keys: seq<Key>)
    ensures NoRepeats(keys) && forall k :: k in keys <==> InIndex(index, k)
    ensures forall i, j :: 0 <= i < j < |keys| ==> keys[i] != keys[j]
  {
    keys := [];
    var left := index.Keys;
    while left != {}
      invariant left <= index.Keys && NoRepeats(keys)
      invariant forall k :: k in keys <==> k.exchange !in left && InIndex(index, k)
    {
      var exchange :| exchange in left;
      keys := ListMarkets(exchange, index[exchange], keys);
      left := left - {exchange};
    }
  }

  // ----- the view -----

  datatype Tick = Tick(exchange: Option<string>, market: string, symbol: string, interval: Option<string>,
                       price: real, timestamp: int)

  /** The route of a tick: the exchange defaults to binance, a missing interval is
      an error. */
  function TickKey(t: Tick): Result<Key> {
    NormalizeKey(if t.exchange.Some? then t.exchange.value else "binance", t.market, t.symbol,
                 if t.interval.Some? then t.interval.value else "")
  }

  /** The latest tick of a history that is routed to `k`. */
  function LastTick(history: seq<Tick>, k: Key): Option<Tick> {
    if history == [] then None
    else if TickKey(history[|history| - 1]) == Ok(k) then Some(history[|history| - 1])
    else LastTick(history[..|history| - 1], k)
  }

  /** A tick is filed under its own names; one that names no exchange counts as
      binance's, and one without an interval is malformed. */
  lemma TickKeyInPlainTerms(t: Tick)
    ensures TickKey(t) == NormalizeKey(if t.exchange.Some? then t.exchange.value else "binance", t.market, t.symbol,
                                       if t.interval.Some? then t.interval.value else "")
    ensures t.interval.None? ==> TickKey(t).Raised?
  {
    hide Lower, Upper, StripLeft, StripRight;
  }

  lemma LastTickSnoc(history: seq<Tick>, t: Tick, k: Key)
    ensures LastTick(history + [t], k) == if TickKey(t) == Ok(k) then Some(t) else LastTick(history, k)
    ensures LastTick([], k) == None
  {
    assert (history + [t])[..|history|] == history;
  }

  /** The latest tick of a history on any declared route. */
  ghost function LastDeclared(history: seq<Tick>, index: Index): Option<Tick> {
    if history == [] then None
    else
      var t := history[|history| - 1];
      if TickKey(t).Ok? && InIndex(index, TickKey(t).value) then Some(t)
      else LastDeclared(history[..|history| - 1], index)
  }

  lemma LastDeclaredSnoc(history: seq<Tick>, index: Index, t: Tick)
    ensures LastDeclared(history + [t], index)
         == if TickKey(t).Ok? && InIndex(index, TickKey(t).value) then Some(t) else LastDeclared(history, index)
  {
    assert (history + [t])[..|history|] == history;
  }

  lemma IndexIsDeclared(index: Index, declared: seq<Input>, k: Key)
    requires Indexes(index, declared)
    ensures InIndex(index, k) <==> Declares(declared, k)
  {
  }

  /** The cache holds, for each declared key, the last tick routed to it, and
      nothing else. */
  ghost predicate CacheExact(cache: map<Key, Tick>, history: seq<Tick>, index: Index) {
    forall k :: Lookup(cache, k) == if InIndex(index, k) then LastTick(history, k) else None
  }

  function Lookup(cache: map<Key, Tick>, k: Key): Option<Tick> {
    if k in cache then Some(cache[k]) else None
  }

  lemma CacheAfterTick(cache: map<Key, Tick>, history: seq<Tick>, index: Index, t: Tick)
    requires CacheExact(cache, history, index)
    ensures var accepted := TickKey(t).Ok? && InIndex(index, TickKey(t).value);
            CacheExact(if accepted then cache[TickKey(t).value := t] else cache, history + [t], index)
  {
    hide TickKey, InIndex, LastTick;
    var accepted := TickKey(t).Ok? && InIndex(index, TickKey(t).value);
    var after := if accepted then cache[TickKey(t).value := t] else cache;
    forall k ensures Lookup(after, k) == if InIndex(index, k) then LastTick(history + [t], k) else None {
      LastTickSnoc(history, t, k);
      assert Lookup(cache, k) == if InIndex(index, k) then LastTick(history, k) else None;
    }
  }

  ghost predicate ViewExact(index: Index, declared: seq<Input>, cache: map<Key, Tick>, trigger: Option<Tick>,
                            history: seq<Tick>)
  {
    && Indexes(index, declared) && declared != []
    && CacheExact(cache, history, index)
    && trigger == LastDeclared(history, index)
  }

  /** Offering a tick: an accepted one becomes its key's entry and the trigger. */
  lemma ViewAfterTick(index: Index, declared: seq<Input>, cache: map<Key, Tick>, trigger: Option<Tick>,
                      history: seq<Tick>, t: Tick)
    requires ViewExact(index, declared, cache, trigger, history)
    ensures TickKey(t).Ok? ==> (InIndex(index, TickKey(t).value) <==> Declares(declared, TickKey(t).value))
    ensures if TickKey(t).Ok? && InIndex(index, TickKey(t).value)
            then ViewExact(index, declared, cache[TickKey(t).value := t], Some(t), history + [t])
            else ViewExact(index, declared, cache, trigger, history + [t])
  {
    CacheAfterTick(cache, history, index, t);
    LastDeclaredSnoc(history, index, t);
    if TickKey(t).Ok? {
      IndexIsDeclared(index, declared, TickKey(t).value);
    }
    hide TickKey, InIndex, Declares, CacheExact, Indexes, LastDeclared;
  }

  /** The view handed to the strategy. `history` is every tick it was offered,
      accepted or not. */
  class InputView {
    const index: Index
    var cache: map<Key, Tick>
    var trigger: Option<Tick>
    ghost var declared: seq<Input>
    ghost var history: seq<Tick>

    ghost predicate Valid()
      reads this
    {
      ViewExact(index, declared, cache, trigger, history)
    }

    constructor (index: Index, ghost declared: seq<Input>)
      requires Indexes(index, declared) && declared != []
      ensures Valid() && this.declared == declared && history == []
    {
      this.index, this.declared := index, declared;
      cache, trigger, history := map[], None, [];
    }

    /** Offers a tick: malformed ones raise, undeclared ones are turned down. */
    method Update(t: Tick) returns (r: Result<bool>)
      requires Valid()
      modifies this
      ensures Valid() && history == old(history) + [t] && declared == old(declared)
      ensures r.Raised? <==> TickKey(t).Raised?
      ensures r.Ok? ==> (r.value <==> Declares(declared, TickKey(t).value))
      ensures if r.Ok? && r.value then trigger == Some(t) && cache == old(cache)[TickKey(t).value := t]
              else cache == old(cache) && trigger == old(trigger)
    {
      hide TickKey, InIndex, Declares, ViewExact, Indexes, CacheExact, LastDeclared, NormalizeKey;
      ViewAfterTick(index, declared, cache, trigger, history, t);
      var key := TickKey(t);
      history := history + [t];
      if key.Raised? {
        return Raised(key.error);
      }
      if !InIndex(index, key.value) {
        return Ok(false);
      }
      cache := cache[key.value := t];
      trigger := Some(t);
      return Ok(true);
    }

    /** Whether a route as written is declared; raises for a malformed one. */
    method IsDeclared(exchange: string, market: string, symbol: string, interval: string) returns (r: Result<bool>)
      requires Valid()
      ensures r.Raised? <==> NormalizeKey(exchange, market, symbol, interval).Raised?
      ensures r.Ok? ==> (r.value <==> Declares(declared, NormalizeKey(exchange, market, symbol, interval).value))
    {
      var key := NormalizeKey(exchange, market, symbol, interval);
      if key.Raised? {
        return Raised(key.error);
      }
      return Ok(InIndex(index, key.value));
    }

    /** Every declared key, once. */
    method DeclaredKeys() returns (keys: seq<Key>)
      requires Valid()
      ensures NoRepeats(keys) && forall k :: k in keys <==> Declares(declared, k)
      ensures forall i, j :: 0 <= i < j < |keys| ==> keys[i] != keys[j]
    {
      hide Declares, NoDeadEnds, CacheExact, LastDeclared;
      keys := ListIndex(index);
    }

    // The four accessors of the chain; each raises for a name that is malformed or
    // not declared under what was matched before.

    function Exchange(exchange: string): (r: Result<string>)
      reads this
    {
      var e := NormalizeExchange(exchange);
      if e.Ok? && e.value !in index then Raised("exchange is not in the declared strategy universe") else e
    }

    function Market(exchange: string, market: string): (r: Result<string>)
      reads this
    {
      var m := NormalizeMarket(market);
      if m.Ok? && m.value !in MarketsOf(index, exchange) then Raised("market is not declared") else m
    }

    function Symbol(exchange: string, market: string, symbol: string): (r: Result<string>)
      reads this
    {
      var s := NormalizeSymbol(symbol);
      if s.Ok? && s.value !in SymbolsOf(MarketsOf(index, exchange), market) then Raised("symbol is not declared") else s
    }

    function Interval(exchange: string, market: string, symbol: string, interval: string): (r: Result<Option<Tick>>)
      reads this
    {
      var i := NormalizeInterval(interval);
      if i.Raised? then Raised(i.error)
      else if !InIndex(index, Key(exchange, market, symbol, i.value)) then Raised("interval is not declared")
      else Ok(Lookup(cache, Key(exchange, market, symbol, i.value)))
    }

    /** The whole chain view.exchange[e].market[m].symbol[s].interval[i]. */
    function Chain(exchange: string, market: string, symbol: string, interval: string): (r: Result<Option<Tick>>)
      reads this
    {
      var e := Exchange(exchange);
      if e.Raised? then Raised(e.error) else
      var m := Market(e.value, market);
      if m.Raised? then Raised(m.error) else
      var s := Symbol(e.value, m.value, symbol);
      if s.Raised? then Raised(s.error) else
      Interval(e.value, m.value, s.value, interval)
    }

    /** Membership never raises: each level holds what the matching accessor
        accepts. */
    predicate Contains(exchange: string, market: string, symbol: string, interval: string)
      reads this
    {
      && NormalizeExchange(exchange).Ok? && NormalizeExchange(exchange).value in index
      && var e := NormalizeExchange(exchange).value;
      && NormalizeMarket(market).Ok? && NormalizeMarket(market).value in MarketsOf(index, e)
      && var m := NormalizeMarket(market).value;
      && NormalizeSymbol(symbol).Ok? && NormalizeSymbol(symbol).value in SymbolsOf(MarketsOf(index, e), m)
      && var s := NormalizeSymbol(symbol).value;
      && NormalizeInterval(interval).Ok?
      && NormalizeInterval(interval).value in IntervalsOf(SymbolsOf(MarketsOf(index, e), m), s)
    }

    /** The chain raises exactly for a malformed or undeclared route, and otherwise
        gives the last tick offered on that route, or nothing if there was none.
        Membership agrees with it. */
    lemma ChainIsLastTick(exchange: string, market: string, symbol: string, interval: string)
      requires Valid()
      ensures var key := NormalizeKey(exchange, market, symbol, interval);
              var r := Chain(exchange, market, symbol, interval);
              && (r.Ok? <==> key.Ok? && Declares(declared, key.value))
              && (r.Ok? ==> r.value == LastTick(history, key.value))
              && (Contains(exchange, market, symbol, interval) <==> r.Ok?)
    {
      hide NormalizeExchange, NormalizeMarket, NormalizeSymbol, NormalizeInterval, LastTick, TickKey, NoDeadEnds;
      var key := NormalizeKey(exchange, market, symbol, interval);
      if key.Ok? {
        var k := key.value;
        assert InIndex(index, k) <==> Declares(declared, k);
        assert Lookup(cache, k) == if InIndex(index, k) then LastTick(history, k) else None;
        hide Declares, CacheExact;
        assert Chain(exchange, market, symbol, interval).Ok? <==> InIndex(index, k);
      }
    }

    /** The chain fails at the first name no declared key goes on with. */
    lemma ChainStopsAtFirstUnknown(exchange: string, market: string, symbol: string)
      requires Valid()
      ensures Exchange(exchange).Ok? <==>
                exists k :: Declares(declared, k) && NormalizeExchange(exchange) == Ok(k.exchange)
      ensures Market(exchange, market).Ok? <==>
                exists k :: Declares(declared, k) && k.exchange == exchange && NormalizeMarket(market) == Ok(k.market)
      ensures Symbol(exchange, market, symbol).Ok? <==>
                exists k :: Declares(declared, k) && k.exchange == exchange && k.market == market
                            && NormalizeSymbol(symbol) == Ok(k.symbol)
    {
      hide NormalizeExchange, NormalizeMarket, NormalizeSymbol, InIndex, Declares, CacheExact, NoDeadEnds;
      var e, m, s := NormalizeExchange(exchange), NormalizeMarket(market), NormalizeSymbol(symbol);
      if e.Ok? {
        LevelsMeanKeys(index, e.value, "", "");
      }
      if m.Ok? {
        LevelsMeanKeys(index, exchange, m.value, "");
      }
      if s.Ok? {
        LevelsMeanKeys(index, exchange, market, s.value);
      }
    }
  }

  /** The view of a declaration; an empty or malformed one raises. */
  method OpenView(declared: seq<Input>) returns (r: Result<InputView>)
    ensures r.Raised? <==> declared == [] || !WellFormed(declared)
    ensures r.Ok? ==> fresh(r.value) && r.value.Valid() && r.value.declared == declared && r.value.history == []
  {
    var index := BuildIndex(declared);
    if index.Raised? {
      return Raised(index.error);
    }
    if index.value == map[] {
      return Raised("InputView cannot be constructed from an empty declaration.");
    }
    var view := new InputView(index.value, declared);
    return Ok(view);
  }
}
