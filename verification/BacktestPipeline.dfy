/** A whole backtest: pages from the server, merged, routed to the strategy, and
    kept in the strategy's view of its inputs. */
module BacktestPipeline {
  import opened Prelude
  import opened StableMerge
  import opened PagedReplay
  import opened Inputs
  import opened Routing
  import Intervals

  // ----- ticks, keys and the latest tick -----

  /** For a tick routed under a normal key the view files it under the same key. */
  lemma RoutedMeansFiled(t: Tick, k: Key)
    requires IsNormal(k) && RouteOf(t) == Ok(k)
    ensures TickKey(t) == Ok(k)
  {
    hide NormalizeExchange, NormalizeMarket;
  }

  lemma FiledUnderItsOwn(declared: seq<Key>, bar: Tagged, i: nat)
    requires BinanceInputs(declared) && bar.stream < |declared| && i < |declared|
    ensures TickKey(TickOf(declared, bar)) == Ok(declared[i]) <==> bar.stream == i
  {
    TickIsRouted(declared, bar);
    hide RouteOf, TickOf;
    RoutedMeansFiled(TickOf(declared, bar), declared[bar.stream]);
  }

  /** The last of some rows as the input's tick. */
  function LastRowTick(declared: seq<Key>, i: nat, rows: seq<Row>): Option<Tick>
    requires i < |declared|
  {
    if rows == [] then None else Some(TickOf(declared, Tagged(i, rows[|rows| - 1])))
  }

  lemma {:induction false} ProjectionSnoc(bars: seq<Tagged>, b: Tagged, i: nat)
    ensures Projection(bars + [b], i) == Projection(bars, i) + (if b.stream == i then [b.row] else [])
    ensures Projection([], i) == []
  {
    if bars == [] {
      assert [] + [b] == [b] && [b][1..] == [];
    } else {
      ProjectionSnoc(bars[1..], b, i);
      assert (bars + [b])[1..] == bars[1..] + [b];
    }
  }

  /** After any replayed sequence the latest tick of an input is its stream's last
      bar in it. */
  lemma {:induction false} LatestIsLastBar(declared: seq<Key>, bars: seq<Tagged>, i: nat)
    requires BinanceInputs(declared) && Tags(declared, bars) && i < |declared|
    ensures LastTick(Ticks(declared, bars), declared[i]) == LastRowTick(declared, i, Projection(bars, i))
  {
    hide *;
    if bars != [] {
      SplitLast(declared, bars);
      var n := |bars| - 1;
      var before, b := bars[..n], bars[n];
      LatestIsLastBar(declared, before, i);
      FiledUnderItsOwn(declared, b, i);
      ProjectionSnoc(before, b, i);
      OneMoreTick(declared, before, b);
      LastTickSnoc(Ticks(declared, before), TickOf(declared, b), declared[i]);
      LastRowTickSnoc(declared, i, Projection(before, i), b.row);
      assert b.stream == i ==> Tagged(i, b.row) == b;
      assert bars == before + [b];
      assert Projection(before, i) + [] == Projection(before, i);
    } else {
      TicksOfNone(declared);
      NothingYet(declared, i);
    }
  }

  lemma NothingYet(declared: seq<Key>, i: nat)
    requires i < |declared|
    ensures LastTick([], declared[i]) == LastRowTick(declared, i, Projection([], i)) == None
  {
  }

  lemma SplitLast(declared: seq<Key>, bars: seq<Tagged>)
    requires Tags(declared, bars) && bars != []
    ensures Tags(declared, bars[..|bars| - 1]) && bars[|bars| - 1].stream < |declared|
  {
  }

  lemma LastRowTickSnoc(declared: seq<Key>, i: nat, rows: seq<Row>, row: Row)
    requires i < |declared|
    ensures LastRowTick(declared, i, rows + [row]) == Some(TickOf(declared, Tagged(i, row)))
  {
    hide TickOf;
  }

  // ----- the run -----

  /** What holds between two bars: the view has been offered exactly the ticks
      taken so far, and the rest is still to come. */
  ghost predicate Going(source: PagedBacktestDataSource, declared: seq<Key>,
                        all: seq<Tagged>, taken: seq<Tagged>)
    reads source, source.cursors
  {
    && source.Valid() && |source.cursors| == |declared|
    && Tags(declared, all) && taken <= all
    && IsMergeOf(source.remaining, all[|taken|..])
  }

  /** The server's answer to a bar: the row and the stream it belongs to. */
  method NextBar(source: PagedBacktestDataSource, ghost declared: seq<Key>, ghost all: seq<Tagged>,
                 ghost taken: seq<Tagged>)
    returns (step: Step, bar: Tagged)
    requires Going(source, declared, all, taken) && !source.closed
    modifies source, source.cursors
    ensures source.closed == !step.Yield?
    ensures step.Yield? ==>
              && |taken| < |all| && bar == all[|taken|] && bar.stream < |declared|
              && Going(source, declared, all, taken + [bar])
    ensures step.Raise? ==> !source.AllChainsOk()
    ensures step.Stop? ==> taken == all && source.FullyRead()
    ensures source.Valid()
  {
    step := Resume(source, all[|taken|..]);
    bar := Tagged(0, Row(0, 0));
    if step.Yield? {
      bar := Tagged(source.current.value, step.row);
      assert all[|taken|..][1..] == all[|taken| + 1..];
      assert taken + [bar] == all[..|taken| + 1];
    }
  }

  /** Runs a backtest until it is stopped, all bars are out or a page is broken.
      The strategy receives a prefix of the stable merge as ticks, in order, all
      of it unless stopped or failed; the view has been offered the same ticks. */
  method RunBars(source: PagedBacktestDataSource, engine: StrategyEngine, owner: BaseStrategy, view: InputView,
                 declared: seq<Key>, stop: nat -> bool)
    returns (n: nat, failed: bool, ghost taken: seq<Tagged>)
    requires source.Valid() && !source.started && !source.closed && |source.cursors| == |declared|
    requires engine.Valid() && BinanceInputs(declared)
    requires owner in engine.created && forall k :: k in declared ==> LastDeclarer(engine.created, k) == Some(owner)
    requires view.Valid()
    modifies source, source.cursors, engine.created, view
    ensures taken <= Merged(old(source.remaining)) && n == |taken| && Tags(declared, taken)
    ensures forall k :: 0 <= k < n ==> !stop(k)
    ensures failed ==> !source.AllChainsOk()
    ensures !failed && !stop(n) ==> taken == Merged(old(source.remaining)) && source.FullyRead()
    ensures owner.received == old(owner.received) + Ticks(declared, taken)
    ensures view.Valid() && view.declared == old(view.declared)
    ensures view.history == old(view.history) + Ticks(declared, taken)
  {
    hide *;
    n, failed, taken := 0, false, [];
    ghost var all := Merged(source.remaining);
    AllTagged(source, declared);
    MergedIsMergeOf(source.remaining);
    TicksOfNone(declared);
    while true
      invariant !source.closed && Going(source, declared, all, taken)
      invariant n == |taken| && Tags(declared, taken) && taken <= all
      invariant forall k :: 0 <= k < n ==> !stop(k)
      invariant owner.received == old(owner.received) + Ticks(declared, taken)
      invariant view.Valid() && view.declared == old(view.declared)
      invariant view.history == old(view.history) + Ticks(declared, taken)
      decreases |all| - |taken|
    {
      var step, bar := NextBar(source, declared, all, taken);
      if !step.Yield? || stop(n) {
        return n, step.Raise?, taken;
      }
      OneMoreTick(declared, taken, bar);
      HandOverBar(engine, owner, view, declared, bar);
      taken := taken + [bar];
      n := n + 1;
    }
  }

  /** One bar on its way: routed to the strategy that declared it, and offered to
      its view. */
  method HandOverBar(engine: StrategyEngine, owner: BaseStrategy, view: InputView, declared: seq<Key>, bar: Tagged)
    requires engine.Valid() && view.Valid() && BinanceInputs(declared) && bar.stream < |declared|
    requires owner in engine.created && LastDeclarer(engine.created, declared[bar.stream]) == Some(owner)
    modifies engine.created, view
    ensures owner.received == old(owner.received) + [TickOf(declared, bar)]
    ensures view.Valid() && view.declared == old(view.declared)
    ensures view.history == old(view.history) + [TickOf(declared, bar)]
  {
    hide *;
    TickIsRouted(declared, bar);
    var tick := BarTick(BarOf(declared, bar), declared);
    var routed := engine.RunningStrategy(tick);
    var accepted := view.Update(tick);
  }

  lemma AllTagged(source: PagedBacktestDataSource, declared: seq<Key>)
    requires source.Valid() && |source.cursors| == |declared|
    ensures Tags(declared, Merged(source.remaining))
    ensures IsMergeOf(source.remaining, Merged(source.remaining)) ==>
              Going(source, declared, Merged(source.remaining), [])
  {
    var all := Merged(source.remaining);
    forall k | 0 <= k < |all| ensures all[k].stream < |declared| {
      MergedMembers(source.remaining, k);
    }
    assert all[0..] == all;
  }

  lemma TicksOfNone(declared: seq<Key>)
    ensures Tags(declared, []) && Ticks(declared, []) == []
  {
  }

  lemma OneMoreTick(declared: seq<Key>, taken: seq<Tagged>, bar: Tagged)
    requires Tags(declared, taken) && bar.stream < |declared|
    ensures Tags(declared, taken + [bar])
    ensures Ticks(declared, taken + [bar]) == Ticks(declared, taken) + [TickOf(declared, bar)]
  {
    hide TickOf;
  }

  // ----- from pages to each input's latest tick -----

  function InputsOf(declared: seq<Key>): (inputs: seq<Input>)
    ensures |inputs| == |declared|
    ensures forall i :: 0 <= i < |declared| ==>
              inputs[i] == Input(declared[i].exchange, declared[i].market, declared[i].symbol, declared[i].interval)
  {
    seq(|declared|, i requires 0 <= i < |declared| =>
      Input(declared[i].exchange, declared[i].market, declared[i].symbol, declared[i].interval))
  }

  /** Where a stream's replay starts: one step of its interval before the start. */
  function FirstCursor(d: Key, start: int): int {
    var step := Intervals.IntervalStepMs(d.interval);
    if step.Ok? then start - step.value else start
  }

  /** The stored bars of each input that the replay covers. */
  function InRange(declared: seq<Key>, stored: seq<seq<Row>>, start: int, end: int): (rows: seq<seq<Row>>)
    requires |stored| == |declared|
    ensures |rows| == |declared|
    ensures forall i :: 0 <= i < |declared| ==> rows[i] == Window(stored[i], FirstCursor(declared[i], start), end)
  {
    seq(|declared|, i requires 0 <= i < |declared| => Window(stored[i], FirstCursor(declared[i], start), end))
  }

  ghost predicate ReadableIntervals(declared: seq<Key>) {
    forall i :: 0 <= i < |declared| ==> Intervals.IntervalStepMs(declared[i].interval).Ok?
  }

  /** No input's pages ever claim more rows without carrying any. */
  ghost predicate SoundPages(server: Server, declared: seq<Key>, stored: seq<seq<Row>>, start: int, end: int)
    requires |stored| == |declared|
  {
    forall i :: 0 <= i < |declared| ==> ChainOk(server, stored[i], end, i, FirstCursor(declared[i], start))
  }

  /** The chain view.exchange[e].market[m].symbol[s].interval[i] for a key. */
  function LatestTick(view: InputView, k: Key): Result<Option<Tick>>
    reads view
  {
    view.Chain(k.exchange, k.market, k.symbol, k.interval)
  }

  /** A backtest of a strategy's declared inputs that nobody stops. It fails
      exactly if an interval cannot be read or some page is broken. Otherwise the
      strategy has received every bar in range, and for every input the accessor
      chain of its view gives the last of that input's bars, or nothing if it has
      none, however the server cut the pages. */
  method Backtest(server: Server, start: int, declared: seq<Key>, sessionId: string,
                  ghost stored: seq<seq<Row>>, ghost end: int, ghost limit: nat)
    returns (r: Result<InputView>, owner: BaseStrategy)
    requires Contract(server, stored, end, limit) && |stored| == |declared|
    requires BinanceInputs(declared) && declared != []
    ensures r.Ok? <==> ReadableIntervals(declared) && SoundPages(server, declared, stored, start, end)
    ensures r.Ok? ==>
              var rows := InRange(declared, stored, start, end);
              && Tags(declared, Merged(rows)) && owner.received == Ticks(declared, Merged(rows))
              && r.value.Valid()
              && forall i :: 0 <= i < |declared| ==>
                   LatestTick(r.value, declared[i]) == Ok(LastRowTick(declared, i, rows[i]))
  {
    hide *;
    var engine;
    engine, owner := SoleStrategy(declared, sessionId);
    var made := OpenSource(server, start, IntervalsOf(declared), stored, end, limit);
    ReadableIff(declared);
    if made.Raised? {
      return Raised(made.error), owner;
    }
    var source := made.value;
    InputsWellFormed(declared);
    var view := OpenView(InputsOf(declared));
    StartsWith(source, declared, stored, start);
    ghost var rows := InRange(declared, stored, start, end);
    assert view.Ok?;
    var n, failed;
    ghost var taken;
    n, failed, taken := RunBars(source, engine, owner, view.value, declared, (k: nat) => false);
    FinishedIsSound(source);
    if failed {
      return Raised("backtest page returned no rows before end"), owner;
    }
    assert [] + Ticks(declared, taken) == Ticks(declared, taken);
    LatestOfEach(view.value, declared, rows);
    return view, owner;
  }

  function IntervalsOf(declared: seq<Key>): (intervals: seq<string>)
    ensures |intervals| == |declared| && forall i :: 0 <= i < |declared| ==> intervals[i] == declared[i].interval
  {
    seq(|declared|, i requires 0 <= i < |declared| => declared[i].interval)
  }

  lemma ReadableIff(declared: seq<Key>)
    ensures ReadableIntervals(declared) <==>
              forall i :: 0 <= i < |declared| ==> Intervals.IntervalStepMs(IntervalsOf(declared)[i]).Ok?
  {
    hide Intervals.IntervalStepMs;
    var intervals := IntervalsOf(declared);
    if forall i :: 0 <= i < |declared| ==> Intervals.IntervalStepMs(intervals[i]).Ok? {
      forall i | 0 <= i < |declared| ensures Intervals.IntervalStepMs(declared[i].interval).Ok? {
        assert intervals[i] == declared[i].interval;
      }
    }
  }

  lemma InputsWellFormed(declared: seq<Key>)
    requires BinanceInputs(declared)
    ensures WellFormed(InputsOf(declared))
  {
    hide NormalizeKey;
  }

  /** The source starts where the range starts. */
  lemma StartsWith(source: PagedBacktestDataSource, declared: seq<Key>, stored: seq<seq<Row>>, start: int)
    requires |stored| == |declared| == |source.starts| && source.stored == stored
    requires source.remaining == source.Initial()
    requires ReadableIntervals(declared)
    requires forall i :: 0 <= i < |declared| ==>
               source.starts[i] == start - Intervals.IntervalStepMs(IntervalsOf(declared)[i]).value
    ensures source.remaining == InRange(declared, stored, start, source.end)
    ensures source.AllChainsOk() <==> SoundPages(source.server, declared, stored, start, source.end)
  {
    hide Intervals.IntervalStepMs, Window, ChainOk;
    forall i | 0 <= i < |declared| ensures source.starts[i] == FirstCursor(declared[i], start) {
    }
  }

  lemma FinishedIsSound(source: PagedBacktestDataSource)
    ensures source.FullyRead() ==> |source.starts| == |source.stored| && source.AllChainsOk()
  {
    hide ChainOk;
  }

  /** After any bars at all, the accessor chain gives the last of each input's. */
  lemma LatestAfter(view: InputView, declared: seq<Key>, taken: seq<Tagged>, i: nat)
    requires BinanceInputs(declared) && Tags(declared, taken) && i < |declared|
    requires view.Valid() && view.declared == InputsOf(declared) && view.history == Ticks(declared, taken)
    ensures LatestTick(view, declared[i]) == Ok(LastRowTick(declared, i, Projection(taken, i)))
  {
    var k := declared[i];
    view.ChainIsLastTick(k.exchange, k.market, k.symbol, k.interval);
    assert IsNormal(k);
    assert Declares(view.declared, k) by {
      assert KeyOf(view.declared[i]) == Ok(k);
    }
    LatestIsLastBar(declared, taken, i);
    hide NormalizeKey, LastTick, LastRowTick, Ticks, Projection, BinanceInputs, Declares;
  }

  lemma LatestOfEach(view: InputView, declared: seq<Key>, rows: seq<seq<Row>>)
    requires BinanceInputs(declared) && |rows| == |declared| && Tags(declared, Merged(rows))
    requires view.Valid() && view.declared == InputsOf(declared) && view.history == Ticks(declared, Merged(rows))
    ensures forall i :: 0 <= i < |declared| ==>
              LatestTick(view, declared[i]) == Ok(LastRowTick(declared, i, rows[i]))
  {
    hide *;
    forall i | 0 <= i < |declared|
      ensures LatestTick(view, declared[i]) == Ok(LastRowTick(declared, i, rows[i]))
    {
      LatestAfter(view, declared, Merged(rows), i);
      MergedProjection(rows, i);
    }
  }
}
