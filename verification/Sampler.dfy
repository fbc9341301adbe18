/** The periodic sampler: pushes a wallet sample after every N bars or after T
    seconds without one, whichever comes first. */
module Sampler {
  import opened Prelude

  /** The two counters of the closure. */
  datatype Window = Window(bars: nat, since: real)

  predicate Fires(w: Window, everyBars: nat, maxIdle: real, now: real) {
    !(w.bars + 1 < everyBars && now - w.since < maxIdle)
  }

  function Next(w: Window, everyBars: nat, maxIdle: real, now: real): Window {
    if Fires(w, everyBars, maxIdle, now) then Window(0, now) else Window(w.bars + 1, w.since)
  }

  class PeriodicSample {
    const everyBars: nat
    const maxIdle: real
    var barsSince: nat
    var lastAt: real
    var pushed: nat    // pushes that went through

    ghost function Now(): Window
      reads this
    {
      Window(barsSince, lastAt)
    }

    constructor (everyBars: nat, maxIdle: real, now: real)
      ensures this.everyBars == everyBars && this.maxIdle == maxIdle && Now() == Window(0, now) && pushed == 0
    {
      this.everyBars, this.maxIdle, barsSince, lastAt, pushed := everyBars, maxIdle, 0, now, 0;
    }

    /** After a bar: both counters are reset before the push, so a push that
        fails changes nothing about the next sample. */
    method MaybeFire(now: real, pushFails: bool) returns (fired: bool)
      modifies this
      ensures fired <==> old(barsSince) + 1 >= everyBars || now - old(lastAt) >= maxIdle
      ensures barsSince == if fired then 0 else old(barsSince) + 1
      ensures lastAt == if fired then now else old(lastAt)
      ensures fired == Fires(old(Now()), everyBars, maxIdle, now)
      ensures Now() == Next(old(Now()), everyBars, maxIdle, now)
      ensures pushed == old(pushed) + (if fired && !pushFails then 1 else 0)
    {
      barsSince := barsSince + 1;
      var idle := now - lastAt;
      if barsSince < everyBars && idle < maxIdle {
        return false;
      }
      barsSince := 0;
      lastAt := now;
      if !pushFails {
        pushed := pushed + 1;
      }
      fired := true;
    }
  }

  /** How often a run of bars at these times fires. */
  function Count(w: Window, everyBars: nat, maxIdle: real, times: seq<real>): nat
    decreases |times|
  {
    if times == [] then 0
    else (if Fires(w, everyBars, maxIdle, times[0]) then 1 else 0)
         + Count(Next(w, everyBars, maxIdle, times[0]), everyBars, maxIdle, times[1..])
  }

  /** The clock never runs backwards. */
  ghost predicate Monotone(start: real, times: seq<real>) {
    && (times != [] ==> start <= times[0])
    && (forall i, j :: 0 <= i < j < |times| ==> times[i] <= times[j])
  }

  /** A run of the sampler; which pushes fail does not show in when it fires. */
  method Run(s: PeriodicSample, times: seq<real>, pushFails: nat -> bool) returns (fired: nat)
    modifies s
    ensures fired == Count(old(s.Now()), s.everyBars, s.maxIdle, times)
    ensures s.Now() == After(old(s.Now()), s.everyBars, s.maxIdle, times)
  {
    fired := 0;
    for i := 0 to |times|
      invariant After(s.Now(), s.everyBars, s.maxIdle, times[i..])
                  == After(old(s.Now()), s.everyBars, s.maxIdle, times)
      invariant fired + Count(s.Now(), s.everyBars, s.maxIdle, times[i..])
                  == Count(old(s.Now()), s.everyBars, s.maxIdle, times)
    {
      assert times[i..][1..] == times[i + 1..];
      var f := s.MaybeFire(times[i], pushFails(i));
      fired := fired + (if f then 1 else 0);
    }
  }

  /** The window after a run of bars. */
  function After(w: Window, everyBars: nat, maxIdle: real, times: seq<real>): Window
    decreases |times|
  {
    if times == [] then w else After(Next(w, everyBars, maxIdle, times[0]), everyBars, maxIdle, times[1..])
  }

  /** What one bar does to the window, and to the number of samples. */
  lemma OneBar(w: Window, everyBars: nat, maxIdle: real, now: real)
    ensures After(w, everyBars, maxIdle, [now]) ==
              if w.bars + 1 >= everyBars || now - w.since >= maxIdle then Window(0, now)
              else Window(w.bars + 1, w.since)
    ensures Count(w, everyBars, maxIdle, [now]) ==
              if w.bars + 1 >= everyBars || now - w.since >= maxIdle then 1 else 0
  {
    assert [now][1..] == [];
  }

  /** A longer run is its parts one after the other. */
  lemma {:induction false} RunsJoin(w: Window, everyBars: nat, maxIdle: real, a: seq<real>, b: seq<real>)
    ensures After(w, everyBars, maxIdle, a + b)
              == After(After(w, everyBars, maxIdle, a), everyBars, maxIdle, b)
    ensures Count(w, everyBars, maxIdle, a + b)
              == Count(w, everyBars, maxIdle, a) + Count(After(w, everyBars, maxIdle, a), everyBars, maxIdle, b)
    decreases |a|
  {
    if a == [] {
      assert a + b == b;
    } else {
      RunsJoin(Next(w, everyBars, maxIdle, a[0]), everyBars, maxIdle, a[1..], b);
      assert (a + b)[1..] == a[1..] + b;
    }
  }

  /** Right after any bar, less than the idle limit has passed since the last
      sample (or the start) and fewer bars than the bar limit are unsampled: a
      sample is never overdue. */
  lemma NeverOverdue(everyBars: nat, maxIdle: real, start: real, times: seq<real>)
    requires everyBars >= 1 && maxIdle > 0.0 && times != []
    ensures var w := After(Window(0, start), everyBars, maxIdle, times);
            times[|times| - 1] - w.since < maxIdle && w.bars < everyBars
  {
    var n := |times| - 1;
    assert times == times[..n] + [times[n]];
    RunsJoin(Window(0, start), everyBars, maxIdle, times[..n], [times[n]]);
    OneBar(After(Window(0, start), everyBars, maxIdle, times[..n]), everyBars, maxIdle, times[n]);
  }

  /** The elapsed time of a run: from the window's start to the last bar. */
  function Elapsed(start: real, times: seq<real>): real {
    if times == [] then 0.0 else times[|times| - 1] - start
  }

  /** Fires split into those caused by the bar limit and the others. */
  datatype Split = Split(byBars: nat, byIdle: nat)

  function Counts(w: Window, everyBars: nat, maxIdle: real, times: seq<real>): Split
    decreases |times|
  {
    if times == [] then Split(0, 0)
    else
      var rest := Counts(Next(w, everyBars, maxIdle, times[0]), everyBars, maxIdle, times[1..]);
      if !Fires(w, everyBars, maxIdle, times[0]) then rest
      else if w.bars + 1 >= everyBars then rest.(byBars := rest.byBars + 1)
      else rest.(byIdle := rest.byIdle + 1)
  }

  lemma {:induction false} SplitAddsUp(w: Window, everyBars: nat, maxIdle: real, times: seq<real>)
    ensures var c := Counts(w, everyBars, maxIdle, times); c.byBars + c.byIdle == Count(w, everyBars, maxIdle, times)
    decreases |times|
  {
    if times != [] {
      SplitAddsUp(Next(w, everyBars, maxIdle, times[0]), everyBars, maxIdle, times[1..]);
    }
  }

  function Steps(n: nat, m: nat): nat { n * m }

  function Span(n: nat, t: real): real { n as real * t }

  lemma StepsNext(n: nat, m: nat, t: real)
    ensures Steps(n + 1, m) == Steps(n, m) + m && Steps(0, m) == 0
    ensures Span(n + 1, t) == Span(n, t) + t && Span(0, t) == 0.0
  {
  }

  /** The bookkeeping behind the bounds: every bar-limit fire uses up N bars,
      every idle fire at least T seconds, and N bars never pass without a fire. */
  lemma {:induction false} Ledger(w: Window, everyBars: nat, maxIdle: real, times: seq<real>)
    requires everyBars >= 1 && maxIdle > 0.0 && w.bars < everyBars && Monotone(w.since, times)
    ensures var c := Counts(w, everyBars, maxIdle, times);
            && Steps(c.byBars, everyBars) <= w.bars + |times|
            && Span(c.byIdle, maxIdle) <= Elapsed(w.since, times)
            && w.bars + |times| < Steps(c.byBars + c.byIdle, everyBars) + everyBars
    decreases |times|
  {
    StepsNext(0, everyBars, maxIdle);
    if times != [] {
      var next := Next(w, everyBars, maxIdle, times[0]);
      var c := Counts(next, everyBars, maxIdle, times[1..]);
      Ledger(next, everyBars, maxIdle, times[1..]);
      StepsNext(c.byBars, everyBars, maxIdle);
      StepsNext(c.byIdle, everyBars, maxIdle);
      StepsNext(c.byBars + c.byIdle, everyBars, maxIdle);
      hide Steps, Span;
      assert Elapsed(w.since, times) >= 0.0;
    }
  }

  /** Over k bars with a monotone clock the sampler fires at least k div N
      times and at most k div N plus the elapsed time in whole idle limits. */
  lemma SampleBounds(everyBars: nat, maxIdle: real, start: real, times: seq<real>)
    requires everyBars >= 1 && maxIdle > 0.0 && Monotone(start, times)
    ensures var n := Count(Window(0, start), everyBars, maxIdle, times);
            && |times| / everyBars <= n
            && n <= |times| / everyBars
                    + ((if times == [] then 0.0 else times[|times| - 1] - start) / maxIdle).Floor
  {
    var w := Window(0, start);
    var c := Counts(w, everyBars, maxIdle, times);
    Ledger(w, everyBars, maxIdle, times);
    SplitAddsUp(w, everyBars, maxIdle, times);
    AtMostQuotient(c.byBars, everyBars, |times|);
    AtLeastQuotient(c.byBars + c.byIdle, everyBars, |times|);
    AtMostFloor(c.byIdle, maxIdle, Elapsed(start, times));
  }

  lemma StepsMonotone(a: nat, b: nat, m: nat)
    requires a <= b
    ensures Steps(a, m) <= Steps(b, m)
  {
    TimesMonotone(a, b, m);
  }

  lemma QuotientSteps(k: nat, m: nat)
    requires m >= 1
    ensures Steps(k / m, m) <= k < Steps(k / m + 1, m)
  {
    assert (k / m + 1) * m == (k / m) * m + m;
  }

  lemma AtMostQuotient(n: nat, m: nat, k: nat)
    requires m >= 1 && Steps(n, m) <= k
    ensures n <= k / m
  {
    hide Steps;
    QuotientSteps(k, m);
    if n >= k / m + 1 {
      StepsMonotone(k / m + 1, n, m);
    }
  }

  lemma AtLeastQuotient(n: nat, m: nat, k: nat)
    requires m >= 1 && k < Steps(n, m) + m
    ensures k / m <= n
  {
    hide Steps;
    QuotientSteps(k, m);
    StepsNext(n, m, 0.0);
    if k / m >= n + 1 {
      StepsMonotone(n + 1, k / m, m);
    }
  }

  lemma AtMostFloor(n: nat, t: real, e: real)
    requires t > 0.0 && Span(n, t) <= e
    ensures n <= (e / t).Floor
  {
    var u := e / t;
    assert u * t == e;
    assert (n as real - u) * t == n as real * t - u * t;
    assert u < n as real ==> (n as real - u) * t > 0.0;
  }
}
