/** The unpaged heap merge over row iterators, and what separates it from the
    paged one: nothing but the rows just before an off-grid start. */
module UnpagedReplay {
  import opened Prelude
  import opened StableMerge
  import opened PagedReplay

  /** What each declared input contributes; one whose table cannot be opened is
      skipped but keeps its position. */
  function Contributions(sources: seq<Option<seq<Row>>>): (rows: seq<seq<Row>>)
    ensures |rows| == |sources|
    ensures forall i :: 0 <= i < |sources| ==>
              rows[i] == if sources[i].Some? then sources[i].value else []
  {
    seq(|sources|, i requires 0 <= i < |sources| => if sources[i].Some? then sources[i].value else [])
  }

  /** The rows not yet pulled from each iterator, given those still to come. */
  ghost predicate ItersMatch(iters: seq<seq<Row>>, outside: set<nat>, remaining: seq<seq<Row>>) {
    && |iters| == |remaining|
    && forall i :: 0 <= i < |iters| ==>
         iters[i] == if i in outside || remaining[i] == [] then remaining[i] else remaining[i][1..]
  }

  /** Pulls the next row of iterator `i`, if any, and pushes it. */
  method PullAndPush(heap: set<Entry>, iters: seq<seq<Row>>, i: nat,
                     ghost outside: set<nat>, ghost remaining: seq<seq<Row>>)
    returns (heap': set<Entry>, iters': seq<seq<Row>>)
    requires HeapMatches(heap, outside, remaining) && ItersMatch(iters, outside, remaining) && i in outside
    ensures HeapMatches(heap', outside - {i}, remaining) && ItersMatch(iters', outside - {i}, remaining)
  {
    heap', iters' := heap, iters;
    HeapAfterPush(heap, outside, remaining, i, 0);
    if iters[i] != [] {
      var row := iters[i][0];
      heap' := heap + {Entry(row.openTime, i, 0, row)};
      iters' := iters[i := iters[i][1..]];
    }
  }

  /** Pops the earliest bar and lets its iterator offer the next one. */
  method TakeEarliest(heap: set<Entry>, iters: seq<seq<Row>>,
                      ghost remaining: seq<seq<Row>>, ghost left: seq<Tagged>)
    returns (next: Tagged, heap': set<Entry>, iters': seq<seq<Row>>, ghost remaining': seq<seq<Row>>)
    requires heap != {} && HeapMatches(heap, {}, remaining) && ItersMatch(iters, {}, remaining)
    requires IsMergeOf(remaining, left)
    ensures HeapMatches(heap', {}, remaining') && ItersMatch(iters', {}, remaining')
    ensures left != [] && next == left[0] && IsMergeOf(remaining', left[1..])
  {
    var entry, rest := HeapPop(heap);
    var i := entry.index;
    LeastEntryIsNext(heap, remaining, entry);
    HeapAfterPop(heap, remaining, entry);
    MergeOfStep(remaining, left, i);
    next := Tagged(i, entry.row);
    remaining' := Tail(remaining, i);
    heap', iters' := PullAndPush(rest, iters, i, {i}, remaining');
    assert {i} - {i} == {};
  }

  /** Pushes the first bar of every source. */
  method FirstRows(sources: seq<Option<seq<Row>>>) returns (heap: set<Entry>, iters: seq<seq<Row>>)
    ensures HeapMatches(heap, {}, Contributions(sources)) && ItersMatch(iters, {}, Contributions(sources))
  {
    ghost var outside := Below(|sources|);
    iters := Contributions(sources);
    heap := {};
    for i := 0 to |sources|
      invariant HeapMatches(heap, outside, Contributions(sources)) && ItersMatch(iters, outside, Contributions(sources))
      invariant forall j :: j in outside <==> i <= j < |sources|
    {
      heap, iters := PullAndPush(heap, iters, i, outside, Contributions(sources));
      outside := outside - {i};
    }
    assert outside == {};
  }

  /** Replays all declared inputs, asking `shouldStop` before every bar; the
      result is what the strategy received, in order. */
  method RunDeclared(sources: seq<Option<seq<Row>>>, shouldStop: nat -> bool) returns (processed: seq<Tagged>)
    ensures processed <= Merged(Contributions(sources))
    ensures forall k :: 0 <= k < |processed| ==> !shouldStop(k)
    ensures processed != Merged(Contributions(sources)) ==> shouldStop(|processed|)
  {
    hide HeapMatches, ItersMatch, IsMergeOf, Merged;
    var heap, iters := FirstRows(sources);
    ghost var remaining, left := Contributions(sources), Merged(Contributions(sources));
    ghost var all := left;
    MergedIsMergeOf(remaining);
    processed := [];
    while heap != {}
      invariant HeapMatches(heap, {}, remaining) && ItersMatch(iters, {}, remaining)
      invariant IsMergeOf(remaining, left) && processed + left == all
      invariant forall k :: 0 <= k < |processed| ==> !shouldStop(k)
      decreases |left|
    {
      if shouldStop(|processed|) {
        return;
      }
      var next;
      next, heap, iters, remaining := TakeEarliest(heap, iters, remaining, left);
      assert [left[0]] + left[1..] == left;
      processed, left := processed + [next], left[1..];
    }
    NothingLeft(remaining, left);
  }

  // ----- paged against unpaged -----

  /** What the paged source reads: everything after one step before the start. */
  function PagedRows(stored: seq<seq<Row>>, steps: seq<nat>, start: int, end: int): seq<seq<Row>>
    requires |steps| == |stored|
  {
    seq(|stored|, i requires 0 <= i < |stored| => Window(stored[i], start - steps[i], end))
  }

  /** What a range query reads: everything from the start on, inclusive. */
  function UnpagedRows(stored: seq<seq<Row>>, start: int, end: int): seq<seq<Row>> {
    seq(|stored|, i requires 0 <= i < |stored| => Window(stored[i], start - 1, end))
  }

  /** No stored bar opens less than one step before the start. */
  ghost predicate NoEarlyRow(rows: seq<Row>, step: nat, start: int, end: int) {
    forall r :: r in rows ==> !(start - step < r.openTime < start && r.openTime <= end)
  }

  lemma {:induction false} WindowsAgree(rows: seq<Row>, step: nat, start: int, end: int)
    requires step > 0 && NoEarlyRow(rows, step, start, end)
    ensures Window(rows, start - step, end) == Window(rows, start - 1, end)
  {
    if rows != [] {
      assert rows[0] in rows;
      assert NoEarlyRow(rows[1..], step, start, end);
      WindowsAgree(rows[1..], step, start, end);
    }
  }

  lemma {:induction false} EarlyRowShows(rows: seq<Row>, step: nat, start: int, end: int)
    requires !NoEarlyRow(rows, step, start, end)
    ensures Window(rows, start - step, end) != Window(rows, start - 1, end)
  {
    var r :| r in rows && start - step < r.openTime < start && r.openTime <= end;
    WindowComplete(rows, start - step, end, r);
    var w := Window(rows, start - 1, end);
    if r in w {
      var k :| 0 <= k < |w| && w[k] == r;
      WindowRow(rows, start - 1, end, k);
    }
  }

  lemma EarlyInPlainTerms(stored: seq<seq<Row>>, steps: seq<nat>, start: int, end: int)
    requires |steps| == |stored|
    ensures (forall i :: 0 <= i < |stored| ==> NoEarlyRow(stored[i], steps[i], start, end)) <==>
            (forall i, k :: 0 <= i < |stored| && 0 <= k < |stored[i]| && stored[i][k].openTime <= end ==>
               !(start - steps[i] < stored[i][k].openTime < start))
  {
    if forall i, k :: 0 <= i < |stored| && 0 <= k < |stored[i]| && stored[i][k].openTime <= end ==>
         !(start - steps[i] < stored[i][k].openTime < start) {
      forall i | 0 <= i < |stored| ensures NoEarlyRow(stored[i], steps[i], start, end) {
        forall r | r in stored[i] ensures !(start - steps[i] < r.openTime < start && r.openTime <= end) {
          var k :| 0 <= k < |stored[i]| && stored[i][k] == r;
        }
      }
    }
  }

  /** Both replays produce the same bars in the same order if and only if no
      stream stores a bar that opens less than one step before the start. */
  lemma PagingInvisible(stored: seq<seq<Row>>, steps: seq<nat>, start: int, end: int)
    requires |steps| == |stored|
    requires forall i :: 0 <= i < |steps| ==> steps[i] > 0
    ensures Merged(PagedRows(stored, steps, start, end)) == Merged(UnpagedRows(stored, start, end)) <==>
              forall i :: 0 <= i < |stored| ==> NoEarlyRow(stored[i], steps[i], start, end)
  {
    hide NoEarlyRow, Window, Merged, Projection;
    var paged, unpaged := PagedRows(stored, steps, start, end), UnpagedRows(stored, start, end);
    if forall i :: 0 <= i < |stored| ==> NoEarlyRow(stored[i], steps[i], start, end) {
      forall i | 0 <= i < |stored| ensures paged[i] == unpaged[i] {
        WindowsAgree(stored[i], steps[i], start, end);
      }
      assert paged == unpaged;
    } else {
      var i :| 0 <= i < |stored| && !NoEarlyRow(stored[i], steps[i], start, end);
      EarlyRowShows(stored[i], steps[i], start, end);
      MergedProjection(paged, i);
      MergedProjection(unpaged, i);
      assert paged[i] != unpaged[i];
    }
  }

  /** The same in plain terms: one replay reads what lies after one step before the
      start, the other what lies from the start on, and they agree exactly if nothing
      up to the end lies strictly in between. */
  lemma PagingInPlainTerms(stored: seq<seq<Row>>, steps: seq<nat>, start: int, end: int)
    requires |steps| == |stored|
    requires forall i :: 0 <= i < |steps| ==> steps[i] > 0
    ensures forall i :: 0 <= i < |stored| ==>
              && PagedRows(stored, steps, start, end)[i] == Window(stored[i], start - steps[i], end)
              && UnpagedRows(stored, start, end)[i] == Window(stored[i], start - 1, end)
    ensures Merged(PagedRows(stored, steps, start, end)) == Merged(UnpagedRows(stored, start, end)) <==>
              forall i, k :: 0 <= i < |stored| && 0 <= k < |stored[i]| && stored[i][k].openTime <= end ==>
                !(start - steps[i] < stored[i][k].openTime < start)
  {
    hide NoEarlyRow, Window, Merged;
    PagingInvisible(stored, steps, start, end);
    EarlyInPlainTerms(stored, steps, start, end);
  }

  /** Both replays, run to their end over the same stored streams. Unless a page is
      broken they hand out the same bars in the same order exactly if no stream
      stores an early bar. */
  method BothReplays(source: PagedBacktestDataSource, sources: seq<Option<seq<Row>>>,
                     ghost stored: seq<seq<Row>>, ghost steps: seq<nat>, ghost start: int, ghost end: int)
    returns (paged: seq<Row>, failed: bool, unpaged: seq<Tagged>, ghost taken: seq<Tagged>)
    requires source.Valid() && !source.started && !source.closed
    requires |steps| == |stored| && forall i :: 0 <= i < |steps| ==> steps[i] > 0
    requires source.remaining == PagedRows(stored, steps, start, end)
    requires Contributions(sources) == UnpagedRows(stored, start, end)
    modifies source, source.cursors
    ensures failed ==> !source.AllChainsOk()
    ensures paged == Rows(taken)
    ensures !failed ==>
              (taken == unpaged <==> forall i :: 0 <= i < |stored| ==> NoEarlyRow(stored[i], steps[i], start, end))
  {
    hide *;
    PagingInvisible(stored, steps, start, end);
    paged, failed, taken := Replay(source, k => false);
    unpaged := RunDeclared(sources, k => false);
    if !failed {
      RowsDetermine(taken, Merged(PagedRows(stored, steps, start, end)));
    }
  }

  lemma RowsDetermine(taken: seq<Tagged>, all: seq<Tagged>)
    ensures taken <= all && Rows(taken) == Rows(all) ==> taken == all
  {
    assert |Rows(taken)| == |taken| && |Rows(all)| == |all|;
  }

  /** Bars on their interval's grid never open early for a start on that grid. */
  lemma OnGridHasNoEarlyRow(rows: seq<Row>, step: nat, start: int, end: int)
    requires step > 0 && start % step == 0
    requires forall r :: r in rows ==> r.openTime % step == 0
    ensures NoEarlyRow(rows, step, start, end)
  {
    forall r | r in rows ensures !(start - step < r.openTime < start) {
      if start - step < r.openTime < start {
        GapIsNoMultiple(start, r.openTime, step);
        assert false;
      }
    }
  }

  lemma GapIsNoMultiple(a: int, b: int, step: nat)
    requires step > 0 && a % step == 0 && 0 < a - b < step
    ensures b % step != 0
  {
    var p, q := a / step, b / step;
    if b % step == 0 {
      if q >= p {
        TimesMonotone(p, q, step);
        assert false;
      } else {
        TimesMonotone(q, p - 1, step);
        assert false;
      }
    }
  }

  /** A start half a minute off the grid replays the bar that opened before it. */
  lemma OffGridStartReplaysEarlierBar()
    ensures PagedRows([[Row(60000, 7)]], [60000], 90000, 200000) == [[Row(60000, 7)]]
    ensures UnpagedRows([[Row(60000, 7)]], 90000, 200000) == [[]]
  {
    var rows := [Row(60000, 7)];
    assert rows[1..] == [];
    assert Window(rows, 30000, 200000) == rows;
    assert Window(rows, 89999, 200000) == [];
  }
}
