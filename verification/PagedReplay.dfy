/** The paged k-way replay: cursors refilled page by page in the middle of a
    heap merge, proved to produce exactly the stable merge however the server
    cuts the streams into pages. */
module PagedReplay {
  import opened Prelude
  import opened StableMerge
  import Intervals

  datatype Page = Page(rows: seq<Row>, nextCursor: int, hasMore: bool)

  /** The page server as seen by one replay: the page it returns for a stream
      and a "start after" time. */
  type Server = (nat, int) -> Page

  /** The outcome of resuming the generator. */
  datatype Step = Yield(row: Row) | Stop | Raise

  // ----- the server's contract -----

  /** The stored rows a replay may still see: after the cursor, up to the end. */
  function Window(rows: seq<Row>, after: int, end: int): seq<Row> {
    if rows == [] then []
    else (if after < rows[0].openTime <= end then [rows[0]] else []) + Window(rows[1..], after, end)
  }

  /** A page that claims more rows but carries none. */
  predicate Broken(p: Page) { p.rows == [] && p.hasMore }

  /** A page is some prefix of the remaining rows, of any size up to the limit;
      `hasMore` may over-claim but never hides rows. */
  ghost predicate Serves(p: Page, rest: seq<Row>, limit: nat) {
    && |p.rows| <= limit
    && p.rows <= rest
    && (p.rows != [] ==> p.nextCursor == p.rows[|p.rows| - 1].openTime)
    && (|p.rows| < |rest| ==> p.hasMore)
  }

  ghost predicate Contract(server: Server, stored: seq<seq<Row>>, end: int, limit: nat) {
    && AllIncreasing(stored)
    && (forall i, k :: 0 <= i < |stored| && 0 <= k < |stored[i]| ==> stored[i][k].openTime > 0)
    && forall i: nat, c: int {:trigger server(i, c)} :: i < |stored| ==>
         Serves(server(i, c), Window(stored[i], c, end), limit)
  }

  function NextCursor(p: Page, cursor: int): int {
    if p.nextCursor != 0 then p.nextCursor else cursor
  }

  /** Every row of the window is a stored row after the cursor, up to the end. */
  lemma {:induction false} WindowRow(rows: seq<Row>, after: int, end: int, k: nat)
    requires k < |Window(rows, after, end)|
    ensures Window(rows, after, end)[k] in rows
    ensures after < Window(rows, after, end)[k].openTime <= end
  {
    var here := if after < rows[0].openTime <= end then [rows[0]] else [];
    if k >= |here| {
      WindowRow(rows[1..], after, end, k - |here|);
    }
  }

  /** Every stored row after the cursor, up to the end, is in the window. */
  lemma {:induction false} WindowComplete(rows: seq<Row>, after: int, end: int, r: Row)
    requires r in rows && after < r.openTime <= end
    ensures r in Window(rows, after, end)
  {
    if r != rows[0] {
      assert r in rows[1..];
      WindowComplete(rows[1..], after, end, r);
    }
  }

  lemma {:induction false} WindowIncreasing(rows: seq<Row>, after: int, end: int)
    requires Increasing(rows)
    ensures Increasing(Window(rows, after, end))
  {
    if rows != [] {
      var w := Window(rows[1..], after, end);
      WindowIncreasing(rows[1..], after, end);
      forall k | 0 <= k < |w| ensures rows[0].openTime < w[k].openTime {
        WindowRow(rows[1..], after, end, k);
      }
    }
  }

  lemma {:induction false} WindowFloorIrrelevant(rows: seq<Row>, a: int, b: int, end: int)
    requires forall k :: 0 <= k < |rows| ==> a < rows[k].openTime && b < rows[k].openTime
    ensures Window(rows, a, end) == Window(rows, b, end)
  {
    if rows != [] {
      WindowFloorIrrelevant(rows[1..], a, b, end);
    }
  }

  /** Moving the cursor to the k-th remaining row leaves the rows after it. */
  lemma {:induction false} WindowAdvance(rows: seq<Row>, after: int, end: int, k: nat)
    requires Increasing(rows)
    requires 0 < k <= |Window(rows, after, end)|
    ensures Window(rows, Window(rows, after, end)[k - 1].openTime, end) == Window(rows, after, end)[k..]
  {
    NoRowsNoWindow(after, end);
    hide Window;
    WindowCons(rows, after, end);
    IncreasingTail(rows);
    var first, rest := rows[0], Window(rows[1..], after, end);
    if after < first.openTime <= end && k == 1 {
      hide Increasing;
      WindowFloorIrrelevant(rows[1..], first.openTime, after, end);
      WindowCons(rows, first.openTime, end);
      assert ([first] + rest)[1..] == rest;
    } else {
      hide Increasing;
      var j := if after < first.openTime <= end then k - 1 else k;
      WindowRow(rows[1..], after, end, j - 1);
      WindowAdvance(rows[1..], after, end, j);
      assert rest[j - 1] in rows[1..];
      WindowCons(rows, rest[j - 1].openTime, end);
      assert j == k - 1 ==> ([first] + rest)[k..] == rest[j..];
    }
  }

  lemma IncreasingTail(rows: seq<Row>)
    requires Increasing(rows) && rows != []
    ensures Increasing(rows[1..])
    ensures forall r :: r in rows[1..] ==> rows[0].openTime < r.openTime
  {
  }

  lemma WindowCons(rows: seq<Row>, after: int, end: int)
    requires rows != []
    ensures after < rows[0].openTime <= end ==>
              Window(rows, after, end) == [rows[0]] + Window(rows[1..], after, end)
    ensures !(after < rows[0].openTime <= end) ==> Window(rows, after, end) == Window(rows[1..], after, end)
  {
  }

  lemma NoRowsNoWindow(after: int, end: int)
    ensures Window([], after, end) == []
  {
  }

  /** Following a stream's pages from a cursor never meets a broken page. The
      pages of a server that keeps its contract always leave fewer rows. */
  ghost predicate ChainOk(server: Server, stored: seq<Row>, end: int, i: nat, cursor: int)
    decreases |Window(stored, cursor, end)|
  {
    var p := server(i, cursor);
    var next := NextCursor(p, cursor);
    && !Broken(p)
    && (p.hasMore ==>
          |Window(stored, next, end)| < |Window(stored, cursor, end)| && ChainOk(server, stored, end, i, next))
  }

  /** Taking a page loses nothing: its rows and what is after its cursor are
      exactly what was left, and the pages still to come are the same chain. */
  lemma PageAdvance(server: Server, stored: seq<seq<Row>>, end: int, limit: nat, i: nat, cursor: int)
    requires Contract(server, stored, end, limit) && i < |stored|
    ensures var p := server(i, cursor); var next := NextCursor(p, cursor);
            && |p.rows| <= limit
            && (Broken(p) ==> !ChainOk(server, stored[i], end, i, cursor))
            && (!Broken(p) ==>
                  && Window(stored[i], cursor, end) == p.rows + (if p.hasMore then Window(stored[i], next, end) else [])
                  && ChainOk(server, stored[i], end, i, cursor)
                       == (!p.hasMore || ChainOk(server, stored[i], end, i, next)))
  {
    TakePage(server, stored, end, limit, i, cursor);
    ChainStep(server, stored[i], end, i, cursor);
    hide *;
  }

  /** A page and what follows its cursor are what was left, and less is left then. */
  lemma TakePage(server: Server, stored: seq<seq<Row>>, end: int, limit: nat, i: nat, cursor: int)
    requires Contract(server, stored, end, limit) && i < |stored|
    ensures var p := server(i, cursor); var next := NextCursor(p, cursor);
            && |p.rows| <= limit
            && (Broken(p) <==> p.rows == [] && p.hasMore)
            && (!Broken(p) ==>
                  && Window(stored[i], cursor, end) == p.rows + (if p.hasMore then Window(stored[i], next, end) else [])
                  && (p.hasMore ==> |Window(stored[i], next, end)| < |Window(stored[i], cursor, end)|))
  {
    var p := server(i, cursor);
    var rest := Window(stored[i], cursor, end);
    assert Serves(p, rest, limit) && Increasing(stored[i]);
    assert p.rows != [] ==> rest[|p.rows| - 1] in stored[i] by {
      if p.rows != [] {
        WindowRow(stored[i], cursor, end, |p.rows| - 1);
      }
    }
    assert forall r :: r in stored[i] ==> r.openTime > 0;
    hide Window, Contract, Increasing;
    if p.rows != [] {
      var k := |p.rows|;
      assert p.rows[k - 1] == rest[k - 1];
      WindowAdvance(stored[i], cursor, end, k);
      assert rest == rest[..k] + rest[k..];
    }
  }

  lemma ChainStep(server: Server, stored: seq<Row>, end: int, i: nat, cursor: int)
    ensures var p := server(i, cursor); var next := NextCursor(p, cursor);
            ChainOk(server, stored, end, i, cursor) <==>
              !Broken(p) &&
              (p.hasMore ==>
                 && |Window(stored, next, end)| < |Window(stored, cursor, end)|
                 && ChainOk(server, stored, end, i, next))
  {
    hide Window;
  }

  ghost function Below(n: nat): (s: set<nat>)
    ensures forall i: nat :: i in s <==> i < n
  {
    if n == 0 then {} else Below(n - 1) + {n - 1}
  }

  // ----- the heap -----

  /** (open_time, cursor index, sequence, item); the index names the cursor. */
  datatype Entry = Entry(openTime: int, index: nat, sequence: nat, row: Row)

  predicate KeyLess(a: Entry, b: Entry) {
    || a.openTime < b.openTime
    || (a.openTime == b.openTime && a.index < b.index)
    || (a.openTime == b.openTime && a.index == b.index && a.sequence < b.sequence)
  }

  /** Removes the smallest entry. */
  method HeapPop(heap: set<Entry>) returns (least: Entry, rest: set<Entry>)
    requires heap != {}
    ensures least in heap && rest == heap - {least}
    ensures forall e :: e in heap ==> !KeyLess(e, least)
  {
    least :| least in heap;
    var todo := heap - {least};
    while todo != {}
      invariant todo <= heap && least in heap
      invariant forall e :: e in heap && e !in todo ==> !KeyLess(e, least)
      decreases todo
    {
      var e :| e in todo;
      if KeyLess(e, least) {
        least := e;
      }
      todo := todo - {e};
    }
    rest := heap - {least};
  }

  /** The heap holds, for every stream that is not outside it, exactly the
      stream's next row. */
  ghost predicate HeapMatches(heap: set<Entry>, outside: set<nat>, remaining: seq<seq<Row>>) {
    && (forall i :: i in outside ==> i < |remaining|)
    && (forall e :: e in heap ==>
          && e.index < |remaining| && e.index !in outside
          && remaining[e.index] != [] && e.row == remaining[e.index][0]
          && e.openTime == e.row.openTime)
    && (forall e, f :: e in heap && f in heap && e.index == f.index ==> e == f)
    && (forall i: nat :: i < |remaining| && i !in outside && remaining[i] != [] ==>
          exists e :: e in heap && e.index == i)
  }

  lemma HeapAfterPush(heap: set<Entry>, outside: set<nat>, remaining: seq<seq<Row>>, i: nat, sequence: nat)
    requires HeapMatches(heap, outside, remaining) && i in outside
    ensures remaining[i] == [] ==> HeapMatches(heap, outside - {i}, remaining)
    ensures remaining[i] != [] ==>
              var e := Entry(remaining[i][0].openTime, i, sequence, remaining[i][0]);
              HeapMatches(heap + {e}, outside - {i}, remaining)
  {
    if remaining[i] != [] {
      var e := Entry(remaining[i][0].openTime, i, sequence, remaining[i][0]);
      forall j: nat | j < |remaining| && j !in outside - {i} && remaining[j] != []
        ensures exists f :: f in heap + {e} && f.index == j
      {
        if j == i {
          assert e in heap + {e};
        } else {
          var f :| f in heap && f.index == j;
          assert f in heap + {e};
        }
      }
    }
  }

  /** With every head in the heap, its smallest entry is the next row of the
      merge; the sequence number plays no part. */
  lemma LeastEntryIsNext(heap: set<Entry>, remaining: seq<seq<Row>>, e: Entry)
    requires HeapMatches(heap, {}, remaining)
    requires e in heap && forall f :: f in heap ==> !KeyLess(f, e)
    ensures IsLeast(remaining, e.index) && remaining[e.index][0] == e.row
  {
    forall j | 0 <= j < |remaining| && remaining[j] != [] && j != e.index
      ensures Before(Tagged(e.index, e.row), Tagged(j, remaining[j][0]))
    {
      var f :| f in heap && f.index == j;
      assert !KeyLess(f, e);
    }
  }

  /** An empty heap with no stream outside it means the merge is over. */
  lemma NothingLeft(remaining: seq<seq<Row>>, left: seq<Tagged>)
    requires HeapMatches({}, {}, remaining) && IsMergeOf(remaining, left)
    ensures AllEmpty(remaining) && left == []
  {
    assert AllEmpty(remaining);
  }

  lemma HeapAfterPop(heap: set<Entry>, remaining: seq<seq<Row>>, e: Entry)
    requires HeapMatches(heap, {}, remaining) && e in heap
    ensures HeapMatches(heap - {e}, {e.index}, Tail(remaining, e.index))
  {
    var rest := Tail(remaining, e.index);
    forall j: nat | j < |rest| && j !in {e.index} && rest[j] != []
      ensures exists f :: f in heap - {e} && f.index == j
    {
      var f :| f in heap && f.index == j;
      assert f in heap - {e};
    }
  }

  /** Two entries in the heap are ordered by time and stream alone: the sequence
      number, and the row behind it, are never compared. */
  lemma SequenceNeverDecides(heap: set<Entry>, outside: set<nat>, remaining: seq<seq<Row>>,
                             a: Entry, b: Entry)
    requires HeapMatches(heap, outside, remaining)
    requires a in heap && b in heap && a != b
    ensures a.index != b.index
    ensures KeyLess(a, b) <==> Before(Tagged(a.index, a.row), Tagged(b.index, b.row))
  {
  }

  class Cursor {
    const index: nat
    var cursorTime: int
    var rows: seq<Row>
    var rowIndex: nat
    var exhausted: bool

    constructor (index: nat, cursorTime: int)
      ensures this.index == index && this.cursorTime == cursorTime
      ensures rows == [] && rowIndex == 0 && !exhausted
    {
      this.index := index;
      this.cursorTime := cursorTime;
      rows := [];
      rowIndex := 0;
      exhausted := false;
    }
  }

  lemma TakeFirst(rows: seq<Row>, k: nat, later: seq<Row>)
    requires k < |rows|
    ensures rows[k..] + later == [rows[k]] + (rows[k + 1..] + later)
  {
    assert rows[k..] == [rows[k]] + rows[k + 1..];
  }

  class PagedBacktestDataSource {
    const server: Server
    const cursors: seq<Cursor>
    var heap: set<Entry>
    var sequence: nat
    var started: bool
    var closed: bool
    var current: Option<nat>   // the cursor whose row was yielded last

    // What the server has stored, and the cursor times the replay starts from.
    ghost const stored: seq<seq<Row>>
    ghost const end: int
    ghost const limit: nat
    ghost const starts: seq<int>

    ghost var remaining: seq<seq<Row>>    // per stream, what is still to come
    ghost var outside: set<nat>           // streams without their head in the heap
    ghost var raised: bool

    ghost function Initial(): seq<seq<Row>>
      requires |starts| == |stored|
    {
      seq(|stored|, i requires 0 <= i < |stored| => Window(stored[i], starts[i], end))
    }

    ghost predicate Chain(i: nat, cursor: int)
      requires i < |stored|
    {
      ChainOk(server, stored[i], end, i, cursor)
    }

    /** No stream's pages ever claim more rows without carrying any. */
    ghost predicate AllChainsOk()
      requires |starts| == |stored|
    {
      forall i :: 0 <= i < |stored| ==> Chain(i, starts[i])
    }

    /** The rows of a stream the generator has not taken out of its cursor. */
    ghost function Untaken(c: Cursor): seq<Row>
      requires c.index < |stored| && c.rowIndex <= |c.rows|
      reads c
    {
      c.rows[c.rowIndex..] + (if c.exhausted then [] else Window(stored[c.index], c.cursorTime, end))
    }

    ghost predicate CursorOk(i: nat)
      requires i < |cursors| == |stored| == |starts|
      reads cursors[i]
    {
      var c := cursors[i];
      && c.index == i
      && c.rowIndex <= |c.rows| <= limit
      && Chain(i, starts[i]) == (c.exhausted || Chain(i, c.cursorTime))
    }

    /** What each cursor still owes, given whether its head is in the heap. */
    ghost predicate StreamOk(i: nat)
      requires i < |cursors| == |stored| == |starts| == |remaining|
      reads this`outside, this`remaining, cursors[i]
    {
      && CursorOk(i)
      && if i in outside then Untaken(cursors[i]) == remaining[i]
         else if remaining[i] == [] then Untaken(cursors[i]) == [] && cursors[i].exhausted
         else Untaken(cursors[i]) == remaining[i][1..]
    }

    ghost function Others(i: nat): set<Cursor> { set c | c in cursors && c.index != i }

    /** The streams other than `i`, whose cursors stay as they are. */
    ghost predicate OthersOk(i: nat)
      requires |cursors| == |stored| == |starts| == |remaining|
      requires forall j :: 0 <= j < |cursors| ==> cursors[j].index == j
      reads this`outside, this`remaining, Others(i)
    {
      forall j :: 0 <= j < |stored| && j != i ==> StreamOk(j)
    }

    /** Holds while the generator runs, `outside` saying how far. */
    ghost predicate Inv()
      reads this`heap, this`outside, this`remaining, cursors
    {
      && |cursors| == |stored| == |starts| == |remaining|
      && (forall i :: 0 <= i < |cursors| ==> cursors[i].index == i)
      && (forall i :: 0 <= i < |stored| ==> StreamOk(i))
      && HeapMatches(heap, outside, remaining)
    }

    /** No page was broken and no cursor has anything left. */
    ghost predicate FullyRead()
      reads this`remaining, cursors
    {
      && |starts| == |stored|
      && AllEmpty(remaining) && AllChainsOk()
      && forall i :: 0 <= i < |cursors| ==> cursors[i].exhausted && cursors[i].rowIndex == |cursors[i].rows|
    }

    /** The rows held in the first `n` cursors' page buffers. */
    ghost function Buffered(n: nat): nat
      requires n <= |cursors|
      reads cursors
    {
      if n == 0 then 0 else Buffered(n - 1) + |cursors[n - 1].rows|
    }

    lemma {:induction false} BufferBound(n: nat)
      requires Inv() && n <= |cursors|
      ensures Buffered(n) <= n * limit
    {
      if n > 0 {
        BufferBound(n - 1);
        assert CursorOk(n - 1) by {
          assert StreamOk(n - 1);
        }
        assert n * limit == (n - 1) * limit + limit;
      }
    }

    /** Holds between two resumptions of the generator. */
    ghost predicate Valid()
      reads this, cursors
    {
      && Contract(server, stored, end, limit)
      && Inv()
      && (!started ==>
            && heap == {} && !closed
            && forall i :: 0 <= i < |cursors| ==> i in outside && cursors[i].rows == [] && !cursors[i].exhausted)
      && (started && !closed ==>
            if current.None? then outside == {}
            else current.value < |cursors| && outside == {current.value})
      && (raised ==> closed && !AllChainsOk())
      && (closed && !raised ==> FullyRead())
    }

    static method MakeCursors(startTime: int, steps: seq<int>) returns (made: seq<Cursor>)
      ensures |made| == |steps| && fresh(made)
      ensures forall j :: 0 <= j < |steps| ==>
                && made[j].index == j && made[j].cursorTime == startTime - steps[j]
                && made[j].rows == [] && made[j].rowIndex == 0 && !made[j].exhausted
    {
      made := [];
      for i := 0 to |steps|
        invariant |made| == i && fresh(made)
        invariant forall j :: 0 <= j < i ==>
                    && made[j].index == j && made[j].cursorTime == startTime - steps[j]
                    && made[j].rows == [] && made[j].rowIndex == 0 && !made[j].exhausted
      {
        var c := new Cursor(i, startTime - steps[i]);
        made := made + [c];
      }
    }

    constructor (server: Server, startTime: int, steps: seq<int>,
                 ghost stored: seq<seq<Row>>, ghost end: int, ghost limit: nat)
      requires Contract(server, stored, end, limit)
      requires |steps| == |stored|
      ensures Valid() && !started && !closed && remaining == Initial()
      ensures fresh(cursors) && |cursors| == |stored|
      ensures this.server == server && this.stored == stored && this.end == end && this.limit == limit
      ensures starts == seq(|steps|, i requires 0 <= i < |steps| => startTime - steps[i])
    {
      var made := MakeCursors(startTime, steps);
      this.server, cursors := server, made;
      heap, sequence, started, closed, current := {}, 0, false, false, None;
      this.stored, this.end, this.limit := stored, end, limit;
      starts := seq(|steps|, i requires 0 <= i < |steps| => startTime - steps[i]);
      raised := false;
      remaining := seq(|steps|, i requires 0 <= i < |steps| => Window(stored[i], startTime - steps[i], end));
      outside := Below(|steps|);
      new;
      assert remaining == Initial();
      forall i | 0 <= i < |stored| ensures StreamOk(i) {
        assert Untaken(cursors[i]) == [] + Window(stored[i], starts[i], end);
      }
    }

    /** Fetches the next page of an emptied cursor. Raises exactly on a broken
        page; otherwise nothing is lost, whatever the page size. */
    method Fill(i: nat) returns (bad: bool)
      requires Contract(server, stored, end, limit)
      requires Inv() && i < |cursors| && i in outside && cursors[i].rowIndex == |cursors[i].rows|
      modifies cursors[i]
      ensures Inv()
      ensures bad ==> !AllChainsOk()
      ensures !bad && cursors[i].rowIndex == |cursors[i].rows| ==> cursors[i].exhausted
    {
      var c := cursors[i];
      assert StreamOk(i) && OthersOk(i);
      if c.exhausted {
        return false;
      }
      PageAdvance(server, stored, end, limit, i, c.cursorTime);
      hide Contract, Window, ChainOk, HeapMatches;
      var page := server(i, c.cursorTime);
      if page.rows == [] && page.hasMore {
        return true;
      }
      ghost var w := Window(stored[i], c.cursorTime, end);
      c.rows := page.rows;
      c.rowIndex := 0;
      c.cursorTime := if page.nextCursor != 0 then page.nextCursor else c.cursorTime;
      c.exhausted := !page.hasMore;
      bad := false;
      assert Untaken(c) == w;
      assert StreamOk(i) && OthersOk(i);
    }

    /** Between taking a row out of cursor `i` and pushing it. */
    ghost predicate Popped(i: nat, item: Option<Row>)
      reads this`heap, this`outside, this`remaining, cursors
    {
      && |cursors| == |stored| == |starts| == |remaining|
      && i < |cursors| && i in outside
      && (forall j :: 0 <= j < |cursors| ==> cursors[j].index == j)
      && CursorOk(i)
      && remaining[i] == (if item.Some? then [item.value] else []) + Untaken(cursors[i])
      && (item.None? ==> cursors[i].rowIndex == |cursors[i].rows|)
      && OthersOk(i)
      && HeapMatches(heap, outside, remaining)
    }

    /** The next buffered row of cursor `i`, if any. */
    method Pop(i: nat) returns (item: Option<Row>)
      requires Inv() && i < |cursors| && i in outside
      modifies cursors[i]
      ensures Popped(i, item)
      ensures item.None? ==> Inv() && unchanged(cursors[i])
    {
      var c := cursors[i];
      assert StreamOk(i) && OthersOk(i);
      if c.rowIndex >= |c.rows| {
        item := None;
        assert Untaken(c) == [] + Untaken(c);
      } else {
        TakeFirst(c.rows, c.rowIndex, if c.exhausted then [] else Window(stored[i], c.cursorTime, end));
        item := Some(c.rows[c.rowIndex]);
        c.rowIndex := c.rowIndex + 1;
        assert OthersOk(i);
      }
    }

    /** Puts the row just taken into the heap. */
    method Push(i: nat, item: Option<Row>)
      requires Popped(i, item)
      requires item.None? ==> cursors[i].exhausted
      modifies this`heap, this`sequence, this`outside
      ensures Inv() && outside == old(outside) - {i}
    {
      HeapAfterPush(heap, outside, remaining, i, sequence);
      if item.Some? {
        heap := heap + {Entry(item.value.openTime, i, sequence, item.value)};
        sequence := sequence + 1;
      }
      outside := outside - {i};
      forall j | 0 <= j < |stored| ensures StreamOk(j) {
        assert j != i ==> old(StreamOk(j));
      }
    }

    /** Before the first row: every cursor is filled and offers its first row. */
    method Start() returns (bad: bool)
      requires Contract(server, stored, end, limit) && Inv()
      requires forall i :: 0 <= i < |cursors| ==> i in outside && cursors[i].rows == [] && !cursors[i].exhausted
      modifies this`heap, this`sequence, this`outside, this`started, this`current, cursors
      ensures Inv() && started && current == None
      ensures bad ==> !AllChainsOk()
      ensures !bad ==> outside == {}
    {
      started := true;
      current := None;
      for i := 0 to |cursors|
        invariant Inv() && started && current == None
        invariant forall j :: j in outside ==> i <= j
        invariant forall j :: i <= j < |cursors| ==> j in outside && cursors[j].rows == [] && !cursors[j].exhausted
      {
        bad := LoadFirst(i);
        if bad {
          return;
        }
      }
      bad := false;
    }

    method LoadFirst(i: nat) returns (bad: bool)
      requires Contract(server, stored, end, limit) && Inv()
      requires i < |cursors| && i in outside && cursors[i].rows == []
      modifies this`heap, this`sequence, this`outside, cursors[i]
      ensures Inv()
      ensures bad ==> !AllChainsOk()
      ensures !bad ==> outside == old(outside) - {i}
    {
      assert StreamOk(i);
      bad := Fill(i);
      if !bad {
        var item := Pop(i);
        Push(i, item);
      }
    }

    /** After a yield: the cursor offers its next row, fetching a page when its
        buffer is used up. */
    method Advance(i: nat) returns (bad: bool)
      requires Contract(server, stored, end, limit)
      requires Inv() && i < |cursors| && i in outside
      modifies this`heap, this`sequence, this`outside, cursors[i]
      ensures Inv()
      ensures bad ==> !AllChainsOk()
      ensures !bad ==> outside == old(outside) - {i}
    {
      var item := Pop(i);
      if item.None? && !cursors[i].exhausted {
        bad := Fill(i);
        if bad {
          return;
        }
        item := Pop(i);
      }
      Push(i, item);
      bad := false;
    }

    /** With every head in the heap and the heap empty, nothing is left. */
    lemma EmptyHeapIsEnd()
      requires Inv() && outside == {} && heap == {}
      ensures FullyRead()
    {
      forall i | 0 <= i < |cursors|
        ensures remaining[i] == [] && cursors[i].exhausted && cursors[i].rowIndex == |cursors[i].rows|
        ensures Chain(i, starts[i])
      {
        assert StreamOk(i);
      }
    }

    /** Resumes the generator once: it yields the earliest row still to come,
        unless all rows are out or a page was broken. */
    method Next() returns (r: Step)
      requires Valid()
      modifies this, cursors
      ensures Valid() && started
      ensures r.Yield? ==>
                && current.Some? && current.value < |cursors|
                && IsLeast(old(remaining), current.value) && r.row == old(remaining)[current.value][0]
                && remaining == Tail(old(remaining), current.value)
      ensures !r.Yield? ==> closed && remaining == old(remaining)
      ensures r.Yield? ==> !closed
      ensures !old(closed) ==> raised == r.Raise?
    {
      if closed {
        return Stop;
      }
      var bad := Prepare();
      if bad {
        closed, raised := true, true;
        return Raise;
      }
      if heap == {} {
        EmptyHeapIsEnd();
        closed := true;
        return Stop;
      }
      var entry, rest := HeapPop(heap);
      Deliver(entry, rest);
      r := Yield(entry.row);
    }

    /** Brings every stream's head into the heap. */
    method Prepare() returns (bad: bool)
      requires Valid() && !closed
      modifies this`heap, this`sequence, this`outside, this`started, this`current, cursors
      ensures Inv() && started
      ensures bad ==> !AllChainsOk()
      ensures !bad ==> outside == {}
    {
      if !started {
        bad := Start();
      } else if current.Some? {
        bad := Advance(current.value);
      } else {
        bad := false;
      }
    }

    /** Hands out the smallest entry and leaves its cursor outside the heap. */
    method Deliver(entry: Entry, rest: set<Entry>)
      requires Inv() && outside == {}
      requires entry in heap && rest == heap - {entry}
      requires forall f :: f in heap ==> !KeyLess(f, entry)
      modifies this`heap, this`current, this`outside, this`remaining
      ensures Inv() && outside == {entry.index} && current == Some(entry.index) && entry.index < |cursors|
      ensures IsLeast(old(remaining), entry.index) && entry.row == old(remaining)[entry.index][0]
      ensures remaining == Tail(old(remaining), entry.index)
    {
      var i := entry.index;
      LeastEntryIsNext(heap, remaining, entry);
      HeapAfterPop(heap, remaining, entry);
      assert StreamOk(i);
      remaining, outside := Tail(remaining, i), {i};
      heap := rest;
      current := Some(i);
      forall j | 0 <= j < |stored| ensures StreamOk(j) {
        assert old(StreamOk(j));
      }
    }
  }

  /** The replay of some streams: every cursor starts one step of its interval
      before the start time. An interval that cannot be read raises. */
  method OpenSource(server: Server, startTime: int, intervals: seq<string>,
                    ghost stored: seq<seq<Row>>, ghost end: int, ghost limit: nat)
    returns (r: Result<PagedBacktestDataSource>)
    requires Contract(server, stored, end, limit) && |intervals| == |stored|
    ensures r.Ok? <==> forall i :: 0 <= i < |intervals| ==> Intervals.IntervalStepMs(intervals[i]).Ok?
    ensures r.Ok? ==>
              && fresh(r.value) && fresh(r.value.cursors) && r.value.Valid() && !r.value.started
              && !r.value.closed && |r.value.cursors| == |stored|
              && r.value.remaining == r.value.Initial() && |r.value.starts| == |stored|
              && r.value.stored == stored && r.value.end == end && r.value.server == server
              && forall i :: 0 <= i < |stored| ==>
                   r.value.starts[i] == startTime - Intervals.IntervalStepMs(intervals[i]).value
  {
    hide *;
    var steps: seq<int> := [];
    for i := 0 to |intervals|
      invariant |steps| == i
      invariant forall j :: 0 <= j < i ==> Intervals.IntervalStepMs(intervals[j]) == Ok(steps[j])
    {
      var step := Intervals.IntervalStepMs(intervals[i]);
      if step.Raised? {
        return Raised(step.error);
      }
      steps := steps + [step.value];
    }
    var source := new PagedBacktestDataSource(server, startTime, steps, stored, end, limit);
    return Ok(source);
  }

  /** One resumption seen from outside: it yields the front of what is left. */
  method Resume(source: PagedBacktestDataSource, ghost left: seq<Tagged>) returns (step: Step)
    requires source.Valid() && !source.closed
    requires IsMergeOf(source.remaining, left)
    modifies source, source.cursors
    ensures source.Valid() && source.closed == !step.Yield?
    ensures step.Yield? ==>
              && source.current.Some? && source.current.value < |source.cursors|
              && left != [] && left[0] == Tagged(source.current.value, step.row)
              && IsMergeOf(source.remaining, left[1..])
    ensures step.Raise? ==> !source.AllChainsOk()
    ensures step.Stop? ==> left == [] && source.FullyRead()
  {
    ghost var before := source.remaining;
    step := source.Next();
    if step.Yield? {
      MergeOfStep(before, left, source.current.value);
    }
  }

  /** Runs a replay until the consumer stops it, all rows are out, or a page is
      broken. The rows processed are always a prefix of the stable merge of the
      stored rows in range; unless stopped, the run raises exactly when some
      stream's pages contain a broken one, and otherwise processes them all. */
  method Replay(source: PagedBacktestDataSource, stop: nat -> bool)
    returns (rows: seq<Row>, failed: bool, ghost taken: seq<Tagged>)
    requires source.Valid() && !source.started && !source.closed
    modifies source, source.cursors
    ensures source.Valid()
    ensures taken <= Merged(old(source.remaining)) && rows == Rows(taken)
    ensures rows <= Rows(Merged(old(source.remaining)))
    ensures forall k :: 0 <= k < |rows| ==> !stop(k)
    ensures failed ==> !source.AllChainsOk()
    ensures !failed ==>
              || (rows < Rows(Merged(old(source.remaining))) && stop(|rows|))
              || (rows == Rows(Merged(old(source.remaining))) && source.FullyRead())
    ensures !failed && |rows| == |Merged(old(source.remaining))| ==>
              forall i :: 0 <= i < |source.cursors| ==>
                || stop(|rows|)
                || (source.cursors[i].exhausted && source.cursors[i].rowIndex == |source.cursors[i].rows|)
  {
    hide *;
    rows, taken := [], [];
    ghost var all := Merged(source.remaining);
    ghost var left := all;
    MergedIsMergeOf(source.remaining);
    NoRows();
    while true
      invariant source.Valid() && !source.closed
      invariant IsMergeOf(source.remaining, left) && taken + left == all && rows == Rows(taken)
      invariant forall k :: 0 <= k < |rows| ==> !stop(k)
      decreases |left|
    {
      RowsOfFront(taken, left);
      var step := Resume(source, left);
      ReadToTheEnd(source);
      if !step.Yield? || stop(|rows|) {
        return rows, step.Raise?, taken;
      }
      rows, taken, left := rows + [step.row], taken + [left[0]], left[1..];
    }
  }

  ghost function Rows(out: seq<Tagged>): (rows: seq<Row>)
    ensures |rows| == |out| && forall k :: 0 <= k < |out| ==> rows[k] == out[k].row
  {
    seq(|out|, k requires 0 <= k < |out| => out[k].row)
  }

  lemma ReadToTheEnd(source: PagedBacktestDataSource)
    ensures source.FullyRead() ==> forall i :: 0 <= i < |source.cursors| ==>
              source.cursors[i].exhausted && source.cursors[i].rowIndex == |source.cursors[i].rows|
  {
  }

  lemma NoRows()
    ensures Rows([]) == []
  {
  }

  /** What has been taken is a prefix of all, and the next row extends it. */
  lemma RowsOfFront(taken: seq<Tagged>, left: seq<Tagged>)
    ensures left == [] ==> taken + left == taken
    ensures Rows(taken) <= Rows(taken + left)
    ensures left != [] ==>
              && Rows(taken) < Rows(taken + left)
              && Rows(taken + [left[0]]) == Rows(taken) + [left[0].row]
              && taken + [left[0]] + left[1..] == taken + left
  {
  }
}
