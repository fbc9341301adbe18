/** The strategy's indicator chunker: one open chunk for every stream and
    indicator, emitted when full or on flush. */
module ChunkBuffer {
  import opened Prelude
  import opened AgentIndicators
  import Text

  datatype Definition = Definition(key: string, isMarker: bool)

  /** One bar's indicator output: values and markers by indicator key. */
  datatype Frame = Frame(values: map<string, Option<int>>, markers: map<string, seq<int>>)

  datatype Key = Key(stream: string, indicator: string)

  /** `items` is the list the definition's type uses: values or markers. */
  datatype OpenChunk = OpenChunk(startMs: int, intervalMs: int, index: nat, count: nat, items: seq<Item>)

  datatype Emitted = Emitted(key: Key, index: nat, startMs: int, endMs: int, intervalMs: int,
                             count: nat, items: seq<Item>)

  /** The end time is computed from the first bar's interval, not read off the
      last bar. */
  function EmitChunk(key: Key, c: OpenChunk): (e: Emitted)
    ensures e.key == key
  {
    Emitted(key, c.index, c.startMs, c.startMs + (c.count - 1) * c.intervalMs, c.intervalMs, c.count, c.items)
  }

  /** What a bar contributes to one indicator. */
  function PointOf(def: Definition, timeMs: int, intervalMs: int, frame: Frame): Point {
    Point(timeMs, intervalMs,
          if def.key in frame.values then frame.values[def.key] else None,
          if def.key in frame.markers then frame.markers[def.key] else [])
  }

  // ----- one stream and indicator -----

  datatype KeyState = KeyState(next: nat, open: Option<OpenChunk>)

  function Recorded(size: nat, isMarker: bool, key: Key, s: KeyState, p: Point): (KeyState, seq<Emitted>) {
    var c := if s.open.Some? then s.open.value else OpenChunk(p.timeMs, p.intervalMs, s.next, 0, []);
    var c' := c.(count := c.count + 1, items := c.items + Stamped(isMarker, p, c.count));
    if c'.count >= size then (KeyState(c'.index + 1, None), [EmitChunk(key, c')])
    else (s.(open := Some(c')), [])
  }

  function FlushedKey(key: Key, s: KeyState): (KeyState, seq<Emitted>) {
    if s.open.Some? then (KeyState(s.open.value.index + 1, None), [EmitChunk(key, s.open.value)])
    else (s, [])
  }

  // ----- runs -----

  /** A call on the buffer, with the stream key already trimmed. */
  datatype Call = RecordBar(stream: string, timeMs: int, intervalMs: int, frame: Frame) | FlushOpen

  /** The state of one stream and indicator after a run, and what it emitted. */
  function KeyRun(size: nat, def: Definition, stream: string, calls: seq<Call>): (KeyState, seq<Emitted>)
    decreases |calls|
  {
    if calls == [] then (KeyState(0, None), [])
    else
      var (s, out) := KeyRun(size, def, stream, calls[..|calls| - 1]);
      match calls[|calls| - 1]
      case RecordBar(st, t, i, frame) =>
        if st == stream then
          var (s', more) := Recorded(size, def.isMarker, Key(stream, def.key), s, PointOf(def, t, i, frame));
          (s', out + more)
        else (s, out)
      case FlushOpen =>
        var (s', more) := FlushedKey(Key(stream, def.key), s);
        (s', out + more)
  }

  /** The bars recorded for one stream and indicator. */
  function History(def: Definition, stream: string, calls: seq<Call>): seq<Point>
    decreases |calls|
  {
    if calls == [] then []
    else
      History(def, stream, calls[..|calls| - 1]) +
      match calls[|calls| - 1]
      case RecordBar(st, t, i, frame) => if st == stream then [PointOf(def, t, i, frame)] else []
      case FlushOpen => []
  }

  ghost function Flat(parts: seq<seq<Point>>): seq<Point> {
    if parts == [] then [] else Flat(parts[..|parts| - 1]) + parts[|parts| - 1]
  }

  ghost function OpenOf(isMarker: bool, index: nat, points: seq<Point>): OpenChunk
    requires points != []
  {
    OpenChunk(points[0].timeMs, points[0].intervalMs, index, |points|, Items(isMarker, points))
  }

  /** How one history was cut: the finished parts and the part still open. */
  datatype Cut = Cut(parts: seq<seq<Point>>, open: seq<Point>)

  /** A state and its output are exactly one cut of the recorded history. */
  ghost predicate Conserves(size: nat, def: Definition, key: Key, s: KeyState, out: seq<Emitted>,
                            h: seq<Point>, cut: Cut)
  {
    && h == Flat(cut.parts) + cut.open
    && |out| == |cut.parts| == s.next
    && (forall j :: 0 <= j < |out| ==>
          0 < |cut.parts[j]| <= size && out[j] == EmitChunk(key, OpenOf(def.isMarker, j, cut.parts[j])))
    && |cut.open| < size
    && s.open == (if cut.open == [] then None else Some(OpenOf(def.isMarker, s.next, cut.open)))
  }

  lemma FlatAppend(parts: seq<seq<Point>>, part: seq<Point>)
    ensures Flat(parts + [part]) == Flat(parts) + part
  {
    assert (parts + [part])[..|parts|] == parts;
  }

  /** The open chunk after one more bar. */
  lemma OpenGrows(isMarker: bool, index: nat, points: seq<Point>, p: Point)
    ensures var c := if points == [] then OpenChunk(p.timeMs, p.intervalMs, index, 0, [])
                     else OpenOf(isMarker, index, points);
            && c.count == |points|
            && OpenOf(isMarker, index, points + [p]).index == index
            && OpenOf(isMarker, index, points + [p])
              == c.(count := c.count + 1, items := c.items + Stamped(isMarker, p, c.count))
  {
    assert (points + [p])[..|points|] == points;
    assert points == [] ==> Items(isMarker, points) == [];
  }

  /** Finishing the open part adds one chunk with the next number. */
  lemma PartFinished(size: nat, def: Definition, key: Key, s: KeyState, out: seq<Emitted>,
                     h: seq<Point>, cut: Cut, part: seq<Point>)
    requires Conserves(size, def, key, s, out, h, cut) && 0 < |part| <= size
    ensures Conserves(size, def, key, KeyState(s.next + 1, None),
                      out + [EmitChunk(key, OpenOf(def.isMarker, s.next, part))],
                      Flat(cut.parts) + part, Cut(cut.parts + [part], []))
  {
    FlatAppend(cut.parts, part);
    hide Flat, OpenOf, EmitChunk;
    assert Flat(cut.parts + [part]) + [] == Flat(cut.parts) + part;
  }

  lemma RecordedConserves(size: nat, def: Definition, key: Key, s: KeyState, out: seq<Emitted>,
                          h: seq<Point>, cut: Cut, p: Point)
    returns (cut': Cut)
    requires size > 0 && Conserves(size, def, key, s, out, h, cut)
    ensures var (s', more) := Recorded(size, def.isMarker, key, s, p);
            Conserves(size, def, key, s', out + more, h + [p], cut')
    ensures cut' == (if |cut.open| + 1 < size then cut.(open := cut.open + [p])
                     else Cut(cut.parts + [cut.open + [p]], []))
  {
    hide *;
    var grown := cut.open + [p];
    RecordedIs(size, def, key, s, out, h, cut, p);
    var (s', more) := Recorded(size, def.isMarker, key, s, p);
    if |grown| < size {
      cut' := cut.(open := grown);
      OpenGrown(size, def, key, s, out, h, cut, p);
      assert out + more == out;
    } else {
      PartFinished(size, def, key, s, out, h, cut, grown);
      cut' := Cut(cut.parts + [grown], []);
    }
  }

  /** What one more bar does, told by the open part. */
  lemma RecordedIs(size: nat, def: Definition, key: Key, s: KeyState, out: seq<Emitted>,
                   h: seq<Point>, cut: Cut, p: Point)
    requires size > 0 && Conserves(size, def, key, s, out, h, cut)
    ensures |cut.open| < size && h + [p] == Flat(cut.parts) + (cut.open + [p])
    ensures var grown := cut.open + [p]; var c := OpenOf(def.isMarker, s.next, grown);
            Recorded(size, def.isMarker, key, s, p) ==
              if |grown| < size then (s.(open := Some(c)), []) else (KeyState(s.next + 1, None), [EmitChunk(key, c)])
  {
    OpenGrows(def.isMarker, s.next, cut.open, p);
    hide Flat, OpenOf, EmitChunk, Stamped;
    assert h + [p] == Flat(cut.parts) + (cut.open + [p]);
  }

  lemma OpenGrown(size: nat, def: Definition, key: Key, s: KeyState, out: seq<Emitted>,
                  h: seq<Point>, cut: Cut, p: Point)
    requires Conserves(size, def, key, s, out, h, cut) && |cut.open| + 1 < size
    requires h + [p] == Flat(cut.parts) + (cut.open + [p])
    ensures var grown := cut.open + [p];
            Conserves(size, def, key, s.(open := Some(OpenOf(def.isMarker, s.next, grown))), out, h + [p],
                      cut.(open := grown))
  {
    hide Flat, OpenOf, EmitChunk;
  }

  lemma FlushedConserves(size: nat, def: Definition, key: Key, s: KeyState, out: seq<Emitted>,
                         h: seq<Point>, cut: Cut)
    returns (cut': Cut)
    requires size > 0 && Conserves(size, def, key, s, out, h, cut)
    ensures var (s', more) := FlushedKey(key, s);
            Conserves(size, def, key, s', out + more, h, cut')
  {
    cut' := cut;
    if cut.open != [] {
      PartFinished(size, def, key, s, out, h, cut, cut.open);
      cut' := Cut(cut.parts + [cut.open], []);
    } else {
      assert out + [] == out;
    }
  }

  /** Over every run and every interleaving of streams, the chunks emitted for
      one stream and indicator are numbered 0, 1, 2, … and, with the open chunk
      after them, are exactly the recorded history cut into pieces. */
  lemma {:induction false} RunConserves(size: nat, def: Definition, stream: string, calls: seq<Call>)
    returns (cut: Cut)
    requires size > 0
    ensures var (s, out) := KeyRun(size, def, stream, calls);
            Conserves(size, def, Key(stream, def.key), s, out, History(def, stream, calls), cut)
    decreases |calls|
  {
    if calls == [] {
      cut := Cut([], []);
    } else {
      var before := calls[..|calls| - 1];
      cut := RunConserves(size, def, stream, before);
      var (s, out) := KeyRun(size, def, stream, before);
      var key, h := Key(stream, def.key), History(def, stream, before);
      match calls[|calls| - 1]
      case RecordBar(st, t, i, frame) =>
        if st == stream {
          cut := RecordedConserves(size, def, key, s, out, h, cut, PointOf(def, t, i, frame));
        } else {
          assert h + [] == h;
        }
      case FlushOpen =>
        cut := FlushedConserves(size, def, key, s, out, h, cut);
        assert h + [] == h;
    }
  }

  // ----- reading the chunks back -----

  /** The items of a run: those of the emitted chunks, then of the open one. */
  ghost function AllItems(out: seq<Emitted>): seq<Item> {
    if out == [] then [] else AllItems(out[..|out| - 1]) + out[|out| - 1].items
  }

  ghost function TotalCount(out: seq<Emitted>): nat {
    if out == [] then 0 else TotalCount(out[..|out| - 1]) + out[|out| - 1].count
  }

  /** A marker and the bar it belongs to. */
  datatype Mark = Mark(bar: nat, marker: int)

  ghost function BarMarks(bar: nat, markers: seq<int>): (marks: seq<Mark>)
    ensures |marks| == |markers|
    ensures forall k :: 0 <= k < |markers| ==> marks[k] == Mark(bar, markers[k])
  {
    seq(|markers|, k requires 0 <= k < |markers| => Mark(bar, markers[k]))
  }

  /** The markers of some bars, numbered from `first`. */
  ghost function MarksOf(points: seq<Point>, first: nat): seq<Mark> {
    if points == [] then []
    else
      var n := |points| - 1;
      MarksOf(points[..n], first) + BarMarks(first + n, points[n].markers)
  }

  /** Places a chunk's markers: the bars before the chunk plus the offset. */
  ghost function Placed(items: seq<Item>, first: nat): seq<Mark> {
    if items == [] then []
    else
      Placed(items[..|items| - 1], first) +
      match items[|items| - 1]
      case Marker(m, offset) => [Mark(first + offset, m)]
      case Value(_) => []
  }

  ghost function PlacedAll(out: seq<Emitted>): seq<Mark> {
    if out == [] then []
    else
      var before := out[..|out| - 1];
      PlacedAll(before) + Placed(out[|out| - 1].items, TotalCount(before))
  }

  lemma {:induction false} PlacedAppend(a: seq<Item>, b: seq<Item>, first: nat)
    ensures Placed(a + b, first) == Placed(a, first) + Placed(b, first)
  {
    if b == [] {
      assert a + b == a;
    } else {
      var n := |b| - 1;
      PlacedAppend(a, b[..n], first);
      assert (a + b)[..|a + b| - 1] == a + b[..n];
    }
  }

  lemma {:induction false} PlacedEach(items: seq<Item>, first: nat)
    requires forall k :: 0 <= k < |items| ==> items[k].Marker?
    ensures |Placed(items, first)| == |items|
    ensures forall k :: 0 <= k < |items| ==>
              Placed(items, first)[k] == Mark(first + items[k].offset, items[k].marker)
  {
    if items != [] {
      PlacedEach(items[..|items| - 1], first);
    }
  }

  lemma StampedPlaced(p: Point, n: nat, first: nat)
    ensures Placed(Stamped(true, p, n), first) == BarMarks(first + n, p.markers)
  {
    PlacedEach(Stamped(true, p, n), first);
  }

  lemma ItemsSnoc(isMarker: bool, a: seq<Point>, p: Point)
    ensures Items(isMarker, a + [p]) == Items(isMarker, a) + Stamped(isMarker, p, |a|)
  {
    assert (a + [p])[..|a|] == a;
  }

  lemma MarksSnoc(a: seq<Point>, p: Point, first: nat)
    ensures MarksOf(a + [p], first) == MarksOf(a, first) + BarMarks(first + |a|, p.markers)
  {
    assert (a + [p])[..|a|] == a;
  }

  lemma OutputSnoc(out: seq<Emitted>, e: Emitted)
    ensures AllItems(out + [e]) == AllItems(out) + e.items
    ensures TotalCount(out + [e]) == TotalCount(out) + e.count
    ensures PlacedAll(out + [e]) == PlacedAll(out) + Placed(e.items, TotalCount(out))
  {
    assert (out + [e])[..|out|] == out;
  }

  /** The markers of one chunk decode to the bars they were recorded at. */
  lemma {:induction false} ChunkDecodes(points: seq<Point>, first: nat)
    ensures Placed(Items(true, points), first) == MarksOf(points, first)
  {
    if points != [] {
      hide Items, MarksOf, Placed, Stamped, BarMarks;
      var n := |points| - 1;
      assert points == points[..n] + [points[n]];
      ChunkDecodes(points[..n], first);
      ItemsSnoc(true, points[..n], points[n]);
      MarksSnoc(points[..n], points[n], first);
      PlacedAppend(Items(true, points[..n]), Stamped(true, points[n], n), first);
      StampedPlaced(points[n], n, first);
    }
  }

  /** Offsets stay below the number of bars in the chunk. */
  lemma {:induction false} OffsetsInChunk(points: seq<Point>)
    ensures forall k :: 0 <= k < |Items(true, points)| ==>
              Items(true, points)[k].Marker? && Items(true, points)[k].offset < |points|
  {
    if points != [] {
      OffsetsInChunk(points[..|points| - 1]);
    }
  }

  lemma {:induction false} MarksAppend(a: seq<Point>, b: seq<Point>, first: nat)
    ensures MarksOf(a + b, first) == MarksOf(a, first) + MarksOf(b, first + |a|)
  {
    if b == [] {
      assert a + b == a;
    } else {
      hide MarksOf, BarMarks;
      var n := |b| - 1;
      assert b == b[..n] + [b[n]] && a + b == (a + b[..n]) + [b[n]];
      MarksAppend(a, b[..n], first);
      MarksSnoc(a + b[..n], b[n], first);
      MarksSnoc(b[..n], b[n], first + |a|);
    }
  }

  /** Each emitted chunk holds exactly one part. */
  ghost predicate Holds(def: Definition, out: seq<Emitted>, parts: seq<seq<Point>>) {
    && |out| == |parts|
    && forall j :: 0 <= j < |out| ==> out[j].count == |parts[j]| && out[j].items == Items(def.isMarker, parts[j])
  }

  /** Chunks read back to the bars of the parts put end to end. */
  ghost predicate ReadsBack(def: Definition, out: seq<Emitted>, points: seq<Point>) {
    && TotalCount(out) == |points|
    && (def.isMarker ==> PlacedAll(out) == MarksOf(points, 0))
    && (!def.isMarker ==> AllItems(out) == Items(false, points))
  }

  lemma ReadsBackSnoc(def: Definition, out: seq<Emitted>, points: seq<Point>, e: Emitted, part: seq<Point>)
    requires ReadsBack(def, out, points)
    requires e.count == |part| && e.items == Items(def.isMarker, part)
    ensures ReadsBack(def, out + [e], points + part)
  {
    hide AllItems, TotalCount, PlacedAll, Items, Placed, MarksOf;
    OutputSnoc(out, e);
    MarksAppend(points, part, 0);
    ChunkDecodes(part, |points|);
    ValuesAppend(points, part);
  }

  lemma {:induction false} OutputReadsBack(def: Definition, out: seq<Emitted>, parts: seq<seq<Point>>)
    requires Holds(def, out, parts)
    ensures ReadsBack(def, out, Flat(parts))
  {
    if out != [] {
      hide ReadsBack, Flat, Items;
      var n := |out| - 1;
      OutputReadsBack(def, out[..n], parts[..n]);
      assert out == out[..n] + [out[n]] && parts == parts[..n] + [parts[n]];
      FlatAppend(parts[..n], parts[n]);
      ReadsBackSnoc(def, out[..n], Flat(parts[..n]), out[n], parts[n]);
    }
  }

  lemma ValuesAppend(a: seq<Point>, b: seq<Point>)
    ensures Items(false, a + b) == Items(false, a) + Items(false, b)
  {
    ValueItems(a);
    ValueItems(b);
    ValueItems(a + b);
  }

  ghost function OpenItems(s: KeyState): seq<Item> { if s.open.Some? then s.open.value.items else [] }

  /** No marker is lost, duplicated or reordered: placing every marker by the
      counts of the chunks before it gives the recorded markers, bar by bar. */
  lemma MarkersDecodeExactly(size: nat, def: Definition, stream: string, calls: seq<Call>)
    requires size > 0 && def.isMarker
    ensures var (s, out) := KeyRun(size, def, stream, calls);
            PlacedAll(out) + Placed(OpenItems(s), TotalCount(out)) == MarksOf(History(def, stream, calls), 0)
  {
    hide KeyRun, History, Placed, PlacedAll, Flat, TotalCount, Items;
    var cut := RunConserves(size, def, stream, calls);
    var (s, out) := KeyRun(size, def, stream, calls);
    OutputReadsBack(def, out, cut.parts);
    MarksAppend(Flat(cut.parts), cut.open, 0);
    ChunkDecodes(cut.open, |Flat(cut.parts)|);
    assert Placed([], TotalCount(out)) == [] by {
      PlacedEach([], TotalCount(out));
    }
  }

  /** The values of the emitted chunks followed by those of the open chunk are
      the recorded values, missing ones included as nulls. */
  lemma ValuesConserved(size: nat, def: Definition, stream: string, calls: seq<Call>)
    requires size > 0 && !def.isMarker
    ensures var (s, out) := KeyRun(size, def, stream, calls); var h := History(def, stream, calls);
            AllItems(out) + OpenItems(s) == seq(|h|, k requires 0 <= k < |h| => Value(h[k].value))
  {
    hide KeyRun, History, AllItems, Flat, TotalCount, Items;
    ValueItems([]);
    var cut := RunConserves(size, def, stream, calls);
    var (s, out) := KeyRun(size, def, stream, calls);
    OutputReadsBack(def, out, cut.parts);
    ValuesAppend(Flat(cut.parts), cut.open);
    ValueItems(History(def, stream, calls));
  }

  /** Chunks are numbered without gaps, full ones have exactly `size` bars, none
      has more, and between calls the open chunk has 1 to `size` - 1 bars. */
  lemma ChunkShape(size: nat, def: Definition, stream: string, calls: seq<Call>)
    requires size > 0
    ensures var (s, out) := KeyRun(size, def, stream, calls);
            && (forall j :: 0 <= j < |out| ==> out[j].index == j && 1 <= out[j].count <= size)
            && (s.open.Some? ==> s.open.value.index == |out| && 1 <= s.open.value.count < size)
            && TotalCount(out) + (if s.open.Some? then s.open.value.count else 0) == |History(def, stream, calls)|
            && (FlushOpen !in calls ==> forall j :: 0 <= j < |out| ==> out[j].count == size)
  {
    var cut := RunConserves(size, def, stream, calls);
    var (s, out) := KeyRun(size, def, stream, calls);
    OutputReadsBack(def, out, cut.parts);
    if FlushOpen !in calls {
      UnflushedAreFull(size, def, stream, calls);
    }
  }

  lemma {:induction false} UnflushedAreFull(size: nat, def: Definition, stream: string, calls: seq<Call>)
    requires size > 0 && FlushOpen !in calls
    ensures var (s, out) := KeyRun(size, def, stream, calls);
            forall j :: 0 <= j < |out| ==> out[j].count == size
    decreases |calls|
  {
    if calls != [] {
      var before, last := calls[..|calls| - 1], calls[|calls| - 1];
      UnflushedAreFull(size, def, stream, before);
      var cut := RunConserves(size, def, stream, before);
      assert last in calls && last.RecordBar?;
      var (s, out) := KeyRun(size, def, stream, before);
      RecordedEmitsFull(size, def.isMarker, Key(stream, def.key), s,
                        PointOf(def, last.timeMs, last.intervalMs, last.frame));
      hide Recorded, Conserves;
    }
  }

  lemma RecordedEmitsFull(size: nat, isMarker: bool, key: Key, s: KeyState, p: Point)
    requires size > 0 && (s.open.Some? ==> s.open.value.count < size)
    ensures forall e :: e in Recorded(size, isMarker, key, s, p).1 ==> e.count == size
  {
  }

  /** A recorded bar emits only full chunks, a flush only partial ones. */
  lemma WhoEmitsWhat(size: nat, def: Definition, stream: string, calls: seq<Call>, p: Point)
    requires size > 0
    ensures var (s, out) := KeyRun(size, def, stream, calls); var key := Key(stream, def.key);
            && (forall e :: e in Recorded(size, def.isMarker, key, s, p).1 ==> e.count == size)
            && (forall e :: e in FlushedKey(key, s).1 ==> 1 <= e.count < size)
  {
    var cut := RunConserves(size, def, stream, calls);
  }

  // ----- read back from the calls themselves -----

  /** The bars recorded for a stream, by their places among the calls, and what each
      call said for the indicator. */
  lemma {:induction false} HistoryInPlainTerms(def: Definition, stream: string, calls: seq<Call>)
    returns (bars: seq<nat>)
    ensures forall i, j :: 0 <= i < j < |bars| ==> bars[i] < bars[j]
    ensures forall i :: 0 <= i < |bars| ==> bars[i] < |calls|
    ensures forall k: nat :: k < |calls| ==> (k in bars <==> calls[k].RecordBar? && calls[k].stream == stream)
    ensures |History(def, stream, calls)| == |bars|
    ensures forall i :: 0 <= i < |bars| ==>
              && calls[bars[i]].RecordBar?
              && var bar, p := calls[bars[i]], History(def, stream, calls)[i];
              && p.timeMs == bar.timeMs && p.intervalMs == bar.intervalMs
              && p.value == (if def.key in bar.frame.values then bar.frame.values[def.key] else None)
              && p.markers == (if def.key in bar.frame.markers then bar.frame.markers[def.key] else [])
    decreases |calls|
  {
    bars := PlacesOf(def, stream, calls);
  }

  /** `bars` lists the stream's bars among the first calls, in order. */
  ghost predicate Places(stream: string, calls: seq<Call>, bars: seq<nat>) {
    && (forall i, j :: 0 <= i < j < |bars| ==> bars[i] < bars[j])
    && (forall i :: 0 <= i < |bars| ==> bars[i] < |calls|)
    && (forall k: nat :: k < |calls| ==> (k in bars <==> calls[k].RecordBar? && calls[k].stream == stream))
  }

  ghost predicate Says(def: Definition, calls: seq<Call>, bars: seq<nat>, h: seq<Point>) {
    && |h| == |bars|
    && forall i :: 0 <= i < |bars| ==>
         && bars[i] < |calls| && calls[bars[i]].RecordBar?
         && var bar, p := calls[bars[i]], h[i];
         && p.timeMs == bar.timeMs && p.intervalMs == bar.intervalMs
         && p.value == (if def.key in bar.frame.values then bar.frame.values[def.key] else None)
         && p.markers == (if def.key in bar.frame.markers then bar.frame.markers[def.key] else [])
  }

  lemma {:induction false} PlacesOf(def: Definition, stream: string, calls: seq<Call>) returns (bars: seq<nat>)
    ensures Places(stream, calls, bars) && Says(def, calls, bars, History(def, stream, calls))
    decreases |calls|
  {
    bars := [];
    if calls != [] {
      var n := |calls| - 1;
      var before := PlacesOf(def, stream, calls[..n]);
      OneMoreCall(stream, calls, before);
      OneMoreSaid(def, calls, before, History(def, stream, calls[..n]));
      hide Places, Says, PointOf;
      bars := before;
      if calls[n].RecordBar? && calls[n].stream == stream {
        bars := before + [n];
      } else {
        assert History(def, stream, calls) == History(def, stream, calls[..n]);
      }
    }
  }

  lemma OneMoreCall(stream: string, calls: seq<Call>, before: seq<nat>)
    requires calls != [] && Places(stream, calls[..|calls| - 1], before)
    ensures var n := |calls| - 1;
            Places(stream, calls, if calls[n].RecordBar? && calls[n].stream == stream then before + [n] else before)
  {
    var n := |calls| - 1;
    assert n !in before;
    assert (before + [n])[|before|] == n;
    assert forall k :: k in before + [n] <==> k in before || k == n;
    assert forall k: nat :: k < n ==> calls[..n][k] == calls[k];
  }

  lemma OneMoreSaid(def: Definition, calls: seq<Call>, before: seq<nat>, h: seq<Point>)
    requires calls != [] && Says(def, calls[..|calls| - 1], before, h)
    ensures Says(def, calls, before, h)
    ensures var last := calls[|calls| - 1];
            last.RecordBar? ==>
              Says(def, calls, before + [|calls| - 1],
                   h + [PointOf(def, last.timeMs, last.intervalMs, last.frame)])
  {
    var n := |calls| - 1;
    assert forall k: nat :: k < n ==> calls[..n][k] == calls[k];
  }

  /** The values of a run, in the terms of its calls: bar by bar, emitted or still
      open, what the frame held under the indicator's key, and null where it held
      nothing. */
  lemma ValuesFromCalls(size: nat, def: Definition, stream: string, calls: seq<Call>) returns (bars: seq<nat>)
    requires size > 0 && !def.isMarker
    ensures forall i, j :: 0 <= i < j < |bars| ==> bars[i] < bars[j]
    ensures forall k: nat :: k < |calls| ==> (k in bars <==> calls[k].RecordBar? && calls[k].stream == stream)
    ensures var (s, out) := KeyRun(size, def, stream, calls);
            var items := AllItems(out) + (if s.open.Some? then s.open.value.items else []);
            && |items| == |bars|
            && forall i :: 0 <= i < |bars| ==>
                 && bars[i] < |calls| && calls[bars[i]].RecordBar?
                 && var values := calls[bars[i]].frame.values;
                 items[i] == Value(if def.key in values then values[def.key] else None)
  {
    hide KeyRun, History, AllItems;
    bars := HistoryInPlainTerms(def, stream, calls);
    ValuesConserved(size, def, stream, calls);
  }

  /** The marks of some bars, cut at the bars: `starts[i]` is where bar `i` begins. */
  lemma {:induction false} MarksByBar(points: seq<Point>) returns (starts: seq<nat>)
    ensures |starts| == |points| + 1 && starts[0] == 0 && starts[|points|] == |MarksOf(points, 0)|
    ensures forall i, j :: 0 <= i < j <= |points| && j == i + 1 ==> starts[j] == starts[i] + |points[i].markers|
    ensures forall i :: 0 <= i < |points| ==>
              && starts[i] + |points[i].markers| <= |MarksOf(points, 0)|
              && forall k :: 0 <= k < |points[i].markers| ==>
                   MarksOf(points, 0)[starts[i] + k] == Mark(i, points[i].markers[k])
  {
    hide MarksOf, BarMarks;
    starts := CutAtBars(points);
  }

  ghost predicate BarAt(marks: seq<Mark>, start: nat, bar: nat, said: seq<int>) {
    && start + |said| <= |marks|
    && forall k :: 0 <= k < |said| ==> marks[start + k] == Mark(bar, said[k])
  }

  ghost predicate ByBar(points: seq<Point>, marks: seq<Mark>, starts: seq<nat>) {
    && |starts| == |points| + 1 && starts[0] == 0 && starts[|points|] == |marks|
    && (forall i, j :: 0 <= i < j <= |points| && j == i + 1 ==> starts[j] == starts[i] + |points[i].markers|)
    && (forall i :: 0 <= i < |points| ==> BarAt(marks, starts[i], i, points[i].markers))
  }

  lemma BarStays(marks: seq<Mark>, more: seq<Mark>, start: nat, bar: nat, said: seq<int>)
    requires BarAt(marks, start, bar, said)
    ensures BarAt(marks + more, start, bar, said)
  {
  }

  lemma NewBarAt(marks: seq<Mark>, bar: nat, said: seq<int>)
    ensures BarAt(marks + BarMarks(bar, said), |marks|, bar, said)
  {
    var ms := marks + BarMarks(bar, said);
    forall k | 0 <= k < |said| ensures ms[|marks| + k] == Mark(bar, said[k]) {
      assert ms[|marks| + k] == BarMarks(bar, said)[k];
    }
  }

  lemma ByBarSnoc(points: seq<Point>, marks: seq<Mark>, starts: seq<nat>, p: Point)
    requires ByBar(points, marks, starts)
    ensures ByBar(points + [p], marks + BarMarks(|points|, p.markers), starts + [|marks| + |p.markers|])
  {
    hide BarMarks, BarAt;
    var n, m := |points|, |marks|;
    var ps, ms, ss := points + [p], marks + BarMarks(n, p.markers), starts + [m + |p.markers|];
    NewBarAt(marks, n, p.markers);
    forall i | 0 <= i < |ps| ensures BarAt(ms, ss[i], i, ps[i].markers) {
      if i < n {
        BarStays(marks, BarMarks(n, p.markers), starts[i], i, points[i].markers);
      }
    }
  }

  lemma {:induction false} CutAtBars(points: seq<Point>) returns (starts: seq<nat>)
    ensures ByBar(points, MarksOf(points, 0), starts)
  {
    if points == [] {
      starts := [0];
    } else {
      hide MarksOf, BarMarks, ByBar;
      var n := |points| - 1;
      var before := CutAtBars(points[..n]);
      starts := before + [|MarksOf(points[..n], 0)| + |points[n].markers|];
      assert points == points[..n] + [points[n]];
      MarksSnoc(points[..n], points[n], 0);
      ByBarSnoc(points[..n], MarksOf(points[..n], 0), before, points[n]);
    }
  }

  /** The markers of a run, in the terms of its calls: placed by the counts of the
      chunks before, they are bar by bar exactly those the frames held under the
      indicator's key, in order. */
  lemma MarkersFromCalls(size: nat, def: Definition, stream: string, calls: seq<Call>)
    returns (bars: seq<nat>, starts: seq<nat>)
    requires size > 0 && def.isMarker
    ensures forall i, j :: 0 <= i < j < |bars| ==> bars[i] < bars[j]
    ensures forall k: nat :: k < |calls| ==> (k in bars <==> calls[k].RecordBar? && calls[k].stream == stream)
    ensures var (s, out) := KeyRun(size, def, stream, calls);
            var open := if s.open.Some? then s.open.value.items else [];
            var marks := PlacedAll(out) + Placed(open, TotalCount(out));
            && |starts| == |bars| + 1 && starts[0] == 0 && starts[|bars|] == |marks|
            && forall i :: 0 <= i < |bars| ==>
                 && bars[i] < |calls| && calls[bars[i]].RecordBar?
                 && var markers := calls[bars[i]].frame.markers;
                 var said := if def.key in markers then markers[def.key] else [];
                 && (forall j :: i < j < |starts| && j == i + 1 ==> starts[j] == starts[i] + |said|)
                 && starts[i] + |said| <= |marks|
                 && forall k :: 0 <= k < |said| ==> marks[starts[i] + k] == Mark(i, said[k])
  {
    hide KeyRun, History, PlacedAll, Placed, TotalCount, MarksOf;
    bars := HistoryInPlainTerms(def, stream, calls);
    starts := MarksByBar(History(def, stream, calls));
    MarkersDecodeExactly(size, def, stream, calls);
  }

  /** The times of a run's chunks, in the terms of its calls: a chunk starts at its
      first bar, keeps that bar's interval, and ends as many intervals later as it
      has further bars. */
  lemma TimesFromCalls(size: nat, def: Definition, stream: string, calls: seq<Call>, j: nat) returns (bars: seq<nat>)
    requires size > 0 && j < |KeyRun(size, def, stream, calls).1|
    ensures forall i, k :: 0 <= i < k < |bars| ==> bars[i] < bars[k]
    ensures forall k: nat :: k < |calls| ==> (k in bars <==> calls[k].RecordBar? && calls[k].stream == stream)
    ensures var out := KeyRun(size, def, stream, calls).1;
            var first := TotalCount(out[..j]);
            && first < |bars| && bars[first] < |calls| && calls[bars[first]].RecordBar?
            && out[j].key == Key(stream, def.key)
            && out[j].startMs == calls[bars[first]].timeMs
            && out[j].intervalMs == calls[bars[first]].intervalMs
            && out[j].endMs == out[j].startMs + (out[j].count - 1) * out[j].intervalMs
  {
    var out := KeyRun(size, def, stream, calls).1;
    hide KeyRun, History;
    bars := HistoryInPlainTerms(def, stream, calls);
    var cut := RunConserves(size, def, stream, calls);
    FirstOfPart(cut.parts, j);
    hide Flat;
    OutputReadsBack(def, out[..j], cut.parts[..j]);
    assert History(def, stream, calls)[TotalCount(out[..j])] == cut.parts[j][0];
  }

  /** A part begins where the parts before it end. */
  lemma {:induction false} FirstOfPart(parts: seq<seq<Point>>, j: nat)
    requires j < |parts| && parts[j] != []
    ensures |Flat(parts[..j])| < |Flat(parts)| && Flat(parts)[|Flat(parts[..j])|] == parts[j][0]
  {
    var n := |parts| - 1;
    if j == n {
      assert Flat(parts) == Flat(parts[..n]) + parts[n];
    } else {
      FirstOfPart(parts[..n], j);
      assert parts[..n][..j] == parts[..j];
    }
  }

  // ----- the buffer -----

  ghost function SentFor(out: seq<Emitted>, key: Key): seq<Emitted> {
    if out == [] then []
    else SentFor(out[..|out| - 1], key) + (if out[|out| - 1].key == key then [out[|out| - 1]] else [])
  }

  lemma {:induction false} SentForAppend(a: seq<Emitted>, b: seq<Emitted>, key: Key)
    ensures SentFor(a + b, key) == SentFor(a, key) + SentFor(b, key)
  {
    if b == [] {
      assert a + b == a;
    } else {
      var n := |b| - 1;
      SentForAppend(a, b[..n], key);
      assert (a + b)[..|a + b| - 1] == a + b[..n];
    }
  }

  lemma SentForOne(a: seq<Emitted>, e: Emitted, key: Key)
    ensures SentFor(a + [e], key) == SentFor(a, key) + (if e.key == key then [e] else [])
  {
    assert (a + [e])[..|a|] == a;
  }

  ghost predicate DistinctKeys(definitions: seq<Definition>) {
    forall i, j :: 0 <= i < j < |definitions| ==> definitions[i].key != definitions[j].key
  }

  // ----- the declaration -----

  const SUPPORTED_TYPES := {"line", "histogram", "marker"}
  const SUPPORTED_PANES := {"price", "strategy"}
  const CUSTOM_PANE := "custom:"

  /** An indicator's settings; `innerIsDict` says whether its own config, if any,
      is a dictionary. */
  datatype RawConfig = RawConfig(typ: string, pane: string, innerIsDict: bool)

  /** One entry as declared: a key that may not be a string, settings that may not
      be a dictionary. */
  datatype RawEntry = RawEntry(key: Option<string>, config: Option<RawConfig>)

  datatype RawIndicators = Nothing | NotADict | Entries(entries: seq<RawEntry>)

  /** The entry is well formed by itself. */
  predicate GoodEntry(e: RawEntry) {
    && e.key.Some? && Text.Strip(e.key.value) != ""
    && e.config.Some? && e.config.value.innerIsDict
    && Text.Lower(Text.Strip(e.config.value.typ)) in SUPPORTED_TYPES
    && var pane := Text.Lower(Text.Strip(e.config.value.pane));
       pane in SUPPORTED_PANES || CUSTOM_PANE <= pane
  }

  function DefinitionOf(e: RawEntry): Definition
    requires GoodEntry(e)
  {
    Definition(Text.Strip(e.key.value), Text.Lower(Text.Strip(e.config.value.typ)) == "marker")
  }

  ghost predicate GoodEntries(entries: seq<RawEntry>) {
    && (forall i :: 0 <= i < |entries| ==> GoodEntry(entries[i]))
    && forall i, j :: 0 <= i < j < |entries| ==> Text.Strip(entries[i].key.value) != Text.Strip(entries[j].key.value)
  }

  /** Reads a declaration: nothing declares no indicator, and otherwise every entry
      must be well formed and no trimmed key may come twice. */
  method ParseDefinitions(raw: RawIndicators) returns (r: Result<seq<Definition>>)
    ensures r.Raised? <==> raw.NotADict? || (raw.Entries? && !GoodEntries(raw.entries))
    ensures raw.Nothing? ==> r == Ok([])
    ensures r.Ok? && raw.Entries? ==>
              && |r.value| == |raw.entries|
              && forall i :: 0 <= i < |r.value| ==> r.value[i] == DefinitionOf(raw.entries[i])
    ensures r.Ok? ==> DistinctKeys(r.value)
  {
    if raw.Nothing? {
      return Ok([]);
    }
    if raw.NotADict? {
      return Raised("INDICATORS must be a dict keyed by indicator key");
    }
    hide GoodEntry, DefinitionOf;
    var entries := raw.entries;
    var out: seq<Definition> := [];
    var seen: set<string> := {};
    for i := 0 to |entries|
      invariant ParsedSoFar(entries, i, out, seen)
    {
      var e := entries[i];
      if e.key.None? || Text.Strip(e.key.value) == "" {
        KeyIsNeeded(e);
        return Raised("indicator key must be a non-empty string");
      }
      var key := Text.Strip(e.key.value);
      if key in seen {
        RepeatedKey(entries, i, out, seen);
        return Raised("indicator is duplicated");
      }
      var marker := ParseConfig(e);
      if marker.Raised? {
        return Raised(marker.error);
      }
      ParsedOneMore(entries, i, out, seen);
      hide ParsedSoFar;
      seen := seen + {key};
      out := out + [Definition(key, marker.value)];
    }
    r := Ok(out);
  }

  /** A declaration in plain terms. */
  lemma DeclarationInPlainTerms(entries: seq<RawEntry>)
    ensures GoodEntries(entries) <==>
              && (forall i :: 0 <= i < |entries| ==>
                    var e := entries[i];
                    && e.key.Some? && Text.Strip(e.key.value) != ""
                    && e.config.Some? && e.config.value.innerIsDict
                    && Text.Lower(Text.Strip(e.config.value.typ)) in {"line", "histogram", "marker"}
                    && (Text.Lower(Text.Strip(e.config.value.pane)) in {"price", "strategy"}
                        || "custom:" <= Text.Lower(Text.Strip(e.config.value.pane))))
              && (forall i, j :: 0 <= i < j < |entries| ==>
                    entries[i].key.Some? && entries[j].key.Some? ==>
                      Text.Strip(entries[i].key.value) != Text.Strip(entries[j].key.value))
    ensures forall e :: GoodEntry(e) ==>
              && DefinitionOf(e).key == Text.Strip(e.key.value)
              && (DefinitionOf(e).isMarker <==> Text.Lower(Text.Strip(e.config.value.typ)) == "marker")
  {
    hide Text.Strip, Text.Lower;
    assert forall i :: 0 <= i < |entries| ==> (GoodEntry(entries[i]) <==>
             var e := entries[i];
             && e.key.Some? && Text.Strip(e.key.value) != ""
             && e.config.Some? && e.config.value.innerIsDict
             && Text.Lower(Text.Strip(e.config.value.typ)) in {"line", "histogram", "marker"}
             && (Text.Lower(Text.Strip(e.config.value.pane)) in {"price", "strategy"}
                 || "custom:" <= Text.Lower(Text.Strip(e.config.value.pane))));
    hide GoodEntry;
  }

  lemma KeyIsNeeded(e: RawEntry)
    ensures GoodEntry(e) ==> e.key.Some? && Text.Strip(e.key.value) != ""
  {
  }

  /** What the loop has read of the first `n` entries. */
  ghost predicate ParsedSoFar(entries: seq<RawEntry>, n: nat, out: seq<Definition>, seen: set<string>)
    requires n <= |entries|
  {
    && |out| == n
    && (forall j :: 0 <= j < n ==> GoodEntry(entries[j]) && out[j] == DefinitionOf(entries[j]))
    && DistinctKeys(out)
    && seen == set d | d in out :: d.key
  }

  lemma ParsedOneMore(entries: seq<RawEntry>, n: nat, out: seq<Definition>, seen: set<string>)
    requires n < |entries| && ParsedSoFar(entries, n, out, seen)
    requires GoodEntry(entries[n]) && Text.Strip(entries[n].key.value) !in seen
    ensures var d := DefinitionOf(entries[n]);
            d.key == Text.Strip(entries[n].key.value) && ParsedSoFar(entries, n + 1, out + [d], seen + {d.key})
  {
    hide DefinitionOf, GoodEntry, Text.Strip, DistinctKeys;
    GoodKey(entries[n]);
    var d := DefinitionOf(entries[n]);
    AddDefinition(out, d);
    assert (out + [d])[..n] == out;
  }

  lemma GoodKey(e: RawEntry)
    requires GoodEntry(e)
    ensures e.key.Some? && DefinitionOf(e).key == Text.Strip(e.key.value)
  {
  }

  lemma AddDefinition(out: seq<Definition>, d: Definition)
    requires DistinctKeys(out) && d.key !in set e | e in out :: e.key
    ensures DistinctKeys(out + [d])
    ensures (set e | e in out + [d] :: e.key) == (set e | e in out :: e.key) + {d.key}
  {
    var after := out + [d];
    forall e | e in out ensures e in after {
    }
    assert after[|out|] == d;
    assert forall j :: 0 <= j < |out| ==> out[j] in out;
  }

  lemma RepeatedKey(entries: seq<RawEntry>, n: nat, out: seq<Definition>, seen: set<string>)
    requires n < |entries| && ParsedSoFar(entries, n, out, seen)
    requires entries[n].key.Some? && Text.Strip(entries[n].key.value) in seen
    ensures !GoodEntries(entries)
  {
    var d :| d in out && d.key == Text.Strip(entries[n].key.value);
    var j :| 0 <= j < n && out[j] == d;
    assert Text.Strip(entries[j].key.value) == Text.Strip(entries[n].key.value);
  }

  /** Reads the settings of an entry whose key is good; says whether it is a marker. */
  method ParseConfig(e: RawEntry) returns (r: Result<bool>)
    requires e.key.Some? && Text.Strip(e.key.value) != ""
    ensures r.Ok? <==> GoodEntry(e)
    ensures r.Ok? ==> DefinitionOf(e) == Definition(Text.Strip(e.key.value), r.value)
  {
    hide Text.Strip, Text.Lower;
    if e.config.None? {
      return Raised("indicator config must be a dict");
    }
    var typ := Text.Lower(Text.Strip(e.config.value.typ));
    var pane := Text.Lower(Text.Strip(e.config.value.pane));
    if typ !in SUPPORTED_TYPES {
      return Raised("indicator type must be one of: histogram, line, marker");
    }
    if pane !in SUPPORTED_PANES && !(CUSTOM_PANE <= pane) {
      return Raised("indicator pane must be price, strategy, or custom:<name>");
    }
    if !e.config.value.innerIsDict {
      return Raised("indicator config.config must be a dict");
    }
    r := Ok(typ == "marker");
  }

  // ----- key order -----

  /** The order of strings, character by character. */
  predicate StringBefore(a: string, b: string) {
    b != [] && (a == [] || a[0] < b[0] || (a[0] == b[0] && StringBefore(a[1..], b[1..])))
  }

  lemma {:induction false} StringOrder(a: string, b: string)
    ensures a == b || StringBefore(a, b) || StringBefore(b, a)
    ensures StringBefore(a, b) ==> a != b && !StringBefore(b, a)
  {
    if a != [] && b != [] {
      StringOrder(a[1..], b[1..]);
      assert a == [a[0]] + a[1..] && b == [b[0]] + b[1..];
    }
  }

  /** The order is decided by the first place where the strings differ, or by the
      shorter one ending. */
  lemma StringBeforeIff(a: string, b: string)
    ensures StringBefore(a, b) <==>
              || (a <= b && a != b)
              || exists k: nat :: k < |a| && k < |b| && a[..k] == b[..k] && a[k] < b[k]
  {
    if StringBefore(a, b) && !(a <= b) {
      var k := FirstDifference(a, b);
      hide StringBefore;
    } else if a <= b && a != b {
      LongerIsLater(a, b);
    } else if k: nat :| k < |a| && k < |b| && a[..k] == b[..k] && a[k] < b[k] {
      SmallerIsBefore(a, b, k);
    } else {
      StringOrder(a, b);
    }
  }

  lemma {:induction false} FirstDifference(a: string, b: string) returns (k: nat)
    requires StringBefore(a, b) && !(a <= b)
    ensures k < |a| && k < |b| && a[..k] == b[..k] && a[k] < b[k]
  {
    k := 0;
    if a[0] == b[0] {
      assert a == [a[0]] + a[1..] && b == [b[0]] + b[1..];
      var rest := FirstDifference(a[1..], b[1..]);
      k := rest + 1;
      hide StringBefore;
      assert a[..k] == [a[0]] + a[1..][..rest] && b[..k] == [b[0]] + b[1..][..rest];
    }
  }

  lemma {:induction false} LongerIsLater(a: string, b: string)
    requires a <= b && a != b
    ensures StringBefore(a, b)
  {
    if a != [] {
      LongerIsLater(a[1..], b[1..]);
    }
  }

  lemma {:induction false} SmallerIsBefore(a: string, b: string, k: nat)
    requires k < |a| && k < |b| && a[..k] == b[..k] && a[k] < b[k]
    ensures StringBefore(a, b)
  {
    if k > 0 {
      assert a[0] == a[..k][0] == b[..k][0] == b[0];
      assert a[1..][..k - 1] == a[..k][1..] == b[..k][1..] == b[1..][..k - 1];
      SmallerIsBefore(a[1..], b[1..], k - 1);
    }
  }

  lemma {:induction false} StringTransitive(a: string, b: string, c: string)
    requires StringBefore(a, b) && StringBefore(b, c)
    ensures StringBefore(a, c)
  {
    if a != [] && a[0] == b[0] && b[0] == c[0] {
      StringTransitive(a[1..], b[1..], c[1..]);
    }
  }

  /** Keys in order: by stream, then by indicator. */
  predicate KeyBefore(a: Key, b: Key) {
    StringBefore(a.stream, b.stream) || (a.stream == b.stream && StringBefore(a.indicator, b.indicator))
  }

  lemma KeyBeforeIff(a: Key, b: Key)
    ensures KeyBefore(a, b) <==>
              if a.stream == b.stream then StringBefore(a.indicator, b.indicator) else StringBefore(a.stream, b.stream)
  {
    StringOrder(a.stream, b.stream);
  }

  lemma KeyOrder(a: Key, b: Key)
    ensures a == b || KeyBefore(a, b) || KeyBefore(b, a)
    ensures KeyBefore(a, b) ==> a != b
  {
    StringOrder(a.stream, b.stream);
    StringOrder(a.indicator, b.indicator);
  }

  lemma KeyTransitive(a: Key, b: Key, c: Key)
    requires KeyBefore(a, b) && KeyBefore(b, c)
    ensures KeyBefore(a, c)
  {
    hide StringBefore;
    if StringBefore(a.stream, b.stream) && StringBefore(b.stream, c.stream) {
      StringTransitive(a.stream, b.stream, c.stream);
    }
    if StringBefore(a.indicator, b.indicator) && StringBefore(b.indicator, c.indicator) {
      StringTransitive(a.indicator, b.indicator, c.indicator);
    }
  }

  /** The least key of a set. */
  method LeastKey(keys: set<Key>) returns (least: Key)
    requires keys != {}
    ensures least in keys && forall k :: k in keys && k != least ==> KeyBefore(least, k)
  {
    hide KeyBefore;
    least :| least in keys;
    var todo := keys - {least};
    while todo != {}
      invariant todo <= keys && least in keys && least !in todo
      invariant forall k :: k in keys - todo && k != least ==> KeyBefore(least, k)
    {
      var key :| key in todo;
      KeyOrder(key, least);
      if KeyBefore(key, least) {
        forall k | k in keys - todo && k != least ensures KeyBefore(key, k) {
          KeyTransitive(key, least, k);
        }
        least := key;
      }
      todo := todo - {key};
    }
  }

  /** The keys in order, each once. */
  ghost predicate SortedList(sorted: seq<Key>, keys: set<Key>) {
    && (forall i, j :: 0 <= i < j < |sorted| ==> KeyBefore(sorted[i], sorted[j]))
    && keys == set k | k in sorted
  }

  ghost predicate AllBefore(sorted: seq<Key>, todo: set<Key>) {
    forall i, k :: 0 <= i < |sorted| && k in todo ==> KeyBefore(sorted[i], k)
  }

  lemma SortedOneMore(sorted: seq<Key>, done: set<Key>, todo: set<Key>, key: Key)
    requires SortedList(sorted, done) && AllBefore(sorted, todo) && key in todo
    requires forall k :: k in todo && k != key ==> KeyBefore(key, k)
    ensures SortedList(sorted + [key], done + {key}) && AllBefore(sorted + [key], todo - {key})
  {
    hide KeyBefore;
  }

  lemma SortedMembers(sorted: seq<Key>, keys: set<Key>)
    requires SortedList(sorted, keys)
    ensures forall k :: k in sorted <==> k in keys
  {
    hide KeyBefore;
  }

  method SortedKeys(keys: set<Key>) returns (sorted: seq<Key>)
    ensures SortedList(sorted, keys)
  {
    sorted := [];
    var todo := keys;
    while todo != {}
      invariant todo <= keys && SortedList(sorted, keys - todo) && AllBefore(sorted, todo)
    {
      var key := LeastKey(todo);
      SortedOneMore(sorted, keys - todo, todo, key);
      assert keys - todo + {key} == keys - (todo - {key});
      hide SortedList, AllBefore;
      sorted := sorted + [key];
      todo := todo - {key};
    }
    assert keys - todo == keys;
  }

  /** The open chunks are emitted in the order of their keys. */
  ghost predicate EmitsSorted(emitted: seq<Emitted>, sorted: seq<Key>, open: map<Key, OpenChunk>) {
    && SortedList(sorted, open.Keys) && |emitted| == |sorted|
    && forall i :: 0 <= i < |sorted| ==> sorted[i] in open && emitted[i] == EmitChunk(sorted[i], open[sorted[i]])
  }

  lemma EmittedAt(emitted: seq<Emitted>, sorted: seq<Key>, open: map<Key, OpenChunk>, n: nat)
    requires EmitsSorted(emitted, sorted, open) && n <= |sorted|
    ensures |emitted| == |sorted| && SortedList(sorted, open.Keys)
    ensures forall key :: SentFor(emitted[..0], key) == []
    ensures n > 0 ==> sorted[n - 1] in open && emitted[n - 1] == EmitChunk(sorted[n - 1], open[sorted[n - 1]])
                      && emitted[n - 1].key == sorted[n - 1]
  {
    hide SortedList;
  }

  lemma {:induction false} EmittedFor(emitted: seq<Emitted>, sorted: seq<Key>, open: map<Key, OpenChunk>,
                                      key: Key, n: nat)
    requires EmitsSorted(emitted, sorted, open) && n <= |sorted|
    ensures SentFor(emitted[..n], key) == if key in sorted[..n] then [EmitChunk(key, open[key])] else []
  {
    hide *;
    EmittedAt(emitted, sorted, open, n);
    if n > 0 {
      var k := sorted[n - 1];
      EmittedFor(emitted, sorted, open, key, n - 1);
      NoKeyTwice(sorted, open.Keys, n - 1);
      SentForOne(emitted[..n - 1], emitted[n - 1], key);
      assert emitted[..n] == emitted[..n - 1] + [emitted[n - 1]];
      assert sorted[..n] == sorted[..n - 1] + [k];
    }
  }

  lemma NoKeyTwice(sorted: seq<Key>, keys: set<Key>, n: nat)
    requires SortedList(sorted, keys) && n < |sorted|
    ensures sorted[n] !in sorted[..n]
  {
    hide KeyBefore;
    forall i | 0 <= i < n ensures sorted[i] != sorted[n] {
      KeyOrder(sorted[i], sorted[n]);
    }
  }

  lemma FlushedFor(emitted: seq<Emitted>, sorted: seq<Key>, open: map<Key, OpenChunk>, key: Key)
    requires EmitsSorted(emitted, sorted, open)
    ensures SentFor(emitted, key) == if key in open then [EmitChunk(key, open[key])] else []
  {
    EmittedFor(emitted, sorted, open, key, |sorted|);
    assert emitted[..|sorted|] == emitted && sorted[..|sorted|] == sorted;
    assert key in open.Keys <==> key in sorted;
  }

  /** One more bar moves the runs of its own stream and no other. */
  lemma BarFollows(size: nat, def: Definition, st: string, before: seq<Call>, stream: string, timeMs: int,
                   intervalMs: int, frame: Frame)
    ensures var (s, out) := KeyRun(size, def, st, before);
            KeyRun(size, def, st, before + [RecordBar(stream, timeMs, intervalMs, frame)]) ==
              if st == stream then
                var (s', more) := Recorded(size, def.isMarker, Key(st, def.key), s,
                                           PointOf(def, timeMs, intervalMs, frame));
                (s', out + more)
              else (s, out)
  {
    hide Recorded, PointOf;
    assert (before + [RecordBar(stream, timeMs, intervalMs, frame)])[..|before|] == before;
  }

  class IndicatorChunkBuffer {
    const definitions: seq<Definition>
    const size: nat
    var open: map<Key, OpenChunk>
    var next: map<Key, nat>
    ghost var calls: seq<Call>      // the calls so far
    ghost var sent: seq<Emitted>    // everything emitted so far

    ghost function State(key: Key): KeyState
      reads this`open, this`next
    {
      KeyState(NextOf(key), if key in open then Some(open[key]) else None)
    }

    /** Every stream and indicator is where its own run of the calls leads. */
    ghost predicate Valid()
      reads this
    {
      && size > 0 && DistinctKeys(definitions)
      && (forall key :: key in open ==> exists j :: 0 <= j < |definitions| && definitions[j].key == key.indicator)
      && (forall j, st :: 0 <= j < |definitions| ==>
            && State(Key(st, definitions[j].key)) == KeyRun(size, definitions[j], st, calls).0
            && SentFor(sent, Key(st, definitions[j].key)) == KeyRun(size, definitions[j], st, calls).1)
    }

    /** A buffer whose definitions have distinct keys, as parsed ones do, is valid. */
    constructor (definitions: seq<Definition>, size: nat)
      requires size > 0
      ensures DistinctKeys(definitions) ==> Valid()
      ensures calls == [] && sent == [] && open == map[] && next == map[]
      ensures this.definitions == definitions && this.size == size
    {
      this.definitions, this.size := definitions, size;
      open, next, calls, sent := map[], map[], [], [];
    }

    /** Records a bar for one definition of one stream. */
    method RecordOne(def: Definition, stream: string, p: Point) returns (more: seq<Emitted>)
      modifies this`open, this`next
      ensures var key := Key(stream, def.key);
              && (State(key), more) == Recorded(size, def.isMarker, key, old(State(key)), p)
              && (forall k :: k != key ==> State(k) == old(State(k)))
              && open.Keys <= old(open.Keys) + {key}
              && (forall k :: SentFor(more, k) == if k == key then more else [])
    {
      var key := Key(stream, def.key);
      if key !in open {
        var index := if key in next then next[key] else 0;
        open := open[key := OpenChunk(p.timeMs, p.intervalMs, index, 0, [])];
      }
      var chunk := open[key];
      chunk := chunk.(items := chunk.items + Stamped(def.isMarker, p, chunk.count), count := chunk.count + 1);
      open := open[key := chunk];
      more := [];
      if chunk.count >= size {
        more := [EmitChunk(key, chunk)];
        next := next[key := chunk.index + 1];
        open := open - {key};
        assert more[..0] == [];
      }
    }

    /** Records one bar of a stream for every indicator and returns the chunks
        that became full. */
    method RecordBar(streamKey: string, timeMs: int, intervalMs: int, frame: Frame)
      returns (r: Result<seq<Emitted>>)
      requires Valid()
      modifies this
      ensures Valid()
      ensures r.Raised? <==> definitions != [] && (Text.Strip(streamKey) == "" || intervalMs <= 0)
      ensures r.Raised? || definitions == [] ==> unchanged(this)
      ensures r.Ok? && definitions == [] ==> r.value == []
      ensures r.Ok? && definitions != [] ==>
                && calls == old(calls) + [Call.RecordBar(Text.Strip(streamKey), timeMs, intervalMs, frame)]
                && sent == old(sent) + r.value
    {
      if definitions == [] {
        return Ok([]);
      }
      hide SentFor, Recorded, PointOf, Text.Strip, DistinctKeys, KeyRun;
      var stream := Text.Strip(streamKey);
      if stream == "" {
        return Raised("stream_key is required");
      }
      if intervalMs <= 0 {
        return Raised("interval_ms must be positive");
      }
      var emitted := RecordAll(stream, timeMs, intervalMs, frame);
      calls := calls + [Call.RecordBar(stream, timeMs, intervalMs, frame)];
      sent := sent + emitted;
      forall j, st | 0 <= j < |definitions|
        ensures State(Key(st, definitions[j].key)) == KeyRun(size, definitions[j], st, calls).0
        ensures SentFor(sent, Key(st, definitions[j].key)) == KeyRun(size, definitions[j], st, calls).1
      {
        assert At(Key(st, definitions[j].key), emitted).1 == SentFor(emitted, Key(st, definitions[j].key));
        assert KeyAt(j, stream) == Key(stream, definitions[j].key);
        BarFollows(size, definitions[j], st, old(calls), stream, timeMs, intervalMs, frame);
        SentForAppend(old(sent), emitted, Key(st, definitions[j].key));
        assert old(SentFor(sent, Key(st, definitions[j].key))) == KeyRun(size, definitions[j], st, old(calls)).1;
      }
      r := Ok(emitted);
    }

    /** What recording a bar does to one definition of the stream. */
    ghost function Target(j: nat, stream: string, timeMs: int, intervalMs: int, frame: Frame, s: KeyState)
      : (KeyState, seq<Emitted>)
      requires j < |definitions|
    {
      var d := definitions[j];
      Recorded(size, d.isMarker, Key(stream, d.key), s, PointOf(d, timeMs, intervalMs, frame))
    }

    ghost function KeyAt(j: nat, stream: string): Key
      requires j < |definitions|
    {
      Key(stream, definitions[j].key)
    }

    /** Where a key stands, with what `emitted` holds for it. */
    ghost function At(key: Key, emitted: seq<Emitted>): (KeyState, seq<Emitted>)
      reads this`open, this`next
    {
      (State(key), SentFor(emitted, key))
    }

    /** Goes through the definitions; other streams are not touched. */
    method RecordAll(stream: string, timeMs: int, intervalMs: int, frame: Frame) returns (emitted: seq<Emitted>)
      requires DistinctKeys(definitions)
      modifies this`open, this`next
      ensures forall j :: 0 <= j < |definitions| ==>
                At(KeyAt(j, stream), emitted)
                  == Target(j, stream, timeMs, intervalMs, frame, old(State(KeyAt(j, stream))))
      ensures forall key: Key :: key.stream != stream ==> At(key, emitted) == (old(State(key)), [])
      ensures forall key :: key in open && key !in old(open) ==>
                exists j :: 0 <= j < |definitions| && definitions[j].key == key.indicator
    {
      emitted := [];
      ghost var touched: set<Key> := {};
      assert forall key :: At(key, emitted) == (old(State(key)), []);
      KeysDiffer(stream);
      hide SentFor, Target, State, KeyAt, At;
      for i := 0 to |definitions|
        invariant forall key :: key in touched ==> exists j :: 0 <= j < i && KeyAt(j, stream) == key
        invariant forall key :: key !in touched ==> At(key, emitted) == (old(State(key)), [])
        invariant forall j :: 0 <= j < i ==>
                    At(KeyAt(j, stream), emitted)
                      == Target(j, stream, timeMs, intervalMs, frame, old(State(KeyAt(j, stream))))
        invariant open.Keys <= old(open.Keys) + touched
      {
        assert KeyAt(i, stream) !in touched;
        emitted := RecordStep(i, stream, timeMs, intervalMs, frame, old(State(KeyAt(i, stream))), emitted);
        touched := touched + {KeyAt(i, stream)};
      }
    }

    lemma KeysDiffer(stream: string)
      requires DistinctKeys(definitions)
      ensures forall i, j :: 0 <= i < |definitions| && 0 <= j < |definitions| && i != j ==>
                KeyAt(i, stream) != KeyAt(j, stream)
      ensures forall j :: 0 <= j < |definitions| ==>
                KeyAt(j, stream).stream == stream && KeyAt(j, stream).indicator == definitions[j].key
    {
    }

    /** One definition's share of a bar, after the chunks of those before it. */
    method RecordStep(i: nat, stream: string, timeMs: int, intervalMs: int, frame: Frame,
                      ghost s: KeyState, before: seq<Emitted>)
      returns (emitted: seq<Emitted>)
      requires i < |definitions| && At(KeyAt(i, stream), before) == (s, [])
      modifies this`open, this`next
      ensures At(KeyAt(i, stream), emitted) == Target(i, stream, timeMs, intervalMs, frame, s)
      ensures forall k :: k != KeyAt(i, stream) ==> At(k, emitted) == old(At(k, before))
      ensures open.Keys <= old(open.Keys) + {KeyAt(i, stream)}
    {
      hide SentFor, Target, State, Recorded, PointOf;
      var def := definitions[i];
      ghost var key := Key(stream, def.key);
      TargetIs(i, stream, timeMs, intervalMs, frame, s);
      var more := RecordOne(def, stream, PointOf(def, timeMs, intervalMs, frame));
      emitted := before + more;
      assert [] + more == more;
      forall k ensures SentFor(emitted, k) == if k == key then SentFor(before, k) + more else SentFor(before, k) {
        SentForAppend(before, more, k);
        assert SentFor(before, k) + [] == SentFor(before, k);
      }
    }

    lemma TargetIs(j: nat, stream: string, timeMs: int, intervalMs: int, frame: Frame, s: KeyState)
      requires j < |definitions|
      ensures Target(j, stream, timeMs, intervalMs, frame, s)
                == Recorded(size, definitions[j].isMarker, Key(stream, definitions[j].key), s,
                            PointOf(definitions[j], timeMs, intervalMs, frame))
    {
    }

    /** What this buffer has emitted for a value indicator of a stream, with what it
        still holds open, in the terms of the calls it got: call by call what the
        frame held under the indicator's key, and null where it held nothing. */
    lemma EmittedValues(j: nat, st: string) returns (bars: seq<nat>)
      requires Valid() && j < |definitions| && !definitions[j].isMarker
      ensures forall i, k :: 0 <= i < k < |bars| ==> bars[i] < bars[k]
      ensures forall k: nat :: k < |calls| ==> (k in bars <==> calls[k].RecordBar? && calls[k].stream == st)
      ensures var key := Key(st, definitions[j].key);
              var items := AllItems(SentFor(sent, key)) + (if key in open then open[key].items else []);
              && |items| == |bars|
              && forall i :: 0 <= i < |bars| ==>
                   && bars[i] < |calls| && calls[bars[i]].RecordBar?
                   && var values := calls[bars[i]].frame.values;
                   items[i] == Value(if key.indicator in values then values[key.indicator] else None)
    {
      RunOf(j, st);
      hide *;
      bars := ValuesFromCalls(size, definitions[j], st, calls);
    }

    /** The run of a definition's key, as the fields show it. */
    lemma RunOf(j: nat, st: string)
      requires Valid() && j < |definitions|
      ensures size > 0
      ensures var (s, out) := KeyRun(size, definitions[j], st, calls); var key := Key(st, definitions[j].key);
              && out == SentFor(sent, key)
              && (if s.open.Some? then s.open.value.items else []) == (if key in open then open[key].items else [])
    {
      hide KeyRun, SentFor, DistinctKeys;
      var key := Key(st, definitions[j].key);
      assert State(key) == KeyRun(size, definitions[j], st, calls).0;
    }

    /** Emits every open chunk, however short, in the order of the keys, and
        closes it. */
    method FlushOpen() returns (emitted: seq<Emitted>, ghost sorted: seq<Key>)
      requires Valid()
      modifies this
      ensures Valid() && open == map[]
      ensures calls == old(calls) + [Call.FlushOpen] && sent == old(sent) + emitted
      ensures EmitsSorted(emitted, sorted, old(open))
    {
      hide SentFor, EmitChunk, EmitsSorted;
      emitted, sorted := EmitAll();
      open := map[];
      calls := calls + [Call.FlushOpen];
      sent := sent + emitted;
      assert calls[..|calls| - 1] == old(calls);
      forall j, st | 0 <= j < |definitions|
        ensures State(Key(st, definitions[j].key)) == KeyRun(size, definitions[j], st, calls).0
        ensures SentFor(sent, Key(st, definitions[j].key)) == KeyRun(size, definitions[j], st, calls).1
      {
        FlushedFor(emitted, sorted, old(open), Key(st, definitions[j].key));
        SentForAppend(old(sent), emitted, Key(st, definitions[j].key));
        assert old(SentFor(sent, Key(st, definitions[j].key))) == KeyRun(size, definitions[j], st, old(calls)).1;
        assert old(State(Key(st, definitions[j].key))) == KeyRun(size, definitions[j], st, old(calls)).0;
      }
    }

    ghost function NextOf(key: Key): nat
      reads this`next
    {
      if key in next then next[key] else 0
    }

    /** Emits the open chunks in the order of their keys, advancing each key's
        next index. */
    method EmitAll() returns (emitted: seq<Emitted>, ghost sorted: seq<Key>)
      modifies this`next
      ensures EmitsSorted(emitted, sorted, open)
      ensures forall key :: NextOf(key) == if key in open then open[key].index + 1 else old(NextOf(key))
    {
      hide EmitChunk, SortedList;
      var keys := SortedKeys(open.Keys);
      emitted, sorted := [], keys;
      SortedMembers(keys, open.Keys);
      for i := 0 to |keys|
        invariant |emitted| == i
        invariant forall j :: 0 <= j < i ==> emitted[j] == EmitChunk(keys[j], open[keys[j]])
        invariant forall key :: NextOf(key) == if key in keys[..i] then open[key].index + 1 else old(NextOf(key))
      {
        var key := keys[i];
        emitted := emitted + [EmitChunk(key, open[key])];
        next := next[key := open[key].index + 1];
        assert keys[..i + 1] == keys[..i] + [key];
      }
      assert keys[..|keys|] == keys;
    }
  }

  /** A buffer for a chunk size; one that is not positive raises. */
  method OpenChunkBuffer(definitions: seq<Definition>, size: int) returns (r: Result<IndicatorChunkBuffer>)
    ensures r.Raised? <==> size <= 0
    ensures r.Ok? ==>
              && fresh(r.value) && r.value.definitions == definitions && r.value.size == size
              && r.value.calls == [] && r.value.sent == [] && (DistinctKeys(definitions) ==> r.value.Valid())
  {
    if size <= 0 {
      return Raised("chunk_size must be positive");
    }
    var buffer := new IndicatorChunkBuffer(definitions, size);
    return Ok(buffer);
  }
}
