/** The agent's indicator buffer: points are collected into an open chunk,
    sealed at the limit, kept until acknowledged, and resent with every flush. */
module AgentIndicators {
  import opened Prelude

  /** One recorded bar: a value for line indicators (None stands for null), any
      number of markers for marker indicators. The JSON text is not modelled. */
  datatype Point = Point(timeMs: int, intervalMs: int, value: Option<int>, markers: seq<int>)

  datatype Item = Value(value: Option<int>) | Marker(marker: int, offset: nat)

  datatype Chunk = Chunk(index: nat, startMs: int, endMs: int, intervalMs: int,
                         count: nat, items: seq<Item>, finalized: bool)

  // ----- what the chunks of a history are -----

  /** What a point adds to its chunk: every marker is stamped with the position
      of its bar inside the chunk. */
  function Stamped(isMarker: bool, p: Point, offset: nat): (items: seq<Item>)
    ensures isMarker ==> |items| == |p.markers|
    ensures isMarker ==> forall k :: 0 <= k < |items| ==> items[k] == Marker(p.markers[k], offset)
  {
    if isMarker then seq(|p.markers|, k requires 0 <= k < |p.markers| => Marker(p.markers[k], offset))
    else [Value(p.value)]
  }

  function Items(isMarker: bool, points: seq<Point>): seq<Item> {
    if points == [] then []
    else Items(isMarker, points[..|points| - 1]) + Stamped(isMarker, points[|points| - 1], |points| - 1)
  }

  /** The chunk that holds exactly these points. */
  function ChunkOf(isMarker: bool, limit: nat, index: nat, points: seq<Point>): Chunk {
    if points == [] then Chunk(index, 0, 0, 0, 0, [], false)
    else Chunk(index, points[0].timeMs, points[|points| - 1].timeMs, points[0].intervalMs,
               |points|, Items(isMarker, points), |points| >= limit)
  }

  function Min(a: nat, b: nat): nat { if a < b then a else b }

  /** The points of chunk `k` in a history cut every `limit` points. */
  function Slice(limit: nat, h: seq<Point>, k: nat): (points: seq<Point>)
    ensures |points| <= limit
  {
    h[Min(k * limit, |h|)..Min((k + 1) * limit, |h|)]
  }

  /** Chunk `k` of the whole history. */
  function TrueChunk(isMarker: bool, limit: nat, h: seq<Point>, k: nat): Chunk {
    ChunkOf(isMarker, limit, k, Slice(limit, h, k))
  }

  /** How many chunks of the history are full. */
  function Full(limit: nat, h: seq<Point>): nat
    requires limit > 0
  {
    |h| / limit
  }

  // ----- arithmetic of cutting -----

  lemma FullBounds(limit: nat, n: nat)
    requires limit > 0
    ensures (n / limit) * limit <= n < (n / limit + 1) * limit
  {
    assert (n / limit + 1) * limit == (n / limit) * limit + limit;
  }

  lemma QuotientIs(n: nat, limit: nat, q: nat)
    requires limit > 0 && q * limit <= n < (q + 1) * limit
    ensures n / limit == q
  {
    FullBounds(limit, n);
    var d := n / limit;
    if d < q {
      TimesMonotone(d + 1, q, limit);
    } else if d > q {
      TimesMonotone(q + 1, d, limit);
    }
  }

  /** Growing the history does not change a chunk that is already full. */
  lemma FullChunkStable(isMarker: bool, limit: nat, h: seq<Point>, g: seq<Point>, k: nat)
    requires limit > 0 && h <= g && k < Full(limit, h)
    ensures Slice(limit, h, k) == Slice(limit, g, k) && |Slice(limit, h, k)| == limit
    ensures TrueChunk(isMarker, limit, h, k) == TrueChunk(isMarker, limit, g, k)
    ensures TrueChunk(isMarker, limit, h, k).finalized && TrueChunk(isMarker, limit, h, k).count == limit
  {
    FullBounds(limit, |h|);
    TimesMonotone(k + 1, Full(limit, h), limit);
    assert (k + 1) * limit == k * limit + limit;
    assert Slice(limit, h, k) == Slice(limit, g, k);
  }

  lemma {:induction false} ValueItems(points: seq<Point>)
    ensures |Items(false, points)| == |points|
    ensures forall k :: 0 <= k < |points| ==> Items(false, points)[k] == Value(points[k].value)
  {
    if points != [] {
      ValueItems(points[..|points| - 1]);
    }
  }

  /** Every marker of a chunk belongs to the bar its offset names. */
  lemma {:induction false} MarkerItems(points: seq<Point>)
    ensures forall k :: 0 <= k < |Items(true, points)| ==>
              var item := Items(true, points)[k];
              item.Marker? && item.offset < |points| && item.marker in points[item.offset].markers
    ensures forall i, m :: 0 <= i < |points| && m in points[i].markers ==> Marker(m, i) in Items(true, points)
  {
    if points != [] {
      var n := |points| - 1;
      MarkerItems(points[..n]);
      hide Items;
      StampedMarkers(points[n], n);
      UnfoldItems(points);
      forall i, m | 0 <= i < |points| && m in points[i].markers ensures Marker(m, i) in Items(true, points) {
        if i < n {
          assert m in points[..n][i].markers;
        }
      }
    }
  }

  lemma UnfoldItems(points: seq<Point>)
    requires points != []
    ensures Items(true, points) ==
              Items(true, points[..|points| - 1]) + Stamped(true, points[|points| - 1], |points| - 1)
  {
  }

  lemma StampedMarkers(p: Point, offset: nat)
    ensures forall m :: m in p.markers <==> Marker(m, offset) in Stamped(true, p, offset)
    ensures forall item :: item in Stamped(true, p, offset) ==> item.Marker? && item.offset == offset
  {
    forall m | m in p.markers ensures Marker(m, offset) in Stamped(true, p, offset) {
      var k :| 0 <= k < |p.markers| && p.markers[k] == m;
      assert Stamped(true, p, offset)[k] == Marker(m, offset);
    }
  }

  /** A full chunk in plain terms: it covers `limit` points of the history from
      `k * limit` on, starts at the first, ends at the last, has the first one's
      interval, and holds their values in order. */
  lemma FullChunkInPlainTerms(isMarker: bool, limit: nat, h: seq<Point>, k: nat)
    requires limit > 0 && (k + 1) * limit <= |h|
    ensures k * limit < |h| && (k + 1) * limit - 1 < |h|
    ensures var c := TrueChunk(isMarker, limit, h, k);
            && c.index == k && c.count == limit && c.finalized
            && c.startMs == h[k * limit].timeMs && c.endMs == h[(k + 1) * limit - 1].timeMs
            && c.intervalMs == h[k * limit].intervalMs
            && c.items == Items(isMarker, h[k * limit..(k + 1) * limit])
  {
    assert (k + 1) * limit == k * limit + limit;
    hide Items;
    assert Slice(limit, h, k) == h[k * limit..(k + 1) * limit];
  }

  lemma FullGrows(limit: nat, h: seq<Point>, g: seq<Point>)
    requires limit > 0 && h <= g
    ensures Full(limit, h) <= Full(limit, g)
  {
    FullBounds(limit, |h|);
    FullBounds(limit, |g|);
    if Full(limit, g) + 1 <= Full(limit, h) {
      TimesMonotone(Full(limit, g) + 1, Full(limit, h), limit);
    }
  }

  /** The chunk after the last full one holds the rest of the history. */
  lemma OpenSlice(limit: nat, h: seq<Point>)
    requires limit > 0
    ensures Slice(limit, h, Full(limit, h)) == h[Full(limit, h) * limit..]
    ensures |Slice(limit, h, Full(limit, h))| < limit
  {
    FullBounds(limit, |h|);
    assert (Full(limit, h) + 1) * limit == Full(limit, h) * limit + limit;
  }

  // ----- the buffer -----

  /** The buffer's fields as a value. */
  datatype Buffer = Buffer(limit: nat, isMarker: bool, active: Chunk, pending: map<nat, Chunk>)

  function NewBuffer(limit: nat, isMarker: bool): Buffer {
    Buffer(limit, isMarker, Chunk(0, 0, 0, 0, 0, [], false), map[])
  }

  function Added(b: Buffer, p: Point): Buffer {
    var a := b.active;
    var start := if a.count == 0 then p.timeMs else a.startMs;
    var interval := if a.count == 0 then p.intervalMs else a.intervalMs;
    var next := Chunk(a.index, start, p.timeMs, interval, a.count + 1,
                      a.items + Stamped(b.isMarker, p, a.count), a.finalized);
    if next.count < b.limit then b.(active := next)
    else b.(active := Chunk(a.index + 1, 0, 0, 0, 0, [], false),
            pending := b.pending[a.index := next.(finalized := true)])
  }

  /** A flush: every sealed chunk not yet acknowledged, then the open one. */
  datatype Snapshot = Snapshot(finals: map<nat, Chunk>, open: Chunk)

  function Flushed(b: Buffer): Snapshot { Snapshot(b.pending, b.active.(finalized := false)) }

  function Acked(b: Buffer, indexes: set<nat>): Buffer { b.(pending := b.pending - indexes) }

  /** The buffer holds exactly what it should after recording `h` with the
      chunks of `acked` acknowledged. */
  ghost predicate Represents(b: Buffer, h: seq<Point>, acked: set<nat>) {
    && b.limit > 0
    && b.active == TrueChunk(b.isMarker, b.limit, h, Full(b.limit, h))
    && (forall k: nat :: k in b.pending <==> k < Full(b.limit, h) && k !in acked)
    && (forall k: nat :: k in b.pending ==> b.pending[k] == TrueChunk(b.isMarker, b.limit, h, k))
  }

  lemma NewRepresents(limit: nat, isMarker: bool)
    requires limit > 0
    ensures Represents(NewBuffer(limit, isMarker), [], {})
  {
    assert Full(limit, []) == 0;
  }

  /** Adding a point to the open slice: it grows, or it is full. */
  lemma OpenSliceGrows(limit: nat, h: seq<Point>, p: Point)
    requires limit > 0
    ensures var f := Full(limit, h); var open := Slice(limit, h, f); var g := h + [p];
            && Slice(limit, g, f) == open + [p]
            && Full(limit, g) == (if |open| + 1 < limit then f else f + 1)
            && (|open| + 1 == limit ==> Slice(limit, g, f + 1) == [])
  {
    var f, g := Full(limit, h), h + [p];
    FullBounds(limit, |h|);
    OpenSlice(limit, h);
    var open := h[f * limit..];
    assert g[f * limit..] == open + [p];
    assert (f + 1) * limit == f * limit + limit && (f + 2) * limit == f * limit + limit + limit;
    QuotientIs(|g|, limit, if |open| + 1 < limit then f else f + 1);
  }

  lemma EmptyChunk(isMarker: bool, limit: nat, index: nat)
    ensures ChunkOf(isMarker, limit, index, []) == Chunk(index, 0, 0, 0, 0, [], false)
  {
  }

  lemma ChunkOfGrows(isMarker: bool, limit: nat, index: nat, points: seq<Point>, p: Point)
    requires |points| + 1 <= limit
    ensures var c := ChunkOf(isMarker, limit, index, points);
            ChunkOf(isMarker, limit, index, points + [p])
              == Chunk(index, if points == [] then p.timeMs else c.startMs, p.timeMs,
                       if points == [] then p.intervalMs else c.intervalMs,
                       c.count + 1, c.items + Stamped(isMarker, p, c.count), |points| + 1 == limit)
            && c.index == index && c.count == |points| && c.finalized == (points != [] && |points| >= limit)
  {
    assert (points + [p])[..|points|] == points;
  }

  /** Recording a point keeps the buffer exact: the open chunk grows by it, or
      is sealed as a full chunk and a new one is opened. */
  lemma AddedRepresents(b: Buffer, h: seq<Point>, acked: set<nat>, p: Point)
    requires Represents(b, h, acked) && forall k :: k in acked ==> k < Full(b.limit, h)
    ensures Represents(Added(b, p), h + [p], acked)
    ensures Full(b.limit, h + [p]) == Full(b.limit, h) + (if b.active.count + 1 == b.limit then 1 else 0)
  {
    hide Slice, Full, Items, ChunkOf;
    var f := Full(b.limit, h);
    OpenSlice(b.limit, h);
    assert ChunkOf(b.isMarker, b.limit, f + 1, []) == Chunk(f + 1, 0, 0, 0, 0, [], false) by {
      EmptyChunk(b.isMarker, b.limit, f + 1);
    }
    OpenSliceGrows(b.limit, h, p);
    ChunkOfGrows(b.isMarker, b.limit, f, Slice(b.limit, h, f), p);
    forall k | k in b.pending ensures b.pending[k] == TrueChunk(b.isMarker, b.limit, h + [p], k) {
      FullChunkStable(b.isMarker, b.limit, h, h + [p], k);
    }
  }

  lemma AckedRepresents(b: Buffer, h: seq<Point>, acked: set<nat>, indexes: set<nat>)
    requires Represents(b, h, acked)
    ensures Represents(Acked(b, indexes), h, acked + indexes)
  {
  }

  class IndicatorBuffer {
    const limit: nat
    const isMarker: bool
    var active: Chunk
    var pending: map<nat, Chunk>

    ghost function View(): Buffer
      reads this
    {
      Buffer(limit, isMarker, active, pending)
    }

    /** Every sealed chunk is filed under its own index. */
    ghost predicate Valid()
      reads this
    {
      forall k: nat :: k in pending ==> pending[k].index == k
    }

    /** A limit that is not positive falls back to 1024. */
    constructor (limit: int, isMarker: bool)
      ensures Valid() && View() == NewBuffer(if limit <= 0 then 1024 else limit, isMarker)
    {
      this.limit := if limit <= 0 then 1024 else limit;
      this.isMarker := isMarker;
      active := Chunk(0, 0, 0, 0, 0, [], false);
      pending := map[];
    }

    /** Records a point and says whether that sealed a chunk. */
    method AddPoint(p: Point) returns (didSeal: bool)
      requires Valid()
      modifies this
      ensures Valid() && View() == Added(old(View()), p)
      ensures didSeal <==> old(active.count) + 1 >= limit
    {
      if active.count == 0 {
        active := active.(startMs := p.timeMs, intervalMs := p.intervalMs);
      }
      active := active.(endMs := p.timeMs, count := active.count + 1,
                        items := active.items + Stamped(isMarker, p, active.count));
      if active.count < limit {
        return false;
      }
      var sealed := active.(finalized := true);
      pending := pending[sealed.index := sealed];
      active := Chunk(sealed.index + 1, 0, 0, 0, 0, [], false);
      didSeal := true;
    }

    /** Lists the sealed chunks by index, each once, and the open chunk. */
    method SnapshotForFlush() returns (finals: seq<Chunk>, open: Chunk)
      requires Valid()
      ensures forall i, j :: 0 <= i < j < |finals| ==> finals[i].index < finals[j].index
      ensures forall c :: c in finals <==> c in pending.Values
      ensures open == Flushed(View()).open
    {
      var indexes := SortedIndexes(pending.Keys);
      finals := [];
      for i := 0 to |indexes|
        invariant |finals| == i
        invariant forall j :: 0 <= j < i ==> indexes[j] in pending && finals[j] == pending[indexes[j]]
      {
        assert indexes[i] in indexes;
        finals := finals + [pending[indexes[i]]];
      }
      forall c | c in pending.Values ensures c in finals {
        var k :| k in pending && pending[k] == c;
        var j :| 0 <= j < |indexes| && indexes[j] == k;
        assert finals[j] == c;
      }
      open := active.(finalized := false);
    }

    method MarkFinalizedAcked(indexes: seq<nat>)
      requires Valid()
      modifies this
      ensures Valid() && View() == Acked(old(View()), set k | k in indexes)
    {
      for i := 0 to |indexes|
        invariant active == old(active)
        invariant pending == old(pending) - set k | k in indexes[..i]
      {
        assert indexes[..i + 1] == indexes[..i] + [indexes[i]];
        pending := pending - {indexes[i]};
      }
      assert indexes[..|indexes|] == indexes;
    }
  }

  /** Collects the indexes one by one and keeps the list in order. */
  method SortedIndexes(indexes: set<nat>) returns (sorted: seq<nat>)
    ensures forall i, j :: 0 <= i < j < |sorted| ==> sorted[i] < sorted[j]
    ensures forall k :: k in sorted <==> k in indexes
  {
    sorted := [];
    var todo := indexes;
    while todo != {}
      invariant todo <= indexes
      invariant forall i, j :: 0 <= i < j < |sorted| ==> sorted[i] < sorted[j]
      invariant forall k :: k in sorted <==> k in indexes && k !in todo
      decreases todo
    {
      var k :| k in todo;
      var at := |sorted|;
      while at > 0 && k < sorted[at - 1]
        invariant 0 <= at <= |sorted|
        invariant forall i :: at <= i < |sorted| ==> k < sorted[i]
      {
        at := at - 1;
      }
      assert at > 0 ==> sorted[at - 1] in sorted;
      sorted := sorted[..at] + [k] + sorted[at..];
      todo := todo - {k};
    }
  }
}
