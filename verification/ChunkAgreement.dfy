/** The strategy's chunker and the agent's buffer, fed the same bars, cut them
    into the same chunks. */
module ChunkAgreement {
  import opened Prelude
  import opened AgentIndicators
  import opened ChunkBuffer

  /** The agent's buffer after a history, with nothing acknowledged. */
  function Fed(limit: nat, isMarker: bool, h: seq<Point>): Buffer {
    if h == [] then NewBuffer(limit, isMarker)
    else Added(Fed(limit, isMarker, h[..|h| - 1]), h[|h| - 1])
  }

  lemma AddedKeepsLimit()
    ensures forall b: Buffer, p: Point :: Added(b, p).limit == b.limit && Added(b, p).isMarker == b.isMarker
    ensures forall limit: nat, isMarker: bool ::
              NewBuffer(limit, isMarker).limit == limit && NewBuffer(limit, isMarker).isMarker == isMarker
  {
  }

  lemma {:induction false} FedRepresents(limit: nat, isMarker: bool, h: seq<Point>)
    requires limit > 0
    ensures Represents(Fed(limit, isMarker, h), h, {})
    ensures Fed(limit, isMarker, h).limit == limit && Fed(limit, isMarker, h).isMarker == isMarker
  {
    hide Represents, Added, NewBuffer;
    AddedKeepsLimit();
    if h == [] {
      NewRepresents(limit, isMarker);
    } else {
      var n := |h| - 1;
      FedRepresents(limit, isMarker, h[..n]);
      AddedRepresents(Fed(limit, isMarker, h[..n]), h[..n], {}, h[n]);
      assert h == h[..n] + [h[n]];
    }
  }

  /** Without flushes the chunker's output is the history cut every `size` bars. */
  ghost predicate Sliced(size: nat, def: Definition, key: Key, s: KeyState, out: seq<Emitted>, h: seq<Point>)
    requires size > 0
  {
    var rest := Slice(size, h, Full(size, h));
    && |out| == s.next == Full(size, h)
    && (forall j :: 0 <= j < |out| ==>
          Slice(size, h, j) != [] && out[j] == EmitChunk(key, OpenOf(def.isMarker, j, Slice(size, h, j))))
    && s.open == (if rest == [] then None else Some(OpenOf(def.isMarker, s.next, rest)))
  }

  lemma RecordedSliced(size: nat, def: Definition, key: Key, s: KeyState, out: seq<Emitted>, h: seq<Point>, p: Point)
    requires size > 0 && Sliced(size, def, key, s, out, h)
    ensures var (s', more) := Recorded(size, def.isMarker, key, s, p);
            Sliced(size, def, key, s', out + more, h + [p])
  {
    var rest := Slice(size, h, Full(size, h));
    OpenSlice(size, h);
    OpenSliceGrows(size, h, p);
    OpenGrows(def.isMarker, s.next, rest, p);
    assert rest != [] ==> OpenOf(def.isMarker, s.next, rest).count == |rest|;
    hide Slice, Full, OpenOf, EmitChunk, Stamped;
    var (s', more) := Recorded(size, def.isMarker, key, s, p);
    var g, out' := h + [p], out + more;
    assert |out'| == s'.next == Full(size, g);
    forall j | 0 <= j < |out'|
      ensures Slice(size, g, j) != [] && out'[j] == EmitChunk(key, OpenOf(def.isMarker, j, Slice(size, g, j)))
    {
      if j < |out| {
        FullChunkStable(def.isMarker, size, h, g, j);
      }
    }
  }

  lemma {:induction false} RunSliced(size: nat, def: Definition, stream: string, calls: seq<Call>)
    requires size > 0 && FlushOpen !in calls
    ensures var (s, out) := KeyRun(size, def, stream, calls);
            Sliced(size, def, Key(stream, def.key), s, out, History(def, stream, calls))
    decreases |calls|
  {
    if calls == [] {
      OpenSlice(size, []);
      assert Full(size, []) == 0;
    } else {
      var before := calls[..|calls| - 1];
      RunSliced(size, def, stream, before);
      assert calls[|calls| - 1] in calls;
      hide Sliced;
      var (s, out) := KeyRun(size, def, stream, before);
      var h := History(def, stream, before);
      assert h + [] == h;
      match calls[|calls| - 1]
      case RecordBar(st, t, i, frame) =>
        if st == stream {
          RecordedSliced(size, def, Key(stream, def.key), s, out, h, PointOf(def, t, i, frame));
        }
      case FlushOpen =>
    }
  }

  /** Both sides agree on everything but the way the end time is found. */
  ghost predicate SameChunk(e: Emitted, c: Chunk) {
    && e.index == c.index && e.count == c.count && e.items == c.items
    && e.startMs == c.startMs && e.intervalMs == c.intervalMs
  }

  /** The bars of a chunk follow each other at exactly the chunk's interval. */
  ghost predicate EvenlySpaced(points: seq<Point>) {
    forall i :: 0 <= i < |points| ==> points[i].timeMs == points[0].timeMs + i * points[0].intervalMs
  }

  /** The last bar is where the first bar's interval puts it. */
  ghost predicate LastBarOnTime(points: seq<Point>) {
    points != [] &&
    points[|points| - 1].timeMs == points[0].timeMs + (|points| - 1) * points[0].intervalMs
  }

  /** Fed the same bars without flushes, both sides seal the same chunks with
      the same values and markers. Their end times agree exactly when the last
      bar is where the first bar's interval puts it. */
  lemma SameSealedChunks(size: nat, def: Definition, stream: string, calls: seq<Call>, k: nat)
    requires size > 0 && FlushOpen !in calls
    ensures var out := KeyRun(size, def, stream, calls).1; var h := History(def, stream, calls);
            var sealed := Fed(size, def.isMarker, h).pending; var bars := Slice(size, h, k);
            && (k < |out| <==> k in sealed)
            && (k in sealed ==>
                  && |bars| == size
                  && SameChunk(out[k], sealed[k])
                  && (out[k].endMs == sealed[k].endMs <==> LastBarOnTime(bars))
                  && (EvenlySpaced(bars) ==> LastBarOnTime(bars)))
  {
    var h := History(def, stream, calls);
    RunSliced(size, def, stream, calls);
    FedRepresents(size, def.isMarker, h);
    hide Slice, Full, KeyRun, Fed, History, OpenOf, EmitChunk, ChunkOf, SameChunk, EvenlySpaced, LastBarOnTime;
    if k < Full(size, h) {
      FullChunkStable(def.isMarker, size, h, h, k);
      PairAgrees(def.isMarker, Key(stream, def.key), size, k, Slice(size, h, k));
    }
  }

  /** Agreement of two chunks and timing of bars, in plain terms. */
  lemma AgreementInPlainTerms(e: Emitted, c: Chunk, bars: seq<Point>)
    requires bars != []
    ensures SameChunk(e, c) <==>
              && e.index == c.index && e.count == c.count && e.items == c.items
              && e.startMs == c.startMs && e.intervalMs == c.intervalMs
    ensures LastBarOnTime(bars) <==>
              bars[|bars| - 1].timeMs == bars[0].timeMs + (|bars| - 1) * bars[0].intervalMs
    ensures EvenlySpaced(bars) <==>
              forall i :: 0 <= i < |bars| ==> bars[i].timeMs == bars[0].timeMs + i * bars[0].intervalMs
  {
  }

  /** The two records of the same bars. */
  lemma PairAgrees(isMarker: bool, key: Key, limit: nat, k: nat, bars: seq<Point>)
    requires bars != []
    ensures var e := EmitChunk(key, OpenOf(isMarker, k, bars)); var c := ChunkOf(isMarker, limit, k, bars);
            && SameChunk(e, c)
            && (e.endMs == c.endMs <==> LastBarOnTime(bars))
            && (EvenlySpaced(bars) ==> LastBarOnTime(bars))
  {
  }

  /** The chunks still open agree in the same way, were the strategy's emitted now. */
  lemma SameOpenChunk(size: nat, def: Definition, stream: string, calls: seq<Call>)
    requires size > 0 && FlushOpen !in calls
    ensures var s := KeyRun(size, def, stream, calls).0; var h := History(def, stream, calls);
            var active := Fed(size, def.isMarker, h).active; var bars := Slice(size, h, Full(size, h));
            && (s.open.None? <==> active.count == 0)
            && active.count == |bars|
            && (s.open.Some? ==>
                  var e := EmitChunk(Key(stream, def.key), s.open.value);
                  SameChunk(e, active) && (e.endMs == active.endMs <==> LastBarOnTime(bars)))
  {
    RunSliced(size, def, stream, calls);
    var h := History(def, stream, calls);
    FedRepresents(size, def.isMarker, h);
    var rest := Slice(size, h, Full(size, h));
    if rest != [] {
      PairAgrees(def.isMarker, Key(stream, def.key), size, Full(size, h), rest);
    }
    assert ChunkOf(def.isMarker, size, Full(size, h), rest).count == |rest|;
    hide Slice, Full, KeyRun, Fed, History, OpenOf, EmitChunk, ChunkOf, SameChunk;
  }

  /** A gap in the bars makes the two end times differ. */
  lemma GapSeparatesEndTimes()
    ensures var h := [Point(0, 60, None, []), Point(180, 60, None, [])];
            && 0 in Fed(2, false, h).pending && Fed(2, false, h).pending[0].endMs == 180
            && EmitChunk(Key("s", "k"), OpenOf(false, 0, h)).endMs == 60
  {
    var h := [Point(0, 60, None, []), Point(180, 60, None, [])];
    assert h[..1] == [h[0]] && h[..1][..0] == [];
    assert Fed(2, false, h[..1]) == Added(NewBuffer(2, false), h[0]);
  }
}
