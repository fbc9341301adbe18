/** Delivering an indicator's chunks: the agent resends what is not yet
    acknowledged, snapshots may be lost but arrive in order, and the receiver
    overwrites by chunk index. */
module AgentProtocol {
  import opened Prelude
  import opened AgentIndicators

  /** A snapshot under way, with the history it was taken at. */
  datatype Flight = Flight(snap: Snapshot, taken: seq<Point>)

  /** The whole system. `history` is everything recorded, `applied` the history
      of the last snapshot the receiver stored, `delivered` the sealed chunks
      that stored snapshots contained. */
  datatype System = System(buffer: Buffer, history: seq<Point>, wire: seq<Flight>,
                           receiver: map<nat, Chunk>, applied: seq<Point>,
                           delivered: set<nat>, acked: set<nat>)

  datatype Event = Add(p: Point) | Flush | Deliver | Lose | Ack(indexes: set<nat>)

  function Start(limit: nat, isMarker: bool): System {
    System(NewBuffer(limit, isMarker), [], [], map[], [], {}, {})
  }

  /** The receiver stores every chunk it is sent under its index; an open chunk
      is sent only when it has a point. */
  function Stored(receiver: map<nat, Chunk>, snap: Snapshot): map<nat, Chunk> {
    receiver + snap.finals + (if snap.open.count > 0 then map[snap.open.index := snap.open] else map[])
  }

  predicate Enabled(s: System, e: Event) {
    match e
    case Add(_) => true
    case Flush => true
    case Deliver => s.wire != []
    case Lose => s.wire != []
    case Ack(indexes) => indexes <= s.delivered
  }

  function Next(s: System, e: Event): System
    requires Enabled(s, e)
  {
    match e
    case Add(p) => s.(buffer := Added(s.buffer, p), history := s.history + [p])
    case Flush => s.(wire := s.wire + [Flight(Flushed(s.buffer), s.history)])
    case Deliver =>
      var f := s.wire[0];
      s.(wire := s.wire[1..], receiver := Stored(s.receiver, f.snap), applied := f.taken,
         delivered := s.delivered + f.snap.finals.Keys)
    case Lose => s.(wire := s.wire[1..])
    case Ack(indexes) => s.(buffer := Acked(s.buffer, indexes), acked := s.acked + indexes)
  }

  predicate Runnable(s: System, events: seq<Event>)
    decreases |events|
  {
    events == [] || (Enabled(s, events[0]) && Runnable(Next(s, events[0]), events[1..]))
  }

  function Run(s: System, events: seq<Event>): System
    requires Runnable(s, events)
    decreases |events|
  {
    if events == [] then s else Run(Next(s, events[0]), events[1..])
  }

  // ----- the invariant -----

  /** How many chunks a history makes, the open one included when it has a point. */
  function ChunkCount(limit: nat, h: seq<Point>): nat
    requires limit > 0
  {
    Full(limit, h) + (if Slice(limit, h, Full(limit, h)) == [] then 0 else 1)
  }

  /** The receiver holds exactly the chunks of the history `h`. */
  ghost predicate HoldsExactly(b: Buffer, receiver: map<nat, Chunk>, h: seq<Point>)
    requires b.limit > 0
  {
    && (forall k: nat :: k in receiver <==> k < ChunkCount(b.limit, h))
    && (forall k: nat :: k in receiver ==> receiver[k] == TrueChunk(b.isMarker, b.limit, h, k))
  }

  /** A snapshot carries true chunks of its history, and misses only sealed
      chunks that have been acknowledged. */
  ghost predicate FlightOk(b: Buffer, f: Flight, acked: set<nat>)
    requires b.limit > 0
  {
    && f.snap.open == TrueChunk(b.isMarker, b.limit, f.taken, Full(b.limit, f.taken))
    && (forall k: nat :: k in f.snap.finals ==>
          k < Full(b.limit, f.taken) && f.snap.finals[k] == TrueChunk(b.isMarker, b.limit, f.taken, k))
    && (forall k: nat :: k < Full(b.limit, f.taken) && k !in f.snap.finals ==> k in acked)
  }

  ghost predicate InOrder(applied: seq<Point>, wire: seq<Flight>, history: seq<Point>) {
    && applied <= history
    && (forall i :: 0 <= i < |wire| ==> applied <= wire[i].taken <= history)
    && (forall i, j :: 0 <= i < j < |wire| ==> wire[i].taken <= wire[j].taken)
  }

  ghost predicate Inv(s: System) {
    && Represents(s.buffer, s.history, s.acked)
    && InOrder(s.applied, s.wire, s.history)
    && (forall i :: 0 <= i < |s.wire| ==> FlightOk(s.buffer, s.wire[i], s.acked))
    && HoldsExactly(s.buffer, s.receiver, s.applied)
    && s.acked <= s.delivered
    && (forall k: nat :: k in s.delivered ==> k < Full(s.buffer.limit, s.applied))
  }

  lemma StartInv(limit: nat, isMarker: bool)
    requires limit > 0
    ensures Inv(Start(limit, isMarker))
  {
    NewRepresents(limit, isMarker);
    assert Slice(limit, [], Full(limit, [])) == [];
  }

  /** Chunk by chunk: storing a snapshot brings in what it carries, and what it
      misses has been at the receiver in full since before. */
  lemma StoredAt(b: Buffer, receiver: map<nat, Chunk>, applied: seq<Point>, f: Flight, acked: set<nat>, k: nat)
    requires b.limit > 0
    requires HoldsExactly(b, receiver, applied) && FlightOk(b, f, acked) && applied <= f.taken
    requires forall k: nat :: k in acked ==> k < Full(b.limit, applied)
    ensures k in Stored(receiver, f.snap) <==> k < ChunkCount(b.limit, f.taken)
    ensures k in Stored(receiver, f.snap) ==>
              Stored(receiver, f.snap)[k] == TrueChunk(b.isMarker, b.limit, f.taken, k)
  {
    hide Slice, Full, TrueChunk, ChunkOf, ChunkCount;
    ChunkCountIs(b, applied);
    ChunkCountIs(b, f.taken);
    OpenStaysOpen(b.limit, applied, f.taken);
    assert f.snap.open == TrueChunk(b.isMarker, b.limit, f.taken, Full(b.limit, f.taken));
    assert k in receiver <==> k < ChunkCount(b.limit, applied);
    assert k in receiver ==> receiver[k] == TrueChunk(b.isMarker, b.limit, applied, k);
    assert k in f.snap.finals ==>
        k < Full(b.limit, f.taken) && f.snap.finals[k] == TrueChunk(b.isMarker, b.limit, f.taken, k);
    assert k < Full(b.limit, f.taken) && k !in f.snap.finals ==> k < Full(b.limit, applied);
    hide FlightOk, HoldsExactly;
    if k < Full(b.limit, f.taken) && k !in f.snap.finals {
      FullChunkStable(b.isMarker, b.limit, applied, f.taken, k);
    }
  }

  lemma ChunkCountIs(b: Buffer, h: seq<Point>)
    requires b.limit > 0
    ensures var open := TrueChunk(b.isMarker, b.limit, h, Full(b.limit, h));
            && ChunkCount(b.limit, h) == Full(b.limit, h) + (if open.count > 0 then 1 else 0)
            && open.index == Full(b.limit, h)
  {
  }

  /** Storing a snapshot that follows everything stored so far leaves the
      receiver with exactly the snapshot's whole history. */
  lemma StoredHoldsExactly(b: Buffer, receiver: map<nat, Chunk>, applied: seq<Point>, f: Flight, acked: set<nat>)
    requires b.limit > 0
    requires HoldsExactly(b, receiver, applied) && FlightOk(b, f, acked) && applied <= f.taken
    requires forall k: nat :: k in acked ==> k < Full(b.limit, applied)
    ensures HoldsExactly(b, Stored(receiver, f.snap), f.taken)
  {
    hide FlightOk, Stored, Full, TrueChunk, ChunkCount;
    forall k: nat
      ensures k in Stored(receiver, f.snap) <==> k < ChunkCount(b.limit, f.taken)
      ensures k in Stored(receiver, f.snap) ==>
                Stored(receiver, f.snap)[k] == TrueChunk(b.isMarker, b.limit, f.taken, k)
    {
      StoredAt(b, receiver, applied, f, acked, k);
    }
  }

  /** The open chunk of an earlier history is full or still has its points later. */
  lemma OpenStaysOpen(limit: nat, h: seq<Point>, g: seq<Point>)
    requires limit > 0 && h <= g
    ensures ChunkCount(limit, h) <= ChunkCount(limit, g)
  {
    FullGrows(limit, h, g);
    OpenSlice(limit, h);
    OpenSlice(limit, g);
    if Full(limit, h) == Full(limit, g) {
      assert |g[Full(limit, g) * limit..]| >= |h[Full(limit, h) * limit..]|;
    }
  }

  lemma FlushedOk(b: Buffer, h: seq<Point>, acked: set<nat>)
    requires Represents(b, h, acked)
    ensures FlightOk(b, Flight(Flushed(b), h), acked)
  {
    OpenSlice(b.limit, h);
  }

  lemma FlightsKeep(b: Buffer, b': Buffer, wire: seq<Flight>, acked: set<nat>, acked': set<nat>)
    requires b.limit > 0 && b'.limit == b.limit && b'.isMarker == b.isMarker && acked <= acked'
    requires forall i :: 0 <= i < |wire| ==> FlightOk(b, wire[i], acked)
    ensures forall i :: 0 <= i < |wire| ==> FlightOk(b', wire[i], acked')
  {
  }

  lemma AddInv(s: System, p: Point)
    requires Inv(s)
    ensures Inv(Next(s, Add(p)))
  {
    var t := Next(s, Add(p));
    DeliveredAreFull(s);
    hide Full, TrueChunk, Slice, Added, ChunkCount, FlightOk, HoldsExactly, Represents;
    AddedRepresents(s.buffer, s.history, s.acked, p);
    AddedKeepsShape(s.buffer, p);
    FlightsKeep(s.buffer, t.buffer, s.wire, s.acked, t.acked);
    HoldsKeep(s.buffer, t.buffer, s.receiver, s.applied);
  }

  lemma FlushInv(s: System)
    requires Inv(s)
    ensures Inv(Next(s, Flush))
  {
    DeliveredAreFull(s);
    hide Full, TrueChunk, Slice, ChunkCount, FlightOk, HoldsExactly, Represents, Flushed;
    FlushedOk(s.buffer, s.history, s.acked);
  }

  lemma DeliverInv(s: System)
    requires Inv(s) && s.wire != []
    ensures Inv(Next(s, Deliver))
  {
    hide Full, TrueChunk, Slice, ChunkCount, FlightOk, HoldsExactly, Represents, Stored, InOrder;
    var t, f, limit := Next(s, Deliver), s.wire[0], s.buffer.limit;
    DeliveredAreFull(s);
    InOrderTail(s.applied, s.wire, s.history);
    FullGrows(limit, s.applied, f.taken);
    assert FlightOk(s.buffer, f, s.acked);
    StoredHoldsExactly(s.buffer, s.receiver, s.applied, f, s.acked);
    FinalsAreFull(s.buffer, f, s.acked);
    FlightsTail(s.buffer, s.wire, s.acked);
    forall k: nat | k in t.delivered ensures k < Full(limit, t.applied) {
      assert k in s.delivered || k in f.snap.finals;
    }
  }

  lemma FlightsTail(b: Buffer, wire: seq<Flight>, acked: set<nat>)
    requires wire != [] && b.limit > 0
    requires forall i :: 0 <= i < |wire| ==> FlightOk(b, wire[i], acked)
    ensures forall i :: 0 <= i < |wire[1..]| ==> FlightOk(b, wire[1..][i], acked)
  {
    hide FlightOk;
  }

  lemma InOrderTail(applied: seq<Point>, wire: seq<Flight>, history: seq<Point>)
    requires InOrder(applied, wire, history) && wire != []
    ensures InOrder(wire[0].taken, wire[1..], history) && applied <= wire[0].taken <= history
  {
  }

  lemma LoseInv(s: System)
    requires Inv(s) && s.wire != []
    ensures Inv(Next(s, Lose))
  {
    DeliveredAreFull(s);
    hide Full, TrueChunk, Slice, ChunkCount, FlightOk, HoldsExactly, Represents;
  }

  lemma AckInv(s: System, indexes: set<nat>)
    requires Inv(s) && indexes <= s.delivered
    ensures Inv(Next(s, Ack(indexes)))
  {
    var t := Next(s, Ack(indexes));
    DeliveredAreFull(s);
    hide Full, TrueChunk, Slice, ChunkCount, FlightOk, HoldsExactly, Represents;
    AckedRepresents(s.buffer, s.history, s.acked, indexes);
    FlightsKeep(s.buffer, t.buffer, s.wire, s.acked, t.acked);
    HoldsKeep(s.buffer, t.buffer, s.receiver, s.applied);
  }

  lemma DeliveredAreFull(s: System)
    requires Inv(s)
    ensures s.buffer.limit > 0
    ensures forall k: nat :: k in s.acked ==> k < Full(s.buffer.limit, s.history)
  {
    FullGrows(s.buffer.limit, s.applied, s.history);
  }

  lemma AddedKeepsShape(b: Buffer, p: Point)
    ensures Added(b, p).limit == b.limit && Added(b, p).isMarker == b.isMarker
  {
  }

  lemma HoldsKeep(b: Buffer, b': Buffer, receiver: map<nat, Chunk>, h: seq<Point>)
    requires b.limit > 0 && b'.limit == b.limit && b'.isMarker == b.isMarker
    requires HoldsExactly(b, receiver, h)
    ensures HoldsExactly(b', receiver, h)
  {
  }

  lemma FinalsAreFull(b: Buffer, f: Flight, acked: set<nat>)
    requires b.limit > 0 && FlightOk(b, f, acked)
    ensures forall k :: k in f.snap.finals ==> k < Full(b.limit, f.taken)
  {
  }

  /** Every event keeps the invariant. */
  lemma NextInv(s: System, e: Event)
    requires Inv(s) && Enabled(s, e)
    ensures Inv(Next(s, e))
  {
    hide Inv;
    match e {
      case Add(p) => AddInv(s, p);
      case Flush => FlushInv(s);
      case Deliver => DeliverInv(s);
      case Lose => LoseInv(s);
      case Ack(indexes) => AckInv(s, indexes);
    }
  }

  /** Every run, whatever its interleaving, keeps the invariant. */
  lemma {:induction false} RunInv(s: System, events: seq<Event>)
    requires Inv(s) && Runnable(s, events)
    ensures Inv(Run(s, events))
    decreases |events|
  {
    if events != [] {
      NextInv(s, events[0]);
      RunInv(Next(s, events[0]), events[1..]);
    }
  }

  // ----- what a run guarantees -----

  /** Whatever happened, every chunk the receiver holds is the front part of
      the true chunk, stored under the true index. */
  lemma ReceiverHoldsPrefixes(limit: nat, isMarker: bool, events: seq<Event>, k: nat)
    requires limit > 0 && Runnable(Start(limit, isMarker), events)
    requires k in Run(Start(limit, isMarker), events).receiver
    ensures var s := Run(Start(limit, isMarker), events);
            exists points: seq<Point> ::
              && points <= Slice(limit, s.history, k) && points != []
              && s.receiver[k] == ChunkOf(isMarker, limit, k, points)
  {
    var s := Reached(limit, isMarker, events);
    var points := Slice(limit, s.applied, k);
    SliceOfPrefix(limit, s.applied, s.history, k);
    ChunkNotEmpty(limit, s.applied, k);
    hide Slice, Run, Runnable;
    assert s.receiver[k] == ChunkOf(isMarker, limit, k, points);
  }

  /** A state reached from the start satisfies the invariant. */
  lemma Reached(limit: nat, isMarker: bool, events: seq<Event>) returns (s: System)
    requires limit > 0 && Runnable(Start(limit, isMarker), events)
    ensures s == Run(Start(limit, isMarker), events)
    ensures Inv(s) && s.buffer.limit == limit && s.buffer.isMarker == isMarker
  {
    s := Run(Start(limit, isMarker), events);
    StartInv(limit, isMarker);
    RunInv(Start(limit, isMarker), events);
    RunKeepsShape(Start(limit, isMarker), events);
  }

  lemma ChunkNotEmpty(limit: nat, h: seq<Point>, k: nat)
    requires limit > 0 && k < ChunkCount(limit, h)
    ensures Slice(limit, h, k) != []
  {
    if k < Full(limit, h) {
      FullChunkStable(false, limit, h, h, k);
    }
  }

  /** An acknowledged chunk is at the receiver in full, for good. */
  lemma AckedChunksAreComplete(limit: nat, isMarker: bool, events: seq<Event>, k: nat)
    requires limit > 0 && Runnable(Start(limit, isMarker), events)
    requires k in Run(Start(limit, isMarker), events).acked
    ensures var s := Run(Start(limit, isMarker), events);
            && k in s.receiver
            && s.receiver[k] == TrueChunk(isMarker, limit, s.history, k)
            && s.receiver[k].count == limit && s.receiver[k].finalized
  {
    var s := Reached(limit, isMarker, events);
    FullChunkStable(isMarker, limit, s.applied, s.history, k);
  }

  /** A chunk that is sealed but not acknowledged is in the next flush, complete. */
  lemma UnackedChunksAreResent(limit: nat, isMarker: bool, events: seq<Event>, k: nat)
    requires limit > 0 && Runnable(Start(limit, isMarker), events)
    ensures var s := Run(Start(limit, isMarker), events); var finals := Flushed(s.buffer).finals;
            && (k in finals <==> k < Full(limit, s.history) && k !in s.acked)
            && (k in finals ==> finals[k] == TrueChunk(isMarker, limit, s.history, k) && finals[k].count == limit)
  {
    var s := Reached(limit, isMarker, events);
    if k < Full(limit, s.history) {
      FullChunkStable(isMarker, limit, s.history, s.history, k);
    }
  }

  /** Right after a snapshot is stored, the receiver holds exactly the whole
      history at the time the snapshot was taken, chunk by chunk. */
  lemma DeliveryBringsWholeHistory(limit: nat, isMarker: bool, events: seq<Event>)
    requires limit > 0 && Runnable(Start(limit, isMarker), events)
    requires Run(Start(limit, isMarker), events).wire != []
    ensures var s := Run(Start(limit, isMarker), events); var t := Next(s, Deliver);
            && (forall k: nat :: k in t.receiver <==> k < ChunkCount(limit, s.wire[0].taken))
            && (forall k: nat :: k in t.receiver ==>
                  t.receiver[k] == TrueChunk(isMarker, limit, s.wire[0].taken, k))
  {
    var s := Reached(limit, isMarker, events);
    NextInv(s, Deliver);
  }

  lemma {:induction false} RunKeepsShape(s: System, events: seq<Event>)
    requires Runnable(s, events)
    ensures Run(s, events).buffer.limit == s.buffer.limit
    ensures Run(s, events).buffer.isMarker == s.buffer.isMarker
    decreases |events|
  {
    if events != [] {
      RunKeepsShape(Next(s, events[0]), events[1..]);
    }
  }

  lemma SliceOfPrefix(limit: nat, h: seq<Point>, g: seq<Point>, k: nat)
    requires h <= g
    ensures Slice(limit, h, k) <= Slice(limit, g, k)
  {
  }

  ghost function Joined(limit: nat, h: seq<Point>, n: nat): seq<Point> {
    if n == 0 then [] else Joined(limit, h, n - 1) + Slice(limit, h, n - 1)
  }

  /** The chunks of a history, put end to end, are the history. */
  lemma ChunksJoinToHistory(limit: nat, h: seq<Point>)
    requires limit > 0
    ensures Joined(limit, h, ChunkCount(limit, h)) == h
  {
    hide *;
    var f := Full(limit, h);
    OpenSlice(limit, h);
    JoinedIsPrefix(limit, h, f);
    JoinedToEnd(limit, h);
    PutTogether(h, f * limit);
  }

  lemma JoinedToEnd(limit: nat, h: seq<Point>)
    requires limit > 0
    ensures Joined(limit, h, ChunkCount(limit, h)) == Joined(limit, h, Full(limit, h)) + Slice(limit, h, Full(limit, h))
  {
    hide Slice, Full;
    assert Joined(limit, h, Full(limit, h)) + [] == Joined(limit, h, Full(limit, h));
  }

  lemma PutTogether(h: seq<Point>, m: nat)
    requires m <= |h|
    ensures h[..m] + h[m..] == h
  {
  }

  lemma {:induction false} JoinedIsPrefix(limit: nat, h: seq<Point>, n: nat)
    requires limit > 0 && n <= Full(limit, h)
    ensures n * limit <= |h| && Joined(limit, h, n) == h[..n * limit]
  {
    FullBounds(limit, |h|);
    TimesMonotone(n, Full(limit, h), limit);
    if n > 0 {
      JoinedIsPrefix(limit, h, n - 1);
      assert (n - 1 + 1) * limit == (n - 1) * limit + limit;
      assert h[..n * limit] == h[..(n - 1) * limit] + h[(n - 1) * limit..n * limit];
    }
  }

  // ----- why the assumptions are needed -----

  /** With two snapshots stored in the wrong order, an open chunk overwrites the
      sealed one for good: it is acknowledged and no longer resent. */
  lemma ReorderingLosesAckedChunk(p: Point, q: Point)
    ensures var b1 := Added(NewBuffer(2, false), p); var b2 := Added(b1, q);
            var receiver := Stored(Stored(map[], Flushed(b2)), Flushed(b1));
            && 0 in Flushed(b2).finals && Flushed(b2).finals[0].count == 2
            && 0 in receiver && receiver[0].count == 1
            && 0 !in Flushed(Acked(b2, {0})).finals
  {
  }

  // ----- the agent's own sequence of calls -----

  /** What became of the save call: stored and confirmed, stored but reported
      as failed, or not stored. */
  datatype Outcome = Saved | StoredOnly | Dropped

  /** Recording points one after the other, a flush after each. */
  function SendEvents(points: seq<Point>): seq<Event> {
    if points == [] then []
    else SendEvents(points[..|points| - 1]) + [Add(points[|points| - 1]), Flush]
  }

  function Repeat(e: Event, n: nat): (events: seq<Event>)
    ensures |events| == n
  {
    if n == 0 then [] else [e] + Repeat(e, n - 1)
  }

  function AddedAll(b: Buffer, points: seq<Point>): Buffer {
    if points == [] then b else Added(AddedAll(b, points[..|points| - 1]), points[|points| - 1])
  }

  /** Handling one frame's points for one indicator: a frame may name it more than
      once. Every point is recorded and flushed, all flushes are saved in one call,
      and on success everything that a second flush lists is acknowledged, again
      once for every point. */
  function FrameEvents(s: System, points: seq<Point>, outcome: Outcome): seq<Event> {
    var n := |points|;
    SendEvents(points)
    + Repeat(if outcome == Dropped then Lose else Deliver, n)
    + (if outcome == Saved && n > 0
       then [Ack(Flushed(AddedAll(s.buffer, points)).finals.Keys)] + Repeat(Ack({}), n - 1) else [])
  }

  lemma RunFirst(s: System, e: Event, rest: seq<Event>)
    requires Enabled(s, e)
    ensures Runnable(s, [e] + rest) == Runnable(Next(s, e), rest)
    ensures Runnable(Next(s, e), rest) ==> Run(s, [e] + rest) == Run(Next(s, e), rest)
  {
    assert ([e] + rest)[1..] == rest;
  }

  lemma RunNone(s: System)
    ensures Runnable(s, []) && Run(s, []) == s
  {
  }

  lemma {:induction false} RunAppend(s: System, a: seq<Event>, b: seq<Event>)
    requires Runnable(s, a) && Runnable(Run(s, a), b)
    ensures Runnable(s, a + b) && Run(s, a + b) == Run(Run(s, a), b)
    decreases |a|
  {
    hide Next, Enabled;
    if a == [] {
      assert a + b == b;
    } else {
      RunAppend(Next(s, a[0]), a[1..], b);
      assert a + b == [a[0]] + (a[1..] + b);
      RunFirst(s, a[0], a[1..] + b);
    }
  }

  lemma RunTwo(s: System, a: Event, b: Event)
    requires Enabled(s, a) && Enabled(Next(s, a), b)
    ensures Runnable(s, [a, b]) && Run(s, [a, b]) == Next(Next(s, a), b)
  {
    hide Next, Enabled;
    RunNone(Next(Next(s, a), b));
    RunFirst(Next(s, a), b, []);
    RunFirst(s, a, [b]);
    assert [a] + [b] == [a, b] && [b] + [] == [b];
  }

  /** The wire after sending: one more flight for each point, the last of them
      taken at the whole history. */
  ghost predicate Sent(s: System, points: seq<Point>, t: System) {
    && t.history == s.history + points && t.buffer == AddedAll(s.buffer, points)
    && |t.wire| == |s.wire| + |points|
    && t.receiver == s.receiver && t.delivered == s.delivered
    && (points != [] ==> t.wire[|t.wire| - 1] == Flight(Flushed(t.buffer), t.history))
  }

  lemma {:induction false} SendAll(s: System, points: seq<Point>) returns (t: System)
    requires Inv(s)
    ensures Runnable(s, SendEvents(points)) && t == Run(s, SendEvents(points))
    ensures Inv(t) && Sent(s, points, t)
  {
    hide Inv, Added, Run, Runnable;
    if points == [] {
      RunNone(s);
      t := s;
      assert s.history + points == s.history;
    } else {
      var n := |points| - 1;
      var mid := SendAll(s, points[..n]);
      t := SendOne(s, points, mid);
      RunTwo(mid, Add(points[n]), Flush);
      RunAppend(s, SendEvents(points[..n]), [Add(points[n]), Flush]);
    }
  }

  lemma SendOne(s: System, points: seq<Point>, mid: System) returns (t: System)
    requires points != [] && Inv(mid) && Sent(s, points[..|points| - 1], mid)
    ensures t == Next(Next(mid, Add(points[|points| - 1])), Flush)
    ensures Inv(t) && Sent(s, points, t)
  {
    hide Inv, Added;
    var p := points[|points| - 1];
    NextInv(mid, Add(p));
    NextInv(Next(mid, Add(p)), Flush);
    t := Next(Next(mid, Add(p)), Flush);
    assert points == points[..|points| - 1] + [p];
    assert s.history + points == s.history + points[..|points| - 1] + [p];
  }

  /** All flights of the wire are stored, in order, or all are lost. */
  lemma {:induction false} SettleAll(s: System, last: Event) returns (t: System)
    requires Inv(s) && (last == Deliver || last == Lose)
    ensures Runnable(s, Repeat(last, |s.wire|)) && t == Run(s, Repeat(last, |s.wire|))
    ensures Inv(t) && t.wire == [] && t.buffer == s.buffer && t.history == s.history
    ensures last == Deliver && s.wire != [] ==>
              var f := s.wire[|s.wire| - 1]; t.applied == f.taken && f.snap.finals.Keys <= t.delivered
    decreases |s.wire|
  {
    hide Inv, Run, Runnable, Stored;
    if s.wire == [] {
      RunNone(s);
      t := s;
    } else {
      NextInv(s, last);
      var u := Next(s, last);
      t := SettleAll(u, last);
      RunFirst(s, last, Repeat(last, |u.wire|));
      if |s.wire| == 1 {
        RunNone(u);
      }
    }
  }

  lemma {:induction false} AckNothing(s: System, n: nat)
    ensures Runnable(s, Repeat(Ack({}), n)) && Run(s, Repeat(Ack({}), n)) == s
  {
    hide Run, Runnable;
    if n == 0 {
      RunNone(s);
    } else {
      assert Acked(s.buffer, {}) == s.buffer && s.acked + {} == s.acked;
      assert Next(s, Ack({})) == s;
      RunFirst(s, Ack({}), Repeat(Ack({}), n - 1));
      AckNothing(s, n - 1);
    }
  }

  lemma AppliedExactly(s: System)
    requires Inv(s)
    ensures s.buffer.limit > 0 && HoldsExactly(s.buffer, s.receiver, s.applied)
  {
  }

  /** Acknowledging everything pending, once it is all delivered. */
  lemma AckAll(s: System)
    requires Inv(s) && s.wire == [] && s.buffer.limit > 0 && s.buffer.pending.Keys <= s.delivered
    requires HoldsExactly(s.buffer, s.receiver, s.history)
    ensures var t := Next(s, Ack(s.buffer.pending.Keys));
            && Inv(t) && t.wire == [] && t.history == s.history && t.buffer.pending == map[]
            && t.buffer.limit > 0 && HoldsExactly(t.buffer, t.receiver, t.history)
  {
    hide Inv;
    NextInv(s, Ack(s.buffer.pending.Keys));
  }

  /** One frame at a time, the second flush lists only chunks that were just
      stored, so the agent never acknowledges an undelivered chunk; after a
      confirmed save nothing is pending and the receiver is up to date. */
  lemma FrameIsSafe(s: System, points: seq<Point>, outcome: Outcome)
    requires Inv(s) && s.wire == []
    ensures Runnable(s, FrameEvents(s, points, outcome))
    ensures var t := Run(s, FrameEvents(s, points, outcome));
            && Inv(t) && t.wire == [] && t.history == s.history + points
            && t.buffer.limit > 0
            && (outcome != Dropped && points != [] ==> HoldsExactly(t.buffer, t.receiver, t.history))
            && (outcome == Saved && points != [] ==> t.buffer.pending == map[])
  {
    hide Run, Runnable, Inv, HoldsExactly, Added, Stored, Next;
    var last := if outcome == Dropped then Lose else Deliver;
    var n := |points|;
    var sent := SendAll(s, points);
    var settled := SettleAll(sent, last);
    AppliedExactly(settled);
    RunAppend(s, SendEvents(points), Repeat(last, n));
    var before := SendEvents(points) + Repeat(last, n);
    if outcome == Saved && n > 0 {
      var ack := Ack(settled.buffer.pending.Keys);
      AckAll(settled);
      AckFrame(settled, n);
      RunAppend(s, before, [ack] + Repeat(Ack({}), n - 1));
    } else {
      assert FrameEvents(s, points, outcome) == before + [] == before;
    }
  }

  lemma AckFrame(s: System, n: nat)
    requires n > 0 && s.buffer.pending.Keys <= s.delivered
    ensures var events := [Ack(s.buffer.pending.Keys)] + Repeat(Ack({}), n - 1);
            Runnable(s, events) && Run(s, events) == Next(s, Ack(s.buffer.pending.Keys))
  {
    hide Run, Runnable;
    var ack := Ack(s.buffer.pending.Keys);
    AckNothing(Next(s, ack), n - 1);
    RunFirst(s, ack, Repeat(Ack({}), n - 1));
  }

  datatype Frame = Frame(points: seq<Point>, outcome: Outcome)

  /** All events of a run of frames, each handled to its end before the next. */
  function AllEvents(s: System, frames: seq<Frame>): seq<Event>
    decreases |frames|
  {
    if frames == [] then []
    else
      var events := FrameEvents(s, frames[0].points, frames[0].outcome);
      if Runnable(s, events) then events + AllEvents(Run(s, events), frames[1..]) else []
  }

  function Points(frames: seq<Frame>): seq<Point> {
    if frames == [] then [] else frames[0].points + Points(frames[1..])
  }

  lemma UnfoldFrames(s: System, frames: seq<Frame>)
    ensures frames == [] ==> AllEvents(s, frames) == [] && Points(frames) == []
    ensures frames != [] ==> Points(frames) == frames[0].points + Points(frames[1..])
    ensures frames != [] ==>
              var events := FrameEvents(s, frames[0].points, frames[0].outcome);
              Runnable(s, events) ==> AllEvents(s, frames) == events + AllEvents(Run(s, events), frames[1..])
  {
    hide Run, Runnable, FrameEvents;
  }

  /** Whatever saves fail on the way, the agent's frames are a run of the
      protocol, and every save that gets through, however many were lost before
      it, leaves the receiver with exactly the whole history. */
  lemma {:induction false} FramesKeepReceiverCurrent(s: System, frames: seq<Frame>)
    requires Inv(s) && s.wire == []
    ensures Runnable(s, AllEvents(s, frames))
    ensures var t := Run(s, AllEvents(s, frames));
            && Inv(t) && t.wire == [] && t.history == s.history + Points(frames) && t.buffer.limit > 0
            && (frames != [] && frames[|frames| - 1].outcome != Dropped && frames[|frames| - 1].points != [] ==>
                  HoldsExactly(t.buffer, t.receiver, t.history))
    decreases |frames|
  {
    hide Inv, HoldsExactly, Run, Runnable, Next, FrameEvents, Enabled, AllEvents, Points;
    AppliedExactly(s);
    UnfoldFrames(s, frames);
    if frames == [] {
      RunNone(s);
      assert s.history + Points(frames) == s.history;
    } else {
      var points := frames[0].points;
      var events := FrameEvents(s, points, frames[0].outcome);
      FrameIsSafe(s, points, frames[0].outcome);
      var t := Run(s, events);
      FramesKeepReceiverCurrent(t, frames[1..]);
      RunAppend(s, events, AllEvents(t, frames[1..]));
      if |frames| == 1 {
        UnfoldFrames(t, frames[1..]);
        RunNone(t);
      }
      assert s.history + Points(frames) == (s.history + points) + Points(frames[1..]);
    }
  }
}
