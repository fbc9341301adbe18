/** Calls over one shared stream: every caller registers its id in the pending
    map and waits on its own one-slot queue, one reader hands results over. Each
    event below is one step that a lock or a queue makes atomic. */
module CallCorrelation {
  import opened Prelude

  type Id = string

  datatype Reply = Reply(id: Id, payload: int)

  /** A caller: waiting, about to leave with or without a reply, or gone. */
  datatype Phase = Waiting | Leaving | Gone

  /** One call in progress; `slot` is its one-place queue, `got` what it took. */
  datatype Call = Call(id: Id, phase: Phase, slot: Option<Reply>, got: Option<Reply>)

  /** The reader between frames, or holding a reply it looked a call up for. */
  datatype Reader = Idle | Holding(reply: Reply, target: Option<nat>)

  /** `calls` grows by one with every call made; `pending` maps the registered
      ids to calls; `seen` lists the replies that arrived. */
  datatype System = System(calls: seq<Call>, pending: map<Id, nat>, reader: Reader, seen: seq<Reply>)

  datatype Event =
    | Register(id: Id)       // put a fresh queue into the pending map
    | Arrive(reply: Reply)   // the reader gets a result frame and looks its id up
    | HandOver               // the reader puts the reply into the queue it found
    | Take(c: nat)           // a waiting caller gets the reply out of its queue
    | TimeOut(c: nat)        // a waiting caller gives up on an empty queue
    | Leave(c: nat)          // the caller removes its id from the pending map

  const INITIAL := System([], map[], Idle, [])

  /** Fresh ids, and at most one result for each id. */
  predicate Enabled(s: System, e: Event) {
    match e
    case Register(id) => forall i :: 0 <= i < |s.calls| ==> s.calls[i].id != id
    case Arrive(reply) => s.reader == Idle && forall i :: 0 <= i < |s.seen| ==> s.seen[i].id != reply.id
    case HandOver => s.reader.Holding? && !Blocked(s)
    case Take(c) => c < |s.calls| && s.calls[c].phase == Waiting && s.calls[c].slot.Some?
    case TimeOut(c) => c < |s.calls| && s.calls[c].phase == Waiting && s.calls[c].slot.None?
    case Leave(c) => c < |s.calls| && s.calls[c].phase == Leaving
  }

  /** The reader would wait for room in the queue. */
  predicate Blocked(s: System) {
    s.reader.Holding? && s.reader.target.Some? &&
    s.reader.target.value < |s.calls| && s.calls[s.reader.target.value].slot.Some?
  }

  function Next(s: System, e: Event): System
    requires Enabled(s, e)
  {
    match e
    case Register(id) =>
      s.(calls := s.calls + [Call(id, Waiting, None, None)], pending := s.pending[id := |s.calls|])
    case Arrive(reply) =>
      s.(reader := Holding(reply, if reply.id in s.pending then Some(s.pending[reply.id]) else None),
         seen := s.seen + [reply])
    case HandOver =>
      var t := s.reader.target;
      if t.Some? && t.value < |s.calls| then
        s.(calls := s.calls[t.value := s.calls[t.value].(slot := Some(s.reader.reply))], reader := Idle)
      else s.(reader := Idle)
    case Take(c) =>
      s.(calls := s.calls[c := s.calls[c].(phase := Leaving, slot := None, got := s.calls[c].slot)])
    case TimeOut(c) => s.(calls := s.calls[c := s.calls[c].(phase := Leaving)])
    case Leave(c) =>
      s.(calls := s.calls[c := s.calls[c].(phase := Gone)], pending := s.pending - {s.calls[c].id})
  }

  predicate Runnable(s: System, events: seq<Event>)
    decreases |events|
  {
    events == [] || (Enabled(s, events[0]) && Runnable(Next(s, events[0]), events[1..]))
  }

  function Run(s: System, events: seq<Event>): System
    requires Runnable(s, events)
    decreases |events|
  {
    if events == [] then s else Run(Next(s, events[0]), events[1..])
  }

  // ----- the invariant -----

  ghost predicate UniqueIds(calls: seq<Call>) {
    forall i, j :: 0 <= i < j < |calls| ==> calls[i].id != calls[j].id
  }

  /** The pending map holds exactly the calls that have not left. */
  ghost predicate PendingExact(calls: seq<Call>, pending: map<Id, nat>) {
    && (forall id :: id in pending ==> pending[id] < |calls| && calls[pending[id]].id == id)
    && (forall i: nat :: i < |calls| ==>
          (calls[i].phase != Gone <==> calls[i].id in pending && pending[calls[i].id] == i))
  }

  /** A queue or a caller only ever has the reply to its own id, and only one
      that arrived. */
  ghost predicate OwnReplies(calls: seq<Call>, seen: seq<Reply>) {
    forall i :: 0 <= i < |calls| ==>
      && (calls[i].slot.Some? ==> calls[i].slot.value.id == calls[i].id && calls[i].slot.value in seen)
      && (calls[i].got.Some? ==> calls[i].got.value.id == calls[i].id && calls[i].got.value in seen)
      && (calls[i].phase == Waiting ==> calls[i].got == None)
  }

  /** The reader holds the latest reply, for the call of that id if any; that
      call has not been handed anything yet. */
  ghost predicate ReaderOk(s: System) {
    s.reader.Holding? ==>
      && s.reader.reply in s.seen
      && (s.reader.target.Some? ==>
            var t := s.reader.target.value;
            && t < |s.calls| && s.calls[t].id == s.reader.reply.id
            && s.calls[t].slot == None && s.calls[t].got == None)
  }

  ghost predicate Inv(s: System) {
    && UniqueIds(s.calls)
    && PendingExact(s.calls, s.pending)
    && OwnReplies(s.calls, s.seen)
    && ReaderOk(s)
  }

  lemma RegisterInv(s: System, id: Id)
    requires Inv(s) && Enabled(s, Register(id))
    ensures Inv(Next(s, Register(id)))
  {
    var t := Next(s, Register(id));
    forall i: nat | i < |t.calls|
      ensures t.calls[i].phase != Gone <==> t.calls[i].id in t.pending && t.pending[t.calls[i].id] == i
    {
      assert i < |s.calls| ==> t.calls[i] == s.calls[i];
    }
    assert OwnReplies(t.calls, t.seen);
    assert ReaderOk(t);
  }

  lemma ArriveInv(s: System, reply: Reply)
    requires Inv(s) && Enabled(s, Arrive(reply))
    ensures Inv(Next(s, Arrive(reply)))
  {
    var t := Next(s, Arrive(reply));
    assert t.seen[|s.seen|] == reply;
    assert forall r :: r in s.seen ==> r in t.seen;
  }

  /** A step that changes one call but not its id or whether it is gone. */
  lemma OneCallInv(calls: seq<Call>, pending: map<Id, nat>, c: nat, call: Call)
    requires UniqueIds(calls) && PendingExact(calls, pending) && c < |calls|
    requires call.id == calls[c].id && (call.phase == Gone <==> calls[c].phase == Gone)
    ensures UniqueIds(calls[c := call]) && PendingExact(calls[c := call], pending)
  {
  }

  lemma HandOverInv(s: System)
    requires Inv(s) && Enabled(s, HandOver)
    ensures Inv(Next(s, HandOver))
  {
    var target := s.reader.target;
    if target.Some? {
      OneCallInv(s.calls, s.pending, target.value, s.calls[target.value].(slot := Some(s.reader.reply)));
    }
  }

  lemma TakeInv(s: System, c: nat)
    requires Inv(s) && Enabled(s, Take(c))
    ensures Inv(Next(s, Take(c)))
  {
    OneCallInv(s.calls, s.pending, c, s.calls[c].(phase := Leaving, slot := None, got := s.calls[c].slot));
  }

  lemma TimeOutInv(s: System, c: nat)
    requires Inv(s) && Enabled(s, TimeOut(c))
    ensures Inv(Next(s, TimeOut(c)))
  {
    OneCallInv(s.calls, s.pending, c, s.calls[c].(phase := Leaving));
  }

  lemma LeaveInv(s: System, c: nat)
    requires Inv(s) && Enabled(s, Leave(c))
    ensures Inv(Next(s, Leave(c)))
  {
    var t := Next(s, Leave(c));
    assert PendingExact(t.calls, t.pending);
  }

  lemma NextInv(s: System, e: Event)
    requires Inv(s) && Enabled(s, e)
    ensures Inv(Next(s, e))
  {
    hide Inv, Next, Enabled;
    match e
    case Register(id) => RegisterInv(s, id);
    case Arrive(reply) => ArriveInv(s, reply);
    case HandOver => HandOverInv(s);
    case Take(c) => TakeInv(s, c);
    case TimeOut(c) => TimeOutInv(s, c);
    case Leave(c) => LeaveInv(s, c);
  }

  lemma {:induction false} RunInv(s: System, events: seq<Event>)
    requires Inv(s) && Runnable(s, events)
    ensures Inv(Run(s, events))
    decreases |events|
  {
    if events != [] {
      NextInv(s, events[0]);
      RunInv(Next(s, events[0]), events[1..]);
    }
  }

  // ----- what every interleaving guarantees -----

  /** A caller only ever receives a result carrying its own id, one that really
      arrived, and two callers never receive the same result. */
  lemma OnlyOwnResults(events: seq<Event>, i: nat, j: nat)
    requires Runnable(INITIAL, events)
    ensures var s := Run(INITIAL, events);
            && (i < |s.calls| && s.calls[i].got.Some? ==>
                  s.calls[i].got.value.id == s.calls[i].id && s.calls[i].got.value in s.seen)
            && (i < |s.calls| && j < |s.calls| && s.calls[i].got.Some? && s.calls[i].got == s.calls[j].got ==> i == j)
  {
    RunInv(INITIAL, events);
  }

  /** The pending map holds exactly the registered calls that have not returned. */
  lemma PendingIsLiveCalls(events: seq<Event>, id: Id)
    requires Runnable(INITIAL, events)
    ensures var s := Run(INITIAL, events);
            id in s.pending <==> exists i :: 0 <= i < |s.calls| && s.calls[i].id == id && s.calls[i].phase != Gone
  {
    RunInv(INITIAL, events);
    var s := Run(INITIAL, events);
    if id in s.pending {
      assert s.calls[s.pending[id]].id == id;
    }
  }

  /** The reader never waits for room in a queue, so no call can hold it up. */
  lemma ReaderNeverBlocks(events: seq<Event>)
    requires Runnable(INITIAL, events)
    ensures !Blocked(Run(INITIAL, events))
  {
    RunInv(INITIAL, events);
  }

  /** A result that arrives after its caller has left, or for an id nobody
      registered, changes no call at all. */
  lemma LateResultIsDropped(events: seq<Event>, reply: Reply)
    requires Runnable(INITIAL, events) && Enabled(Run(INITIAL, events), Arrive(reply))
    requires forall i :: 0 <= i < |Run(INITIAL, events).calls| ==>
               Run(INITIAL, events).calls[i].id == reply.id ==> Run(INITIAL, events).calls[i].phase == Gone
    ensures var s := Run(INITIAL, events); var t := Next(s, Arrive(reply));
            Enabled(t, HandOver) && Next(t, HandOver).calls == s.calls && Next(t, HandOver).pending == s.pending
  {
    RunInv(INITIAL, events);
    PendingIsLiveCalls(events, reply.id);
  }

  /** A result handed to a caller that gave up in the meantime stays in that
      caller's own queue: no other call changes. */
  lemma HandOverTouchesOnlyItsCall(events: seq<Event>, i: nat)
    requires Runnable(INITIAL, events) && Enabled(Run(INITIAL, events), HandOver)
    requires i < |Run(INITIAL, events).calls|
    requires Run(INITIAL, events).calls[i].id != Run(INITIAL, events).reader.reply.id
    ensures var s := Run(INITIAL, events); Next(s, HandOver).calls[i] == s.calls[i]
  {
    RunInv(INITIAL, events);
  }

  /** A live call whose result arrives first can always be completed: the result
      is handed over and taken, and the caller gets exactly that result. */
  lemma PromptResultIsReceived(events: seq<Event>, c: nat, reply: Reply)
    requires Runnable(INITIAL, events) && Enabled(Run(INITIAL, events), Arrive(reply))
    requires c < |Run(INITIAL, events).calls|
    requires Run(INITIAL, events).calls[c].id == reply.id && Run(INITIAL, events).calls[c].phase == Waiting
    ensures var s := Run(INITIAL, events);
            && Runnable(s, [Arrive(reply), HandOver, Take(c)])
            && var calls := Run(s, [Arrive(reply), HandOver, Take(c)]).calls;
               c < |calls| && calls[c].got == Some(reply)
  {
    RunInv(INITIAL, events);
    var s := Run(INITIAL, events);
    ReceiveSteps(s, c, reply);
    var s1 := Next(s, Arrive(reply));
    var s2 := Next(s1, HandOver);
    hide Next, Enabled;
    RunFirst(s, Arrive(reply), [HandOver, Take(c)]);
    RunFirst(s1, HandOver, [Take(c)]);
    RunFirst(s2, Take(c), []);
    assert [Arrive(reply)] + [HandOver, Take(c)] == [Arrive(reply), HandOver, Take(c)];
    assert [HandOver] + [Take(c)] == [HandOver, Take(c)] && [Take(c)] + [] == [Take(c)];
  }

  lemma ReceiveSteps(s: System, c: nat, reply: Reply)
    requires Inv(s) && Enabled(s, Arrive(reply))
    requires c < |s.calls| && s.calls[c].id == reply.id && s.calls[c].phase == Waiting
    ensures var s1 := Next(s, Arrive(reply));
            && Enabled(s1, HandOver)
            && var s2 := Next(s1, HandOver);
               && Enabled(s2, Take(c))
               && var s3 := Next(s2, Take(c));
                  c < |s3.calls| && s3.calls[c].got == Some(reply)
  {
    ArriveInv(s, reply);
    assert Next(s, Arrive(reply)).reader == Holding(reply, Some(c));
  }

  lemma RunFirst(s: System, e: Event, rest: seq<Event>)
    requires Enabled(s, e)
    ensures Runnable(s, [e] + rest) == Runnable(Next(s, e), rest)
    ensures Runnable(Next(s, e), rest) ==> Run(s, [e] + rest) == Run(Next(s, e), rest)
  {
    assert ([e] + rest)[1..] == rest;
  }

  /** Why results must be unique per id: a second result for a call that has not
      taken the first one finds its queue full, and the reader is stuck. */
  lemma DuplicateBlocksReader(payload: int)
    ensures var r := Reply("a", payload);
            var s := Next(Next(Next(INITIAL, Register("a")), Arrive(r)), HandOver);
            Blocked(s.(reader := Holding(r, if r.id in s.pending then Some(s.pending[r.id]) else None)))
  {
  }

  // ----- the client object -----

  /** The client's pending map, the calls in progress and the reader's place.
      Every method is one atomic piece of the service's code. */
  class WorkerAgentClient {
    var calls: seq<Call>
    var pending: map<Id, nat>
    var reader: Reader
    ghost var seen: seq<Reply>

    ghost function State(): System
      reads this
    {
      System(calls, pending, reader, seen)
    }

    constructor ()
      ensures State() == INITIAL && Inv(State())
    {
      calls, pending, reader, seen := [], map[], Idle, [];
    }

    /** A caller enters: a fresh one-place queue under its id. */
    method Register(id: Id) returns (c: nat)
      requires Inv(State()) && Enabled(State(), Event.Register(id))
      modifies this
      ensures State() == Next(old(State()), Event.Register(id)) && Inv(State())
      ensures c == |old(calls)| && calls == old(calls) + [Call(id, Waiting, None, None)]
      ensures pending == old(pending)[id := c] && reader == old(reader) && seen == old(seen)
    {
      RegisterInv(State(), id);
      c := |calls|;
      calls := calls + [Call(id, Waiting, None, None)];
      pending := pending[id := c];
    }

    /** The reader gets a result frame and looks its queue up under the lock. */
    method HandleFrame(reply: Reply)
      requires Inv(State()) && Enabled(State(), Arrive(reply))
      modifies this
      ensures State() == Next(old(State()), Arrive(reply)) && Inv(State())
      ensures reader == Holding(reply, if reply.id in pending then Some(pending[reply.id]) else None)
      ensures calls == old(calls) && pending == old(pending) && seen == old(seen) + [reply]
    {
      ArriveInv(State(), reply);
      var target := None;
      if reply.id in pending {
        target := Some(pending[reply.id]);
      }
      reader := Holding(reply, target);
      seen := seen + [reply];
    }

    /** The reader puts the result into the queue it found; it never waits. */
    method PutReply()
      requires Inv(State()) && reader.Holding?
      modifies this
      ensures Enabled(old(State()), HandOver)
      ensures State() == Next(old(State()), HandOver) && Inv(State())
      ensures reader == Idle && pending == old(pending) && seen == old(seen) && |calls| == |old(calls)|
      ensures forall i: nat :: i < |calls| ==>
                calls[i] == if old(reader).target == Some(i) then old(calls[i]).(slot := Some(old(reader).reply))
                            else old(calls[i])
    {
      HandOverInv(State());
      if reader.target.Some? {
        var t := reader.target.value;
        calls := calls[t := calls[t].(slot := Some(reader.reply))];
      }
      reader := Idle;
    }

    /** The caller's wait ends, with the reply in its queue or, if the queue is
        still empty when the limit passes, without one. */
    method EndWait(c: nat) returns (result: Option<Reply>)
      requires Inv(State()) && c < |calls| && calls[c].phase == Waiting
      modifies this
      ensures result == old(calls[c].slot)
      ensures State() == Next(old(State()), if result.Some? then Take(c) else TimeOut(c)) && Inv(State())
      ensures result.Some? ==> result.value.id == old(calls[c].id) && result.value in seen
      ensures calls == old(calls)[c := old(calls[c]).(phase := Leaving, slot := None, got := result)]
      ensures pending == old(pending) && reader == old(reader) && seen == old(seen)
    {
      result := calls[c].slot;
      if result.Some? {
        TakeInv(State(), c);
        calls := calls[c := calls[c].(phase := Leaving, slot := None, got := result)];
      } else {
        TimeOutInv(State(), c);
        calls := calls[c := calls[c].(phase := Leaving)];
      }
    }

    /** The caller leaves and takes its own id, and only it, out of the map. */
    method Leave(c: nat)
      requires Inv(State()) && Enabled(State(), Event.Leave(c))
      modifies this
      ensures State() == Next(old(State()), Event.Leave(c)) && Inv(State())
      ensures pending.Keys == old(pending.Keys) - {old(calls[c].id)} && old(calls[c].id) in old(pending)
      ensures calls == old(calls)[c := old(calls[c]).(phase := Gone)] && reader == old(reader) && seen == old(seen)
    {
      LeaveInv(State(), c);
      pending := pending - {calls[c].id};
      calls := calls[c := calls[c].(phase := Gone)];
    }
  }

  // ----- time limits -----

  /** The platform-side limit: 30 seconds when unset, never below 0.1. */
  function PlatformTimeout(seconds: Option<real>): real {
    var t := if seconds.Some? && seconds.value != 0.0 then seconds.value else 30.0;
    if t > 0.1 then t else 0.1
  }

  /** How long the caller waits for the reply. */
  function ReplyWait(seconds: Option<real>): real {
    var t := PlatformTimeout(seconds);
    var extra := if t * 0.1 > 1.0 then t * 0.1 else 1.0;
    t + (if extra < 5.0 then extra else 5.0)
  }

  /** The limit sent along, in whole milliseconds. */
  function TimeoutMs(seconds: Option<real>): int { (PlatformTimeout(seconds) * 1000.0).Floor }

  /** A caller always outwaits the limit it sends, by one to five seconds (and
      less than a millisecond of rounding). */
  lemma CallerOutwaitsAgent(seconds: Option<real>)
    ensures TimeoutMs(seconds) >= 100
    ensures 1000.0 <= ReplyWait(seconds) * 1000.0 - TimeoutMs(seconds) as real < 5001.0
    ensures var given := if seconds.None? || seconds.value == 0.0 then 30.0 else seconds.value;
            var limit := if given > 0.1 then given else 0.1;
            && TimeoutMs(seconds) == (limit * 1000.0).Floor
            && (limit <= 10.0 ==> ReplyWait(seconds) == limit + 1.0)
            && (10.0 <= limit <= 50.0 ==> ReplyWait(seconds) == limit * 1.1)
            && (limit >= 50.0 ==> ReplyWait(seconds) == limit + 5.0)
  {
  }
}
