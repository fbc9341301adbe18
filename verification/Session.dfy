/** The session's status machine, driven by several threads under one lock:
    every locked body is one atomic step. */
module Session {
  import opened Prelude
  import Text

  datatype Status = Running | Stopping | Completed | Finished | Stopped | Failed | StopFailed | Recoverable

  predicate Terminal(s: Status) { s != Running && s != Stopping }

  /** Statuses that no step ever leaves. */
  predicate Absorbing(s: Status) { s == Failed || s == StopFailed || s == Recoverable }

  datatype View = View(status: Status, bars: nat, error: string, lossTriggered: bool)

  /** The locked bodies: a transition, the forced failure, the finalizer's write
      when some final write failed, error bookkeeping and the loss latch. */
  datatype Event =
    | Transition(to: Status, bars: Option<nat>, reason: Option<string>)
    | ForceFailed(message: string)
    | Finalize(failures: string)
    | RecordError(text: string)
    | ClearError(prefix: string)
    | MarkLoss

  /** One step: the new state and what the call returns (true where it returns
      nothing). */
  function Step(v: View, e: Event): (View, bool) {
    match e
    case Transition(to, bars, reason) =>
      if Terminal(v.status) then (v, false)
      else (View(to, if bars.Some? then bars.value else v.bars,
                 if reason.Some? then reason.value else v.error, v.lossTriggered), true)
    case ForceFailed(message) =>
      if !Absorbing(v.status) then (v.(status := Failed, error := message), true)
      else if v.error == "" then (v.(error := message), true)
      else (v, true)
    case Finalize(failures) =>
      if v.status != Failed && v.status != StopFailed then (v.(status := Recoverable, error := failures), true)
      else if v.error == "" then (v.(error := failures), true)
      else (v, true)
    case RecordError(text) =>
      var message := Text.Strip(text);
      if message == "" || v.error == message then (v, false) else (v.(error := message), true)
    case ClearError(prefix) =>
      if v.error == "" || (prefix != "" && !(prefix <= v.error)) then (v, false) else (v.(error := ""), true)
    case MarkLoss =>
      if v.lossTriggered then (v, false) else (v.(lossTriggered := true), true)
  }

  function After(v: View, events: seq<Event>): View
    decreases |events|
  {
    if events == [] then v else After(Step(v, events[0]).0, events[1..])
  }

  lemma {:induction false} AfterAppend(v: View, a: seq<Event>, b: seq<Event>)
    ensures After(v, a + b) == After(After(v, a), b)
    ensures After(v, []) == v && forall e :: After(v, [e]) == Step(v, e).0
    decreases |a|
  {
    if a == [] {
      assert a + b == b;
    } else {
      AfterAppend(Step(v, a[0]).0, a[1..], b);
      assert (a + b)[1..] == a[1..] + b;
    }
  }

  // ----- what holds over every interleaving -----

  /** A transition to a terminal status that reported success. */
  predicate Wins(v: View, e: Event) {
    e.Transition? && Terminal(e.to) && Step(v, e).1
  }

  predicate ChangesStatus(v: View, e: Event) { Step(v, e).0.status != v.status }

  function CountWins(v: View, events: seq<Event>): nat
    decreases |events|
  {
    if events == [] then 0
    else (if Wins(v, events[0]) then 1 else 0) + CountWins(Step(v, events[0]).0, events[1..])
  }

  /** How often the status changes although it is terminal already. */
  function CountLateChanges(v: View, events: seq<Event>): nat
    decreases |events|
  {
    if events == [] then 0
    else (if Terminal(v.status) && ChangesStatus(v, events[0]) then 1 else 0)
         + CountLateChanges(Step(v, events[0]).0, events[1..])
  }

  function CountMarks(v: View, events: seq<Event>): nat
    decreases |events|
  {
    if events == [] then 0
    else (if events[0] == MarkLoss && Step(v, events[0]).1 then 1 else 0)
         + CountMarks(Step(v, events[0]).0, events[1..])
  }

  /** A terminal status stays terminal, and a failed, stop_failed or recoverable
      session keeps exactly that status. */
  lemma {:induction false} TerminalForever(v: View, events: seq<Event>)
    ensures Terminal(v.status) ==> Terminal(After(v, events).status)
    ensures Absorbing(v.status) ==> After(v, events).status == v.status
    decreases |events|
  {
    if events != [] {
      TerminalForever(Step(v, events[0]).0, events[1..]);
    }
  }

  /** At most one terminal transition ever succeeds, and none once the session
      is terminal, whoever made it so. */
  lemma {:induction false} OneWinner(v: View, events: seq<Event>)
    ensures CountWins(v, events) <= (if Terminal(v.status) then 0 else 1)
    decreases |events|
  {
    if events != [] {
      OneWinner(Step(v, events[0]).0, events[1..]);
    }
  }

  /** After first becoming terminal the status changes at most once: a clean end
      may still become failed or recoverable, nothing else happens. */
  lemma {:induction false} OneLateChange(v: View, events: seq<Event>)
    ensures CountLateChanges(v, events) <= (if Absorbing(v.status) then 0 else 1)
    ensures Terminal(v.status) && CountLateChanges(v, events) == 0 ==> After(v, events).status == v.status
    ensures Terminal(v.status) && CountLateChanges(v, events) == 1 ==>
              After(v, events).status == Failed || After(v, events).status == Recoverable
    decreases |events|
  {
    if events != [] {
      OneLateChange(Step(v, events[0]).0, events[1..]);
      TerminalForever(Step(v, events[0]).0, events[1..]);
    }
  }

  /** The loss latch is won at most once, and never twice by two bars. */
  lemma {:induction false} LatchOnce(v: View, events: seq<Event>)
    ensures CountMarks(v, events) <= (if v.lossTriggered then 0 else 1)
    ensures v.lossTriggered ==> After(v, events).lossTriggered
    decreases |events|
  {
    if events != [] {
      LatchOnce(Step(v, events[0]).0, events[1..]);
    }
  }

  /** The same at two moments of a run: of two steps, only the earlier one can be a
      transition to a terminal status that succeeds, and only the earlier one can win
      the latch; and of three, only two can find or make the status terminal and
      change it. */
  lemma TwoMoments(v: View, events: seq<Event>, i: nat, j: nat)
    requires i < j < |events|
    ensures var x, y := After(v, events[..i]), After(v, events[..j]);
            && !(events[i].Transition? && events[i].to !in {Running, Stopping} && Step(x, events[i]).1
                 && events[j].Transition? && Step(y, events[j]).1)
            && !(events[i] == MarkLoss && Step(x, events[i]).1 && events[j] == MarkLoss && Step(y, events[j]).1)
            && (x.status !in {Running, Stopping} ==> y.status !in {Running, Stopping})
            && (x.status in {Failed, StopFailed, Recoverable} ==> y.status == x.status)
            && (x.status !in {Running, Stopping} && Step(x, events[i]).0.status != x.status ==>
                  y.status in {Failed, Recoverable} && Step(y, events[j]).0.status == y.status)
  {
    hide After, CountMarks;
    var x, between := After(v, events[..i]), events[i + 1..j];
    var next := Step(x, events[i]).0;
    LaterMoment(v, events, i, j);
    TerminalForever(next, between);
    LatchOnce(next, between);
    assert x.status !in {Running, Stopping} ==> next.status !in {Running, Stopping};
    assert x.status in {Failed, StopFailed, Recoverable} ==> next.status == x.status;
  }

  lemma LaterMoment(v: View, events: seq<Event>, i: nat, j: nat)
    requires i < j <= |events|
    ensures After(v, events[..j]) == After(Step(After(v, events[..i]), events[i]).0, events[i + 1..j])
  {
    hide *;
    var between := events[i + 1..j];
    assert events[..j] == events[..i] + ([events[i]] + between);
    AfterAppend(v, events[..i], [events[i]] + between);
    AfterAppend(After(v, events[..i]), [events[i]], between);
  }

  /** Steps that other threads may take while a session thread runs: none of
      them starts the session again, counts bars or touches the loss latch. */
  predicate External(e: Event) {
    e != MarkLoss && (e.Transition? ==> e.to != Running && e.bars == None)
  }

  predicate AllExternal(events: seq<Event>) { forall i :: 0 <= i < |events| ==> External(events[i]) }

  lemma ExternalInPlainTerms(e: Event)
    ensures External(e) <==>
              match e
              case Transition(to, bars, _) =>
                to in {Stopping, Completed, Finished, Stopped, Failed, StopFailed, Recoverable} && bars.None?
              case MarkLoss => false
              case _ => true
  {
  }

  /** A session that left running never runs again. */
  lemma {:induction false} NeverRunsAgain(v: View, events: seq<Event>)
    requires AllExternal(events)
    ensures v.status != Running ==> After(v, events).status != Running
    ensures After(v, events).lossTriggered == v.lossTriggered
    ensures After(v, events).bars == v.bars
    decreases |events|
  {
    if events != [] {
      NeverRunsAgain(Step(v, events[0]).0, events[1..]);
    }
  }

  class SessionState {
    var status: Status
    var barsProcessed: nat
    var error: string
    var lossTriggered: bool

    ghost function Now(): View
      reads this
    {
      View(status, barsProcessed, error, lossTriggered)
    }

    constructor ()
      ensures Now() == View(Running, 0, "", false)
    {
      status, barsProcessed, error, lossTriggered := Running, 0, "", false;
    }

    /** Refused once the status is terminal. */
    method Transition(to: Status, bars: Option<nat>, reason: Option<string>) returns (ok: bool)
      modifies this
      ensures (Now(), ok) == Step(old(Now()), Event.Transition(to, bars, reason))
      ensures ok <==> old(status) == Running || old(status) == Stopping
      ensures status == (if ok then to else old(status)) && lossTriggered == old(lossTriggered)
      ensures barsProcessed == if ok && bars.Some? then bars.value else old(barsProcessed)
      ensures error == if ok && reason.Some? then reason.value else old(error)
    {
      if Terminal(status) {
        return false;
      }
      status := to;
      if bars.Some? {
        barsProcessed := bars.value;
      }
      if reason.Some? {
        error := reason.value;
      }
      ok := true;
    }

    /** Marks the session failed even after a clean end. */
    method ForceFailed(message: string)
      modifies this
      ensures Now() == Step(old(Now()), Event.ForceFailed(message)).0
      ensures barsProcessed == old(barsProcessed) && lossTriggered == old(lossTriggered)
      ensures if old(status) in {Failed, StopFailed, Recoverable}
              then status == old(status) && error == (if old(error) == "" then message else old(error))
              else status == Failed && error == message
    {
      if status != Failed && status != StopFailed && status != Recoverable {
        status := Failed;
        error := message;
      } else if error == "" {
        error := message;
      }
    }

    /** The finalizer's write when the end snapshot or the wallet restore failed. */
    method Finalize(failures: string)
      modifies this
      ensures Now() == Step(old(Now()), Event.Finalize(failures)).0
      ensures barsProcessed == old(barsProcessed) && lossTriggered == old(lossTriggered)
      ensures if old(status) in {Failed, StopFailed}
              then status == old(status) && error == (if old(error) == "" then failures else old(error))
              else status == Recoverable && error == failures
    {
      if status != Failed && status != StopFailed {
        status := Recoverable;
        error := failures;
      } else if error == "" {
        error := failures;
      }
    }

    /** Records an error, trimmed, unless it is blank or already there. */
    method RecordRuntimeError(text: string) returns (changed: bool)
      modifies this
      ensures (Now(), changed) == Step(old(Now()), RecordError(text))
      ensures changed <==> Text.Strip(text) != "" && Text.Strip(text) != old(error)
      ensures error == if changed then Text.Strip(text) else old(error)
      ensures status == old(status) && barsProcessed == old(barsProcessed) && lossTriggered == old(lossTriggered)
    {
      var message := Text.Strip(text);
      if message == "" || error == message {
        return false;
      }
      error := message;
      changed := true;
    }

    method ClearRuntimeError(prefix: string) returns (changed: bool)
      modifies this
      ensures (Now(), changed) == Step(old(Now()), ClearError(prefix))
      ensures changed <==> old(error) != "" && (prefix == "" || prefix <= old(error))
      ensures error == if changed then "" else old(error)
      ensures status == old(status) && barsProcessed == old(barsProcessed) && lossTriggered == old(lossTriggered)
    {
      if error == "" {
        return false;
      }
      if prefix != "" && !(prefix <= error) {
        return false;
      }
      error := "";
      changed := true;
    }

    /** The first caller wins the latch. */
    method MarkMaxLossCloseTriggered() returns (first: bool)
      modifies this
      ensures (Now(), first) == Step(old(Now()), MarkLoss)
      ensures first == !old(lossTriggered) && lossTriggered
      ensures status == old(status) && barsProcessed == old(barsProcessed) && error == old(error)
    {
      if lossTriggered {
        return false;
      }
      lossTriggered := true;
      first := true;
    }

    /** Lets the other threads take some steps. */
    method Interfere(events: seq<Event>)
      modifies this
      ensures Now() == After(old(Now()), events)
    {
      for i := 0 to |events|
        invariant Now() == After(old(Now()), events[..i])
      {
        AfterAppend(old(Now()), events[..i], [events[i]]);
        assert events[..i + 1] == events[..i] + [events[i]];
        match events[i]
        case Transition(to, bars, reason) =>
          var _ := Transition(to, bars, reason);
        case ForceFailed(message) =>
          ForceFailed(message);
        case Finalize(failures) =>
          Finalize(failures);
        case RecordError(text) =>
          var _ := RecordRuntimeError(text);
        case ClearError(prefix) =>
          var _ := ClearRuntimeError(prefix);
        case MarkLoss =>
          var _ := MarkMaxLossCloseTriggered();
      }
      assert events[..|events|] == events;
    }
  }
}
