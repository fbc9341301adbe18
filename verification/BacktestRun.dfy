/** The replay loop with the max-loss guard around every bar, and the stop
    request, each with other threads stepping in between. */
module BacktestRun {
  import opened Prelude
  import opened Session

  /** How closing the positions ends; it may also raise. */
  datatype CloseOutcome = Closed | CloseFailed(reason: string) | CloseRaised

  /** One bar as the guard sees it: the margin balance after the strategy's
      callback, whether that callback raised, and how a close at this bar ends. */
  datatype Bar = Bar(balance: real, raises: bool, close: CloseOutcome)

  datatype Config = Config(initial: real, lossPct: real)

  const DEFAULT_MAX_LOSS_CLOSE_PCT: real := 0.3

  /** A threshold of zero stands for the default. */
  function Threshold(c: Config): real {
    if c.lossPct == 0.0 then DEFAULT_MAX_LOSS_CLOSE_PCT else c.lossPct
  }

  function LossPct(c: Config, current: real): real
    requires c.initial > 0.0
  {
    (if c.initial - current > 0.0 then c.initial - current else 0.0) / c.initial
  }

  /** The guard is installed, and the loss at this balance is too big. */
  predicate Breach(c: Config, current: real) {
    c.initial > 0.0 && Threshold(c) > 0.0 && LossPct(c, current) >= Threshold(c)
  }

  /** A breach is a loss of at least the configured share of a positive initial
      balance, three tenths where none is configured; a negative share never counts. */
  lemma BreachIsLoss(c: Config, current: real)
    ensures Breach(c, current) <==>
              && c.initial > 0.0
              && var share := if c.lossPct == 0.0 then 0.3 else c.lossPct;
                 share > 0.0 && c.initial - current >= share * c.initial
  {
    if c.initial > 0.0 && Threshold(c) > 0.0 {
      LossReaches(c, current);
    }
  }

  lemma LossReaches(c: Config, current: real)
    requires c.initial > 0.0 && Threshold(c) > 0.0
    ensures Breach(c, current) <==> c.initial - current >= Threshold(c) * c.initial
  {
    var lost := if c.initial - current > 0.0 then c.initial - current else 0.0;
    var pct := LossPct(c, current);
    assert pct * c.initial == lost;
    if pct >= Threshold(c) {
      assert pct * c.initial >= Threshold(c) * c.initial;
    } else {
      assert pct * c.initial < Threshold(c) * c.initial;
    }
    assert Threshold(c) * c.initial > 0.0;
  }

  /** What the other threads do at each point of each bar. */
  type Environment = (nat, nat) -> seq<Event>

  ghost predicate Allowed(env: Environment) {
    forall i: nat, p: nat :: AllExternal(env(i, p))
  }

  ghost predicate Quiet(env: Environment) {
    forall i: nat, p: nat :: env(i, p) == []
  }

  method Others(state: SessionState, env: Environment, i: nat, p: nat)
    requires Allowed(env)
    modifies state
    ensures old(state.status) != Running ==> state.status != Running
    ensures Terminal(old(state.status)) ==> Terminal(state.status)
    ensures state.lossTriggered == old(state.lossTriggered) && state.barsProcessed == old(state.barsProcessed)
    ensures Quiet(env) ==> state.Now() == old(state.Now())
  {
    NeverRunsAgain(state.Now(), env(i, p));
    TerminalForever(state.Now(), env(i, p));
    state.Interfere(env(i, p));
  }

  /** The guard after a bar: acts when it wins the latch. Once it acted, the
      session is not running any more, however the close went. */
  method MaxLossGuard(state: SessionState, c: Config, bar: Bar, env: Environment, i: nat) returns (acted: bool)
    requires Allowed(env)
    modifies state
    ensures acted ==> Breach(c, bar.balance) && !old(state.lossTriggered) && state.status != Running
    ensures state.lossTriggered == (old(state.lossTriggered) || acted)
    ensures state.barsProcessed == old(state.barsProcessed)
    ensures old(state.status) != Running ==> !acted && state.status != Running
    ensures old(state.status) == Running && Breach(c, bar.balance) && !old(state.lossTriggered) ==> acted
    ensures Quiet(env) && !acted ==> state.Now() == old(state.Now())
    ensures Quiet(env) && acted ==>
              state.status == match bar.close
                             case Closed => Stopped
                             case CloseFailed(_) => StopFailed
                             case CloseRaised => Stopping
  {
    var closing;
    acted, closing := OpenGuard(state, c, bar.balance, env, i);
    if closing {
      EndGuard(state, bar.close, env, i);
    }
  }

  /** The guard up to its close: on a breach it takes the latch and asks for the
      session to stop. It closes only if that was granted. */
  method OpenGuard(state: SessionState, c: Config, balance: real, env: Environment, i: nat)
    returns (acted: bool, closing: bool)
    requires Allowed(env)
    modifies state
    ensures acted <==> old(state.status) == Running && Breach(c, balance) && !old(state.lossTriggered)
    ensures acted ==> state.status != Running
    ensures closing ==> acted
    ensures state.lossTriggered == (old(state.lossTriggered) || acted)
    ensures state.barsProcessed == old(state.barsProcessed)
    ensures !acted ==> state.Now() == old(state.Now())
    ensures Quiet(env) && acted ==> closing && state.status == Stopping
  {
    acted, closing := false, false;
    if c.initial <= 0.0 || state.status != Running {
      return;
    }
    if Threshold(c) <= 0.0 || LossPct(c, balance) < Threshold(c) {
      return;
    }
    acted := state.MarkMaxLossCloseTriggered();
    if !acted {
      return;
    }
    Others(state, env, i, 2);
    closing := state.Transition(Stopping, None, Some("max_loss_close_triggered"));
  }

  /** The guard after its close. */
  method EndGuard(state: SessionState, close: CloseOutcome, env: Environment, i: nat)
    requires Allowed(env) && state.status != Running
    modifies state
    ensures state.status != Running
    ensures state.lossTriggered == old(state.lossTriggered) && state.barsProcessed == old(state.barsProcessed)
    ensures !close.CloseRaised? ==> Terminal(state.status)
    ensures Quiet(env) && old(state.status) == Stopping ==>
              state.status == match close
                             case Closed => Stopped
                             case CloseFailed(_) => StopFailed
                             case CloseRaised => Stopping
  {
    Others(state, env, i, 3);
    var reason := "max_loss_close_triggered";
    match close
    case Closed =>
      var _ := state.Transition(Stopped, None, Some(reason));
    case CloseFailed(why) =>
      var _ := state.Transition(StopFailed, None, Some(reason + "; " + why));
    case CloseRaised =>
  }

  /** How a run of the loop went: the bars whose callback was entered, the bars
      completed, the bars at which the guard acted, and whether a callback raised. */
  datatype RunLog = RunLog(entered: nat, completed: nat, acted: seq<nat>, raised: bool)

  /** Runs the bars until the session leaves running or a callback raises. The
      guard acts at most once, at the first completed bar whose loss reaches the
      threshold, and no callback is entered after that. Left alone, the loop
      stops exactly at the first breach, the first raising bar or the end. */
  method RunBars(state: SessionState, c: Config, bars: seq<Bar>, env: Environment) returns (log: RunLog)
    requires Allowed(env)
    requires state.status == Running && !state.lossTriggered
    modifies state
    ensures log.completed <= log.entered <= |bars|
    ensures log.entered == log.completed + (if log.raised then 1 else 0)
    ensures log.raised ==> bars[log.completed].raises
    ensures forall j :: 0 <= j < log.completed ==> !bars[j].raises
    ensures |log.acted| <= 1
    ensures log.acted != [] ==>
              && !log.raised && log.acted[0] + 1 == log.entered == log.completed
              && Breach(c, bars[log.acted[0]].balance)
              && state.status != Running
    ensures forall j :: 0 <= j < log.completed - 1 ==> !Breach(c, bars[j].balance)
    ensures log.completed > 0 && Breach(c, bars[log.completed - 1].balance) && log.acted == [] ==>
              state.status != Running
    ensures !log.raised && log.entered < |bars| ==> state.status != Running
    ensures state.barsProcessed == if log.completed > 0 then log.completed else old(state.barsProcessed)
    ensures Quiet(env) ==>
              && (log.acted != [] <==> log.completed > 0 && Breach(c, bars[log.completed - 1].balance))
              && (log.acted == [] && !log.raised ==> log.completed == |bars|)
              && (log.acted == [] <==> state.status == Running)
              && (log.acted != [] ==> state.status == GuardStatus(bars[log.completed - 1]))
  {
    log := RunLog(0, 0, [], false);
    for i := 0 to |bars|
      invariant log == RunLog(i, i, log.acted, false)
      invariant |log.acted| <= 1
      invariant log.acted != [] ==> i > 0 && log.acted[0] == i - 1 && Breach(c, bars[i - 1].balance)
      invariant log.acted != [] ==> state.status != Running
      invariant forall j :: 0 <= j < i ==> !bars[j].raises
      invariant forall j :: 0 <= j < i - 1 ==> !Breach(c, bars[j].balance)
      invariant i > 0 && Breach(c, bars[i - 1].balance) && log.acted == [] ==> state.status != Running
      invariant state.lossTriggered == (log.acted != [])
      invariant state.barsProcessed == if i > 0 then i else old(state.barsProcessed)
      invariant Quiet(env) ==>
                  && (log.acted == [] <==> state.status == Running)
                  && (log.acted != [] ==> state.status == GuardStatus(bars[i - 1]))
    {
      Others(state, env, i, 0);
      if state.status != Running {
        return;
      }
      Others(state, env, i, 1);
      if bars[i].raises {
        return log.(entered := i + 1, raised := true);
      }
      var acted := MaxLossGuard(state, c, bars[i], env, i);
      log := RunLog(i + 1, i + 1, if acted then [i] else [], false);
      state.barsProcessed := i + 1;
    }
  }

  /** Where the guard's close leaves an undisturbed session. */
  function GuardStatus(bar: Bar): Status {
    match bar.close
    case Closed => Stopped
    case CloseFailed(_) => StopFailed
    case CloseRaised => Stopping
  }

  lemma GuardStatusInPlainTerms(bar: Bar)
    ensures bar.close.Closed? ==> GuardStatus(bar) == Stopped
    ensures bar.close.CloseFailed? ==> GuardStatus(bar) == StopFailed
    ensures bar.close.CloseRaised? ==> GuardStatus(bar) == Stopping
  {
  }

  /** The session thread: the loop, its outcome, and the finalizer. Whatever
      other threads do, the session is never left running and the bars counted
      are exactly the bars completed; undisturbed, it ends in the one status its
      bars lead to. A close that raises inside the guard leaves it stopping. */
  method RunSession(state: SessionState, c: Config, bars: seq<Bar>, env: Environment, failures: string)
    returns (log: RunLog)
    requires Allowed(env)
    requires state.status == Running && !state.lossTriggered && state.barsProcessed == 0
    modifies state
    ensures log.completed <= |bars| && |log.acted| <= 1
    ensures state.barsProcessed == log.completed
    ensures state.status != Running
    ensures log.raised ==> Terminal(state.status)
    ensures failures != "" ==> state.status == Failed || state.status == StopFailed || state.status == Recoverable
    ensures Quiet(env) ==>
              && (forall j :: 0 <= j < log.completed ==> !bars[j].raises)
              && (forall j :: 0 <= j < log.completed - 1 ==> !Breach(c, bars[j].balance))
              && (log.raised ==> log.completed < |bars| && bars[log.completed].raises)
              && var loop :=
                   if log.completed > 0 && Breach(c, bars[log.completed - 1].balance)
                   then GuardStatus(bars[log.completed - 1])
                   else if log.raised then Failed else Finished;
                 && (loop == Finished ==> log.completed == |bars|)
                 && state.status == if failures != "" && loop != Failed && loop != StopFailed then Recoverable else loop
  {
    log := RunBars(state, c, bars, env);
    if log.raised {
      var _ := state.Transition(Failed, None, Some("callback raised"));
    } else if state.status == Running {
      Others(state, env, |bars|, 0);
      var _ := state.Transition(Finished, Some(log.completed), None);
    } else {
      state.barsProcessed := log.completed;
    }
    Others(state, env, |bars|, 1);
    if failures != "" {
      state.Finalize(failures);
    }
  }

  // ----- the stop request -----

  datatype StopAction = Cancel | Finish | StopOnly | StopAndClose | Unknown

  /** The reply, or the exception of a close that raised. */
  datatype StopReply = Replied(stopped: bool) | ReplyRaised

  /** The stop request, with other threads stepping between its transitions.
      It reports success only for a session that has ended for good; a failed or
      confirmed close always ends the session; a cancelled or unknown action on
      a live session changes nothing by itself. */
  method StopStrategy(state: SessionState, action: StopAction, close: CloseOutcome, env: Environment)
    returns (r: StopReply)
    requires Allowed(env)
    modifies state
    ensures r == Replied(true) ==> Terminal(state.status)
    ensures r.Replied? && (action == StopAndClose || action == Finish || action == StopOnly) ==> Terminal(state.status)
    ensures Terminal(old(state.status)) ==> Terminal(state.status) && r == Replied(action != Cancel)
    ensures r == ReplyRaised ==> action == StopAndClose && close == CloseRaised && state.status != Running
    ensures Quiet(env) && !Terminal(old(state.status)) ==>
              match action
              case Cancel => state.Now() == old(state.Now()) && r == Replied(false)
              case Unknown => state.Now() == old(state.Now()) && r == Replied(false)
              case Finish => state.status == Finished && r == Replied(true)
              case StopOnly => state.status == Stopped && r == Replied(true)
              case StopAndClose =>
                (match close
                 case Closed => state.status == Stopped && r == Replied(true)
                 case CloseFailed(why) => state.status == StopFailed && state.error == why && r == Replied(false)
                 case CloseRaised => state.status == Stopping && r == ReplyRaised)
  {
    if action == Cancel {
      return Replied(false);
    }
    if Terminal(state.status) {
      return Replied(true);
    }
    Others(state, env, 0, 0);
    var ok;
    if action == Finish {
      ok := state.Transition(Stopping, None, None);
      if !ok {
        return Replied(false);
      }
      Others(state, env, 0, 1);
      ok := state.Transition(Finished, None, None);
      return Replied(true);
    }
    if action == StopOnly {
      ok := state.Transition(Stopped, None, None);
      return Replied(ok);
    }
    if action == Unknown {
      return Replied(false);
    }
    ok := state.Transition(Stopping, None, None);
    if !ok {
      return Replied(false);
    }
    Others(state, env, 0, 2);
    match close
    case Closed =>
      ok := state.Transition(Stopped, None, None);
      r := Replied(true);
    case CloseFailed(why) =>
      ok := state.Transition(StopFailed, None, Some(why));
      r := Replied(false);
    case CloseRaised =>
      r := ReplyRaised;
  }
}
