/**
 * CronSchedulerHandler of the core module: `start`'s environment gate, the one immediate
 * run when initStart is set, and the timer path that runs the scheduled job and calls start again.
 * Each call of start is one round: the global `active` at that moment, the scheduler's
 * time until the next execution, and what the scheduled job returns or throws if it runs. The
 * coroutine dispatcher, the timer and the clock are not modelled; the trace records what
 * start does, in order.
 */
module CronSchedulerHandler {
  import opened Wrappers

  /** What task() does when it runs: its returned string (null is success) or the throwable's stack trace. */
  datatype TaskResult = Returned(message: Option<string>) | Threw(stackTrace: string)

  /** What one call of the callback does: return, or throw with the given stack trace. */
  datatype CallResult = Completed | Raised(stackTrace: string)

  /**
   * One call of start: the global active, getTimeUntilNextExecution(), the scheduled job's
   * result, and what the callback does when the try block calls it (`callback`) and when
   * the catch block calls it (`recovery`).
   */
  datatype Round = Round(active: string, delay: int, result: TaskResult, callback: CallResult, recovery: CallResult)

  /**
   * What start does: return at the gate, run at once, set a timer, call the callback,
   * or let an exception leave the coroutine.
   */
  datatype Event =
    | Skipped
    | RunNow
    | TimerSet(delay: int)
    | Callback(message: Option<string>, description: string)
    | Escaped(stackTrace: string)

  /** The string the callback receives for a run. */
  function Report(result: TaskResult): (r: Option<string>)
    ensures result.Returned? ==> r == result.message
    ensures result.Threw? ==> r == Some(result.stackTrace)
  {
    match result
    case Returned(message) => message
    case Threw(trace) => Some(trace)
  }

  /** A task with startEnv set runs only while the global active equals it. */
  predicate Gate(startEnv: Option<string>, active: string) {
    startEnv.None? || active == startEnv.value
  }

  /** The catch block is entered: the job threw, or the callback threw on its result. */
  predicate Recovers(rd: Round) {
    rd.result.Threw? || rd.callback.Raised?
  }

  /**
   * The coroutine reaches the lines after its try/catch, and so calls start again:
   * always without a callback, else unless the catch block's callback call throws.
   */
  predicate Survives(callback: bool, rd: Round) {
    !callback || !Recovers(rd) || rd.recovery.Completed?
  }

  /** The callback calls of one run: the job's report, then the stack trace of a callback that threw on it. */
  function CallbackEvents(description: string, rd: Round): seq<Event> {
    [Callback(Report(rd.result), description)]
    + (if rd.result.Returned? && rd.callback.Raised? then [Callback(Some(rd.callback.stackTrace), description)] else [])
  }

  /** The events of one run of the scheduled job: how it was started, the callback calls, an escaping exception. */
  function RunEvents(immediate: bool, callback: bool, description: string, rd: Round): seq<Event> {
    (if immediate then [RunNow] else [TimerSet(rd.delay)])
    + (if callback then CallbackEvents(description, rd) else [])
    + (if Survives(callback, rd) then [] else [Escaped(rd.recovery.stackTrace)])
  }

  /**
   * The trace of start over the rounds, and the final initStart: a closed gate ends it;
   * otherwise the scheduled job runs (at once while initStart holds, else after the
   * timer) and, unless an exception left the coroutine, initStart is cleared and start
   * is called again for the next round.
   */
  function Trace(initStart: bool, startEnv: Option<string>, callback: bool, description: string, rounds: seq<Round>)
    : (r: (seq<Event>, bool))
    ensures r.1 ==> initStart
    decreases |rounds|
  {
    if |rounds| == 0 then ([], initStart)
    else if !Gate(startEnv, rounds[0].active) then ([Skipped], initStart)
    else
      var run := RunEvents(initStart, callback, description, rounds[0]);
      if !Survives(callback, rounds[0]) then (run, initStart)
      else
        var rest := Trace(false, startEnv, callback, description, rounds[1..]);
        (run + rest.0, rest.1)
  }

  /** How many leading rounds pass the gate. */
  function Passed(startEnv: Option<string>, rounds: seq<Round>): (n: nat)
    ensures n <= |rounds|
    ensures forall i :: 0 <= i < n ==> Gate(startEnv, rounds[i].active)
    ensures n < |rounds| ==> !Gate(startEnv, rounds[n].active)
    decreases |rounds|
  {
    if |rounds| == 0 || !Gate(startEnv, rounds[0].active) then 0
    else 1 + Passed(startEnv, rounds[1..])
  }

  /** How many rounds run before start stops: at a closed gate, or after a run the coroutine does not survive. */
  function Ran(startEnv: Option<string>, callback: bool, rounds: seq<Round>): (n: nat)
    ensures n <= Passed(startEnv, rounds)
    decreases |rounds|
  {
    if |rounds| == 0 || !Gate(startEnv, rounds[0].active) then 0
    else if !Survives(callback, rounds[0]) then 1
    else 1 + Ran(startEnv, callback, rounds[1..])
  }

  /** The number of runs in a trace. */
  function Runs(t: seq<Event>): nat
    decreases |t|
  {
    if |t| == 0 then 0 else (if t[0].RunNow? || t[0].TimerSet? then 1 else 0) + Runs(t[1..])
  }

  /** The strings the callback receives, in order. */
  function Messages(t: seq<Event>): seq<Option<string>>
    decreases |t|
  {
    if |t| == 0 then [] else (if t[0].Callback? then [t[0].message] else []) + Messages(t[1..])
  }

  lemma {:induction false} RunsAppend(a: seq<Event>, b: seq<Event>)
    ensures Runs(a + b) == Runs(a) + Runs(b)
    ensures Messages(a + b) == Messages(a) + Messages(b)
    decreases |a|
  {
    if |a| > 0 {
      RunsAppend(a[1..], b);
      assert (a + b)[0] == a[0] && (a + b)[1..] == a[1..] + b;
    } else {
      assert a + b == b;
    }
  }

  /** The strings the callback receives in one run: the job's report, then the stack trace of a callback that threw on it. */
  function RoundReports(rd: Round): seq<Option<string>> {
    [Report(rd.result)] + (if rd.result.Returned? && rd.callback.Raised? then [Some(rd.callback.stackTrace)] else [])
  }

  /** The callback strings of the first n rounds. */
  function Reports(rounds: seq<Round>, n: nat): seq<Option<string>>
    requires n <= |rounds|
    decreases n
  {
    if n == 0 then [] else RoundReports(rounds[0]) + Reports(rounds[1..], n - 1)
  }

  /** While no callback call throws on the job's result, the callback receives exactly one report per run. */
  lemma {:induction false} ReportsOnePerRun(rounds: seq<Round>, n: nat)
    requires n <= |rounds|
    requires forall i :: 0 <= i < n ==> rounds[i].result.Threw? || rounds[i].callback.Completed?
    ensures var ms := Reports(rounds, n);
      |ms| == n && forall i :: 0 <= i < n ==> ms[i] == Report(rounds[i].result)
    decreases n
  {
    if n > 0 {
      ReportsOnePerRun(rounds[1..], n - 1);
      var rest := Reports(rounds[1..], n - 1);
      assert RoundReports(rounds[0]) == [Report(rounds[0].result)];
      assert Reports(rounds, n) == [Report(rounds[0].result)] + rest;
      forall i | 1 <= i < n
        ensures Reports(rounds, n)[i] == Report(rounds[i].result)
      {
        assert rounds[1..][i - 1] == rounds[i];
      }
    }
  }

  lemma Singletons(description: string, rd: Round, trace: string)
    ensures Runs([Skipped]) == 0 && Messages([Skipped]) == []
    ensures Runs([Escaped(trace)]) == 0 && Messages([Escaped(trace)]) == []
    ensures Runs([RunNow]) == 1 && Messages([RunNow]) == []
    ensures Runs([TimerSet(rd.delay)]) == 1 && Messages([TimerSet(rd.delay)]) == []
    ensures Runs(CallbackEvents(description, rd)) == 0 && Messages(CallbackEvents(description, rd)) == RoundReports(rd)
  {
    assert [Skipped][1..] == [] && [Escaped(trace)][1..] == [];
    assert [RunNow][1..] == [] && [TimerSet(rd.delay)][1..] == [];
    var first := Callback(Report(rd.result), description);
    if rd.result.Returned? && rd.callback.Raised? {
      var second := Callback(Some(rd.callback.stackTrace), description);
      assert CallbackEvents(description, rd) == [first, second];
      assert [first, second][1..] == [second] && [second][1..] == [];
    } else {
      assert CallbackEvents(description, rd) == [first] && [first][1..] == [];
    }
  }

  /** One run: one start of the scheduled job and, when a callback is set, the strings it receives. */
  lemma RunEventsCounts(immediate: bool, callback: bool, description: string, rd: Round)
    ensures Runs(RunEvents(immediate, callback, description, rd)) == 1
    ensures Messages(RunEvents(immediate, callback, description, rd)) == (if callback then RoundReports(rd) else [])
  {
    var started: seq<Event> := if immediate then [RunNow] else [TimerSet(rd.delay)];
    var called := if callback then CallbackEvents(description, rd) else [];
    var escaped := if Survives(callback, rd) then [] else [Escaped(rd.recovery.stackTrace)];
    Singletons(description, rd, if rd.recovery.Raised? then rd.recovery.stackTrace else "");
    RunsAppend(started, called);
    RunsAppend(started + called, escaped);
    assert Runs([]) == 0 && Messages([]) == [];
    assert Messages(started + called) + [] == Messages(started + called);
  }

  /**
   * The rounds that pass the gate run the scheduled job once each, in order, and the
   * callback, when set, receives each run's report (and the stack trace of a callback
   * call that threw on it); start stops at the first closed gate, and after the first
   * run whose catch block's callback call throws.
   */
  lemma TraceRuns(initStart: bool, startEnv: Option<string>, callback: bool, description: string,
                  rounds: seq<Round>)
    ensures var t := Trace(initStart, startEnv, callback, description, rounds).0;
      && Runs(t) == Ran(startEnv, callback, rounds)
      && Messages(t) == (if callback then Reports(rounds, Ran(startEnv, callback, rounds)) else [])
  {
    TraceRunCount(initStart, startEnv, callback, description, rounds);
    TraceReports(initStart, startEnv, callback, description, rounds);
  }

  lemma {:induction false} TraceRunCount(initStart: bool, startEnv: Option<string>, callback: bool, description: string,
                                         rounds: seq<Round>)
    ensures Runs(Trace(initStart, startEnv, callback, description, rounds).0) == Ran(startEnv, callback, rounds)
    decreases |rounds|
  {
    if |rounds| > 0 && Gate(startEnv, rounds[0].active) {
      RunEventsCounts(initStart, callback, description, rounds[0]);
      if Survives(callback, rounds[0]) {
        TraceRunCount(false, startEnv, callback, description, rounds[1..]);
        TraceStep(initStart, startEnv, callback, description, rounds);
      }
    } else if |rounds| > 0 {
      GateClosedRunsNothing(initStart, startEnv, callback, description, rounds);
      Singletons(description, rounds[0], "");
    }
  }

  lemma {:induction false} TraceReports(initStart: bool, startEnv: Option<string>, callback: bool, description: string,
                                        rounds: seq<Round>)
    ensures Messages(Trace(initStart, startEnv, callback, description, rounds).0)
      == (if callback then Reports(rounds, Ran(startEnv, callback, rounds)) else [])
    decreases |rounds|
  {
    if |rounds| > 0 && Gate(startEnv, rounds[0].active) {
      RunEventsCounts(initStart, callback, description, rounds[0]);
      var t := Trace(initStart, startEnv, callback, description, rounds).0;
      if !Survives(callback, rounds[0]) {
        assert callback;
        assert Ran(startEnv, callback, rounds) == 1;
        calc {
          Reports(rounds, 1);
          RoundReports(rounds[0]) + Reports(rounds[1..], 0);
          RoundReports(rounds[0]) + [];
          RoundReports(rounds[0]);
        }
      } else {
        var n := Ran(startEnv, callback, rounds[1..]);
        TraceReports(false, startEnv, callback, description, rounds[1..]);
        TraceStep(initStart, startEnv, callback, description, rounds);
        var rest := Trace(false, startEnv, callback, description, rounds[1..]).0;
        if callback {
          assert Ran(startEnv, callback, rounds) == 1 + n;
          calc {
            Messages(t);
            RoundReports(rounds[0]) + Messages(rest);
            RoundReports(rounds[0]) + Reports(rounds[1..], n);
            Reports(rounds, 1 + n);
          }
        } else {
          assert Messages(t) == [] + Messages(rest);
        }
      }
    } else if |rounds| > 0 {
      GateClosedRunsNothing(initStart, startEnv, callback, description, rounds);
      Singletons(description, rounds[0], "");
    }
  }

  /** A round that passes the gate and survives adds one run and, with a callback, its reports in front of the rest. */
  lemma TraceStep(initStart: bool, startEnv: Option<string>, callback: bool, description: string, rounds: seq<Round>)
    requires |rounds| > 0 && Gate(startEnv, rounds[0].active) && Survives(callback, rounds[0])
    ensures var t, rest := Trace(initStart, startEnv, callback, description, rounds).0,
                           Trace(false, startEnv, callback, description, rounds[1..]).0;
      && Runs(t) == 1 + Runs(rest)
      && Messages(t) == (if callback then RoundReports(rounds[0]) else []) + Messages(rest)
  {
    var run := RunEvents(initStart, callback, description, rounds[0]);
    var rest := Trace(false, startEnv, callback, description, rounds[1..]).0;
    assert Trace(initStart, startEnv, callback, description, rounds).0 == run + rest;
    RunsAppend(run, rest);
    RunEventsCounts(initStart, callback, description, rounds[0]);
  }

  /** A closed gate at the first call: start returns having run and scheduled nothing. */
  lemma GateClosedRunsNothing(initStart: bool, startEnv: Option<string>, callback: bool, description: string,
                              rounds: seq<Round>)
    requires |rounds| > 0 && startEnv.Some? && rounds[0].active != startEnv.value
    ensures Trace(initStart, startEnv, callback, description, rounds) == ([Skipped], initStart)
  {
  }

  /** While every run survives (always, without a callback), every round that passes the gate runs. */
  lemma {:induction false} EveryOpenRoundRuns(startEnv: Option<string>, callback: bool, rounds: seq<Round>)
    requires forall i :: 0 <= i < Passed(startEnv, rounds) ==> Survives(callback, rounds[i])
    ensures Ran(startEnv, callback, rounds) == Passed(startEnv, rounds)
    decreases |rounds|
  {
    if |rounds| > 0 && Gate(startEnv, rounds[0].active) {
      assert Survives(callback, rounds[0]);
      forall i | 0 <= i < Passed(startEnv, rounds[1..])
        ensures Survives(callback, rounds[1..][i])
      {
        assert rounds[1..][i] == rounds[i + 1];
      }
      EveryOpenRoundRuns(startEnv, callback, rounds[1..]);
    }
  }

  /** The first run whose catch-block callback call throws is the last: no later round runs. */
  lemma {:induction false} FailedRecoveryStops(startEnv: Option<string>, callback: bool, rounds: seq<Round>, k: nat)
    requires k < Passed(startEnv, rounds)
    requires forall i :: 0 <= i < k ==> Survives(callback, rounds[i])
    requires !Survives(callback, rounds[k])
    ensures Ran(startEnv, callback, rounds) == k + 1
    decreases k
  {
    if k > 0 {
      assert Survives(callback, rounds[0]);
      forall i | 0 <= i < k - 1
        ensures Survives(callback, rounds[1..][i])
      {
        assert rounds[1..][i] == rounds[i + 1];
      }
      assert rounds[1..][k - 1] == rounds[k];
      FailedRecoveryStops(startEnv, callback, rounds[1..], k - 1);
    }
  }

  /**
   * A callback that throws on the job's result and again on the stack trace ends the
   * schedule: after the two calls the exception leaves the coroutine, initStart is not
   * cleared and start is never called again, whatever later rounds would bring.
   */
  lemma CallbackThrowingTwiceEndsSchedule(initStart: bool, startEnv: Option<string>, description: string,
                                          rounds: seq<Round>)
    requires |rounds| > 0 && Gate(startEnv, rounds[0].active)
    requires rounds[0].result.Returned? && rounds[0].callback.Raised? && rounds[0].recovery.Raised?
    ensures var rd := rounds[0];
      Trace(initStart, startEnv, true, description, rounds)
        == ([if initStart then RunNow else TimerSet(rd.delay),
             Callback(rd.result.message, description),
             Callback(Some(rd.callback.stackTrace), description),
             Escaped(rd.recovery.stackTrace)],
            initStart)
  {
    var rd := rounds[0];
    var started := if initStart then RunNow else TimerSet(rd.delay);
    var first, second := Callback(rd.result.message, description), Callback(Some(rd.callback.stackTrace), description);
    assert CallbackEvents(description, rd) == [first, second];
    assert RunEvents(initStart, true, description, rd) == [started] + [first, second] + [Escaped(rd.recovery.stackTrace)];
    assert [started] + [first, second] + [Escaped(rd.recovery.stackTrace)]
      == [started, first, second, Escaped(rd.recovery.stackTrace)];
    assert !Survives(true, rd);
    assert Trace(initStart, startEnv, true, description, rounds) == (RunEvents(initStart, true, description, rd), initStart);
  }

  /** A run starts with how it was started; nothing after that is an immediate start. */
  lemma RunEventsStart(immediate: bool, callback: bool, description: string, rd: Round)
    ensures var run := RunEvents(immediate, callback, description, rd);
      && |run| > 0 && run[0] == (if immediate then RunNow else TimerSet(rd.delay))
      && forall i :: 0 < i < |run| ==> !run[i].RunNow?
  {
    var started: seq<Event> := if immediate then [RunNow] else [TimerSet(rd.delay)];
    var called := if callback then CallbackEvents(description, rd) else [];
    var escaped := if Survives(callback, rd) then [] else [Escaped(rd.recovery.stackTrace)];
    var tail := called + escaped;
    assert forall e <- called :: e.Callback?;
    assert forall i :: 0 <= i < |tail| ==> !tail[i].RunNow?;
    assert RunEvents(immediate, callback, description, rd) == started + tail;
  }

  /** Only the first event of a trace can be an immediate start, and it is one iff initStart holds and the gate opens. */
  lemma {:induction false} ImmediateRunFirst(initStart: bool, startEnv: Option<string>, callback: bool, description: string,
                                             rounds: seq<Round>)
    ensures var t := Trace(initStart, startEnv, callback, description, rounds).0;
      && (forall i :: 0 < i < |t| ==> !t[i].RunNow?)
      && ((|t| > 0 && t[0].RunNow?) <==> initStart && Passed(startEnv, rounds) > 0)
    decreases |rounds|
  {
    if |rounds| > 0 && Gate(startEnv, rounds[0].active) {
      var run: seq<Event> := RunEvents(initStart, callback, description, rounds[0]);
      RunEventsStart(initStart, callback, description, rounds[0]);
      if Survives(callback, rounds[0]) {
        ImmediateRunFirst(false, startEnv, callback, description, rounds[1..]);
        var rest: seq<Event> := Trace(false, startEnv, callback, description, rounds[1..]).0;
        assert Trace(initStart, startEnv, callback, description, rounds).0 == run + rest;
        forall i | 0 < i < |run + rest|
          ensures !(run + rest)[i].RunNow?
        {
          if i >= |run| {
            assert (run + rest)[i] == rest[i - |run|];
          }
        }
      }
    }
  }

  /**
   * initStart gives exactly one immediate run, first; it stays set only when no round
   * passes the gate or that first run's exception leaves the coroutine, and every later
   * run goes through the timer.
   */
  lemma OneImmediateRun(initStart: bool, startEnv: Option<string>, callback: bool, description: string,
                        rounds: seq<Round>)
    ensures var (t, init) := Trace(initStart, startEnv, callback, description, rounds);
      && (forall i :: 0 < i < |t| ==> !t[i].RunNow?)
      && ((|t| > 0 && t[0].RunNow?) <==> initStart && Passed(startEnv, rounds) > 0)
      && (init <==> initStart && (Passed(startEnv, rounds) == 0 || !Survives(callback, rounds[0])))
  {
    ImmediateRunFirst(initStart, startEnv, callback, description, rounds);
  }

  /** TaskOptions: the flag start clears after the immediate run, the environment, whether a callback is set. */
  class TaskOptions {
    var initStart: bool
    var startEnv: Option<string>
    var hasCallback: bool

    constructor(initStart: bool, startEnv: Option<string>, hasCallback: bool)
      ensures this.initStart == initStart && this.startEnv == startEnv && this.hasCallback == hasCallback
    {
      this.initStart, this.startEnv, this.hasCallback := initStart, startEnv, hasCallback;
    }
  }

  /**
   * start: the gate, then either the immediate run or the timed run, after which start
   * calls itself for the next round unless an exception left the coroutine.
   */
  method Start(options: TaskOptions, description: string, rounds: seq<Round>) returns (events: seq<Event>)
    modifies options
    ensures (events, options.initStart) == Trace(old(options.initStart), options.startEnv, options.hasCallback, description, rounds)
    ensures options.startEnv == old(options.startEnv) && options.hasCallback == old(options.hasCallback)
    decreases |rounds|
  {
    if |rounds| == 0 {
      return [];
    }
    if !Gate(options.startEnv, rounds[0].active) {
      return [Skipped];
    }
    var run, survived := RunOnce(options, description, rounds[0]);
    if !survived {
      return run;
    }
    var rest := Start(options, description, rounds[1..]);
    events := run + rest;
  }

  /**
   * One run of the scheduled job, started at once while initStart holds, else by the
   * timer: the try block (the job, then the callback with its result), the catch block
   * (the callback with a stack trace), then initStart cleared unless an exception left
   * the coroutine.
   */
  method RunOnce(options: TaskOptions, description: string, rd: Round) returns (run: seq<Event>, survived: bool)
    modifies options
    ensures run == RunEvents(old(options.initStart), options.hasCallback, description, rd)
    ensures survived == Survives(options.hasCallback, rd)
    ensures options.initStart == (old(options.initStart) && !survived)
    ensures options.startEnv == old(options.startEnv) && options.hasCallback == old(options.hasCallback)
  {
    var immediate := options.initStart;
    run := if immediate then [RunNow] else [TimerSet(rd.delay)];
    survived := true;
    if options.hasCallback {
      var caught := false;
      match rd.result {
        case Returned(message) =>
          run := run + [Callback(message, description)];
          if rd.callback.Raised? {
            run := run + [Callback(Some(rd.callback.stackTrace), description)];
            caught := true;
          }
        case Threw(trace) =>
          run := run + [Callback(Some(trace), description)];
          caught := true;
      }
      if caught && rd.recovery.Raised? {
        run := run + [Escaped(rd.recovery.stackTrace)];
        survived := false;
        return;
      }
    }
    if immediate {
      options.initStart := false;
    }
  }
}
