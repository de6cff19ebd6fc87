/** The adaptive poller of the web client: one task at a time, one timer at a time. */
module AdaptivePoller {
  import opened Backoff
  import opened Basics
  import opened Wrappers

  datatype Options = Options(
    visibleIntervalMs: real,
    hiddenIntervalMs: real,
    backoffBaseMs: Option<real>,
    backoffMaxMs: Option<real>,
    jitterRatio: Option<real>,
    runImmediately: bool
  )

  datatype Outcome = Succeeded | Failed | AbortError

  /** `timer` is the delay of the pending timer; `visible` and `listening` belong to the page. A run is a
      sequence of events, with whatever the page does in between; the moments at which a timer fires or
      a task settles are the environment's choice. */
  datatype State = State(
    timer: Option<real>,
    running: bool,
    started: bool,
    aborted: bool,
    refreshOnCompletion: bool,
    failures: nat,
    visible: bool,
    listening: bool
  )

  function Initial(visible: bool): State { State(None, false, false, false, false, 0, visible, false) }

  // ---------- delays ----------

  function Or(o: Option<real>, default: real): real { if o.Some? then o.value else default }

  function CurrentInterval(o: Options, visible: bool): real {
    if visible then o.visibleIntervalMs else o.hiddenIntervalMs
  }

  /** The delay before jitter after so many failures in a row. */
  function BackoffDelay(o: Options, failures: nat, visible: bool): real
    requires failures > 0
  {
    var interval := CurrentInterval(o, visible);
    var base := Or(o.backoffBaseMs, interval);
    RealMin(Or(o.backoffMaxMs, RealMax(base, interval * 8.0)), Doubled(base, failures - 1))
  }

  function Jittered(delay: real, ratio: real, random: real): real {
    RealMax(1.0, Round(Jitter(delay, ratio, random)))
  }

  function NextDelay(o: Options, failures: nat, visible: bool, random: real): real {
    if failures == 0 then CurrentInterval(o, visible)
    else Jittered(BackoffDelay(o, failures, visible), Or(o.jitterRatio, 0.2), random)
  }

  // ---------- events ----------

  datatype Event =
    | Start
    | Stop
    | Refresh
    | Visibility(visible: bool)
    | TimerFires
    | TaskSettles(outcome: Outcome, random: real)

  function Schedule(s: State, delay: real): State {
    if !s.started || s.aborted then s else s.(timer := Some(RealMax(0.0, delay)))
  }

  function Run(s: State): State {
    if s.running || !s.started || s.aborted then s else s.(running := true)
  }

  function OnRefresh(s: State): State {
    if !s.started || s.aborted then s
    else
      var s := s.(timer := None);
      if s.running then s.(refreshOnCompletion := true) else Schedule(s, 0.0)
  }

  function OnVisibility(o: Options, s: State, visible: bool): State {
    var s := s.(visible := visible);
    if !s.listening then s
    else if visible then OnRefresh(s)
    else if !s.running then Schedule(s.(timer := None), CurrentInterval(o, false))
    else s
  }

  function OnSettled(o: Options, s: State, outcome: Outcome, random: real): State {
    var failures :=
      if outcome == Succeeded then 0
      else if outcome == Failed && !s.aborted then s.failures + 1
      else s.failures;
    var s := s.(running := false, failures := failures);
    if !s.started || s.aborted then s
    else if s.refreshOnCompletion then Schedule(s.(refreshOnCompletion := false), 0.0)
    else Schedule(s, NextDelay(o, s.failures, s.visible, random))
  }

  predicate Enabled(s: State, e: Event) {
    match e
    case TimerFires => s.timer.Some?
    case TaskSettles(_, _) => s.running
    case _ => true
  }

  function Do(o: Options, s: State, e: Event): State {
    match e
    case Start =>
      if s.started || s.aborted then s
      else
        var s := s.(started := true, listening := true);
        if o.runImmediately then Run(s) else Schedule(s, CurrentInterval(o, s.visible))
    case Stop => if s.aborted then s else s.(started := false, timer := None, listening := false, aborted := true)
    case Refresh => OnRefresh(s)
    case Visibility(visible) => OnVisibility(o, s, visible)
    case TimerFires => Run(s.(timer := None))
    case TaskSettles(outcome, random) => OnSettled(o, s, outcome, random)
  }

  // ---------- the object ----------

  class Poller {
    var timer: Option<real>
    var running: bool
    var started: bool
    var aborted: bool
    var refreshOnCompletion: bool
    var failures: nat
    var visible: bool
    var listening: bool
    const options: Options

    function Current(): State
      reads this
    {
      State(timer, running, started, aborted, refreshOnCompletion, failures, visible, listening)
    }

    constructor (options: Options, visible: bool)
      ensures Current() == Initial(visible) && this.options == options
    {
      timer, running, started, aborted := None, false, false, false;
      refreshOnCompletion, failures, this.visible, listening := false, 0, visible, false;
      this.options := options;
    }

    method Start()
      modifies this
      ensures Current() == Do(options, old(Current()), Event.Start)
    {
      if started || aborted { return; }
      started := true;
      listening := true;
      if !options.runImmediately { ScheduleIn(CurrentInterval(options, visible)); } else { BeginTask(); }
    }

    method Stop()
      modifies this
      ensures Current() == Do(options, old(Current()), Event.Stop)
    {
      if aborted { return; }
      started := false;
      timer := None;
      listening := false;
      aborted := true;
    }

    method Refresh()
      modifies this
      ensures Current() == Do(options, old(Current()), Event.Refresh)
    {
      if !started || aborted { return; }
      timer := None;
      if running { refreshOnCompletion := true; } else { ScheduleIn(0.0); }
    }

    /** The page becomes visible or hidden; the handler runs while it is registered. */
    method HandleVisibility(nowVisible: bool)
      modifies this
      ensures Current() == Do(options, old(Current()), Visibility(nowVisible))
    {
      visible := nowVisible;
      if !listening { return; }
      if visible {
        Refresh();
      } else if !running {
        timer := None;
        ScheduleIn(CurrentInterval(options, visible));
      }
    }

    method ScheduleIn(delayMs: real)
      modifies this`timer
      ensures Current() == Schedule(old(Current()), delayMs)
    {
      if !started || aborted { return; }
      timer := Some(RealMax(0.0, delayMs));
    }

    /** run() up to the point where it awaits the task. */
    method BeginTask()
      modifies this`running
      ensures Current() == Run(old(Current()))
    {
      if running || !started || aborted { return; }
      running := true;
    }

    method OnTimer()
      requires timer.Some?
      modifies this
      ensures Current() == Do(options, old(Current()), TimerFires)
    {
      timer := None;
      BeginTask();
    }

    /** run() from the point where the task settles. */
    method OnTaskSettled(outcome: Outcome, random: real)
      requires running
      modifies this
      ensures Current() == Do(options, old(Current()), TaskSettles(outcome, random))
    {
      if outcome == Succeeded {
        failures := 0;
      } else if !aborted && outcome == Failed {
        failures := failures + 1;
      }
      running := false;
      if started && !aborted {
        if refreshOnCompletion {
          refreshOnCompletion := false;
          ScheduleIn(0.0);
        } else {
          ScheduleIn(NextDelay(options, failures, visible, random));
        }
      }
    }
  }

  // ---------- every run ----------

  /** While started, either a task runs or a timer is pending, never both and never neither. */
  predicate Inv(s: State) {
    && (s.started ==> !s.aborted && (s.running <==> s.timer == None))
    && (!s.started ==> s.timer == None)
    && (!s.started && !s.aborted ==> !s.running && !s.refreshOnCompletion)
    && (s.refreshOnCompletion && s.started ==> s.running)
    && s.listening == s.started
  }

  ghost predicate Possible(o: Options, s: State, events: seq<Event>)
    decreases |events|
  {
    events == [] || (Enabled(s, events[0]) && Possible(o, Do(o, s, events[0]), events[1..]))
  }

  function Final(o: Options, s: State, events: seq<Event>): State
    decreases |events|
  {
    if events == [] then s else Final(o, Do(o, s, events[0]), events[1..])
  }

  lemma {:induction false} StepKeeps(o: Options, s: State, e: Event)
    requires Inv(s) && Enabled(s, e)
    ensures Inv(Do(o, s, e))
  {
    hide NextDelay;
  }

  lemma {:induction false} RunKeeps(o: Options, s: State, events: seq<Event>)
    requires Inv(s) && Possible(o, s, events)
    ensures Inv(Final(o, s, events))
    decreases |events|
  {
    hide Do;
    if events != [] {
      StepKeeps(o, s, events[0]);
      RunKeeps(o, Do(o, s, events[0]), events[1..]);
    }
  }

  /** From the beginning, whatever happens: a started poller has exactly one of the two. */
  lemma {:induction false} NeverDeadNorDouble(o: Options, visible: bool, events: seq<Event>)
    requires Possible(o, Initial(visible), events)
    ensures var s := Final(o, Initial(visible), events);
            (s.started ==> s.running != s.timer.Some?) && (!s.started ==> s.timer == None)
  {
    RunKeeps(o, Initial(visible), events);
  }

  /** How many tasks a run starts, counted where the task is called. */
  function Calls(o: Options, s: State, events: seq<Event>): nat
    decreases |events|
  {
    if events == [] then 0
    else (if !s.running && Do(o, s, events[0]).running then 1 else 0) + Calls(o, Do(o, s, events[0]), events[1..])
  }

  function Settled(events: seq<Event>, n: nat): nat
    requires n <= |events|
  {
    if n == 0 then 0 else Settled(events, n - 1) + if events[n - 1].TaskSettles? then 1 else 0
  }

  /** Single flight: the calls not yet settled are none, or one while the poller says so. */
  lemma {:induction false} SingleFlight(o: Options, s: State, events: seq<Event>)
    requires Inv(s) && Possible(o, s, events)
    ensures var running := if Final(o, s, events).running then 1 else 0;
            (if s.running then 1 else 0) + Calls(o, s, events) == Settled(events, |events|) + running
    decreases |events|
  {
    if events != [] {
      StepKeeps(o, s, events[0]);
      SingleFlight(o, Do(o, s, events[0]), events[1..]);
      SettledFirst(events, |events|);
      RunningStep(o, s, events[0]);
    }
  }

  lemma {:induction false} SettledFirst(events: seq<Event>, n: nat)
    requires 0 < n <= |events|
    ensures Settled(events, n) == (if events[0].TaskSettles? then 1 else 0) + Settled(events[1..], n - 1)
  {
    if n > 1 { SettledFirst(events, n - 1); } else { assert Settled(events[1..], 0) == 0 && Settled(events, 0) == 0; }
  }

  /** A task stops running by settling, and by nothing else. */
  lemma {:induction false} RunningStep(o: Options, s: State, e: Event)
    requires Inv(s) && Enabled(s, e)
    ensures e.TaskSettles? ==> s.running && !Do(o, s, e).running
    ensures !e.TaskSettles? && s.running ==> Do(o, s, e).running
  {
    hide NextDelay;
  }

  /** After stop no task is called, whatever follows; a task still running may settle. */
  lemma {:induction false} StopIsFinal(o: Options, s: State, events: seq<Event>)
    requires Inv(s) && s.aborted && Possible(o, s, events)
    ensures Calls(o, s, events) == 0 && Final(o, s, events).aborted && Final(o, s, events).timer == None
    decreases |events|
  {
    if events != [] {
      StepKeeps(o, s, events[0]);
      StoppedStep(o, s, events[0]);
      hide Do;
      StopIsFinal(o, Do(o, s, events[0]), events[1..]);
    }
  }

  lemma {:induction false} StoppedStep(o: Options, s: State, e: Event)
    requires Inv(s) && s.aborted && Enabled(s, e)
    ensures var t := Do(o, s, e); t.aborted && !t.started && t.timer == None && (t.running ==> s.running)
  {
    hide NextDelay;
  }

  // ---------- refresh ----------

  ghost predicate Without(events: seq<Event>, stop: bool, hidden: bool, settle: bool) {
    forall e :: e in events ==>
        !(stop && e == Stop) && !(hidden && e == Visibility(false)) && !(settle && e.TaskSettles?)
  }

  /** A refresh during a task is remembered until the task settles, and then schedules a run without
      delay unless the poller has been stopped. */
  lemma {:induction false} RefreshDuringTask(o: Options, s: State, between: seq<Event>, outcome: Outcome, random: real)
    requires Inv(s) && s.started && s.running
    requires Possible(o, Do(o, s, Refresh), between) && Without(between, false, false, true)
    ensures var t := Final(o, Do(o, s, Refresh), between);
            var after := Do(o, t, TaskSettles(outcome, random));
            t.running && (t.started ==> after.timer == Some(0.0) && !after.refreshOnCompletion)
  {
    StepKeeps(o, s, Refresh);
    RefreshAfterTask(o, Do(o, s, Refresh), between, outcome, random);
  }

  lemma {:induction false} RefreshAfterTask(o: Options, s: State, between: seq<Event>, outcome: Outcome, random: real)
    requires Inv(s) && s.started && s.running && s.refreshOnCompletion
    requires Possible(o, s, between) && Without(between, false, false, true)
    ensures var t := Final(o, s, between);
            var after := Do(o, t, TaskSettles(outcome, random));
            t.running && (t.started ==> after.timer == Some(0.0) && !after.refreshOnCompletion)
    decreases |between|
  {
    hide NextDelay;
    if between != [] {
      StepKeeps(o, s, between[0]);
      assert !between[0].TaskSettles?;
      var t := Do(o, s, between[0]);
      if t.started {
        RefreshAfterTask(o, t, between[1..], outcome, random);
      } else {
        StoppedWhileRunning(o, t, between[1..]);
      }
    }
  }

  lemma {:induction false} StoppedWhileRunning(o: Options, s: State, events: seq<Event>)
    requires Inv(s) && s.aborted && s.running && Possible(o, s, events) && Without(events, false, false, true)
    ensures Final(o, s, events).running && !Final(o, s, events).started
    decreases |events|
  {
    hide NextDelay;
    if events != [] {
      StepKeeps(o, s, events[0]);
      assert !events[0].TaskSettles?;
      StoppedWhileRunning(o, Do(o, s, events[0]), events[1..]);
    }
  }

  /** The timer without delay survives everything but a stop and the page being hidden, which puts
      the hidden interval in its place. */
  lemma {:induction false} ZeroDelayStep(o: Options, s: State, e: Event)
    requires Inv(s) && s.started && s.timer == Some(0.0) && Enabled(s, e)
    ensures var t := Do(o, s, e);
            t.running || t.timer == Some(0.0) <==> e != Stop && !(e == Visibility(false) && o.hiddenIntervalMs > 0.0)
  {
  }

  /** So unless one of these comes first, the next task is called off that very timer. */
  lemma {:induction false} ZeroDelayRun(o: Options, s: State, events: seq<Event>)
    requires Inv(s) && s.started && s.timer == Some(0.0)
    requires Possible(o, s, events) && Without(events, true, true, false)
    ensures Calls(o, s, events) > 0 || Final(o, s, events).timer == Some(0.0)
    decreases |events|
  {
    if events != [] {
      assert events[0] in events && forall e :: e in events[1..] ==> e in events;
      StepKeeps(o, s, events[0]);
      ZeroDelayStep(o, s, events[0]);
      KeepsStarted(o, s, events[0]);
      hide Do, Inv;
      if !Do(o, s, events[0]).running { ZeroDelayRun(o, Do(o, s, events[0]), events[1..]); }
    }
  }

  lemma {:induction false} KeepsStarted(o: Options, s: State, e: Event)
    requires Inv(s) && s.started && Enabled(s, e) && e != Stop
    ensures Do(o, s, e).started && (s.timer.Some? ==> !s.running)
  {
    hide NextDelay;
  }

  // ---------- backoff ----------

  /** More failures never shorten the delay, and the maximum caps it. */
  lemma {:induction false} BackoffGrows(o: Options, failures: nat, visible: bool)
    requires failures > 0 && Or(o.backoffBaseMs, CurrentInterval(o, visible)) >= 0.0
    ensures BackoffDelay(o, failures, visible) <= BackoffDelay(o, failures + 1, visible)
    ensures o.backoffMaxMs.Some? ==> BackoffDelay(o, failures, visible) <= o.backoffMaxMs.value
  {
    DoubledGrows(Or(o.backoffBaseMs, CurrentInterval(o, visible)), failures - 1);
    hide Doubled;
  }

  /** Jitter moves a delay by at most its ratio, up to rounding, and never below one millisecond. */
  lemma {:induction false} JitterBounds(delay: real, ratio: real, random: real)
    requires delay >= 0.0 && ratio >= 0.0
    ensures var d := Jittered(delay, ratio, random);
            && 1.0 <= d && delay - Portion(delay, ratio) - 0.5 <= d
            && (d == 1.0 || d <= delay + Portion(delay, ratio) + 0.5)
  {
    JitterSpread(delay, ratio, random);
    hide Jitter, Portion;
  }

  // ---------- what the timer is set to ----------

  /** The failures in a row that a run of events leaves, after `before` of them: a success forgets
      them, an aborted task does not count. */
  function FailuresInRow(before: nat, events: seq<Event>): nat
    decreases |events|
  {
    if events == [] then before
    else
      match events[0]
      case TaskSettles(Succeeded, _) => FailuresInRow(0, events[1..])
      case TaskSettles(Failed, _) => FailuresInRow(before + 1, events[1..])
      case _ => FailuresInRow(before, events[1..])
  }

  lemma {:induction false} AbortedStays(o: Options, s: State, events: seq<Event>)
    requires s.aborted
    ensures Final(o, s, events).aborted
    decreases |events|
  {
    hide NextDelay;
    if events != [] { AbortedStays(o, Do(o, s, events[0]), events[1..]); }
  }

  /** Until it is stopped, the poller counts exactly the failures since its last success. */
  lemma {:induction false} FailuresAreCounted(o: Options, s: State, events: seq<Event>)
    requires !Final(o, s, events).aborted
    ensures Final(o, s, events).failures == FailuresInRow(s.failures, events)
    decreases |events|
  {
    hide NextDelay;
    if events != [] {
      var t := Do(o, s, events[0]);
      if s.aborted { AbortedStays(o, s, events); }
      FailuresAreCounted(o, t, events[1..]);
    }
  }

  /** What the next task waits for once one has settled: the interval of the page's visibility while
      nothing has failed since the last success, else the backoff, jittered; nothing if a refresh came. */
  lemma {:induction false} DelayAfterSettling(o: Options, s: State, outcome: Outcome, random: real)
    requires Inv(s) && s.started && s.running
    ensures var t := Do(o, s, TaskSettles(outcome, random));
            var failures :=
              match outcome case Succeeded => 0 case Failed => s.failures + 1 case AbortError => s.failures;
            var interval := if s.visible then o.visibleIntervalMs else o.hiddenIntervalMs;
            var ratio := if o.jitterRatio.Some? then o.jitterRatio.value else 0.2;
            && !t.running && t.started && t.failures == failures && t.timer.Some?
            && t.timer.value == (if s.refreshOnCompletion then 0.0
                                 else if failures == 0 then RealMax(0.0, interval)
                                 else Jittered(BackoffDelay(o, failures, s.visible), ratio, random))
  {
    hide Jitter, Round, BackoffDelay;
  }

  /** The backoff starts at its base, the interval unless configured, and doubles with every failure up
      to its maximum, eight intervals unless configured. */
  lemma {:induction false} BackoffDoubles(o: Options, failures: nat, visible: bool)
    requires failures > 0
    requires o.visibleIntervalMs >= 0.0 && o.hiddenIntervalMs >= 0.0
    requires o.backoffBaseMs.Some? ==> o.backoffBaseMs.value >= 0.0
    requires o.backoffMaxMs.Some? ==> o.backoffMaxMs.value >= 0.0
    ensures var interval := if visible then o.visibleIntervalMs else o.hiddenIntervalMs;
            var base := if o.backoffBaseMs.Some? then o.backoffBaseMs.value else interval;
            var maximum := if o.backoffMaxMs.Some? then o.backoffMaxMs.value else RealMax(base, 8.0 * interval);
            && BackoffDelay(o, 1, visible) == RealMin(maximum, base)
            && BackoffDelay(o, failures + 1, visible) == RealMin(maximum, 2.0 * BackoffDelay(o, failures, visible))
  {
    var base := Or(o.backoffBaseMs, CurrentInterval(o, visible));
    assert Doubled(base, 0) == base;
    DoublesAgain(base, failures - 1);
    hide Doubled;
  }

  /** What each event of the page does to a poller that has started, or that could. */
  lemma {:induction false} EventsSay(o: Options, s: State, visible: bool)
    requires Inv(s) && !s.aborted
    ensures !s.started ==>
      var t := Do(o, s, Start);
      var interval := if s.visible then o.visibleIntervalMs else o.hiddenIntervalMs;
      && t.started && t.listening
      && (if o.runImmediately then t.running && t.timer == None
          else !t.running && t.timer == Some(RealMax(0.0, interval)))
    ensures s.started ==> Do(o, s, Start) == s
    ensures s.started && !s.running ==>
      && Do(o, s, Refresh).timer == Some(0.0) && !Do(o, s, Refresh).running
      && Do(o, s, TimerFires).running && Do(o, s, TimerFires).timer == None
      && Do(o, s, Visibility(true)).timer == Some(0.0)
      && Do(o, s, Visibility(false)).timer == Some(RealMax(0.0, o.hiddenIntervalMs))
    ensures s.started && s.running ==>
      && Do(o, s, Visibility(true)).refreshOnCompletion
      && Do(o, s, Visibility(false)) == s.(visible := false)
    ensures Do(o, s, Visibility(visible)).visible == visible
    ensures var t := Do(o, s, Stop); t.aborted && !t.started && !t.listening && t.timer == None
  {
  }
}
