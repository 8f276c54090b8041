/**
  Waking waiting executions (packages/cli/src/wait-tracker.ts): polls of the database that overlap, timers that fire,
  executions that are stopped, and leadership that comes and goes, as one state with its steps.
 */
module WaitTracking {
  import opened Options

  /**
    `entries` is `waitingExecutions`: the handle recorded for each execution id. `timers` are the live timers with the
    execution each will start, `intervals` the live polling intervals, `polls` the polls that wait for the database,
    `started` the executions started so far.
   */
  datatype State = State(
    entries: map<string, nat>, timers: map<nat, string>,
    intervals: set<nat>, mainTimer: Option<nat>, nextTimer: nat,
    polls: nat, started: seq<string>)

  datatype Event =
    | StartTracking
    | StopTracking
    | IntervalFires(interval: nat)
    | PollEnds(found: seq<string>)
    | TimerFires(timer: nat)
    | StopExecution(executionId: string)

  const INITIAL: State := State(map[], map[], {}, None, 0, 0, [])

  /** Timers and intervals fire while they are live; polls end after they began. */
  predicate CanHappen(s: State, event: Event) {
    match event
    case IntervalFires(i) => i in s.intervals
    case PollEnds(_) => s.polls > 0
    case TimerFires(h) => h in s.timers
    case _ => true
  }

  /** A timer is set for an execution that has no entry. */
  function Schedule(s: State, executionId: string): State {
    if executionId in s.entries then s
    else s.(
      entries := s.entries[executionId := s.nextTimer],
      timers := s.timers[s.nextTimer := executionId],
      nextTimer := s.nextTimer + 1)
  }

  /** The loop over the executions that a poll found. */
  function ScheduleAll(s: State, found: seq<string>): State
    decreases |found|
  {
    if found == [] then s else ScheduleAll(Schedule(s, found[0]), found[1..])
  }

  /** `h` is recorded for some execution. */
  predicate IsRecorded(s: State, h: nat) {
    exists executionId :: executionId in s.entries && s.entries[executionId] == h
  }

  function Step(s: State, event: Event): State
    requires CanHappen(s, event)
  {
    match event
    case StartTracking =>
      s.(intervals := s.intervals + {s.nextTimer}, mainTimer := Some(s.nextTimer),
         nextTimer := s.nextTimer + 1, polls := s.polls + 1)
    case StopTracking =>
      s.(intervals := if s.mainTimer.Some? then s.intervals - {s.mainTimer.value} else s.intervals,
         timers := map h | h in s.timers && !IsRecorded(s, h) :: s.timers[h])
    case IntervalFires(i) => s.(polls := s.polls + 1)
    case PollEnds(found) => ScheduleAll(s.(polls := s.polls - 1), found)
    case TimerFires(h) =>
      s.(timers := s.timers - {h}, entries := s.entries - {s.timers[h]}, started := s.started + [s.timers[h]])
    case StopExecution(executionId) =>
      if executionId !in s.entries then s
      else s.(timers := s.timers - {s.entries[executionId]}, entries := s.entries - {executionId})
  }

  ghost predicate IsRun(s: State, es: seq<Event>)
    decreases |es|
  {
    es != [] ==> CanHappen(s, es[0]) && IsRun(Step(s, es[0]), es[1..])
  }

  ghost function Run(s: State, es: seq<Event>): State
    requires IsRun(s, es)
    decreases |es|
  {
    if es == [] then s else Run(Step(s, es[0]), es[1..])
  }

  // ---- Every live timer is the recorded one ----------------------------------------------------------------

  ghost predicate Valid(s: State) {
    && (forall h :: h in s.timers ==> h < s.nextTimer && s.timers[h] in s.entries && s.entries[s.timers[h]] == h)
    && (forall u :: u in s.entries ==> s.entries[u] < s.nextTimer)
    && (forall u, v :: u in s.entries && v in s.entries && s.entries[u] == s.entries[v] ==> u == v)
    && (forall i :: i in s.intervals ==> i < s.nextTimer)
    && (s.mainTimer.Some? ==> s.mainTimer.value < s.nextTimer)
  }

  /** The execution will be started by a live timer. */
  ghost predicate IsScheduled(s: State, executionId: string) {
    exists h :: h in s.timers && s.timers[h] == executionId
  }

  /** It has an entry whose timer is not live: polls pass it over. */
  predicate IsForgotten(s: State, executionId: string) {
    executionId in s.entries && s.entries[executionId] !in s.timers
  }

  lemma ScheduleKeeps(s: State, executionId: string)
    requires Valid(s)
    ensures Valid(Schedule(s, executionId))
    ensures forall u :: IsForgotten(Schedule(s, executionId), u) <==> IsForgotten(s, u)
  {
  }

  lemma {:induction false} ScheduleAllKeeps(s: State, found: seq<string>)
    requires Valid(s)
    ensures Valid(ScheduleAll(s, found))
    ensures forall u :: IsForgotten(ScheduleAll(s, found), u) <==> IsForgotten(s, u)
    ensures forall u :: u in ScheduleAll(s, found).entries <==> u in s.entries || u in found
    ensures var t := ScheduleAll(s, found);
            t.intervals == s.intervals && t.mainTimer == s.mainTimer && t.polls == s.polls && t.started == s.started
    decreases |found|
  {
    if found != [] {
      ScheduleKeeps(s, found[0]);
      ScheduleAllKeeps(Schedule(s, found[0]), found[1..]);
    }
  }

  lemma StopTrackingStops(s: State)
    requires Valid(s)
    ensures Step(s, StopTracking).timers == map[]
  {
    forall h | h in s.timers ensures IsRecorded(s, h) {
      assert s.entries[s.timers[h]] == h;
    }
  }

  lemma StepKeeps(s: State, event: Event)
    requires Valid(s) && CanHappen(s, event)
    ensures Valid(Step(s, event))
  {
    match event
    case PollEnds(found) => ScheduleAllKeeps(s.(polls := s.polls - 1), found);
    case StopTracking => StopTrackingStops(s);
    case StartTracking =>
    case IntervalFires(i) =>
    case TimerFires(h) =>
    case StopExecution(executionId) =>
  }

  /** However polls overlap with timers, stops and leadership changes: every live timer is the one in the table. */
  lemma {:induction false} RunKeeps(s: State, es: seq<Event>)
    requires Valid(s) && IsRun(s, es)
    ensures Valid(Run(s, es))
    decreases |es|
  {
    if es != [] {
      StepKeeps(s, es[0]);
      RunKeeps(Step(s, es[0]), es[1..]);
    }
  }

  /** So each execution has at most one live timer, in every run from the start. */
  lemma OneLiveTimer(es: seq<Event>, h: nat, i: nat)
    requires IsRun(INITIAL, es)
    requires var s := Run(INITIAL, es); h in s.timers && i in s.timers && s.timers[h] == s.timers[i]
    ensures h == i
  {
    RunKeeps(INITIAL, es);
  }

  // ---- Stopping an execution -------------------------------------------------------------------------------

  /** A stopped execution has neither entry nor live timer; every other one keeps both, and polling goes on. */
  lemma StopExecutionStops(s: State, executionId: string)
    requires Valid(s)
    ensures var t := Step(s, StopExecution(executionId));
            && executionId !in t.entries && !IsScheduled(t, executionId)
            && (forall u :: u != executionId ==>
                  (u in t.entries <==> u in s.entries) && (IsScheduled(t, u) <==> IsScheduled(s, u)))
            && (forall u :: u in t.entries ==> t.entries[u] == s.entries[u])
            && t.intervals == s.intervals && t.mainTimer == s.mainTimer && t.polls == s.polls && t.started == s.started
  {
    var t := Step(s, StopExecution(executionId));
    forall u | u != executionId && IsScheduled(s, u) ensures IsScheduled(t, u) {
      var h :| h in s.timers && s.timers[h] == u;
      assert h in t.timers && t.timers[h] == u;
    }
  }

  ghost predicate Finds(es: seq<Event>, executionId: string) {
    exists e :: e in es && e.PollEnds? && executionId in e.found
  }

  lemma UnlistedStep(s: State, event: Event, executionId: string)
    requires Valid(s) && CanHappen(s, event) && executionId !in s.entries
    requires event.PollEnds? ==> executionId !in event.found
    ensures executionId !in Step(s, event).entries && NotStartedSince(s, Step(s, event), executionId)
  {
    StartedStep(s, event);
    if event.PollEnds? {
      ScheduleAllKeeps(s.(polls := s.polls - 1), event.found);
    }
  }

  lemma {:induction false} UnlistedNotStarted(s: State, es: seq<Event>, executionId: string)
    requires Valid(s) && executionId !in s.entries && IsRun(s, es) && !Finds(es, executionId)
    ensures executionId !in Run(s, es).entries && NotStartedSince(s, Run(s, es), executionId)
    decreases |es|
  {
    if es != [] {
      var t := Step(s, es[0]);
      assert es[0] in es && forall e :: e in es[1..] ==> e in es;
      StepKeeps(s, es[0]);
      UnlistedStep(s, es[0], executionId);
      UnlistedNotStarted(t, es[1..], executionId);
      assert Run(s, es).started[|s.started|..] == t.started[|s.started|..] + Run(s, es).started[|t.started|..];
    }
  }

  /** Once stopped, the execution is not started in any run until a poll that found it ends. */
  lemma StoppedNotStarted(s: State, es: seq<Event>, executionId: string)
    requires Valid(s) && IsRun(Step(s, StopExecution(executionId)), es) && !Finds(es, executionId)
    ensures NotStartedSince(s, Run(Step(s, StopExecution(executionId)), es), executionId)
  {
    StepKeeps(s, StopExecution(executionId));
    StopExecutionStops(s, executionId);
    UnlistedNotStarted(Step(s, StopExecution(executionId)), es, executionId);
  }

  // ---- Waking an execution ---------------------------------------------------------------------------------

  lemma RunFirst(s: State, e: Event, es: seq<Event>)
    requires CanHappen(s, e) && IsRun(Step(s, e), es)
    ensures IsRun(s, [e] + es) && Run(s, [e] + es) == Run(Step(s, e), es)
  {
    assert ([e] + es)[1..] == es;
  }

  /** The beginning of a poll: when tracking starts, and whenever an interval fires. */
  predicate BeginsPoll(s: State, event: Event) {
    event.StartTracking? || (event.IntervalFires? && event.interval in s.intervals)
  }

  /**
    An execution without an entry wakes in three steps: a poll begins, it ends and has found the execution, and the
    timer fires that it set. The execution is started, and its entry is gone.
   */
  lemma PollWakes(s: State, begin: Event, executionId: string)
    requires Valid(s) && BeginsPoll(s, begin) && executionId !in s.entries
    ensures var timer := if begin.StartTracking? then s.nextTimer + 1 else s.nextTimer;
            var es := [begin, PollEnds([executionId]), TimerFires(timer)];
            && IsRun(s, es) && Run(s, es).started == s.started + [executionId] && executionId !in Run(s, es).entries
            && Run(s, es).polls == s.polls
  {
    var polling := Step(s, begin);
    assert [executionId][1..] == [];
    assert ScheduleAll(polling.(polls := polling.polls - 1), [executionId])
        == ScheduleAll(Schedule(polling.(polls := polling.polls - 1), executionId), []);
    var ended, fire := Step(polling, PollEnds([executionId])), TimerFires(polling.nextTimer);
    RunFirst(ended, fire, []);
    RunFirst(polling, PollEnds([executionId]), [fire] + []);
    RunFirst(s, begin, [PollEnds([executionId])] + ([fire] + []));
    assert [begin] + ([PollEnds([executionId])] + ([fire] + [])) == [begin, PollEnds([executionId]), fire];
  }

  /** How many polls the events begin, and how many end. */
  ghost function PollsBegun(es: seq<Event>): nat {
    if es == [] then 0 else (if es[0].StartTracking? || es[0].IntervalFires? then 1 else 0) + PollsBegun(es[1..])
  }

  ghost function PollsEnded(es: seq<Event>): nat {
    if es == [] then 0 else (if es[0].PollEnds? then 1 else 0) + PollsEnded(es[1..])
  }

  lemma PollsStep(s: State, event: Event)
    requires Valid(s) && CanHappen(s, event)
    ensures Step(s, event).polls == s.polls + PollsBegun([event]) - PollsEnded([event])
  {
    assert [event][1..] == [];
    if event.PollEnds? {
      ScheduleAllKeeps(s.(polls := s.polls - 1), event.found);
    }
  }

  /** Every poll that begins ends once. */
  lemma {:induction false} PollsBalance(s: State, es: seq<Event>)
    requires Valid(s) && IsRun(s, es)
    ensures Run(s, es).polls == s.polls + PollsBegun(es) - PollsEnded(es)
    decreases |es|
  {
    if es != [] {
      StepKeeps(s, es[0]);
      PollsStep(s, es[0]);
      assert [es[0]][1..] == [];
      PollsBalance(Step(s, es[0]), es[1..]);
    }
  }

  // ---- Without stepping down -------------------------------------------------------------------------------

  /** The table lists exactly the executions with a live timer. */
  ghost predicate Exact(s: State) {
    forall u :: u in s.entries <==> IsScheduled(s, u)
  }

  lemma ExactIffNoneForgotten(s: State)
    requires Valid(s)
    ensures Exact(s) <==> forall u :: !IsForgotten(s, u)
  {
    forall u ensures IsScheduled(s, u) <==> u in s.entries && !IsForgotten(s, u) {
      if IsScheduled(s, u) {
        var h :| h in s.timers && s.timers[h] == u;
      }
      if u in s.entries && !IsForgotten(s, u) {
        var h := s.entries[u];
        assert s.entries[s.timers[h]] == h;
        assert s.timers[h] == u;
      }
    }
    if Exact(s) {
      forall u ensures !IsForgotten(s, u) {
        assert u in s.entries <==> IsScheduled(s, u);
      }
    }
  }

  /** Only stepping down makes a step forget an execution. */
  lemma NoneForgottenStep(s: State, event: Event)
    requires Valid(s) && CanHappen(s, event) && !event.StopTracking?
    requires forall u :: !IsForgotten(s, u)
    ensures forall u :: !IsForgotten(Step(s, event), u)
  {
    forall u ensures !IsForgotten(Step(s, event), u) {
      assert !IsForgotten(s, u);
      if event.PollEnds? {
        PollForgetsNone(s, event.found, u);
      } else {
        OthersForgetNone(s, event, u);
      }
    }
  }

  lemma PollForgetsNone(s: State, found: seq<string>, u: string)
    requires Valid(s) && s.polls > 0
    ensures IsForgotten(Step(s, PollEnds(found)), u) <==> IsForgotten(s, u)
    ensures Step(s, PollEnds(found)).started == s.started
  {
    var polled := s.(polls := s.polls - 1);
    assert IsForgotten(polled, u) <==> IsForgotten(s, u);
    ScheduleAllKeeps(polled, found);
  }

  lemma OthersForgetNone(s: State, event: Event, u: string)
    requires Valid(s) && CanHappen(s, event) && !event.StopTracking? && !event.PollEnds? && !IsForgotten(s, u)
    ensures !IsForgotten(Step(s, event), u)
  {
    if u in Step(s, event).entries {
      assert s.entries[u] in s.timers;
    }
  }

  /** In runs without `stopTracking` the ids in the table are exactly those with a live timer. */
  lemma {:induction false} ExactWithoutStop(s: State, es: seq<Event>)
    requires Valid(s) && IsRun(s, es) && Exact(s) && StopTracking !in es
    ensures Exact(Run(s, es))
    decreases |es|
  {
    if es != [] {
      assert es[0] in es;
      ExactIffNoneForgotten(s);
      StepKeeps(s, es[0]);
      NoneForgottenStep(s, es[0]);
      ExactIffNoneForgotten(Step(s, es[0]));
      ExactWithoutStop(Step(s, es[0]), es[1..]);
    }
  }

  // ---- Stepping down and taking over again -----------------------------------------------------------------

  /** Stepping down forgets every execution in the table. */
  lemma StopTrackingForgets(s: State, executionId: string)
    requires Valid(s) && executionId in s.entries
    ensures IsForgotten(Step(s, StopTracking), executionId)
  {
    StopTrackingStops(s);
  }

  /** From `s` to `t` the execution is not started. */
  ghost predicate NotStartedSince(s: State, t: State, executionId: string) {
    s.started <= t.started && executionId !in t.started[|s.started|..]
  }

  /** It starts only what a firing timer starts. */
  lemma StartedStep(s: State, event: Event)
    requires Valid(s) && CanHappen(s, event)
    ensures Step(s, event).started == s.started + if event.TimerFires? then [s.timers[event.timer]] else []
  {
    if event.PollEnds? {
      PollForgetsNone(s, event.found, "");
    }
  }

  lemma ForgottenStep(s: State, event: Event, executionId: string)
    requires Valid(s) && CanHappen(s, event) && IsForgotten(s, executionId) && event != StopExecution(executionId)
    ensures IsForgotten(Step(s, event), executionId)
    ensures NotStartedSince(s, Step(s, event), executionId)
  {
    StartedStep(s, event);
    if event.PollEnds? {
      PollForgetsNone(s, event.found, executionId);
    } else if event.StopTracking? {
      StopTrackingStops(s);
    }
  }

  /**
    A forgotten execution is never started: neither taking over again nor any poll, timer or other stop brings it
    back. Only stopping that very execution removes the entry that hides it.
   */
  lemma {:induction false} ForgottenNeverStarts(s: State, es: seq<Event>, executionId: string)
    requires Valid(s) && IsRun(s, es) && IsForgotten(s, executionId) && StopExecution(executionId) !in es
    ensures IsForgotten(Run(s, es), executionId)
    ensures NotStartedSince(s, Run(s, es), executionId)
    decreases |es|
  {
    if es != [] {
      assert es[0] in es;
      var t := Step(s, es[0]);
      StepKeeps(s, es[0]);
      ForgottenStep(s, es[0], executionId);
      ForgottenNeverStarts(t, es[1..], executionId);
      var n := |s.started|;
      assert Run(s, es).started[n..] == t.started[n..] + Run(s, es).started[|t.started|..];
    }
  }

  /** A poll that finds an execution leaves it with a live timer exactly when the execution was not forgotten. */
  lemma PollSchedulesIff(s: State, found: seq<string>, executionId: string)
    requires Valid(s) && s.polls > 0 && executionId in found
    ensures IsScheduled(Step(s, PollEnds(found)), executionId) <==> !IsForgotten(s, executionId)
  {
    var polled := s.(polls := s.polls - 1);
    var t := Step(s, PollEnds(found));
    ScheduleAllKeeps(polled, found);
    assert IsForgotten(polled, executionId) <==> IsForgotten(s, executionId);
    if !IsForgotten(t, executionId) {
      var h := t.entries[executionId];
      assert h in t.timers && t.entries[t.timers[h]] == h;
      assert t.timers[h] == executionId;
    }
  }

  // ---- Polling intervals -----------------------------------------------------------------------------------

  /** The only live interval, if there is one, is the one that stepping down will clear. */
  predicate OneInterval(s: State) {
    forall i :: i in s.intervals ==> s.mainTimer == Some(i)
  }

  /** Starting to track keeps that exactly when no interval is live: otherwise the old one can never be cleared. */
  lemma StartTrackingKeepsIff(s: State)
    requires Valid(s)
    ensures OneInterval(Step(s, StartTracking)) <==> s.intervals == {}
  {
    var t := Step(s, StartTracking);
    if i :| i in s.intervals {
      assert i in t.intervals && i != s.nextTimer;
    }
  }

  /** Nothing will wake an execution: no timer or interval is live and no poll is waiting. */
  predicate Asleep(s: State) {
    s.timers == map[] && s.intervals == {} && s.polls == 0
  }

  /** Stepping down puts the tracker to sleep exactly when no poll is waiting and the interval is the only one. */
  lemma StopTrackingSleepsIff(s: State)
    requires Valid(s)
    ensures Asleep(Step(s, StopTracking)) <==> s.polls == 0 && OneInterval(s)
  {
    StopTrackingStops(s);
    var t := Step(s, StopTracking);
    if s.mainTimer.Some? {
      assert t.intervals == s.intervals - {s.mainTimer.value};
      if t.intervals == {} {
        assert forall i :: i in s.intervals && i != s.mainTimer.value ==> i in t.intervals;
      }
    }
  }

  /** Asleep, it starts nothing until it tracks again. */
  lemma {:induction false} AsleepStays(s: State, es: seq<Event>)
    requires Asleep(s) && IsRun(s, es) && StartTracking !in es
    ensures Asleep(Run(s, es)) && Run(s, es).started == s.started
    decreases |es|
  {
    if es != [] {
      assert es[0] in es;
      AsleepStays(Step(s, es[0]), es[1..]);
    }
  }
}
