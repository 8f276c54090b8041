/** The service that wakes waiting executions (packages/cli/src/wait-tracker.ts). */
module WaitTracker {
  import opened Options
  import opened WaitTracking

  class WaitTracker {
    var waitingExecutions: map<string, nat>
    var mainTimer: Option<nat>
    /** The timers of the platform, the polls that wait for the database, and the executions started. */
    var timers: map<nat, string>
    var intervals: set<nat>
    var nextTimer: nat
    var polls: nat
    var started: seq<string>

    ghost function View(): State
      reads this
    {
      State(waitingExecutions, timers, intervals, mainTimer, nextTimer, polls, started)
    }

    constructor ()
      ensures View() == INITIAL
    {
      waitingExecutions, mainTimer, timers, intervals, nextTimer, polls, started := map[], None, map[], {}, 0, 0, [];
    }

    method StartTracking()
      modifies this
      ensures View() == Step(old(View()), WaitTracking.StartTracking)
    {
      mainTimer := Some(nextTimer);
      intervals := intervals + {nextTimer};
      nextTimer := nextTimer + 1;
      GetWaitingExecutions();
    }

    /** `getWaitingExecutions` up to its await. */
    method GetWaitingExecutions()
      modifies this`polls
      ensures polls == old(polls) + 1
    {
      polls := polls + 1;
    }

    /** The rest of it, with the executions that the database returned. */
    method SetTimers(executions: seq<string>)
      requires polls > 0
      modifies this
      ensures View() == Step(old(View()), PollEnds(executions))
    {
      polls := polls - 1;
      ghost var polled := View();
      var i := 0;
      while i < |executions|
        invariant 0 <= i <= |executions|
        invariant ScheduleAll(View(), executions[i..]) == ScheduleAll(polled, executions)
      {
        assert executions[i..][0] == executions[i] && executions[i..][1..] == executions[i + 1..];
        var executionId := executions[i];
        if executionId !in waitingExecutions {
          waitingExecutions := waitingExecutions[executionId := nextTimer];
          timers := timers[nextTimer := executionId];
          nextTimer := nextTimer + 1;
        }
        i := i + 1;
      }
      assert executions[|executions|..] == [];
    }

    method StopExecution(executionId: string)
      modifies this`waitingExecutions, this`timers
      ensures View() == Step(old(View()), WaitTracking.StopExecution(executionId))
    {
      if executionId !in waitingExecutions {
        return;
      }
      timers := timers - {waitingExecutions[executionId]};
      waitingExecutions := waitingExecutions - {executionId};
    }

    /** A timer fires. */
    method OnTimer(timer: nat)
      requires timer in timers
      modifies this
      ensures View() == Step(old(View()), TimerFires(timer))
    {
      var executionId := timers[timer];
      timers := timers - {timer};
      StartExecution(executionId);
    }

    method StartExecution(executionId: string)
      modifies this`waitingExecutions, this`started
      ensures waitingExecutions == old(waitingExecutions) - {executionId} && started == old(started) + [executionId]
    {
      waitingExecutions := waitingExecutions - {executionId};
      started := started + [executionId];
    }

    /** The timers are cleared one by one; the entries stay. */
    method StopTracking()
      modifies this`intervals, this`timers
      ensures View() == Step(old(View()), WaitTracking.StopTracking)
    {
      if mainTimer.Some? {
        intervals := intervals - {mainTimer.value};
      }
      var todo := waitingExecutions.Keys;
      while todo != {}
        modifies this`timers
        invariant todo <= waitingExecutions.Keys
        invariant forall h :: h in timers <==>
          h in old(timers) && forall u :: u in waitingExecutions && waitingExecutions[u] == h ==> u in todo
        invariant forall h :: h in timers ==> timers[h] == old(timers)[h]
        decreases |todo|
      {
        var executionId :| executionId in todo;
        ghost var live := timers;
        timers := timers - {waitingExecutions[executionId]};
        todo := todo - {executionId};
        forall h ensures h in timers <==>
          h in old(timers) && forall u :: u in waitingExecutions && waitingExecutions[u] == h ==> u in todo {
          assert h in timers <==> h in live && h != waitingExecutions[executionId];
        }
      }
      forall h ensures h in timers <==> h in old(timers) && !IsRecorded(old(View()), h) {
        assert IsRecorded(old(View()), h) <==> exists u :: u in waitingExecutions && waitingExecutions[u] == h;
      }
      assert timers == Step(old(View()), WaitTracking.StopTracking).timers;
    }
  }
}
