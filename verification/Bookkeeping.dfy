/**
  The errors and the retry queue of the workflow manager (packages/cli/src/active-workflow-manager.ts) between awaits.
  Storing or dropping an error is awaited, so an operation touches one of the two stores now and the other one later;
  in between, operations on the same workflow may come. A pending half of an operation is a task.
 */
module Bookkeeping {
  import Activation

  datatype Rest = Queues | Registers | Dequeues | Deregisters

  datatype Task = Task(workflowId: string, rest: Rest)

  datatype State = State(errors: set<string>, queue: set<string>, tasks: multiset<Task>)

  datatype Event =
    | AddFails(workflowId: string, queues: bool)  // the error is stored; a start-up is still to queue the workflow
    | AddActivates(workflowId: string)            // the entry is dropped, the error still to be
    | TriggerFails(workflowId: string)            // queued, the error still to be stored
    | SavingFails(workflowId: string)             // the last write of a start-up fails: queued at once
    | RemoveDeregisters(workflowId: string)       // the error is dropped, the entry still to be
    | Finishes(task: Task)
    | RemoveAllFromQueue

  predicate CanHappen(s: State, event: Event) {
    event.Finishes? ==> event.task in s.tasks
  }

  function Finish(s: State, task: Task): State
    requires task in s.tasks
  {
    var t := s.(tasks := s.tasks - multiset{task});
    match task.rest
    case Queues => t.(queue := s.queue + {task.workflowId})
    case Registers => t.(errors := s.errors + {task.workflowId})
    case Dequeues => t.(queue := s.queue - {task.workflowId})
    case Deregisters => t.(errors := s.errors - {task.workflowId})
  }

  function Begin(s: State, workflowId: string, rest: Rest): State {
    s.(tasks := s.tasks + multiset{Task(workflowId, rest)})
  }

  function Step(s: State, event: Event): State
    requires CanHappen(s, event)
  {
    match event
    case AddFails(w, queues) =>
      var t := s.(errors := s.errors + {w});
      if queues then Begin(t, w, Queues) else t
    case AddActivates(w) => Begin(s.(queue := s.queue - {w}), w, Deregisters)
    case TriggerFails(w) => Begin(s.(queue := s.queue + {w}), w, Registers)
    case SavingFails(w) => s.(queue := s.queue + {w})
    case RemoveDeregisters(w) => Begin(s.(errors := s.errors - {w}), w, Dequeues)
    case Finishes(task) => Finish(s, task)
    case RemoveAllFromQueue => s.(queue := {})
  }

  /** A run: every event can happen when its turn comes. */
  ghost predicate IsRun(s: State, es: seq<Event>)
    decreases |es|
  {
    es != [] ==> CanHappen(s, es[0]) && IsRun(Step(s, es[0]), es[1..])
  }

  /** The states of a run, from the first to the last. */
  ghost function Trace(s: State, es: seq<Event>): (states: seq<State>)
    requires IsRun(s, es)
    ensures |states| == |es| + 1 && states[0] == s
    ensures forall k :: 0 <= k < |es| ==> CanHappen(states[k], es[k])
    decreases |es|
  {
    if es == [] then [s] else [s] + Trace(Step(s, es[0]), es[1..])
  }

  ghost function Run(s: State, es: seq<Event>): State
    requires IsRun(s, es)
    decreases |es|
  {
    if es == [] then s else Run(Step(s, es[0]), es[1..])
  }

  // ---- Errors of queued workflows --------------------------------------------------------------------------

  /** An error is stored, or being stored, or the entry is being dropped. */
  predicate Accounted(s: State, w: string) {
    w in s.errors || Task(w, Registers) in s.tasks || Task(w, Dequeues) in s.tasks
  }

  ghost predicate AllAccounted(s: State) {
    forall w :: w in s.queue ==> Accounted(s, w)
  }

  /** Once no operation on a workflow is pending, that means: if it is queued it has an error. */
  lemma SettledHasError(s: State, w: string)
    requires AllAccounted(s) && w in s.queue && forall rest :: Task(w, rest) !in s.tasks
    ensures w in s.errors
  {
    assert Accounted(s, w);
  }

  /**
    The steps that leave a queued workflow unaccounted for: queueing one whose error was dropped meanwhile, and
    dropping the error of one that was queued meanwhile.
   */
  predicate Loses(s: State, event: Event) {
    match event
    case SavingFails(w) => !Accounted(s, w)
    case Finishes(Task(w, Queues)) => !Accounted(s, w)
    case Finishes(Task(w, Deregisters)) =>
      w in s.queue && Task(w, Registers) !in s.tasks && Task(w, Dequeues) !in s.tasks
    case _ => false
  }

  lemma OthersAccounted(s: State, event: Event, u: string)
    requires CanHappen(s, event) && Accounted(s, u)
    requires event.RemoveAllFromQueue? || u != (if event.Finishes? then event.task.workflowId else event.workflowId)
    ensures Accounted(Step(s, event), u)
  {
  }

  lemma AccountedIff(s: State, event: Event, w: string)
    requires AllAccounted(s) && CanHappen(s, event) && !event.RemoveAllFromQueue?
    requires w == if event.Finishes? then event.task.workflowId else event.workflowId
    ensures (w in Step(s, event).queue ==> Accounted(Step(s, event), w)) <==> !Loses(s, event)
  {
    assert w in s.queue ==> Accounted(s, w);
  }

  lemma AccountedStepIff(s: State, event: Event)
    requires AllAccounted(s) && CanHappen(s, event)
    ensures AllAccounted(Step(s, event)) <==> !Loses(s, event)
  {
    var t := Step(s, event);
    if !event.RemoveAllFromQueue? {
      var w := if event.Finishes? then event.task.workflowId else event.workflowId;
      AccountedIff(s, event, w);
      forall u | u in t.queue && u != w ensures Accounted(t, u) {
        assert u in s.queue;
        OthersAccounted(s, event, u);
      }
    }
  }

  /** Over every interleaving of halves: all queued workflows stay accounted for exactly when no step loses one. */
  lemma {:induction false} AccountedThroughoutIff(s: State, es: seq<Event>)
    requires AllAccounted(s) && IsRun(s, es)
    ensures (forall t :: t in Trace(s, es) ==> AllAccounted(t))
       <==> forall k :: 0 <= k < |es| ==> !Loses(Trace(s, es)[k], es[k])
    decreases |es|
  {
    var states := Trace(s, es);
    if es == [] {
      assert states == [s];
    } else {
      var t := Step(s, es[0]);
      var rest := Trace(t, es[1..]);
      assert states == [s] + rest && rest[0] == t && t in states;
      AccountedStepIff(s, es[0]);
      assert Loses(states[0], es[0]) == Loses(s, es[0]);
      if AllAccounted(t) {
        AccountedThroughoutIff(t, es[1..]);
        assert forall u :: u in states <==> u == s || u in rest;
        assert forall k :: 0 <= k < |es| - 1 ==> states[k + 1] == rest[k] && es[k + 1] == es[1..][k];
        if forall k :: 0 <= k < |es| ==> !Loses(states[k], es[k]) {
          forall k | 0 <= k < |es| - 1 ensures !Loses(rest[k], es[1..][k]) {
            assert !Loses(states[k + 1], es[k + 1]);
          }
        } else {
          var k :| 0 <= k < |es| && Loses(states[k], es[k]);
          assert k > 0 && Loses(rest[k - 1], es[1..][k - 1]);
        }
      }
    }
  }

  // ---- Operations on one workflow that do not overlap ------------------------------------------------------

  /** No operation begins on a workflow while another one on it is pending. */
  predicate Alone(s: State, event: Event) {
    event.Finishes? || event.RemoveAllFromQueue? ||
    forall task :: task in s.tasks ==> task.workflowId != event.workflowId
  }

  /** One task per workflow; an error is stored before queueing and the entry dropped before the error. */
  ghost predicate Orderly(s: State) {
    && (forall task :: task in s.tasks ==> s.tasks[task] == 1)
    && (forall a, b :: a in s.tasks && b in s.tasks && a.workflowId == b.workflowId ==> a == b)
    && (forall w :: Task(w, Queues) in s.tasks ==> w in s.errors)
    && (forall w :: Task(w, Deregisters) in s.tasks ==> w !in s.queue)
  }

  /** Beginning an operation. */
  lemma OrderlyBegin(s: State, t: State, w: string, rest: Rest)
    requires Orderly(s) && forall task :: task in s.tasks ==> task.workflowId != w
    requires t.tasks == s.tasks
    requires forall u :: u != w ==> (u in t.errors <==> u in s.errors) && (u in t.queue <==> u in s.queue)
    requires (rest == Queues ==> w in t.errors) && (rest == Deregisters ==> w !in t.queue)
    ensures Orderly(t) && Orderly(Begin(t, w, rest))
  {
  }

  /** With its one task finished, nothing is pending for a workflow. */
  lemma NothingPending(s: State, task: Task, a: Task)
    requires Orderly(s) && task in s.tasks && a in s.tasks - multiset{task}
    ensures a in s.tasks && a.workflowId != task.workflowId && (s.tasks - multiset{task})[a] == 1
  {
    assert s.tasks[task] == 1;
  }

  lemma OrderlyWithout(s: State, t: State, task: Task)
    requires Orderly(s) && task in s.tasks && t.tasks == s.tasks - multiset{task}
    requires forall u :: u != task.workflowId ==> (u in t.errors <==> u in s.errors) && (u in t.queue <==> u in s.queue)
    ensures Orderly(t)
  {
    forall a | a in t.tasks ensures a in s.tasks && a.workflowId != task.workflowId && t.tasks[a] == 1 {
      NothingPending(s, task, a);
    }
  }

  lemma OrderlyFinish(s: State, task: Task)
    requires Orderly(s) && task in s.tasks
    ensures Orderly(Finish(s, task))
  {
    OrderlyWithout(s, Finish(s, task), task);
  }

  lemma OrderlyStep(s: State, event: Event)
    requires Orderly(s) && CanHappen(s, event) && Alone(s, event)
    ensures Orderly(Step(s, event))
  {
    match event
    case AddFails(w, queues) => OrderlyBegin(s, s.(errors := s.errors + {w}), w, Queues);
    case AddActivates(w) => OrderlyBegin(s, s.(queue := s.queue - {w}), w, Deregisters);
    case TriggerFails(w) => OrderlyBegin(s, s.(queue := s.queue + {w}), w, Registers);
    case SavingFails(w) => OrderlyBegin(s, s.(queue := s.queue + {w}), w, Registers);
    case RemoveDeregisters(w) => OrderlyBegin(s, s.(errors := s.errors - {w}), w, Dequeues);
    case Finishes(task) => OrderlyFinish(s, task);
    case RemoveAllFromQueue =>
  }

  lemma OrderlyLosesIff(s: State, event: Event)
    requires Orderly(s) && CanHappen(s, event) && Alone(s, event)
    ensures Loses(s, event) <==> event.SavingFails? && event.workflowId !in s.errors
  {
  }

  /** Then only a start-up whose last write fails can lose an error, and it does exactly when there is none. */
  lemma {:induction false} AloneThroughoutIff(s: State, es: seq<Event>)
    requires Orderly(s) && AllAccounted(s) && IsRun(s, es) && AllAlone(s, es)
    ensures (forall t :: t in Trace(s, es) ==> AllAccounted(t))
       <==> forall k :: 0 <= k < |es| && es[k].SavingFails? ==> es[k].workflowId in Trace(s, es)[k].errors
  {
    AccountedThroughoutIff(s, es);
    forall k | 0 <= k < |es|
      ensures Loses(Trace(s, es)[k], es[k]) <==> es[k].SavingFails? && es[k].workflowId !in Trace(s, es)[k].errors {
      OrderlyAt(s, es, k);
      OrderlyLosesIff(Trace(s, es)[k], es[k]);
    }
  }

  /** No step of the run begins an operation while another one on the same workflow is pending. */
  ghost predicate AllAlone(s: State, es: seq<Event>)
    requires IsRun(s, es)
  {
    forall k :: 0 <= k < |es| ==> Alone(Trace(s, es)[k], es[k])
  }

  lemma AllAloneLater(s: State, es: seq<Event>)
    requires IsRun(s, es) && es != [] && AllAlone(s, es)
    ensures Alone(s, es[0]) && AllAlone(Step(s, es[0]), es[1..])
  {
    var states, rest := Trace(s, es), Trace(Step(s, es[0]), es[1..]);
    assert states == [s] + rest && Alone(states[0], es[0]);
    forall i | 0 <= i < |es[1..]| ensures Alone(rest[i], es[1..][i]) {
      assert Alone(states[i + 1], es[i + 1]);
    }
  }

  lemma TraceLater(s: State, es: seq<Event>, k: nat)
    requires IsRun(s, es) && 0 < k <= |es|
    ensures Trace(s, es)[k] == Trace(Step(s, es[0]), es[1..])[k - 1]
  {
  }

  lemma {:induction false} OrderlyAt(s: State, es: seq<Event>, k: nat)
    requires Orderly(s) && IsRun(s, es) && k < |es| && AllAlone(s, es)
    ensures Orderly(Trace(s, es)[k])
    decreases k
  {
    if k > 0 {
      AllAloneLater(s, es);
      OrderlyStep(s, es[0]);
      OrderlyAt(Step(s, es[0]), es[1..], k - 1);
      TraceLater(s, es, k);
    }
  }

  // ---- An error that is lost -------------------------------------------------------------------------------

  /** A removal that overtakes a failing start-up. */
  function Overtaken(w: string): seq<Event> {
    [AddFails(w, true), RemoveDeregisters(w), Finishes(Task(w, Dequeues)), Finishes(Task(w, Queues))]
  }

  /** The step begins, continues or cuts short something about `w`. */
  predicate Concerns(event: Event, w: string) {
    match event
    case Finishes(task) => task.workflowId == w
    case RemoveAllFromQueue => true
    case _ => event.workflowId == w
  }

  /** In every state without pending halves on the workflow, that leaves it queued without an error. */
  lemma RemovalOvertakes(s: State, w: string)
    requires forall rest :: Task(w, rest) !in s.tasks
    ensures IsRun(s, Overtaken(w))
    ensures var t := Run(s, Overtaken(w));
            w in t.queue && w !in t.errors && forall rest :: Task(w, rest) !in t.tasks
  {
    var es := Overtaken(w);
    var s1 := Step(s, es[0]);
    var s2 := Step(s1, es[1]);
    var s3 := Step(s2, es[2]);
    var s4 := Step(s3, es[3]);
    assert es[1..][0] == es[1] && es[1..][1..] == es[2..];
    assert es[2..][0] == es[2] && es[2..][1..] == es[3..];
    assert es[3..][0] == es[3] && es[3..][1..] == [];
    assert IsRun(s3, es[3..]) && Run(s3, es[3..]) == s4;
    assert IsRun(s2, es[2..]) && Run(s2, es[2..]) == s4;
    assert IsRun(s1, es[1..]) && Run(s1, es[1..]) == s4;
  }

  /** And it stays so until something else is done with the workflow. */
  lemma {:induction false} LostStays(s: State, es: seq<Event>, w: string)
    requires w in s.queue && w !in s.errors && IsRun(s, es)
    requires forall e :: e in es ==> !Concerns(e, w)
    ensures w in Run(s, es).queue && w !in Run(s, es).errors
    decreases |es|
  {
    if es != [] {
      assert es[0] in es;
      LostStays(Step(s, es[0]), es[1..], w);
    }
  }

  // ---- Whole operations ------------------------------------------------------------------------------------

  ghost function Stores(s: Activation.State): State {
    State(s.errors, s.queue.Keys, multiset{})
  }

  function AddHalves(w: string, mode: Activation.Mode, met: Activation.Encounter, queues: bool): seq<Event> {
    if !Activation.Activates(mode, met) then FailHalves(w, queues)
    else
      [AddActivates(w), Finishes(Task(w, Deregisters))] +
      (if !met.counted then FailHalves(w, queues) else if !met.persisted && queues then [SavingFails(w)] else [])
  }

  function FailHalves(w: string, queues: bool): seq<Event> {
    [AddFails(w, queues)] + if queues then [Finishes(Task(w, Queues))] else []
  }

  /** The halves of one step of the manager, one after the other. */
  ghost function Halves(event: Activation.Event): seq<Event> {
    match event
    case AddWorkflow(w, mode, met) => AddHalves(w, mode, met, false)
    case StartUp(w, mode, met, authorization) => AddHalves(w, mode, met, !authorization)
    case TriggerFails(w, mode, closes) => [TriggerFails(w), Finishes(Task(w, Registers))]
    case RetryStarts(h) => []
    case RetryEnds(retry, met) => AddHalves(retry.workflowId, retry.mode, met, false)
    case RemoveWorkflow(w, clears, closes) => [RemoveDeregisters(w), Finishes(Task(w, Dequeues))]
    case RemoveAllFromQueue => [RemoveAllFromQueue]
    case _ => []
  }

  lemma RunOne(s: State, e: Event)
    requires CanHappen(s, e)
    ensures IsRun(s, [e]) && Run(s, [e]) == Step(s, e)
  {
    assert [e][1..] == [];
  }

  lemma {:induction false} RunConcat(s: State, xs: seq<Event>, ys: seq<Event>)
    requires IsRun(s, xs) && IsRun(Run(s, xs), ys)
    ensures IsRun(s, xs + ys) && Run(s, xs + ys) == Run(Run(s, xs), ys)
    decreases |xs|
  {
    if xs == [] {
      assert xs + ys == ys;
    } else {
      assert (xs + ys)[1..] == xs[1..] + ys;
      RunConcat(Step(s, xs[0]), xs[1..], ys);
    }
  }

  lemma RunTwo(s: State, e: Event, f: Event)
    requires CanHappen(s, e) && CanHappen(Step(s, e), f)
    ensures IsRun(s, [e, f]) && Run(s, [e, f]) == Step(Step(s, e), f)
  {
    RunOne(s, e);
    RunOne(Step(s, e), f);
    RunConcat(s, [e], [f]);
    assert [e] + [f] == [e, f];
  }

  lemma FailHalvesMake(s: State, w: string, queues: bool)
    requires s.tasks == multiset{}
    ensures IsRun(s, FailHalves(w, queues))
    ensures Run(s, FailHalves(w, queues))
         == State(s.errors + {w}, if queues then s.queue + {w} else s.queue, multiset{})
  {
    if queues {
      RunTwo(s, AddFails(w, true), Finishes(Task(w, Queues)));
      assert FailHalves(w, true) == [AddFails(w, true), Finishes(Task(w, Queues))];
    } else {
      RunOne(s, AddFails(w, false));
      assert FailHalves(w, false) == [AddFails(w, false)];
    }
  }

  /** What an activation does to both stores in the end; with `queues` a failure queues the workflow. */
  function AddEnd(s: State, w: string, mode: Activation.Mode, met: Activation.Encounter, queues: bool): State {
    var activates := Activation.Activates(mode, met);
    var failed := !(activates && met.counted && met.persisted);
    var kept := if activates then s.queue - {w} else s.queue;
    State(if activates && met.counted then s.errors - {w} else s.errors + {w},
          if failed && queues then kept + {w} else kept, multiset{})
  }

  lemma ActivateHalvesMake(s: State, w: string)
    requires s.tasks == multiset{}
    ensures var halves := [AddActivates(w), Finishes(Task(w, Deregisters))];
            IsRun(s, halves) && Run(s, halves) == State(s.errors - {w}, s.queue - {w}, multiset{})
  {
    RunTwo(s, AddActivates(w), Finishes(Task(w, Deregisters)));
  }

  lemma AddHalvesMake(s: State, w: string, mode: Activation.Mode, met: Activation.Encounter, queues: bool)
    requires s.tasks == multiset{}
    ensures IsRun(s, AddHalves(w, mode, met, queues))
    ensures Run(s, AddHalves(w, mode, met, queues)) == AddEnd(s, w, mode, met, queues)
  {
    if !Activation.Activates(mode, met) {
      FailHalvesMake(s, w, queues);
    } else {
      var halves, t := [AddActivates(w), Finishes(Task(w, Deregisters))],
          State(s.errors - {w}, s.queue - {w}, multiset{});
      ActivateHalvesMake(s, w);
      if !met.counted {
        FailHalvesMake(t, w, queues);
        RunConcat(s, halves, FailHalves(w, queues));
        assert t.errors + {w} == s.errors + {w};
      } else if !met.persisted && queues {
        RunOne(t, SavingFails(w));
        RunConcat(s, halves, [SavingFails(w)]);
      } else {
        assert halves + [] == halves;
      }
    }
  }

  lemma AddEnds(s: Activation.State, w: string, mode: Activation.Mode, met: Activation.Encounter)
    requires met.Valid()
    ensures Stores(Activation.Add(s, w, mode, met).0) == AddEnd(Stores(s), w, mode, met, false)
  {
    Activation.AddOutcome(s, w, mode, met);
  }

  lemma StartUpEnds(s: Activation.State, w: string, mode: Activation.Mode, met: Activation.Encounter,
                    authorization: bool)
    requires met.Valid()
    ensures Stores(Activation.Step(s, Activation.StartUp(w, mode, met, authorization)))
         == AddEnd(Stores(s), w, mode, met, !authorization)
  {
    Activation.AddOutcome(s, w, mode, met);
  }

  lemma RetryAddEnds(s: Activation.State, retry: Activation.Retry, met: Activation.Encounter)
    requires Activation.CanHappen(s, Activation.RetryEnds(retry, met))
    ensures Stores(Activation.Step(s, Activation.RetryEnds(retry, met)))
         == AddEnd(Stores(s), retry.workflowId, retry.mode, met, false)
  {
    Activation.AddOutcome(s.(attempts := s.attempts - multiset{retry}), retry.workflowId, retry.mode, met);
  }

  lemma TriggerFailsEnds(s: Activation.State, w: string, mode: Activation.Mode, closes: bool)
    ensures Stores(Activation.Step(s, Activation.TriggerFails(w, mode, closes)))
         == State(s.errors + {w}, s.queue.Keys + {w}, multiset{})
  {
  }

  lemma RemoveEnds(s: Activation.State, w: string, clears: bool, closes: bool)
    ensures Stores(Activation.Step(s, Activation.RemoveWorkflow(w, clears, closes)))
         == State(s.errors - {w}, s.queue.Keys - {w}, multiset{})
  {
  }

  /** Halves that follow each other at once make up the step of the manager: nothing else comes between them. */
  lemma HalvesMakeStep(s: Activation.State, event: Activation.Event)
    requires Activation.CanHappen(s, event) && !event.ClearError? && !event.ClearAllErrors?
    ensures IsRun(Stores(s), Halves(event))
    ensures Run(Stores(s), Halves(event)) == Stores(Activation.Step(s, event))
  {
    match event
    case AddWorkflow(w, mode, met) =>
      AddEnds(s, w, mode, met);
      AddHalvesMake(Stores(s), w, mode, met, false);
    case StartUp(w, mode, met, authorization) =>
      StartUpEnds(s, w, mode, met, authorization);
      AddHalvesMake(Stores(s), w, mode, met, !authorization);
    case TriggerFails(w, mode, closes) =>
      TriggerFailsEnds(s, w, mode, closes);
      RunTwo(Stores(s), TriggerFails(w), Finishes(Task(w, Registers)));
    case RetryEnds(retry, met) =>
      RetryAddEnds(s, retry, met);
      AddHalvesMake(Stores(s), retry.workflowId, retry.mode, met, false);
    case RemoveWorkflow(w, clears, closes) =>
      RemoveEnds(s, w, clears, closes);
      RunTwo(Stores(s), RemoveDeregisters(w), Finishes(Task(w, Dequeues)));
    case RemoveAllFromQueue =>
      RunOne(Stores(s), RemoveAllFromQueue);
    case RetryStarts(h) =>
  }
}
