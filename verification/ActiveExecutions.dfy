/**
  The services behind the protocol: the production queue, the control in front of it and the table of running
  executions. Each method is what runs between two awaits, and takes exactly one step of the protocol.
 */
module ActiveExecutions {
  import opened Options
  import opened ExecutionProtocol
  import opened ExecutionTheorems
  import opened ConcurrencyLimit

  /** A queued execution with the call of `add` that its `resolve` wakes up. */
  datatype Waiting = Waiting(executionId: string, call: nat)

  function Calls(queue: seq<Waiting>): seq<nat> {
    seq(|queue|, i requires 0 <= i < |queue| => queue[i].call)
  }

  /** packages/cli/src/concurrency/concurrency-queue.ts */
  class ConcurrencyQueue {
    var capacity: int
    var queue: seq<Waiting>

    constructor (capacity: int)
      ensures this.capacity == capacity && queue == []
    {
      this.capacity, this.queue := capacity, [];
    }

    method Enqueue(executionId: string, call: nat) returns (waits: bool)
      modifies this
      ensures capacity == old(capacity) - 1 && waits == (capacity < 0)
      ensures queue == if waits then old(queue) + [Waiting(executionId, call)] else old(queue)
    {
      capacity := capacity - 1;
      waits := capacity < 0;
      if waits {
        queue := queue + [Waiting(executionId, call)];
      }
    }

    method Dequeue() returns (resolved: Option<Waiting>)
      modifies this
      ensures capacity == old(capacity) + 1
      ensures NextResolved(old(queue), resolved, queue)
    {
      capacity := capacity + 1;
      resolved := ResolveNext();
    }

    method Remove(executionId: string) returns (removed: Option<Waiting>, resolved: Option<Waiting>)
      modifies this
      ensures removed == None ==> capacity == old(capacity) && queue == old(queue) && resolved == None
      ensures removed == None ==> forall i :: 0 <= i < |old(queue)| ==> old(queue)[i].executionId != executionId
      ensures removed.Some? ==> capacity == old(capacity) + 1
      ensures removed.Some? ==> exists i: nat :: Removal(old(queue), executionId, i, removed, resolved, queue)
    {
      var index := 0;
      while index < |queue| && queue[index].executionId != executionId
        invariant 0 <= index <= |queue|
        invariant forall i :: 0 <= i < index ==> queue[i].executionId != executionId
      {
        index := index + 1;
      }
      if index == |queue| {
        return None, None;
      }
      removed := Some(queue[index]);
      queue := Without(queue, index);
      capacity := capacity + 1;
      resolved := ResolveNext();
      assert Removal(old(queue), executionId, index, removed, resolved, queue);
    }

    method ResolveNext() returns (resolved: Option<Waiting>)
      modifies this`queue
      ensures NextResolved(old(queue), resolved, queue)
    {
      if queue == [] {
        return None;
      }
      resolved := Some(queue[0]);
      queue := queue[1..];
    }
  }

  /** The first entry of this id stands at position `i`. */
  predicate RemovedAt(queue: seq<Waiting>, executionId: string, i: nat) {
    && i < |queue| && queue[i].executionId == executionId
    && forall j :: 0 <= j < i ==> queue[j].executionId != executionId
  }

  function Without(queue: seq<Waiting>, i: nat): seq<Waiting>
    requires i < |queue|
  {
    queue[..i] + queue[i + 1..]
  }

  predicate SameIds(before: seq<Call>, after: seq<Call>) {
    |before| == |after| && forall n :: 0 <= n < |before| ==> before[n].id == after[n].id
  }

  /** Every entry names the id of its call. */
  predicate Labelled(queue: seq<Waiting>, calls: seq<Call>) {
    forall i :: 0 <= i < |queue| ==> queue[i].call < |calls| && queue[i].executionId == calls[queue[i].call].id
  }

  /** The head of `queue`, if there is one, is resolved; `rest` remains. */
  predicate NextResolved(queue: seq<Waiting>, resolved: Option<Waiting>, rest: seq<Waiting>) {
    if queue == [] then resolved == None && rest == [] else resolved == Some(queue[0]) && rest == queue[1..]
  }

  /** The first entry of the id, at position `i`, is removed, and the head of what is left resolved. */
  predicate Removal(queue: seq<Waiting>, executionId: string, i: nat, removed: Option<Waiting>,
                    resolved: Option<Waiting>, rest: seq<Waiting>) {
    && RemovedAt(queue, executionId, i) && removed == Some(queue[i])
    && NextResolved(Without(queue, i), resolved, rest)
  }

  /** packages/cli/src/active-executions.ts with packages/cli/src/concurrency/concurrency-control.service.ts */
  class ActiveExecutions {
    var activeExecutions: map<string, nat>
    /** The suspended calls of `add` with the promises they made. */
    var calls: seq<Call>
    var isEnabled: bool
    const productionQueue: ConcurrencyQueue
    /** How often `throttle` has let a call through and `release` was called. */
    var throttles: nat
    var releases: nat

    ghost function View(): State
      reads this, productionQueue
    {
      State(calls, activeExecutions, isEnabled, productionQueue.capacity, Calls(productionQueue.queue),
            throttles, releases)
    }

    ghost predicate Valid()
      reads this, productionQueue
    {
      && ExecutionProtocol.Valid(View())
      && Labelled(productionQueue.queue, calls)
    }

    constructor (limit: nat)
      ensures Valid() && fresh(productionQueue) && View() == Initial(limit)
    {
      activeExecutions, calls, isEnabled, throttles, releases := map[], [], limit > 0, 0, 0;
      productionQueue := new ConcurrencyQueue(limit);
      new;
      InitialIsValid(limit);
      assert View() == Initial(limit);
    }

    // ---- add, piece by piece -------------------------------------------------------------------------------

    method Begin(executionId: string, mode: Mode) returns (call: nat)
      requires Valid()
      modifies this
      ensures Valid() && View() == Step(old(View()), ExecutionProtocol.Begin(executionId, mode)) && call == |old(calls)|
    {
      StepKeeps(View(), ExecutionProtocol.Begin(executionId, mode));
      call := |calls|;
      calls := calls + [Call(executionId, mode, Begun)];
    }

    method Throttle(call: nat)
      requires Valid() && At(View(), call, Begun)
      modifies this, productionQueue
      ensures Valid() && View() == Step(old(View()), ExecutionProtocol.Throttle(call))
    {
      StepKeeps(View(), ExecutionProtocol.Throttle(call));
      if isEnabled && Limited(calls[call].mode) {
        var waits := productionQueue.Enqueue(calls[call].id, call);
        if waits {
          calls := calls[call := calls[call].(phase := Queued)];
          assert Calls(productionQueue.queue) == Calls(old(productionQueue.queue)) + [call];
          return;
        }
      }
      Admit(call);
    }

    /** `throttle` returns to a suspended call. */
    method Admit(call: nat)
      requires call < |calls|
      modifies this`calls, this`throttles
      ensures View() == ExecutionProtocol.Admit(old(View()), call)
    {
      calls := calls[call := calls[call].(phase := Admitted)];
      throttles := throttles + 1;
    }

    method Install(call: nat)
      requires Valid() && At(View(), call, Admitted)
      modifies this
      ensures Valid() && View() == Step(old(View()), ExecutionProtocol.Install(call))
    {
      StepKeeps(View(), ExecutionProtocol.Install(call));
      calls := calls[call := calls[call].(phase := Live)];
      activeExecutions := activeExecutions[calls[call].id := call];
    }

    /** A storage call of `add` rejects; the call ends. */
    method StorageFails(call: nat)
      requires Valid() && (At(View(), call, Begun) || At(View(), call, Admitted))
      modifies this
      ensures Valid()
      ensures View() == Step(old(View()),
        if old(calls)[call].phase.Begun? then ExecutionProtocol.CreateFails(call)
        else ExecutionProtocol.StorageFails(call))
    {
      StepKeeps(View(), ExecutionProtocol.CreateFails(call));
      StepKeeps(View(), ExecutionProtocol.StorageFails(call));
      calls := calls[call := calls[call].(phase := if calls[call].phase.Begun? then Gone else Lost)];
    }

    // ---- Ending an execution -------------------------------------------------------------------------------

    method StopExecution(executionId: string)
      requires Valid()
      modifies this`calls
      ensures Valid() && View() == Step(old(View()), Stop(executionId))
    {
      StepKeeps(View(), Stop(executionId));
      if executionId !in activeExecutions {
        return;
      }
      SettlePromise(activeExecutions[executionId], Cancelled);
    }

    /** `found` is false where the program throws that there is no such execution. */
    method FinalizeExecution(executionId: string) returns (found: bool)
      requires Valid()
      modifies this`calls
      ensures Valid() && View() == Step(old(View()), Finalize(executionId))
      ensures found == (executionId in activeExecutions)
    {
      StepKeeps(View(), Finalize(executionId));
      found := executionId in activeExecutions;
      if found {
        SettlePromise(activeExecutions[executionId], Finished);
      }
    }

    method SettlePromise(call: nat, outcome: Outcome)
      modifies this`calls
      ensures View() == Settle(old(View()), call, outcome)
    {
      if call < |calls| && calls[call].phase == Live {
        calls := calls[call := calls[call].(phase := Settled(outcome))];
      }
    }

    /** The `finally` handler of a settled promise: capacity is released, then the entry of the id is deleted. */
    method OnSettled(call: nat)
      requires Valid() && call < |calls| && calls[call].phase.Settled?
      modifies this, productionQueue
      ensures Valid() && View() == Step(old(View()), Cleanup(call))
    {
      ghost var before := View();
      StepKeeps(before, Cleanup(call));
      QueueIsQueued(before);
      var ended := calls[call];
      calls := calls[call := ended.(phase := Done(ended.phase.outcome))];
      Release(ended.mode);
      activeExecutions := activeExecutions - {ended.id};
    }

    method Release(mode: Mode)
      requires Labelled(productionQueue.queue, calls)
      modifies this`calls, this`throttles, this`releases, productionQueue
      ensures View() == ExecutionProtocol.Release(old(View()), mode)
      ensures SameIds(old(calls), calls)
      ensures productionQueue.queue == old(productionQueue.queue)
        || (old(productionQueue.queue) != [] && productionQueue.queue == old(productionQueue.queue)[1..])
    {
      releases := releases + 1;
      if !isEnabled || !Limited(mode) {
        return;
      }
      var resolved := productionQueue.Dequeue();
      if resolved.Some? {
        assert Calls(old(productionQueue.queue))[1..] == Calls(productionQueue.queue);
        Admit(resolved.value.call);
      }
    }

    /** Stopping an execution that waits in the production queue. */
    method RemoveFromQueue(executionId: string, mode: Mode)
      requires Valid()
      modifies this, productionQueue
      ensures Valid() && View() == Step(old(View()), RemoveQueued(executionId, mode))
    {
      RemoveKeeps(View(), executionId);
      RemoveWaiting(executionId, mode);
    }

    method RemoveWaiting(executionId: string, mode: Mode)
      requires Labelled(productionQueue.queue, calls)
      modifies this`calls, this`throttles, productionQueue
      ensures Labelled(productionQueue.queue, calls)
      ensures View() == if Limited(mode) then DoRemove(old(View()), executionId) else old(View())
    {
      if isEnabled && Limited(mode) {
        var removed, resolved := productionQueue.Remove(executionId);
        RemovalIsStep(old(View()), View(), old(productionQueue.queue), executionId, removed, resolved,
                      productionQueue.queue);
        if removed.Some? {
          DropAndAdmit(removed.value, resolved);
        }
      }
    }

    /** The removed call never resumes; the resolved one does. */
    method DropAndAdmit(removed: Waiting, resolved: Option<Waiting>)
      requires removed.call < |calls| && (resolved.Some? ==> resolved.value.call < |calls|)
      modifies this`calls, this`throttles
      ensures View() == DroppedAndAdmitted(old(View()), removed, resolved)
      ensures SameIds(old(calls), calls)
    {
      calls := calls[removed.call := calls[removed.call].(phase := Gone)];
      if resolved.Some? {
        Admit(resolved.value.call);
      }
    }

    // ---- Shutting down -------------------------------------------------------------------------------------

    method DisableControl()
      requires Valid()
      modifies this`isEnabled
      ensures Valid() && View() == Step(old(View()), Disable)
    {
      isEnabled := false;
    }

    /** What other code does while a method is suspended: any steps. */
    method Interleave(events: seq<Event>)
      requires Valid()
      modifies this, productionQueue
      ensures Valid() && View() == Run(old(View()), events)
    {
      var i := 0;
      while i < |events|
        invariant 0 <= i <= |events|
        invariant Valid() && Run(View(), events[i..]) == Run(old(View()), events)
      {
        assert events[i..][0] == events[i] && events[i..][1..] == events[i + 1..];
        Dispatch(events[i]);
        i := i + 1;
      }
      assert events[|events|..] == [];
    }

    method Dispatch(event: Event)
      requires Valid()
      modifies this, productionQueue
      ensures Valid() && View() == Step(old(View()), event)
    {
      match event
      case Begin(id, mode) =>
        var _ := Begin(id, mode);
      case CreateFails(n) =>
        if n < |calls| && calls[n].phase == Begun {
          StorageFails(n);
        }
      case Throttle(n) =>
        if n < |calls| && calls[n].phase == Begun {
          Throttle(n);
        }
      case StorageFails(n) =>
        if n < |calls| && calls[n].phase == Admitted {
          StorageFails(n);
        }
      case Install(n) =>
        if n < |calls| && calls[n].phase == Admitted {
          Install(n);
        }
      case Stop(id) => StopExecution(id);
      case Finalize(id) =>
        var _ := FinalizeExecution(id);
      case Cleanup(n) =>
        if n < |calls| && calls[n].phase.Settled? {
          OnSettled(n);
        }
      case RemoveQueued(id, mode) => RemoveFromQueue(id, mode);
      case Disable => DisableControl();
    }

    /**
      `executionIds` is the enumeration of the table on entry, `meanwhile` what happens while the queue is being
      emptied, and `rounds` what happens during each wait of half a second. `returned` is false while the wait lasts.
     */
    method Shutdown(cancelAll: bool, executionIds: seq<string>, meanwhile: seq<Event>, rounds: seq<seq<Event>>)
      returns (returned: bool, waited: nat)
      requires Valid()
      requires Lists(executionIds, View())
      modifies this, productionQueue
      ensures Valid()
      ensures (View(), returned, waited) == ShuttingDown(old(View()), cancelAll, executionIds, meanwhile, rounds)
      ensures returned && old(activeExecutions) != map[] ==> activeExecutions == map[]
      ensures old(activeExecutions) == map[] ==> returned && waited == 0
      ensures !returned ==> waited == |rounds| && (waited > 0 ==> activeExecutions != map[])
    {
      Cancel(cancelAll, executionIds, meanwhile);
      ListsNone(executionIds, old(View()));
      WaitEnds(View(), |executionIds|, rounds);
      returned, waited := WaitForTable(|executionIds|, rounds);
    }

    /** The wait loop; `count` is the number of entries seen last. */
    method WaitForTable(count: nat, rounds: seq<seq<Event>>) returns (returned: bool, waited: nat)
      requires Valid()
      modifies this, productionQueue
      ensures Valid() && (View(), returned, waited) == WaitRounds(old(View()), count, rounds)
    {
      var remaining: nat := count;
      waited := 0;
      while remaining != 0 && waited < |rounds|
        invariant 0 <= waited <= |rounds| && Valid()
        invariant WaitRounds(old(View()), count, rounds)
               == Later(WaitRounds(View(), remaining, rounds[waited..]), waited)
        decreases |rounds| - waited
      {
        ghost var todo := rounds[waited..];
        assert todo[0] == rounds[waited] && todo[1..] == rounds[waited + 1..];
        NextRound(View(), remaining, todo);
        Interleave(rounds[waited]);
        remaining := |activeExecutions.Keys|;
        LaterTwice(WaitRounds(View(), remaining, rounds[waited + 1..]), waited);
        waited := waited + 1;
      }
      returned := remaining == 0;
    }

    /** Up to the wait. */
    method Cancel(cancelAll: bool, executionIds: seq<string>, meanwhile: seq<Event>)
      requires Valid()
      modifies this, productionQueue
      ensures Valid() && View() == Cancelling(old(View()), cancelAll, executionIds, meanwhile)
    {
      DisableControl();
      if cancelAll {
        // with the control disabled, removing all queued executions does nothing but suspend
        Interleave(meanwhile);
        StopEach(executionIds);
      }
    }

    method StopEach(executionIds: seq<string>)
      requires Valid()
      modifies this`calls
      ensures Valid() && View() == StopAll(old(View()), executionIds)
    {
      var i := 0;
      while i < |executionIds|
        invariant 0 <= i <= |executionIds|
        invariant Valid() && StopAll(View(), executionIds[i..]) == StopAll(old(View()), executionIds)
      {
        assert executionIds[i..][0] == executionIds[i] && executionIds[i..][1..] == executionIds[i + 1..];
        StopExecution(executionIds[i]);
        i := i + 1;
      }
      assert executionIds[|executionIds|..] == [];
    }
  }

  // ---- Positions in the queue ------------------------------------------------------------------------------

  lemma FirstQueuedAt(s: State, queue: seq<Waiting>, executionId: string, i: nat)
    requires s.queue == Calls(queue)
    requires Labelled(queue, s.calls)
    requires RemovedAt(queue, executionId, i)
    ensures Position(s, executionId, 0) == i
  {
    var k := Position(s, executionId, 0);
    assert s.queue[i] == queue[i].call;
    assert forall j :: 0 <= j < |queue| ==> s.queue[j] == queue[j].call;
  }

  function DroppedAndAdmitted(s: State, removed: Waiting, resolved: Option<Waiting>): State
    requires removed.call < |s.calls| && (resolved.Some? ==> resolved.value.call < |s.calls|)
  {
    var gone := Move(s, removed.call, Gone);
    if resolved.Some? then ExecutionProtocol.Admit(gone, resolved.value.call) else gone
  }

  /** What a removal does to queue and calls is the step of the protocol. */
  lemma RemovalIsStep(s: State, shortened: State, queue: seq<Waiting>, executionId: string, removed: Option<Waiting>,
                      resolved: Option<Waiting>, rest: seq<Waiting>)
    requires s.queue == Calls(queue) && s.enabled && Labelled(queue, s.calls)
    requires shortened == s.(queue := Calls(rest), capacity := if removed.Some? then s.capacity + 1 else s.capacity)
    requires removed == None ==> rest == queue && forall j :: 0 <= j < |queue| ==> queue[j].executionId != executionId
    requires removed.Some? ==> exists i: nat :: Removal(queue, executionId, i, removed, resolved, rest)
    ensures removed == None ==> DoRemove(s, executionId) == shortened
    ensures removed.Some? ==>
      && removed.value.call < |s.calls| && (resolved.Some? ==> resolved.value.call < |s.calls|)
      && Labelled(rest, s.calls)
      && DoRemove(s, executionId) == DroppedAndAdmitted(shortened, removed.value, resolved)
  {
    if removed == None {
      NowhereQueued(s, queue, executionId);
    } else {
      var i: nat :| Removal(queue, executionId, i, removed, resolved, rest);
      FirstQueuedAt(s, queue, executionId, i);
      assert s.queue[i] == removed.value.call;
      CallsWithout(queue, i);
      LabelledWithout(queue, s.calls, i);
      CallsTail(Without(queue, i));
    }
  }

  lemma CallsWithout(queue: seq<Waiting>, i: nat)
    requires i < |queue|
    ensures Calls(Without(queue, i)) == Calls(queue)[..i] + Calls(queue)[i + 1..]
  {
  }

  lemma CallsTail(queue: seq<Waiting>)
    ensures queue != [] ==> Calls(queue)[0] == queue[0].call && Calls(queue)[1..] == Calls(queue[1..])
  {
  }

  lemma LabelledWithout(queue: seq<Waiting>, calls: seq<Call>, i: nat)
    requires i < |queue| && Labelled(queue, calls)
    ensures Labelled(Without(queue, i), calls)
  {
  }

  lemma NowhereQueued(s: State, queue: seq<Waiting>, executionId: string)
    requires s.queue == Calls(queue)
    requires Labelled(queue, s.calls)
    requires forall j :: 0 <= j < |queue| ==> queue[j].executionId != executionId
    ensures Position(s, executionId, 0) == |s.queue|
  {
    assert forall j :: 0 <= j < |queue| ==> s.queue[j] == queue[j].call;
  }

  // ---- Shutting down, as a function ------------------------------------------------------------------------

  /** Up to the wait: control off, then with `cancelAll` a suspension and the cancel loop. */
  function Cancelling(s: State, cancelAll: bool, executionIds: seq<string>, meanwhile: seq<Event>): State {
    var off := Step(s, Disable);
    if cancelAll then StopAll(Run(off, meanwhile), executionIds) else off
  }

  /** The enumeration of the table. */
  ghost predicate Lists(executionIds: seq<string>, s: State) {
    forall id :: id in executionIds <==> id in s.table
  }

  lemma ListsNone(executionIds: seq<string>, s: State)
    requires Lists(executionIds, s)
    ensures executionIds == [] <==> s.table == map[]
  {
    if executionIds != [] {
      assert executionIds[0] in s.table;
    } else {
      assert forall id :: id !in s.table;
    }
  }

  /** The wait: the state when it ends or the rounds do, whether it ended, and the number of rounds waited. */
  function WaitRounds(s: State, remaining: nat, rounds: seq<seq<Event>>): (State, bool, nat)
    decreases |rounds|
  {
    if remaining == 0 then (s, true, 0)
    else if rounds == [] then (s, false, 0)
    else
      var t := Run(s, rounds[0]);
      Later(WaitRounds(t, |t.table.Keys|, rounds[1..]), 1)
  }

  /** The outcome of a wait after `n` rounds more. */
  function Later(outcome: (State, bool, nat), n: nat): (State, bool, nat) {
    (outcome.0, outcome.1, outcome.2 + n)
  }

  function ShuttingDown(s: State, cancelAll: bool, executionIds: seq<string>, meanwhile: seq<Event>,
                        rounds: seq<seq<Event>>):
    (State, bool, nat)
  {
    WaitRounds(Cancelling(s, cancelAll, executionIds, meanwhile), |executionIds|, rounds)
  }

  lemma LaterTwice(outcome: (State, bool, nat), n: nat)
    ensures Later(Later(outcome, 1), n) == Later(outcome, n + 1)
  {
  }

  lemma NextRound(s: State, remaining: nat, todo: seq<seq<Event>>)
    requires remaining != 0 && todo != []
    ensures WaitRounds(s, remaining, todo)
         == Later(WaitRounds(Run(s, todo[0]), |Run(s, todo[0]).table.Keys|, todo[1..]), 1)
  {
  }

  /** A wait that ends after some round ends with an empty table, and one that lasts has just seen an entry. */
  lemma {:induction false} WaitEnds(s: State, remaining: nat, rounds: seq<seq<Event>>)
    ensures var (end, returned, waited) := WaitRounds(s, remaining, rounds);
            && (remaining == 0 ==> returned && waited == 0 && end == s)
            && (returned && remaining != 0 ==> end.table == map[])
            && (!returned ==> waited == |rounds| && (waited > 0 ==> end.table != map[]))
    decreases |rounds|
  {
    if remaining != 0 && rounds != [] {
      var t := Run(s, rounds[0]);
      WaitEnds(t, |t.table.Keys|, rounds[1..]);
      assert |t.table.Keys| == 0 <==> t.table == map[];
    }
  }

  /** No step of the run installs over an entry. */
  ghost predicate InstallsFree(s: State, es: seq<Event>)
    decreases |es|
  {
    es != [] ==> InstallFree(s, es[0]) && InstallsFree(Step(s, es[0]), es[1..])
  }

  lemma {:induction false} RunKeepsRecorded(s: State, es: seq<Event>)
    requires Valid(s) && AllRecorded(s) && InstallsFree(s, es)
    ensures Valid(Run(s, es)) && AllRecorded(Run(s, es))
    decreases |es|
  {
    if es != [] {
      StepKeeps(s, es[0]);
      RecordedStep(s, es[0]);
      RunKeepsRecorded(Step(s, es[0]), es[1..]);
    }
  }

  /** An installed call stays installed: pending, or with an outcome. */
  lemma {:induction false} InstalledStays(s: State, es: seq<Event>, n: nat)
    requires Valid(s) && n < |s.calls| && (Is(s.calls[n], IsActive) || s.calls[n].phase.Done?)
    ensures var t := Run(s, es);
            && n < |t.calls| && t.calls[n].id == s.calls[n].id
            && (At(t, n, Live) || HasOutcome(t, n, Cancelled) || HasOutcome(t, n, Finished))
    decreases |es|
  {
    if es != [] {
      StepKeeps(s, es[0]);
      if !es[0].Begin? {
        StepMoves(s, es[0]);
      }
      InstalledStays(Step(s, es[0]), es[1..], n);
    } else if !At(s, n, Live) {
      var outcome := s.calls[n].phase.outcome;
      assert HasOutcome(s, n, outcome) && (outcome == Cancelled || outcome == Finished);
    }
  }

  /**
    With `cancelAll`, before the wait starts, every execution of the initial enumeration is settled: cancelled, unless
    it was settled before. The suspension may bring any steps that do not install over an entry.
   */
  lemma CancelAllSettles(s: State, executionIds: seq<string>, meanwhile: seq<Event>, id: string)
    requires Valid(s) && AllRecorded(s) && id in executionIds && id in s.table
    requires InstallsFree(Step(s, Disable), meanwhile)
    ensures var n := s.table[id];
            var paused, cancelled := Run(Step(s, Disable), meanwhile), Cancelling(s, true, executionIds, meanwhile);
            && (HasOutcome(cancelled, n, Cancelled) || HasOutcome(cancelled, n, Finished))
            && (HasOutcome(cancelled, n, Finished) ==> HasOutcome(paused, n, Finished))
  {
    var off := Step(s, Disable);
    var paused := Run(off, meanwhile);
    var n := s.table[id];
    StepKeeps(s, Disable);
    assert AllRecorded(off) by {
      forall m: nat | m < |off.calls| && Is(off.calls[m], IsActive) ensures IsRecorded(off, m) {
        assert IsRecorded(s, m);
      }
    }
    RunKeepsRecorded(off, meanwhile);
    InstalledStays(off, meanwhile, n);
    StopAllSettles(paused, executionIds);
    if At(paused, n, Live) {
      assert IsRecorded(paused, n);
      assert HasOutcome(StopAll(paused, executionIds), n, Cancelled);
    }
  }

  /** An execution begins, is throttled and installed. */
  function AddOne(s: State, id: string): seq<Event> {
    [Begin(id, Manual), Throttle(|s.calls|), Install(|s.calls|)]
  }

  lemma AddOneInstalls(s: State, id: string)
    requires Valid(s)
    ensures var t := Run(Step(s, Disable), AddOne(s, id));
            t.table == s.table[id := |s.calls|] && At(t, |s.calls|, Live)
  {
    var off, es := Step(s, Disable), AddOne(s, id);
    var begun := Step(off, es[0]);
    var admitted := Step(begun, es[1]);
    assert es[1..][0] == es[1] && es[1..][1..] == [es[2]] && [es[2]][1..] == [];
    assert Run(off, es) == Run(begun, es[1..]) == Run(admitted, [es[2]]) == Run(Step(admitted, es[2]), []);
    assert At(admitted, |s.calls|, Admitted) && admitted.table == s.table;
  }

  /**
    A shutdown that returns leaves an empty table, whatever happens in its suspensions, exactly when the table was not
    empty at first or nothing is cancelled.
   */
  lemma ShutdownEmptiesIff(s: State, cancelAll: bool)
    requires Valid(s)
    ensures (forall executionIds, meanwhile, rounds ::
               Lists(executionIds, s) && ShuttingDown(s, cancelAll, executionIds, meanwhile, rounds).1 ==>
                 ShuttingDown(s, cancelAll, executionIds, meanwhile, rounds).0.table == map[])
       <==> s.table != map[] || !cancelAll
  {
    if s.table != map[] || !cancelAll {
      forall executionIds, meanwhile, rounds |
        Lists(executionIds, s) && ShuttingDown(s, cancelAll, executionIds, meanwhile, rounds).1
        ensures ShuttingDown(s, cancelAll, executionIds, meanwhile, rounds).0.table == map[] {
        ListsNone(executionIds, s);
        WaitEnds(Cancelling(s, cancelAll, executionIds, meanwhile), |executionIds|, rounds);
      }
    } else {
      // the wait is skipped, although the suspension installs an entry
      AddOneInstalls(s, "");
      var end := ShuttingDown(s, true, [], AddOne(s, ""), []);
      assert Lists([], s) && end.1 && "" in end.0.table;
    }
  }

  // ---- What is cancelled -----------------------------------------------------------------------------------

  ghost predicate NoStopsIn(rounds: seq<seq<Event>>) {
    forall i :: 0 <= i < |rounds| ==> NoStops(rounds[i])
  }

  lemma {:induction false} WaitCancelsNone(s: State, remaining: nat, rounds: seq<seq<Event>>, n: nat)
    requires Valid(s) && NoStopsIn(rounds) && HasOutcome(WaitRounds(s, remaining, rounds).0, n, Cancelled)
    ensures HasOutcome(s, n, Cancelled)
    decreases |rounds|
  {
    if remaining != 0 && rounds != [] {
      var t := Run(s, rounds[0]);
      assert NoStops(rounds[0]) && forall i :: 0 <= i < |rounds| - 1 ==> rounds[1..][i] == rounds[i + 1];
      RunKeeps(s, rounds[0]);
      WaitCancelsNone(t, |t.table.Keys|, rounds[1..], n);
      NoStopNoCancel(s, rounds[0], n);
    }
  }

  lemma {:induction false} Enumeration(ids: set<string>) returns (list: seq<string>)
    ensures forall id :: id in list <==> id in ids
    decreases |ids|
  {
    list := [];
    if id :| id in ids {
      var rest := Enumeration(ids - {id});
      list := [id] + rest;
    }
  }

  /** With `cancelAll`, whatever is installed under an enumerated id meanwhile is cancelled. */
  lemma CancelsInstalled(s: State, id: string, executionIds: seq<string>)
    requires Valid(s) && id in executionIds
    ensures HasOutcome(Cancelling(s, true, executionIds, AddOne(s, id)), |s.calls|, Cancelled)
  {
    var off := Step(s, Disable);
    var paused := Run(off, AddOne(s, id));
    StepKeeps(s, Disable);
    RunKeeps(off, AddOne(s, id));
    AddOneInstalls(s, id);
    StopAllSettles(paused, executionIds);
  }

  /**
    Shutting down cancels nothing of its own, whatever happens meanwhile as long as nothing else stops executions,
    exactly when `cancelAll` is off or the table was empty.
   */
  lemma ShutdownCancelsNoneIff(s: State, cancelAll: bool)
    requires Valid(s)
    ensures (forall executionIds, meanwhile, rounds, n ::
               Lists(executionIds, s) && NoStops(meanwhile) && NoStopsIn(rounds)
               && HasOutcome(ShuttingDown(s, cancelAll, executionIds, meanwhile, rounds).0, n, Cancelled) ==>
                 HasOutcome(s, n, Cancelled))
       <==> !cancelAll || s.table == map[]
  {
    if !cancelAll || s.table == map[] {
      forall executionIds, meanwhile, rounds, n |
        Lists(executionIds, s) && NoStops(meanwhile) && NoStopsIn(rounds)
        && HasOutcome(ShuttingDown(s, cancelAll, executionIds, meanwhile, rounds).0, n, Cancelled)
        ensures HasOutcome(s, n, Cancelled) {
        ShutdownCancelsNone(s, cancelAll, executionIds, meanwhile, rounds, n);
      }
    } else {
      var id :| id in s.table;
      var executionIds := Enumeration(s.table.Keys);
      CancelsInstalled(s, id, executionIds);
      var n, end := |s.calls|, ShuttingDown(s, true, executionIds, AddOne(s, id), []);
      assert Lists(executionIds, s) && NoStops(AddOne(s, id)) && NoStopsIn([]) && |executionIds| > 0;
      assert HasOutcome(end.0, n, Cancelled) && !HasOutcome(s, n, Cancelled);
    }
  }

  lemma ShutdownCancelsNone(s: State, cancelAll: bool, executionIds: seq<string>, meanwhile: seq<Event>,
                            rounds: seq<seq<Event>>, n: nat)
    requires Valid(s) && (!cancelAll || s.table == map[])
    requires Lists(executionIds, s) && NoStops(meanwhile) && NoStopsIn(rounds)
    requires HasOutcome(ShuttingDown(s, cancelAll, executionIds, meanwhile, rounds).0, n, Cancelled)
    ensures HasOutcome(s, n, Cancelled)
  {
    var off := Step(s, Disable);
    StepKeeps(s, Disable);
    ListsNone(executionIds, s);
    RunKeeps(off, meanwhile);
    var t := Cancelling(s, cancelAll, executionIds, meanwhile);
    WaitCancelsNone(t, |executionIds|, rounds, n);
    if cancelAll {
      assert t == Run(off, meanwhile);
      NoStopNoCancel(off, meanwhile, n);
    }
  }

  // ---- What goes on waiting --------------------------------------------------------------------------------

  lemma {:induction false} StopAllKeepsQueue(s: State, executionIds: seq<string>)
    ensures var t := StopAll(s, executionIds);
            t.queue == s.queue && t.enabled == s.enabled && t.capacity == s.capacity
    decreases |executionIds|
  {
    if executionIds != [] {
      StopAllKeepsQueue(Step(s, Stop(executionIds[0])), executionIds[1..]);
    }
  }

  lemma {:induction false} WaitKeepsQueue(s: State, remaining: nat, rounds: seq<seq<Event>>)
    requires Valid(s) && !s.enabled
    ensures var end := WaitRounds(s, remaining, rounds).0;
            end.queue == s.queue && !end.enabled && end.capacity == s.capacity
    decreases |rounds|
  {
    if remaining != 0 && rounds != [] {
      RunKeeps(s, rounds[0]);
      DisabledFreezesQueue(s, rounds[0]);
      WaitKeepsQueue(Run(s, rounds[0]), |Run(s, rounds[0]).table.Keys|, rounds[1..]);
    }
  }

  /** With or without `cancelAll`, every waiting execution goes on waiting and no capacity is given back. */
  lemma ShutdownKeepsQueue(s: State, cancelAll: bool, executionIds: seq<string>, meanwhile: seq<Event>,
                           rounds: seq<seq<Event>>)
    requires Valid(s)
    ensures var end := ShuttingDown(s, cancelAll, executionIds, meanwhile, rounds).0;
            end.queue == s.queue && !end.enabled && end.capacity == s.capacity
  {
    var off := Step(s, Disable);
    StepKeeps(s, Disable);
    RunKeeps(off, meanwhile);
    DisabledFreezesQueue(off, meanwhile);
    StopAllKeepsQueue(Run(off, meanwhile), executionIds);
    StopAllSettles(Run(off, meanwhile), executionIds);
    WaitKeepsQueue(Cancelling(s, cancelAll, executionIds, meanwhile), |executionIds|, rounds);
  }

  // ---- The wait ends ---------------------------------------------------------------------------------------

  ghost predicate NoInstalls(es: seq<Event>) {
    forall e :: e in es ==> !e.Install?
  }

  /** As long as there are entries, each round cleans one of them up. */
  ghost predicate Cleaning(s: State, rounds: seq<seq<Event>>)
    decreases |rounds|
  {
    rounds != [] && s.table != map[] ==>
      && (exists id :: id in s.table && Cleanup(s.table[id]) in rounds[0])
      && Cleaning(Run(s, rounds[0]), rounds[1..])
  }

  lemma KeysShrink(before: map<string, nat>, after: map<string, nat>)
    requires forall id :: id in after ==> id in before
    ensures |after.Keys| <= |before.Keys|
    ensures (exists id :: id in before && id !in after) ==> |after.Keys| < |before.Keys|
    decreases |before.Keys|
  {
    var rest := before.Keys - after.Keys;
    assert before.Keys == after.Keys + rest;
    assert |before.Keys| == |after.Keys| + |rest|;
    if id :| id in before && id !in after {
      assert id in rest;
    }
  }

  /** Settled entries and no installs: the wait ends within as many rounds as there are entries, or one. */
  lemma {:induction false} WaitReturns(s: State, remaining: nat, rounds: seq<seq<Event>>)
    requires Valid(s) && Draining(s) && Cleaning(s, rounds) && remaining > 0
    requires forall i :: 0 <= i < |rounds| ==> NoInstalls(rounds[i])
    requires |rounds| >= |s.table.Keys| && |rounds| >= 1
    ensures var (end, returned, waited) := WaitRounds(s, remaining, rounds);
            returned && end.table == map[] && (waited <= |s.table.Keys| || waited == 1)
    decreases |rounds|
  {
    var t := Run(s, rounds[0]);
    RunDrains(s, rounds[0]);
    KeysShrink(s.table, t.table);
    if t.table == map[] {
      assert |t.table.Keys| == 0;
    } else {
      var u :| u in t.table;
      assert u in s.table;
      var id :| id in s.table && Cleanup(s.table[id]) in rounds[0];
      assert |t.table.Keys| < |s.table.Keys|;
      assert u in t.table.Keys;
      forall i | 0 <= i < |rounds[1..]| ensures NoInstalls(rounds[1..][i]) {
        assert rounds[1..][i] == rounds[i + 1];
      }
      WaitReturns(t, |t.table.Keys|, rounds[1..]);
    }
  }

  /** The cancel loop settles every entry there is, if none was installed after the enumeration. */
  lemma CancellingDrains(s: State, executionIds: seq<string>, meanwhile: seq<Event>)
    requires Valid(s) && Lists(executionIds, s) && NoInstalls(meanwhile)
    ensures var t := Cancelling(s, true, executionIds, meanwhile);
            && Valid(t) && Draining(t)
            && forall id :: id in t.table ==> id in s.table
  {
    var off := Step(s, Disable);
    StepKeeps(s, Disable);
    NoInstallNoEntry(off, meanwhile);
    StopAllSettles(Run(off, meanwhile), executionIds);
  }

  /**
    With `cancelAll`, without installs after the enumeration, and with rounds that each clean up an entry as long as
    there is one, shutting down returns: after at most as many rounds as there were entries, with an empty table.
   */
  lemma ShutdownReturns(s: State, executionIds: seq<string>, meanwhile: seq<Event>, rounds: seq<seq<Event>>)
    requires Valid(s) && Lists(executionIds, s) && NoInstalls(meanwhile)
    requires forall i :: 0 <= i < |rounds| ==> NoInstalls(rounds[i])
    requires Cleaning(Cancelling(s, true, executionIds, meanwhile), rounds) && |rounds| >= |s.table.Keys|
    ensures var (end, returned, waited) := ShuttingDown(s, true, executionIds, meanwhile, rounds);
            returned && waited <= |s.table.Keys| && (s.table != map[] ==> end.table == map[])
  {
    ListsNone(executionIds, s);
    var t := Cancelling(s, true, executionIds, meanwhile);
    CancellingDrains(s, executionIds, meanwhile);
    KeysShrink(s.table, t.table);
    if s.table != map[] {
      assert executionIds[0] in s.table.Keys;
      WaitReturns(t, |executionIds|, rounds);
    } else {
      WaitEnds(t, |executionIds|, rounds);
    }
  }
}
