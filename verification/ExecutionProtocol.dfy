/**
  The protocol of running executions in regular mode: `ActiveExecutions` (packages/cli/src/active-executions.ts)
  together with the concurrency control it calls (packages/cli/src/concurrency).

  Every call of `add` is numbered. A step is what runs between two awaits; a run is any sequence of steps.
 */
module ExecutionProtocol {

  datatype Mode = CliMode | ErrorMode | Integrated | Internal | Manual | Retry | Trigger | Webhook

  /** Only executions of these modes take part in concurrency control. */
  predicate Limited(mode: Mode) {
    mode == Trigger || mode == Webhook
  }

  datatype Outcome = Cancelled | Finished

  /** How far a call of `add` has come. */
  datatype Phase =
    | Begun                      // the execution is being stored, or throttling is about to be asked
    | Queued                     // waits in the production queue
    | Admitted                   // past throttling, the storage update is pending
    | Live                       // entered into the table, its promise is pending
    | Settled(outcome: Outcome)  // its promise is settled, the clean-up is pending
    | Done(outcome: Outcome)     // cleaned up
    | Lost                       // storage failed after throttling
    | Gone                       // storage failed before throttling, or removed from the queue

  datatype Call = Call(id: string, mode: Mode, phase: Phase)

  /**
    `table` is `activeExecutions`: the entry of an id is the call whose promise it holds. `queue` holds the calls whose
    throttling is pending. `throttles` and `releases` count completed calls of `throttle` and calls of `release`.
   */
  datatype State = State(
    calls: seq<Call>, table: map<string, nat>,
    enabled: bool, capacity: int, queue: seq<nat>,
    throttles: nat, releases: nat)

  datatype Event =
    | Begin(id: string, mode: Mode)
    | CreateFails(call: nat)
    | Throttle(call: nat)
    | StorageFails(call: nat)
    | Install(call: nat)
    | Stop(id: string)
    | Finalize(id: string)
    | Cleanup(call: nat)
    | RemoveQueued(id: string, mode: Mode)
    | Disable

  function Initial(limit: nat): State {
    State([], map[], limit > 0, limit, [], 0, 0)
  }

  predicate At(s: State, n: nat, phase: Phase) {
    n < |s.calls| && s.calls[n].phase == phase
  }

  function Move(s: State, n: nat, phase: Phase): State
    requires n < |s.calls|
  {
    s.(calls := s.calls[n := s.calls[n].(phase := phase)])
  }

  /** A throttling completes. */
  function Admit(s: State, n: nat): State
    requires n < |s.calls|
  {
    Move(s, n, Admitted).(throttles := s.throttles + 1)
  }

  /** `ConcurrencyQueue.enqueue` behind `throttle` */
  function DoThrottle(s: State, n: nat): State
    requires n < |s.calls|
  {
    if !s.enabled || !Limited(s.calls[n].mode) then Admit(s, n)
    else if s.capacity - 1 < 0 then Move(s, n, Queued).(capacity := s.capacity - 1, queue := s.queue + [n])
    else Admit(s.(capacity := s.capacity - 1), n)
  }

  /** `ConcurrencyQueue.resolveNext` */
  function ResolveNext(s: State): State {
    if s.queue == [] || s.queue[0] >= |s.calls| then s
    else Admit(s.(queue := s.queue[1..]), s.queue[0])
  }

  /** `release`: `ConcurrencyQueue.dequeue` for the modes it controls */
  function Release(s: State, mode: Mode): State {
    var counted := s.(releases := s.releases + 1);
    if !s.enabled || !Limited(mode) then counted
    else ResolveNext(counted.(capacity := s.capacity + 1))
  }

  /** The promise of a call is settled; only the first settling counts. */
  function Settle(s: State, n: nat, outcome: Outcome): State {
    if At(s, n, Live) then Move(s, n, Settled(outcome)) else s
  }

  /** The `finally` handler of a settled promise. */
  function CleanUp(s: State, n: nat): State
    requires n < |s.calls| && s.calls[n].phase.Settled?
  {
    var call := s.calls[n];
    var released := Release(Move(s, n, Done(call.phase.outcome)), call.mode);
    released.(table := released.table - {call.id})
  }

  /** The position of the first queued call with this id, or the length of the queue. */
  function Position(s: State, id: string, from: nat): (i: nat)
    requires from <= |s.queue|
    ensures from <= i <= |s.queue|
    ensures i < |s.queue| ==> s.queue[i] < |s.calls| && s.calls[s.queue[i]].id == id
    ensures forall j :: from <= j < i && s.queue[j] < |s.calls| ==> s.calls[s.queue[j]].id != id
    decreases |s.queue| - from
  {
    if from == |s.queue| then from
    else if s.queue[from] < |s.calls| && s.calls[s.queue[from]].id == id then from
    else Position(s, id, from + 1)
  }

  /** Taking the call at position `i` out of the queue. */
  function Dequeued(s: State, i: nat): State
    requires i < |s.queue| && s.queue[i] < |s.calls|
  {
    Move(s, s.queue[i], Gone).(queue := s.queue[..i] + s.queue[i + 1..], capacity := s.capacity + 1)
  }

  /** `ConcurrencyControlService.remove` for the modes it controls */
  function DoRemove(s: State, id: string): State {
    var i := Position(s, id, 0);
    if !s.enabled || i == |s.queue| then s
    else ResolveNext(Dequeued(s, i))
  }

  /** One step; an event that is not enabled changes nothing. */
  function Step(s: State, e: Event): State {
    match e
    case Begin(id, mode) => s.(calls := s.calls + [Call(id, mode, Begun)])
    case CreateFails(n) => if At(s, n, Begun) then Move(s, n, Gone) else s
    case Throttle(n) => if At(s, n, Begun) then DoThrottle(s, n) else s
    case StorageFails(n) => if At(s, n, Admitted) then Move(s, n, Lost) else s
    case Install(n) => if At(s, n, Admitted) then Move(s, n, Live).(table := s.table[s.calls[n].id := n]) else s
    case Stop(id) => if id in s.table then Settle(s, s.table[id], Cancelled) else s
    case Finalize(id) => if id in s.table then Settle(s, s.table[id], Finished) else s
    case Cleanup(n) => if n < |s.calls| && s.calls[n].phase.Settled? then CleanUp(s, n) else s
    case RemoveQueued(id, mode) => if Limited(mode) then DoRemove(s, id) else s
    case Disable => s.(enabled := false)
  }

  function Run(s: State, es: seq<Event>): State
    decreases |es|
  {
    if es == [] then s else Run(Step(s, es[0]), es[1..])
  }

  // ---- Counting calls by phase -----------------------------------------------------------------------------

  datatype Kind = IsAdmitted | IsActive | IsDone | IsLost | HasPassed | IsHolder

  predicate Is(c: Call, kind: Kind) {
    match kind
    case IsAdmitted => c.phase.Admitted?
    case IsActive => c.phase.Live? || c.phase.Settled?
    case IsDone => c.phase.Done?
    case IsLost => c.phase.Lost?
    case HasPassed => c.phase.Admitted? || c.phase.Live? || c.phase.Settled? || c.phase.Done? || c.phase.Lost?
    case IsHolder => Limited(c.mode) && (c.phase.Admitted? || c.phase.Live? || c.phase.Settled? || c.phase.Lost?)
  }

  ghost function Select(calls: seq<Call>, kind: Kind): set<nat> {
    set n: nat | n < |calls| && Is(calls[n], kind)
  }

  function One(b: bool): nat {
    if b then 1 else 0
  }

  lemma OneElementChanges(before: set<nat>, after: set<nat>, n: nat)
    requires forall m :: m != n ==> (m in before <==> m in after)
    ensures |after| == |before| + One(n in after) - One(n in before)
  {
    var rest := before - {n};
    assert rest == after - {n};
    assert before == if n in before then rest + {n} else rest;
    assert after == if n in after then rest + {n} else rest;
  }

  lemma SelectUpdate(calls: seq<Call>, n: nat, c: Call, kind: Kind)
    requires n < |calls|
    ensures |Select(calls[n := c], kind)| == |Select(calls, kind)| + One(Is(c, kind)) - One(Is(calls[n], kind))
  {
    var before, after := Select(calls, kind), Select(calls[n := c], kind);
    assert n in before <==> Is(calls[n], kind);
    assert n in after <==> Is(c, kind);
    forall m: nat | m != n ensures m in before <==> m in after {
      assert m < |calls| ==> calls[n := c][m] == calls[m];
    }
    OneElementChanges(before, after, n);
  }

  lemma SelectAppend(calls: seq<Call>, c: Call, kind: Kind)
    ensures |Select(calls + [c], kind)| == |Select(calls, kind)| + One(Is(c, kind))
  {
    var before, after := Select(calls, kind), Select(calls + [c], kind);
    if Is(c, kind) {
      assert after == before + {|calls|};
    } else {
      assert after == before;
    }
  }

  ghost function Count(s: State, kind: Kind): nat {
    |Select(s.calls, kind)|
  }

  lemma CountMove(s: State, n: nat, phase: Phase, kind: Kind)
    requires n < |s.calls|
    ensures Count(Move(s, n, phase), kind)
         == Count(s, kind) + One(Is(s.calls[n].(phase := phase), kind)) - One(Is(s.calls[n], kind))
  {
    SelectUpdate(s.calls, n, s.calls[n].(phase := phase), kind);
  }

  // ---- What every step keeps -------------------------------------------------------------------------------

  /** The entry of an id holds a pending or settled call with that id. */
  ghost predicate TableHoldsActive(s: State) {
    forall id :: id in s.table ==>
      && s.table[id] < |s.calls| && s.calls[s.table[id]].id == id && Is(s.calls[s.table[id]], IsActive)
  }

  /** The queue lists the waiting calls, each once, all of them subject to the limit. */
  ghost predicate QueueHoldsWaiting(s: State) {
    && (forall i :: 0 <= i < |s.queue| ==> At(s, s.queue[i], Queued) && Limited(s.calls[s.queue[i]].mode))
    && (forall i, j :: 0 <= i < j < |s.queue| ==> s.queue[i] != s.queue[j])
    && (forall n :: At(s, n, Queued) ==> n in s.queue)
  }

  /** Every completed throttling and every release belongs to one call. */
  ghost predicate CountersMatch(s: State) {
    s.throttles == Count(s, HasPassed) && s.releases == Count(s, IsDone)
  }

  ghost predicate Valid(s: State) {
    TableHoldsActive(s) && QueueHoldsWaiting(s) && CountersMatch(s)
  }

  lemma InitialIsValid(limit: nat)
    ensures Valid(Initial(limit))
  {
    assert Select([], HasPassed) == {} && Select([], IsDone) == {};
  }

  /** Moving one call that is neither queued nor in the table. */
  lemma MoveKeepsQueue(s: State, n: nat, phase: Phase)
    requires QueueHoldsWaiting(s) && n < |s.calls| && !s.calls[n].phase.Queued? && !phase.Queued?
    ensures QueueHoldsWaiting(Move(s, n, phase))
  {
    var moved := Move(s, n, phase);
    assert forall m :: At(moved, m, Queued) <==> At(s, m, Queued);
  }

  lemma AdmitKeepsCounters(s: State, n: nat)
    requires CountersMatch(s) && n < |s.calls| && (s.calls[n].phase.Begun? || s.calls[n].phase.Queued?)
    ensures CountersMatch(Admit(s, n))
  {
    CountMove(s, n, Admitted, HasPassed);
    CountMove(s, n, Admitted, IsDone);
    assert Admit(s, n).calls == Move(s, n, Admitted).calls;
  }

  lemma ThrottleKeeps(s: State, n: nat)
    requires Valid(s) && At(s, n, Begun)
    ensures Valid(DoThrottle(s, n))
  {
    if s.enabled && Limited(s.calls[n].mode) && s.capacity - 1 < 0 {
      CountMove(s, n, Queued, HasPassed);
      CountMove(s, n, Queued, IsDone);
      var queued := DoThrottle(s, n);
      assert queued.calls == Move(s, n, Queued).calls;
      assert forall m :: At(queued, m, Queued) ==> m == n || At(s, m, Queued);
      assert queued.queue[|s.queue|] == n;
      assert forall m :: m in s.queue ==> m in queued.queue;
    } else {
      MoveKeepsQueue(s, n, Admitted);
      AdmitKeepsCounters(s, n);
    }
  }

  /** Resolving the head of the queue, with the queue valid but for a call that has just left it. */
  lemma ResolveNextKeeps(s: State)
    requires Valid(s)
    ensures Valid(ResolveNext(s))
  {
    if s.queue != [] {
      var n := s.queue[0];
      assert At(s, n, Queued);
      AdmitKeepsCounters(s.(queue := s.queue[1..]), n);
      var next := ResolveNext(s);
      assert next.queue == s.queue[1..];
      assert forall i :: 0 <= i < |next.queue| ==> next.queue[i] == s.queue[i + 1];
      forall m | At(next, m, Queued) ensures m in next.queue {
        assert m != n && At(s, m, Queued);
        assert m in s.queue;
      }
    }
  }

  lemma CleanUpKeeps(s: State, n: nat)
    requires Valid(s) && n < |s.calls| && s.calls[n].phase.Settled?
    ensures Valid(CleanUp(s, n))
  {
    var call := s.calls[n];
    var done := Done(call.phase.outcome);
    CountMove(s, n, done, HasPassed);
    CountMove(s, n, done, IsDone);
    MoveKeepsQueue(s, n, done);
    var counted := Move(s, n, done).(releases := s.releases + 1, table := s.table - {call.id});
    assert counted.calls == Move(s, n, done).calls;
    assert CountersMatch(counted);
    assert TableHoldsActive(counted) by {
      forall id | id in counted.table ensures counted.table[id] != n {
        assert s.calls[s.table[id]].id == id;
      }
    }
    assert Valid(counted);
    if s.enabled && Limited(call.mode) {
      var freed := counted.(capacity := s.capacity + 1);
      assert Valid(freed);
      ResolveNextKeeps(freed);
      assert CleanUp(s, n) == ResolveNext(freed);
    }
  }

  lemma DequeuedKeepsQueue(s: State, i: nat)
    requires QueueHoldsWaiting(s) && i < |s.queue| && s.queue[i] < |s.calls|
    ensures QueueHoldsWaiting(Dequeued(s, i))
  {
    var n, rest, removed := s.queue[i], s.queue[..i] + s.queue[i + 1..], Dequeued(s, i);
    assert forall k :: 0 <= k < |rest| ==> rest[k] == s.queue[if k < i then k else k + 1];
    forall k | 0 <= k < |rest| ensures At(removed, rest[k], Queued) && Limited(removed.calls[rest[k]].mode) {
      var j := if k < i then k else k + 1;
      assert At(s, s.queue[j], Queued) && s.queue[j] != n;
    }
    forall m | At(removed, m, Queued) ensures m in rest {
      assert At(s, m, Queued) && m != n;
      assert m in s.queue;
      var k :| 0 <= k < |s.queue| && s.queue[k] == m;
      assert rest[if k < i then k else k - 1] == m;
    }
  }

  lemma RemoveKeeps(s: State, id: string)
    requires Valid(s)
    ensures Valid(DoRemove(s, id))
  {
    var i := Position(s, id, 0);
    if s.enabled && i < |s.queue| {
      assert At(s, s.queue[i], Queued);
      CountMove(s, s.queue[i], Gone, HasPassed);
      CountMove(s, s.queue[i], Gone, IsDone);
      DequeuedKeepsQueue(s, i);
      assert Dequeued(s, i).calls == Move(s, s.queue[i], Gone).calls;
      ResolveNextKeeps(Dequeued(s, i));
    }
  }

  lemma MoveKeepsCounters(s: State, n: nat, phase: Phase)
    requires CountersMatch(s) && n < |s.calls|
    requires Is(s.calls[n], HasPassed) == Is(s.calls[n].(phase := phase), HasPassed)
    requires Is(s.calls[n], IsDone) == Is(s.calls[n].(phase := phase), IsDone)
    ensures CountersMatch(Move(s, n, phase))
  {
    CountMove(s, n, phase, HasPassed);
    CountMove(s, n, phase, IsDone);
  }

  lemma SettleKeeps(s: State, n: nat, outcome: Outcome)
    requires Valid(s)
    ensures Valid(Settle(s, n, outcome))
  {
    if At(s, n, Live) {
      MoveKeepsCounters(s, n, Settled(outcome));
      MoveKeepsQueue(s, n, Settled(outcome));
    }
  }

  lemma InstallKeeps(s: State, n: nat)
    requires Valid(s) && At(s, n, Admitted)
    ensures Valid(Step(s, Install(n)))
  {
    MoveKeepsCounters(s, n, Live);
    MoveKeepsQueue(s, n, Live);
    assert Step(s, Install(n)).calls == Move(s, n, Live).calls;
  }

  lemma BeginKeeps(s: State, id: string, mode: Mode)
    requires Valid(s)
    ensures Valid(Step(s, Begin(id, mode)))
  {
    SelectAppend(s.calls, Call(id, mode, Begun), HasPassed);
    SelectAppend(s.calls, Call(id, mode, Begun), IsDone);
    assert forall m :: At(Step(s, Begin(id, mode)), m, Queued) ==> At(s, m, Queued);
  }

  /** Every step keeps table, queue and counters in agreement with the calls. */
  lemma StepKeeps(s: State, e: Event)
    requires Valid(s)
    ensures Valid(Step(s, e))
  {
    match e
    case Begin(id, mode) => BeginKeeps(s, id, mode);
    case CreateFails(n) =>
      if At(s, n, Begun) {
        MoveKeepsCounters(s, n, Gone);
        MoveKeepsQueue(s, n, Gone);
      }
    case Throttle(n) =>
      if At(s, n, Begun) {
        ThrottleKeeps(s, n);
      }
    case StorageFails(n) =>
      if At(s, n, Admitted) {
        MoveKeepsCounters(s, n, Lost);
        MoveKeepsQueue(s, n, Lost);
      }
    case Install(n) =>
      if At(s, n, Admitted) {
        InstallKeeps(s, n);
      }
    case Stop(id) =>
      if id in s.table {
        SettleKeeps(s, s.table[id], Cancelled);
      }
    case Finalize(id) =>
      if id in s.table {
        SettleKeeps(s, s.table[id], Finished);
      }
    case Cleanup(n) =>
      if n < |s.calls| && s.calls[n].phase.Settled? {
        CleanUpKeeps(s, n);
      }
    case RemoveQueued(id, mode) => RemoveKeeps(s, id);
    case Disable =>
  }

  lemma {:induction false} RunKeeps(s: State, es: seq<Event>)
    requires Valid(s)
    ensures Valid(Run(s, es))
    decreases |es|
  {
    if es != [] {
      StepKeeps(s, es[0]);
      RunKeeps(Step(s, es[0]), es[1..]);
    }
  }
}
