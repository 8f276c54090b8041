/** The production limit: when it is kept, what breaks it, and what shutting down does to it. */
module ConcurrencyLimit {
  import opened ExecutionProtocol
  import opened ExecutionTheorems

  /** Every unit of the limit is free, held, or owed to a queued call. */
  ghost predicate Balanced(s: State, limit: nat) {
    s.capacity == limit - |s.queue| - Count(s, IsHolder)
  }

  ghost predicate Conserved(s: State, limit: nat) {
    s.enabled && Balanced(s, limit)
  }

  /** Calls wait exactly as far as capacity is overdrawn. */
  predicate Tight(s: State) {
    |s.queue| == if s.capacity < 0 then -s.capacity else 0
  }

  lemma ResolveNextConserves(s: State, limit: nat)
    requires QueueHoldsWaiting(s) && Conserved(s, limit)
    ensures Conserved(ResolveNext(s), limit)
  {
    QueueIsQueued(s);
    if s.queue != [] {
      var n := s.queue[0];
      assert At(s, n, Queued) && Limited(s.calls[n].mode);
      CountMove(s, n, Admitted, IsHolder);
      assert ResolveNext(s).calls == Move(s, n, Admitted).calls;
    }
  }

  lemma ThrottleConserves(s: State, limit: nat, n: nat)
    requires Valid(s) && Conserved(s, limit) && At(s, n, Begun)
    ensures Conserved(DoThrottle(s, n), limit)
  {
    CountMove(s, n, Admitted, IsHolder);
    CountMove(s, n, Queued, IsHolder);
    var t := DoThrottle(s, n);
    assert t.calls == Move(s, n, Admitted).calls || t.calls == Move(s, n, Queued).calls;
  }

  lemma CleanUpConserves(s: State, limit: nat, n: nat)
    requires Valid(s) && Conserved(s, limit) && n < |s.calls| && s.calls[n].phase.Settled?
    ensures Conserved(CleanUp(s, n), limit)
    ensures Tight(s) ==> Tight(CleanUp(s, n))
  {
    QueueIsQueued(s);
    var done := Done(s.calls[n].phase.outcome);
    CountMove(s, n, done, IsHolder);
    MoveKeepsQueue(s, n, done);
    if Limited(s.calls[n].mode) {
      var freed := Move(s, n, done).(releases := s.releases + 1, capacity := s.capacity + 1);
      assert freed.calls == Move(s, n, done).calls;
      assert QueueHoldsWaiting(freed) by {
        assert QueueHoldsWaiting(Move(s, n, done));
        assert forall m :: At(freed, m, Queued) <==> At(Move(s, n, done), m, Queued);
      }
      ResolveNextConserves(freed, limit);
      assert CleanUp(s, n).calls == ResolveNext(freed).calls;
    } else {
      assert CleanUp(s, n).calls == Move(s, n, done).calls;
    }
  }

  lemma RemoveConserves(s: State, limit: nat, id: string)
    requires Valid(s) && Conserved(s, limit)
    ensures Conserved(DoRemove(s, id), limit)
  {
    var i := Position(s, id, 0);
    if i < |s.queue| {
      assert At(s, s.queue[i], Queued);
      CountMove(s, s.queue[i], Gone, IsHolder);
      DequeuedKeepsQueue(s, i);
      assert Dequeued(s, i).calls == Move(s, s.queue[i], Gone).calls;
      ResolveNextConserves(Dequeued(s, i), limit);
    }
  }

  /** Capacity is conserved by every step but disabling, also by removals from the queue and by failing storage. */
  lemma StepConserves(s: State, e: Event, limit: nat)
    requires Valid(s) && Conserved(s, limit) && !e.Disable?
    ensures Conserved(Step(s, e), limit)
  {
    match e
    case Begin(id, mode) => SelectAppend(s.calls, Call(id, mode, Begun), IsHolder);
    case CreateFails(n) => if At(s, n, Begun) { CountMove(s, n, Gone, IsHolder); }
    case Throttle(n) => if At(s, n, Begun) { ThrottleConserves(s, limit, n); }
    case StorageFails(n) => if At(s, n, Admitted) { CountMove(s, n, Lost, IsHolder); }
    case Install(n) =>
      if At(s, n, Admitted) {
        CountMove(s, n, Live, IsHolder);
        assert Step(s, e).calls == Move(s, n, Live).calls;
      }
    case Stop(id) => SettleConserves(s, limit, id, Cancelled);
    case Finalize(id) => SettleConserves(s, limit, id, Finished);
    case Cleanup(n) => if n < |s.calls| && s.calls[n].phase.Settled? { CleanUpConserves(s, limit, n); }
    case RemoveQueued(id, mode) => RemoveConserves(s, limit, id);
  }

  lemma SettleConserves(s: State, limit: nat, id: string, outcome: Outcome)
    requires Conserved(s, limit)
    ensures id in s.table ==> Conserved(Settle(s, s.table[id], outcome), limit)
  {
    if id in s.table && At(s, s.table[id], Live) {
      CountMove(s, s.table[id], Settled(outcome), IsHolder);
    }
  }

  lemma StepTight(s: State, e: Event, limit: nat)
    requires Valid(s) && Conserved(s, limit) && Tight(s) && !e.Disable? && !e.RemoveQueued?
    ensures Tight(Step(s, e))
  {
    QueueIsQueued(s);
    if e.Cleanup? && e.call < |s.calls| && s.calls[e.call].phase.Settled? {
      CleanUpConserves(s, limit, e.call);
    }
  }

  lemma {:induction false} RunWithinLimit(s: State, es: seq<Event>, limit: nat)
    requires Valid(s) && Conserved(s, limit) && Tight(s)
    requires forall e :: e in es ==> !e.Disable? && !e.RemoveQueued?
    ensures Valid(Run(s, es)) && Conserved(Run(s, es), limit) && Tight(Run(s, es))
    decreases |es|
  {
    if es != [] {
      assert es[0] in es;
      StepKeeps(s, es[0]);
      StepConserves(s, es[0], limit);
      StepTight(s, es[0], limit);
      RunWithinLimit(Step(s, es[0]), es[1..], limit);
    }
  }

  /** The production executions that hold a slot: past throttling and not cleaned up. */
  ghost function ProductionHolders(s: State): set<nat> {
    set n: nat | n < |s.calls| && (s.calls[n].mode == Trigger || s.calls[n].mode == Webhook)
      && (s.calls[n].phase.Admitted? || s.calls[n].phase.Live? || s.calls[n].phase.Settled? || s.calls[n].phase.Lost?)
  }

  lemma HoldersAreProduction(s: State)
    ensures ProductionHolders(s) == Select(s.calls, IsHolder)
  {
    forall n: nat ensures n in ProductionHolders(s) <==> n in Select(s.calls, IsHolder) {
    }
  }

  /**
    Over every interleaving without removals from the queue: at most `limit` executions of triggers and webhooks hold a
    slot, and none waits unless all slots are held.
   */
  lemma NeverAboveLimit(limit: nat, es: seq<Event>)
    requires limit > 0 && NoRemovals(es)
    ensures var s := Run(Initial(limit), es);
            && |ProductionHolders(s)| <= limit
            && ((exists n :: At(s, n, Queued)) ==> |ProductionHolders(s)| == limit)
  {
    InitialIsValid(limit);
    assert Select([], IsHolder) == {};
    RunWithinLimit(Initial(limit), es, limit);
    var s := Run(Initial(limit), es);
    HoldersAreProduction(s);
    if n :| At(s, n, Queued) {
      assert n in s.queue;
    }
  }

  /** Only executions of triggers and webhooks ever wait. */
  lemma OthersNeverWait(limit: nat, es: seq<Event>, n: nat)
    requires At(Run(Initial(limit), es), n, Queued)
    ensures Run(Initial(limit), es).calls[n].mode == Trigger || Run(Initial(limit), es).calls[n].mode == Webhook
  {
    InitialIsValid(limit);
    RunKeeps(Initial(limit), es);
    var s := Run(Initial(limit), es);
    assert n in s.queue;
    var i :| 0 <= i < |s.queue| && s.queue[i] == n;
    assert Limited(s.calls[s.queue[i]].mode);
  }

  /** An execution comes and asks to be let in. */
  function Arrive(s: State, id: string, mode: Mode): State {
    Step(Step(s, Begin(id, mode)), Throttle(|s.calls|))
  }

  /**
    It has to wait exactly when the control is enabled, it is that of a trigger or webhook, and the limit is reached by
    those that hold a slot; otherwise it is let in.
   */
  lemma WaitsIff(s: State, limit: nat, id: string, mode: Mode)
    requires Valid(s) && Balanced(s, limit) && Tight(s)
    ensures var t := Arrive(s, id, mode);
            && |t.calls| == |s.calls| + 1 && t.calls[|s.calls|].id == id && t.calls[|s.calls|].mode == mode
            && (At(t, |s.calls|, Queued) <==>
                  s.enabled && (mode == Trigger || mode == Webhook) && |ProductionHolders(s)| >= limit)
            && (At(t, |s.calls|, Queued) || At(t, |s.calls|, Admitted))
  {
    HoldersAreProduction(s);
  }

  /** With the control switched off from the start, nothing ever waits. */
  lemma {:induction false} NothingWaitsWithoutLimit(es: seq<Event>, n: nat)
    ensures !At(Run(Initial(0), es), n, Queued)
  {
    InitialIsValid(0);
    DisabledFreezesQueue(Initial(0), es);
    RunKeeps(Initial(0), es);
    var s := Run(Initial(0), es);
    assert s.queue == [];
    assert At(s, n, Queued) ==> n in s.queue;
  }

  // ---- First in, first out ---------------------------------------------------------------------------------

  /** The call has not asked yet, or does not exist yet. */
  predicate NotYetAsked(s: State, n: nat) {
    n < |s.calls| ==> s.calls[n].phase.Begun?
  }

  /** From `s` to `t` the first `k` queued calls have left, and only calls that had not asked came behind the others. */
  ghost predicate AdvancesBy(s: State, t: State, k: nat) {
    && k <= |s.queue| && s.queue[k..] <= t.queue
    && forall i :: |s.queue| - k <= i < |t.queue| ==> NotYetAsked(s, t.queue[i])
  }

  /** A clean-up lets the foremost one in at most. */
  lemma CleanUpAdvances(s: State, n: nat)
    requires Valid(s)
    ensures var t := Step(s, Cleanup(n));
            t.queue == s.queue || (s.queue != [] && t.queue == s.queue[1..])
  {
    QueueIsQueued(s);
  }

  lemma StepAdvances(s: State, e: Event) returns (k: nat)
    requires Valid(s) && !e.RemoveQueued?
    ensures AdvancesBy(s, Step(s, e), k)
  {
    assert s.queue[0..] == s.queue;
    k := 0;
    if e.Cleanup? {
      CleanUpAdvances(s, e.call);
      k := if |Step(s, e).queue| < |s.queue| then 1 else 0;
    }
  }

  lemma NotYetAskedBefore(s: State, e: Event, n: nat)
    requires Valid(s) && NotYetAsked(Step(s, e), n)
    ensures NotYetAsked(s, n)
  {
    if !e.Begin? {
      StepMoves(s, e);
    }
  }

  lemma AdvancesFurther(s: State, e: Event, u: State, k: nat, l: nat) returns (m: nat)
    requires Valid(s) && AdvancesBy(s, Step(s, e), k) && AdvancesBy(Step(s, e), u, l)
    ensures AdvancesBy(s, u, m)
  {
    var t := Step(s, e);
    var left := |s.queue| - k;
    m := if l <= left then k + l else |s.queue|;
    if l <= left {
      assert s.queue[m..] == s.queue[k..][l..] <= t.queue[l..];
    } else {
      assert s.queue[m..] == [];
    }
    forall i | |s.queue| - m <= i < |u.queue| ensures NotYetAsked(s, u.queue[i]) {
      if i < |t.queue| - l {
        assert u.queue[i] == t.queue[l..][i] == t.queue[l + i];
      } else {
        NotYetAskedBefore(s, e, u.queue[i]);
      }
    }
  }

  lemma {:induction false} QueueAdvances(s: State, es: seq<Event>) returns (k: nat)
    requires Valid(s) && NoRemovals(es)
    ensures AdvancesBy(s, Run(s, es), k)
    decreases |es|
  {
    if es == [] {
      k := 0;
      assert s.queue[0..] == s.queue;
    } else {
      assert es[0] in es && forall e :: e in es[1..] ==> e in es;
      var t := Step(s, es[0]);
      StepKeeps(s, es[0]);
      var first := StepAdvances(s, es[0]);
      var rest := QueueAdvances(t, es[1..]);
      k := AdvancesFurther(s, es[0], Run(s, es), first, rest);
    }
  }

  /** Executions are let in as they came: of two that wait, the one behind does not leave the queue before the other. */
  lemma FirstInFirstOut(s: State, es: seq<Event>, i: nat, j: nat)
    requires Valid(s) && NoRemovals(es) && i < j < |s.queue|
    requires At(Run(s, es), s.queue[i], Queued)
    ensures At(Run(s, es), s.queue[j], Queued)
  {
    var k := QueueAdvances(s, es);
    RunKeeps(s, es);
    var t := Run(s, es);
    assert s.queue[i] in t.queue;
    var p :| 0 <= p < |t.queue| && t.queue[p] == s.queue[i];
    assert At(s, s.queue[i], Queued);
    assert p < |s.queue| - k;
    assert t.queue[p] == s.queue[k..][p] == s.queue[k + p];
    assert t.queue[j - k] == s.queue[k..][j - k] == s.queue[j];
    assert At(t, t.queue[j - k], Queued);
  }

  /**
    Removing a waiting execution also lets the next one in. The limit survives the removal exactly when the removed
    one, if any, was the only one waiting.
   */
  lemma RemovalKeepsLimitIff(s: State, id: string, mode: Mode, limit: nat)
    requires Valid(s) && Conserved(s, limit) && Tight(s)
    ensures Count(Step(s, RemoveQueued(id, mode)), IsHolder) <= limit
       <==> !Limited(mode) || Position(s, id, 0) == |s.queue| || |s.queue| == 1
    ensures Limited(mode) && Position(s, id, 0) < |s.queue| && |s.queue| > 1
        ==> Count(Step(s, RemoveQueued(id, mode)), IsHolder) == limit + 1
  {
    QueueIsQueued(s);
    RemoveConserves(s, limit, id);
    var i := Position(s, id, 0);
    if i < |s.queue| {
      DequeuedKeepsQueue(s, i);
      QueueIsQueued(Dequeued(s, i));
    }
  }

  // ---- Shutting down ---------------------------------------------------------------------------------------

  /** `removeAll`: every queued id is removed in turn. */
  function RemoveAll(s: State, ids: seq<string>): State
    decreases |ids|
  {
    if ids == [] then s else RemoveAll(DoRemove(s, ids[0]), ids[1..])
  }

  lemma {:induction false} DisabledRemoveAll(s: State, ids: seq<string>)
    requires !s.enabled
    ensures RemoveAll(s, ids) == s
    decreases |ids|
  {
    if ids != [] {
      DisabledRemoveAll(s, ids[1..]);
    }
  }

  ghost predicate QueuedIdsDiffer(s: State) {
    forall m, n :: m in s.queue && n in s.queue && m != n && m < |s.calls| && n < |s.calls|
      ==> s.calls[m].id != s.calls[n].id
  }

  /** `ids` names every queued call. */
  ghost predicate Covers(s: State, ids: seq<string>) {
    forall n :: n in s.queue ==> n < |s.calls| && s.calls[n].id in ids
  }

  /** As long as no id in use is added, queued ids differ. */
  lemma TidyQueuedIdsDiffer(s: State)
    requires Valid(s) && Tidy(s)
    ensures QueuedIdsDiffer(s)
  {
    QueueIsQueued(s);
    forall m, n | m in s.queue && n in s.queue && m != n ensures s.calls[m].id != s.calls[n].id {
      assert InUse(s.calls[m]) && InUse(s.calls[n]);
    }
  }

  /** What a removal leaves of the queue: without the call found, the rest but its head. */
  lemma RemovalLeaves(s: State, id: string)
    requires Valid(s) && s.enabled
    ensures var i, t := Position(s, id, 0), DoRemove(s, id);
            && t.enabled && Valid(t) && Moves(s, t)
            && (i == |s.queue| ==> t == s)
            && (i < |s.queue| ==> var rest := s.queue[..i] + s.queue[i + 1..];
                                  t.queue == if rest == [] then [] else rest[1..])
  {
    RemoveKeeps(s, id);
    RemoveMoves(s, id);
    QueueIsQueued(s);
    var i := Position(s, id, 0);
    if i < |s.queue| {
      DequeuedKeepsQueue(s, i);
      QueueIsQueued(Dequeued(s, i));
    }
  }

  /** No other queued call comes to the queue, and the one found is gone. */
  lemma RemovalKeepsOthers(s: State, id: string, n: nat)
    requires Valid(s) && s.enabled && n in DoRemove(s, id).queue
    ensures n in s.queue
    ensures var i := Position(s, id, 0); i < |s.queue| ==> n != s.queue[i]
  {
    RemovalLeaves(s, id);
    var i := Position(s, id, 0);
    if i < |s.queue| {
      var rest := s.queue[..i] + s.queue[i + 1..];
      assert n in rest;
      var k :| 0 <= k < |rest| && rest[k] == n;
      assert rest[k] == s.queue[if k < i then k else k + 1];
    }
  }

  /** The call that the removal finds is the only one with its id; if it finds none, there is none. */
  lemma OnlyOneOfId(s: State, id: string, n: nat)
    requires Valid(s) && QueuedIdsDiffer(s) && n in s.queue && n < |s.calls| && s.calls[n].id == id
    ensures var i := Position(s, id, 0); i < |s.queue| && s.queue[i] == n
  {
    var k :| 0 <= k < |s.queue| && s.queue[k] == n;
  }

  lemma RemovalCovers(s: State, ids: seq<string>)
    requires Valid(s) && s.enabled && QueuedIdsDiffer(s) && ids != [] && Covers(s, ids)
    ensures var t := DoRemove(s, ids[0]);
            t.enabled && Valid(t) && QueuedIdsDiffer(t) && Covers(t, ids[1..])
  {
    var t := DoRemove(s, ids[0]);
    RemovalLeaves(s, ids[0]);
    forall n | n in t.queue ensures n in s.queue && n < |s.calls| && s.calls[n].id in ids[1..] {
      RemovalKeepsOthers(s, ids[0], n);
      if s.calls[n].id == ids[0] {
        OnlyOneOfId(s, ids[0], n);
      }
    }
  }

  lemma HeadIsIn(queue: seq<nat>)
    ensures queue != [] ==> queue[0] in queue
  {
  }

  lemma {:induction false} RemoveAllEmpties(s: State, ids: seq<string>)
    requires Valid(s) && s.enabled && QueuedIdsDiffer(s) && Covers(s, ids)
    ensures RemoveAll(s, ids).queue == []
    decreases |ids|
  {
    if ids == [] {
      HeadIsIn(s.queue);
    } else {
      RemovalCovers(s, ids);
      RemoveAllEmpties(DoRemove(s, ids[0]), ids[1..]);
    }
  }

  /**
    Asking for every queued id to be removed leaves an empty queue exactly when the control is enabled or nothing was
    queued. Shutdown disables the control before it asks.
   */
  lemma RemoveAllEmptiesIff(s: State, ids: seq<string>)
    requires Valid(s) && QueuedIdsDiffer(s) && Covers(s, ids)
    ensures RemoveAll(s, ids).queue == [] <==> s.enabled || s.queue == []
  {
    if s.enabled {
      RemoveAllEmpties(s, ids);
    } else {
      DisabledRemoveAll(s, ids);
    }
  }

  /** Each removal takes two at most, so with ids that repeat the enumeration of the different ids can be too short. */
  lemma {:induction false} RemoveAllTakesTwoEach(s: State, ids: seq<string>)
    requires Valid(s)
    ensures |RemoveAll(s, ids).queue| >= |s.queue| - 2 * |ids|
    decreases |ids|
  {
    if !s.enabled {
      DisabledRemoveAll(s, ids);
    } else if ids != [] {
      RemovalLeaves(s, ids[0]);
      RemoveAllTakesTwoEach(DoRemove(s, ids[0]), ids[1..]);
    }
  }

  /** Once disabled, no waiting execution resumes or leaves the queue, and no capacity is given back, in any run. */
  lemma {:induction false} DisabledFreezesQueue(s: State, es: seq<Event>)
    requires Valid(s) && !s.enabled
    ensures Run(s, es).queue == s.queue && !Run(s, es).enabled && Run(s, es).capacity == s.capacity
    ensures forall n :: At(s, n, Queued) ==> At(Run(s, es), n, Queued)
    decreases |es|
  {
    if es != [] {
      var t := Step(s, es[0]);
      StepKeeps(s, es[0]);
      assert t.queue == s.queue && !t.enabled && t.capacity == s.capacity;
      forall n | At(s, n, Queued) ensures At(t, n, Queued) {
        assert n in t.queue;
        var i :| 0 <= i < |t.queue| && t.queue[i] == n;
        assert At(t, t.queue[i], Queued);
      }
      DisabledFreezesQueue(t, es[1..]);
    }
  }

  /** Neither removals from the queue nor disabling. */
  ghost predicate NoRemovals(es: seq<Event>) {
    forall e :: e in es ==> !e.Disable? && !e.RemoveQueued?
  }

  /** Once disabled, any number of new executions is let in. */
  lemma {:induction false} DisabledAdmitsMore(s: State, k: nat) returns (es: seq<Event>)
    requires !s.enabled
    ensures NoRemovals(es) && Count(Run(s, es), IsHolder) == Count(s, IsHolder) + k
    decreases k
  {
    if k == 0 {
      es := [];
    } else {
      var n := |s.calls|;
      var begin, throttle := Begin("", Trigger), ExecutionProtocol.Throttle(n);
      var begun := Step(s, begin);
      SelectAppend(s.calls, Call("", Trigger, Begun), IsHolder);
      CountMove(begun, n, Admitted, IsHolder);
      var admitted := Step(begun, throttle);
      assert admitted.calls == Move(begun, n, Admitted).calls;
      var rest := DisabledAdmitsMore(admitted, k - 1);
      es := [begin, throttle] + rest;
      assert es[1..] == [throttle] + rest && es[1..][1..] == rest;
      assert Run(s, es) == Run(begun, es[1..]) == Run(admitted, rest);
    }
  }

  /** No run exceeds the limit exactly as long as the control is enabled, however few hold a slot now. */
  lemma LimitHoldsIffEnabled(s: State, limit: nat)
    requires Valid(s) && Balanced(s, limit) && Tight(s)
    ensures (forall es :: NoRemovals(es) ==> Count(Run(s, es), IsHolder) <= limit) <==> s.enabled
  {
    if s.enabled {
      forall es | NoRemovals(es) ensures Count(Run(s, es), IsHolder) <= limit {
        RunWithinLimit(s, es, limit);
      }
    } else {
      var es := DisabledAdmitsMore(s, limit + 1);
      assert Count(Run(s, es), IsHolder) > limit;
    }
  }

  /** Every entry is settled and waits for its clean-up. */
  ghost predicate Draining(s: State) {
    forall id :: id in s.table ==> s.table[id] < |s.calls| && s.calls[s.table[id]].phase.Settled?
  }

  /** `stopExecution` on each of the ids. */
  function StopAll(s: State, ids: seq<string>): State
    decreases |ids|
  {
    if ids == [] then s else StopAll(Step(s, Stop(ids[0])), ids[1..])
  }

  lemma {:induction false} StopAllSettles(s: State, ids: seq<string>)
    requires Valid(s)
    ensures Valid(StopAll(s, ids)) && StopAll(s, ids).table == s.table
    ensures forall id :: id in ids && id in s.table ==>
      s.table[id] < |StopAll(s, ids).calls| && StopAll(s, ids).calls[s.table[id]].phase.Settled?
    ensures forall n, o :: HasOutcome(s, n, o) ==> HasOutcome(StopAll(s, ids), n, o)
    ensures forall n :: At(s, n, Live) && !At(StopAll(s, ids), n, Live) ==> HasOutcome(StopAll(s, ids), n, Cancelled)
    decreases |ids|
  {
    if ids != [] {
      var t := Step(s, Stop(ids[0]));
      StepKeeps(s, Stop(ids[0]));
      forall n, o | HasOutcome(s, n, o) ensures HasOutcome(t, n, o) {
        OutcomeStep(s, Stop(ids[0]), n, o);
      }
      StopAllSettles(t, ids[1..]);
      forall n | At(s, n, Live) && !At(StopAll(s, ids), n, Live) ensures HasOutcome(StopAll(s, ids), n, Cancelled) {
        assert At(t, n, Live) || HasOutcome(t, n, Cancelled);
      }
      StopSettles(s, ids[0]);
      forall id | id in ids && id in s.table ensures StopAll(s, ids).calls[s.table[id]].phase.Settled? {
        if id == ids[0] {
          var n := s.table[id];
          assert HasOutcome(t, n, t.calls[n].phase.outcome);
          SettledInTable(StopAll(t, ids[1..]), id);
        } else {
          assert id in ids[1..];
        }
      }
    }
  }

  lemma StopSettles(s: State, id: string)
    requires Valid(s)
    ensures id in s.table ==> s.table[id] < |s.calls| && Step(s, Stop(id)).calls[s.table[id]].phase.Settled?
  {
  }

  lemma SettledInTable(s: State, id: string)
    requires Valid(s) && id in s.table
    ensures s.table[id] < |s.calls|
    ensures (exists o :: HasOutcome(s, s.table[id], o)) ==> s.calls[s.table[id]].phase.Settled?
  {
  }

  /** A run without installs only takes entries away, and among them every one that it cleans up. */
  lemma {:induction false} RunDrains(s: State, es: seq<Event>)
    requires Valid(s) && Draining(s)
    requires forall e :: e in es ==> !e.Install?
    ensures Valid(Run(s, es)) && Draining(Run(s, es))
    ensures forall id :: id in Run(s, es).table ==> id in s.table && Run(s, es).table[id] == s.table[id]
    ensures forall id :: id in s.table && Cleanup(s.table[id]) in es ==> id !in Run(s, es).table
    decreases |es|
  {
    if es != [] {
      var t := Step(s, es[0]);
      assert es[0] in es;
      StepKeeps(s, es[0]);
      DrainingStep(s, es[0]);
      RunDrains(t, es[1..]);
      forall id | id in s.table && Cleanup(s.table[id]) in es ensures id !in Run(s, es).table {
        if id in t.table {
          assert Cleanup(t.table[id]) in es[1..];
        }
      }
    }
  }

  /** Without installs, settled or not, no entry is added or changed. */
  lemma {:induction false} NoInstallNoEntry(s: State, es: seq<Event>)
    requires Valid(s)
    requires forall e :: e in es ==> !e.Install?
    ensures Valid(Run(s, es))
    ensures forall id :: id in Run(s, es).table ==> id in s.table && Run(s, es).table[id] == s.table[id]
    decreases |es|
  {
    if es != [] {
      var t := Step(s, es[0]);
      assert es[0] in es;
      StepKeeps(s, es[0]);
      if !es[0].Cleanup? {
        TableUnchanged(s, es[0]);
      } else if es[0].call < |s.calls| && s.calls[es[0].call].phase.Settled? {
        CleanUpDone(s, es[0].call);
      }
      NoInstallNoEntry(t, es[1..]);
    }
  }

  lemma DrainingStep(s: State, e: Event)
    requires Valid(s) && Draining(s) && !e.Install?
    ensures Draining(Step(s, e))
    ensures forall id :: id in Step(s, e).table ==> id in s.table && Step(s, e).table[id] == s.table[id]
    ensures forall id :: id in Step(s, e).table ==> e != Cleanup(s.table[id])
  {
    if e.Cleanup? {
      DrainingCleanUp(s, e.call);
    } else {
      TableUnchanged(s, e);
      forall id | id in s.table
        ensures s.table[id] < |Step(s, e).calls| && Step(s, e).calls[s.table[id]].phase.Settled? {
        SettledStays(s, e, s.table[id]);
      }
    }
  }

  lemma SettledStays(s: State, e: Event, n: nat)
    requires Valid(s) && n < |s.calls| && s.calls[n].phase.Settled? && !e.Cleanup?
    ensures n < |Step(s, e).calls| && Step(s, e).calls[n] == s.calls[n]
  {
    if e.RemoveQueued? {
      RemoveMoves(s, e.id);
    }
  }

  lemma DrainingCleanUp(s: State, n: nat)
    requires Valid(s) && Draining(s)
    ensures Draining(Step(s, Cleanup(n)))
    ensures forall id :: id in Step(s, Cleanup(n)).table ==>
      id in s.table && Step(s, Cleanup(n)).table[id] == s.table[id] && s.table[id] != n
  {
    if n < |s.calls| && s.calls[n].phase.Settled? {
      var t := CleanUp(s, n);
      QueueIsQueued(s);
      CleanUpDone(s, n);
      CleanUpMoves(s, n);
      forall id | id in t.table
        ensures s.table[id] != n && t.calls[s.table[id]] == s.calls[s.table[id]] {
        assert s.calls[s.table[id]].id == id;
      }
    } else {
      assert forall id :: id in s.table ==> s.table[id] != n;
    }
  }
}
