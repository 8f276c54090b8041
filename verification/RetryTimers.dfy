/** The timers of the retry queue: how many are live, which one, and with what delay. */
module RetryTimers {
  import opened Webhooks
  import opened Backoff
  import opened Activation

  /** Every live timer is the handle in the queue entry of its workflow, and handles are never reused. */
  ghost predicate NoOrphans(s: State) {
    && (forall h :: h in s.timers ==>
          && h < s.nextTimer && s.timers[h].retry.workflowId in s.queue
          && s.queue[s.timers[h].retry.workflowId].timer == h)
    && (forall u :: u in s.queue ==> s.queue[u].timer < s.nextTimer)
    && (forall u, v :: u in s.queue && v in s.queue && s.queue[u].timer == s.queue[v].timer ==> u == v)
  }

  /** So no workflow has two live timers. */
  lemma OneTimerPerWorkflow(s: State, h: nat, i: nat)
    requires NoOrphans(s) && h in s.timers && i in s.timers
    requires s.timers[h].retry.workflowId == s.timers[i].retry.workflowId
    ensures h == i
  {
  }

  lemma RemoveQueuedKeeps(s: State, workflowId: string)
    requires NoOrphans(s)
    ensures NoOrphans(RemoveQueued(s, workflowId))
    ensures forall h :: h in RemoveQueued(s, workflowId).timers ==> s.timers[h].retry.workflowId != workflowId
  {
  }

  lemma AddQueuedKeeps(s: State, workflowId: string, mode: Mode)
    requires NoOrphans(s)
    ensures NoOrphans(AddQueued(s, workflowId, mode))
  {
    RemoveQueuedKeeps(s, workflowId);
  }

  lemma RemoveAllQueuedKeeps(s: State)
    requires NoOrphans(s)
    ensures RemoveAllQueued(s).timers == map[] && NoOrphans(RemoveAllQueued(s))
  {
    forall h | h in s.timers ensures IsHandle(s, h) {
      assert s.queue[s.timers[h].retry.workflowId].timer == h;
    }
  }

  lemma AddKeeps(s: State, workflowId: string, mode: Mode, e: Encounter)
    requires NoOrphans(s) && e.Valid()
    ensures NoOrphans(Add(s, workflowId, mode, e).0)
  {
    AddOutcome(s, workflowId, mode, e);
    RemoveQueuedKeeps(s, workflowId);
  }

  /** The entry of the workflow, if it has one, holds a timer that fired or was cleared. */
  predicate TimerIsDead(s: State, workflowId: string) {
    workflowId in s.queue ==> s.queue[workflowId].timer !in s.timers
  }

  lemma RequeueKeepsIff(s: State, retry: Retry)
    requires NoOrphans(s) && retry.workflowId in s.queue
    ensures NoOrphans(Requeue(s, retry)) <==> TimerIsDead(s, retry.workflowId)
  {
    var t := Requeue(s, retry);
    var h := s.queue[retry.workflowId].timer;
    if h in s.timers {
      assert h in t.timers && s.timers[h].retry.workflowId == retry.workflowId;
      assert t.queue[retry.workflowId].timer != h;
    }
  }

  /** The retry fails and finds the entry of its workflow in the queue. */
  ghost predicate FailsQueued(s: State, retry: Retry, met: Encounter)
    requires met.Valid()
  {
    var (t, succeeded) := Add(s.(attempts := s.attempts - multiset{retry}), retry.workflowId, retry.mode, met);
    !succeeded && retry.workflowId in t.queue
  }

  /** The end of a retry leaves an orphan exactly when it fails while its workflow has a live timer again. */
  lemma RetryEndKeepsIff(s: State, retry: Retry, met: Encounter)
    requires NoOrphans(s) && CanHappen(s, RetryEnds(retry, met))
    ensures NoOrphans(Step(s, RetryEnds(retry, met)))
       <==> (FailsQueued(s, retry, met) ==> TimerIsDead(s, retry.workflowId))
  {
    var before := s.(attempts := s.attempts - multiset{retry});
    AddKeeps(before, retry.workflowId, retry.mode, met);
    AddOutcome(before, retry.workflowId, retry.mode, met);
    if FailsQueued(s, retry, met) {
      var t := Add(before, retry.workflowId, retry.mode, met).0;
      RequeueKeepsIff(t, retry);
    }
  }

  lemma StepKeepsNoOrphans(s: State, event: Event)
    requires NoOrphans(s) && CanHappen(s, event)
    requires event.RetryEnds? ==> TimerIsDead(s, event.retry.workflowId)
    ensures NoOrphans(Step(s, event))
  {
    match event
    case AddWorkflow(workflowId, mode, met) => AddKeeps(s, workflowId, mode, met);
    case StartUp(workflowId, mode, met, authorization) =>
      AddKeeps(s, workflowId, mode, met);
      AddQueuedKeeps(Add(s, workflowId, mode, met).0, workflowId, Init);
    case TriggerFails(workflowId, mode, closes) =>
      AddQueuedKeeps(s.(active := if closes then s.active - {workflowId} else s.active,
                        errors := s.errors + {workflowId}), workflowId, mode);
    case RetryStarts(h) =>
    case RetryEnds(retry, met) => RetryEndKeepsIff(s, retry, met);
    case RemoveWorkflow(workflowId, clears, closes) =>
      RemoveQueuedKeeps(s.(rows := if clears then Cleared(s.rows, workflowId) else s.rows,
                           errors := s.errors - {workflowId}), workflowId);
    case RemoveAllFromQueue => RemoveAllQueuedKeeps(s);
    case ClearError(workflowId) =>
    case ClearAllErrors =>
  }

  /** Retries are single steps: nothing happens between the start and the end of one. */
  ghost predicate SingleSteps(s: State, es: seq<Event>)
    decreases |es|
  {
    if es == [] then true
    else if !CanHappen(s, es[0]) then false
    else
      var t, rest := Step(s, es[0]), es[1..];
      if es[0].RetryStarts? then
        && rest != [] && rest[0].RetryEnds? && rest[0].retry == s.timers[es[0].timer].retry
        && CanHappen(t, rest[0]) && SingleSteps(Step(t, rest[0]), rest[1..])
      else !es[0].RetryEnds? && SingleSteps(t, rest)
  }

  /**
    With retries as single steps, every reachable state has at most one live retry timer per workflow, and it is the
    handle in the queue entry of that workflow.
   */
  lemma {:induction false} NoOrphansOverRuns(s: State, es: seq<Event>)
    requires NoOrphans(s) && IsRun(s, es) && SingleSteps(s, es)
    ensures NoOrphans(Run(s, es))
    decreases |es|
  {
    if es != [] {
      var t := Step(s, es[0]);
      StepKeepsNoOrphans(s, es[0]);
      if es[0].RetryStarts? {
        var rest := es[1..];
        assert TimerIsDead(t, rest[0].retry.workflowId);
        StepKeepsNoOrphans(t, rest[0]);
        NoOrphansOverRuns(Step(t, rest[0]), rest[1..]);
      } else {
        NoOrphansOverRuns(t, es[1..]);
      }
    }
  }

  // ---- Workflows that left the queue -----------------------------------------------------------------------

  /** Nothing will retry the workflow. */
  ghost predicate Quiet(s: State, workflowId: string) {
    && workflowId !in s.queue
    && (forall h :: h in s.timers ==> s.timers[h].retry.workflowId != workflowId)
    && (forall r :: r in s.attempts ==> r.workflowId != workflowId)
  }

  /** The steps that put a workflow into the queue. */
  predicate Queues(event: Event, workflowId: string) {
    (event.StartUp? || event.TriggerFails?) && event.workflowId == workflowId
  }

  lemma AddKeepsQuiet(s: State, u: string, mode: Mode, e: Encounter, workflowId: string)
    requires Quiet(s, workflowId) && e.Valid()
    ensures Quiet(Add(s, u, mode, e).0, workflowId)
  {
    AddOutcome(s, u, mode, e);
  }

  lemma QueueingKeepsQuiet(s: State, retry: Retry, workflowId: string)
    requires Quiet(s, workflowId) && retry.workflowId != workflowId
    ensures Quiet(AddQueued(s, retry.workflowId, retry.mode), workflowId)
    ensures retry.workflowId in s.queue ==> Quiet(Requeue(s, retry), workflowId)
  {
  }

  lemma QuietStep(s: State, event: Event, workflowId: string)
    requires Quiet(s, workflowId) && CanHappen(s, event) && !Queues(event, workflowId)
    ensures Quiet(Step(s, event), workflowId)
    ensures !(event.RetryStarts? && s.timers[event.timer].retry.workflowId == workflowId)
  {
    match event
    case AddWorkflow(u, mode, met) => AddKeepsQuiet(s, u, mode, met, workflowId);
    case StartUp(u, mode, met, authorization) =>
      AddKeepsQuiet(s, u, mode, met, workflowId);
      QueueingKeepsQuiet(Add(s, u, mode, met).0, Retry(u, Init), workflowId);
    case TriggerFails(u, mode, closes) =>
      QueueingKeepsQuiet(s.(active := if closes then s.active - {u} else s.active,
                            errors := s.errors + {u}), Retry(u, mode), workflowId);
    case RetryEnds(retry, met) =>
      assert retry.workflowId != workflowId;
      var ended := s.(attempts := s.attempts - multiset{retry});
      AddKeepsQuiet(ended, retry.workflowId, retry.mode, met, workflowId);
      QueueingKeepsQuiet(Add(ended, retry.workflowId, retry.mode, met).0, retry, workflowId);
    case _ =>
  }

  /** Once quiet, a workflow is never retried unless it is queued again. */
  lemma {:induction false} QuietStays(s: State, es: seq<Event>, workflowId: string)
    requires Quiet(s, workflowId) && IsRun(s, es) && forall e :: e in es ==> !Queues(e, workflowId)
    ensures Quiet(Run(s, es), workflowId)
    decreases |es|
  {
    if es != [] {
      assert es[0] in es;
      QuietStep(s, es[0], workflowId);
      QuietStays(Step(s, es[0]), es[1..], workflowId);
    }
  }

  /** Removing one entry, or all, makes its workflow quiet, unless a retry of it is under way. */
  lemma RemovalQuiets(s: State, workflowId: string, clears: bool, closes: bool)
    requires NoOrphans(s) && forall r :: r in s.attempts ==> r.workflowId != workflowId
    ensures Quiet(Step(s, RemoveWorkflow(workflowId, clears, closes)), workflowId)
    ensures Quiet(Step(s, RemoveAllFromQueue), workflowId)
  {
    RemoveQueuedKeeps(s.(rows := if clears then Cleared(s.rows, workflowId) else s.rows,
                         errors := s.errors - {workflowId}), workflowId);
    RemoveAllQueuedKeeps(s);
  }

  /** The start of a retry that a removal overtakes: the retry ends after it. */
  ghost function RemovedThenEnded(s: State, retry: Retry, met: Encounter): State
    requires retry in s.attempts && met.Valid()
  {
    Step(Step(s, RemoveWorkflow(retry.workflowId, true, true)), RetryEnds(retry, met))
  }

  /**
    A retry under way outlives the removal of its workflow: it makes the workflow active in memory again exactly when it
    reaches triggers, whether they then start or not; it brings webhooks back exactly when one was stored and not rolled
    back; and it puts nothing into the queue.
   */
  lemma RetryAfterRemoval(s: State, retry: Retry, met: Encounter)
    requires retry in s.attempts && met.Valid()
    ensures var t := RemovedThenEnded(s, retry, met);
            var u := retry.workflowId;
            && (u in t.active <==> ReachesTriggers(retry.mode, met) && met.hasTriggers)
            && (!NoRows(t.rows, u) <==>
                  && met.found && met.startable && ShouldAddWebhooks(retry.mode)
                  && StoresSome(met.script, retry.mode == Init)
                  && (met.clears ==> !Breaks(met.script, retry.mode == Init)))
            && (u in t.errors <==> !(Activates(retry.mode, met) && met.counted))
            && u !in t.queue
  {
    var removed := Step(s, RemoveWorkflow(retry.workflowId, true, true));
    var ended := removed.(attempts := removed.attempts - multiset{retry});
    RemoveLeavesNothing(s, retry.workflowId, true, true);
    AddOutcome(ended, retry.workflowId, retry.mode, met);
    AddRows(ended, retry.workflowId, retry.mode, met);
    RowsLeftIff(removed.rows, retry.workflowId, met.webhooks, met.script, retry.mode == Init, met.clears);
  }

  // ---- The missing entry -----------------------------------------------------------------------------------

  /** The retry fails and finds no entry of its workflow: it reads a property of `undefined`. */
  predicate ReadsMissing(s: State, retry: Retry, met: Encounter)
    requires met.Valid()
  {
    var (t, succeeded) := Add(s.(attempts := s.attempts - multiset{retry}), retry.workflowId, retry.mode, met);
    !succeeded && retry.workflowId !in t.queue
  }

  /**
    Without an entry when the attempt ends, that is every failed attempt; with one, exactly the attempts that set
    everything up, and so drop the entry, but fail in one of the two writes after that.
   */
  lemma ReadsMissingIff(s: State, retry: Retry, met: Encounter)
    requires met.Valid()
    ensures retry.workflowId !in s.queue ==>
      (ReadsMissing(s, retry, met) <==> !(Activates(retry.mode, met) && met.counted && met.persisted))
    ensures retry.workflowId in s.queue ==>
      (ReadsMissing(s, retry, met) <==> Activates(retry.mode, met) && !(met.counted && met.persisted))
  {
    AddOutcome(s.(attempts := s.attempts - multiset{retry}), retry.workflowId, retry.mode, met);
  }

  /** With retries as single steps the entry is always there at first, in every run. */
  lemma SingleRetryReadsMissingIff(es: seq<Event>, h: nat, met: Encounter)
    requires IsRun(INITIAL, es) && SingleSteps(INITIAL, es) && h in Run(INITIAL, es).timers && met.Valid()
    ensures var s := Run(INITIAL, es);
            var retry := s.timers[h].retry;
            ReadsMissing(Step(s, RetryStarts(h)), retry, met) <==>
              Activates(retry.mode, met) && !(met.counted && met.persisted)
  {
    NoOrphansOverRuns(INITIAL, es);
    var s := Run(INITIAL, es);
    ReadsMissingIff(Step(s, RetryStarts(h)), s.timers[h].retry, met);
  }

  // ---- Queued workflows are retried ------------------------------------------------------------------------

  /** The entry of the workflow holds a live timer that will retry it, after the delay that the entry names. */
  predicate Waits(s: State, retry: Retry) {
    && retry.workflowId in s.queue && s.queue[retry.workflowId].timer in s.timers
    && s.timers[s.queue[retry.workflowId].timer] == Timer(retry, s.queue[retry.workflowId].lastTimeout)
  }

  /** Every queued workflow but `but` waits for a retry in its own mode. */
  ghost predicate OthersWait(s: State, but: set<string>) {
    forall u :: u in s.queue && u !in but ==> Waits(s, Retry(u, s.queue[u].mode))
  }

  lemma RemoveQueuedWaits(s: State, workflowId: string, but: set<string>)
    requires NoOrphans(s) && OthersWait(s, but)
    ensures OthersWait(RemoveQueued(s, workflowId), but)
  {
    var t := RemoveQueued(s, workflowId);
    forall u | u in t.queue && u !in but ensures Waits(t, Retry(u, t.queue[u].mode)) {
      assert Waits(s, Retry(u, s.queue[u].mode));
    }
  }

  lemma QueuedWaits(s: State, workflowId: string, mode: Mode)
    ensures var t := AddQueued(s, workflowId, mode);
            && Waits(t, Retry(workflowId, mode)) && t.timers[t.queue[workflowId].timer].delay == 1000
            && t.active == s.active && t.errors == s.errors && t.rows == s.rows
            && forall u :: u != workflowId ==>
                 (u in t.queue <==> u in s.queue) && (u in s.queue ==> t.queue[u] == s.queue[u])
  {
  }

  lemma AddQueuedWaits(s: State, workflowId: string, mode: Mode, but: set<string>)
    requires NoOrphans(s) && OthersWait(s, but)
    ensures OthersWait(AddQueued(s, workflowId, mode), but - {workflowId})
  {
    QueuedWaits(s, workflowId, mode);
    RemoveQueuedWaits(s, workflowId, but);
    RemoveQueuedKeeps(s, workflowId);
    var cleared, t := RemoveQueued(s, workflowId), AddQueued(s, workflowId, mode);
    forall u | u in t.queue && u !in but && u != workflowId ensures Waits(t, Retry(u, t.queue[u].mode)) {
      assert Waits(cleared, Retry(u, cleared.queue[u].mode));
    }
  }

  lemma RequeueWaits(s: State, retry: Retry, but: set<string>)
    requires NoOrphans(s) && OthersWait(s, but) && retry.workflowId in s.queue
    ensures Waits(Requeue(s, retry), retry)
    ensures retry.mode == s.queue[retry.workflowId].mode ==> OthersWait(Requeue(s, retry), but - {retry.workflowId})
  {
    var t := Requeue(s, retry);
    if retry.mode == s.queue[retry.workflowId].mode {
      forall u | u in t.queue && u !in but - {retry.workflowId} ensures Waits(t, Retry(u, t.queue[u].mode)) {
        assert u != retry.workflowId ==> Waits(s, Retry(u, s.queue[u].mode));
      }
    }
  }

  lemma AddWaits(s: State, workflowId: string, mode: Mode, e: Encounter, but: set<string>)
    requires NoOrphans(s) && OthersWait(s, but) && e.Valid()
    ensures OthersWait(Add(s, workflowId, mode, e).0, but)
  {
    AddOutcome(s, workflowId, mode, e);
    RemoveQueuedWaits(s, workflowId, but);
    var t, unqueued := Add(s, workflowId, mode, e).0, RemoveQueued(s, workflowId);
    forall u | u in t.queue && u !in but ensures Waits(t, Retry(u, t.queue[u].mode)) {
      assert Waits(s, Retry(u, s.queue[u].mode));
      assert u in unqueued.queue ==> Waits(unqueued, Retry(u, unqueued.queue[u].mode));
    }
  }

  /** A retry that fails before everything is set up, with its workflow still queued, is followed by another one. */
  lemma FailedRetryWaits(s: State, retry: Retry, met: Encounter)
    requires CanHappen(s, RetryEnds(retry, met)) && retry.workflowId in s.queue && !Activates(retry.mode, met)
    ensures var t := Step(s, RetryEnds(retry, met));
            && Waits(t, retry)
            && t.queue[retry.workflowId].lastTimeout == NextTimeout(s.queue[retry.workflowId].lastTimeout)
  {
    AddOutcome(s.(attempts := s.attempts - multiset{retry}), retry.workflowId, retry.mode, met);
  }

  /** Between its start and its end only the workflow of the retry does not wait. */
  lemma StartedWaits(s: State, h: nat)
    requires NoOrphans(s) && OthersWait(s, {}) && h in s.timers
    ensures var retry := s.timers[h].retry;
            && OthersWait(Step(s, RetryStarts(h)), {retry.workflowId})
            && retry.workflowId in s.queue && retry.mode == s.queue[retry.workflowId].mode
  {
    var t, v := Step(s, RetryStarts(h)), s.timers[h].retry.workflowId;
    assert Waits(s, Retry(v, s.queue[v].mode));
    forall u | u in t.queue && u != v ensures Waits(t, Retry(u, t.queue[u].mode)) {
      assert Waits(s, Retry(u, s.queue[u].mode));
    }
  }

  lemma EndedWaits(s: State, retry: Retry, met: Encounter)
    requires NoOrphans(s) && OthersWait(s, {retry.workflowId}) && CanHappen(s, RetryEnds(retry, met))
    requires retry.workflowId in s.queue && retry.mode == s.queue[retry.workflowId].mode
    ensures OthersWait(Step(s, RetryEnds(retry, met)), {})
  {
    var before, w := s.(attempts := s.attempts - multiset{retry}), retry.workflowId;
    AddOutcome(before, w, retry.mode, met);
    AddKeeps(before, w, retry.mode, met);
    assert OthersWait(before, {w}) by {
      forall u | u in before.queue && u != w ensures Waits(before, Retry(u, before.queue[u].mode)) {
        assert Waits(s, Retry(u, s.queue[u].mode));
      }
    }
    AddWaits(before, w, retry.mode, met, {w});
    var t := Add(before, w, retry.mode, met).0;
    if w in t.queue {
      RequeueWaits(t, retry, {w});
      assert {w} - {w} == {};
    }
  }

  lemma StepWaits(s: State, event: Event)
    requires NoOrphans(s) && OthersWait(s, {}) && CanHappen(s, event) && !event.RetryStarts? && !event.RetryEnds?
    ensures OthersWait(Step(s, event), {}) && Step(s, event).attempts == s.attempts
  {
    match event
    case AddWorkflow(workflowId, mode, met) =>
      AddWaits(s, workflowId, mode, met, {});
      AddOutcome(s, workflowId, mode, met);
    case StartUp(workflowId, mode, met, authorization) =>
      AddWaits(s, workflowId, mode, met, {});
      AddOutcome(s, workflowId, mode, met);
      AddKeeps(s, workflowId, mode, met);
      QueuedWaits(Add(s, workflowId, mode, met).0, workflowId, Init);
      AddQueuedWaits(Add(s, workflowId, mode, met).0, workflowId, Init, {});
    case TriggerFails(workflowId, mode, closes) =>
      var failed := s.(active := if closes then s.active - {workflowId} else s.active,
                       errors := s.errors + {workflowId});
      SameQueueWaits(s, failed);
      AddQueuedWaits(failed, workflowId, mode, {});
    case RemoveWorkflow(workflowId, clears, closes) =>
      RemoveQueuedWaits(s, workflowId, {});
      SameQueueWaits(RemoveQueued(s, workflowId), Step(s, event));
    case RemoveAllFromQueue =>
    case ClearError(workflowId) => SameQueueWaits(s, Step(s, event));
    case ClearAllErrors => SameQueueWaits(s, Step(s, event));
  }

  lemma SameQueueWaits(s: State, t: State)
    requires OthersWait(s, {}) && t.queue == s.queue && t.timers == s.timers
    ensures OthersWait(t, {})
  {
    forall u | u in t.queue ensures Waits(t, Retry(u, t.queue[u].mode)) {
      assert Waits(s, Retry(u, s.queue[u].mode));
    }
  }

  /**
    With retries as single steps, in every reachable state every queued workflow has a live timer in its entry, set to
    the delay that the entry names, that will retry it in the mode it was queued with; and no retry is left under way.
   */
  lemma {:induction false} AllWaitOverRuns(s: State, es: seq<Event>)
    requires NoOrphans(s) && OthersWait(s, {}) && s.attempts == multiset{} && IsRun(s, es) && SingleSteps(s, es)
    ensures OthersWait(Run(s, es), {}) && Run(s, es).attempts == multiset{}
    decreases |es|
  {
    if es != [] {
      var t, rest := Step(s, es[0]), es[1..];
      StepKeepsNoOrphans(s, es[0]);
      if es[0].RetryStarts? {
        var retry, u := rest[0].retry, Step(t, rest[0]);
        StartedWaits(s, es[0].timer);
        EndedWaits(t, retry, rest[0].met);
        AddOutcome(t.(attempts := t.attempts - multiset{retry}), retry.workflowId, retry.mode, rest[0].met);
        assert u.attempts == multiset{};
        StepKeepsNoOrphans(t, rest[0]);
        AllWaitOverRuns(u, rest[1..]);
      } else {
        StepWaits(s, es[0]);
        AllWaitOverRuns(t, rest);
      }
    }
  }

  /** So from the start, also while a retry is under way, every other queued workflow waits. */
  lemma QueuedAreRetried(es: seq<Event>, h: nat)
    requires IsRun(INITIAL, es) && SingleSteps(INITIAL, es)
    ensures var s := Run(INITIAL, es);
            && OthersWait(s, {})
            && (h in s.timers ==> OthersWait(Step(s, RetryStarts(h)), {s.timers[h].retry.workflowId}))
  {
    AllWaitOverRuns(INITIAL, es);
    NoOrphansOverRuns(INITIAL, es);
    if h in Run(INITIAL, es).timers {
      StartedWaits(Run(INITIAL, es), h);
    }
  }

  /** A start-up that fails queues the workflow for retries in `init` mode, unless authorization failed. */
  lemma FailedStartUpWaits(s: State, workflowId: string, mode: Mode, met: Encounter, authorization: bool)
    requires met.Valid() && !Add(s, workflowId, mode, met).1
    ensures var t := Step(s, StartUp(workflowId, mode, met, authorization));
            && (!authorization ==>
                  Waits(t, Retry(workflowId, Init)) && t.timers[t.queue[workflowId].timer].delay == 1000)
            && (authorization ==> (workflowId in t.queue <==> workflowId in s.queue && !Activates(mode, met)))
  {
    QueuedWaits(Add(s, workflowId, mode, met).0, workflowId, Init);
    AddOutcome(s, workflowId, mode, met);
  }

  /** A trigger that fails leaves the workflow inactive, if it can be closed, with an error and a retry to come. */
  lemma FailedTriggerWaits(s: State, workflowId: string, mode: Mode, closes: bool)
    ensures var t := Step(s, TriggerFails(workflowId, mode, closes));
            && (workflowId in t.active <==> workflowId in s.active && !closes) && workflowId in t.errors
            && Waits(t, Retry(workflowId, mode)) && t.timers[t.queue[workflowId].timer].delay == 1000
            && t.rows == s.rows && forall u :: u != workflowId ==> SameFor(s, t, u)
  {
    var failed := s.(active := if closes then s.active - {workflowId} else s.active, errors := s.errors + {workflowId});
    QueuedWaits(failed, workflowId, mode);
  }

  // ---- Delays ----------------------------------------------------------------------------------------------

  /** The retry as a whole, if the workflow waits for it: its timer fires and the attempt ends. */
  function RetryNow(s: State, retry: Retry, met: Encounter): State
    requires met.Valid()
  {
    if Waits(s, retry) then Step(Step(s, RetryStarts(s.queue[retry.workflowId].timer)), RetryEnds(retry, met)) else s
  }

  function RetryEach(s: State, retry: Retry, mets: seq<Encounter>): State
    requires forall met :: met in mets ==> met.Valid()
    decreases |mets|
  {
    if mets == [] then s
    else
      var last := mets[|mets| - 1];
      assert last in mets && forall met :: met in mets[..|mets| - 1] ==> met in mets;
      RetryNow(RetryEach(s, retry, mets[..|mets| - 1]), retry, last)
  }

  /**
    A workflow is queued and every retry of it fails before everything is set up: after `n` failures its timer is live
    and set to 1000 * 2^n milliseconds, at most a day.
   */
  lemma {:induction false} DelayAfterFailures(s: State, retry: Retry, mets: seq<Encounter>)
    requires forall met :: met in mets ==> met.Valid() && !Activates(retry.mode, met)
    ensures var t := RetryEach(AddQueued(s, retry.workflowId, retry.mode), retry, mets);
            && Waits(t, retry)
            && t.timers[t.queue[retry.workflowId].timer].delay == Min(1000 * Pow2(|mets|), 86400000)
    decreases |mets|
  {
    var queued := AddQueued(s, retry.workflowId, retry.mode);
    QueuedWaits(s, retry.workflowId, retry.mode);
    DelayClosedForm(|mets|);
    if mets != [] {
      var rest, last := mets[..|mets| - 1], mets[|mets| - 1];
      assert last in mets && forall met :: met in rest ==> met in mets;
      DelayAfterFailures(s, retry, rest);
      DelayClosedForm(|rest|);
      var before := RetryEach(queued, retry, rest);
      FailedRetryWaits(Step(before, RetryStarts(before.queue[retry.workflowId].timer)), retry, last);
    }
  }
}
