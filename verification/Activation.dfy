/**
  Activating workflows in a single main (packages/cli/src/active-workflow-manager.ts): the webhook table, the triggers
  in memory, the recorded activation errors and the retry queue, as one state with its steps.
 */
module Activation {
  import opened Webhooks
  import opened Backoff

  datatype Mode = Init | Create | Update | Activate | Manual | LeadershipChange

  /** `QueuedActivation`; `timer` is the handle of the last retry timer that was set. */
  datatype Queued = Queued(mode: Mode, lastTimeout: nat, timer: nat)

  /** What a retry closure holds. */
  datatype Retry = Retry(workflowId: string, mode: Mode)

  /** A live timer, with the delay that it was set to. */
  datatype Timer = Timer(retry: Retry, delay: nat)

  /**
    `active` are the workflows with triggers or pollers in memory, `errors` those with a recorded activation error.
    `timers` are the live retry timers, `attempts` the retries that have started and not ended.
   */
  datatype State = State(
    rows: Rows, active: set<string>, errors: set<string>, queue: map<string, Queued>,
    timers: map<nat, Timer>, nextTimer: nat, attempts: multiset<Retry>)

  /**
    What one activation meets. `saved` is false when the webhooks are added but cannot be cached or their static data
    saved, `counted` when the trigger count cannot be stored, `persisted` when saving static data fails at the very end.
   */
  datatype Encounter = Encounter(
    found: bool, startable: bool, webhooks: seq<WebhookData>, script: seq<Attempt>, clears: bool, saved: bool,
    hasTriggers: bool, triggersStart: bool, counted: bool, persisted: bool)
  {
    ghost predicate Valid() { |script| == |webhooks| }
  }

  predicate ShouldAddWebhooks(mode: Mode) {
    mode != LeadershipChange
  }

  // ---- Queue -----------------------------------------------------------------------------------------------

  function RemoveQueued(s: State, workflowId: string): State {
    if workflowId in s.queue then s.(timers := s.timers - {s.queue[workflowId].timer}, queue := s.queue - {workflowId})
    else s
  }

  function AddQueued(s: State, workflowId: string, mode: Mode): State {
    var cleared := RemoveQueued(s, workflowId);
    cleared.(
      queue := cleared.queue[workflowId := Queued(mode, INITIAL_TIMEOUT, s.nextTimer)],
      timers := cleared.timers[s.nextTimer := Timer(Retry(workflowId, mode), INITIAL_TIMEOUT)],
      nextTimer := s.nextTimer + 1)
  }

  /** A failed retry with its entry still in the queue sets the next timer. */
  function Requeue(s: State, retry: Retry): State
    requires retry.workflowId in s.queue
  {
    var entry := s.queue[retry.workflowId];
    var timeout := NextTimeout(entry.lastTimeout);
    s.(
      queue := s.queue[retry.workflowId := entry.(lastTimeout := timeout, timer := s.nextTimer)],
      timers := s.timers[s.nextTimer := Timer(retry, timeout)],
      nextTimer := s.nextTimer + 1)
  }

  function RemoveAllQueued(s: State): State {
    s.(timers := map h | h in s.timers && !IsHandle(s, h) :: s.timers[h], queue := map[])
  }

  /** `h` is the handle in some entry. */
  predicate IsHandle(s: State, h: nat) {
    exists workflowId :: workflowId in s.queue && s.queue[workflowId].timer == h
  }

  // ---- add and remove --------------------------------------------------------------------------------------

  /** The webhooks, if the mode asks for them; the flag tells whether that threw. */
  function Hooked(rows: Rows, workflowId: string, mode: Mode, e: Encounter): (Rows, bool)
    requires e.Valid()
  {
    if ShouldAddWebhooks(mode) then
      AddWebhooks(rows, workflowId, e.webhooks, e.script, e.saved, mode == Init, e.clears)
    else (rows, false)
  }

  /** The `try` block of `add`; the flag tells whether it went through. */
  function Attempted(s: State, workflowId: string, mode: Mode, e: Encounter): (State, bool)
    requires e.Valid()
  {
    if !e.found || !e.startable then (s, false)
    else
      var (rows, threw) := Hooked(s.rows, workflowId, mode, e);
      if threw then (s.(rows := rows), false) else Triggered(s.(rows := rows), workflowId, e)
  }

  /** The rest of it, with the webhooks in place. */
  function Triggered(s: State, workflowId: string, e: Encounter): (State, bool) {
    var triggered := if e.hasTriggers then s.(active := s.active + {workflowId}) else s;
    if e.hasTriggers && !e.triggersStart then (triggered, false)
    else
      var unqueued := RemoveQueued(triggered, workflowId);
      (unqueued.(errors := unqueued.errors - {workflowId}), e.counted)
  }

  /** The whole of it. A failure after the `try` block is thrown but not recorded. */
  function Add(s: State, workflowId: string, mode: Mode, e: Encounter): (State, bool)
    requires e.Valid()
  {
    var (t, passed) := Attempted(s, workflowId, mode, e);
    if passed then (t, e.persisted) else (t.(errors := t.errors + {workflowId}), false)
  }

  /** `remove`; `clears` and `closes` tell whether the webhooks can be cleared and the triggers closed. */
  function Remove(s: State, workflowId: string, clears: bool, closes: bool): State {
    var cleared := s.(rows := if clears then Cleared(s.rows, workflowId) else s.rows,
                          errors := s.errors - {workflowId});
    var unqueued := RemoveQueued(cleared, workflowId);
    unqueued.(active := if closes then unqueued.active - {workflowId} else unqueued.active)
  }

  // ---- Steps -----------------------------------------------------------------------------------------------

  datatype Event =
    | AddWorkflow(workflowId: string, mode: Mode, met: Encounter)
    | StartUp(workflowId: string, mode: Mode, met: Encounter, authorization: bool)
    | TriggerFails(workflowId: string, mode: Mode, closes: bool)
    | RetryStarts(timer: nat)
    | RetryEnds(retry: Retry, met: Encounter)
    | RemoveWorkflow(workflowId: string, clears: bool, closes: bool)
    | RemoveAllFromQueue
    | ClearError(workflowId: string)
    | ClearAllErrors

  /** Timers fire while they are live, attempts end after they started. */
  ghost predicate CanHappen(s: State, event: Event) {
    match event
    case AddWorkflow(_, _, met) => met.Valid()
    case StartUp(_, _, met, _) => met.Valid()
    case RetryStarts(h) => h in s.timers
    case RetryEnds(retry, met) => met.Valid() && retry in s.attempts
    case _ => true
  }

  function Step(s: State, event: Event): State
    requires CanHappen(s, event)
  {
    match event
    case AddWorkflow(workflowId, mode, met) => Add(s, workflowId, mode, met).0
    case StartUp(workflowId, mode, met, authorization) =>
      var (t, succeeded) := Add(s, workflowId, mode, met);
      // whatever the mode, the retries run in `init` mode
      if succeeded || authorization then t else AddQueued(t, workflowId, Init)
    case TriggerFails(workflowId, mode, closes) =>
      AddQueued(s.(active := if closes then s.active - {workflowId} else s.active,
                   errors := s.errors + {workflowId}), workflowId, mode)
    case RetryStarts(h) => s.(timers := s.timers - {h}, attempts := s.attempts + multiset{s.timers[h].retry})
    case RetryEnds(retry, met) =>
      var (t, succeeded) := Add(s.(attempts := s.attempts - multiset{retry}), retry.workflowId, retry.mode, met);
      if succeeded || retry.workflowId !in t.queue then t else Requeue(t, retry)
    case RemoveWorkflow(workflowId, clears, closes) => Remove(s, workflowId, clears, closes)
    case RemoveAllFromQueue => RemoveAllQueued(s)
    case ClearError(workflowId) => s.(errors := s.errors - {workflowId})
    case ClearAllErrors => s.(errors := {})
  }

  /** A run: every event can happen when its turn comes. */
  ghost predicate IsRun(s: State, es: seq<Event>)
    decreases |es|
  {
    es != [] ==> CanHappen(s, es[0]) && IsRun(Step(s, es[0]), es[1..])
  }

  ghost function Run(s: State, es: seq<Event>): State
    requires IsRun(s, es)
    decreases |es|
  {
    if es == [] then s else Run(Step(s, es[0]), es[1..])
  }

  const INITIAL: State := State(map[], {}, {}, map[], map[], 0, multiset{})

  // ---- What add and remove leave ---------------------------------------------------------------------------

  /** Everything of the workflow `u`, rows apart, is the same in both states. */
  ghost predicate SameFor(s: State, t: State, u: string) {
    && (u in s.active <==> u in t.active) && (u in s.errors <==> u in t.errors)
    && (u in s.queue <==> u in t.queue) && (u in s.queue ==> t.queue[u] == s.queue[u])
  }

  /** No attempt for a webhook throws, and what follows them succeeds. */
  predicate WebhooksPass(mode: Mode, e: Encounter) {
    ShouldAddWebhooks(mode) ==> !Breaks(e.script, mode == Init) && (e.webhooks == [] || e.saved)
  }

  /** The triggers, if there are any, are reached. */
  predicate ReachesTriggers(mode: Mode, e: Encounter) {
    e.found && e.startable && WebhooksPass(mode, e)
  }

  /** Everything that is to be set up is. */
  predicate Activates(mode: Mode, e: Encounter) {
    ReachesTriggers(mode, e) && (e.hasTriggers ==> e.triggersStart)
  }

  lemma WebhooksPassIff(s: State, workflowId: string, mode: Mode, e: Encounter)
    requires e.Valid()
    ensures WebhooksPass(mode, e) <==> !Hooked(s.rows, workflowId, mode, e).1
  {
    ThrowsIffBreaks(s.rows, workflowId, e.webhooks, e.script, mode == Init, e.clears);
  }

  /** Stuck before the triggers: only rows may have changed. */
  lemma StuckEarly(s: State, workflowId: string, mode: Mode, e: Encounter)
    requires e.Valid() && !ReachesTriggers(mode, e)
    ensures var (t, passed) := Attempted(s, workflowId, mode, e);
            !passed && t == s.(rows := t.rows)
  {
    WebhooksPassIff(s, workflowId, mode, e);
  }

  /** Stuck at the triggers: the workflow is in memory. */
  lemma StuckAtTriggers(s: State, workflowId: string, mode: Mode, e: Encounter)
    requires e.Valid() && ReachesTriggers(mode, e) && !Activates(mode, e)
    ensures var (t, passed) := Attempted(s, workflowId, mode, e);
            !passed && t == s.(rows := t.rows, active := s.active + {workflowId})
  {
    WebhooksPassIff(s, workflowId, mode, e);
  }

  lemma GotThrough(s: State, workflowId: string, mode: Mode, e: Encounter)
    requires e.Valid() && Activates(mode, e)
    ensures var (t, passed) := Attempted(s, workflowId, mode, e);
            var unqueued := RemoveQueued(s, workflowId);
            && passed == e.counted
            && t == unqueued.(rows := t.rows, errors := s.errors - {workflowId},
                              active := if e.hasTriggers then s.active + {workflowId} else s.active)
  {
    WebhooksPassIff(s, workflowId, mode, e);
  }

  /** What an activation comes to, in terms of what it meets. */
  lemma AddOutcome(s: State, workflowId: string, mode: Mode, e: Encounter)
    requires e.Valid()
    ensures var (t, succeeded) := Add(s, workflowId, mode, e);
            && (succeeded <==> Activates(mode, e) && e.counted && e.persisted)
            && t.active == (if ReachesTriggers(mode, e) && e.hasTriggers then s.active + {workflowId} else s.active)
            && t.errors ==
                 (if Activates(mode, e) && e.counted then s.errors - {workflowId} else s.errors + {workflowId})
            && t.queue == (if Activates(mode, e) then RemoveQueued(s, workflowId).queue else s.queue)
            && t.timers == (if Activates(mode, e) then RemoveQueued(s, workflowId).timers else s.timers)
            && t.nextTimer == s.nextTimer && t.attempts == s.attempts
  {
    if Activates(mode, e) {
      GotThrough(s, workflowId, mode, e);
    } else if ReachesTriggers(mode, e) {
      StuckAtTriggers(s, workflowId, mode, e);
    } else {
      StuckEarly(s, workflowId, mode, e);
    }
  }

  lemma AddRows(s: State, workflowId: string, mode: Mode, e: Encounter)
    requires e.Valid()
    ensures Add(s, workflowId, mode, e).0.rows
         == if e.found && e.startable && ShouldAddWebhooks(mode)
            then AddAll(s.rows, workflowId, e.webhooks, e.script, mode == Init, e.clears).0
            else s.rows
  {
  }

  lemma AddOthers(s: State, workflowId: string, mode: Mode, e: Encounter, u: string)
    requires e.Valid() && u != workflowId
    ensures SameFor(s, Add(s, workflowId, mode, e).0, u)
  {
    AddOutcome(s, workflowId, mode, e);
  }

  /** Some attempt breaks the loop exactly when one fails for a reason that the mode does not pass over. */
  lemma BreaksMeaning(script: seq<Attempt>, init: bool)
    ensures Breaks(script, init) <==>
      !forall i :: 0 <= i < |script| ==> script[i].Succeeds? || (init && script[i].queryFailed)
  {
    if i :| 0 <= i < |script| && !(script[i].Succeeds? || (init && script[i].queryFailed)) {
      assert Throws(script[i], init);
    }
  }

  /**
    A successful `add` leaves the workflow with its webhooks and triggers, and neither queued nor with an error. It
    succeeds exactly when everything it meets does; in `init` mode database errors of webhooks are passed over, and on
    a change of leadership there are no webhooks to add.
   */
  lemma AddSucceeds(s: State, workflowId: string, mode: Mode, e: Encounter)
    requires e.Valid()
    ensures var (t, succeeded) := Add(s, workflowId, mode, e);
            && (succeeded <==>
                  && e.found && e.startable
                  && (mode == LeadershipChange
                      || ((forall i :: 0 <= i < |e.script| ==>
                             e.script[i].Succeeds? || (mode == Init && e.script[i].queryFailed))
                          && (e.webhooks == [] || e.saved)))
                  && (e.hasTriggers ==> e.triggersStart) && e.counted && e.persisted)
            && (succeeded ==>
                  && workflowId !in t.queue && workflowId !in t.errors
                  && (e.hasTriggers ==> workflowId in t.active)
                  && (mode != LeadershipChange && mode != Init ==> AllStored(t.rows, workflowId, e.webhooks))
                  && (mode == Init ==> t.rows == s.rows + Written(workflowId, e.webhooks, e.script))
                  && (mode == LeadershipChange ==> t.rows == s.rows))
            && forall u :: u != workflowId ==> SameFor(s, t, u)
  {
    AddOutcome(s, workflowId, mode, e);
    AddRows(s, workflowId, mode, e);
    BreaksMeaning(e.script, mode == Init);
    forall u | u != workflowId ensures SameFor(s, Add(s, workflowId, mode, e).0, u) {
      AddOthers(s, workflowId, mode, e, u);
    }
    if Activates(mode, e) {
      if mode == Init {
        InitWrites(s.rows, workflowId, e.webhooks, e.script, e.clears);
      } else if mode != LeadershipChange {
        StoredOnReturn(s.rows, workflowId, e.webhooks, e.script, e.clears);
      }
    }
  }

  /**
    A failed `add` records the error, unless it fails after everything else succeeded. The queue keeps its entry
    exactly when the activation got stuck before. Outside `init` mode, webhooks that break off leave no row, if they
    can be cleared, and no trigger; any failure after them leaves the webhooks in the table, and one after the start
    of the triggers leaves the workflow in memory too.
   */
  lemma AddFails(s: State, workflowId: string, mode: Mode, e: Encounter)
    requires e.Valid() && !Add(s, workflowId, mode, e).1
    ensures var t := Add(s, workflowId, mode, e).0;
            && (workflowId in t.errors <==> !(Activates(mode, e) && e.counted))
            && (workflowId in t.queue <==> workflowId in s.queue && !Activates(mode, e))
            && (workflowId in t.queue ==> t.queue == s.queue && t.timers == s.timers)
            && (workflowId in t.active <==>
                  || workflowId in s.active
                  || (&& e.found && e.startable && e.hasTriggers
                      && (mode == LeadershipChange
                          || ((forall i :: 0 <= i < |e.script| ==>
                                 e.script[i].Succeeds? || (mode == Init && e.script[i].queryFailed))
                              && (e.webhooks == [] || e.saved)))))
            && (forall u :: u != workflowId ==> SameFor(s, t, u))
            && (e.found && e.startable && mode != LeadershipChange && mode != Init ==>
                  if exists i :: 0 <= i < |e.script| && !e.script[i].Succeeds?
                  then e.clears ==> NoRows(t.rows, workflowId)
                  else AllStored(t.rows, workflowId, e.webhooks))
  {
    AddOutcome(s, workflowId, mode, e);
    AddRows(s, workflowId, mode, e);
    forall u | u != workflowId ensures SameFor(s, Add(s, workflowId, mode, e).0, u) {
      AddOthers(s, workflowId, mode, e, u);
    }
    BreaksMeaning(e.script, mode == Init);
    if e.found && e.startable && mode != LeadershipChange && mode != Init {
      if !Breaks(e.script, false) {
        StoredOnReturn(s.rows, workflowId, e.webhooks, e.script, e.clears);
      } else if e.clears {
        NoneOnBreak(s.rows, workflowId, e.webhooks, e.script, false);
      }
    }
  }

  /**
    Removing a workflow leaves no error, queue entry or retry timer of that entry, no row if the webhooks can be
    cleared and no trigger if the triggers can be closed; rows and triggers that cannot stay. Everything of every other
    workflow is as it was.
   */
  lemma RemoveLeavesNothing(s: State, workflowId: string, clears: bool, closes: bool)
    ensures var t := Remove(s, workflowId, clears, closes);
            && (if clears then NoRows(t.rows, workflowId) && OthersSame(s.rows, t.rows, workflowId)
                else t.rows == s.rows)
            && workflowId !in t.errors && workflowId !in t.queue
            && (workflowId in t.active <==> workflowId in s.active && !closes)
            && (workflowId in s.queue ==> s.queue[workflowId].timer !in t.timers)
            && (forall u :: u != workflowId ==> SameFor(s, t, u))
            && (forall k :: k in t.rows ==> k in s.rows)
            && (forall h :: h in s.timers && h !in t.timers ==> workflowId in s.queue && s.queue[workflowId].timer == h)
  {
  }

  // ---- Errors of queued workflows --------------------------------------------------------------------------

  /** A workflow in the retry queue has a recorded activation error. */
  predicate QueuedHaveErrors(s: State) {
    s.queue.Keys <= s.errors
  }

  /**
    The steps that leave a queued workflow without an error: clearing its error, or a start-up that fails in the very
    last of its writes, after the error was dropped.
   */
  predicate LosesError(s: State, event: Event) {
    match event
    case StartUp(_, mode, met, authorization) => Activates(mode, met) && met.counted && !met.persisted && !authorization
    case ClearError(workflowId) => workflowId in s.queue
    case ClearAllErrors => s.queue != map[]
    case _ => false
  }

  lemma QueuedHaveErrorsStepIff(s: State, event: Event)
    requires QueuedHaveErrors(s) && CanHappen(s, event)
    ensures QueuedHaveErrors(Step(s, event)) <==> !LosesError(s, event)
  {
    match event
    case AddWorkflow(workflowId, mode, met) => AddOutcome(s, workflowId, mode, met);
    case StartUp(workflowId, mode, met, authorization) =>
      AddOutcome(s, workflowId, mode, met);
      var (t, succeeded) := Add(s, workflowId, mode, met);
      if !succeeded && !authorization {
        assert workflowId in Step(s, event).queue && Step(s, event).errors == t.errors;
      }
    case RetryEnds(retry, met) =>
      AddOutcome(s.(attempts := s.attempts - multiset{retry}), retry.workflowId, retry.mode, met);
    case ClearAllErrors =>
      if s.queue != map[] {
        var u :| u in s.queue;
        assert u in Step(s, event).queue.Keys;
      }
    case ClearError(workflowId) =>
      assert workflowId in s.queue ==> workflowId in Step(s, event).queue.Keys;
    case _ =>
  }

  /** The states of a run, from the first to the last. */
  ghost function Trace(s: State, es: seq<Event>): (states: seq<State>)
    requires IsRun(s, es)
    ensures |states| == |es| + 1 && states[0] == s
    ensures forall k :: 0 <= k < |es| ==> CanHappen(states[k], es[k])
    decreases |es|
  {
    if es == [] then [s] else [s] + Trace(Step(s, es[0]), es[1..])
  }

  /** Throughout a run every queued workflow has an error, exactly when no step loses one. */
  lemma {:induction false} QueuedHaveErrorsIff(s: State, es: seq<Event>)
    requires QueuedHaveErrors(s) && IsRun(s, es)
    ensures (forall t :: t in Trace(s, es) ==> QueuedHaveErrors(t))
       <==> forall k :: 0 <= k < |es| ==> !LosesError(Trace(s, es)[k], es[k])
    decreases |es|
  {
    if es != [] {
      var t, states := Step(s, es[0]), Trace(s, es);
      var rest := Trace(t, es[1..]);
      assert states == [s] + rest && rest[0] == t && t in states;
      QueuedHaveErrorsStepIff(s, es[0]);
      assert LosesError(states[0], es[0]) == LosesError(s, es[0]);
      if QueuedHaveErrors(t) {
        QueuedHaveErrorsIff(t, es[1..]);
        assert forall u :: u in states <==> u == s || u in rest;
        assert forall k :: 0 <= k < |es| - 1 ==> states[k + 1] == rest[k] && es[k + 1] == es[1..][k];
        if forall k :: 0 <= k < |es| ==> !LosesError(states[k], es[k]) {
          forall k | 0 <= k < |es| - 1 ensures !LosesError(rest[k], es[1..][k]) {
            assert !LosesError(states[k + 1], es[k + 1]);
          }
        } else {
          var k :| 0 <= k < |es| && LosesError(states[k], es[k]);
          assert k > 0 && LosesError(rest[k - 1], es[1..][k - 1]);
        }
      }
    } else {
      assert Trace(s, es) == [s];
    }
  }
}
