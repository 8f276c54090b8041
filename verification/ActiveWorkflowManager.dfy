/** The service that activates workflows (packages/cli/src/active-workflow-manager.ts), for a single main. */
module ActiveWorkflowManager {
  import opened Webhooks
  import opened Backoff
  import opened Activation
  import opened RetryTimers

  class ActiveWorkflowManager {
    /** The webhook table, the workflows active in memory and the recorded errors belong to other services. */
    var webhookRows: Rows
    var activeWorkflows: set<string>
    var activationErrors: set<string>
    var queuedActivations: map<string, Queued>
    /** Live timers, the next handle, and the retry functions that are suspended. */
    var timers: map<nat, Timer>
    var nextTimer: nat
    var attempts: multiset<Retry>

    ghost function View(): State
      reads this
    {
      State(webhookRows, activeWorkflows, activationErrors, queuedActivations, timers, nextTimer, attempts)
    }

    constructor ()
      ensures View() == INITIAL
    {
      webhookRows, activeWorkflows, activationErrors, queuedActivations := map[], {}, {}, map[];
      timers, nextTimer, attempts := map[], 0, multiset{};
    }

    // ---- Webhooks ------------------------------------------------------------------------------------------

    /** `threw` is true where the program throws. */
    method AddWebhooks(workflowId: string, webhooks: seq<WebhookData>, script: seq<Attempt>, saved: bool, init: bool,
                       clears: bool)
      returns (threw: bool)
      requires |script| == |webhooks|
      modifies this`webhookRows
      ensures (webhookRows, threw)
             == Webhooks.AddWebhooks(old(webhookRows), workflowId, webhooks, script, saved, init, clears)
    {
      if webhooks == [] {
        return false;
      }
      var i := 0;
      while i < |webhooks|
        invariant 0 <= i <= |webhooks|
        invariant AddAll(webhookRows, workflowId, webhooks[i..], script[i..], init, clears)
               == AddAll(old(webhookRows), workflowId, webhooks, script, init, clears)
      {
        assert webhooks[i..][0] == webhooks[i] && webhooks[i..][1..] == webhooks[i + 1..];
        assert script[i..][0] == script[i] && script[i..][1..] == script[i + 1..];
        if !script[i].StoreFails? {
          webhookRows := webhookRows[KeyOf(webhooks[i]) := RowOf(workflowId, webhooks[i])];
        }
        if !script[i].Succeeds? {
          if !(init && script[i].queryFailed) {
            var _ := ClearWebhooks(workflowId, clears);
            return true;
          }
        }
        i := i + 1;
      }
      assert webhooks[|webhooks|..] == [];
      return !saved;
    }

    /** It throws, with the rows left, when the workflow is not found or cannot be deregistered everywhere. */
    method ClearWebhooks(workflowId: string, clears: bool) returns (threw: bool)
      modifies this`webhookRows
      ensures threw == !clears
      ensures webhookRows == if clears then Cleared(old(webhookRows), workflowId) else old(webhookRows)
    {
      if !clears {
        return true;
      }
      webhookRows := map k | k in webhookRows && webhookRows[k].workflowId != workflowId :: webhookRows[k];
      return false;
    }

    // ---- add and remove ------------------------------------------------------------------------------------

    method Add(workflowId: string, mode: Mode, met: Encounter) returns (succeeded: bool)
      requires met.Valid()
      modifies this
      ensures (View(), succeeded) == Activation.Add(old(View()), workflowId, mode, met)
    {
      var passed := TryAdd(workflowId, mode, met);
      if !passed {
        activationErrors := activationErrors + {workflowId};
        return false;
      }
      return met.persisted;
    }

    /** The `try` block of `add`. */
    method TryAdd(workflowId: string, mode: Mode, met: Encounter) returns (passed: bool)
      requires met.Valid()
      modifies this
      ensures (View(), passed) == Attempted(old(View()), workflowId, mode, met)
    {
      if !met.found || !met.startable {
        return false;
      }
      var threw := HookUp(workflowId, mode, met);
      if threw {
        return false;
      }
      passed := AddTriggersAndPollers(workflowId, met);
    }

    method HookUp(workflowId: string, mode: Mode, met: Encounter) returns (threw: bool)
      requires met.Valid()
      modifies this`webhookRows
      ensures (webhookRows, threw) == Hooked(old(webhookRows), workflowId, mode, met)
    {
      threw := false;
      if ShouldAddWebhooks(mode) {
        threw := AddWebhooks(workflowId, met.webhooks, met.script, met.saved, mode == Init, met.clears);
      }
    }

    /** The triggers, and what `add` does after them. */
    method AddTriggersAndPollers(workflowId: string, met: Encounter) returns (passed: bool)
      modifies this
      ensures (View(), passed) == Triggered(old(View()), workflowId, met)
    {
      if met.hasTriggers {
        activeWorkflows := activeWorkflows + {workflowId};
        if !met.triggersStart {
          return false;
        }
      }
      RemoveQueuedWorkflowActivation(workflowId);
      activationErrors := activationErrors - {workflowId};
      return met.counted;
    }

    method Remove(workflowId: string, clears: bool, closes: bool)
      modifies this
      ensures View() == Activation.Remove(old(View()), workflowId, clears, closes)
    {
      var _ := ClearWebhooks(workflowId, clears);
      activationErrors := activationErrors - {workflowId};
      if workflowId in queuedActivations {
        RemoveQueuedWorkflowActivation(workflowId);
      }
      if workflowId in activeWorkflows && closes {
        activeWorkflows := activeWorkflows - {workflowId};
      }
    }

    /** One workflow of `addActiveWorkflows`. */
    method AddActiveWorkflow(workflowId: string, mode: Mode, met: Encounter, authorization: bool)
      requires met.Valid()
      modifies this
      ensures View() == Step(old(View()), StartUp(workflowId, mode, met, authorization))
    {
      var succeeded := Add(workflowId, mode, met);
      if !succeeded && !authorization {
        AddQueuedWorkflowActivation(Init, workflowId);
      }
    }

    /** `emitError` of a running trigger. */
    method EmitError(workflowId: string, mode: Mode, closes: bool)
      modifies this
      ensures View() == Step(old(View()), TriggerFails(workflowId, mode, closes))
    {
      if closes {
        activeWorkflows := activeWorkflows - {workflowId};
      }
      activationErrors := activationErrors + {workflowId};
      AddQueuedWorkflowActivation(mode, workflowId);
    }

    // ---- Retry queue ---------------------------------------------------------------------------------------

    method SetTimeout(retry: Retry, delay: nat) returns (handle: nat)
      modifies this`timers, this`nextTimer
      ensures handle == old(nextTimer) && nextTimer == handle + 1
      ensures timers == old(timers)[handle := Timer(retry, delay)]
    {
      handle := nextTimer;
      timers := timers[handle := Timer(retry, delay)];
      nextTimer := nextTimer + 1;
    }

    method AddQueuedWorkflowActivation(mode: Mode, workflowId: string)
      modifies this`queuedActivations, this`timers, this`nextTimer
      ensures View() == AddQueued(old(View()), workflowId, mode)
    {
      RemoveQueuedWorkflowActivation(workflowId);
      var timeout := SetTimeout(Retry(workflowId, mode), INITIAL_TIMEOUT);
      queuedActivations := queuedActivations[workflowId := Queued(mode, INITIAL_TIMEOUT, timeout)];
    }

    method RemoveQueuedWorkflowActivation(workflowId: string)
      modifies this`queuedActivations, this`timers
      ensures View() == RemoveQueued(old(View()), workflowId)
    {
      if workflowId in queuedActivations {
        timers := timers - {queuedActivations[workflowId].timer};
        queuedActivations := queuedActivations - {workflowId};
      }
    }

    method RemoveAllQueuedWorkflowActivations()
      modifies this`queuedActivations, this`timers
      ensures View() == RemoveAllQueued(old(View()))
    {
      var todo := queuedActivations.Keys;
      while todo != {}
        invariant todo == queuedActivations.Keys
        invariant forall u :: u in queuedActivations ==>
          u in old(queuedActivations) && queuedActivations[u] == old(queuedActivations)[u]
        invariant forall h :: h in timers ==> h in old(timers) && timers[h] == old(timers)[h]
        invariant forall h :: h in old(timers) ==>
          (h in timers <==>
            forall u :: u in old(queuedActivations) && old(queuedActivations)[u].timer == h ==> u in queuedActivations)
        decreases |todo|
      {
        var workflowId :| workflowId in todo;
        ghost var queue, live := queuedActivations, timers;
        RemoveQueuedWorkflowActivation(workflowId);
        todo := todo - {workflowId};
        assert queuedActivations == queue - {workflowId} && timers == live - {queue[workflowId].timer};
      }
      assert queuedActivations == map[];
    }

    /** A timer fires: `retryFunction` up to its await. */
    method RetryStarted(timer: nat) returns (retry: Retry)
      requires timer in timers
      modifies this`timers, this`attempts
      ensures View() == Step(old(View()), RetryStarts(timer)) && retry == old(timers)[timer].retry
    {
      retry := timers[timer].retry;
      timers := timers - {timer};
      attempts := attempts + multiset{retry};
    }

    /** The rest of `retryFunction`. `typeError` is true where it reads the entry of a workflow that is not queued. */
    method RetryEnded(retry: Retry, met: Encounter) returns (typeError: bool)
      requires retry in attempts && met.Valid()
      modifies this
      ensures View() == Step(old(View()), RetryEnds(retry, met))
      ensures typeError <==> ReadsMissing(old(View()), retry, met)
    {
      attempts := attempts - multiset{retry};
      var succeeded := Add(retry.workflowId, retry.mode, met);
      if succeeded {
        return false;
      }
      if retry.workflowId !in queuedActivations {
        return true;
      }
      SetNextTimeout(retry);
      return false;
    }

    /** A longer delay, and a new timer in the entry. */
    method SetNextTimeout(retry: Retry)
      requires retry.workflowId in queuedActivations
      modifies this`queuedActivations, this`timers, this`nextTimer
      ensures View() == Requeue(old(View()), retry)
    {
      var entry := queuedActivations[retry.workflowId];
      var lastTimeout := entry.lastTimeout;
      if lastTimeout < MAX_TIMEOUT {
        lastTimeout := Min(lastTimeout * 2, MAX_TIMEOUT);
      }
      var timeout := SetTimeout(retry, lastTimeout);
      queuedActivations := queuedActivations[retry.workflowId := entry.(lastTimeout := lastTimeout, timer := timeout)];
    }
  }
}
