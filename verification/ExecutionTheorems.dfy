/** What holds over every run of the execution protocol. */
module ExecutionTheorems {
  import opened ExecutionProtocol

  // ---- How a call may move ---------------------------------------------------------------------------------

  /** The moves of one call in one step. */
  predicate PhaseStep(p: Phase, q: Phase) {
    || p == q
    || (p.Begun? && (q.Queued? || q.Admitted? || q.Gone?))
    || (p.Queued? && (q.Admitted? || q.Gone?))
    || (p.Admitted? && (q.Live? || q.Lost?))
    || (p.Live? && q.Settled?)
    || (p.Settled? && q == Done(p.outcome))
  }

  ghost predicate Moves(s: State, t: State) {
    && |t.calls| == |s.calls|
    && forall n: nat :: n < |s.calls| ==>
         t.calls[n].id == s.calls[n].id && t.calls[n].mode == s.calls[n].mode
         && PhaseStep(s.calls[n].phase, t.calls[n].phase)
  }

  /** No call became active. */
  ghost predicate NoneActivated(s: State, t: State) {
    |t.calls| == |s.calls| && forall n: nat :: n < |s.calls| && Is(t.calls[n], IsActive) ==> Is(s.calls[n], IsActive)
  }

  lemma QueueIsQueued(s: State)
    requires QueueHoldsWaiting(s)
    ensures forall i :: 0 <= i < |s.queue| ==> s.queue[i] < |s.calls| && s.calls[s.queue[i]].phase.Queued?
  {
    forall i | 0 <= i < |s.queue| ensures s.queue[i] < |s.calls| && s.calls[s.queue[i]].phase.Queued? {
      assert At(s, s.queue[i], Queued);
    }
  }

  lemma MovesTwice(s: State, mid: State, t: State)
    requires Moves(s, mid) && Moves(mid, t) && NoneActivated(s, mid) && NoneActivated(mid, t)
    requires forall n: nat :: n < |s.calls| ==> mid.calls[n] == s.calls[n] || t.calls[n] == mid.calls[n]
    ensures Moves(s, t) && NoneActivated(s, t)
  {
  }

  lemma ResolveNextMoves(s: State)
    requires QueueHoldsWaiting(s)
    ensures Moves(s, ResolveNext(s)) && NoneActivated(s, ResolveNext(s))
    ensures forall n: nat :: n < |s.calls| && ResolveNext(s).calls[n] != s.calls[n] ==> s.calls[n].phase.Queued?
  {
    QueueIsQueued(s);
  }

  lemma CleanUpMoves(s: State, n: nat)
    requires Valid(s) && n < |s.calls| && s.calls[n].phase.Settled?
    ensures Moves(s, CleanUp(s, n)) && NoneActivated(s, CleanUp(s, n))
    ensures forall m: nat :: m < |s.calls| && CleanUp(s, n).calls[m] != s.calls[m] ==>
      m == n || (s.calls[m].phase.Queued? && CleanUp(s, n).calls[m].phase.Admitted?)
  {
    QueueIsQueued(s);
    var done := Move(s, n, Done(s.calls[n].phase.outcome));
    assert Moves(s, done);
  }

  lemma DequeuedMoves(s: State, i: nat)
    requires QueueHoldsWaiting(s) && i < |s.queue| && s.queue[i] < |s.calls|
    ensures Moves(s, Dequeued(s, i)) && NoneActivated(s, Dequeued(s, i))
    ensures forall n: nat :: n < |s.calls| && Dequeued(s, i).calls[n] != s.calls[n] ==>
      Dequeued(s, i).calls[n].phase.Gone?
    ensures forall n: nat :: n < |s.calls| && Dequeued(s, i).calls[n] != s.calls[n] ==> s.calls[n].phase.Queued?
  {
    QueueIsQueued(s);
  }

  lemma RemoveAtMoves(s: State, i: nat)
    requires QueueHoldsWaiting(s) && i < |s.queue| && s.queue[i] < |s.calls|
    ensures var t := ResolveNext(Dequeued(s, i));
            && Moves(s, t) && NoneActivated(s, t) && t.table == s.table
            && forall n: nat :: n < |s.calls| && t.calls[n] != s.calls[n] ==> s.calls[n].phase.Queued?
  {
    var mid := Dequeued(s, i);
    DequeuedKeepsQueue(s, i);
    DequeuedMoves(s, i);
    ResolveNextMoves(mid);
    var t := ResolveNext(mid);
    forall n: nat | n < |s.calls| ensures mid.calls[n] == s.calls[n] || t.calls[n] == mid.calls[n] {
    }
    MovesTwice(s, mid, t);
  }

  lemma RemoveMoves(s: State, id: string)
    requires Valid(s)
    ensures Moves(s, DoRemove(s, id)) && NoneActivated(s, DoRemove(s, id))
    ensures forall n: nat :: n < |s.calls| && DoRemove(s, id).calls[n] != s.calls[n] ==> s.calls[n].phase.Queued?
    ensures DoRemove(s, id).table == s.table
  {
    var i := Position(s, id, 0);
    if s.enabled && i < |s.queue| {
      RemoveAtMoves(s, i);
    }
  }

  lemma OwnCallMoves(s: State, e: Event)
    requires !e.Begin? && !e.Cleanup? && !e.RemoveQueued?
    ensures Moves(s, Step(s, e))
  {
  }

  /** In a step every call stays or moves one phase on; only a new call is added. */
  lemma StepMoves(s: State, e: Event)
    requires Valid(s) && !e.Begin?
    ensures Moves(s, Step(s, e))
  {
    if e.Cleanup? {
      if e.call < |s.calls| && s.calls[e.call].phase.Settled? {
        CleanUpMoves(s, e.call);
      }
    } else if e.RemoveQueued? {
      RemoveMoves(s, e.id);
    } else {
      OwnCallMoves(s, e);
    }
  }

  /** The calls that a step may move: its own, the waiting one that it lets in, or waiting ones that it removes. */
  predicate MayMove(s: State, e: Event, n: nat)
    requires n < |s.calls|
  {
    match e
    case CreateFails(m) => m == n
    case Throttle(m) => m == n
    case StorageFails(m) => m == n
    case Install(m) => m == n
    case Stop(id) => s.calls[n].id == id
    case Finalize(id) => s.calls[n].id == id
    case Cleanup(m) => m == n || s.calls[n].phase.Queued?
    case RemoveQueued(id, mode) => s.calls[n].phase.Queued?
    case _ => false
  }

  /** No other call moves; a waiting one that moves is let in, unless it is removed under its own id. */
  lemma OthersStay(s: State, e: Event, n: nat)
    requires Valid(s) && n < |s.calls| && Step(s, e).calls[n] != s.calls[n]
    ensures MayMove(s, e, n)
    ensures s.calls[n].phase.Queued? && !e.RemoveQueued? ==> Step(s, e).calls[n].phase.Admitted?
    ensures s.calls[n].phase.Queued? && e.RemoveQueued? ==>
      Step(s, e).calls[n].phase.Admitted? || (Step(s, e).calls[n].phase.Gone? && s.calls[n].id == e.id)
  {
    QueueIsQueued(s);
    if e.Cleanup? && e.call < |s.calls| && s.calls[e.call].phase.Settled? {
      CleanUpMoves(s, e.call);
    } else if e.RemoveQueued? {
      RemovedOrAdmitted(s, e.id, n);
    }
  }

  lemma RemovedOrAdmitted(s: State, id: string, n: nat)
    requires Valid(s) && n < |s.calls| && DoRemove(s, id).calls[n] != s.calls[n]
    ensures var c := DoRemove(s, id).calls[n];
            s.calls[n].phase.Queued? && (c.phase.Admitted? || (c.phase.Gone? && s.calls[n].id == id))
  {
    var i := Position(s, id, 0);
    RemoveMoves(s, id);
    DequeuedKeepsQueue(s, i);
    QueueIsQueued(Dequeued(s, i));
  }

  /** A call that ended without being installed stays ended. */
  lemma {:induction false} EndedStays(s: State, es: seq<Event>, n: nat)
    requires Valid(s) && n < |s.calls| && (s.calls[n].phase.Gone? || s.calls[n].phase.Lost?)
    ensures n < |Run(s, es).calls| && Run(s, es).calls[n].phase == s.calls[n].phase
    decreases |es|
  {
    if es != [] {
      StepKeeps(s, es[0]);
      if !es[0].Begin? {
        StepMoves(s, es[0]);
      }
      EndedStays(Step(s, es[0]), es[1..], n);
    }
  }

  /** A failure to create the execution, or to store it once admitted, ends the call: it is never installed. */
  lemma FailureEnds(s: State, n: nat, es: seq<Event>)
    requires Valid(s)
    ensures At(s, n, Begun) ==> At(Run(Step(s, CreateFails(n)), es), n, Gone)
    ensures At(s, n, Admitted) ==> At(Run(Step(s, StorageFails(n)), es), n, Lost)
  {
    StepKeeps(s, CreateFails(n));
    StepKeeps(s, StorageFails(n));
    if At(s, n, Begun) {
      EndedStays(Step(s, CreateFails(n)), es, n);
    }
    if At(s, n, Admitted) {
      EndedStays(Step(s, StorageFails(n)), es, n);
    }
  }

  /** A waiting execution of a trigger or webhook that is removed while the control is enabled never runs. */
  lemma RemovedNeverRuns(s: State, id: string, mode: Mode, es: seq<Event>)
    requires Valid(s) && s.enabled && (mode == Trigger || mode == Webhook) && Position(s, id, 0) < |s.queue|
    ensures At(Run(Step(s, RemoveQueued(id, mode)), es), s.queue[Position(s, id, 0)], Gone)
  {
    var i := Position(s, id, 0);
    var n, mid := s.queue[i], Dequeued(s, i);
    QueueIsQueued(s);
    StepKeeps(s, RemoveQueued(id, mode));
    DequeuedKeepsQueue(s, i);
    QueueIsQueued(mid);
    assert At(mid, n, Gone);
    assert At(Step(s, RemoveQueued(id, mode)), n, Gone);
    EndedStays(Step(s, RemoveQueued(id, mode)), es, n);
  }

  // ---- The ledger of throttles and releases ----------------------------------------------------------------

  ghost predicate IsRecorded(s: State, n: nat) {
    n < |s.calls| && Is(s.calls[n], IsActive) && s.calls[n].id in s.table && s.table[s.calls[n].id] == n
  }

  /** An installed call that is not cleaned up yet, but whose entry another call has taken or removed. */
  ghost predicate IsStranded(s: State, n: nat) {
    n < |s.calls| && Is(s.calls[n], IsActive) && !IsRecorded(s, n)
  }

  ghost function Recorded(s: State): set<nat> {
    set n: nat | n < |s.calls| && IsRecorded(s, n)
  }

  ghost function Stranded(s: State): set<nat> {
    set n: nat | n < |s.calls| && IsStranded(s, n)
  }

  lemma {:induction false} InjectiveSize(m: map<string, nat>)
    requires forall a, b :: a in m && b in m && m[a] == m[b] ==> a == b
    ensures |m.Keys| == |m.Values|
    decreases |m.Keys|
  {
    if a :| a in m {
      var rest := m - {a};
      InjectiveSize(rest);
      assert m.Keys == rest.Keys + {a};
      assert m.Values == rest.Values + {m[a]} by {
        forall v | v in m.Values ensures v in rest.Values + {m[a]} {
          var b :| b in m && m[b] == v;
          assert b != a ==> b in rest && rest[b] == v;
        }
        forall v | v in rest.Values ensures v in m.Values {
          var b :| b in rest && rest[b] == v;
          assert m[b] == v;
        }
        assert m[a] in m.Values;
      }
      assert m[a] !in rest.Values;
    } else {
      assert m.Keys == {} && m.Values == {};
    }
  }

  lemma TableSize(s: State)
    requires TableHoldsActive(s)
    ensures |s.table.Keys| == |Recorded(s)|
  {
    forall a, b | a in s.table && b in s.table && s.table[a] == s.table[b] ensures a == b {
      assert s.calls[s.table[a]].id == a && s.calls[s.table[b]].id == b;
    }
    InjectiveSize(s.table);
    forall n ensures n in s.table.Values <==> n in Recorded(s) {
      if n in Recorded(s) {
        assert s.table[s.calls[n].id] == n;
      }
    }
    assert s.table.Values == Recorded(s);
  }

  /** In every reachable state: what was throttled and not released is in the table, admitted, stranded or lost. */
  lemma Ledger(s: State)
    requires Valid(s)
    ensures s.throttles - s.releases == |s.table.Keys| + Count(s, IsAdmitted) + |Stranded(s)| + Count(s, IsLost)
  {
    TableSize(s);
    PassedSplits(s.calls);
    ActiveSplits(s);
  }

  lemma ActiveSplits(s: State)
    ensures Count(s, IsActive) == |Recorded(s)| + |Stranded(s)|
  {
    var active, recorded, stranded := Select(s.calls, IsActive), Recorded(s), Stranded(s);
    forall n: nat ensures n in active <==> n in recorded || n in stranded {
    }
    assert active == recorded + stranded;
    assert recorded !! stranded;
  }

  lemma {:induction false} PassedSplits(calls: seq<Call>)
    ensures |Select(calls, HasPassed)|
         == |Select(calls, IsAdmitted)| + |Select(calls, IsActive)| + |Select(calls, IsDone)| + |Select(calls, IsLost)|
    decreases |calls|
  {
    if calls == [] {
      assert forall kind :: Select(calls, kind) == {};
    } else {
      var init, last := calls[..|calls| - 1], calls[|calls| - 1];
      assert calls == init + [last];
      PassedSplits(init);
      SelectAppend(init, last, HasPassed);
      SelectAppend(init, last, IsAdmitted);
      SelectAppend(init, last, IsActive);
      SelectAppend(init, last, IsDone);
      SelectAppend(init, last, IsLost);
    }
  }

  /** The count by table entries is exact when, and only when, nothing was stranded or lost. */
  lemma TableCountIffNoneStranded(s: State)
    requires Valid(s)
    ensures s.throttles - s.releases == |s.table.Keys| + Count(s, IsAdmitted)
       <==> Stranded(s) == {} && Select(s.calls, IsLost) == {}
  {
    Ledger(s);
  }

  // ---- Runs in which no id in use is added -----------------------------------------------------------------

  /** A call that is in flight or active. */
  predicate InUse(c: Call) {
    c.phase.Begun? || c.phase.Queued? || c.phase.Admitted? || c.phase.Live? || c.phase.Settled?
  }

  ghost predicate IdFree(s: State, id: string) {
    forall n: nat :: n < |s.calls| && InUse(s.calls[n]) ==> s.calls[n].id != id
  }

  /** No id is added while a call with that id is in flight or active, and no storage call fails after throttling. */
  ghost predicate Careful(s: State, es: seq<Event>)
    decreases |es|
  {
    es != [] ==>
      && (es[0].Begin? ==> IdFree(s, es[0].id))
      && !es[0].StorageFails?
      && Careful(Step(s, es[0]), es[1..])
  }

  /** Calls in use have different ids, active ones are recorded, none is lost. */
  ghost predicate Tidy(s: State) {
    && (forall m: nat, n: nat :: m < n < |s.calls| && InUse(s.calls[m]) && InUse(s.calls[n]) ==>
          s.calls[m].id != s.calls[n].id)
    && AllRecorded(s)
    && (forall n: nat :: n < |s.calls| ==> !s.calls[n].phase.Lost?)
  }

  /** No call is stranded. */
  ghost predicate AllRecorded(s: State) {
    forall n: nat :: n < |s.calls| && Is(s.calls[n], IsActive) ==> IsRecorded(s, n)
  }

  /** An install, if the step is one, does not replace an entry. */
  predicate InstallFree(s: State, e: Event) {
    e.Install? && At(s, e.call, Admitted) ==> s.calls[e.call].id !in s.table
  }

  lemma TidyBegin(s: State, id: string, mode: Mode)
    requires Valid(s) && Tidy(s) && IdFree(s, id)
    ensures Tidy(Step(s, Begin(id, mode)))
  {
    var t := Step(s, Begin(id, mode));
    assert forall n: nat :: n < |s.calls| ==> t.calls[n] == s.calls[n];
    assert t.calls[|s.calls|] == Call(id, mode, Begun);
    assert forall n: nat :: IsRecorded(s, n) ==> IsRecorded(t, n);
  }

  /** The parts of tidiness that only the entries and the lost calls can spoil. */
  lemma TidyMove(s: State, t: State)
    requires Tidy(s) && Moves(s, t)
    requires AllRecorded(t)
    requires forall n: nat :: n < |t.calls| ==> !t.calls[n].phase.Lost?
    ensures Tidy(t)
  {
  }

  lemma TidyStep(s: State, e: Event)
    requires Valid(s) && Tidy(s) && !e.StorageFails? && (e.Begin? ==> IdFree(s, e.id))
    ensures Tidy(Step(s, e))
  {
    if e.Begin? {
      TidyBegin(s, e.id, e.mode);
    } else {
      StepMoves(s, e);
      NothingLost(s, e);
      TidyInstallFree(s, e);
      RecordedStep(s, e);
      TidyMove(s, Step(s, e));
    }
  }

  lemma TidyInstallFree(s: State, e: Event)
    requires Valid(s) && Tidy(s)
    ensures InstallFree(s, e)
  {
    if e.Install? && At(s, e.call, Admitted) && s.calls[e.call].id in s.table {
      var m := s.table[s.calls[e.call].id];
      assert InUse(s.calls[m]) && InUse(s.calls[e.call]);
    }
  }

  lemma NothingLost(s: State, e: Event)
    requires Valid(s) && !e.Begin? && !e.StorageFails?
    ensures forall n: nat :: n < |s.calls| && !s.calls[n].phase.Lost? ==> !Step(s, e).calls[n].phase.Lost?
  {
    match e
    case Cleanup(n) =>
      if n < |s.calls| && s.calls[n].phase.Settled? {
        CleanUpMoves(s, n);
        CleanUpDone(s, n);
      }
    case RemoveQueued(id, mode) =>
      RemoveMoves(s, id);
    case _ =>
      NothingLostInPlace(s, e);
  }

  lemma NothingLostInPlace(s: State, e: Event)
    requires !e.Begin? && !e.StorageFails? && !e.Cleanup? && !e.RemoveQueued?
    ensures |Step(s, e).calls| == |s.calls|
    ensures forall n: nat :: n < |s.calls| && !s.calls[n].phase.Lost? ==> !Step(s, e).calls[n].phase.Lost?
  {
  }

  /** Stranding takes an install over an entry. */
  lemma RecordedStep(s: State, e: Event)
    requires Valid(s) && AllRecorded(s) && InstallFree(s, e)
    ensures AllRecorded(Step(s, e))
  {
    var t := Step(s, e);
    if e.Begin? {
      assert forall n: nat :: n < |s.calls| ==> t.calls[n] == s.calls[n];
      assert forall n: nat :: IsRecorded(s, n) ==> IsRecorded(t, n);
    } else {
      StepMoves(s, e);
      forall m: nat | m < |t.calls| && Is(t.calls[m], IsActive) ensures IsRecorded(t, m) {
        RecordedEntry(s, e, m);
      }
    }
  }

  lemma RecordedEntry(s: State, e: Event, m: nat)
    requires Valid(s) && AllRecorded(s) && InstallFree(s, e) && !e.Begin? && m < |s.calls|
    requires |Step(s, e).calls| == |s.calls| && Is(Step(s, e).calls[m], IsActive)
    ensures IsRecorded(Step(s, e), m)
  {
    if e.Install? {
      InstallEntry(s, e.call, m);
    } else {
      WasActive(s, e, m);
      assert IsRecorded(s, m);
      if e.Cleanup? {
        CleanUpEntry(s, e.call, m);
      } else {
        StepMoves(s, e);
        TableUnchanged(s, e);
      }
    }
  }

  lemma InstallEntry(s: State, n: nat, m: nat)
    requires AllRecorded(s) && InstallFree(s, Install(n))
    requires m < |s.calls| && Is(Step(s, Install(n)).calls[m], IsActive)
    ensures IsRecorded(Step(s, Install(n)), m)
  {
    if At(s, n, Admitted) && m != n {
      assert IsRecorded(s, m);
    }
  }

  lemma WasActive(s: State, e: Event, m: nat)
    requires Valid(s) && !e.Begin? && !e.Install? && m < |s.calls|
    requires |Step(s, e).calls| == |s.calls| && Is(Step(s, e).calls[m], IsActive)
    ensures Is(s.calls[m], IsActive)
  {
    if e.Cleanup? && e.call < |s.calls| && s.calls[e.call].phase.Settled? {
      CleanUpMoves(s, e.call);
    } else if e.RemoveQueued? {
      RemoveMoves(s, e.id);
    }
  }

  lemma TableUnchanged(s: State, e: Event)
    requires Valid(s) && !e.Install? && !e.Cleanup?
    ensures Step(s, e).table == s.table
  {
    if e.RemoveQueued? {
      RemoveMoves(s, e.id);
    }
  }

  lemma CleanUpEntry(s: State, n: nat, m: nat)
    requires Valid(s) && AllRecorded(s) && m < |s.calls| && IsRecorded(s, m)
    requires |Step(s, Cleanup(n)).calls| == |s.calls| && Is(Step(s, Cleanup(n)).calls[m], IsActive)
    ensures IsRecorded(Step(s, Cleanup(n)), m)
  {
    if n < |s.calls| && s.calls[n].phase.Settled? {
      CleanUpMoves(s, n);
      CleanUpDone(s, n);
      assert IsRecorded(s, n);
    }
  }

  lemma CleanUpDone(s: State, n: nat)
    requires Valid(s) && n < |s.calls| && s.calls[n].phase.Settled?
    ensures n < |CleanUp(s, n).calls| && CleanUp(s, n).calls[n].phase == Done(s.calls[n].phase.outcome)
    ensures CleanUp(s, n).table == s.table - {s.calls[n].id}
  {
    QueueIsQueued(s);
  }

  lemma {:induction false} CarefulRunTidy(s: State, es: seq<Event>)
    requires Valid(s) && Tidy(s) && Careful(s, es)
    ensures Valid(Run(s, es)) && Tidy(Run(s, es))
    decreases |es|
  {
    if es != [] {
      StepKeeps(s, es[0]);
      TidyStep(s, es[0]);
      CarefulRunTidy(Step(s, es[0]), es[1..]);
    }
  }

  /**
    Over every interleaving of adds, stops, finalizations and clean-ups in which no id is added while it is in flight
    or active and storage calls succeed: completed throttles minus releases are the table entries plus the adds past
    throttling that are not installed.
   */
  lemma ThrottlesMinusReleases(limit: nat, es: seq<Event>)
    requires Careful(Initial(limit), es)
    ensures var s := Run(Initial(limit), es);
            s.throttles - s.releases == |s.table.Keys| + Count(s, IsAdmitted)
  {
    InitialIsValid(limit);
    CarefulRunTidy(Initial(limit), es);
    var s := Run(Initial(limit), es);
    assert Stranded(s) == {};
    assert Select(s.calls, IsLost) == {};
    TableCountIffNoneStranded(s);
  }

  /** Adding an id again while its entry is pending strands the first call: no later step can settle or release it. */
  lemma {:induction false} StrandedForever(s: State, es: seq<Event>, n: nat)
    requires Valid(s) && IsStranded(s, n) && s.calls[n].phase.Live?
    ensures IsStranded(Run(s, es), n) && Run(s, es).calls[n].phase.Live?
    decreases |es|
  {
    if es != [] {
      StepKeeps(s, es[0]);
      StrandedStep(s, es[0], n);
      StrandedForever(Step(s, es[0]), es[1..], n);
    }
  }

  lemma StrandedStep(s: State, e: Event, n: nat)
    requires Valid(s) && IsStranded(s, n) && s.calls[n].phase.Live?
    ensures IsStranded(Step(s, e), n) && Step(s, e).calls[n].phase.Live?
  {
    forall id | id in s.table ensures s.table[id] != n {
      assert s.calls[s.table[id]].id == id;
    }
    if e.Cleanup? {
      if e.call < |s.calls| && s.calls[e.call].phase.Settled? {
        CleanUpMoves(s, e.call);
        CleanUpDone(s, e.call);
      }
    } else if e.RemoveQueued? {
      RemoveMoves(s, e.id);
    } else {
      QueueIsQueued(s);
    }
  }

  /** The step gives the entry of the recorded call `n` to another call, or deletes it in cleaning up another call. */
  predicate TakesEntry(s: State, e: Event, n: nat)
    requires n < |s.calls|
  {
    || (e.Install? && At(s, e.call, Admitted) && s.calls[e.call].id == s.calls[n].id)
    || (e.Cleanup? && e.call < |s.calls| && e.call != n && s.calls[e.call].phase.Settled?
        && s.calls[e.call].id == s.calls[n].id)
  }

  /** A pending call is stranded exactly by another install under its id, or by the clean-up of the call it replaced. */
  lemma StepStrandsIff(s: State, e: Event, n: nat)
    requires Valid(s) && IsRecorded(s, n) && At(s, n, Live)
    ensures IsStranded(Step(s, e), n) <==> TakesEntry(s, e, n)
  {
    match e
    case Cleanup(m) =>
      if m < |s.calls| && s.calls[m].phase.Settled? {
        CleanUpMoves(s, m);
        CleanUpDone(s, m);
      }
    case RemoveQueued(id, mode) =>
      RemoveMoves(s, id);
    case _ =>
  }

  lemma RunTwo(s: State, e: Event, f: Event)
    ensures Run(s, [e, f]) == Step(Step(s, e), f)
  {
    assert [e, f][1..] == [f] && [f][1..] == [];
    assert Run(s, [e, f]) == Run(Step(s, e), [f]) == Run(Step(Step(s, e), f), []);
  }

  /** Stopping a recorded pending call, and cleaning up after it. */
  lemma StopEnds(s: State, n: nat)
    requires Valid(s) && At(s, n, Live) && IsRecorded(s, n)
    ensures var t := Run(s, [Stop(s.calls[n].id), Cleanup(n)]);
            n < |t.calls| && t.calls[n].phase.Done?
  {
    var stop := Stop(s.calls[n].id);
    var stopped := Step(s, stop);
    StepKeeps(s, stop);
    assert stopped.calls[n].phase == Settled(Cancelled);
    CleanUpDone(stopped, n);
    RunTwo(s, stop, Cleanup(n));
  }

  /** A pending call can still be settled and give its slot back exactly when the entry of its id is its own. */
  lemma EndsIffRecorded(s: State, n: nat)
    requires Valid(s) && At(s, n, Live)
    ensures (exists es :: n < |Run(s, es).calls| && Run(s, es).calls[n].phase.Done?) <==> IsRecorded(s, n)
  {
    if IsRecorded(s, n) {
      StopEnds(s, n);
    } else {
      forall es ensures n < |Run(s, es).calls| && Run(s, es).calls[n].phase.Live? {
        StrandedForever(s, es, n);
      }
    }
  }

  // ---- When the count is exact -----------------------------------------------------------------------------

  /** The count by table entries and admitted calls. */
  ghost predicate CountExact(s: State) {
    s.throttles - s.releases == |s.table.Keys| + Count(s, IsAdmitted)
  }

  /** The guard of a step: no install over an entry, no storage failure of an admitted call. */
  predicate KeepsCount(s: State, e: Event) {
    InstallFree(s, e) && !(e.StorageFails? && At(s, e.call, Admitted))
  }

  ghost predicate NoneLost(s: State) {
    forall n: nat :: n < |s.calls| ==> !s.calls[n].phase.Lost?
  }

  lemma ExactIffRecorded(s: State)
    requires Valid(s)
    ensures CountExact(s) <==> AllRecorded(s) && NoneLost(s)
  {
    TableCountIffNoneStranded(s);
    assert AllRecorded(s) <==> Stranded(s) == {} by {
      forall n: nat | n < |s.calls| && Is(s.calls[n], IsActive) ensures IsRecorded(s, n) <==> n !in Stranded(s) {
      }
    }
    assert NoneLost(s) <==> Select(s.calls, IsLost) == {} by {
      forall n: nat | n < |s.calls| ensures s.calls[n].phase.Lost? <==> n in Select(s.calls, IsLost) {
      }
    }
  }

  /** All active calls stay recorded exactly when the step does not install over an entry. */
  lemma RecordedStepIff(s: State, e: Event)
    requires Valid(s) && AllRecorded(s)
    ensures AllRecorded(Step(s, e)) <==> InstallFree(s, e)
  {
    if InstallFree(s, e) {
      RecordedStep(s, e);
    } else {
      var m := s.table[s.calls[e.call].id];
      assert Is(Step(s, e).calls[m], IsActive) && !IsRecorded(Step(s, e), m);
    }
  }

  lemma NoneLostStepIff(s: State, e: Event)
    requires Valid(s) && NoneLost(s)
    ensures NoneLost(Step(s, e)) <==> !(e.StorageFails? && At(s, e.call, Admitted))
  {
    if e.StorageFails? {
      assert At(s, e.call, Admitted) ==> Step(s, e).calls[e.call].phase.Lost?;
    } else if e.Begin? {
      var t := Step(s, e);
      assert forall n: nat :: n < |s.calls| ==> t.calls[n] == s.calls[n];
    } else {
      StepMoves(s, e);
      NothingLost(s, e);
    }
  }

  /** A step keeps an exact count exactly when its guard holds. */
  lemma CountStepIff(s: State, e: Event)
    requires Valid(s) && CountExact(s)
    ensures CountExact(Step(s, e)) <==> KeepsCount(s, e)
  {
    StepKeeps(s, e);
    ExactIffRecorded(s);
    ExactIffRecorded(Step(s, e));
    RecordedStepIff(s, e);
    NoneLostStepIff(s, e);
  }

  /** The guard holds at every step of the run. */
  ghost predicate EachKeepsCount(s: State, es: seq<Event>)
    decreases |es|
  {
    es != [] ==> KeepsCount(s, es[0]) && EachKeepsCount(Step(s, es[0]), es[1..])
  }

  lemma RunPrefix(s: State, es: seq<Event>, k: nat)
    requires 0 < k <= |es|
    ensures Run(s, es[..k]) == Run(Step(s, es[0]), es[1..][..k - 1])
  {
    assert es[..k][1..] == es[1..][..k - 1];
  }

  /** The count is exact after every prefix of a run exactly when every step meets its guard. */
  lemma {:induction false} CountExactThroughoutIff(s: State, es: seq<Event>)
    requires Valid(s) && CountExact(s)
    ensures (forall k :: 0 <= k <= |es| ==> CountExact(Run(s, es[..k]))) <==> EachKeepsCount(s, es)
    decreases |es|
  {
    if es == [] {
      assert es[..0] == [];
    } else {
      var t, rest := Step(s, es[0]), es[1..];
      StepKeeps(s, es[0]);
      CountStepIff(s, es[0]);
      forall k | 0 < k <= |es| ensures Run(s, es[..k]) == Run(t, rest[..k - 1]) {
        RunPrefix(s, es, k);
      }
      assert Run(s, es[..0]) == s;
      assert Run(s, es[..1]) == Run(t, rest[..0]) == t;
      if CountExact(t) {
        CountExactThroughoutIff(t, rest);
        if forall k :: 0 <= k <= |es| ==> CountExact(Run(s, es[..k])) {
          forall k | 0 <= k <= |rest| ensures CountExact(Run(t, rest[..k])) {
            assert Run(s, es[..k + 1]) == Run(t, rest[..k + 1 - 1]);
          }
        }
      }
    }
  }

  // ---- Settling and releasing once -------------------------------------------------------------------------

  /** The outcome a call has, once it has one. */
  predicate HasOutcome(s: State, n: nat, outcome: Outcome) {
    At(s, n, Settled(outcome)) || At(s, n, Done(outcome))
  }

  lemma OutcomeStep(s: State, e: Event, n: nat, outcome: Outcome)
    requires Valid(s) && HasOutcome(s, n, outcome)
    ensures HasOutcome(Step(s, e), n, outcome)
    ensures At(s, n, Done(outcome)) ==> At(Step(s, e), n, Done(outcome))
  {
    if !e.Begin? {
      StepMoves(s, e);
    }
  }

  /** The first of stop and finalize decides: whatever calls follow, in any order, the outcome stays. */
  lemma {:induction false} OutcomeStays(s: State, es: seq<Event>, n: nat, outcome: Outcome)
    requires Valid(s) && HasOutcome(s, n, outcome)
    ensures HasOutcome(Run(s, es), n, outcome)
    ensures At(s, n, Done(outcome)) ==> At(Run(s, es), n, Done(outcome))
    decreases |es|
  {
    if es != [] {
      StepKeeps(s, es[0]);
      OutcomeStep(s, es[0], n, outcome);
      OutcomeStays(Step(s, es[0]), es[1..], n, outcome);
    }
  }

  lemma NoStopStep(s: State, e: Event, n: nat)
    requires Valid(s) && !e.Stop? && HasOutcome(Step(s, e), n, Cancelled)
    ensures HasOutcome(s, n, Cancelled)
  {
    if e.Cleanup? {
      if e.call < |s.calls| && s.calls[e.call].phase.Settled? {
        CleanUpMoves(s, e.call);
        CleanUpDone(s, e.call);
      }
    } else if e.RemoveQueued? {
      RemoveMoves(s, e.id);
    } else {
      OwnCallNotCancelled(s, e, n);
    }
  }

  lemma OwnCallNotCancelled(s: State, e: Event, n: nat)
    requires !e.Stop? && !e.Cleanup? && !e.RemoveQueued? && HasOutcome(Step(s, e), n, Cancelled)
    ensures HasOutcome(s, n, Cancelled)
  {
  }

  ghost predicate NoStops(es: seq<Event>) {
    forall e :: e in es ==> !e.Stop?
  }

  /** Only a stop cancels. */
  lemma {:induction false} NoStopNoCancel(s: State, es: seq<Event>, n: nat)
    requires Valid(s) && NoStops(es) && HasOutcome(Run(s, es), n, Cancelled)
    ensures HasOutcome(s, n, Cancelled)
    decreases |es|
  {
    if es != [] {
      assert es[0] in es && forall e :: e in es[1..] ==> e in es;
      StepKeeps(s, es[0]);
      NoStopNoCancel(Step(s, es[0]), es[1..], n);
      NoStopStep(s, es[0], n);
    }
  }

  /** A pending entry is settled by the first stop or finalize of its id, as that one says. */
  lemma FirstSettlingDecides(s: State, id: string, es: seq<Event>)
    requires Valid(s) && id in s.table && s.calls[s.table[id]].phase.Live?
    ensures HasOutcome(Run(s, [Stop(id)] + es), s.table[id], Cancelled)
    ensures HasOutcome(Run(s, [Finalize(id)] + es), s.table[id], Finished)
  {
    assert ([Stop(id)] + es)[1..] == es && ([Finalize(id)] + es)[1..] == es;
    StepKeeps(s, Stop(id));
    StepKeeps(s, Finalize(id));
    OutcomeStays(Step(s, Stop(id)), es, s.table[id], Cancelled);
    OutcomeStays(Step(s, Finalize(id)), es, s.table[id], Finished);
  }

  /**
    A step releases exactly when it cleans up a settled call, and then once; a cleaned-up call is never cleaned up
    again.
   */
  lemma OneReleasePerCall(s: State, e: Event)
    requires Valid(s)
    ensures Step(s, e).releases == s.releases
      + (if e.Cleanup? && e.call < |s.calls| && s.calls[e.call].phase.Settled? then 1 else 0)
    ensures e.Cleanup? && e.call < |s.calls| && s.calls[e.call].phase.Settled?
      ==> Step(s, e).calls[e.call].phase.Done? && s.calls[e.call].id !in Step(s, e).table
  {
    QueueIsQueued(s);
  }
}
