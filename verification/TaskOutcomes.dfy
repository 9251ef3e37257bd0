/**
  Runs of the task queue in which a stale claim takes over only what its worker has left undone: a
  task is executed no more often than attempts and claims allow, and once all its entries are
  acknowledged it has one success or one dead letter, and not both, exactly when nothing was
  requeued that had been handed on. `TaskEnds` counts the ends of a task in all runs.
 */
module TaskOutcomes {
  import opened TaskQueue

  /** Every event number in use is below the next one. */
  ghost predicate EventsUsed(st: Stream, bound: nat) {
    forall j :: 0 <= j < |st.log| ==> st.log[j].event < bound
  }

  /** A task has at most one entry for each number of attempts, and at most one dead letter. */
  ghost predicate Distinct(st: Stream) {
    && (forall i, j :: 0 <= i < |st.log| && 0 <= j < |st.log| && SameTry(st.log[i], st.log[j]) ==> i == j)
    && (forall i, j :: 0 <= i < |st.dlq| && 0 <= j < |st.dlq| && st.dlq[i].event == st.dlq[j].event ==> i == j)
  }

  predicate SameTry(a: Entry, b: Entry) {
    a.event == b.event && a.attempts == b.attempts
  }

  ghost predicate CopiesDelivered(st: Stream) {
    forall i: nat :: Copied(st, i) ==> i < st.delivered
  }

  ghost predicate StreamOnce(st: Stream, bound: nat) {
    EventsUsed(st, bound) && Distinct(st) && CopiesDelivered(st)
  }

  predicate Busy(phase: Phase) {
    phase == Running || phase == HandedOff || phase == Done || phase.Handling?
  }

  /** The entry of a worker that may still copy it has not been copied. */
  ghost predicate NotCopied(streams: seq<Stream>, worker: Worker) {
    worker.stage < |streams| && (Busy(worker.phase) ==> !Copied(streams[worker.stage], worker.entry))
  }

  ghost predicate Apart(v: Worker, w: Worker) {
    v.stage == w.stage && v.phase != Idle && w.phase != Idle ==> v.entry != w.entry
  }

  ghost predicate Once(s: State) {
    && (forall k :: 0 <= k < |s.streams| ==> StreamOnce(s.streams[k], s.nextEvent))
    && (forall w :: 0 <= w < |s.workers| ==> NotCopied(s.streams, s.workers[w]))
    && (forall v, w :: 0 <= v < |s.workers| && 0 <= w < |s.workers| && v != w ==> Apart(s.workers[v], s.workers[w]))
  }

  // ----- one stream

  lemma OriginAppend(entries: seq<Entry>, e: Entry, o: Origin)
    ensures HasOrigin(entries + [e], o) <==> HasOrigin(entries, o) || e.origin == o
  {
    var all := entries + [e];
    if HasOrigin(entries, o) {
      OriginKept(entries, all, o);
    }
    if e.origin == o {
      assert all[|entries|].origin == o;
    }
    if HasOrigin(all, o) {
      var j :| 0 <= j < |all| && all[j].origin == o;
      assert j < |entries| ==> entries[j].origin == o;
    }
  }

  /** A new task with a new event number. */
  lemma AppendOnce(st: Stream, e: Entry, bound: nat)
    requires StreamOnce(st, bound) && e.event == bound && !e.origin.Retry?
    ensures StreamOnce(Append(st, e), bound + 1)
    ensures forall i: nat :: Copied(Append(st, e), i) <==> Copied(st, i)
  {
    hide HasOrigin;
    forall i: nat
      ensures Copied(Append(st, e), i) <==> Copied(st, i)
    {
      OriginAppend(st.log, e, Retry(i));
    }
  }

  lemma BoundRaised(st: Stream, bound: nat)
    requires StreamOnce(st, bound)
    ensures StreamOnce(st, bound + 1)
  {
    hide Copied;
  }

  lemma SameEntriesOnce(st: Stream, st': Stream, bound: nat)
    requires StreamOnce(st, bound) && st'.log == st.log && st'.dlq == st.dlq && st.delivered <= st'.delivered
    ensures StreamOnce(st', bound)
    ensures forall i: nat :: Copied(st', i) <==> Copied(st, i)
  {
    hide HasOrigin;
    forall i: nat
      ensures Copied(st', i) <==> Copied(st, i)
    {
    }
  }

  lemma PutBackCopied(st: Stream, i: nat)
    requires i < |st.log|
    ensures forall j: nat :: Copied(PutBack(st, i), j) <==> Copied(st, j) || j == i
  {
    hide HasOrigin;
    forall j: nat
      ensures Copied(PutBack(st, i), j) <==> Copied(st, j) || j == i
    {
      OriginAppend(st.log, CopyOf(st, i), Retry(j));
      OriginAppend(st.dlq, CopyOf(st, i), Retry(j));
    }
  }

  /** The entry below a copy in attempts is the one it was copied from. */
  lemma ParentOf(st: Stream, previous: seq<Entry>, i: nat, j: nat)
    requires EntriesOk(st, previous) && Distinct(st) && i < |st.log| && j < |st.log|
    requires st.log[i].event == st.log[j].event && st.log[j].attempts == st.log[i].attempts + 1
    ensures st.log[j].origin == Retry(i) && HasOrigin(st.log, Retry(i))
  {
    assert EntryOk(st.log, previous, j);
  }

  lemma DeadParentOf(st: Stream, previous: seq<Entry>, i: nat, j: nat)
    requires EntriesOk(st, previous) && Distinct(st) && i < |st.log| && j < |st.dlq|
    requires st.log[i].event == st.dlq[j].event && st.log[i].attempts == MAX_ATTEMPTS
    ensures st.dlq[j].origin == Retry(i) && HasOrigin(st.dlq, Retry(i))
  {
    assert DeadOk(st.log, st.dlq[j]);
  }

  lemma PutBackOnce(st: Stream, previous: seq<Entry>, i: nat, bound: nat)
    requires StreamOnce(st, bound) && EntriesOk(st, previous) && i < |st.log| && i < st.delivered && !Copied(st, i)
    ensures StreamOnce(PutBack(st, i), bound)
  {
    hide HasOrigin;
    var copy, st' := CopyOf(st, i), PutBack(st, i);
    PutBackCopied(st, i);
    assert EntryOk(st.log, previous, i);
    forall j | 0 <= j < |st.log| && st.log[j].event == copy.event && st.log[j].attempts == copy.attempts
      ensures false
    {
      ParentOf(st, previous, i, j);
    }
    forall j | 0 <= j < |st.dlq| && st.dlq[j].event == copy.event && st.log[i].attempts == MAX_ATTEMPTS
      ensures false
    {
      DeadParentOf(st, previous, i, j);
    }
  }

  // ----- one action

  ghost predicate StreamsOnce(streams: seq<Stream>, bound: nat) {
    forall k :: 0 <= k < |streams| ==> StreamOnce(streams[k], bound)
  }

  /** Nothing is copied by any action but a requeue, which copies its own entry. */
  lemma StepStreamsOnce(s: State, a: Action)
    requires Inv(s) && Once(s) && Enabled(s, a)
    ensures StreamsOnce(Apply(s, a).streams, Apply(s, a).nextEvent)
    ensures forall k, i: nat :: 0 <= k < STAGES && Copied(Apply(s, a).streams[k], i) ==>
              Copied(s.streams[k], i) || (a.Requeue? && k == s.workers[a.w].stage && i == s.workers[a.w].entry)
  {
    hide StreamOnce, Copied, StreamOk, PutBack, Evidence;
    var s' := Apply(s, a);
    if !a.Produce? {
      assert WorkerOk(s.streams, s.workers[a.w]) && NotCopied(s.streams, s.workers[a.w]);
    }
    forall k | 0 <= k < STAGES
      ensures StreamOnce(s'.streams[k], s'.nextEvent)
      ensures forall i: nat :: Copied(s'.streams[k], i) ==>
                Copied(s.streams[k], i) || (a.Requeue? && k == s.workers[a.w].stage && i == s.workers[a.w].entry)
    {
      assert StreamOk(s.streams, k);
      StreamStepOnce(s, a, k);
    }
  }

  /** How one action changes one stream. */
  lemma StreamChange(s: State, a: Action, k: nat) returns (grown: bool, put: bool)
    requires Inv(s) && Enabled(s, a) && k < STAGES
    ensures var st, st' := s.streams[k], Apply(s, a).streams[k];
      && (put ==> a.Requeue? && k == s.workers[a.w].stage && st' == PutBack(st, s.workers[a.w].entry))
      && (a.Requeue? && k == s.workers[a.w].stage ==> put)
      && (grown ==> Apply(s, a).nextEvent == s.nextEvent + 1 && |st'.log| == |st.log| + 1
                    && st' == Append(st, st'.log[|st.log|]) && !st'.log[|st.log|].origin.Retry?
                    && st'.log[|st.log|].event == s.nextEvent)
      && (!put && !grown ==> st'.log == st.log && st'.dlq == st.dlq && st.delivered <= st'.delivered)
      && (Apply(s, a).nextEvent == s.nextEvent || Apply(s, a).nextEvent == s.nextEvent + 1)
      && (put ==> Apply(s, a).nextEvent == s.nextEvent)
  {
    hide StreamOk, HoldsWell, PutBack;
    put := a.Requeue? && k == s.workers[a.w].stage;
    grown := (a.Produce? && k == 0) || (a.Complete? && k == s.workers[a.w].stage + 1);
    if grown {
      var st, st' := s.streams[k], Apply(s, a).streams[k];
      assert st'.log[|st.log|].event == s.nextEvent;
    }
  }

  lemma StreamStepOnce(s: State, a: Action, k: nat)
    requires Inv(s) && Enabled(s, a) && k < STAGES && StreamOnce(s.streams[k], s.nextEvent)
    requires !a.Produce? ==> WorkerOk(s.streams, s.workers[a.w]) && NotCopied(s.streams, s.workers[a.w])
    ensures StreamOnce(Apply(s, a).streams[k], Apply(s, a).nextEvent)
    ensures forall i: nat :: Copied(Apply(s, a).streams[k], i) ==>
              Copied(s.streams[k], i) || (a.Requeue? && k == s.workers[a.w].stage && i == s.workers[a.w].entry)
  {
    hide StreamOnce, Copied, PutBack, Evidence, Accounted;
    var st, st' := s.streams[k], Apply(s, a).streams[k];
    assert StreamOk(s.streams, k);
    var grown, put := StreamChange(s, a, k);
    hide Apply;
    if put {
      PutBackOnce(st, Previous(s.streams, k), s.workers[a.w].entry, s.nextEvent);
      PutBackCopied(st, s.workers[a.w].entry);
    } else if grown {
      AppendOnce(st, st'.log[|st.log|], s.nextEvent);
    } else {
      SameEntriesOnce(st, st', s.nextEvent);
      BoundRaised(st', s.nextEvent);
    }
  }

  predicate Holds(worker: Worker, k: nat, i: nat) {
    worker.stage == k && worker.phase != Idle && worker.entry == i
  }

  ghost predicate HeldBySome(s: State, k: nat, i: nat) {
    exists w :: 0 <= w < |s.workers| && Holds(s.workers[w], k, i)
  }

  /** A claim takes over an entry that no worker holds and that was neither finished nor copied. */
  ghost predicate ClaimGuarded(s: State, a: Action)
    requires Enabled(s, a)
  {
    a.Claim? ==>
      var k := s.workers[a.w].stage;
      !HeldBySome(s, k, a.i) && a.i !in s.streams[k].completed && !Copied(s.streams[k], a.i)
  }

  /** A worker goes on with the entry it holds, or takes one that no worker holds. */
  lemma WorkerChange(s: State, a: Action)
    requires Inv(s) && Enabled(s, a) && !a.Produce?
    ensures var worker, worker' := s.workers[a.w], Apply(s, a).workers[a.w];
      && Apply(s, a).workers == s.workers[a.w := worker'] && worker'.stage == worker.stage
      && if a.Read? then worker'.entry == s.streams[worker.stage].delivered
         else if a.Claim? then worker'.entry == a.i
         else worker'.entry == worker.entry && (worker'.phase != Idle ==> worker.phase != Idle)
              && (Busy(worker'.phase) ==> Busy(worker.phase) && !a.Requeue?)
  {
    hide StreamOk, HoldsWell, PutBack, HandOn;
  }

  lemma StepWorkersOnce(s: State, a: Action, w: nat)
    requires Inv(s) && Once(s) && Enabled(s, a) && ClaimGuarded(s, a) && w < |s.workers|
    ensures NotCopied(Apply(s, a).streams, Apply(s, a).workers[w])
  {
    hide StreamOnce, Copied, StreamOk, PutBack, HandOn, HoldsWell;
    StepStreamsOnce(s, a);
    SameWorkers(s, a);
    var worker := s.workers[w];
    assert NotCopied(s.streams, worker) && WorkerOk(s.streams, worker);
    var k := worker.stage;
    assert StreamOnce(s.streams[k], s.nextEvent);
    UndeliveredNotCopied(s.streams[k], s.nextEvent);
    if !a.Produce? {
      assert w != a.w ==> Apart(worker, s.workers[a.w]);
      WorkerChange(s, a);
    }
  }

  lemma UndeliveredNotCopied(st: Stream, bound: nat)
    requires StreamOnce(st, bound)
    ensures !Copied(st, st.delivered)
  {
  }

  lemma HoldsDelivered(s: State, w: nat)
    requires Inv(s) && w < |s.workers| && s.workers[w].phase != Idle
    ensures s.workers[w].stage < STAGES && s.workers[w].entry < s.streams[s.workers[w].stage].delivered
  {
    assert WorkerOk(s.streams, s.workers[w]);
  }

  lemma StepApart(s: State, a: Action, v: nat, w: nat)
    requires Inv(s) && Once(s) && Enabled(s, a) && ClaimGuarded(s, a) && v < |s.workers| && w < |s.workers| && v != w
    ensures Apart(Apply(s, a).workers[v], Apply(s, a).workers[w])
  {
    hide StreamOnce, StreamOk, NotCopied, WorkerOk;
    assert Apart(s.workers[v], s.workers[w]);
    if !a.Produce? {
      WorkerChange(s, a);
      if a.Claim? {
        assert !Holds(s.workers[v], s.workers[a.w].stage, a.i) && !Holds(s.workers[w], s.workers[a.w].stage, a.i);
      }
      if s.workers[v].phase != Idle {
        HoldsDelivered(s, v);
      }
      if s.workers[w].phase != Idle {
        HoldsDelivered(s, w);
      }
    }
  }

  lemma SameWorkers(s: State, a: Action)
    requires Enabled(s, a)
    ensures |Apply(s, a).workers| == |s.workers| && |Apply(s, a).streams| == |s.streams|
  {
  }

  lemma StepOnce(s: State, a: Action)
    requires Inv(s) && Once(s) && Enabled(s, a) && ClaimGuarded(s, a)
    ensures Once(Apply(s, a))
  {
    StepStreamsOnce(s, a);
    SameWorkers(s, a);
    hide StreamOnce, NotCopied, Apart, Apply, ClaimGuarded;
    var s' := Apply(s, a);
    forall w | 0 <= w < |s'.workers|
      ensures NotCopied(s'.streams, s'.workers[w])
    {
      StepWorkersOnce(s, a, w);
    }
    forall v, w | 0 <= v < |s'.workers| && 0 <= w < |s'.workers| && v != w
      ensures Apart(s'.workers[v], s'.workers[w])
    {
      StepApart(s, a, v, w);
    }
  }

  lemma InitialOnce(s: State)
    requires Initial(s)
    ensures Once(s)
  {
  }

  // ----- whole runs

  /** Every claim of the run is guarded. */
  ghost predicate Guarded(s: State, actions: seq<Action>)
    decreases |actions|
  {
    actions != [] && Enabled(s, actions[0]) ==>
      ClaimGuarded(s, actions[0]) && Guarded(Apply(s, actions[0]), actions[1..])
  }

  lemma {:induction false} RunOnce(s: State, actions: seq<Action>, s': State)
    requires Inv(s) && Once(s) && Run(s, actions, s') && Guarded(s, actions)
    ensures Inv(s') && Once(s')
    decreases |actions|
  {
    hide Inv, Once, Apply, Enabled, ClaimGuarded;
    if actions != [] {
      StepKeepsInv(s, actions[0]);
      StepOnce(s, actions[0]);
      RunOnce(Apply(s, actions[0]), actions[1..], s');
    }
  }

  // ----- how often a task is executed

  /** The action gives a worker of stage `k` an entry of the task. */
  predicate Executes(s: State, a: Action, k: nat, event: nat)
    requires Enabled(s, a)
  {
    && (a.Read? || a.Claim?)
    && s.workers[a.w].stage == k
    && s.streams[k].log[if a.Read? then s.streams[k].delivered else a.i].event == event
  }

  ghost function Executions(s: State, actions: seq<Action>, k: nat, event: nat): nat
    decreases |actions|
  {
    if actions == [] || !Enabled(s, actions[0]) then 0
    else (if Executes(s, actions[0], k, event) then 1 else 0) + Executions(Apply(s, actions[0]), actions[1..], k, event)
  }

  /** The claims among them. */
  ghost function ClaimsOf(s: State, actions: seq<Action>, k: nat, event: nat): nat
    decreases |actions|
  {
    if actions == [] || !Enabled(s, actions[0]) then 0
    else (if actions[0].Claim? && Executes(s, actions[0], k, event) then 1 else 0)
         + ClaimsOf(Apply(s, actions[0]), actions[1..], k, event)
  }

  ghost function DeliveredOf(st: Stream, event: nat): set<nat> {
    set i: nat | i < |st.log| && i < st.delivered && st.log[i].event == event
  }

  lemma StepDelivers(s: State, a: Action, k: nat, event: nat)
    requires Inv(s) && Enabled(s, a) && k < STAGES
    ensures |DeliveredOf(Apply(s, a).streams[k], event)| ==
            |DeliveredOf(s.streams[k], event)| + if !a.Claim? && Executes(s, a, k, event) then 1 else 0
  {
    hide StreamOk, WorkerOk, PutBack, HandOn, DeliveredOf;
    DeliveredWithin(s);
    StepStreams(s, a);
    DeliveredKept(s, a, k);
    var st, st' := s.streams[k], Apply(s, a).streams[k];
    assert Grows(st, st');
    if a.Read? && s.workers[a.w].stage == k {
      OneDelivered(st, st', event);
    } else {
      NoneDelivered(st, st', event);
    }
  }

  lemma OneDelivered(st: Stream, st': Stream, event: nat)
    requires st.log <= st'.log && st'.delivered == st.delivered + 1 <= |st.log|
    ensures |DeliveredOf(st', event)| == |DeliveredOf(st, event)| + if st.log[st.delivered].event == event then 1 else 0
  {
    var before, after := DeliveredOf(st, event), DeliveredOf(st', event);
    assert after == if st.log[st.delivered].event == event then before + {st.delivered} else before;
  }

  lemma NoneDelivered(st: Stream, st': Stream, event: nat)
    requires st.log <= st'.log && st'.delivered == st.delivered <= |st.log|
    ensures DeliveredOf(st', event) == DeliveredOf(st, event)
  {
  }

  lemma DeliveredKept(s: State, a: Action, k: nat)
    requires Inv(s) && Enabled(s, a) && k < STAGES
    ensures Apply(s, a).streams[k].delivered == s.streams[k].delivered + if a.Read? && s.workers[a.w].stage == k then 1 else 0
  {
    hide StreamOk, WorkerOk;
  }

  /** In every run the executions of a task are its delivered entries and the claims of them. */
  lemma {:induction false} ExecutionsAreDeliveries(s: State, actions: seq<Action>, s': State, k: nat, event: nat)
    requires Inv(s) && Run(s, actions, s') && k < STAGES
    ensures |s'.streams| == STAGES
    ensures |DeliveredOf(s'.streams[k], event)| + ClaimsOf(s, actions, k, event)
         == |DeliveredOf(s.streams[k], event)| + Executions(s, actions, k, event)
    decreases |actions|
  {
    hide StreamOk, WorkerOk, Apply, Enabled, Executes, DeliveredOf;
    if actions != [] {
      StepKeepsInv(s, actions[0]);
      StepDelivers(s, actions[0], k, event);
      ExecutionsAreDeliveries(Apply(s, actions[0]), actions[1..], s', k, event);
    }
  }

  lemma FewTries(st: Stream, previous: seq<Entry>, event: nat)
    requires Distinct(st) && EntriesOk(st, previous)
    ensures |DeliveredOf(st, event)| <= MAX_ATTEMPTS + 1
  {
    var tries := DeliveredOf(st, event);
    forall i | i in tries
      ensures st.log[i].attempts <= MAX_ATTEMPTS
    {
      assert EntryOk(st.log, previous, i);
    }
    FewWith(st, previous, tries, event, MAX_ATTEMPTS + 1);
  }

  lemma {:induction false} FewWith(st: Stream, previous: seq<Entry>, tries: set<nat>, event: nat, n: nat)
    requires Distinct(st) && EntriesOk(st, previous)
    requires forall i :: i in tries ==> i < |st.log| && st.log[i].event == event && st.log[i].attempts < n
    ensures |tries| <= n
  {
    if n == 0 {
      assert tries == {};
    } else if i :| i in tries && st.log[i].attempts == n - 1 {
      forall j | j in tries - {i}
        ensures st.log[j].attempts < n - 1
      {
        assert st.log[j].attempts == n - 1 ==> SameTry(st.log[i], st.log[j]);
      }
      FewWith(st, previous, tries - {i}, event, n - 1);
    } else {
      FewWith(st, previous, tries, event, n - 1);
    }
  }

  /** With guarded claims a task is executed at most once per attempt, and once more per claim. */
  lemma ExecutionsBounded(start: State, actions: seq<Action>, s: State, k: nat, event: nat)
    requires Initial(start) && Run(start, actions, s) && Guarded(start, actions) && k < STAGES
    ensures Executions(start, actions, k, event) <= MAX_ATTEMPTS + 1 + ClaimsOf(start, actions, k, event)
  {
    InitialInv(start);
    InitialOnce(start);
    RunOnce(start, actions, s);
    ExecutionsAreDeliveries(start, actions, s, k, event);
    assert StreamOnce(s.streams[k], s.nextEvent) && StreamOk(s.streams, k);
    FewTries(s.streams[k], Previous(s.streams, k), event);
  }

  // ----- how a task ends

  /** A worker requeues an entry that has been finished: its handler failed after the hand-off. */
  predicate LateRequeue(s: State, a: Action)
    requires Enabled(s, a)
  {
    a.Requeue? && s.workers[a.w].entry in s.streams[s.workers[a.w].stage].completed
  }

  /** Every claim is guarded, and no finished entry is requeued. */
  ghost predicate Clean(s: State, actions: seq<Action>)
    decreases |actions|
  {
    actions != [] && Enabled(s, actions[0]) ==>
      && ClaimGuarded(s, actions[0]) && !LateRequeue(s, actions[0])
      && Clean(Apply(s, actions[0]), actions[1..])
  }

  lemma {:induction false} CleanIsGuarded(s: State, actions: seq<Action>, s': State)
    requires Run(s, actions, s') && Clean(s, actions)
    ensures Guarded(s, actions)
    decreases |actions|
  {
    hide Apply, Enabled, ClaimGuarded;
    if actions != [] {
      CleanIsGuarded(Apply(s, actions[0]), actions[1..], s');
    }
  }

  /** An entry is finished by its handler or copied, and not both. */
  ghost predicate Exclusive(st: Stream) {
    forall i :: i in st.completed ==> !Copied(st, i)
  }

  /** A worker that has yet to finish the handler holds an entry that is not finished. */
  ghost predicate NotCompleted(streams: seq<Stream>, worker: Worker) {
    worker.stage < |streams| && (worker.phase == Running ==> worker.entry !in streams[worker.stage].completed)
  }

  ghost predicate RunningUnfinished(s: State) {
    forall w :: 0 <= w < |s.workers| ==> NotCompleted(s.streams, s.workers[w])
  }

  ghost predicate OneEnd(s: State) {
    (forall k :: 0 <= k < |s.streams| ==> Exclusive(s.streams[k])) && RunningUnfinished(s)
  }

  /** Only the hand-off finishes an entry. */
  lemma CompletedChange(s: State, a: Action, k: nat)
    requires Inv(s) && Enabled(s, a) && k < STAGES
    ensures |Apply(s, a).streams| == STAGES
    ensures Apply(s, a).streams[k].completed == s.streams[k].completed +
              if a.Complete? && s.workers[a.w].stage == k then {s.workers[a.w].entry} else {}
  {
    hide StreamOk, WorkerOk;
  }

  lemma StepExclusive(s: State, a: Action, k: nat)
    requires Inv(s) && Once(s) && OneEnd(s) && Enabled(s, a) && !LateRequeue(s, a) && k < STAGES
    ensures |Apply(s, a).streams| == STAGES && Exclusive(Apply(s, a).streams[k])
  {
    hide StreamOk, StreamOnce, Copied;
    StepStreamsOnce(s, a);
    CompletedChange(s, a, k);
    assert Exclusive(s.streams[k]);
    if !a.Produce? {
      assert NotCopied(s.streams, s.workers[a.w]) && NotCompleted(s.streams, s.workers[a.w]);
    }
    hide Apply, Apart, Inv, Once, OneEnd;
  }

  lemma StepNotCompleted(s: State, a: Action, w: nat)
    requires Inv(s) && Once(s) && RunningUnfinished(s) && Enabled(s, a) && ClaimGuarded(s, a) && w < |s.workers|
    ensures w < |Apply(s, a).workers| && NotCompleted(Apply(s, a).streams, Apply(s, a).workers[w])
  {
    hide StreamOk, StreamOnce, Copied, NotCopied, HandOn, PutBack, HeldBySome;
    SameWorkers(s, a);
    var worker := s.workers[w];
    assert WorkerOk(s.streams, worker) && NotCompleted(s.streams, worker);
    CompletedChange(s, a, worker.stage);
    UnreadNotCompleted(s, worker.stage);
    if !a.Produce? {
      assert w != a.w ==> Apart(worker, s.workers[a.w]);
      WorkerChange(s, a);
    }
  }

  lemma UnreadNotCompleted(s: State, k: nat)
    requires Inv(s) && k < STAGES
    ensures s.streams[k].delivered !in s.streams[k].completed
  {
    assert StreamOk(s.streams, k);
  }

  lemma StepRunningUnfinished(s: State, a: Action)
    requires Inv(s) && Once(s) && RunningUnfinished(s) && Enabled(s, a) && ClaimGuarded(s, a)
    ensures RunningUnfinished(Apply(s, a))
  {
    SameWorkers(s, a);
    hide NotCompleted, Apply, ClaimGuarded;
    forall w | 0 <= w < |s.workers|
      ensures NotCompleted(Apply(s, a).streams, Apply(s, a).workers[w])
    {
      StepNotCompleted(s, a, w);
    }
  }

  lemma StepOneEnd(s: State, a: Action)
    requires Inv(s) && Once(s) && OneEnd(s) && Enabled(s, a) && ClaimGuarded(s, a) && !LateRequeue(s, a)
    ensures OneEnd(Apply(s, a))
  {
    SameWorkers(s, a);
    StepRunningUnfinished(s, a);
    hide Exclusive, RunningUnfinished, Apply, ClaimGuarded;
    forall k | 0 <= k < STAGES
      ensures Exclusive(Apply(s, a).streams[k])
    {
      StepExclusive(s, a, k);
    }
  }

  lemma {:induction false} RunOneEnd(s: State, actions: seq<Action>, s': State)
    requires Inv(s) && Once(s) && OneEnd(s) && Run(s, actions, s') && Clean(s, actions)
    ensures Inv(s') && Once(s') && OneEnd(s')
    decreases |actions|
  {
    hide Inv, Once, OneEnd, Apply, Enabled, ClaimGuarded, LateRequeue;
    if actions != [] {
      StepKeepsInv(s, actions[0]);
      StepOnce(s, actions[0]);
      StepOneEnd(s, actions[0]);
      RunOneEnd(Apply(s, actions[0]), actions[1..], s');
    }
  }

  /** The task is on the stream, and all its entries are acknowledged. */
  ghost predicate Settled(st: Stream, event: nat) {
    && (exists i :: 0 <= i < |st.log| && st.log[i].event == event)
    && (forall i :: 0 <= i < |st.log| && st.log[i].event == event ==> i in st.acked)
  }

  ghost function SuccessesOf(st: Stream, event: nat): set<nat> {
    set i: nat | i < |st.log| && i in st.completed && st.log[i].event == event
  }

  ghost function DeadLettersOf(st: Stream, event: nat): set<nat> {
    set j: nat | j < |st.dlq| && st.dlq[j].event == event
  }

  /** Following the copies upwards from entry `i`: the last one is not copied on the stream. */
  lemma {:induction false} LastTry(st: Stream, previous: seq<Entry>, i: nat) returns (last: nat)
    requires EntriesOk(st, previous) && i < |st.log|
    ensures last < |st.log| && st.log[last].event == st.log[i].event && !HasOrigin(st.log, Retry(last))
    decreases MAX_ATTEMPTS + 1 - st.log[i].attempts
  {
    if HasOrigin(st.log, Retry(i)) {
      var j :| 0 <= j < |st.log| && st.log[j].origin == Retry(i);
      assert EntryOk(st.log, previous, j);
      last := LastTry(st, previous, j);
    } else {
      last := i;
    }
  }

  /** Below an entry of a task there is one for every smaller number of attempts. */
  lemma {:induction false} TriesBelow(st: Stream, previous: seq<Entry>, top: nat, attempts: nat) returns (i: nat)
    requires EntriesOk(st, previous) && top < |st.log| && attempts <= st.log[top].attempts
    ensures i < |st.log| && st.log[i].event == st.log[top].event && st.log[i].attempts == attempts
    decreases st.log[top].attempts
  {
    assert EntryOk(st.log, previous, top);
    if attempts == st.log[top].attempts {
      i := top;
    } else {
      i := TriesBelow(st, previous, st.log[top].origin.of, attempts);
    }
  }

  /** Every entry of a task but the last is copied on the stream. */
  lemma OthersAreCopied(st: Stream, previous: seq<Entry>, last: nat, i: nat)
    requires EntriesOk(st, previous) && Distinct(st)
    requires last < |st.log| && i < |st.log| && st.log[i].event == st.log[last].event && i != last
    requires !HasOrigin(st.log, Retry(last))
    ensures HasOrigin(st.log, Retry(i)) && st.log[i].attempts < MAX_ATTEMPTS
  {
    assert EntryOk(st.log, previous, last);
    assert !SameTry(st.log[i], st.log[last]);
    if st.log[i].attempts > st.log[last].attempts {
      var j := TriesBelow(st, previous, i, st.log[last].attempts + 1);
      ParentOf(st, previous, last, j);
    } else {
      var j := TriesBelow(st, previous, last, st.log[i].attempts + 1);
      ParentOf(st, previous, i, j);
    }
  }

  /** Some entry of the task was both finished and copied. */
  ghost predicate GoesOnTwice(st: Stream, event: nat) {
    exists i: nat :: i < |st.log| && TwiceAt(st, i, event)
  }

  ghost predicate TwiceAt(st: Stream, i: nat, event: nat)
    requires i < |st.log|
  {
    st.log[i].event == event && i in st.completed && Copied(st, i)
  }

  lemma OnlyLastEnds(st: Stream, previous: seq<Entry>, last: nat, event: nat)
    requires EntriesOk(st, previous) && Distinct(st) && !GoesOnTwice(st, event)
    requires last < |st.log| && st.log[last].event == event && !HasOrigin(st.log, Retry(last))
    ensures SuccessesOf(st, event) == if last in st.completed then {last} else {}
    ensures forall j :: j in DeadLettersOf(st, event) ==> st.dlq[j].origin == Retry(last)
  {
    forall i | i in SuccessesOf(st, event)
      ensures i == last
    {
      assert !TwiceAt(st, i, event);
      if i != last {
        OthersAreCopied(st, previous, last, i);
      }
    }
    forall j | j in DeadLettersOf(st, event)
      ensures st.dlq[j].origin == Retry(last)
    {
      assert DeadOk(st.log, st.dlq[j]);
      if st.dlq[j].origin.of != last {
        OthersAreCopied(st, previous, last, st.dlq[j].origin.of);
      }
    }
  }

  ghost predicate Backed(st: Stream) {
    forall i :: i in st.acked ==> Evidence(st, i)
  }

  lemma OnceIfNotTwice(st: Stream, previous: seq<Entry>, last: nat, event: nat)
    requires EntriesOk(st, previous) && Distinct(st) && Backed(st) && Settled(st, event) && !GoesOnTwice(st, event)
    requires last < |st.log| && st.log[last].event == event && !HasOrigin(st.log, Retry(last))
    ensures |SuccessesOf(st, event)| + |DeadLettersOf(st, event)| == 1
  {
    hide EntriesOk;
    OnlyLastEnds(st, previous, last, event);
    assert Evidence(st, last);
    var dead := DeadLettersOf(st, event);
    if last in st.completed {
      assert !TwiceAt(st, last, event);
      assert dead == {};
    } else {
      var j :| 0 <= j < |st.dlq| && st.dlq[j].origin == Retry(last);
      DeadEvent(st, previous, j);
      assert dead == {j};
    }
  }

  lemma AtLeast<T>(xs: set<T>, x: T)
    requires x in xs
    ensures |xs| >= 1
  {
    assert xs == (xs - {x}) + {x};
  }

  lemma AtLeastTwo<T>(xs: set<T>, x: T, y: T)
    requires x in xs && y in xs && x != y
    ensures |xs| >= 2
  {
    AtLeast(xs - {x}, y);
    assert xs == (xs - {x}) + {x};
  }

  lemma TwiceIfTwice(st: Stream, previous: seq<Entry>, last: nat, event: nat)
    requires EntriesOk(st, previous) && Backed(st) && Settled(st, event) && GoesOnTwice(st, event)
    requires last < |st.log| && st.log[last].event == event && !HasOrigin(st.log, Retry(last))
    ensures |SuccessesOf(st, event)| + |DeadLettersOf(st, event)| >= 2
  {
    hide EntriesOk;
    var i: nat :| i < |st.log| && TwiceAt(st, i, event);
    assert Evidence(st, last);
    var done, dead := SuccessesOf(st, event), DeadLettersOf(st, event);
    AtLeast(done, i);
    if i != last && last in st.completed {
      AtLeastTwo(done, i, last);
    } else {
      assert HasOrigin(st.dlq, Retry(last));
      var j :| 0 <= j < |st.dlq| && st.dlq[j].origin == Retry(last);
      DeadEvent(st, previous, j);
      AtLeast(dead, j);
    }
  }

  lemma DeadEvent(st: Stream, previous: seq<Entry>, j: nat)
    requires EntriesOk(st, previous) && j < |st.dlq|
    ensures st.dlq[j].origin.Retry? && st.dlq[j].origin.of < |st.log| && st.dlq[j].event == st.log[st.dlq[j].origin.of].event
  {
    assert DeadOk(st.log, st.dlq[j]);
  }

  /** Of a settled task: one end exactly when no entry of it was both finished and copied. */
  lemma OneEndOnStream(st: Stream, previous: seq<Entry>, event: nat)
    requires EntriesOk(st, previous) && Distinct(st) && Backed(st) && Settled(st, event)
    ensures |SuccessesOf(st, event)| + |DeadLettersOf(st, event)| == 1 <==> !GoesOnTwice(st, event)
    ensures |SuccessesOf(st, event)| + |DeadLettersOf(st, event)| >= 1
  {
    hide EntriesOk, GoesOnTwice, SuccessesOf, DeadLettersOf, Distinct, Backed;
    var i :| 0 <= i < |st.log| && st.log[i].event == event;
    var last := LastTry(st, previous, i);
    if GoesOnTwice(st, event) {
      TwiceIfTwice(st, previous, last, event);
    } else {
      OnceIfNotTwice(st, previous, last, event);
    }
  }

  /** The action requeues a finished entry of the task. */
  predicate LateRequeueOf(s: State, a: Action, k: nat, event: nat)
    requires Enabled(s, a)
  {
    LateRequeue(s, a) && s.workers[a.w].stage == k && s.streams[k].log[s.workers[a.w].entry].event == event
  }

  ghost predicate RequeuedLate(s: State, actions: seq<Action>, k: nat, event: nat)
    decreases |actions|
  {
    && actions != [] && Enabled(s, actions[0])
    && (LateRequeueOf(s, actions[0], k, event) || RequeuedLate(Apply(s, actions[0]), actions[1..], k, event))
  }

  /** The only way to go on twice is to requeue what has been finished. */
  lemma StepTwice(s: State, a: Action, k: nat, event: nat)
    requires Inv(s) && Once(s) && Enabled(s, a) && k < STAGES
    ensures |Apply(s, a).streams| == STAGES
    ensures GoesOnTwice(Apply(s, a).streams[k], event) <==>
      GoesOnTwice(s.streams[k], event) || LateRequeueOf(s, a, k, event)
  {
    hide StreamOk, StreamOnce, Copied, PutBack, HandOn;
    StepStreams(s, a);
    StepStreamsOnce(s, a);
    CompletedChange(s, a, k);
    DeliveredWithin(s);
    CompletedDelivered(s, k);
    var st, st' := s.streams[k], Apply(s, a).streams[k];
    assert Grows(st, st');
    if !a.Produce? {
      assert NotCopied(s.streams, s.workers[a.w]);
      if a.Requeue? && s.workers[a.w].stage == k {
        PutBackCopied(st, s.workers[a.w].entry);
      }
    }
    RequeueEffect(s, a);
    hide Apply, Inv, Once;
    forall i: nat | i < |st.log| && TwiceAt(st, i, event)
      ensures TwiceAt(st', i, event)
    {
      EvidenceKept(st, st', i);
    }
    if LateRequeueOf(s, a, k, event) {
      assert TwiceAt(st', s.workers[a.w].entry, event);
    }
    forall i: nat | i < |st'.log| && TwiceAt(st', i, event)
      ensures i < |st.log| && (TwiceAt(st, i, event) || LateRequeueOf(s, a, k, event))
    {
      assert i in st.completed;
    }
  }

  lemma RequeueEffect(s: State, a: Action)
    requires Enabled(s, a)
    ensures a.Requeue? ==> var k, i := s.workers[a.w].stage, s.workers[a.w].entry;
              Apply(s, a).streams[k] == PutBack(s.streams[k], i)
  {
  }

  lemma CompletedDelivered(s: State, k: nat)
    requires Inv(s) && k < STAGES
    ensures forall i :: i in s.streams[k].completed ==> i < s.streams[k].delivered
  {
    assert StreamOk(s.streams, k);
  }

  lemma {:induction false} RunTwice(s: State, actions: seq<Action>, s': State, k: nat, event: nat)
    requires Inv(s) && Once(s) && Run(s, actions, s') && Guarded(s, actions) && k < STAGES
    ensures |s.streams| == |s'.streams| == STAGES
    ensures GoesOnTwice(s'.streams[k], event) <==>
      GoesOnTwice(s.streams[k], event) || RequeuedLate(s, actions, k, event)
    decreases |actions|
  {
    assert |s.streams| == STAGES;
    hide Inv, Once, Apply, Enabled, ClaimGuarded, GoesOnTwice, LateRequeueOf;
    if actions != [] {
      StepKeepsInv(s, actions[0]);
      StepOnce(s, actions[0]);
      StepTwice(s, actions[0], k, event);
      RunTwice(Apply(s, actions[0]), actions[1..], s', k, event);
    }
  }

  /**
    With guarded claims, whatever crashes and is taken over, and whichever acknowledgements and requeues fail:
    a task whose entries are all acknowledged has one success and no dead letter, or one dead letter and no
    success, exactly when no worker has requeued an entry of it that was finished. Otherwise it has more.
   */
  lemma OneSuccessOrOneDeadLetter(start: State, actions: seq<Action>, s: State, k: nat, event: nat)
    requires Initial(start) && Run(start, actions, s) && Guarded(start, actions) && k < |s.streams|
    requires Settled(s.streams[k], event)
    ensures |SuccessesOf(s.streams[k], event)| + |DeadLettersOf(s.streams[k], event)| == 1
       <==> !RequeuedLate(start, actions, k, event)
    ensures |SuccessesOf(s.streams[k], event)| + |DeadLettersOf(s.streams[k], event)| >= 1
  {
    InitialInv(start);
    InitialOnce(start);
    RunOnce(start, actions, s);
    assert StreamOk(s.streams, k) && StreamOnce(s.streams[k], s.nextEvent);
    RunTwice(start, actions, s, k, event);
    assert start.streams[k] == EMPTY_STREAM;
    OneEndOnStream(s.streams[k], Previous(s.streams, k), event);
  }

  lemma InitialOneEnd(s: State)
    requires Initial(s)
    ensures OneEnd(s)
  {
  }
}
