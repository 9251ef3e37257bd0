/**
  How tasks end in every run, whatever is claimed, fails or crashes. For each task of a stage, the
  tasks handed on from it, its dead letters and its open entries are one more than the times a
  worker finished or requeued an entry of it that had been finished or copied already. So a task
  whose entries are all acknowledged ends once exactly when every entry of it was worked off once.
 */
module TaskEnds {
  import opened TaskQueue
  import opened TaskOutcomes
  import opened TaskConservation

  /** The tasks that are counted: all, or the one with this event number. */
  datatype Tasks = AllTasks | Only(event: nat)

  predicate Among(event: nat, tasks: Tasks) {
    tasks.AllTasks? || tasks.event == event
  }

  // ----- what is counted on a stream

  ghost function EntriesOf(log: seq<Entry>, tasks: Tasks): set<nat> {
    set i: nat | i < |log| && Among(log[i].event, tasks)
  }

  /** The entries that are not copies: one for each task that came to the stream. */
  ghost function OriginalsOf(log: seq<Entry>, tasks: Tasks): set<nat> {
    set i: nat | i < |log| && Among(log[i].event, tasks) && !log[i].origin.Retry?
  }

  /** The entries that are neither finished nor copied. */
  ghost function OpenOf(st: Stream, tasks: Tasks): set<nat> {
    set i: nat | i < |st.log| && Among(st.log[i].event, tasks) && !Evidence(st, i)
  }

  ghost function DeadOf(st: Stream, tasks: Tasks): set<nat> {
    set j: nat | j < |st.dlq| && Among(st.dlq[j].event, tasks)
  }

  /** The entries of the next stage that were made from entries of these tasks. */
  ghost function HandedOnFrom(log: seq<Entry>, next: seq<Entry>, tasks: Tasks): set<nat> {
    set j: nat | j < |next| && MadeFrom(log, next[j].origin, tasks)
  }

  ghost predicate MadeFrom(log: seq<Entry>, o: Origin, tasks: Tasks) {
    o.HandOff? && o.from < |log| && Among(log[o.from].event, tasks)
  }

  lemma EntriesAppend(log: seq<Entry>, e: Entry, tasks: Tasks)
    ensures |EntriesOf(log + [e], tasks)| == |EntriesOf(log, tasks)| + if Among(e.event, tasks) then 1 else 0
  {
    hide Among;
    var before, after := EntriesOf(log, tasks), EntriesOf(log + [e], tasks);
    var n := |log|;
    forall i: nat
      ensures i in after <==> i in before || (i == n && Among(e.event, tasks))
    {
    }
    Exchange(before, after, n, n, Among(e.event, tasks));
  }

  lemma OriginalsAppend(log: seq<Entry>, e: Entry, tasks: Tasks)
    ensures |OriginalsOf(log + [e], tasks)| ==
            |OriginalsOf(log, tasks)| + if Among(e.event, tasks) && !e.origin.Retry? then 1 else 0
  {
    hide Among;
    var before, after := OriginalsOf(log, tasks), OriginalsOf(log + [e], tasks);
    var n := |log|;
    forall i: nat
      ensures i in after <==> i in before || (i == n && Among(e.event, tasks) && !e.origin.Retry?)
    {
    }
    Exchange(before, after, n, n, Among(e.event, tasks) && !e.origin.Retry?);
  }

  lemma DeadAppend(st: Stream, e: Entry, tasks: Tasks)
    ensures |DeadOf(st.(dlq := st.dlq + [e]), tasks)| == |DeadOf(st, tasks)| + if Among(e.event, tasks) then 1 else 0
  {
    var st' := st.(dlq := st.dlq + [e]);
    assert DeadOf(st', tasks) == DeadOf(st, tasks) + if Among(e.event, tasks) then {|st.dlq|} else {};
  }

  lemma HandedAppend(log: seq<Entry>, next: seq<Entry>, e: Entry, tasks: Tasks)
    ensures |HandedOnFrom(log, next + [e], tasks)| ==
            |HandedOnFrom(log, next, tasks)| + if MadeFrom(log, e.origin, tasks) then 1 else 0
  {
    hide MadeFrom;
    var next' := next + [e];
    assert HandedOnFrom(log, next', tasks) ==
           HandedOnFrom(log, next, tasks) + if MadeFrom(log, e.origin, tasks) then {|next|} else {};
  }

  /** Only entries of the stream are copied or finished. */
  lemma NothingAhead(st: Stream, previous: seq<Entry>)
    requires EntriesOk(st, previous) && Accounted(st)
    ensures forall i: nat :: Evidence(st, i) ==> i < |st.log|
  {
    forall i: nat | Copied(st, i)
      ensures i < |st.log|
    {
      if HasOrigin(st.log, Retry(i)) {
        var j :| 0 <= j < |st.log| && st.log[j].origin == Retry(i);
        assert EntryOk(st.log, previous, j);
      } else {
        var j :| 0 <= j < |st.dlq| && st.dlq[j].origin == Retry(i);
        assert DeadOk(st.log, st.dlq[j]);
      }
    }
  }

  /** A new task opens one entry. */
  lemma OpenAppend(st: Stream, e: Entry, tasks: Tasks)
    requires !e.origin.Retry? && forall i: nat :: Evidence(st, i) ==> i < |st.log|
    ensures |OpenOf(Append(st, e), tasks)| == |OpenOf(st, tasks)| + if Among(e.event, tasks) then 1 else 0
  {
    hide HasOrigin;
    var st' := Append(st, e);
    forall i: nat
      ensures Evidence(st', i) <==> Evidence(st, i)
    {
      OriginAppend(st.log, e, Retry(i));
    }
    hide Evidence;
    assert OpenOf(st', tasks) == OpenOf(st, tasks) + if Among(e.event, tasks) then {|st.log|} else {};
  }

  /** The first outcome of an entry closes it. */
  lemma OpenFinished(st: Stream, i: nat, tasks: Tasks)
    requires i < |st.log|
    ensures var st' := st.(completed := st.completed + {i});
      |OpenOf(st', tasks)| == |OpenOf(st, tasks)| - if Among(st.log[i].event, tasks) && !Evidence(st, i) then 1 else 0
  {
    hide HasOrigin;
    var st' := st.(completed := st.completed + {i});
    assert OpenOf(st', tasks) == OpenOf(st, tasks) - {i};
  }

  /** A requeue closes the entry, and opens its copy or adds a dead letter. */
  lemma OpenPutBack(st: Stream, i: nat, tasks: Tasks)
    requires i < |st.log| && forall j: nat :: Evidence(st, j) ==> j < |st.log|
    ensures var st', mine := PutBack(st, i), Among(st.log[i].event, tasks);
      |OpenOf(st', tasks)| + |DeadOf(st', tasks)| ==
        |OpenOf(st, tasks)| + |DeadOf(st, tasks)| + if mine && Evidence(st, i) then 1 else 0
  {
    var copy := CopyOf(st, i);
    PutBackCopied(st, i);
    assert forall j: nat :: Evidence(PutBack(st, i), j) <==> Evidence(st, j) || j == i by { hide HasOrigin; }
    hide Evidence, OpenOf, DeadOf;
    Reopened(st, PutBack(st, i), i, tasks);
    if copy.attempts > MAX_ATTEMPTS {
      DeadAppend(st, copy, tasks);
    } else {
      SameDead(st, PutBack(st, i), tasks);
    }
  }

  /** What is open once the entry has its evidence and its copy may stand at the end. */
  lemma Reopened(st: Stream, st': Stream, i: nat, tasks: Tasks)
    requires i < |st.log| && forall j: nat :: Evidence(st, j) ==> j < |st.log|
    requires forall j: nat :: Evidence(st', j) <==> Evidence(st, j) || j == i
    requires st'.log == st.log || st'.log == st.log + [CopyOf(st, i)]
    ensures var mine := Among(st.log[i].event, tasks);
      |OpenOf(st', tasks)| == |OpenOf(st, tasks)| - (if mine && !Evidence(st, i) then 1 else 0)
                              + if mine && st'.log != st.log then 1 else 0
  {
    hide Evidence, Among, OpenOf;
    var mine, n := Among(st.log[i].event, tasks), |st.log|;
    forall j: nat
      ensures j in OpenOf(st', tasks) <==> (j in OpenOf(st, tasks) && j != i) || (j == n && mine && st'.log != st.log)
    {
      OpenIff(st, j, tasks);
      OpenIff(st', j, tasks);
      assert j == n && st'.log != st.log ==> st'.log[j].event == st.log[i].event;
    }
    OpenIff(st, i, tasks);
    OpenIff(st, n, tasks);
    Exchange(OpenOf(st, tasks), OpenOf(st', tasks), i, n, mine && st'.log != st.log);
  }

  lemma Exchange(before: set<nat>, after: set<nat>, left: nat, taken: nat, grows: bool)
    requires forall j: nat :: j in after <==> (j in before && j != left) || (j == taken && grows)
    requires taken !in before
    ensures |after| == |before| - (if left in before then 1 else 0) + if grows then 1 else 0
  {
    assert after == (before - {left}) + if grows then {taken} else {};
  }

  lemma OpenIff(st: Stream, i: nat, tasks: Tasks)
    ensures i in OpenOf(st, tasks) <==> i < |st.log| && Among(st.log[i].event, tasks) && !Evidence(st, i)
  {
    hide Evidence, Among;
  }

  lemma PutBackEntries(st: Stream, i: nat, tasks: Tasks)
    requires i < |st.log|
    ensures var st', mine := PutBack(st, i), Among(st.log[i].event, tasks);
      && |EntriesOf(st'.log, tasks)| + |DeadOf(st', tasks)| ==
         |EntriesOf(st.log, tasks)| + |DeadOf(st, tasks)| + (if mine then 1 else 0)
      && |OriginalsOf(st'.log, tasks)| == |OriginalsOf(st.log, tasks)|
  {
    var copy, st' := CopyOf(st, i), PutBack(st, i);
    EntriesAppend(st.log, copy, tasks);
    OriginalsAppend(st.log, copy, tasks);
    DeadAppend(st, copy, tasks);
    hide EntriesOf, OriginalsOf;
    if copy.attempts <= MAX_ATTEMPTS {
      assert DeadOf(st', tasks) == DeadOf(st, tasks);
    }
  }

  lemma SameCounts(st: Stream, st': Stream, tasks: Tasks)
    requires st'.log == st.log && st'.dlq == st.dlq
    ensures DeadOf(st', tasks) == DeadOf(st, tasks)
    ensures st'.completed == st.completed ==> OpenOf(st', tasks) == OpenOf(st, tasks)
  {
    hide HasOrigin;
  }

  // ----- what is counted of a run

  /** What an action is counted as: by the tasks its entry belongs to, or by the entry itself. */
  datatype Kind =
    | Completion(tasks: Tasks)
    | Requeueing(tasks: Tasks)
    | Repetition(tasks: Tasks)
    | OutcomeAt(i: nat)
    | RepetitionAt(i: nat)

  /** A worker of the stage finishes the handler or requeues: an outcome of its entry. */
  predicate IsOutcome(s: State, a: Action, k: nat)
    requires Enabled(s, a)
  {
    (a.Complete? || a.Requeue?) && s.workers[a.w].stage == k
  }

  /** The event of the worker's entry. */
  function EventAt(s: State, a: Action): nat
    requires Enabled(s, a) && (a.Complete? || a.Requeue?)
  {
    s.streams[s.workers[a.w].stage].log[s.workers[a.w].entry].event
  }

  /** An outcome is a repetition when the entry has been finished or copied before. */
  ghost predicate Counts(s: State, a: Action, k: nat, kind: Kind)
    requires Enabled(s, a)
  {
    && IsOutcome(s, a, k)
    && match kind
       case Completion(tasks) => a.Complete? && Among(EventAt(s, a), tasks)
       case Requeueing(tasks) => a.Requeue? && Among(EventAt(s, a), tasks)
       case Repetition(tasks) => Among(EventAt(s, a), tasks) && Evidence(s.streams[k], s.workers[a.w].entry)
       case OutcomeAt(i) => s.workers[a.w].entry == i
       case RepetitionAt(i) => s.workers[a.w].entry == i && Evidence(s.streams[k], i)
  }

  ghost function Count(s: State, actions: seq<Action>, k: nat, kind: Kind): nat
    decreases |actions|
  {
    if actions == [] || !Enabled(s, actions[0]) then 0
    else (if Counts(s, actions[0], k, kind) then 1 else 0) + Count(Apply(s, actions[0]), actions[1..], k, kind)
  }

  // ----- one action

  /** What comes new to a stream, and from where. */
  lemma FedEntry(s: State, a: Action, k: nat)
    requires Inv(s) && Enabled(s, a) && k < STAGES && Feeds(s, a, k)
    ensures |Apply(s, a).streams| == STAGES && |Apply(s, a).streams[k].log| == |s.streams[k].log| + 1
    ensures var e := Apply(s, a).streams[k].log[|s.streams[k].log|];
      && Apply(s, a).streams[k] == Append(s.streams[k], e) && e.event == s.nextEvent
      && e.origin == if a.Produce? then Produced else HandOff(s.workers[a.w].entry)
  {
    hide StreamOk, HoldsWell;
  }

  /** The worker's entry is on its stream. */
  lemma ActsWithin(s: State, a: Action)
    requires Enabled(s, a) && (a.Complete? || a.Requeue?)
    ensures s.workers[a.w].stage < STAGES == |s.streams|
    ensures s.workers[a.w].entry < |s.streams[s.workers[a.w].stage].log|
  {
    assert WorkerShaped(s.streams, s.workers[a.w]);
  }

  lemma AheadOf(s: State, k: nat)
    requires Inv(s) && k < STAGES
    ensures forall i: nat :: Evidence(s.streams[k], i) ==> i < |s.streams[k].log|
  {
    assert StreamOk(s.streams, k);
    NothingAhead(s.streams[k], Previous(s.streams, k));
  }

  function One(b: bool): nat {
    if b then 1 else 0
  }

  /**
    The balance of a stream: what is finished, dead or open grows by what comes in and by what is
    finished or requeued once more.
   */
  lemma StepBalance(s: State, a: Action, k: nat, tasks: Tasks)
    requires Inv(s) && Enabled(s, a) && k < STAGES
    ensures |Apply(s, a).streams| == STAGES
    ensures var st, st' := s.streams[k], Apply(s, a).streams[k];
      && |OpenOf(st', tasks)| + |DeadOf(st', tasks)| + One(Counts(s, a, k, Completion(tasks))) + |OriginalsOf(st.log, tasks)|
      == |OpenOf(st, tasks)| + |DeadOf(st, tasks)| + One(Counts(s, a, k, Repetition(tasks))) + |OriginalsOf(st'.log, tasks)|
  {
    StreamEffect(s, a, k);
    AheadOf(s, k);
    if a.Complete? || a.Requeue? {
      ActsWithin(s, a);
    }
    if Feeds(s, a, k) {
      FedEntry(s, a, k);
    }
    hide Apply, Inv, Enabled, OpenOf, DeadOf, OriginalsOf, Evidence, PutBack;
    var st, st' := s.streams[k], Apply(s, a).streams[k];
    if Feeds(s, a, k) {
      var e := st'.log[|st.log|];
      OpenAppend(st, e, tasks);
      OriginalsAppend(st.log, e, tasks);
      SameDead(st, st', tasks);
    } else if Completes(s, a, k) {
      OpenFinished(st, s.workers[a.w].entry, tasks);
      SameDead(st, st', tasks);
    } else if a.Requeue? && k == s.workers[a.w].stage {
      OpenPutBack(st, s.workers[a.w].entry, tasks);
      PutBackEntries(st, s.workers[a.w].entry, tasks);
    } else {
      SameCounts(st, st', tasks);
    }
  }

  lemma SameDead(st: Stream, st': Stream, tasks: Tasks)
    requires st'.dlq == st.dlq
    ensures DeadOf(st', tasks) == DeadOf(st, tasks)
  {
  }

  /** Every requeue writes one copy, to the stream or to the dead letters. */
  lemma StepEntries(s: State, a: Action, k: nat, tasks: Tasks)
    requires Inv(s) && Enabled(s, a) && k < STAGES
    ensures |Apply(s, a).streams| == STAGES
    ensures var st, st' := s.streams[k], Apply(s, a).streams[k];
      && |EntriesOf(st'.log, tasks)| + |DeadOf(st', tasks)| + |OriginalsOf(st.log, tasks)|
      == |EntriesOf(st.log, tasks)| + |DeadOf(st, tasks)| + |OriginalsOf(st'.log, tasks)|
         + One(Counts(s, a, k, Requeueing(tasks)))
  {
    StreamEffect(s, a, k);
    if a.Complete? || a.Requeue? {
      ActsWithin(s, a);
    }
    hide Apply, Inv, Enabled, DeadOf, OriginalsOf, EntriesOf, Evidence, PutBack;
    var st, st' := s.streams[k], Apply(s, a).streams[k];
    if Feeds(s, a, k) {
      EntriesAppend(st.log, st'.log[|st.log|], tasks);
      OriginalsAppend(st.log, st'.log[|st.log|], tasks);
      SameDead(st, st', tasks);
    } else if a.Requeue? && k == s.workers[a.w].stage {
      PutBackEntries(st, s.workers[a.w].entry, tasks);
    } else {
      SameDead(st, st', tasks);
    }
  }

  /** The hand-offs on the next stream are made from entries that are there. */
  lemma HandedFrom(s: State, k: nat)
    requires Inv(s) && k + 1 < STAGES
    ensures FromBefore(s.streams[k].log, s.streams[k + 1].log)
  {
    assert StreamOk(s.streams, k + 1);
    var next := s.streams[k + 1].log;
    forall j | 0 <= j < |next| && next[j].origin.HandOff?
      ensures next[j].origin.from < |s.streams[k].log|
    {
      assert EntryOk(next, Previous(s.streams, k + 1), j);
    }
  }

  ghost predicate FromBefore(log: seq<Entry>, next: seq<Entry>) {
    forall j :: 0 <= j < |next| && next[j].origin.HandOff? ==> next[j].origin.from < |log|
  }

  lemma SameHanded(log: seq<Entry>, log': seq<Entry>, next: seq<Entry>, tasks: Tasks)
    requires log <= log' && FromBefore(log, next)
    ensures HandedOnFrom(log', next, tasks) == HandedOnFrom(log, next, tasks)
  {
  }

  /** Every completion puts one entry on the next stream. */
  lemma StepHanded(s: State, a: Action, k: nat, tasks: Tasks)
    requires Inv(s) && Enabled(s, a) && k + 1 < STAGES
    ensures |Apply(s, a).streams| == STAGES
    ensures |HandedOnFrom(Apply(s, a).streams[k].log, Apply(s, a).streams[k + 1].log, tasks)|
         == |HandedOnFrom(s.streams[k].log, s.streams[k + 1].log, tasks)| + One(Counts(s, a, k, Completion(tasks)))
  {
    StepStreams(s, a);
    StreamEffect(s, a, k + 1);
    HandedFrom(s, k);
    if a.Complete? || a.Requeue? {
      ActsWithin(s, a);
    }
    if Feeds(s, a, k + 1) {
      FedEntry(s, a, k + 1);
    }
    var log, next := s.streams[k].log, s.streams[k + 1].log;
    var log', next' := Apply(s, a).streams[k].log, Apply(s, a).streams[k + 1].log;
    assert Grows(s.streams[k], Apply(s, a).streams[k]);
    SameHanded(log, log', next, tasks);
    hide Apply, Inv, Enabled, HandedOnFrom, PutBack;
    if Feeds(s, a, k + 1) {
      HandedAppend(log', next, next'[|next|], tasks);
    } else if a.Requeue? && k + 1 == s.workers[a.w].stage {
      PutBackHanded(log', s.streams[k + 1], s.workers[a.w].entry, tasks);
    }
  }

  lemma PutBackHanded(log: seq<Entry>, st: Stream, i: nat, tasks: Tasks)
    requires i < |st.log|
    ensures |HandedOnFrom(log, PutBack(st, i).log, tasks)| == |HandedOnFrom(log, st.log, tasks)|
  {
    HandedAppend(log, st.log, CopyOf(st, i), tasks);
  }

  // ----- whole runs

  lemma {:induction false} RunBalance(s: State, actions: seq<Action>, s': State, k: nat, tasks: Tasks)
    requires Inv(s) && Run(s, actions, s') && k < STAGES
    ensures |s.streams| == |s'.streams| == STAGES
    ensures var st, st' := s.streams[k], s'.streams[k];
      && |OpenOf(st', tasks)| + |DeadOf(st', tasks)| + Count(s, actions, k, Completion(tasks)) + |OriginalsOf(st.log, tasks)|
      == |OpenOf(st, tasks)| + |DeadOf(st, tasks)| + Count(s, actions, k, Repetition(tasks)) + |OriginalsOf(st'.log, tasks)|
    decreases |actions|
  {
    assert |s.streams| == STAGES;
    hide Inv, Apply, Enabled, Counts, OpenOf, DeadOf, OriginalsOf;
    if actions != [] {
      StepKeepsInv(s, actions[0]);
      StepBalance(s, actions[0], k, tasks);
      RunBalance(Apply(s, actions[0]), actions[1..], s', k, tasks);
    }
  }

  lemma {:induction false} RunEntries(s: State, actions: seq<Action>, s': State, k: nat, tasks: Tasks)
    requires Inv(s) && Run(s, actions, s') && k < STAGES
    ensures |s.streams| == |s'.streams| == STAGES
    ensures var st, st' := s.streams[k], s'.streams[k];
      && |EntriesOf(st'.log, tasks)| + |DeadOf(st', tasks)| + |OriginalsOf(st.log, tasks)|
      == |EntriesOf(st.log, tasks)| + |DeadOf(st, tasks)| + |OriginalsOf(st'.log, tasks)|
         + Count(s, actions, k, Requeueing(tasks))
    decreases |actions|
  {
    assert |s.streams| == STAGES;
    hide Inv, Apply, Enabled, Counts, EntriesOf, DeadOf, OriginalsOf;
    if actions != [] {
      StepKeepsInv(s, actions[0]);
      StepEntries(s, actions[0], k, tasks);
      RunEntries(Apply(s, actions[0]), actions[1..], s', k, tasks);
    }
  }

  lemma {:induction false} RunHanded(s: State, actions: seq<Action>, s': State, k: nat, tasks: Tasks)
    requires Inv(s) && Run(s, actions, s') && k + 1 < STAGES
    ensures |s.streams| == |s'.streams| == STAGES
    ensures |HandedOnFrom(s'.streams[k].log, s'.streams[k + 1].log, tasks)|
         == |HandedOnFrom(s.streams[k].log, s.streams[k + 1].log, tasks)| + Count(s, actions, k, Completion(tasks))
    decreases |actions|
  {
    assert |s.streams| == STAGES;
    hide Inv, Apply, Enabled, Counts, HandedOnFrom;
    if actions != [] {
      StepKeepsInv(s, actions[0]);
      StepHanded(s, actions[0], k, tasks);
      RunHanded(Apply(s, actions[0]), actions[1..], s', k, tasks);
    }
  }

  // ----- one original for each task

  /** Event numbers are new when they come in, and only copies share them. */
  ghost predicate OneOriginal(st: Stream, bound: nat) {
    && EventsUsed(st, bound)
    && forall i, j :: 0 <= i < |st.log| && 0 <= j < |st.log| && BothOriginal(st.log[i], st.log[j]) ==> i == j
  }

  predicate BothOriginal(a: Entry, b: Entry) {
    a.event == b.event && !a.origin.Retry? && !b.origin.Retry?
  }

  ghost predicate OneOriginalEach(s: State) {
    forall k :: 0 <= k < |s.streams| ==> OneOriginal(s.streams[k], s.nextEvent)
  }

  lemma StepOriginal(s: State, a: Action, k: nat)
    requires Inv(s) && Enabled(s, a) && k < STAGES && OneOriginal(s.streams[k], s.nextEvent)
    ensures |Apply(s, a).streams| == STAGES && OneOriginal(Apply(s, a).streams[k], Apply(s, a).nextEvent)
  {
    var grown, put := StreamChange(s, a, k);
    SameWorkers(s, a);
    if put {
      ActsWithin(s, a);
    }
    hide Apply, Inv, Enabled;
  }

  lemma {:induction false} RunOriginal(s: State, actions: seq<Action>, s': State)
    requires Inv(s) && OneOriginalEach(s) && Run(s, actions, s')
    ensures Inv(s') && OneOriginalEach(s')
    decreases |actions|
  {
    assert |s.streams| == STAGES;
    if actions != [] {
      var next := Apply(s, actions[0]);
      StepKeepsInv(s, actions[0]);
      SameWorkers(s, actions[0]);
      hide Inv, Apply, Enabled, OneOriginal;
      forall k | 0 <= k < |next.streams|
        ensures OneOriginal(next.streams[k], next.nextEvent)
      {
        StepOriginal(s, actions[0], k);
      }
      RunOriginal(next, actions[1..], s');
    }
  }

  /** A task that is on a stream came to it once. */
  lemma CameOnce(st: Stream, previous: seq<Entry>, bound: nat, event: nat)
    requires EntriesOk(st, previous) && OneOriginal(st, bound) && OnStream(st, event)
    ensures |OriginalsOf(st.log, Only(event))| == 1
  {
    var top: nat :| top < |st.log| && st.log[top].event == event;
    var i := TriesBelow(st, previous, top, 0);
    assert EntryOk(st.log, previous, i);
    forall j | j in OriginalsOf(st.log, Only(event))
      ensures j == i
    {
      assert BothOriginal(st.log[i], st.log[j]);
    }
    assert OriginalsOf(st.log, Only(event)) == {i};
  }

  ghost predicate OnStream(st: Stream, event: nat) {
    exists i: nat :: i < |st.log| && st.log[i].event == event
  }

  // ----- how a task ends

  /** The tasks handed on from the task; after the last stage, the times its handler was done. */
  ghost function HandOffs(start: State, actions: seq<Action>, s: State, k: nat, tasks: Tasks): nat
    requires k < |s.streams|
  {
    if k + 1 < |s.streams| then |HandedOnFrom(s.streams[k].log, s.streams[k + 1].log, tasks)|
    else Count(start, actions, k, Completion(tasks))
  }

  /** The tasks handed on and the dead letters. */
  ghost function Ends(start: State, actions: seq<Action>, s: State, k: nat, tasks: Tasks): nat
    requires k < |s.streams|
  {
    HandOffs(start, actions, s, k, tasks) + |DeadOf(s.streams[k], tasks)|
  }

  lemma NothingCounted(s: State, k: nat, tasks: Tasks)
    requires Initial(s) && k < STAGES
    ensures |s.streams| == STAGES && OneOriginalEach(s)
    ensures OpenOf(s.streams[k], tasks) == DeadOf(s.streams[k], tasks) == OriginalsOf(s.streams[k].log, tasks) == {}
    ensures EntriesOf(s.streams[k].log, tasks) == {}
    ensures k + 1 < STAGES ==> HandedOnFrom(s.streams[k].log, s.streams[k + 1].log, tasks) == {}
  {
    assert forall j :: 0 <= j < STAGES ==> s.streams[j] == EMPTY_STREAM;
  }

  /** In every run, and for any tasks of a stage: what ends and what is open is what came in and what was repeated. */
  lemma EndsBalance(start: State, actions: seq<Action>, s: State, k: nat, tasks: Tasks)
    requires Initial(start) && Run(start, actions, s) && k < STAGES
    ensures |s.streams| == STAGES
    ensures Ends(start, actions, s, k, tasks) + |OpenOf(s.streams[k], tasks)|
         == |OriginalsOf(s.streams[k].log, tasks)| + Count(start, actions, k, Repetition(tasks))
    ensures Ends(start, actions, s, k, tasks) + |EntriesOf(s.streams[k].log, tasks)|
         == |OriginalsOf(s.streams[k].log, tasks)| + Count(start, actions, k, Completion(tasks))
            + Count(start, actions, k, Requeueing(tasks))
  {
    InitialInv(start);
    NothingCounted(start, k, tasks);
    RunBalance(start, actions, s, k, tasks);
    RunEntries(start, actions, s, k, tasks);
    if k + 1 < STAGES {
      RunHanded(start, actions, s, k, tasks);
    }
  }

  /**
    Every run, any claims and faults: of a task that came to a stage, the tasks handed on from it, its dead
    letters and its open entries are one more than the outcomes of entries that had one before; and the first
    two are one more than all outcomes less the entries.
   */
  lemma EndsOfTask(start: State, actions: seq<Action>, s: State, k: nat, event: nat)
    requires Initial(start) && Run(start, actions, s) && k < |s.streams| && OnStream(s.streams[k], event)
    ensures var task := Only(event);
      && Ends(start, actions, s, k, task) + |OpenOf(s.streams[k], task)|
         == 1 + Count(start, actions, k, Repetition(task))
      && Ends(start, actions, s, k, task) + |EntriesOf(s.streams[k].log, task)|
         == 1 + Count(start, actions, k, Completion(task)) + Count(start, actions, k, Requeueing(task))
  {
    InitialInv(start);
    RunKeepsInv(start, actions, s);
    NothingCounted(start, k, Only(event));
    RunOriginal(start, actions, s);
    assert StreamOk(s.streams, k);
    CameOnce(s.streams[k], Previous(s.streams, k), s.nextEvent, event);
    hide Inv, OneOriginalEach, Count, OpenOf, EntriesOf, OriginalsOf, OnStream, Initial, Run, Ends;
    EndsBalance(start, actions, s, k, Only(event));
  }

  /** The outcomes of an entry are its evidence and its repetitions. */
  lemma {:induction false} OutcomesOfEntry(s: State, actions: seq<Action>, s': State, k: nat, i: nat)
    requires Inv(s) && Run(s, actions, s') && k < STAGES
    ensures |s.streams| == |s'.streams| == STAGES
    ensures Count(s, actions, k, OutcomeAt(i)) + One(Evidence(s.streams[k], i))
         == Count(s, actions, k, RepetitionAt(i)) + One(Evidence(s'.streams[k], i))
    decreases |actions|
  {
    assert |s.streams| == STAGES;
    hide Inv, Apply, Enabled, Counts, Evidence;
    if actions != [] {
      StepKeepsInv(s, actions[0]);
      StepEvidence(s, actions[0], k, i);
      OutcomesOfEntry(Apply(s, actions[0]), actions[1..], s', k, i);
    }
  }

  lemma StepEvidence(s: State, a: Action, k: nat, i: nat)
    requires Inv(s) && Enabled(s, a) && k < STAGES
    ensures |Apply(s, a).streams| == STAGES
    ensures One(Counts(s, a, k, OutcomeAt(i))) + One(Evidence(s.streams[k], i))
         == One(Counts(s, a, k, RepetitionAt(i))) + One(Evidence(Apply(s, a).streams[k], i))
  {
    StreamEffect(s, a, k);
    if a.Complete? || a.Requeue? {
      ActsWithin(s, a);
    }
    hide Apply, Inv, Enabled, HasOrigin, PutBack;
    var st, st' := s.streams[k], Apply(s, a).streams[k];
    if Feeds(s, a, k) {
      OriginAppend(st.log, st'.log[|st.log|], Retry(i));
    } else if a.Requeue? && k == s.workers[a.w].stage {
      PutBackCopied(st, s.workers[a.w].entry);
      PutBackCompleted(st, s.workers[a.w].entry);
    }
  }

  /** A task has a repetition exactly when one of its entries has. */
  lemma {:induction false} RepetitionSomewhere(s: State, actions: seq<Action>, s': State, k: nat, event: nat)
    requires Inv(s) && Run(s, actions, s') && k < STAGES
    ensures |s.streams| == |s'.streams| == STAGES && s.streams[k].log <= s'.streams[k].log
    ensures Count(s, actions, k, Repetition(Only(event))) > 0
       <==> exists i :: i in EntriesOf(s'.streams[k].log, Only(event)) && Count(s, actions, k, RepetitionAt(i)) > 0
    decreases |actions|
  {
    assert |s.streams| == STAGES;
    if actions != [] {
      var a, next := actions[0], Apply(s, actions[0]);
      StepKeepsInv(s, a);
      StepStreams(s, a);
      assert Grows(s.streams[k], next.streams[k]);
      RepetitionSomewhere(next, actions[1..], s', k, event);
      var entries := EntriesOf(s'.streams[k].log, Only(event));
      if IsOutcome(s, a, k) {
        ActsWithin(s, a);
        assert EventAt(s, a) == event <==> s.workers[a.w].entry in entries;
      }
      assert forall i :: i in entries && Counts(s, a, k, RepetitionAt(i)) ==> Counts(s, a, k, Repetition(Only(event)));
      assert Counts(s, a, k, Repetition(Only(event))) ==>
               s.workers[a.w].entry in entries && Counts(s, a, k, RepetitionAt(s.workers[a.w].entry));
      hide Inv, Apply, Enabled, Counts, EntriesOf;
    }
  }

  /** All entries of a settled task have had an outcome. */
  lemma SettledIsClosed(s: State, k: nat, event: nat)
    requires Inv(s) && k < STAGES && Settled(s.streams[k], event)
    ensures OpenOf(s.streams[k], Only(event)) == {} && OnStream(s.streams[k], event)
    ensures forall i :: i in EntriesOf(s.streams[k].log, Only(event)) ==> Evidence(s.streams[k], i)
  {
    hide Evidence;
    assert StreamOk(s.streams, k);
  }

  /**
    Every run, any claims and faults: a task whose entries are all acknowledged has one end and one more for
    each outcome of an entry that had one before. So it ends once, with one task handed on or one dead letter
    and not both, exactly when each of its entries was finished or requeued once.
   */
  lemma OneEndIff(start: State, actions: seq<Action>, s: State, k: nat, event: nat)
    requires Initial(start) && Run(start, actions, s) && k < |s.streams| && Settled(s.streams[k], event)
    ensures Ends(start, actions, s, k, Only(event)) == 1 + Count(start, actions, k, Repetition(Only(event)))
    ensures Ends(start, actions, s, k, Only(event)) == 1
       <==> forall i :: i in EntriesOf(s.streams[k].log, Only(event)) ==> Count(start, actions, k, OutcomeAt(i)) == 1
  {
    InitialInv(start);
    RunKeepsInv(start, actions, s);
    SettledIsClosed(s, k, event);
    NoEvidence(start, k);
    EndsOfTask(start, actions, s, k, event);
    hide Inv, Initial, Run, Settled, Evidence, Count, Ends;
    RepetitionSomewhere(start, actions, s, k, event);
    forall i | i in EntriesOf(s.streams[k].log, Only(event))
      ensures Count(start, actions, k, OutcomeAt(i)) == 1 + Count(start, actions, k, RepetitionAt(i))
    {
      OutcomesOfEntry(start, actions, s, k, i);
    }
  }

  lemma NoEvidence(s: State, k: nat)
    requires Initial(s) && k < STAGES
    ensures |s.streams| == STAGES && forall i: nat :: !Evidence(s.streams[k], i)
  {
    assert s.streams[k] == EMPTY_STREAM;
  }

  // ----- the whole pipeline

  /** A stage receives what is produced, or what the stage before completes. */
  ghost function CameIn(s: State, actions: seq<Action>, k: nat): nat {
    if k == 0 then Produces(actions) else Count(s, actions, k - 1, Completion(AllTasks))
  }

  lemma StepCameIn(s: State, a: Action, k: nat)
    requires Inv(s) && Enabled(s, a) && k < STAGES
    ensures |Apply(s, a).streams| == STAGES
    ensures |OriginalsOf(Apply(s, a).streams[k].log, AllTasks)|
         == |OriginalsOf(s.streams[k].log, AllTasks)| + One(Feeds(s, a, k))
    ensures Feeds(s, a, k) <==> if k == 0 then a.Produce? else Counts(s, a, k - 1, Completion(AllTasks))
  {
    StreamEffect(s, a, k);
    if a.Complete? || a.Requeue? {
      ActsWithin(s, a);
    }
    hide Apply, Inv, Enabled, OriginalsOf, PutBack;
    var st, st' := s.streams[k], Apply(s, a).streams[k];
    if Feeds(s, a, k) {
      OriginalsAppend(st.log, st'.log[|st.log|], AllTasks);
    } else if a.Requeue? && k == s.workers[a.w].stage {
      PutBackEntries(st, s.workers[a.w].entry, AllTasks);
    }
  }

  lemma {:induction false} RunCameIn(s: State, actions: seq<Action>, s': State, k: nat)
    requires Inv(s) && Run(s, actions, s') && k < STAGES
    ensures |s.streams| == |s'.streams| == STAGES
    ensures |OriginalsOf(s'.streams[k].log, AllTasks)| == |OriginalsOf(s.streams[k].log, AllTasks)| + CameIn(s, actions, k)
    decreases |actions|
  {
    assert |s.streams| == STAGES;
    hide Inv, Apply, Enabled, Counts, OriginalsOf, Feeds;
    if actions != [] {
      StepKeepsInv(s, actions[0]);
      StepCameIn(s, actions[0], k);
      RunCameIn(Apply(s, actions[0]), actions[1..], s', k);
    }
  }

  lemma DeadLetters(st: Stream)
    ensures |DeadOf(st, AllTasks)| == |st.dlq|
  {
    Positions(DeadOf(st, AllTasks), |st.dlq|);
  }

  lemma {:induction false} Positions(xs: set<nat>, n: nat)
    requires forall j: nat :: j in xs <==> j < n
    ensures |xs| == n
    decreases n
  {
    if n == 0 {
      assert xs == {};
    } else {
      Positions(xs - {n - 1}, n - 1);
    }
  }

  lemma OpenIsUnended(st: Stream)
    ensures OpenOf(st, AllTasks) == Unended(st)
  {
    hide HasOrigin;
  }

  /** The outcomes of the first `n` stages whose entries had one before. */
  ghost function Repeated(s: State, actions: seq<Action>, n: nat): nat {
    if n == 0 then 0 else Repeated(s, actions, n - 1) + Count(s, actions, n - 1, Repetition(AllTasks))
  }

  lemma {:induction false} StagesAccounted(start: State, actions: seq<Action>, s: State, n: nat)
    requires Initial(start) && Run(start, actions, s) && 0 < n <= STAGES
    ensures |s.streams| == STAGES
    ensures Produces(actions) + Repeated(start, actions, n)
         == Count(start, actions, n - 1, Completion(AllTasks)) + NotThrough(s.streams, n)
  {
    var k := n - 1;
    InitialInv(start);
    NothingCounted(start, k, AllTasks);
    RunBalance(start, actions, s, k, AllTasks);
    RunCameIn(start, actions, s, k);
    DeadLetters(s.streams[k]);
    OpenIsUnended(s.streams[k]);
    hide Inv, Initial, Run, Count, Unended, OpenOf, DeadOf, OriginalsOf, Produces;
    if n > 1 {
      StagesAccounted(start, actions, s, n - 1);
    } else {
      assert NotThrough(s.streams, 0) == 0 && Repeated(start, actions, 0) == 0;
    }
  }

  /**
    Every run, any claims and faults: the tasks produced, and one more for each outcome of an entry that had one
    before, are the times the last stage was done, the dead letters and the open entries of all stages.
   */
  lemma EveryTaskAccounted(start: State, actions: seq<Action>, s: State)
    requires Initial(start) && Run(start, actions, s)
    ensures |s.streams| == STAGES
    ensures Produces(actions) + Repeated(start, actions, STAGES)
         == Count(start, actions, STAGES - 1, Completion(AllTasks)) + NotThrough(s.streams, STAGES)
  {
    StagesAccounted(start, actions, s, STAGES);
  }
}
