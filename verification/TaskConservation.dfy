/**
  Counting the tasks of the pipeline. In every clean run, with crashes, guarded take-overs and failed
  acknowledgements, the tasks that came in are those through the last stage, those in dead-letter
  streams and those with one entry still open.
 */
module TaskConservation {
  import opened TaskQueue
  import opened TaskOutcomes

  /** The tasks that came to a stream: the entries that are not copies. */
  function TasksIn(log: seq<Entry>): nat {
    if log == [] then 0
    else TasksIn(log[..|log| - 1]) + if log[|log| - 1].origin.Retry? then 0 else 1
  }

  /** The entries that are neither finished nor copied. */
  ghost function Unended(st: Stream): set<nat> {
    set i: nat | i < |st.log| && i !in st.completed && !Copied(st, i)
  }

  ghost predicate Balanced(st: Stream) {
    TasksIn(st.log) == |st.completed| + |st.dlq| + |Unended(st)|
  }

  /** Each stage has received what the stage before has completed. */
  ghost predicate Conserved(s: State) {
    && (forall k :: 0 <= k < |s.streams| ==> Balanced(s.streams[k]))
    && (forall k :: 0 < k < |s.streams| ==> TasksIn(s.streams[k].log) == |s.streams[k - 1].completed|)
  }

  lemma TasksAppend(log: seq<Entry>, e: Entry)
    ensures TasksIn(log + [e]) == TasksIn(log) + if e.origin.Retry? then 0 else 1
  {
    assert (log + [e])[..|log|] == log;
  }

  lemma AppendBalanced(st: Stream, e: Entry)
    requires Balanced(st) && CopiesDelivered(st) && Accounted(st) && !e.origin.Retry?
    ensures Balanced(Append(st, e))
    ensures TasksIn(Append(st, e).log) == TasksIn(st.log) + 1
  {
    hide HasOrigin, TasksIn;
    TasksAppend(st.log, e);
    var st' := Append(st, e);
    forall i: nat
      ensures Copied(st', i) <==> Copied(st, i)
    {
      OriginAppend(st.log, e, Retry(i));
    }
    assert Unended(st') == Unended(st) + {|st.log|};
  }

  lemma CompleteBalanced(st: Stream, i: nat)
    requires Balanced(st) && i < |st.log| && i !in st.completed && !Copied(st, i)
    ensures Balanced(st.(completed := st.completed + {i}))
    ensures |st.completed + {i}| == |st.completed| + 1
  {
    hide HasOrigin, TasksIn;
    var st' := st.(completed := st.completed + {i});
    assert Unended(st') == Unended(st) - {i};
  }

  lemma PutBackBalanced(st: Stream, i: nat)
    requires Balanced(st) && CopiesDelivered(st) && Accounted(st)
    requires i < st.delivered && i !in st.completed && !Copied(st, i)
    ensures Balanced(PutBack(st, i))
    ensures TasksIn(PutBack(st, i).log) == TasksIn(st.log)
  {
    hide HasOrigin, TasksIn;
    var st', copy := PutBack(st, i), CopyOf(st, i);
    PutBackCopied(st, i);
    TasksAppend(st.log, copy);
    if copy.attempts > MAX_ATTEMPTS {
      assert Unended(st') == Unended(st) - {i};
    } else {
      assert Unended(st') == Unended(st) - {i} + {|st.log|};
    }
  }

  lemma SameBalanced(st: Stream, st': Stream)
    requires Balanced(st) && st'.log == st.log && st'.dlq == st.dlq && st'.completed == st.completed
    ensures Balanced(st')
  {
    hide HasOrigin, TasksIn;
    forall i: nat
      ensures Copied(st', i) <==> Copied(st, i)
    {
    }
    assert Unended(st') == Unended(st);
  }

  // ----- one action

  /** The action puts a new task on stream `k`. */
  predicate Feeds(s: State, a: Action, k: nat)
    requires Enabled(s, a)
  {
    (a.Produce? && k == 0) || (a.Complete? && k == s.workers[a.w].stage + 1)
  }

  predicate Completes(s: State, a: Action, k: nat)
    requires Enabled(s, a)
  {
    a.Complete? && k == s.workers[a.w].stage
  }

  /** How one action changes what is counted of one stream. */
  lemma StreamEffect(s: State, a: Action, k: nat)
    requires Inv(s) && Enabled(s, a) && k < STAGES
    ensures |Apply(s, a).streams| == STAGES
    ensures var st, st' := s.streams[k], Apply(s, a).streams[k];
      if Feeds(s, a, k) then |st'.log| == |st.log| + 1 && st' == Append(st, st'.log[|st.log|])
                             && !st'.log[|st.log|].origin.Retry?
      else if Completes(s, a, k) then st' == st.(completed := st.completed + {s.workers[a.w].entry})
      else if a.Requeue? && k == s.workers[a.w].stage then st' == PutBack(st, s.workers[a.w].entry)
      else st'.log == st.log && st'.dlq == st.dlq && st'.completed == st.completed
  {
    hide StreamOk, HoldsWell, PutBack;
  }

  lemma StepCounts(s: State, a: Action, k: nat)
    requires Inv(s) && Once(s) && OneEnd(s) && Conserved(s) && Enabled(s, a) && !LateRequeue(s, a) && k < STAGES
    ensures |Apply(s, a).streams| == STAGES && Balanced(Apply(s, a).streams[k])
    ensures TasksIn(Apply(s, a).streams[k].log) == TasksIn(s.streams[k].log) + if Feeds(s, a, k) then 1 else 0
    ensures |Apply(s, a).streams[k].completed| == |s.streams[k].completed| + if Completes(s, a, k) then 1 else 0
  {
    hide StreamOk, StreamOnce, Copied, Evidence, TasksIn, Unended, PutBack, NotCopied, NotCompleted, WorkerOk;
    var st, st' := s.streams[k], Apply(s, a).streams[k];
    StreamEffect(s, a, k);
    StreamFacts(s, k);
    if !a.Produce? {
      WorkerFacts(s, a.w);
    }
    hide Apply, Apart, Exclusive, Balanced;
    assert Balanced(st) by { BalancedAt(s, k); }
    if Feeds(s, a, k) {
      AppendBalanced(st, st'.log[|st.log|]);
    } else if Completes(s, a, k) {
      CompleteBalanced(st, s.workers[a.w].entry);
    } else if a.Requeue? && k == s.workers[a.w].stage {
      PutBackBalanced(st, s.workers[a.w].entry);
      PutBackCompleted(st, s.workers[a.w].entry);
    } else {
      SameBalanced(st, st');
    }
  }

  lemma BalancedAt(s: State, k: nat)
    requires Conserved(s) && k < |s.streams|
    ensures Balanced(s.streams[k])
  {
  }

  lemma PutBackCompleted(st: Stream, i: nat)
    requires i < |st.log|
    ensures PutBack(st, i).completed == st.completed
  {
  }

  lemma StreamFacts(s: State, k: nat)
    requires Inv(s) && Once(s) && k < STAGES
    ensures Accounted(s.streams[k]) && CopiesDelivered(s.streams[k])
  {
    assert StreamOk(s.streams, k) && StreamOnce(s.streams[k], s.nextEvent);
  }

  lemma WorkerFacts(s: State, w: nat)
    requires Inv(s) && Once(s) && OneEnd(s) && w < |s.workers|
    ensures var worker := s.workers[w];
      && worker.stage < STAGES
      && (worker.phase == Running ==> worker.entry !in s.streams[worker.stage].completed)
      && (worker.phase == Running || worker.phase.Handling? ==>
            && worker.entry < s.streams[worker.stage].delivered <= |s.streams[worker.stage].log|
            && !Copied(s.streams[worker.stage], worker.entry))
  {
    var worker := s.workers[w];
    assert WorkerOk(s.streams, worker) && NotCopied(s.streams, worker) && NotCompleted(s.streams, worker);
    DeliveredWithin(s);
  }

  lemma StepConserved(s: State, a: Action)
    requires Inv(s) && Once(s) && OneEnd(s) && Conserved(s) && Enabled(s, a) && !LateRequeue(s, a)
    ensures Conserved(Apply(s, a))
  {
    SameWorkers(s, a);
    hide Inv, Once, OneEnd, Apply, Balanced, TasksIn, LateRequeue;
    var s' := Apply(s, a);
    forall k | 0 <= k < |s'.streams|
      ensures Balanced(s'.streams[k])
      ensures k > 0 ==> TasksIn(s'.streams[k].log) == |s'.streams[k - 1].completed|
    {
      StepCounts(s, a, k);
      if k > 0 {
        StepCounts(s, a, k - 1);
      }
    }
  }

  // ----- whole runs

  function Produces(actions: seq<Action>): nat {
    if actions == [] then 0 else (if actions[0].Produce? then 1 else 0) + Produces(actions[1..])
  }

  lemma {:induction false} RunConserved(s: State, actions: seq<Action>, s': State)
    requires Inv(s) && Once(s) && OneEnd(s) && Conserved(s) && Run(s, actions, s') && Clean(s, actions)
    ensures |s.streams| == |s'.streams| == STAGES && Conserved(s')
    ensures TasksIn(s'.streams[0].log) == TasksIn(s.streams[0].log) + Produces(actions)
    decreases |actions|
  {
    assert |s.streams| == STAGES;
    hide Inv, Once, OneEnd, Conserved, Apply, TasksIn, ClaimGuarded, LateRequeue;
    if actions != [] {
      StepKeepsInv(s, actions[0]);
      StepOnce(s, actions[0]);
      StepOneEnd(s, actions[0]);
      StepConserved(s, actions[0]);
      StepCounts(s, actions[0], 0);
      RunConserved(Apply(s, actions[0]), actions[1..], s');
    }
  }

  /** Dead letters and open entries of the first `n` stages. */
  ghost function NotThrough(streams: seq<Stream>, n: nat): nat
    requires n <= |streams|
  {
    if n == 0 then 0 else NotThrough(streams, n - 1) + |streams[n - 1].dlq| + |Unended(streams[n - 1])|
  }

  lemma {:induction false} PipelineBalanced(s: State, n: nat)
    requires Conserved(s) && 0 < n <= |s.streams|
    ensures TasksIn(s.streams[0].log) == |s.streams[n - 1].completed| + NotThrough(s.streams, n)
  {
    hide TasksIn, Unended;
    assert Balanced(s.streams[n - 1]);
    var before := NotThrough(s.streams, n - 1);
    if n > 1 {
      PipelineBalanced(s, n - 1);
    }
  }

  /**
    In every clean run the tasks produced are those that the last stage has completed, plus the dead letters
    and the open entries of all stages.
   */
  lemma TasksConserved(start: State, actions: seq<Action>, s: State)
    requires Initial(start) && Run(start, actions, s) && Clean(start, actions)
    ensures |s.streams| == STAGES
    ensures Produces(actions) == |s.streams[STAGES - 1].completed| + NotThrough(s.streams, STAGES)
  {
    InitialInv(start);
    InitialOnce(start);
    InitialOneEnd(start);
    InitialConserved(start);
    RunConserved(start, actions, s);
    PipelineBalanced(s, STAGES);
  }

  lemma InitialConserved(s: State)
    requires Initial(s)
    ensures Conserved(s)
  {
    assert Unended(EMPTY_STREAM) == {};
  }
}
