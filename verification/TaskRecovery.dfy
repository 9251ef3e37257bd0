/**
  Recovery of the task queue. Every run, whatever was claimed, crashed, failed or skipped in it, can
  be carried on without new tasks and without any fault until every entry of every stream is
  acknowledged: the busy workers finish their turns, and then idle ones take what is left, stage by
  stage. A clean run can be carried on cleanly until each of its tasks has ended once.
 */
module TaskRecovery {
  import opened TaskQueue
  import opened TaskOutcomes
  import opened TaskConservation
  import opened TaskTermination

  /** No new task comes in and nothing goes wrong. */
  ghost predicate Recovers(s: State, actions: seq<Action>)
    decreases |actions|
  {
    actions != [] && Enabled(s, actions[0]) ==>
      Faultless(s, actions[0]) && Recovers(Apply(s, actions[0]), actions[1..])
  }

  lemma Ahead(s: State, a: Action, more: seq<Action>, s': State)
    requires Enabled(s, a) && Faultless(s, a) && Run(Apply(s, a), more, s') && Recovers(Apply(s, a), more)
    ensures Run(s, [a] + more, s') && Recovers(s, [a] + more)
  {
    hide Apply, Enabled, Faultless;
    assert ([a] + more)[0] == a && ([a] + more)[1..] == more;
  }

  lemma {:induction false} Together(s: State, first: seq<Action>, t: State, second: seq<Action>, u: State)
    requires Run(s, first, t) && Run(t, second, u)
    ensures Run(s, first + second, u)
    ensures Recovers(s, first) && Recovers(t, second) ==> Recovers(s, first + second)
    decreases |first|
  {
    hide Apply, Enabled, Faultless;
    if first == [] {
      assert first + second == second;
    } else {
      Together(Apply(s, first[0]), first[1..], t, second, u);
      assert (first + second)[1..] == first[1..] + second;
    }
  }

  /** The invariant, with a worker at every stage. */
  ghost predicate Manned(s: State) {
    Inv(s) && Staffed(s)
  }

  lemma StepManned(s: State, a: Action)
    requires Manned(s) && Enabled(s, a)
    ensures Manned(Apply(s, a))
  {
    hide Inv, Staffed, Apply, Enabled;
    StepKeepsInv(s, a);
    StepStaffed(s, a);
  }

  // ----- busy workers finish their turns

  lemma {:induction false} ComesToIdle(s: State) returns (more: seq<Action>, s': State)
    requires Manned(s)
    ensures Run(s, more, s') && Recovers(s, more) && Manned(s') && AllIdle(s')
    decreases Ranks(s.workers)
  {
    if w :| 0 <= w < |s.workers| && s.workers[w].phase != Idle {
      var a := NextAction(w, s.workers[w].phase);
      NextEnabled(s, w);
      StepRank(s, a);
      StepManned(s, a);
      hide Manned, Apply, Enabled, Faultless, Ranks;
      more, s' := ComesToIdle(Apply(s, a));
      Ahead(s, a, more, s');
      more := [a] + more;
    } else {
      more, s' := [], s;
    }
  }

  // ----- how much is left

  ghost function Unacked(st: Stream): set<nat> {
    set i: nat | i < |st.log| && i !in st.acked
  }

  ghost function UnackedBelow(streams: seq<Stream>, n: nat): nat
    requires n <= |streams|
  {
    if n == 0 then 0 else UnackedBelow(streams, n - 1) + |Unacked(streams[n - 1])|
  }

  /** The acknowledgements that are missing, each once for its own stage and for every later one. */
  ghost function Backlog(streams: seq<Stream>, n: nat): nat
    requires n <= |streams|
  {
    if n == 0 then 0 else Backlog(streams, n - 1) + UnackedBelow(streams, n)
  }

  /** The action acknowledges an entry for the first time. */
  predicate AcksNew(s: State, a: Action)
    requires Enabled(s, a)
  {
    a.Ack? && s.workers[a.w].stage < |s.streams| && s.workers[a.w].entry !in s.streams[s.workers[a.w].stage].acked
  }

  function StageOf(s: State, a: Action): nat
    requires Enabled(s, a)
  {
    if a.Produce? then 0 else s.workers[a.w].stage
  }

  lemma StepUnacked(s: State, a: Action, k: nat)
    requires Inv(s) && Enabled(s, a) && !a.Produce? && !a.Requeue? && k < STAGES
    ensures |Apply(s, a).streams| == STAGES
    ensures |Unacked(Apply(s, a).streams[k])| == |Unacked(s.streams[k])|
      + (if a.Complete? && StageOf(s, a) + 1 == k then 1 else 0) - if AcksNew(s, a) && StageOf(s, a) == k then 1 else 0
  {
    StreamEffect(s, a, k);
    AckedChange(s, a, k);
    AckedWithin(s, k);
    if a.Ack? {
      ActorWithin(s, a);
    }
    hide Apply, Inv, Enabled;
    var st, st' := s.streams[k], Apply(s, a).streams[k];
    if a.Complete? && StageOf(s, a) + 1 == k {
      OneMore(st, st');
    } else if a.Ack? && StageOf(s, a) == k {
      OneLess(st, st', s.workers[a.w].entry);
    } else {
      assert Unacked(st') == Unacked(st);
    }
  }

  lemma OneMore(st: Stream, st': Stream)
    requires |st'.log| == |st.log| + 1 && st'.acked == st.acked && |st.log| !in st.acked
    ensures |Unacked(st')| == |Unacked(st)| + 1
  {
    assert Unacked(st') == Unacked(st) + {|st.log|};
  }

  lemma OneLess(st: Stream, st': Stream, i: nat)
    requires st'.log == st.log && st'.acked == st.acked + {i} && i < |st.log|
    ensures |Unacked(st')| == |Unacked(st)| - if i in st.acked then 0 else 1
  {
    assert Unacked(st') == Unacked(st) - {i};
  }

  lemma AckedChange(s: State, a: Action, k: nat)
    requires Inv(s) && Enabled(s, a) && k < STAGES
    ensures |Apply(s, a).streams| == STAGES
    ensures Apply(s, a).streams[k].acked ==
      s.streams[k].acked + if a.Ack? && StageOf(s, a) == k then {s.workers[a.w].entry} else {}
  {
    hide StreamOk, HoldsWell;
  }

  lemma AckedWithin(s: State, k: nat)
    requires Inv(s) && k < STAGES
    ensures |s.streams[k].log| !in s.streams[k].acked
  {
    assert StreamOk(s.streams, k);
  }

  lemma ActorWithin(s: State, a: Action)
    requires Enabled(s, a) && a.Ack?
    ensures s.workers[a.w].stage < |s.streams| && s.workers[a.w].entry < |s.streams[s.workers[a.w].stage].log|
  {
    assert WorkerShaped(s.streams, s.workers[a.w]);
  }

  lemma {:induction false} StepUnackedBelow(s: State, a: Action, n: nat)
    requires Inv(s) && Enabled(s, a) && !a.Produce? && !a.Requeue? && n <= STAGES
    ensures |Apply(s, a).streams| == |s.streams| == STAGES
    ensures UnackedBelow(Apply(s, a).streams, n) == UnackedBelow(s.streams, n)
      + (if a.Complete? && StageOf(s, a) + 1 < n then 1 else 0) - if AcksNew(s, a) && StageOf(s, a) < n then 1 else 0
  {
    SameWorkers(s, a);
    assert |s.streams| == STAGES;
    hide Apply, Inv, Enabled, Unacked, AcksNew, StageOf;
    if n > 0 {
      StepUnackedBelow(s, a, n - 1);
      StepUnacked(s, a, n - 1);
    }
  }

  lemma {:induction false} StepBacklog(s: State, a: Action, n: nat)
    requires Inv(s) && Enabled(s, a) && !a.Produce? && !a.Requeue? && n <= STAGES
    ensures |Apply(s, a).streams| == |s.streams| == STAGES
    ensures Backlog(Apply(s, a).streams, n) == Backlog(s.streams, n)
      + (if a.Complete? && StageOf(s, a) + 1 < n then n - 1 - StageOf(s, a) else 0)
      - if AcksNew(s, a) && StageOf(s, a) < n then n - StageOf(s, a) else 0
  {
    SameWorkers(s, a);
    assert |s.streams| == STAGES;
    hide Apply, Inv, Enabled, UnackedBelow, AcksNew, StageOf;
    if n > 0 {
      StepBacklog(s, a, n - 1);
      StepUnackedBelow(s, a, n);
    }
  }

  // ----- one turn after the other

  ghost predicate OthersIdle(s: State, w: nat) {
    forall v :: 0 <= v < |s.workers| && v != w ==> s.workers[v].phase == Idle
  }

  /** Worker `w` alone is busy, on its way to acknowledge an entry that is not acknowledged yet. */
  ghost predicate OnTheWay(s: State, w: nat) {
    && w < |s.workers| && OthersIdle(s, w) && s.workers[w].stage < |s.streams|
    && (s.workers[w].phase == Running || s.workers[w].phase == HandedOff || s.workers[w].phase == Done
        || s.workers[w].phase == Finalizing(true))
    && s.workers[w].entry !in s.streams[s.workers[w].stage].acked
  }

  /** One action nearer to the acknowledgement. */
  lemma Nearer(s: State, w: nat)
    requires Inv(s) && OnTheWay(s, w)
    ensures var a := NextAction(w, s.workers[w].phase);
      && Enabled(s, a) && Faultless(s, a) && !a.Produce? && !a.Requeue? && StageOf(s, a) == s.workers[w].stage < STAGES
      && (a.Complete? <==> s.workers[w].phase == Running) && (AcksNew(s, a) <==> s.workers[w].phase == Finalizing(true))
      && if a.Ack? then AllIdle(Apply(s, a))
         else OnTheWay(Apply(s, a), w) && Apply(s, a).workers[w].stage == s.workers[w].stage
              && Apply(s, a).workers[w].phase != Running && Rank(Apply(s, a).workers[w].phase) < Rank(s.workers[w].phase)
  {
    var a := NextAction(w, s.workers[w].phase);
    NextEnabled(s, w);
    WorkerChange(s, a);
    SameWorkers(s, a);
    AckedChange(s, a, s.workers[w].stage);
    NextPhases(s, w);
    hide Inv, Apply, Enabled;
  }

  lemma NextPhases(s: State, w: nat)
    requires w < |s.workers| && s.workers[w].phase != Idle && Enabled(s, NextAction(w, s.workers[w].phase))
    ensures var phase, s' := s.workers[w].phase, Apply(s, NextAction(w, s.workers[w].phase));
      && w < |s'.workers|
      && (phase == Running ==> s'.workers[w].phase == HandedOff) && (phase == HandedOff ==> s'.workers[w].phase == Done)
      && (phase == Done ==> s'.workers[w].phase == Finalizing(true))
      && (phase == Finalizing(true) ==> s'.workers[w].phase == Idle)
  {
    hide HandOn, PutBack;
  }

  /** The turn ends with the acknowledgement, and with one less in the backlog than before its hand-off. */
  lemma {:induction false} TurnEnds(s: State, w: nat) returns (rest: seq<Action>, s': State)
    requires Manned(s) && OnTheWay(s, w)
    ensures Run(s, rest, s') && Recovers(s, rest) && Manned(s') && AllIdle(s')
    ensures |s.streams| == |s'.streams| == STAGES && s.workers[w].stage < STAGES
    ensures Backlog(s'.streams, STAGES) + 1 + (if s.workers[w].phase == Running then 0 else STAGES - 1 - s.workers[w].stage)
         == Backlog(s.streams, STAGES)
    decreases Rank(s.workers[w].phase)
  {
    var a := NextAction(w, s.workers[w].phase);
    Nearer(s, w);
    StepManned(s, a);
    StepBacklog(s, a, STAGES);
    hide Manned, Apply, Enabled, Faultless, Backlog, AcksNew, AllIdle;
    var next := Apply(s, a);
    if a.Ack? {
      rest, s' := [], next;
    } else {
      rest, s' := TurnEnds(next, w);
    }
    Ahead(s, a, rest, s');
    rest := [a] + rest;
  }

  /** An idle worker takes an entry of its stream that is not acknowledged. */
  lemma Taking(s: State, w: nat) returns (a: Action)
    requires Inv(s) && AllIdle(s) && w < |s.workers| && s.workers[w].stage < |s.streams|
    requires !Finished(s.streams[s.workers[w].stage])
    ensures Enabled(s, a) && Faultless(s, a) && (a.Read? || a.Claim?)
    ensures OnTheWay(Apply(s, a), w) && Apply(s, a).workers[w].phase == Running
  {
    var k := s.workers[w].stage;
    a := CanTakeOne(s, w);
    assert StreamOk(s.streams, k);
    WorkerChange(s, a);
    SameWorkers(s, a);
    AckedChange(s, a, k);
    TakenRunning(s, a);
    hide Inv, Apply, Enabled, Finished;
  }

  lemma TakenRunning(s: State, a: Action)
    requires Enabled(s, a) && (a.Read? || a.Claim?)
    ensures a.w < |Apply(s, a).workers| && Apply(s, a).workers[a.w].phase == Running
  {
  }

  /** From idle workers, one whole turn after the other until nothing is left. */
  lemma {:induction false} WorksOff(s: State) returns (more: seq<Action>, s': State)
    requires Manned(s) && AllIdle(s) && |s.streams| == STAGES
    ensures Run(s, more, s') && Recovers(s, more) && Manned(s') && Quiet(s')
    decreases Backlog(s.streams, STAGES)
  {
    hide Inv, Finished, Run, Recovers, Backlog, Apply, Enabled, Faultless;
    if k :| 0 <= k < STAGES && !Finished(s.streams[k]) {
      assert StaffedAt(s, k);
      var w: nat :| WorksAt(s, w, k);
      var a := Taking(s, w);
      StepManned(s, a);
      StepBacklog(s, a, STAGES);
      var turn, idle := TurnEnds(Apply(s, a), w);
      Ahead(s, a, turn, idle);
      more, s' := WorksOff(idle);
      Together(s, [a] + turn, idle, more, s');
      more := [a] + turn + more;
    } else {
      more, s' := [], s;
      NoActions(s);
    }
  }

  lemma NoActions(s: State)
    ensures Run(s, [], s) && Recovers(s, [])
  {
  }

  /** At rest no entry is open any more, so what carries a task on is its end. */
  lemma AllCarriedToEnd(s: State, p: Place)
    requires Inv(s) && Quiet(s) && Exists(s, p)
    ensures exists q :: Descends(s, p, q) && Exists(s, q) && Ended(s, q)
  {
    var q := CarriedOn(s, p);
    assert Finished(s.streams[q.stage]);
    assert !Open(s, q);
  }

  /**
    Recovery: every run, whatever was claimed, crashed, failed or skipped in it, can be carried on without new
    tasks and without faults to a state at rest. There every entry is acknowledged, and from every entry ever
    put on a stream a chain of hand-offs and retries leads past the last stage or to a dead-letter stream.
    Stale claims take over what crashed workers have left, finished or not.
   */
  lemma EveryRunCanFinish(start: State, actions: seq<Action>, s: State) returns (more: seq<Action>, s': State)
    requires Initial(start) && Staffed(start) && Run(start, actions, s)
    ensures Run(s, more, s') && Run(start, actions + more, s') && Recovers(s, more)
    ensures Quiet(s') && |s'.streams| == STAGES
    ensures forall k, i: nat :: 0 <= k < STAGES && i < |s'.streams[k].log| ==> i in s'.streams[k].acked
    ensures forall p :: Exists(s', p) ==> exists q :: Descends(s', p, q) && Exists(s', q) && Ended(s', q)
  {
    InitialInv(start);
    RunKeepsInv(start, actions, s);
    RunStaffed(start, actions, s);
    hide Initial, Run, Recovers, Inv, Staffed, AllIdle, Quiet, Unended, Descends, Exists, Ended;
    var first, idle := ComesToIdle(s);
    assert |idle.streams| == STAGES by { FiveStreams(idle); }
    var second;
    second, s' := WorksOff(idle);
    more := first + second;
    Together(s, first, idle, second, s');
    Together(start, actions, s, more, s');
    FiveStreams(s');
    QuietEnds(s');
    forall p | Exists(s', p)
      ensures exists q :: Descends(s', p, q) && Exists(s', q) && Ended(s', q)
    {
      AllCarriedToEnd(s', p);
    }
  }

  lemma FiveStreams(s: State)
    requires Inv(s)
    ensures |s.streams| == STAGES
  {
  }

  // ----- clean runs

  /** The invariants of clean runs, with a worker at every stage. */
  ghost predicate Good(s: State) {
    Inv(s) && Once(s) && OneEnd(s) && Conserved(s) && HeldPending(s) && Staffed(s)
  }

  lemma GoodStep(s: State, a: Action)
    requires Good(s) && Enabled(s, a) && ClaimGuarded(s, a) && !LateRequeue(s, a)
    ensures Good(Apply(s, a))
  {
    hide Inv, Once, OneEnd, Conserved, HeldPending, Staffed, Apply, Enabled, ClaimGuarded, LateRequeue;
    StepKeepsInv(s, a);
    StepOnce(s, a);
    StepOneEnd(s, a);
    StepConserved(s, a);
    StepHeldPending(s, a);
    StepStaffed(s, a);
  }

  /** The entries that the first `n` stages have finished. */
  function HandedOver(streams: seq<Stream>, n: nat): nat
    requires n <= |streams|
  {
    if n == 0 then 0 else HandedOver(streams, n - 1) + |streams[n - 1].completed|
  }

  /** How many hand-overs are left until every task has passed every stage. */
  ghost function HandOversLeft(s: State): int
    requires |s.streams| == STAGES
  {
    STAGES * TasksIn(s.streams[0].log) - HandedOver(s.streams, STAGES)
  }

  lemma {:induction false} HandedOverBounded(s: State, n: nat)
    requires Conserved(s) && n <= |s.streams| == STAGES
    ensures HandedOver(s.streams, n) <= n * TasksIn(s.streams[0].log)
  {
    hide Conserved, TasksIn, NotThrough;
    if n > 0 {
      HandedOverBounded(s, n - 1);
      PipelineBalanced(s, n);
      var tasks := TasksIn(s.streams[0].log);
      assert n * tasks == (n - 1) * tasks + tasks;
    }
  }

  lemma HandOversNotNegative(s: State)
    requires Good(s)
    ensures |s.streams| == STAGES && HandOversLeft(s) >= 0
  {
    FiveStreams(s);
    HandedOverBounded(s, STAGES);
  }

  lemma StepCompleted(s: State, a: Action, k: nat)
    requires Good(s) && Enabled(s, a) && !LateRequeue(s, a) && k < STAGES
    ensures |s.streams| == |Apply(s, a).streams| == STAGES
    ensures |Apply(s, a).streams[k].completed| == |s.streams[k].completed| + if a.Complete? && StageOf(s, a) == k then 1 else 0
  {
    FiveStreams(s);
    hide Inv, Once, OneEnd, Conserved, HeldPending, Staffed, Apply, Enabled, LateRequeue;
    StepCounts(s, a, k);
  }

  lemma {:induction false} HandedOverChange(streams: seq<Stream>, streams': seq<Stream>, k: nat, more: nat, n: nat)
    requires n <= |streams| == |streams'|
    requires forall j :: 0 <= j < |streams| ==> |streams'[j].completed| == |streams[j].completed| + if j == k then more else 0
    ensures HandedOver(streams', n) == HandedOver(streams, n) + if k < n then more else 0
  {
    if n > 0 {
      HandedOverChange(streams, streams', k, more, n - 1);
    }
  }

  /** A hand-over is one less; the other actions change nothing, unless a task comes in. */
  lemma StepHandOvers(s: State, a: Action)
    requires Good(s) && Enabled(s, a) && !LateRequeue(s, a) && !a.Produce?
    ensures |s.streams| == |Apply(s, a).streams| == STAGES
    ensures HandOversLeft(Apply(s, a)) == HandOversLeft(s) - if a.Complete? then 1 else 0
  {
    FiveStreams(s);
    ReaderStage(s, a);
    SameWorkers(s, a);
    hide Inv, Once, OneEnd, Conserved, HeldPending, Staffed, TasksIn, Apply, Enabled, LateRequeue, HandedOver;
    StepCounts(s, a, 0);
    forall k | 0 <= k < STAGES
      ensures |Apply(s, a).streams[k].completed|
           == |s.streams[k].completed| + if k == StageOf(s, a) then (if a.Complete? then 1 else 0) else 0
    {
      StepCompleted(s, a, k);
    }
    HandedOverChange(s.streams, Apply(s, a).streams, StageOf(s, a), if a.Complete? then 1 else 0, STAGES);
  }

  /** Without faults, except that the requeue of a finished entry raises before it has written a copy. */
  predicate Careful(s: State, a: Action)
    requires Enabled(s, a)
  {
    || Faultless(s, a)
    || (a.RequeueRaises? && s.workers[a.w].stage < |s.streams| && s.workers[a.w].phase.Handling?
        && s.workers[a.w].entry in s.streams[s.workers[a.w].stage].completed)
  }

  /** A continuation of a clean run that is clean and careful. */
  ghost predicate EndsCleanly(s: State, actions: seq<Action>)
    decreases |actions|
  {
    actions != [] && Enabled(s, actions[0]) ==>
      && Careful(s, actions[0]) && ClaimGuarded(s, actions[0]) && !LateRequeue(s, actions[0])
      && EndsCleanly(Apply(s, actions[0]), actions[1..])
  }

  lemma AheadCleanly(s: State, a: Action, more: seq<Action>, s': State)
    requires Enabled(s, a) && Careful(s, a) && ClaimGuarded(s, a) && !LateRequeue(s, a)
    requires Run(Apply(s, a), more, s') && EndsCleanly(Apply(s, a), more)
    ensures Run(s, [a] + more, s') && EndsCleanly(s, [a] + more)
  {
    hide Apply, Enabled, Careful, ClaimGuarded, LateRequeue;
    assert ([a] + more)[0] == a && ([a] + more)[1..] == more;
  }

  lemma Drains(s: State, w: nat) returns (a: Action)
    requires Good(s) && w < |s.workers| && s.workers[w].phase != Idle
    ensures Enabled(s, a) && Careful(s, a) && ClaimGuarded(s, a) && !LateRequeue(s, a) && !a.Produce?
    ensures Ranks(Apply(s, a).workers) < Ranks(s.workers)
  {
    hide Once, OneEnd, Conserved, HeldPending, Staffed, StreamOk, WorkerOk;
    ShapedByInv(s);
    ReaderStage(s, Crash(w));
    NextEnabled(s, w);
    var worker := s.workers[w];
    a := if worker.phase.Handling? && worker.entry in s.streams[worker.stage].completed then RequeueRaises(w)
         else NextAction(w, worker.phase);
    StepRank(s, a);
  }

  /** Where all workers are idle and an entry is open, some worker can be given an open entry. */
  lemma CanTake(s: State, k: nat, i: nat) returns (a: Action)
    requires Good(s) && k < STAGES && |s.streams| == STAGES && i in Unended(s.streams[k]) && AllIdle(s)
    ensures (a.Read? || a.Claim?) && Enabled(s, a) && ClaimGuarded(s, a) && !LateRequeue(s, a)
    ensures Enabled(Apply(s, a), Complete(a.w))
  {
    var st := s.streams[k];
    assert StaffedAt(s, k);
    var w: nat :| WorksAt(s, w, k);
    OpenIsPending(s, k, i);
    ShapedByInv(s);
    DeliveredWithin(s);
    hide Inv, Once, OneEnd, Conserved, HeldPending, Staffed, Copied;
    a := if i >= st.delivered then Read(w) else Claim(w, i);
    assert !HeldBySome(s, k, i);
    CompleteNext(s, a);
  }

  lemma CompleteNext(s: State, a: Action)
    requires (a.Read? || a.Claim?) && Enabled(s, a)
    ensures Enabled(Apply(s, a), Complete(a.w))
  {
  }

  lemma OpenIsPending(s: State, k: nat, i: nat)
    requires Inv(s) && k < STAGES && i in Unended(s.streams[k])
    ensures i < s.streams[k].delivered ==> i in s.streams[k].pending
  {
    assert StreamOk(s.streams, k);
  }

  lemma TakingIsCareful(s: State, a: Action)
    requires Enabled(s, a) && (a.Read? || a.Claim? || a.Complete?)
    ensures Careful(s, a) && !LateRequeue(s, a) && (a.Complete? ==> ClaimGuarded(s, a))
  {
  }

  /** From every state of a clean run the work can be brought to its end. */
  lemma {:induction false} Finishes(s: State) returns (more: seq<Action>, s': State)
    requires Good(s) && |s.streams| == STAGES && HandOversLeft(s) >= 0
    ensures Run(s, more, s') && EndsCleanly(s, more)
    ensures Good(s') && AllIdle(s') && |s'.streams| == STAGES && forall k :: 0 <= k < STAGES ==> Unended(s'.streams[k]) == {}
    decreases HandOversLeft(s), Ranks(s.workers)
  {
    hide Good, Apply, Enabled, ClaimGuarded, LateRequeue, Careful, HandOversLeft, Ranks, Unended;
    if w :| 0 <= w < |s.workers| && s.workers[w].phase != Idle {
      var a := Drains(s, w);
      GoodStep(s, a);
      StepHandOvers(s, a);
      HandOversNotNegative(Apply(s, a));
      more, s' := Finishes(Apply(s, a));
      AheadCleanly(s, a, more, s');
      more := [a] + more;
    } else if k :| 0 <= k < STAGES && Unended(s.streams[k]) != {} {
      var i :| i in Unended(s.streams[k]);
      var a := CanTake(s, k, i);
      GoodStep(s, a);
      StepHandOvers(s, a);
      var s1 := Apply(s, a);
      var b := Complete(a.w);
      TakingIsCareful(s, a);
      TakingIsCareful(s1, b);
      GoodStep(s1, b);
      StepHandOvers(s1, b);
      HandOversNotNegative(Apply(s1, b));
      more, s' := Finishes(Apply(s1, b));
      AheadCleanly(s1, b, more, s');
      AheadCleanly(s, a, [b] + more, s');
      more := [a] + ([b] + more);
    } else {
      more, s' := [], s;
    }
  }

  lemma {:induction false} CleanAppend(s: State, first: seq<Action>, t: State, second: seq<Action>, u: State)
    requires Run(s, first, t) && Clean(s, first) && Run(t, second, u) && EndsCleanly(t, second)
    ensures Run(s, first + second, u) && Clean(s, first + second) && Produces(first + second) == Produces(first)
    decreases |first|
  {
    hide Apply, Enabled, ClaimGuarded, LateRequeue, Careful;
    if first == [] {
      assert first + second == second;
      CleanEnd(t, second, u);
    } else {
      CleanAppend(Apply(s, first[0]), first[1..], t, second, u);
      assert (first + second)[1..] == first[1..] + second;
    }
  }

  lemma {:induction false} CleanEnd(s: State, actions: seq<Action>, s': State)
    requires Run(s, actions, s') && EndsCleanly(s, actions)
    ensures Clean(s, actions) && Produces(actions) == 0
    decreases |actions|
  {
    hide Apply, Enabled, ClaimGuarded, LateRequeue;
    if actions != [] {
      CleanEnd(Apply(s, actions[0]), actions[1..], s');
    }
  }

  lemma CleanIsGood(start: State, actions: seq<Action>, s: State)
    requires Initial(start) && Staffed(start) && Run(start, actions, s) && Clean(start, actions)
    ensures Good(s) && |s.streams| == STAGES
  {
    InitialInv(start);
    InitialOnce(start);
    InitialOneEnd(start);
    InitialConserved(start);
    NonePendingAtStart(start);
    FiveStreams(start);
    hide Inv, Once, OneEnd, Conserved, HeldPending, Staffed, Initial, Clean, Guarded;
    RunOneEnd(start, actions, s);
    RunConserved(start, actions, s);
    RunStaffed(start, actions, s);
    CleanIsGuarded(start, actions, s);
    PendingBalance(start, actions, s);
  }

  /**
    Every clean run can be carried on cleanly, without new tasks and with no other fault than requeues of
    finished entries that raise, until each task produced has passed the last stage or is in a dead-letter
    stream, and none has gone on twice. Finished entries that a crash has left pending stay so.
   */
  lemma CleanRunCanEnd(start: State, actions: seq<Action>, s: State) returns (more: seq<Action>, s': State)
    requires Initial(start) && Staffed(start) && Run(start, actions, s) && Clean(start, actions)
    ensures Run(s, more, s') && EndsCleanly(s, more) && Run(start, actions + more, s') && Clean(start, actions + more)
    ensures AllIdle(s') && AllEnded(s', Produces(actions))
  {
    hide Good, Initial, Unended, AllIdle, HandOversLeft, EndsCleanly, Run, Clean, Staffed, Produces, AllEnded;
    CleanIsGood(start, actions, s);
    HandOversNotNegative(s);
    more, s' := Finishes(s);
    CleanAppend(start, actions, s, more, s');
    NothingOpen(start, actions + more, s');
  }
}
