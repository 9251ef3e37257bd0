/**
  Where the guarantees of the task queue end: what a failure after the hand-off, a stale claim and
  a task that kills its worker do.
 */
module TaskFailures {
  import opened TaskQueue
  import opened TaskOutcomes
  import opened TaskWorkers

  /**
    A failure after the hand-off, in any state: requeued, the entry ends up acknowledged as finished and as
    copied, so its task goes on twice.
   */
  lemma LateFailureGoesOnTwice(s: State, w: nat) returns (s': State)
    requires Inv(s) && w < |s.workers| && s.workers[w].phase == HandedOff
    ensures Run(s, [Fail(w), Requeue(w), RequeueReturns(w), Ack(w)], s')
    ensures var k, i := s.workers[w].stage, s.workers[w].entry;
      k < |s'.streams| && i in s'.streams[k].acked && i in s'.streams[k].completed && Copied(s'.streams[k], i)
  {
    assert WorkerOk(s.streams, s.workers[w]);
    DeliveredWithin(s);
    ShapedByInv(s);
    hide Inv, Shaped, PutBack, Acknowledge, Copied, Apply, Enabled;
    var k, i := s.workers[w].stage, s.workers[w].entry;
    var s2 := FailsAndRequeues(s, w);
    s' := ReturnsAndAcks(s2, w);
    Joined(s, [Fail(w), Requeue(w)], s2, [RequeueReturns(w), Ack(w)], s');
    PutBackLeaves(s.streams[k], i);
    AcknowledgeLeaves(PutBack(s.streams[k], i), i);
  }

  lemma FailsAndRequeues(s: State, w: nat) returns (s': State)
    requires Shaped(s) && w < |s.workers| && s.workers[w].phase == HandedOff
    ensures var k, i := s.workers[w].stage, s.workers[w].entry;
      s' == State(s.streams[k := PutBack(s.streams[k], i)], s.workers[w := Worker(k, Requeued(false), i)], s.nextEvent)
    ensures Run(s, [Fail(w), Requeue(w)], s') && Shaped(s')
  {
    LocalStep(s, Fail(w));
    StepShaped(s, Fail(w));
    var s1 := Apply(s, Fail(w));
    EffectStep(s1, w);
    StepShaped(s1, Requeue(w));
    s' := Apply(s1, Requeue(w));
    hide Apply, Shaped, PutBack;
    TwoSteps(s, Fail(w), Requeue(w));
  }

  lemma ReturnsAndAcks(s: State, w: nat) returns (s': State)
    requires Shaped(s) && w < |s.workers| && s.workers[w].phase.Requeued?
    ensures var k, i := s.workers[w].stage, s.workers[w].entry;
      s' == State(s.streams[k := Acknowledge(s.streams[k], i)], s.workers[w := Worker(k, Idle, i)], s.nextEvent)
    ensures Run(s, [RequeueReturns(w), Ack(w)], s')
  {
    LocalStep(s, RequeueReturns(w));
    StepShaped(s, RequeueReturns(w));
    var s1 := Apply(s, RequeueReturns(w));
    EffectStep(s1, w);
    s' := Apply(s1, Ack(w));
    hide Apply, Shaped, Acknowledge;
    TwoSteps(s, RequeueReturns(w), Ack(w));
  }

  lemma TwoSteps(s: State, a: Action, b: Action)
    requires Enabled(s, a) && Enabled(Apply(s, a), b)
    ensures Run(s, [a, b], Apply(Apply(s, a), b))
  {
    hide Apply, Enabled;
    RunNothing(s);
    RunThen(s, [], s, a);
    assert [] + [a] == [a];
    RunThen(s, [a], Apply(s, a), b);
    assert [a] + [b] == [a, b];
  }

  lemma {:induction false} Joined(s: State, first: seq<Action>, t: State, second: seq<Action>, u: State)
    requires Run(s, first, t) && Run(t, second, u)
    ensures Run(s, first + second, u)
    decreases |first|
  {
    hide Apply, Enabled;
    if first == [] {
      assert first + second == second;
    } else {
      Joined(Apply(s, first[0]), first[1..], t, second, u);
      assert (first + second)[1..] == first[1..] + second;
    }
  }

  lemma PutBackLeaves(st: Stream, i: nat)
    requires i < |st.log|
    ensures PutBack(st, i).completed == st.completed && Copied(PutBack(st, i), i)
  {
    PutBackCopied(st, i);
  }

  lemma AcknowledgeLeaves(st: Stream, i: nat)
    ensures var st' := Acknowledge(st, i);
      i in st'.acked && st'.completed == st.completed && (Copied(st, i) ==> Copied(st', i))
  {
  }

  /**
    A stale claim of an entry that its first worker is still at, in any state before the last stage: both
    workers finish the handler and the next stage gets the task twice.
   */
  lemma StaleClaimHandsOnTwice(s: State, w: nat, v: nat) returns (s': State)
    requires Inv(s) && w < |s.workers| && v < |s.workers| && s.workers[w].stage == s.workers[v].stage < STAGES - 1
    requires s.workers[w].phase == Running && s.workers[v].phase == Idle
    requires s.workers[w].entry in s.streams[s.workers[w].stage].pending
    ensures var k, i := s.workers[w].stage, s.workers[w].entry;
      && Run(s, [Claim(v, i), Complete(w), Complete(v)], s') && |s'.streams| == STAGES
      && |s'.streams[k + 1].log| == |s.streams[k + 1].log| + 2
      && s'.streams[k + 1].log[|s.streams[k + 1].log|].origin == HandOff(i)
      && s'.streams[k + 1].log[|s.streams[k + 1].log| + 1].origin == HandOff(i)
  {
    assert WorkerOk(s.streams, s.workers[w]);
    DeliveredWithin(s);
    ShapedByInv(s);
    hide Inv;
    var k, i := s.workers[w].stage, s.workers[w].entry;
    StepShaped(s, Claim(v, i));
    var s1 := Apply(s, Claim(v, i));
    EffectStep(s1, w);
    StepShaped(s1, Complete(w));
    var s2 := Apply(s1, Complete(w));
    EffectStep(s2, v);
    s' := Apply(s2, Complete(v));
    hide Apply, Shaped;
    TwoSteps(s, Claim(v, i), Complete(w));
    RunThen(s, [Claim(v, i), Complete(w)], s2, Complete(v));
    assert [Claim(v, i), Complete(w)] + [Complete(v)] == [Claim(v, i), Complete(w), Complete(v)];
  }

  /**
    A stale claim of an entry whose worker is gone after it had handed on, in any state before the last stage:
    the next stage gets the task once more.
   */
  lemma ClaimOfFinishedHandsOnTwice(s: State, v: nat, i: nat) returns (s': State)
    requires Inv(s) && v < |s.workers| && s.workers[v].stage < STAGES - 1 && s.workers[v].phase == Idle
    requires i in s.streams[s.workers[v].stage].pending && i in s.streams[s.workers[v].stage].completed
    ensures var k := s.workers[v].stage;
      && Run(s, [Claim(v, i), Complete(v)], s') && |s'.streams| == STAGES
      && HasOrigin(s.streams[k + 1].log, HandOff(i))
      && |s'.streams[k + 1].log| == |s.streams[k + 1].log| + 1
      && s'.streams[k + 1].log[|s.streams[k + 1].log|].origin == HandOff(i)
  {
    var k := s.workers[v].stage;
    assert StreamOk(s.streams, k);
    DeliveredWithin(s);
    ShapedByInv(s);
    hide Inv, HasOrigin;
    StepShaped(s, Claim(v, i));
    var s1 := Apply(s, Claim(v, i));
    EffectStep(s1, v);
    s' := Apply(s1, Complete(v));
    hide Apply, Shaped;
    TwoSteps(s, Claim(v, i), Complete(v));
  }

  /** A stale claim of an entry whose worker is gone after it had copied it: the entry can be finished as well. */
  lemma ClaimOfCopiedFinishesToo(s: State, v: nat, i: nat) returns (s': State)
    requires Inv(s) && v < |s.workers| && s.workers[v].stage < STAGES && s.workers[v].phase == Idle
    requires i in s.streams[s.workers[v].stage].pending && Copied(s.streams[s.workers[v].stage], i)
    ensures var k := s.workers[v].stage;
      && Run(s, [Claim(v, i), Complete(v)], s') && |s'.streams| == STAGES
      && i in s'.streams[k].completed && Copied(s'.streams[k], i)
  {
    var k := s.workers[v].stage;
    assert StreamOk(s.streams, k);
    DeliveredWithin(s);
    ShapedByInv(s);
    hide Inv, Copied;
    StepShaped(s, Claim(v, i));
    var s1 := Apply(s, Claim(v, i));
    EffectStep(s1, v);
    s' := Apply(s1, Complete(v));
    hide Apply, Shaped;
    TwoSteps(s, Claim(v, i), Complete(v));
    SameCopies(s.streams[k], s'.streams[k], i);
  }

  /**
    A stale claim of an entry that its first worker is about to requeue, in any state: the one copies it and the
    other finishes it.
   */
  lemma ClaimOfFailedFinishesToo(s: State, w: nat, v: nat) returns (s': State)
    requires Inv(s) && w < |s.workers| && v < |s.workers| && s.workers[w].stage == s.workers[v].stage
    requires s.workers[w].phase.Handling? && s.workers[v].phase == Idle
    requires s.workers[w].stage < |s.streams| && s.workers[w].entry in s.streams[s.workers[w].stage].pending
    ensures var k, i := s.workers[w].stage, s.workers[w].entry;
      && Run(s, [Claim(v, i), Requeue(w), Complete(v)], s') && |s'.streams| == STAGES
      && i in s'.streams[k].completed && Copied(s'.streams[k], i)
  {
    assert WorkerOk(s.streams, s.workers[w]);
    DeliveredWithin(s);
    ShapedByInv(s);
    hide Inv, Copied, PutBack;
    var k, i := s.workers[w].stage, s.workers[w].entry;
    StepShaped(s, Claim(v, i));
    var s1 := Apply(s, Claim(v, i));
    EffectStep(s1, w);
    StepShaped(s1, Requeue(w));
    var s2 := Apply(s1, Requeue(w));
    EffectStep(s2, v);
    s' := Apply(s2, Complete(v));
    PutBackLeaves(s.streams[k], i);
    SameCopies(s2.streams[k], s'.streams[k], i);
    hide Apply, Shaped;
    TwoSteps(s, Claim(v, i), Requeue(w));
    RunThen(s, [Claim(v, i), Requeue(w)], s2, Complete(v));
    assert [Claim(v, i), Requeue(w)] + [Complete(v)] == [Claim(v, i), Requeue(w), Complete(v)];
  }

  lemma SameCopies(st: Stream, st': Stream, i: nat)
    requires st.log == st'.log && st.dlq == st'.dlq
    ensures Copied(st, i) == Copied(st', i)
  {
  }

  // ----- a task that kills its worker

  function CrashLoop(n: nat): seq<Action> {
    if n == 0 then [] else [Crash(0), Claim(0, 0)] + CrashLoop(n - 1)
  }

  /** One worker, one task, and the worker at it. */
  function AtPoison(): State {
    State(seq(STAGES, _ => EMPTY_STREAM)[0 := Stream([Entry(0, 0, 0, Produced)], 1, {0}, {}, [], {})],
          [Worker(0, Running, 0)], 1)
  }

  lemma CrashAndClaim()
    ensures var down := Move(AtPoison(), 0, Idle);
      && Enabled(AtPoison(), Crash(0)) && Apply(AtPoison(), Crash(0)) == down && !Executes(AtPoison(), Crash(0), 0, 0)
      && Enabled(down, Claim(0, 0)) && Apply(down, Claim(0, 0)) == AtPoison() && Executes(down, Claim(0, 0), 0, 0)
      && ClaimGuarded(AtPoison(), Crash(0)) && !LateRequeue(AtPoison(), Crash(0))
      && ClaimGuarded(down, Claim(0, 0)) && !LateRequeue(down, Claim(0, 0))
  {
    var down := Move(AtPoison(), 0, Idle);
    assert down.workers == [Worker(0, Idle, 0)];
    assert Apply(down, Claim(0, 0)).workers == [Worker(0, Running, 0)];
  }

  /** One action in front of a clean run. */
  lemma RunCons(s: State, a: Action, more: seq<Action>, s': State, k: nat, event: nat)
    requires Enabled(s, a) && ClaimGuarded(s, a) && !LateRequeue(s, a)
    requires Run(Apply(s, a), more, s') && Clean(Apply(s, a), more)
    ensures Run(s, [a] + more, s') && Clean(s, [a] + more)
    ensures Executions(s, [a] + more, k, event) ==
      (if Executes(s, a, k, event) then 1 else 0) + Executions(Apply(s, a), more, k, event)
    ensures ClaimsOf(s, [a] + more, k, event) ==
      (if a.Claim? && Executes(s, a, k, event) then 1 else 0) + ClaimsOf(Apply(s, a), more, k, event)
  {
    hide Apply, Enabled, ClaimGuarded, LateRequeue, Executes;
    assert ([a] + more)[0] == a && ([a] + more)[1..] == more;
  }

  lemma {:induction false} LoopRuns(n: nat)
    ensures Run(AtPoison(), CrashLoop(n), AtPoison()) && Clean(AtPoison(), CrashLoop(n))
    ensures Executions(AtPoison(), CrashLoop(n), 0, 0) == n && ClaimsOf(AtPoison(), CrashLoop(n), 0, 0) == n
  {
    CrashAndClaim();
    hide Apply, Enabled, AtPoison, Executes, ClaimGuarded, LateRequeue;
    if n > 0 {
      LoopRuns(n - 1);
      var down := Move(AtPoison(), 0, Idle);
      RunCons(down, Claim(0, 0), CrashLoop(n - 1), AtPoison(), 0, 0);
      RunCons(AtPoison(), Crash(0), [Claim(0, 0)] + CrashLoop(n - 1), AtPoison(), 0, 0);
      assert CrashLoop(n) == [Crash(0)] + ([Claim(0, 0)] + CrashLoop(n - 1));
    }
  }

  function OneWorker(): State {
    State(seq(STAGES, _ => EMPTY_STREAM), [Worker(0, Idle, 0)], 0)
  }

  lemma PoisonArrives() returns (s: State)
    ensures Enabled(OneWorker(), Produce(0)) && s == Apply(OneWorker(), Produce(0)) && !Executes(OneWorker(), Produce(0), 0, 0)
    ensures Enabled(s, Read(0)) && Apply(s, Read(0)) == AtPoison() && Executes(s, Read(0), 0, 0)
    ensures !LateRequeue(OneWorker(), Produce(0)) && !LateRequeue(s, Read(0))
  {
    var start := OneWorker();
    s := Apply(start, Produce(0));
    assert s.streams[0].log == [Entry(0, 0, 0, Produced)];
    var s' := Apply(s, Read(0));
    assert s'.workers == AtPoison().workers;
    assert s'.streams[0].pending == {0};
    assert s'.streams[0] == AtPoison().streams[0];
    assert forall k :: 0 < k < STAGES ==> s'.streams[k] == EMPTY_STREAM == AtPoison().streams[k];
    assert s'.streams == AtPoison().streams;
  }

  /**
    A task that kills its worker is executed any number of times without an attempt being counted, since a
    claim leaves the entry as it is. The run is clean: the bound on executions needs the claims in it.
   */
  lemma PoisonTaskLoops(n: nat)
    ensures exists start, actions, s :: Initial(start) && Run(start, actions, s) && Clean(start, actions)
              && Executions(start, actions, 0, 0) == n + 1 && ClaimsOf(start, actions, 0, 0) == n
              && |s.streams| == STAGES && s.streams[0].dlq == [] && s.streams[0].log == [Entry(0, 0, 0, Produced)]
  {
    assert Initial(OneWorker()) && |AtPoison().streams| == STAGES && AtPoison().streams[0].dlq == []
           && AtPoison().streams[0].log == [Entry(0, 0, 0, Produced)];
    var s := PoisonArrives();
    LoopRuns(n);
    hide Apply, Enabled, AtPoison, OneWorker, Executes, Initial, LateRequeue;
    var start, rest := OneWorker(), CrashLoop(n);
    RunCons(s, Read(0), rest, AtPoison(), 0, 0);
    RunCons(start, Produce(0), [Read(0)] + rest, AtPoison(), 0, 0);
    var actions := [Produce(0)] + ([Read(0)] + rest);
    assert Run(start, actions, AtPoison());
  }
}
