/**
  The queue and the worker loop as the program has them: a broker object whose streams change in
  place, the requeue with its attempt count, and a loop body with a `should_ack` flag. Each turn of
  the loop, with any combination of faults and with other workers acting between any two of its
  statements, is proved to be a run of the queue machine in which this worker takes these actions.
 */
module TaskWorkers {
  import opened Options
  import opened TaskQueue

  // ----- the broker

  class Broker {
    var streams: seq<Stream>
    var nextEvent: nat

    ghost function Now(workers: seq<Worker>): State
      reads this
    {
      State(streams, workers, nextEvent)
    }

    constructor ()
      ensures streams == seq(STAGES, _ => EMPTY_STREAM) && nextEvent == 0
    {
      streams, nextEvent := seq(STAGES, _ => EMPTY_STREAM), 0;
    }

    /** `enqueue_stt`: a new task on the first stream. */
    method Enqueue(meeting: nat)
      requires |streams| == STAGES
      modifies this
      ensures |streams| == STAGES && |streams[0].log| == |old(streams)[0].log| + 1
      ensures var e := streams[0].log[|old(streams)[0].log|];
        && e.meeting == meeting && e.attempts == 0 && e.event == old(nextEvent) && nextEvent == old(nextEvent) + 1
        && streams[0] == old(streams)[0].(log := old(streams)[0].log + [e])
        && forall k :: 0 < k < STAGES ==> streams[k] == old(streams)[k]
      ensures forall workers :: Enabled(old(Now(workers)), Produce(meeting)) ==>
                Now(workers) == Apply(old(Now(workers)), Produce(meeting))
    {
      streams := streams[0 := Append(streams[0], Entry(meeting, nextEvent, 0, Produced))];
      nextEvent := nextEvent + 1;
    }

    /** `_claim_stale`: the oldest pending entry that has been idle for long enough. */
    method ClaimStale(k: nat, idle: set<nat>) returns (i: Option<nat>)
      requires k < |streams|
      ensures i.Some? ==> i.value in streams[k].pending && i.value in idle && i.value < streams[k].delivered
      ensures forall j: nat :: j < (if i.Some? then i.value else streams[k].delivered) ==>
                !(j in streams[k].pending && j in idle)
    {
      for j := 0 to streams[k].delivered
        invariant forall n: nat :: n < j ==> !(n in streams[k].pending && n in idle)
      {
        if j in streams[k].pending && j in idle {
          return Some(j);
        }
      }
      return None;
    }

    /** `_read_new`: the next entry that the group has not been given. */
    method ReadNew(k: nat) returns (i: Option<nat>)
      requires k < |streams|
      modifies this`streams
      ensures i == if old(streams)[k].delivered < |old(streams)[k].log| then Some(old(streams)[k].delivered) else None
      ensures streams == if i.Some? then old(streams)[k := Deliver(old(streams)[k])] else old(streams)
    {
      if streams[k].delivered >= |streams[k].log| {
        return None;
      }
      i := Some(streams[k].delivered);
      streams := streams[k := streams[k].(delivered := streams[k].delivered + 1,
                                          pending := streams[k].pending + {streams[k].delivered})];
    }

    method AckTask(k: nat, i: nat)
      requires k < |streams|
      modifies this`streams
      ensures streams == old(streams)[k := Acknowledge(old(streams)[k], i)]
    {
      streams := streams[k := streams[k].(pending := streams[k].pending - {i}, acked := streams[k].acked + {i})];
    }

    /** `requeue_with_backoff`: back on the stream, or to the dead-letter stream once the attempts are used up. */
    method RequeueWithBackoff(k: nat, i: nat) returns (requeued: bool)
      requires k < |streams| && i < |streams[k].log|
      modifies this`streams
      ensures streams == old(streams)[k := PutBack(old(streams)[k], i)]
      ensures requeued <==> old(streams)[k].log[i].attempts < MAX_ATTEMPTS
    {
      var task := streams[k].log[i];
      var attempts := task.attempts + 1;
      var copy := task.(attempts := attempts, origin := Retry(i));
      if attempts > MAX_ATTEMPTS {
        streams := streams[k := streams[k].(dlq := streams[k].dlq + [copy])];
        return false;
      }
      streams := streams[k := streams[k].(log := streams[k].log + [copy])];
      return true;
    }

    /** The end of a handler: its work is recorded, and the next stage gets its task. */
    method FinishHandler(k: nat, i: nat)
      requires k < |streams| && i < |streams[k].log|
      modifies this
      ensures streams == HandOn(old(streams), k, i, old(nextEvent)) && nextEvent == old(nextEvent) + 1
    {
      var meeting := streams[k].log[i].meeting;
      streams := streams[k := streams[k].(completed := streams[k].completed + {i})];
      if k + 1 < |streams| {
        streams := streams[k + 1 := Append(streams[k + 1], Entry(meeting, nextEvent, 0, HandOff(i)))];
      }
      nextEvent := nextEvent + 1;
    }
  }

  // ----- one turn of a worker loop

  /** Where the body of the `try` raises, if it does. */
  datatype Handler = Succeeds | FailsAtOnce | FailsHandedOff | FailsFlagged

  /** Where the requeue raises, if it does: before it has written the copy, or after. */
  datatype Retrying = Returns | RaisesBefore | RaisesAfter

  datatype Faults = Faults(handler: Handler, retrying: Retrying, ackWorks: bool)

  function HandlerActions(w: nat, h: Handler): seq<Action> {
    match h
    case Succeeds => [Complete(w), SetAck(w), Finish(w)]
    case FailsAtOnce => [Fail(w)]
    case FailsHandedOff => [Complete(w), Fail(w)]
    case FailsFlagged => [Complete(w), SetAck(w), Fail(w)]
  }

  function RetryActions(w: nat, r: Retrying): seq<Action> {
    match r
    case Returns => [Requeue(w), RequeueReturns(w)]
    case RaisesBefore => [RequeueRaises(w)]
    case RaisesAfter => [Requeue(w), RequeueRaises(w)]
  }

  /** What `should_ack` is when `finally` is reached. */
  predicate WantsAck(f: Faults) {
    f.handler.Succeeds? || f.handler.FailsFlagged? || f.retrying.Returns?
  }

  /** The actions of one turn, once it has its entry. */
  function TurnActions(w: nat, f: Faults): seq<Action> {
    HandlerActions(w, f.handler) + (if f.handler.Succeeds? then [] else RetryActions(w, f.retrying))
    + [if WantsAck(f) && f.ackWorks then Ack(w) else Skip(w)]
  }

  lemma RunNothing(s: State)
    ensures Run(s, [], s)
  {
  }

  lemma {:induction false} RunThen(s: State, actions: seq<Action>, t: State, a: Action)
    requires Run(s, actions, t) && Enabled(t, a)
    ensures Run(s, actions + [a], Apply(t, a))
    decreases |actions|
  {
    hide Apply, Enabled;
    if actions == [] {
      var next := Apply(t, a);
      RunNothing(next);
      assert [a][1..] == [] && [] + [a] == [a];
    } else {
      RunThen(Apply(s, actions[0]), actions[1..], t, a);
      assert (actions + [a])[1..] == actions[1..] + [a];
    }
  }

  /** The machine, the trace that led to it, and who is taking the turn. */
  datatype Trail = Trail(start: State, actions: seq<Action>, now: State)

  ghost predicate Follows(t: Trail) {
    Run(t.start, t.actions, t.now) && Shaped(t.now)
  }

  ghost function Step(t: Trail, a: Action): Trail
    requires Enabled(t.now, a)
  {
    Trail(t.start, t.actions + [a], Apply(t.now, a))
  }

  lemma StepShaped(s: State, a: Action)
    requires Enabled(s, a)
    ensures Shaped(Apply(s, a))
  {
  }

  lemma StepFollows(t: Trail, a: Action)
    requires Follows(t) && Enabled(t.now, a)
    ensures Follows(Step(t, a))
  {
    RunThen(t.start, t.actions, t.now, a);
    StepShaped(t.now, a);
  }

  /** The phase an action without an effect on the streams leads to. */
  function NextPhase(a: Action, phase: Phase): Phase
    requires PhaseAllows(phase, a)
  {
    match a
    case SetAck(_) => Done
    case Finish(_) => Finalizing(true)
    case Fail(_) => FailPhase(phase)
    case RequeueReturns(_) => Finalizing(true)
    case RequeueRaises(_) => Finalizing(phase.shouldAck)
    case _ => Idle
  }

  predicate Local(a: Action) {
    a.SetAck? || a.Finish? || a.Fail? || a.RequeueReturns? || a.RequeueRaises? || a.Skip?
  }

  lemma LocalStep(s: State, a: Action)
    requires Enabled(s, a) && Local(a)
    ensures Apply(s, a) == Move(s, a.w, NextPhase(a, s.workers[a.w].phase))
  {
  }

  lemma EffectStep(s: State, w: nat)
    requires Shaped(s) && w < |s.workers|
    ensures var worker := s.workers[w];
      var k, i := worker.stage, worker.entry;
      && (Enabled(s, Complete(w)) ==>
            Apply(s, Complete(w))
            == State(HandOn(s.streams, k, i, s.nextEvent), s.workers[w := Worker(k, HandedOff, i)], s.nextEvent + 1))
      && (Enabled(s, Requeue(w)) ==>
            Apply(s, Requeue(w))
            == State(s.streams[k := PutBack(s.streams[k], i)],
                     s.workers[w := Worker(k, Requeued(worker.phase.shouldAck), i)], s.nextEvent))
      && (Enabled(s, Ack(w)) ==>
            Apply(s, Ack(w))
            == State(s.streams[k := Acknowledge(s.streams[k], i)], s.workers[w := Worker(k, Idle, i)], s.nextEvent))
  {
    hide HandOn, PutBack, Acknowledge, Shaped;
  }

  // ----- other workers in between

  predicate Owned(a: Action, w: nat) {
    !a.Produce? && a.w == w
  }

  /** The actions of worker `w` among these. */
  function Own(actions: seq<Action>, w: nat): seq<Action> {
    if actions == [] then [] else (if Owned(actions[0], w) then [actions[0]] else []) + Own(actions[1..], w)
  }

  lemma {:induction false} OwnAppend(first: seq<Action>, second: seq<Action>, w: nat)
    ensures Own(first + second, w) == Own(first, w) + Own(second, w)
  {
    if first == [] {
      assert first + second == second;
    } else {
      assert (first + second)[1..] == first[1..] + second;
      OwnAppend(first[1..], second, w);
    }
  }

  lemma OwnOne(a: Action, w: nat)
    ensures Own([a], w) == if Owned(a, w) then [a] else []
  {
    assert [a][1..] == [];
  }

  /** What others do leaves a worker where it stands. */
  lemma OthersKeepWorker(s: State, a: Action, w: nat)
    requires Enabled(s, a) && !Owned(a, w) && w < |s.workers|
    ensures |Apply(s, a).workers| == |s.workers| && Apply(s, a).workers[w] == s.workers[w]
  {
    hide HandOn, PutBack;
  }

  /** The trail goes on by these actions, and of them exactly `own` are those of worker `w`. */
  ghost predicate Extends(t: Trail, t': Trail, more: seq<Action>, w: nat, own: seq<Action>) {
    t'.start == t.start && t'.actions == t.actions + more && Own(more, w) == own
  }

  lemma ExtendsOn(t: Trail, t1: Trail, t2: Trail, first: seq<Action>, second: seq<Action>, w: nat, own: seq<Action>,
                  next: seq<Action>)
    requires Extends(t, t1, first, w, own) && Extends(t1, t2, second, w, next)
    ensures Extends(t, t2, first + second, w, own + next)
  {
    OwnAppend(first, second, w);
  }

  /**
    What a turn of the loop meets: which pending entries have been idle for too long, what goes wrong, and what
    others try to do before each of its steps.
   */
  datatype Turn = Turn(idle: set<nat>, faults: Faults, others: nat -> seq<Action>)

  /** One turn of the loop: the entry it took, if any, and all it does after. */
  function TurnTaken(turn: Turn, take: Option<Action>, w: nat): seq<Action> {
    if take.None? then [] else [take.value] + TurnActions(w, turn.faults)
  }

  /** These turns, one after the other. */
  function TurnsTaken(turns: seq<Turn>, took: seq<Option<Action>>, w: nat): seq<Action>
    requires |turns| == |took|
  {
    if turns == [] then []
    else TurnsTaken(turns[..|turns| - 1], took[..|turns| - 1], w) + TurnTaken(turns[|turns| - 1], took[|turns| - 1], w)
  }

  predicate TakesEntry(take: Option<Action>, w: nat) {
    take.None? || ((take.value.Read? || take.value.Claim?) && take.value.w == w)
  }

  lemma OneMoreTurn(turns: seq<Turn>, took: seq<Option<Action>>, turn: Turn, take: Option<Action>, w: nat)
    requires |turns| == |took|
    ensures TurnsTaken(turns + [turn], took + [take], w) == TurnsTaken(turns, took, w) + TurnTaken(turn, take, w)
  {
    hide TurnTaken;
    assert (turns + [turn])[..|turns|] == turns && (took + [take])[..|took|] == took;
  }

  lemma NoTurns(t: Trail, w: nat)
    ensures Extends(t, t, [], w, TurnsTaken([], [], w))
  {
    assert t.actions + [] == t.actions;
  }

  predicate Stale(st: Stream, idle: set<nat>, j: nat) {
    j < st.delivered && j in st.pending && j in idle
  }

  /** Where every worker of the deployment stands in its loop. */
  class Fleet {
    var workers: seq<Worker>

    constructor (workers: seq<Worker>)
      ensures this.workers == workers
    {
      this.workers := workers;
    }
  }

  /** Worker `me` of the fleet. */
  class Consumer {
    const stage: nat
    const me: nat
    const broker: Broker
    const fleet: Fleet

    constructor (stage: nat, me: nat, broker: Broker, fleet: Fleet)
      ensures this.stage == stage && this.me == me && this.broker == broker && this.fleet == fleet
    {
      this.stage, this.me, this.broker, this.fleet := stage, me, broker, fleet;
    }

    function Now(): State
      reads this, broker, fleet
    {
      State(broker.streams, fleet.workers, broker.nextEvent)
    }

    /** Broker and fleet are in the state the trail has reached, and this worker is in this phase. */
    ghost predicate At(t: Trail, phase: Phase, i: nat)
      reads this, broker, fleet
    {
      && Follows(t) && t.now == Now()
      && me < |fleet.workers| && fleet.workers[me] == Worker(stage, phase, i)
    }

    /** Whatever others do here, of what they can do. */
    method LetOthers(acts: seq<Action>, ghost t: Trail, ghost phase: Phase, ghost i: nat)
      returns (ghost t': Trail, ghost done: seq<Action>)
      requires At(t, phase, i)
      modifies broker, fleet
      ensures At(t', phase, i) && Extends(t, t', done, me, [])
    {
      hide Follows;
      t', done := t, [];
      assert t.actions + [] == t.actions;
      for n := 0 to |acts|
        invariant At(t', phase, i) && Extends(t, t', done, me, [])
      {
        var a := acts[n];
        if Enabled(Now(), a) && !Owned(a, me) {
          StepFollows(t', a);
          OthersKeepWorker(Now(), a, me);
          OwnOne(a, me);
          var next := Apply(Now(), a);
          ghost var t1 := Step(t', a);
          ExtendsOn(t, t', t1, done, [a], me, [], []);
          t', done := t1, done + [a];
          broker.streams, broker.nextEvent, fleet.workers := next.streams, next.nextEvent, next.workers;
        }
      }
    }

    /** A statement of the loop that leaves the streams alone, after whatever others do before it. */
    method Moved(acts: seq<Action>, a: Action, phase: Phase, i: nat, ghost t: Trail)
      returns (ghost t': Trail, ghost more: seq<Action>)
      requires At(t, phase, i) && Local(a) && a.w == me && PhaseAllows(phase, a)
      modifies broker, fleet
      ensures At(t', NextPhase(a, phase), i) && Extends(t, t', more, me, [a])
    {
      hide Follows;
      t', more := LetOthers(acts, t, phase, i);
      CanAct(t', a);
      StepFollows(t', a);
      LocalStep(t'.now, a);
      OwnOne(a, me);
      ghost var t1 := Step(t', a);
      ExtendsOn(t, t', t1, more, [a], me, [], [a]);
      t', more := t1, more + [a];
      fleet.workers := fleet.workers[me := Worker(stage, NextPhase(a, phase), i)];
    }

    lemma CanAct(t: Trail, a: Action)
      requires Follows(t) && !a.Produce? && !a.Read? && !a.Claim?
      requires a.w < |t.now.workers| && PhaseAllows(t.now.workers[a.w].phase, a)
      ensures Enabled(t.now, a)
    {
    }

    /**
      `read_task`: the oldest stale entry, else a new one. Others may act before either call to Redis; `tried` is
      the state in which the claim was tried.
     */
    method ReadTask(turn: Turn, before: nat, ghost t: Trail)
      returns (i: Option<nat>, ghost t': Trail, ghost more: seq<Action>, ghost tried: State)
      requires At(t, Idle, before) && Inv(t.start)
      modifies broker, fleet
      ensures |tried.streams| == STAGES && stage < STAGES
      ensures i.None? ==> At(t', Idle, before) && Extends(t, t', more, me, [])
      ensures i.None? ==> broker.streams[stage].delivered == |broker.streams[stage].log|
                          && forall j: nat :: !Stale(tried.streams[stage], turn.idle, j)
      ensures i.Some? ==> At(t', Running, i.value)
      ensures i.Some? ==> if Stale(tried.streams[stage], turn.idle, i.value)
                          then Extends(t, t', more, me, [Claim(me, i.value)])
                          else Extends(t, t', more, me, [Read(me)])
      ensures i.Some? ==> forall j: nat :: j < i.value ==> !Stale(tried.streams[stage], turn.idle, j)
    {
      hide Follows, Shaped, Inv;
      t', more := LetOthers(turn.others(0), t, Idle, before);
      InOrder(t');
      tried := t'.now;
      i := broker.ClaimStale(stage, turn.idle);
      if i.Some? {
        t', more := Taken(t, t', more, Claim(me, i.value), before);
        fleet.workers := fleet.workers[me := Worker(stage, Running, i.value)];
        return;
      }
      ghost var first := t';
      ghost var done;
      t', done := LetOthers(turn.others(1), t', Idle, before);
      ExtendsOn(t, first, t', more, done, me, [], []);
      more := more + done;
      InOrder(t');
      i := broker.ReadNew(stage);
      if i.Some? {
        t', more := Taken(t, t', more, Read(me), before);
        fleet.workers := fleet.workers[me := Worker(stage, Running, i.value)];
      }
    }

    /** The trail with the action that gives this worker an entry. */
    lemma Taken(t: Trail, t1: Trail, more: seq<Action>, a: Action, before: nat) returns (t2: Trail, more': seq<Action>)
      requires Follows(t1) && Extends(t, t1, more, me, []) && Enabled(t1.now, a) && (a.Read? || a.Claim?) && a.w == me
      requires me < |t1.now.workers| && t1.now.workers[me] == Worker(stage, Idle, before)
      ensures Follows(t2) && Extends(t, t2, more', me, [a]) && t2.now == Apply(t1.now, a)
      ensures var i := if a.Read? then t1.now.streams[stage].delivered else a.i;
        t2.now == State(if a.Read? then t1.now.streams[stage := Deliver(t1.now.streams[stage])] else t1.now.streams,
                        t1.now.workers[me := Worker(stage, Running, i)], t1.now.nextEvent)
    {
      StepFollows(t1, a);
      OwnOne(a, me);
      t2, more' := Step(t1, a), more + [a];
      hide Follows;
      ExtendsOn(t, t1, t2, more, [a], me, [], [a]);
    }

    /** The hand-off at the end of the handler. */
    method HandOver(acts: seq<Action>, i: nat, ghost t: Trail) returns (ghost t': Trail, ghost more: seq<Action>)
      requires At(t, Running, i)
      modifies broker, fleet
      ensures At(t', HandedOff, i) && Extends(t, t', more, me, [Complete(me)])
    {
      hide Follows;
      t', more := LetOthers(acts, t, Running, i);
      CanAct(t', Complete(me));
      StepFollows(t', Complete(me));
      Within(t');
      EffectStep(t'.now, me);
      OwnOne(Complete(me), me);
      ghost var t1 := Step(t', Complete(me));
      ExtendsOn(t, t', t1, more, [Complete(me)], me, [], [Complete(me)]);
      t', more := t1, more + [Complete(me)];
      broker.FinishHandler(stage, i);
      fleet.workers := fleet.workers[me := Worker(stage, HandedOff, i)];
    }

    /** What a busy worker holds is on its stream. */
    lemma Within(t: Trail)
      requires Follows(t) && me < |t.now.workers| && t.now.workers[me].phase != Idle
      ensures Shaped(t.now) && t.now.workers[me].stage < |t.now.streams|
      ensures t.now.workers[me].entry < |t.now.streams[t.now.workers[me].stage].log|
    {
      assert WorkerShaped(t.now.streams, t.now.workers[me]);
    }

    /** The body of the `try`. */
    method Process(i: nat, turn: Turn, ghost t: Trail)
      returns (shouldAck: bool, failed: bool, ghost t': Trail, ghost more: seq<Action>)
      requires At(t, Running, i)
      modifies broker, fleet
      ensures failed <==> !turn.faults.handler.Succeeds?
      ensures shouldAck <==> turn.faults.handler.Succeeds? || turn.faults.handler.FailsFlagged?
      ensures At(t', if failed then Handling(shouldAck) else Finalizing(true), i)
      ensures Extends(t, t', more, me, HandlerActions(me, turn.faults.handler))
    {
      hide Follows, Shaped, Extends;
      var handler := turn.faults.handler;
      shouldAck, failed := false, true;
      if handler == FailsAtOnce {
        t', more := Moved(turn.others(2), Fail(me), Running, i, t);
        return;
      }
      t', more := HandOver(turn.others(2), i, t);
      ghost var own := [Complete(me)];
      if handler == FailsHandedOff {
        t', more, own := AndThen(turn.others(3), Fail(me), HandedOff, i, t, t', more, own);
        assert own == HandlerActions(me, handler);
        return;
      }
      shouldAck := true;
      t', more, own := AndThen(turn.others(3), SetAck(me), HandedOff, i, t, t', more, own);
      if handler == FailsFlagged {
        t', more, own := AndThen(turn.others(4), Fail(me), Done, i, t, t', more, own);
        assert own == HandlerActions(me, handler);
        return;
      }
      t', more, own := AndThen(turn.others(4), Finish(me), Done, i, t, t', more, own);
      assert own == HandlerActions(me, handler);
      failed := false;
    }

    /** One more statement of the turn. */
    method AndThen(acts: seq<Action>, a: Action, phase: Phase, i: nat, ghost t: Trail, ghost t1: Trail,
                   ghost first: seq<Action>, ghost own: seq<Action>)
      returns (ghost t2: Trail, ghost more: seq<Action>, ghost own': seq<Action>)
      requires At(t1, phase, i) && Extends(t, t1, first, me, own) && Local(a) && a.w == me && PhaseAllows(phase, a)
      modifies broker, fleet
      ensures At(t2, NextPhase(a, phase), i) && own' == own + [a] && Extends(t, t2, more, me, own')
    {
      hide Follows, Extends;
      t2, more := Moved(acts, a, phase, i, t1);
      ExtendsOn(t, t1, t2, first, more, me, own, [a]);
      more, own' := first + more, own + [a];
    }

    /** The `except` clause: requeue, and set the flag when that has worked. */
    method Recover(i: nat, flag: bool, turn: Turn, ghost t: Trail)
      returns (shouldAck: bool, ghost t': Trail, ghost more: seq<Action>)
      requires At(t, Handling(flag), i)
      modifies broker, fleet
      ensures shouldAck <==> flag || turn.faults.retrying.Returns?
      ensures At(t', Finalizing(shouldAck), i)
      ensures Extends(t, t', more, me, RetryActions(me, turn.faults.retrying))
    {
      hide Follows, Shaped, Extends;
      var retrying := turn.faults.retrying;
      shouldAck := flag;
      if retrying == RaisesBefore {
        t', more := Moved(turn.others(5), RequeueRaises(me), Handling(flag), i, t);
        return;
      }
      t', more := PutAgain(turn.others(5), i, flag, t);
      ghost var own := [Requeue(me)];
      if retrying == RaisesAfter {
        t', more, own := AndThen(turn.others(6), RequeueRaises(me), Requeued(flag), i, t, t', more, own);
        assert own == RetryActions(me, retrying);
        return;
      }
      shouldAck := true;
      t', more, own := AndThen(turn.others(6), RequeueReturns(me), Requeued(flag), i, t, t', more, own);
      assert own == RetryActions(me, retrying);
    }

    method PutAgain(acts: seq<Action>, i: nat, flag: bool, ghost t: Trail) returns (ghost t': Trail, ghost more: seq<Action>)
      requires At(t, Handling(flag), i)
      modifies broker, fleet
      ensures At(t', Requeued(flag), i) && Extends(t, t', more, me, [Requeue(me)])
    {
      hide Follows;
      t', more := LetOthers(acts, t, Handling(flag), i);
      CanAct(t', Requeue(me));
      StepFollows(t', Requeue(me));
      Within(t');
      EffectStep(t'.now, me);
      OwnOne(Requeue(me), me);
      ghost var t1 := Step(t', Requeue(me));
      ExtendsOn(t, t', t1, more, [Requeue(me)], me, [], [Requeue(me)]);
      t', more := t1, more + [Requeue(me)];
      var requeued := broker.RequeueWithBackoff(stage, i);
      fleet.workers := fleet.workers[me := Worker(stage, Requeued(flag), i)];
    }

    /** The `finally` clause: the acknowledgement comes last, and its failure is swallowed. */
    method Finalize(i: nat, shouldAck: bool, turn: Turn, ghost t: Trail) returns (ghost t': Trail, ghost more: seq<Action>)
      requires At(t, Finalizing(shouldAck), i)
      modifies broker, fleet
      ensures At(t', Idle, i)
      ensures Extends(t, t', more, me, [if shouldAck && turn.faults.ackWorks then Ack(me) else Skip(me)])
    {
      hide Follows;
      if shouldAck && turn.faults.ackWorks {
        t', more := LetOthers(turn.others(7), t, Finalizing(true), i);
        CanAct(t', Ack(me));
        StepFollows(t', Ack(me));
        Within(t');
        EffectStep(t'.now, me);
        OwnOne(Ack(me), me);
        ghost var t1 := Step(t', Ack(me));
        ExtendsOn(t, t', t1, more, [Ack(me)], me, [], [Ack(me)]);
        t', more := t1, more + [Ack(me)];
        broker.AckTask(stage, i);
        fleet.workers := fleet.workers[me := Worker(stage, Idle, i)];
      } else {
        t', more := Moved(turn.others(7), Skip(me), Finalizing(shouldAck), i, t);
      }
    }

    /** One turn of `run_loop`, with others acting between any two of its steps. */
    method RunOnce(turn: Turn, before: nat, ghost t: Trail)
      returns (i: Option<nat>, ghost t': Trail, ghost more: seq<Action>, ghost tried: State)
      requires At(t, Idle, before) && Inv(t.start)
      modifies broker, fleet
      ensures |tried.streams| == STAGES && stage < STAGES
      ensures At(t', Idle, if i.Some? then i.value else before)
      ensures i.None? ==> Extends(t, t', more, me, []) && broker.streams[stage].delivered == |broker.streams[stage].log|
                          && forall j: nat :: !Stale(tried.streams[stage], turn.idle, j)
      ensures i.Some? ==> var stale := Stale(tried.streams[stage], turn.idle, i.value);
        Extends(t, t', more, me, [if stale then Claim(me, i.value) else Read(me)] + TurnActions(me, turn.faults))
    {
      hide Follows, Shaped, HandlerActions, RetryActions, Extends, Inv;
      i, t', more, tried := ReadTask(turn, before, t);
      if i.Some? {
        ghost var own := [if Stale(tried.streams[stage], turn.idle, i.value) then Claim(me, i.value) else Read(me)];
        ghost var t1, first := t', more;
        var shouldAck, failed;
        shouldAck, failed, t', more := Process(i.value, turn, t1);
        ExtendsOn(t, t1, t', first, more, me, own, HandlerActions(me, turn.faults.handler));
        own, t1, first := own + HandlerActions(me, turn.faults.handler), t', first + more;
        if failed {
          shouldAck, t', more := Recover(i.value, shouldAck, turn, t1);
          ExtendsOn(t, t1, t', first, more, me, own, RetryActions(me, turn.faults.retrying));
          own, t1, first := own + RetryActions(me, turn.faults.retrying), t', first + more;
        }
        ghost var last := if shouldAck && turn.faults.ackWorks then Ack(me) else Skip(me);
        t', more := Finalize(i.value, shouldAck, turn, t1);
        ExtendsOn(t, t1, t', first, more, me, own, [last]);
        more := first + more;
        TurnSplits(me, turn.faults, own[0]);
        assert own + [last] == [own[0]] + TurnActions(me, turn.faults);
      }
    }

    lemma TurnSplits(w: nat, f: Faults, take: Action)
      ensures [take] + TurnActions(w, f) ==
        [take] + HandlerActions(w, f.handler) + (if f.handler.Succeeds? then [] else RetryActions(w, f.retrying))
        + [if WantsAck(f) && f.ackWorks then Ack(w) else Skip(w)]
    {
      hide HandlerActions, RetryActions;
    }

    /**
      `run_loop`: any number of turns, whatever goes wrong in them and whatever others do. What this worker has done
      is, turn after turn and nothing else: the entry taken, then what the turn does with it; a turn that found no
      entry has done nothing. The queue is left in order.
     */
    method RunLoop(turns: seq<Turn>, before: nat, ghost t: Trail)
      returns (ghost t': Trail, ghost last: nat, ghost more: seq<Action>, ghost took: seq<Option<Action>>)
      requires At(t, Idle, before) && Inv(t.start)
      modifies broker, fleet
      ensures At(t', Idle, last) && Inv(t'.now)
      ensures |took| == |turns| && forall n :: 0 <= n < |took| ==> TakesEntry(took[n], me)
      ensures Extends(t, t', more, me, TurnsTaken(turns, took, me))
    {
      hide Inv, Extends, TurnActions, TurnsTaken;
      var held: nat := before;
      t', more, took := t, [], [];
      NoTurns(t, me);
      for n := 0 to |turns|
        invariant t'.start == t.start && At(t', Idle, held)
        invariant |took| == n && forall k :: 0 <= k < n ==> TakesEntry(took[k], me)
        invariant Extends(t, t', more, me, TurnsTaken(turns[..n], took, me))
      {
        var i;
        ghost var t1, done, tried := t', [], t.now;
        i, t', done, tried := RunOnce(turns[n], held, t1);
        ghost var take := if i.None? then None
                          else Some(if Stale(tried.streams[stage], turns[n].idle, i.value) then Claim(me, i.value) else Read(me));
        OneMoreTurn(turns[..n], took, turns[n], take, me);
        ExtendsOn(t, t1, t', more, done, me, TurnsTaken(turns[..n], took, me), TurnTaken(turns[n], take, me));
        assert turns[..n] + [turns[n]] == turns[..n + 1];
        more, took := more + done, took + [take];
        held := if i.Some? then i.value else held;
      }
      assert turns[..|turns|] == turns;
      last := held;
      InOrder(t');
    }

    lemma InOrder(t: Trail)
      requires Follows(t) && Inv(t.start) && me < |t.now.workers| && t.now.workers[me].stage == stage
      ensures Inv(t.now) && |t.now.streams| == STAGES && stage < STAGES
      ensures t.now.streams[stage].delivered <= |t.now.streams[stage].log|
      ensures forall i :: i in t.now.streams[stage].pending ==> i < |t.now.streams[stage].log|
      ensures Shaped(t.now)
    {
      RunKeepsInv(t.start, t.actions, t.now);
      DeliveredWithin(t.now);
      assert WorkerOk(t.now.streams, t.now.workers[me]);
      assert StreamOk(t.now.streams, stage);
    }
  }
}
