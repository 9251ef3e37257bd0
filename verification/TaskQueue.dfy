/**
  The task queue: five Redis streams read by consumer groups, and the worker loops that hand a task
  to the next stage, put a failed one back with a higher attempt count or into the dead-letter
  stream, and acknowledge last. Every effect on a stream is one action; producers, workers, stale
  claims and crashes interleave at will. No task is lost in any run.
 */
module TaskQueue {

  /** Speech-to-text, enhancer, analytics, delivery and retention. */
  const STAGES := 5
  const MAX_ATTEMPTS := 3

  /** Where an entry comes from: a producer, a worker of the stage before, or a retry of an entry of its own stream. */
  datatype Origin = Produced | HandOff(from: nat) | Retry(of: nat)

  /** `event` identifies the task; the copies that a retry makes keep it. */
  datatype Entry = Entry(meeting: nat, event: nat, attempts: nat, origin: Origin)

  /**
    A stream with its one group: entries below `delivered` have been given to a worker and are
    pending until they are acknowledged. `completed` records the entries whose handler has done its work.
   */
  datatype Stream = Stream(log: seq<Entry>, delivered: nat, pending: set<nat>, acked: set<nat>, dlq: seq<Entry>,
                           completed: set<nat>)

  const EMPTY_STREAM := Stream([], 0, {}, {}, [], {})

  /** Where a worker stands in its loop; `shouldAck` is its local flag. */
  datatype Phase =
    | Idle
    | Running
    | HandedOff
    | Done
    | Handling(shouldAck: bool)
    | Requeued(shouldAck: bool)
    | Finalizing(shouldAck: bool)

  datatype Worker = Worker(stage: nat, phase: Phase, entry: nat)

  datatype State = State(streams: seq<Stream>, workers: seq<Worker>, nextEvent: nat)

  datatype Action =
    | Produce(meeting: nat)
    | Read(w: nat)
    | Claim(w: nat, i: nat)
    | Complete(w: nat)
    | SetAck(w: nat)
    | Finish(w: nat)
    | Fail(w: nat)
    | Requeue(w: nat)
    | RequeueReturns(w: nat)
    | RequeueRaises(w: nat)
    | Ack(w: nat)
    | Skip(w: nat)
    | Crash(w: nat)

  /** The empty streams, with idle workers in any number at every stage. */
  ghost predicate Initial(s: State) {
    && s.streams == seq(STAGES, _ => EMPTY_STREAM)
    && forall w :: 0 <= w < |s.workers| ==> s.workers[w].stage < STAGES && s.workers[w].phase == Idle
  }

  predicate Shaped(s: State) {
    && |s.streams| == STAGES
    && forall w :: 0 <= w < |s.workers| ==> WorkerShaped(s.streams, s.workers[w])
  }

  predicate WorkerShaped(streams: seq<Stream>, worker: Worker)
    requires |streams| == STAGES
  {
    worker.stage < STAGES && (worker.phase != Idle ==> worker.entry < |streams[worker.stage].log|)
  }

  predicate At(s: State, w: nat, phase: Phase) {
    w < |s.workers| && s.workers[w].phase == phase
  }

  predicate PhaseAllows(phase: Phase, a: Action) {
    match a
    case Produce(_) => true
    case Read(_) => phase == Idle
    case Claim(_, _) => phase == Idle
    case Complete(_) => phase == Running
    case SetAck(_) => phase == HandedOff
    case Finish(_) => phase == Done
    case Fail(_) => phase == Running || phase == HandedOff || phase == Done
    case Requeue(_) => phase.Handling?
    case RequeueReturns(_) => phase.Requeued?
    case RequeueRaises(_) => phase.Handling? || phase.Requeued?
    case Ack(_) => phase == Finalizing(true)
    case Skip(_) => phase.Finalizing?
    case Crash(_) => true
  }

  predicate Enabled(s: State, a: Action) {
    && Shaped(s)
    && (a.Produce? || (a.w < |s.workers| && PhaseAllows(s.workers[a.w].phase, a)))
    && (a.Read? ==> s.streams[s.workers[a.w].stage].delivered < |s.streams[s.workers[a.w].stage].log|)
    && (a.Claim? ==> a.i in s.streams[s.workers[a.w].stage].pending && a.i < |s.streams[s.workers[a.w].stage].log|)
  }

  // ----- the effects on one stream

  function Append(st: Stream, e: Entry): Stream {
    st.(log := st.log + [e])
  }

  function Deliver(st: Stream): Stream {
    st.(delivered := st.delivered + 1, pending := st.pending + {st.delivered})
  }

  function Acknowledge(st: Stream, i: nat): Stream {
    st.(pending := st.pending - {i}, acked := st.acked + {i})
  }

  /** The copy that `requeue_with_backoff` writes. */
  function CopyOf(st: Stream, i: nat): Entry
    requires i < |st.log|
  {
    st.log[i].(attempts := st.log[i].attempts + 1, origin := Retry(i))
  }

  function PutBack(st: Stream, i: nat): Stream
    requires i < |st.log|
  {
    if CopyOf(st, i).attempts > MAX_ATTEMPTS then st.(dlq := st.dlq + [CopyOf(st, i)]) else Append(st, CopyOf(st, i))
  }

  /** The handler is done, and the task of the next stage is on its stream; retention has no next stage. */
  function HandOn(streams: seq<Stream>, k: nat, i: nat, event: nat): seq<Stream>
    requires k < |streams| && i < |streams[k].log|
  {
    var done := streams[k := streams[k].(completed := streams[k].completed + {i})];
    if k + 1 < |streams|
    then done[k + 1 := Append(streams[k + 1], Entry(streams[k].log[i].meeting, event, 0, HandOff(i)))]
    else done
  }

  function FailPhase(phase: Phase): Phase {
    Handling(phase == Done)
  }

  function Apply(s: State, a: Action): State
    requires Enabled(s, a)
  {
    if a.Produce? then
      s.(streams := s.streams[0 := Append(s.streams[0], Entry(a.meeting, s.nextEvent, 0, Produced))],
         nextEvent := s.nextEvent + 1)
    else
      var worker := s.workers[a.w];
      var k, i, phase := worker.stage, worker.entry, worker.phase;
      match a
      case Read(w) => Move(s, w, Running).(streams := s.streams[k := Deliver(s.streams[k])],
                                           workers := s.workers[w := Worker(k, Running, s.streams[k].delivered)])
      case Claim(w, j) => s.(workers := s.workers[w := Worker(k, Running, j)])
      case Complete(w) => Move(s, w, HandedOff).(streams := HandOn(s.streams, k, i, s.nextEvent),
                                                 nextEvent := s.nextEvent + 1)
      case SetAck(w) => Move(s, w, Done)
      case Finish(w) => Move(s, w, Finalizing(true))
      case Fail(w) => Move(s, w, FailPhase(phase))
      case Requeue(w) => Move(s, w, Requeued(phase.shouldAck)).(streams := s.streams[k := PutBack(s.streams[k], i)])
      case RequeueReturns(w) => Move(s, w, Finalizing(true))
      case RequeueRaises(w) => Move(s, w, Finalizing(phase.shouldAck))
      case Ack(w) => Move(s, w, Idle).(streams := s.streams[k := Acknowledge(s.streams[k], i)])
      case Skip(w) => Move(s, w, Idle)
      case Crash(w) => Move(s, w, Idle)
  }

  function Move(s: State, w: nat, phase: Phase): State
    requires w < |s.workers|
  {
    s.(workers := s.workers[w := s.workers[w].(phase := phase)])
  }

  /** `s'` is reached from `s` by these actions of producers and workers, in this interleaving. */
  ghost predicate Run(s: State, actions: seq<Action>, s': State)
    decreases |actions|
  {
    if actions == [] then s == s'
    else Enabled(s, actions[0]) && Run(Apply(s, actions[0]), actions[1..], s')
  }

  // ----- the invariant

  ghost predicate EntryOk(log: seq<Entry>, previous: seq<Entry>, j: nat)
    requires j < |log|
  {
    && log[j].attempts <= MAX_ATTEMPTS
    && match log[j].origin
       case Produced => log[j].attempts == 0
       case HandOff(k) => log[j].attempts == 0 && k < |previous| && previous[k].meeting == log[j].meeting
       case Retry(k) => k < j && SameTask(log[k], log[j]) && log[j].attempts == log[k].attempts + 1
  }

  ghost predicate DeadOk(log: seq<Entry>, e: Entry) {
    && e.origin.Retry? && e.origin.of < |log| && SameTask(log[e.origin.of], e)
    && log[e.origin.of].attempts == MAX_ATTEMPTS && e.attempts == MAX_ATTEMPTS + 1
  }

  predicate SameTask(a: Entry, b: Entry) {
    a.event == b.event && a.meeting == b.meeting
  }

  ghost predicate EntriesOk(st: Stream, previous: seq<Entry>) {
    && (forall j :: 0 <= j < |st.log| ==> EntryOk(st.log, previous, j))
    && (forall j :: 0 <= j < |st.dlq| ==> DeadOk(st.log, st.dlq[j]))
  }

  /** Every entry is undelivered, pending or acknowledged, and only one of these. */
  ghost predicate Accounted(st: Stream) {
    && st.delivered <= |st.log|
    && (forall i: nat :: i < st.delivered <==> i in st.pending || i in st.acked)
    && st.pending !! st.acked
    && (forall i :: i in st.completed ==> i < st.delivered)
  }

  ghost predicate HasOrigin(entries: seq<Entry>, o: Origin) {
    exists j :: 0 <= j < |entries| && entries[j].origin == o
  }

  ghost predicate Copied(st: Stream, i: nat) {
    HasOrigin(st.log, Retry(i)) || HasOrigin(st.dlq, Retry(i))
  }

  /** What an acknowledgement is entitled to: the handler is done, or a copy is on the stream or in the dead-letter stream. */
  ghost predicate Evidence(st: Stream, i: nat) {
    i in st.completed || Copied(st, i)
  }

  ghost predicate HandedOn(st: Stream, next: seq<Entry>) {
    forall i :: i in st.completed ==> HasOrigin(next, HandOff(i))
  }

  ghost predicate StreamOk(streams: seq<Stream>, k: nat)
    requires k < |streams|
  {
    && Accounted(streams[k])
    && EntriesOk(streams[k], if k == 0 then [] else streams[k - 1].log)
    && (forall i :: i in streams[k].acked ==> Evidence(streams[k], i))
    && (k + 1 < |streams| ==> HandedOn(streams[k], streams[k + 1].log))
  }

  ghost predicate WorkerOk(streams: seq<Stream>, worker: Worker) {
    && worker.stage < |streams|
    && (worker.phase != Idle ==> HoldsWell(streams[worker.stage], worker.phase, worker.entry))
  }

  ghost predicate HoldsWell(st: Stream, phase: Phase, i: nat) {
    && i < st.delivered
    && (phase == HandedOff || phase == Done ==> i in st.completed)
    && (phase.Requeued? ==> Copied(st, i))
    && (phase == Handling(true) || phase == Finalizing(true) ==> Evidence(st, i))
  }

  ghost predicate Inv(s: State) {
    && |s.streams| == STAGES
    && (forall k :: 0 <= k < STAGES ==> StreamOk(s.streams, k))
    && (forall w :: 0 <= w < |s.workers| ==> WorkerOk(s.streams, s.workers[w]))
  }

  // ----- one action

  /** A stream only grows, except that pending entries become acknowledged. */
  ghost predicate Grows(st: Stream, st': Stream) {
    st.log <= st'.log && st.dlq <= st'.dlq && st.completed <= st'.completed && st.delivered <= st'.delivered
  }

  lemma OriginKept(entries: seq<Entry>, entries': seq<Entry>, o: Origin)
    requires entries <= entries' && HasOrigin(entries, o)
    ensures HasOrigin(entries', o)
  {
    var j :| 0 <= j < |entries| && entries[j].origin == o;
    assert entries'[j].origin == o;
  }

  lemma EvidenceKept(st: Stream, st': Stream, i: nat)
    requires Grows(st, st')
    ensures Copied(st, i) ==> Copied(st', i)
    ensures Evidence(st, i) ==> Evidence(st', i)
  {
    hide HasOrigin;
    if HasOrigin(st.log, Retry(i)) {
      OriginKept(st.log, st'.log, Retry(i));
    }
    if HasOrigin(st.dlq, Retry(i)) {
      OriginKept(st.dlq, st'.dlq, Retry(i));
    }
  }

  lemma EntriesKept(st: Stream, previous: seq<Entry>, previous': seq<Entry>)
    requires EntriesOk(st, previous) && previous <= previous'
    ensures EntriesOk(st, previous')
  {
    forall j | 0 <= j < |st.log|
      ensures EntryOk(st.log, previous', j)
    {
      assert EntryOk(st.log, previous, j);
    }
  }

  lemma AppendOk(st: Stream, previous: seq<Entry>, e: Entry)
    requires EntriesOk(st, previous) && EntryOk(st.log + [e], previous, |st.log|)
    ensures EntriesOk(Append(st, e), previous)
  {
    var log' := st.log + [e];
    forall j | 0 <= j < |log'|
      ensures EntryOk(log', previous, j)
    {
      if j < |st.log| {
        assert EntryOk(st.log, previous, j);
      }
    }
    forall j | 0 <= j < |st.dlq|
      ensures DeadOk(log', st.dlq[j])
    {
      assert DeadOk(st.log, st.dlq[j]);
    }
  }

  /** A copy on the stream has at most the allowed attempts, one in the dead-letter stream has one more. */
  lemma PutBackOk(st: Stream, previous: seq<Entry>, i: nat)
    requires EntriesOk(st, previous) && i < |st.log|
    ensures EntriesOk(PutBack(st, i), previous) && Copied(PutBack(st, i), i)
  {
    var copy, st' := CopyOf(st, i), PutBack(st, i);
    assert EntryOk(st.log, previous, i);
    if copy.attempts > MAX_ATTEMPTS {
      assert st'.dlq[|st.dlq|] == copy;
    } else {
      AppendOk(st, previous, copy);
      assert st'.log[|st.log|] == copy;
    }
  }

  function Previous(streams: seq<Stream>, k: nat): seq<Entry>
    requires k < |streams|
  {
    if k == 0 then [] else streams[k - 1].log
  }

  ghost predicate GrowsAll(streams: seq<Stream>, streams': seq<Stream>) {
    |streams'| == |streams| && forall k :: 0 <= k < |streams| ==> Grows(streams[k], streams'[k])
  }

  /** A stream stays in order when its neighbours grow and what is new about it is in order. */
  lemma StreamOkAfter(streams: seq<Stream>, streams': seq<Stream>, k: nat)
    requires GrowsAll(streams, streams') && k < |streams| && StreamOk(streams, k)
    requires Accounted(streams'[k]) && EntriesOk(streams'[k], Previous(streams, k))
    requires forall i :: i in streams'[k].acked ==> i in streams[k].acked || Evidence(streams'[k], i)
    requires k + 1 < |streams| ==>
               forall i :: i in streams'[k].completed ==> i in streams[k].completed || HasOrigin(streams'[k + 1].log, HandOff(i))
    ensures StreamOk(streams', k)
  {
    hide Accounted, EntriesOk, HasOrigin, Evidence;
    var st, st' := streams[k], streams'[k];
    assert Grows(st, st');
    assert k > 0 ==> Grows(streams[k - 1], streams'[k - 1]);
    EntriesKept(st', Previous(streams, k), Previous(streams', k));
    forall i | i in st'.acked
      ensures Evidence(st', i)
    {
      EvidenceKept(st, st', i);
    }
    if k + 1 < |streams| {
      assert Grows(streams[k + 1], streams'[k + 1]);
      forall i | i in st'.completed
        ensures HasOrigin(streams'[k + 1].log, HandOff(i))
      {
        if i in st.completed {
          OriginKept(streams[k + 1].log, streams'[k + 1].log, HandOff(i));
        }
      }
    }
  }

  lemma DeliverOk(streams: seq<Stream>, k: nat)
    requires |streams| == STAGES && k < STAGES && forall j :: 0 <= j < STAGES ==> StreamOk(streams, j)
    requires streams[k].delivered < |streams[k].log|
    ensures var streams' := streams[k := Deliver(streams[k])];
      GrowsAll(streams, streams') && forall j :: 0 <= j < STAGES ==> StreamOk(streams', j)
  {
    hide EntryOk, DeadOk, HasOrigin;
    var streams' := streams[k := Deliver(streams[k])];
    forall j | 0 <= j < STAGES
      ensures StreamOk(streams', j)
    {
      assert StreamOk(streams, j);
      DeliverAccounted(streams[k]) by { assert StreamOk(streams, k); }
      StreamOkAfter(streams, streams', j);
    }
  }

  lemma DeliverAccounted(st: Stream)
    requires Accounted(st) && st.delivered < |st.log|
    ensures Accounted(Deliver(st))
  {
  }

  lemma AcknowledgeAccounted(st: Stream, i: nat)
    requires Accounted(st) && i < st.delivered
    ensures Accounted(Acknowledge(st, i))
  {
  }

  lemma AcknowledgeOk(streams: seq<Stream>, k: nat, i: nat)
    requires |streams| == STAGES && k < STAGES && forall j :: 0 <= j < STAGES ==> StreamOk(streams, j)
    requires i < streams[k].delivered && Evidence(streams[k], i)
    ensures var streams' := streams[k := Acknowledge(streams[k], i)];
      GrowsAll(streams, streams') && forall j :: 0 <= j < STAGES ==> StreamOk(streams', j)
  {
    hide EntryOk, DeadOk, HasOrigin, Accounted;
    var streams' := streams[k := Acknowledge(streams[k], i)];
    forall j | 0 <= j < STAGES
      ensures StreamOk(streams', j)
    {
      assert StreamOk(streams, j);
      AcknowledgeAccounted(streams[k], i) by { assert StreamOk(streams, k); }
      StreamOkAfter(streams, streams', j);
    }
  }

  lemma PutBackStreams(streams: seq<Stream>, k: nat, i: nat)
    requires |streams| == STAGES && k < STAGES && forall j :: 0 <= j < STAGES ==> StreamOk(streams, j)
    requires i < |streams[k].log|
    ensures var streams' := streams[k := PutBack(streams[k], i)];
      && GrowsAll(streams, streams') && (forall j :: 0 <= j < STAGES ==> StreamOk(streams', j))
      && Copied(streams'[k], i)
  {
    hide EntriesOk, HasOrigin;
    var streams' := streams[k := PutBack(streams[k], i)];
    assert StreamOk(streams, k);
    PutBackOk(streams[k], Previous(streams, k), i);
    forall j | 0 <= j < STAGES
      ensures StreamOk(streams', j)
    {
      assert StreamOk(streams, j);
      StreamOkAfter(streams, streams', j);
    }
  }

  lemma HandOnStreams(streams: seq<Stream>, k: nat, i: nat, event: nat)
    requires |streams| == STAGES && k < STAGES && forall j :: 0 <= j < STAGES ==> StreamOk(streams, j)
    requires i < streams[k].delivered <= |streams[k].log|
    ensures var streams' := HandOn(streams, k, i, event);
      && GrowsAll(streams, streams') && (forall j :: 0 <= j < STAGES ==> StreamOk(streams', j))
      && i in streams'[k].completed
  {
    hide EntriesOk, HasOrigin, Evidence;
    assert StreamOk(streams, k);
    var streams' := HandOn(streams, k, i, event);
    var e := Entry(streams[k].log[i].meeting, event, 0, HandOff(i));
    if k + 1 < STAGES {
      assert StreamOk(streams, k + 1);
      AppendOk(streams[k + 1], streams[k].log, e);
      LastOrigin(streams[k + 1].log, e);
    }
    forall j | 0 <= j < STAGES
      ensures StreamOk(streams', j)
    {
      assert StreamOk(streams, j);
      EntriesOfCompleted(streams[k], Previous(streams, k), i);
      StreamOkAfter(streams, streams', j);
    }
  }

  lemma LastOrigin(log: seq<Entry>, e: Entry)
    ensures HasOrigin(log + [e], e.origin)
  {
    assert (log + [e])[|log|] == e;
  }

  lemma EntriesOfCompleted(st: Stream, previous: seq<Entry>, i: nat)
    requires EntriesOk(st, previous)
    ensures EntriesOk(st.(completed := st.completed + {i}), previous)
  {
  }

  lemma ProduceStreams(streams: seq<Stream>, e: Entry)
    requires |streams| == STAGES && forall j :: 0 <= j < STAGES ==> StreamOk(streams, j)
    requires e.origin == Produced && e.attempts == 0
    ensures var streams' := streams[0 := Append(streams[0], e)];
      GrowsAll(streams, streams') && forall j :: 0 <= j < STAGES ==> StreamOk(streams', j)
  {
    hide EntriesOk, HasOrigin;
    var streams' := streams[0 := Append(streams[0], e)];
    assert StreamOk(streams, 0);
    AppendOk(streams[0], [], e);
    forall j | 0 <= j < STAGES
      ensures StreamOk(streams', j)
    {
      assert StreamOk(streams, j);
      StreamOkAfter(streams, streams', j);
    }
  }

  lemma HoldsWellKept(st: Stream, st': Stream, phase: Phase, i: nat)
    requires Grows(st, st') && HoldsWell(st, phase, i)
    ensures HoldsWell(st', phase, i)
  {
    hide Evidence, Copied;
    EvidenceKept(st, st', i);
  }

  lemma EvidenceOf(st: Stream, i: nat)
    ensures i in st.completed || Copied(st, i) ==> Evidence(st, i)
  {
  }

  lemma DeliveredWithin(s: State)
    requires Inv(s)
    ensures forall k :: 0 <= k < STAGES ==> s.streams[k].delivered <= |s.streams[k].log|
  {
    hide EntriesOk, Evidence, HandedOn;
    forall k | 0 <= k < STAGES
      ensures s.streams[k].delivered <= |s.streams[k].log|
    {
      assert StreamOk(s.streams, k);
    }
  }

  lemma ShapedByInv(s: State)
    requires Inv(s)
    ensures Shaped(s)
  {
    DeliveredWithin(s);
    forall w | 0 <= w < |s.workers|
      ensures WorkerShaped(s.streams, s.workers[w])
    {
      assert WorkerOk(s.streams, s.workers[w]);
    }
  }

  /** What one action does to the streams. */
  lemma StepStreams(s: State, a: Action)
    requires Inv(s) && Enabled(s, a)
    ensures var streams' := Apply(s, a).streams;
      GrowsAll(s.streams, streams') && forall k :: 0 <= k < STAGES ==> StreamOk(streams', k)
  {
    hide StreamOk, Evidence, Copied, HandOn, PutBack, Deliver, Acknowledge;
    DeliveredWithin(s);
    if a.Produce? {
      ProduceStreams(s.streams, Entry(a.meeting, s.nextEvent, 0, Produced));
    } else {
      var worker := s.workers[a.w];
      assert WorkerOk(s.streams, worker);
      var k, i := worker.stage, worker.entry;
      match a
      case Read(_) => DeliverOk(s.streams, k);
      case Complete(_) => HandOnStreams(s.streams, k, i, s.nextEvent);
      case Requeue(_) => PutBackStreams(s.streams, k, i);
      case Ack(_) => AcknowledgeOk(s.streams, k, i);
      case _ =>
    }
  }

  /** What one action does to the worker that takes it. */
  lemma StepWorker(s: State, a: Action)
    requires Inv(s) && Enabled(s, a) && !a.Produce?
    ensures WorkerOk(Apply(s, a).streams, Apply(s, a).workers[a.w])
  {
    hide StreamOk, Evidence, Copied, HandOn, PutBack;
    var worker := s.workers[a.w];
    assert WorkerOk(s.streams, worker);
    var k, i := worker.stage, worker.entry;
    EvidenceOf(s.streams[k], i);
    DeliveredWithin(s);
    StepStreams(s, a);
    var st, st' := s.streams[k], Apply(s, a).streams[k];
    assert Grows(st, st');
    match a
    case Complete(_) => HandOnStreams(s.streams, k, i, s.nextEvent);
    case Requeue(_) => PutBackStreams(s.streams, k, i);
    case Claim(_, j) => ClaimedDelivered(s, k, j);
    case _ =>
  }

  lemma ClaimedDelivered(s: State, k: nat, j: nat)
    requires Inv(s) && k < STAGES && j in s.streams[k].pending
    ensures j < s.streams[k].delivered
  {
    assert StreamOk(s.streams, k);
  }

  lemma StepKeepsInv(s: State, a: Action)
    requires Inv(s) && Enabled(s, a)
    ensures Inv(Apply(s, a))
  {
    hide StreamOk, HoldsWell, HandOn, PutBack, Grows;
    StepStreams(s, a);
    var s' := Apply(s, a);
    forall w | 0 <= w < |s'.workers|
      ensures WorkerOk(s'.streams, s'.workers[w])
    {
      if !a.Produce? && a.w == w {
        StepWorker(s, a);
      } else {
        var worker := s.workers[w];
        assert WorkerOk(s.streams, worker) && s'.workers[w] == worker;
        if worker.phase != Idle {
          HoldsWellKept(s.streams[worker.stage], s'.streams[worker.stage], worker.phase, worker.entry);
        }
      }
    }
  }

  lemma InitialInv(s: State)
    requires Initial(s)
    ensures Inv(s)
  {
  }

  lemma {:induction false} RunKeepsInv(s: State, actions: seq<Action>, s': State)
    requires Inv(s) && Run(s, actions, s')
    ensures Inv(s')
    decreases |actions|
  {
    hide Inv, Apply, Enabled;
    if actions != [] {
      StepKeepsInv(s, actions[0]);
      RunKeepsInv(Apply(s, actions[0]), actions[1..], s');
    }
  }

  // ----- no task is lost

  /** `s` is reached from empty streams. */
  ghost predicate Reachable(s: State) {
    exists start, actions :: Initial(start) && Run(start, actions, s)
  }

  lemma ReachableInv(s: State)
    requires Reachable(s)
    ensures Inv(s)
  {
    var start, actions :| Initial(start) && Run(start, actions, s);
    InitialInv(start);
    RunKeepsInv(start, actions, s);
  }

  /**
    In every interleaving and for every crash: each entry is undelivered, pending or acknowledged, only one
    of these; and an acknowledged entry has had its handler finish, with the task of the next stage on
    its stream, or has a copy with one more attempt on the stream, or has one in the dead-letter stream.
   */
  lemma NoTaskLost(s: State, k: nat, i: nat)
    requires Reachable(s) && k < |s.streams| && i < |s.streams[k].log|
    ensures var st := s.streams[k];
      && (i >= st.delivered <==> i !in st.pending && i !in st.acked) && !(i in st.pending && i in st.acked)
      && (i in st.acked ==>
            || (i in st.completed && (k + 1 < |s.streams| ==> HandedTo(s.streams[k + 1].log, st.log[i], i)))
            || CopiedTo(st.log, st.log[i], i)
            || CopiedTo(st.dlq, st.log[i], i))
  {
    ReachableInv(s);
    var st := s.streams[k];
    assert StreamOk(s.streams, k);
    if i in st.acked {
      Successor(s, k, i);
    }
  }

  /** A fresh task for the same meeting, made from entry `i`. */
  ghost predicate HandedTo(log: seq<Entry>, e: Entry, i: nat) {
    exists j :: 0 <= j < |log| && log[j].origin == HandOff(i) && log[j].meeting == e.meeting && log[j].attempts == 0
  }

  /** A copy of entry `i` with one more attempt. */
  ghost predicate CopiedTo(entries: seq<Entry>, e: Entry, i: nat) {
    exists j :: 0 <= j < |entries| && entries[j] == e.(attempts := e.attempts + 1, origin := Retry(i))
  }

  lemma Successor(s: State, k: nat, i: nat)
    requires Inv(s) && k < STAGES && i < |s.streams[k].log|
    ensures i in s.streams[k].completed && k + 1 < STAGES ==> HandedTo(s.streams[k + 1].log, s.streams[k].log[i], i)
    ensures HasOrigin(s.streams[k].log, Retry(i)) ==> CopiedTo(s.streams[k].log, s.streams[k].log[i], i)
    ensures HasOrigin(s.streams[k].dlq, Retry(i)) ==> CopiedTo(s.streams[k].dlq, s.streams[k].log[i], i)
    ensures Evidence(s.streams[k], i) ==>
              i in s.streams[k].completed || HasOrigin(s.streams[k].log, Retry(i)) || HasOrigin(s.streams[k].dlq, Retry(i))
  {
    var st := s.streams[k];
    assert StreamOk(s.streams, k);
    if i in st.completed && k + 1 < STAGES {
      var next := s.streams[k + 1].log;
      var j :| 0 <= j < |next| && next[j].origin == HandOff(i);
      assert StreamOk(s.streams, k + 1);
      assert EntryOk(next, st.log, j);
    }
    if HasOrigin(st.log, Retry(i)) {
      var j :| 0 <= j < |st.log| && st.log[j].origin == Retry(i);
      assert EntryOk(st.log, Previous(s.streams, k), j);
      assert st.log[j] == st.log[i].(attempts := st.log[i].attempts + 1, origin := Retry(i));
    }
    if HasOrigin(st.dlq, Retry(i)) {
      var j :| 0 <= j < |st.dlq| && st.dlq[j].origin == Retry(i);
      assert DeadOk(st.log, st.dlq[j]);
      assert st.dlq[j] == st.log[i].(attempts := st.log[i].attempts + 1, origin := Retry(i));
    }
  }

  /** No entry on a live stream has more than the allowed attempts, and every dead letter has one more. */
  lemma AttemptsBounded(s: State, k: nat)
    requires Reachable(s) && k < |s.streams|
    ensures forall j :: 0 <= j < |s.streams[k].log| ==> s.streams[k].log[j].attempts <= MAX_ATTEMPTS
    ensures forall j :: 0 <= j < |s.streams[k].dlq| ==> s.streams[k].dlq[j].attempts == MAX_ATTEMPTS + 1
  {
    ReachableInv(s);
    assert StreamOk(s.streams, k);
    forall j | 0 <= j < |s.streams[k].log|
      ensures s.streams[k].log[j].attempts <= MAX_ATTEMPTS
    {
      assert EntryOk(s.streams[k].log, Previous(s.streams, k), j);
    }
    forall j | 0 <= j < |s.streams[k].dlq|
      ensures s.streams[k].dlq[j].attempts == MAX_ATTEMPTS + 1
    {
      assert DeadOk(s.streams[k].log, s.streams[k].dlq[j]);
    }
  }

  // ----- from one end of the pipeline to the other

  /** An entry, by stage and position. */
  datatype Place = Place(stage: nat, index: nat)

  ghost predicate Exists(s: State, p: Place) {
    p.stage < |s.streams| && p.index < |s.streams[p.stage].log|
  }

  /** `q` was made from `p` by handing on or by retrying, in any number of steps. */
  ghost predicate Descends(s: State, p: Place, q: Place)
    decreases q.stage, q.index
  {
    Exists(s, q) && (p == q || match s.streams[q.stage].log[q.index].origin
                               case Produced => false
                               case HandOff(k) => q.stage > 0 && Descends(s, p, Place(q.stage - 1, k))
                               case Retry(k) => k < q.index && Descends(s, p, Place(q.stage, k)))
  }

  /** Still to be worked on, or at its end: in a dead-letter stream, or through the last stage. */
  ghost predicate Open(s: State, q: Place)
    requires Exists(s, q)
  {
    q.index >= s.streams[q.stage].delivered || q.index in s.streams[q.stage].pending
  }

  ghost predicate Ended(s: State, q: Place)
    requires Exists(s, q)
  {
    || CopiedTo(s.streams[q.stage].dlq, s.streams[q.stage].log[q.index], q.index)
    || (q.stage == STAGES - 1 && q.index in s.streams[q.stage].completed)
  }

  lemma {:induction false} DescendsFurther(s: State, p: Place, c: Place, q: Place)
    requires Descends(s, c, q) && Exists(s, c)
    requires match s.streams[c.stage].log[c.index].origin
             case Produced => false
             case HandOff(k) => c.stage > 0 && p == Place(c.stage - 1, k)
             case Retry(k) => k < c.index && p == Place(c.stage, k)
    requires Exists(s, p)
    ensures Descends(s, p, q)
    decreases q.stage, q.index
  {
    if c != q {
      match s.streams[q.stage].log[q.index].origin
      case HandOff(k) => DescendsFurther(s, p, c, Place(q.stage - 1, k));
      case Retry(k) => DescendsFurther(s, p, c, Place(q.stage, k));
    } else {
      assert Descends(s, p, p);
    }
  }

  /**
    Every entry ever put on a stream is carried on in every run: some entry made from it, at its stage or
    a later one, is still to be worked on, is in a dead-letter stream, or has passed the last stage.
   */
  lemma EveryTaskCarriedOn(s: State, p: Place)
    requires Reachable(s) && Exists(s, p)
    ensures exists q :: Descends(s, p, q) && Exists(s, q) && (Open(s, q) || Ended(s, q))
  {
    ReachableInv(s);
    var q := CarriedOn(s, p);
  }

  lemma {:induction false} CarriedOn(s: State, p: Place) returns (q: Place)
    requires Inv(s) && Exists(s, p)
    ensures Descends(s, p, q) && Exists(s, q) && (Open(s, q) || Ended(s, q))
    decreases STAGES - p.stage, MAX_ATTEMPTS + 1 - s.streams[p.stage].log[p.index].attempts
  {
    hide StreamOk, Evidence;
    var st := s.streams[p.stage];
    AckedHasEvidence(s, p.stage, p.index);
    Successor(s, p.stage, p.index);
    q := p;
    if Open(s, p) || Ended(s, p) {
    } else if HasOrigin(st.log, Retry(p.index)) {
      var e := st.log[p.index];
      var j :| 0 <= j < |st.log| && st.log[j] == e.(attempts := e.attempts + 1, origin := Retry(p.index));
      var c := Place(p.stage, j);
      CopyIsLater(s, p.stage, j);
      q := CarriedOn(s, c);
      DescendsFurther(s, p, c, q);
    } else {
      var next := s.streams[p.stage + 1].log;
      var j :| 0 <= j < |next| && next[j].origin == HandOff(p.index)
               && next[j].meeting == st.log[p.index].meeting && next[j].attempts == 0;
      var c := Place(p.stage + 1, j);
      q := CarriedOn(s, c);
      DescendsFurther(s, p, c, q);
    }
  }

  lemma AckedHasEvidence(s: State, k: nat, i: nat)
    requires Inv(s) && k < STAGES
    ensures i < s.streams[k].delivered && i !in s.streams[k].pending ==> Evidence(s.streams[k], i)
  {
    assert StreamOk(s.streams, k);
  }

  lemma CopyIsLater(s: State, k: nat, j: nat)
    requires Inv(s) && k < STAGES && j < |s.streams[k].log| && s.streams[k].log[j].origin.Retry?
    ensures s.streams[k].log[j].origin.of < j && s.streams[k].log[j].attempts <= MAX_ATTEMPTS
  {
    assert StreamOk(s.streams, k);
    assert EntryOk(s.streams[k].log, Previous(s.streams, k), j);
  }
}