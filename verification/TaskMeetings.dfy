/**
  Which meeting a task is for, in every run. The tasks on the first stream are those that were asked
  for, in the order of asking, and no others; and every entry of every stage, and every dead letter,
  is for the meeting of the task that its chain of hand-offs and retries began with.
 */
module TaskMeetings {
  import opened TaskQueue
  import opened TaskConservation

  /** The meetings for which tasks are asked, in order. */
  function MeetingsAsked(actions: seq<Action>): seq<nat> {
    if actions == [] then []
    else (if actions[0].Produce? then [actions[0].meeting] else []) + MeetingsAsked(actions[1..])
  }

  /** The meetings of the entries that producers have put on a stream, in order. */
  function MeetingsProduced(log: seq<Entry>): seq<nat> {
    if log == [] then []
    else
      var last := log[|log| - 1];
      MeetingsProduced(log[..|log| - 1]) + if last.origin.Produced? then [last.meeting] else []
  }

  lemma ProducedSnoc(log: seq<Entry>, e: Entry)
    ensures MeetingsProduced(log + [e]) == MeetingsProduced(log) + if e.origin.Produced? then [e.meeting] else []
  {
    assert (log + [e])[..|log|] == log;
  }

  /** What comes new to a stream: the task that is asked for, or one that is handed on. */
  lemma NewEntry(s: State, a: Action, k: nat)
    requires Inv(s) && Enabled(s, a) && k < STAGES && Feeds(s, a, k)
    ensures |Apply(s, a).streams| == STAGES && |Apply(s, a).streams[k].log| == |s.streams[k].log| + 1
    ensures var e := Apply(s, a).streams[k].log[|s.streams[k].log|];
      && Apply(s, a).streams[k].log == s.streams[k].log + [e]
      && (e.origin.Produced? <==> a.Produce?) && (a.Produce? ==> e.meeting == a.meeting && e.attempts == 0)
  {
    hide StreamOk, HoldsWell;
  }

  lemma RequeuedWithin(s: State, a: Action)
    requires Inv(s) && Enabled(s, a) && a.Requeue?
    ensures s.workers[a.w].stage < STAGES == |s.streams|
    ensures s.workers[a.w].entry < |s.streams[s.workers[a.w].stage].log|
  {
    assert WorkerShaped(s.streams, s.workers[a.w]);
  }

  lemma PutBackProduces(st: Stream, i: nat)
    requires i < |st.log|
    ensures MeetingsProduced(PutBack(st, i).log) == MeetingsProduced(st.log)
  {
    ProducedSnoc(st.log, CopyOf(st, i));
  }

  lemma StepProduced(s: State, a: Action, k: nat)
    requires Inv(s) && Enabled(s, a) && k < STAGES
    ensures |Apply(s, a).streams| == STAGES
    ensures MeetingsProduced(Apply(s, a).streams[k].log)
         == MeetingsProduced(s.streams[k].log) + if k == 0 && a.Produce? then [a.meeting] else []
  {
    StreamEffect(s, a, k);
    if a.Requeue? {
      RequeuedWithin(s, a);
    }
    if Feeds(s, a, k) {
      NewEntry(s, a, k);
    }
    var st, st' := s.streams[k], Apply(s, a).streams[k];
    hide Apply, Inv, Enabled, MeetingsProduced, PutBack;
    if Feeds(s, a, k) {
      ProducedSnoc(st.log, st'.log[|st.log|]);
    } else if a.Requeue? && k == s.workers[a.w].stage {
      PutBackProduces(st, s.workers[a.w].entry);
    }
  }

  lemma {:induction false} RunProduced(s: State, actions: seq<Action>, s': State, k: nat)
    requires Inv(s) && Run(s, actions, s') && k < STAGES
    ensures |s.streams| == |s'.streams| == STAGES
    ensures MeetingsProduced(s'.streams[k].log)
         == MeetingsProduced(s.streams[k].log) + if k == 0 then MeetingsAsked(actions) else []
    decreases |actions|
  {
    assert |s.streams| == STAGES;
    hide Inv, Apply, Enabled, MeetingsProduced, MeetingsAsked;
    AskedFirst(actions);
    if actions != [] {
      var next := Apply(s, actions[0]);
      StepKeepsInv(s, actions[0]);
      StepProduced(s, actions[0], k);
      RunProduced(next, actions[1..], s', k);
      var rest := if k == 0 then MeetingsAsked(actions[1..]) else [];
      var first := if k == 0 && actions[0].Produce? then [actions[0].meeting] else [];
      hide Run;
      Regroup(MeetingsProduced(s.streams[k].log), first, rest);
    }
  }

  lemma Regroup(a: seq<nat>, b: seq<nat>, c: seq<nat>)
    ensures a + b + c == a + (b + c)
  {
  }

  lemma AskedFirst(actions: seq<Action>)
    ensures actions == [] ==> MeetingsAsked(actions) == []
    ensures actions != [] ==>
      MeetingsAsked(actions) == (if actions[0].Produce? then [actions[0].meeting] else []) + MeetingsAsked(actions[1..])
  {
  }

  /**
    In every run the first stream has a task for each meeting that one was asked for, in the order of asking, and
    no other task that does not come from an earlier entry; the other streams have only such.
   */
  lemma TasksAreAsAsked(start: State, actions: seq<Action>, s: State, k: nat)
    requires Initial(start) && Run(start, actions, s) && k < |s.streams|
    ensures MeetingsProduced(s.streams[k].log) == if k == 0 then MeetingsAsked(actions) else []
  {
    InitialInv(start);
    RunKeepsInv(start, actions, s);
    assert start.streams[k] == EMPTY_STREAM;
    assert MeetingsProduced([]) == [];
    hide Inv, MeetingsProduced;
    RunProduced(start, actions, s, k);
  }

  // ----- along a chain

  /** The entry that an entry was made from is there, and is for the same meeting. */
  lemma MadeForSame(s: State, p: Place)
    requires Inv(s) && Exists(s, p)
    ensures var e := s.streams[p.stage].log[p.index];
      match e.origin
      case Produced => true
      case HandOff(i) => p.stage > 0 && Exists(s, Place(p.stage - 1, i)) && s.streams[p.stage - 1].log[i].meeting == e.meeting
      case Retry(i) => i < p.index && s.streams[p.stage].log[i].meeting == e.meeting
  {
    assert StreamOk(s.streams, p.stage);
    assert EntryOk(s.streams[p.stage].log, Previous(s.streams, p.stage), p.index);
  }

  /** An entry is for the meeting of every entry it descends from. */
  lemma {:induction false} DescendsForSame(s: State, p: Place, q: Place)
    requires Inv(s) && Exists(s, p) && Descends(s, p, q)
    ensures Exists(s, q) && s.streams[q.stage].log[q.index].meeting == s.streams[p.stage].log[p.index].meeting
    decreases q.stage, q.index
  {
    MadeForSame(s, q);
    hide Inv;
    if p != q {
      match s.streams[q.stage].log[q.index].origin
      case HandOff(k) => DescendsForSame(s, p, Place(q.stage - 1, k));
      case Retry(k) => DescendsForSame(s, p, Place(q.stage, k));
    }
  }

  /** Every chain begins with an entry that a producer has put on its stream. */
  lemma {:induction false} ChainBegins(s: State, q: Place) returns (p: Place)
    requires Inv(s) && Exists(s, q)
    ensures Exists(s, p) && Descends(s, p, q) && s.streams[p.stage].log[p.index].origin == Produced
    decreases q.stage, q.index
  {
    MadeForSame(s, q);
    hide Inv;
    match s.streams[q.stage].log[q.index].origin
    case Produced => p := q;
    case HandOff(k) => p := ChainBegins(s, Place(q.stage - 1, k));
    case Retry(k) => p := ChainBegins(s, Place(q.stage, k));
  }

  lemma {:induction false} ProducedIsListed(log: seq<Entry>, i: nat)
    requires i < |log| && log[i].origin == Produced
    ensures log[i].meeting in MeetingsProduced(log)
  {
    if i < |log| - 1 {
      ProducedIsListed(log[..|log| - 1], i);
    }
  }

  /**
    In every run, for every entry of every stage: its chain begins on the first stream with a task that was
    asked for, and it is for the meeting that task was asked for, as are all the entries between.
   */
  lemma EveryEntryWasAskedFor(start: State, actions: seq<Action>, s: State, q: Place) returns (p: Place)
    requires Initial(start) && Run(start, actions, s) && Exists(s, q)
    ensures p.stage == 0 && Exists(s, p) && Descends(s, p, q) && s.streams[0].log[p.index].origin == Produced
    ensures s.streams[q.stage].log[q.index].meeting == s.streams[0].log[p.index].meeting
    ensures s.streams[q.stage].log[q.index].meeting in MeetingsAsked(actions)
    ensures forall r :: Exists(s, r) && Descends(s, r, q) ==>
              s.streams[r.stage].log[r.index].meeting == s.streams[q.stage].log[q.index].meeting
  {
    InitialInv(start);
    RunKeepsInv(start, actions, s);
    hide Inv, Initial, Run, Exists, Descends, MeetingsProduced;
    p := ChainBegins(s, q);
    InPlace(s, p);
    TasksAreAsAsked(start, actions, s, p.stage);
    ProducedIsListed(s.streams[p.stage].log, p.index);
    forall r | Exists(s, r) && Descends(s, r, q)
      ensures Exists(s, q) && s.streams[r.stage].log[r.index].meeting == s.streams[q.stage].log[q.index].meeting
    {
      DescendsForSame(s, r, q);
    }
  }

  lemma InPlace(s: State, p: Place)
    requires Exists(s, p)
    ensures p.stage < |s.streams| && p.index < |s.streams[p.stage].log|
  {
  }

  /** Every dead letter is for the meeting of the entry it was copied from. */
  lemma DeadLetterForSame(start: State, actions: seq<Action>, s: State, k: nat, j: nat)
    requires Initial(start) && Run(start, actions, s) && k < |s.streams| && j < |s.streams[k].dlq|
    ensures var dead := s.streams[k].dlq[j];
      && dead.origin.Retry? && Exists(s, Place(k, dead.origin.of))
      && dead.meeting == s.streams[k].log[dead.origin.of].meeting && dead.meeting in MeetingsAsked(actions)
  {
    InitialInv(start);
    RunKeepsInv(start, actions, s);
    assert StreamOk(s.streams, k) && DeadOk(s.streams[k].log, s.streams[k].dlq[j]);
    hide Inv, Initial, Run, Descends, MeetingsAsked;
    var p := EveryEntryWasAskedFor(start, actions, s, Place(k, s.streams[k].dlq[j].origin.of));
  }
}
