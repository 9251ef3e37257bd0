/**
  The queue machine does nothing that the worker loop does not do: in every run, what one worker
  does, with the actions of all others left out, is turn after turn of its loop, some of them cut
  off by a crash, and the beginning of the one it is at.
 */
module TaskTurns {
  import opened TaskQueue
  import opened TaskWorkers

  predicate Takes(a: Action, w: nat) {
    (a.Read? || a.Claim?) && a.w == w
  }

  /** What a turn has done, once it has its entry, before it decides about the acknowledgement. */
  function Handled(w: nat, f: Faults): seq<Action> {
    HandlerActions(w, f.handler) + if f.handler.Succeeds? then [] else RetryActions(w, f.retrying)
  }

  /** The handler fails, and leaves the flag like this. */
  predicate FailsWith(h: Handler, flag: bool) {
    !h.Succeeds? && flag == h.FailsFlagged?
  }

  /** What a worker in this phase has done since it took its entry. */
  ghost predicate Since(rest: seq<Action>, w: nat, phase: Phase) {
    match phase
    case Idle => false
    case Running => rest == []
    case HandedOff => rest == [Complete(w)]
    case Done => rest == [Complete(w), SetAck(w)]
    case Handling(flag) => exists h :: FailsWith(h, flag) && rest == HandlerActions(w, h)
    case Requeued(flag) => exists h :: FailsWith(h, flag) && rest == HandlerActions(w, h) + [Requeue(w)]
    case Finalizing(shouldAck) => exists f :: WantsAck(f) == shouldAck && rest == Handled(w, f)
  }

  /** The beginning of a turn that has come to this phase. */
  ghost predicate Begun(turn: seq<Action>, w: nat, phase: Phase) {
    if phase == Idle then turn == []
    else turn != [] && Takes(turn[0], w) && Since(turn[1..], w, phase)
  }

  /** A whole turn of the loop, or one that a crash has cut off. */
  ghost predicate IsTurn(turn: seq<Action>, w: nat) {
    Whole(turn, w) || CutOff(turn, w)
  }

  ghost predicate Whole(turn: seq<Action>, w: nat) {
    turn != [] && Takes(turn[0], w) && exists f :: turn[1..] == TurnActions(w, f)
  }

  ghost predicate CutOff(turn: seq<Action>, w: nat) {
    turn != [] && turn[|turn| - 1] == Crash(w) && BegunSomehow(turn[..|turn| - 1], w)
  }

  ghost predicate BegunSomehow(turn: seq<Action>, w: nat) {
    exists phase :: Begun(turn, w, phase)
  }

  function Flat(turns: seq<seq<Action>>): seq<Action> {
    if turns == [] then [] else Flat(turns[..|turns| - 1]) + turns[|turns| - 1]
  }

  /** Turns of the loop, and the beginning of one. */
  ghost predicate Turns(own: seq<Action>, w: nat, phase: Phase) {
    exists turns, begun :: TurnsAnd(own, w, phase, turns, begun)
  }

  ghost predicate TurnsAnd(own: seq<Action>, w: nat, phase: Phase, turns: seq<seq<Action>>, begun: seq<Action>) {
    own == Flat(turns) + begun && (forall turn :: turn in turns ==> IsTurn(turn, w)) && Begun(begun, w, phase)
  }

  /** One action more of the turn that is going on. */
  lemma Further(begun: seq<Action>, w: nat, phase: Phase, a: Action, phase': Phase)
    requires Begun(begun, w, phase) && PhaseAllows(phase, a) && Owned(a, w)
    requires !a.Crash? && !a.Ack? && !a.Skip?
    requires phase' == if a.Read? || a.Claim? then Running else if a.Complete? then HandedOff
                       else if a.Requeue? then Requeued(phase.shouldAck) else NextPhase(a, phase)
    ensures Begun(begun + [a], w, phase')
  {
    var turn := begun + [a];
    if phase == Idle {
      assert turn == [a] && turn[1..] == [];
    } else {
      var rest := begun[1..];
      assert turn[0] == begun[0] && turn[1..] == rest + [a];
      SinceFurther(rest, w, phase, a, phase');
    }
  }

  lemma SinceFurther(rest: seq<Action>, w: nat, phase: Phase, a: Action, phase': Phase)
    requires Since(rest, w, phase) && PhaseAllows(phase, a) && Owned(a, w)
    requires !a.Crash? && !a.Ack? && !a.Skip?
    requires phase' == if a.Complete? then HandedOff else if a.Requeue? then Requeued(phase.shouldAck) else NextPhase(a, phase)
    ensures Since(rest + [a], w, phase')
  {
    match a
    case Complete(_) => assert rest + [a] == [Complete(w)];
    case SetAck(_) => assert rest + [a] == [Complete(w), SetAck(w)];
    case Finish(_) =>
      var f := Faults(Succeeds, Returns, true);
      assert rest + [a] == Handled(w, f);
    case Fail(_) =>
      var h := if phase == Running then FailsAtOnce else if phase == HandedOff then FailsHandedOff else FailsFlagged;
      assert rest + [a] == HandlerActions(w, h) && FailsWith(h, phase == Done);
    case Requeue(_) =>
      var h :| FailsWith(h, phase.shouldAck) && rest == HandlerActions(w, h);
    case RequeueReturns(_) =>
      var h :| FailsWith(h, phase.shouldAck) && rest == HandlerActions(w, h) + [Requeue(w)];
      var f := Faults(h, Returns, true);
      assert rest + [a] == Handled(w, f);
    case RequeueRaises(_) =>
      if phase.Handling? {
        var h :| FailsWith(h, phase.shouldAck) && rest == HandlerActions(w, h);
        var f := Faults(h, RaisesBefore, true);
        assert rest + [a] == Handled(w, f);
      } else {
        var h :| FailsWith(h, phase.shouldAck) && rest == HandlerActions(w, h) + [Requeue(w)];
        var f := Faults(h, RaisesAfter, true);
        assert rest + [a] == Handled(w, f);
      }
  }

  /** The acknowledgement, or its omission, ends the turn. */
  lemma TurnOver(begun: seq<Action>, w: nat, phase: Phase, a: Action)
    requires Begun(begun, w, phase) && PhaseAllows(phase, a) && Owned(a, w) && (a.Ack? || a.Skip?)
    ensures Whole(begun + [a], w)
  {
    var turn, rest := begun + [a], begun[1..];
    assert turn[0] == begun[0] && turn[1..] == rest + [a];
    var f :| WantsAck(f) == phase.shouldAck && rest == Handled(w, f);
    var g := f.(ackWorks := a.Ack?);
    assert rest + [a] == TurnActions(w, g);
  }

  lemma CrashCutsOff(begun: seq<Action>, w: nat, phase: Phase)
    requires Begun(begun, w, phase)
    ensures CutOff(begun + [Crash(w)], w)
  {
    var turn := begun + [Crash(w)];
    assert turn[..|turn| - 1] == begun;
  }

  lemma FlatSnoc(turns: seq<seq<Action>>, turn: seq<Action>)
    ensures Flat(turns + [turn]) == Flat(turns) + turn
  {
    assert (turns + [turn])[..|turns|] == turns;
  }

  /** The phase the machine puts a worker in. */
  lemma PhaseAfter(s: State, a: Action)
    requires Enabled(s, a) && !a.Produce?
    ensures a.w < |Apply(s, a).workers|
    ensures var phase, phase' := s.workers[a.w].phase, Apply(s, a).workers[a.w].phase;
      phase' == if a.Crash? || a.Ack? || a.Skip? then Idle else if a.Read? || a.Claim? then Running
                else if a.Complete? then HandedOff else if a.Requeue? then Requeued(phase.shouldAck) else NextPhase(a, phase)
  {
    hide HandOn, PutBack;
  }

  lemma OneTurnMore(own: seq<Action>, w: nat, phase: Phase, turns: seq<seq<Action>>, begun: seq<Action>, a: Action)
    requires TurnsAnd(own, w, phase, turns, begun) && IsTurn(begun + [a], w)
    ensures Turns(own + [a], w, Idle)
  {
    hide Begun, IsTurn;
    var turn := begun + [a];
    FlatSnoc(turns, turn);
    NoneBegun(w);
    assert own + [a] == Flat(turns + [turn]) + [];
    assert TurnsAnd(own + [a], w, Idle, turns + [turn], []);
  }

  lemma SameTurn(own: seq<Action>, w: nat, phase: Phase, turns: seq<seq<Action>>, begun: seq<Action>, a: Action, phase': Phase)
    requires TurnsAnd(own, w, phase, turns, begun) && Begun(begun + [a], w, phase')
    ensures Turns(own + [a], w, phase')
  {
    hide Begun, IsTurn, Flat;
    assert own + [a] == Flat(turns) + (begun + [a]);
    assert TurnsAnd(own + [a], w, phase', turns, begun + [a]);
  }

  lemma StepTurns(s: State, a: Action, w: nat, own: seq<Action>)
    requires Enabled(s, a) && w < |s.workers| && Turns(own, w, s.workers[w].phase)
    ensures w < |Apply(s, a).workers| && Turns(own + Own([a], w), w, Apply(s, a).workers[w].phase)
  {
    OwnOne(a, w);
    var phase := s.workers[w].phase;
    if !Owned(a, w) {
      OthersKeepWorker(s, a, w);
      assert own + [] == own;
    } else {
      PhaseAfter(s, a);
      assert PhaseAllows(phase, a);
      var phase' := Apply(s, a).workers[w].phase;
      hide Apply, Enabled, PhaseAllows, Begun, Whole, CutOff, Flat, Own;
      var turns, begun :| TurnsAnd(own, w, phase, turns, begun);
      if a.Crash? {
        CrashCutsOff(begun, w, phase);
        OneTurnMore(own, w, phase, turns, begun, a);
      } else if a.Ack? || a.Skip? {
        TurnOver(begun, w, phase, a);
        OneTurnMore(own, w, phase, turns, begun, a);
      } else {
        Further(begun, w, phase, a, phase');
        SameTurn(own, w, phase, turns, begun, a, phase');
      }
    }
  }

  lemma NoneBegun(w: nat)
    ensures Begun([], w, Idle)
  {
  }

  lemma {:induction false} RunTurns(s: State, actions: seq<Action>, s': State, w: nat, own: seq<Action>)
    requires Run(s, actions, s') && w < |s.workers| && Turns(own, w, s.workers[w].phase)
    ensures w < |s'.workers| && Turns(own + Own(actions, w), w, s'.workers[w].phase)
    decreases |actions|
  {
    hide Apply, Enabled, Turns;
    if actions == [] {
      assert own + [] == own;
    } else {
      var a, rest := actions[0], actions[1..];
      StepTurns(s, a, w, own);
      RunTurns(Apply(s, a), rest, s', w, own + Own([a], w));
      assert actions == [a] + rest;
      OwnAppend([a], rest, w);
      assert own + Own([a], w) + Own(rest, w) == own + Own(actions, w);
    }
  }

  /**
    In every run from the start, and for every worker, whatever all others do: its own actions are turns of the
    loop with some handler, requeue and acknowledgement outcome each, or turns cut off by a crash, one
    after the other, and the beginning of a turn that has come to the phase the worker is in.
   */
  lemma WorkersDoTurns(start: State, actions: seq<Action>, s: State, w: nat)
    requires Initial(start) && Run(start, actions, s) && w < |start.workers|
    ensures w < |s.workers| && Turns(Own(actions, w), w, s.workers[w].phase)
  {
    NoneBegun(w);
    assert start.workers[w].phase == Idle;
    assert TurnsAnd([], w, Idle, [], []);
    hide Run, Turns, Initial;
    RunTurns(start, actions, s, w, []);
    assert [] + Own(actions, w) == Own(actions, w);
  }
}
