/**
  Who speaks in each segment of a transcript, from cues in the text. The program is a small
  state machine with a pending call; it is characterised here by the cues of the transcript alone: a
  plain segment is given to the person of the last call exactly when that call has been neither
  replaced nor settled, the segment is in time, and no plain segment in time lies between.
 */
module SpeakerInference {
  import opened Options

  /**
    A segment as the cue patterns see it: whether it has text, the name it introduces, whether
    the speaker hosts, the name it calls, and whether it answers for someone, reports an
    absence, or moves on.
   */
  datatype Segment = Segment(number: int, hasText: bool, intro: Option<string>, hosts: bool,
                             call: Option<string>, proxy: bool, absent: bool, skip: bool)

  datatype Label = Named(name: string) | ProxyFor(name: string)

  datatype Decision = Decision(number: int, speaker: Option<Label>, addressedTo: Option<string>, proxyFor: Option<string>)

  /** A pending call and the last segment number at which it can be answered. */
  datatype Pending = NoCall | Call(name: string, until: int)

  datatype State = State(host: Option<string>, pending: Pending)

  function Window(w: int): int {
    if w > 1 then w else 1
  }

  /** The host once the segment's introduction, if any, has been heard. */
  function HostNow(host: Option<string>, seg: Segment): Option<string> {
    if seg.hasText && seg.intro.Some? then seg.intro else host
  }

  /** The name the segment calls on: only a host calls, and not on himself. */
  function Addressed(host: Option<string>, seg: Segment): Option<string> {
    var h := HostNow(host, seg);
    if seg.hasText && h.Some? && seg.call.Some? && seg.call != h then seg.call else None
  }

  function NamedHost(h: Option<string>): Option<Label> {
    if h.Some? then Some(Named(h.value)) else None
  }

  /** One turn of the loop: the new state and the decision. */
  function Step(st: State, seg: Segment, w: int): (State, Decision) {
    if !seg.hasText then (st, Decision(seg.number, None, None, None))
    else
      var host, addressed := HostNow(st.host, seg), Addressed(st.host, seg);
      var speaker := if seg.intro.Some? || (host.Some? && seg.hosts) || addressed.Some? then NamedHost(host) else None;
      var pending := if addressed.Some? then Call(addressed.value, seg.number + Window(w)) else st.pending;
      if pending.NoCall? then
        (State(host, NoCall), Decision(seg.number, speaker, addressed, None))
      else if seg.proxy then
        (State(host, NoCall), Decision(seg.number, Some(ProxyFor(pending.name)), addressed, Some(pending.name)))
      else if seg.absent || seg.skip then
        (State(host, NoCall),
         Decision(seg.number, if host.Some? then NamedHost(host) else speaker, addressed,
                  if seg.absent then Some(pending.name) else None))
      else if seg.number <= pending.until && speaker.None? then
        (State(host, NoCall), Decision(seg.number, Some(Named(pending.name)), addressed, None))
      else
        (State(host, pending), Decision(seg.number, speaker, addressed, None))
  }

  ghost function StateAfter(segs: seq<Segment>, n: nat, w: int): State
    requires n <= |segs|
  {
    if n == 0 then State(None, NoCall) else Step(StateAfter(segs, n - 1, w), segs[n - 1], w).0
  }

  ghost function DecisionAt(segs: seq<Segment>, k: nat, w: int): Decision
    requires k < |segs|
  {
    Step(StateAfter(segs, k, w), segs[k], w).1
  }

  lemma StateNext(segs: seq<Segment>, k: nat, w: int)
    requires k < |segs|
    ensures (StateAfter(segs, k + 1, w), DecisionAt(segs, k, w)) == Step(StateAfter(segs, k, w), segs[k], w)
  {
  }

  /** The loop of the program, with its own variables. */
  method InferSpeakers(segments: seq<Segment>, window: int) returns (decisions: seq<Decision>)
    ensures |decisions| == |segments|
    ensures forall k :: 0 <= k < |segments| ==> decisions[k] == DecisionAt(segments, k, window)
  {
    decisions := [];
    var hostName: Option<string>, pendingName: Option<string>, pendingUntil: Option<int> := None, None, None;
    for k := 0 to |segments|
      invariant |decisions| == k
      invariant forall j :: 0 <= j < k ==> decisions[j] == DecisionAt(segments, j, window)
      invariant pendingName.Some? <==> pendingUntil.Some?
      invariant StateAfter(segments, k, window) ==
        State(hostName, if pendingName.Some? then Call(pendingName.value, pendingUntil.value) else NoCall)
    {
      StateNext(segments, k, window);
      hide StateAfter, DecisionAt;
      var seg := segments[k];
      var speaker: Option<Label>, addressedTo: Option<string>, proxyFor: Option<string> := None, None, None;
      if seg.hasText {
        if seg.intro.Some? {
          hostName := seg.intro;
          speaker := Some(Named(hostName.value));
        }
        if hostName.Some? && seg.hosts {
          speaker := Some(Named(hostName.value));
        }
        if hostName.Some? && seg.call.Some? {
          var name := seg.call.value;
          if name != hostName.value {
            pendingName := Some(name);
            pendingUntil := Some(seg.number + if window > 1 then window else 1);
            addressedTo := Some(name);
            speaker := Some(Named(hostName.value));
          }
        }
        if pendingName.Some? {
          if seg.proxy {
            speaker := Some(ProxyFor(pendingName.value));
            proxyFor := pendingName;
            pendingName, pendingUntil := None, None;
          } else if seg.absent || seg.skip {
            speaker := if hostName.Some? then Some(Named(hostName.value)) else speaker;
            proxyFor := if seg.absent then pendingName else None;
            pendingName, pendingUntil := None, None;
          } else if seg.number <= pendingUntil.value && speaker.None? {
            speaker := Some(Named(pendingName.value));
            pendingName, pendingUntil := None, None;
          }
        }
      }
      decisions := decisions + [Decision(seg.number, speaker, addressedTo, proxyFor)];
    }
  }

  // ----- the history

  /** The last name introduced in the first `n` segments. */
  ghost function HostAfter(segs: seq<Segment>, n: nat): Option<string>
    requires n <= |segs|
  {
    if n == 0 then None else HostNow(HostAfter(segs, n - 1), segs[n - 1])
  }

  lemma {:induction false} HostIsLastIntroduced(segs: seq<Segment>, n: nat, w: int)
    requires n <= |segs|
    ensures StateAfter(segs, n, w).host == HostAfter(segs, n)
    ensures StateAfter(segs, n, w).pending.Call? ==> HostAfter(segs, n).Some?
  {
    if n > 0 {
      HostIsLastIntroduced(segs, n - 1, w);
    }
  }

  /** The segment answers for a called person, reports an absence, or moves on. */
  predicate Settles(seg: Segment) {
    seg.hasText && (seg.proxy || seg.absent || seg.skip)
  }

  /** The name that segment `k` calls on, given who has been introduced by then. */
  ghost function Called(segs: seq<Segment>, k: nat): Option<string>
    requires k < |segs|
  {
    Addressed(HostAfter(segs, k), segs[k])
  }

  /** Text without any cue: nobody introduced, no hosting phrase, nobody called, nothing settled. */
  ghost predicate Plain(segs: seq<Segment>, k: nat)
    requires k < |segs|
  {
    segs[k].hasText && segs[k].intro.None? && !segs[k].hosts && !Settles(segs[k]) && Called(segs, k).None?
  }

  /** Segment `i` has made the last call before segment `k`, and nothing has settled it. */
  ghost predicate LastCall(segs: seq<Segment>, i: nat, k: nat)
    requires k <= |segs|
  {
    && i < k && Called(segs, i).Some? && !Settles(segs[i])
    && forall m: nat :: i < m < k ==> Called(segs, m).None? && !Settles(segs[m])
  }

  /** Segment `m` comes within the response window of the call of segment `i`. */
  predicate InTime(segs: seq<Segment>, i: nat, m: nat, w: int)
    requires i < |segs| && m < |segs|
  {
    segs[m].number <= segs[i].number + if w > 1 then w else 1
  }

  /** No plain segment in time lies between the call and segment `k`. */
  ghost predicate NoEarlier(segs: seq<Segment>, i: nat, k: nat, w: int)
    requires i < |segs| && k <= |segs|
  {
    forall m: nat :: i < m < k ==> !(Plain(segs, m) && InTime(segs, i, m, w))
  }

  /** The call of segment `i` can still be answered by segment `k`, going by the cues alone. */
  ghost predicate OpenCall(segs: seq<Segment>, i: nat, k: nat, w: int)
    requires k <= |segs|
  {
    LastCall(segs, i, k) && NoEarlier(segs, i, k, w)
  }

  /** The call that segment `i` puts into the state. */
  ghost function CallOf(segs: seq<Segment>, i: nat, w: int): Pending
    requires i < |segs|
  {
    match Called(segs, i)
    case None => NoCall
    case Some(name) => Call(name, segs[i].number + Window(w))
  }

  /** What segment `k` does to a pending call, by its cues. */
  lemma StepPending(segs: seq<Segment>, k: nat, w: int)
    requires k < |segs|
    ensures var before, after := StateAfter(segs, k, w).pending, StateAfter(segs, k + 1, w).pending;
      && DecisionAt(segs, k, w).addressedTo == Called(segs, k)
      && after == (if Settles(segs[k]) then NoCall
                   else if Called(segs, k).Some? then CallOf(segs, k, w)
                   else if before.Call? && Plain(segs, k) && segs[k].number <= before.until then NoCall
                   else before)
      && (Plain(segs, k) ==>
            DecisionAt(segs, k, w).speaker ==
            if before.Call? && segs[k].number <= before.until then Some(Named(before.name)) else None)
  {
    HostIsLastIntroduced(segs, k, w);
    hide HostAfter, Window;
  }

  lemma OneMoreSegment(segs: seq<Segment>, i: nat, k: nat, w: int)
    requires k < |segs|
    ensures OpenCall(segs, i, k + 1, w) <==>
      if i == k then Called(segs, k).Some? && !Settles(segs[k])
      else OpenCall(segs, i, k, w) && Called(segs, k).None? && !Settles(segs[k])
           && !(Plain(segs, k) && InTime(segs, i, k, w))
  {
    hide Called, Settles, Plain, InTime;
  }

  /** The pending call of the state is the open call of the transcript, and there is one iff there is the other. */
  lemma {:induction false} PendingIsOpenCall(segs: seq<Segment>, k: nat, w: int)
    requires k <= |segs|
    ensures StateAfter(segs, k, w).pending.Call? ==> exists i: nat :: OpenCall(segs, i, k, w)
    ensures forall i: nat :: OpenCall(segs, i, k, w) ==> StateAfter(segs, k, w).pending == CallOf(segs, i, w)
  {
    if k > 0 {
      var n := k - 1;
      PendingIsOpenCall(segs, n, w);
      StepPending(segs, n, w);
      hide OpenCall, StateAfter, Called, Settles, Plain, Window;
      var before, after := StateAfter(segs, n, w).pending, StateAfter(segs, k, w).pending;
      if after.Call? {
        if Called(segs, n).Some? {
          OneMoreSegment(segs, n, n, w);
        } else {
          var i: nat :| OpenCall(segs, i, n, w);
          CallMade(segs, i, n, w);
          OneMoreSegment(segs, i, n, w);
        }
      }
      forall i: nat | OpenCall(segs, i, k, w)
        ensures after == CallOf(segs, i, w)
      {
        OneMoreSegment(segs, i, n, w);
        CallMade(segs, i, k, w);
      }
    }
  }

  lemma CallMade(segs: seq<Segment>, i: nat, k: nat, w: int)
    requires k <= |segs| && OpenCall(segs, i, k, w)
    ensures i < k && Called(segs, i).Some?
  {
  }

  /**
    A plain segment is given to `name` exactly when the last call before it that was neither replaced nor settled
    is a call on `name`, the segment is in time for it, and no earlier plain segment in time lies between.
   */
  lemma AnswerIff(segs: seq<Segment>, k: nat, w: int, name: string)
    requires k < |segs| && Plain(segs, k)
    ensures DecisionAt(segs, k, w).speaker == Some(Named(name))
       <==> exists i: nat :: LastCall(segs, i, k) && NoEarlier(segs, i, k, w) && Called(segs, i) == Some(name)
                             && InTime(segs, i, k, w)
  {
    PendingIsOpenCall(segs, k, w);
    StepPending(segs, k, w);
    hide StateAfter, Called, Plain, DecisionAt, LastCall, NoEarlier;
    var before := StateAfter(segs, k, w).pending;
    if before.Call? {
      var i: nat :| OpenCall(segs, i, k, w);
      CallMade(segs, i, k, w);
      assert before == CallOf(segs, i, w);
    }
    forall i: nat | LastCall(segs, i, k) && NoEarlier(segs, i, k, w) && Called(segs, i) == Some(name) && InTime(segs, i, k, w)
      ensures before == Call(name, segs[i].number + Window(w))
    {
      assert OpenCall(segs, i, k, w);
    }
  }

  /** A plain segment that was nevertheless given a speaker. */
  ghost predicate Answers(segs: seq<Segment>, k: nat, w: int)
    requires k < |segs|
  {
    Plain(segs, k) && DecisionAt(segs, k, w).speaker.Some?
  }

  /** The segment answers the call of segment `i`. */
  lemma AnsweredCall(segs: seq<Segment>, k: nat, w: int) returns (i: nat)
    requires k < |segs| && Answers(segs, k, w)
    ensures OpenCall(segs, i, k, w) && i < k && InTime(segs, i, k, w)
    ensures Called(segs, i).Some? && DecisionAt(segs, k, w).speaker == Some(Named(Called(segs, i).value))
  {
    PendingIsOpenCall(segs, k, w);
    StepPending(segs, k, w);
    hide StateAfter, Called, Plain, DecisionAt, OpenCall;
    i :| OpenCall(segs, i, k, w);
    CallMade(segs, i, k, w);
  }

  /** A speaker who is neither the current host nor a proxy was called and answers within the window. */
  lemma OtherSpeakerWasCalled(segs: seq<Segment>, k: nat, w: int, name: string)
    requires k < |segs| && DecisionAt(segs, k, w).speaker == Some(Named(name))
    requires HostAfter(segs, k + 1) != Some(name)
    ensures Answers(segs, k, w)
    ensures exists i: nat :: OpenCall(segs, i, k, w) && Called(segs, i) == Some(name) && InTime(segs, i, k, w)
  {
    HostIsLastIntroduced(segs, k, w);
    assert Plain(segs, k);
    var i := AnsweredCall(segs, k, w);
  }

  /** There is only one last call. */
  lemma OneLastCall(segs: seq<Segment>, i: nat, j: nat, k: nat)
    requires k <= |segs| && LastCall(segs, i, k) && LastCall(segs, j, k)
    ensures i == j
  {
    hide Called;
  }

  /** The segment that answers a call leaves nothing of it to the segments after. */
  lemma AnswerSpends(segs: seq<Segment>, i: nat, k: nat, l: nat, w: int)
    requires i < k < l <= |segs| && LastCall(segs, i, l) && Answers(segs, k, w)
    ensures !NoEarlier(segs, i, l, w)
  {
    hide DecisionAt, Called;
    var j := AnsweredCall(segs, k, w);
    assert LastCall(segs, i, k);
    OneLastCall(segs, i, j, k);
    assert Plain(segs, k) && InTime(segs, i, k, w);
  }

  /** No call is answered twice: between two segments that answer, somebody is called anew. */
  lemma AnsweredOnce(segs: seq<Segment>, k: nat, l: nat, w: int)
    requires k < l < |segs| && Answers(segs, k, w) && Answers(segs, l, w)
    ensures exists i: nat :: k < i < l && OpenCall(segs, i, l, w)
  {
    hide DecisionAt, Called;
    var i := AnsweredCall(segs, l, w);
    if i < k {
      AnswerSpends(segs, i, k, l, w);
    }
  }

  /** A label for a proxy names the person of the open call, or of a call made in the same segment. */
  lemma ProxyWasCalled(segs: seq<Segment>, k: nat, w: int, name: string)
    requires k < |segs| && DecisionAt(segs, k, w).speaker == Some(ProxyFor(name))
    ensures DecisionAt(segs, k, w).proxyFor == Some(name) && segs[k].proxy
    ensures Called(segs, k) == Some(name) || exists i: nat :: OpenCall(segs, i, k, w) && Called(segs, i) == Some(name)
  {
    PendingIsOpenCall(segs, k, w);
    StepPending(segs, k, w);
    if Called(segs, k).None? {
      var i: nat :| OpenCall(segs, i, k, w);
      CallMade(segs, i, k, w);
      assert StateAfter(segs, k, w).pending == CallOf(segs, i, w);
    }
  }

  /** Segment `k` names the host as its speaker: somebody is introduced or called, or the host speaks as one. */
  ghost predicate HostCue(segs: seq<Segment>, k: nat)
    requires k < |segs|
  {
    segs[k].hasText && (segs[k].intro.Some? || (HostAfter(segs, k + 1).Some? && segs[k].hosts) || Called(segs, k).Some?)
  }

  /** While segment `k` is heard, the last call that has not been settled or answered is on `name`. */
  ghost predicate InForce(segs: seq<Segment>, k: nat, w: int, name: string)
    requires k < |segs|
  {
    if Called(segs, k).Some? then Called(segs, k) == Some(name)
    else exists i: nat :: OpenCall(segs, i, k, w) && Called(segs, i) == Some(name)
  }

  /** The call in force is the one the program holds when it looks for who settles it. */
  lemma InForceIsPending(segs: seq<Segment>, k: nat, w: int, name: string)
    requires k < |segs|
    ensures var pending := if Called(segs, k).Some? then CallOf(segs, k, w) else StateAfter(segs, k, w).pending;
      InForce(segs, k, w, name) <==> pending.Call? && pending.name == name
  {
    PendingIsOpenCall(segs, k, w);
    hide StateAfter, Called, OpenCall;
    if Called(segs, k).None? {
      var before := StateAfter(segs, k, w).pending;
      if before.Call? {
        var i: nat :| OpenCall(segs, i, k, w);
        CallMade(segs, i, k, w);
        assert before == CallOf(segs, i, w);
      }
    }
  }

  lemma StepByCues(segs: seq<Segment>, k: nat, w: int)
    requires k < |segs|
    ensures var pending, d, host := (if Called(segs, k).Some? then CallOf(segs, k, w) else StateAfter(segs, k, w).pending),
                                    DecisionAt(segs, k, w), HostAfter(segs, k + 1);
      var settled := pending.Call? && Settles(segs[k]);
      && d.number == segs[k].number && d.addressedTo == Called(segs, k)
      && (HostCue(segs, k) || (pending.Call? && segs[k].hasText) ==> host.Some?)
      && (!settled && HostCue(segs, k) ==> d.speaker == NamedHost(host))
      && (!settled ==> d.proxyFor == None)
      && (!settled && !HostCue(segs, k) && (pending.NoCall? || !Plain(segs, k)) ==> d.speaker == None)
      && (settled && segs[k].proxy ==> d.speaker == Some(ProxyFor(pending.name)) && d.proxyFor == Some(pending.name))
      && (settled && !segs[k].proxy ==>
            d.speaker == NamedHost(host) && d.proxyFor == if segs[k].absent then Some(pending.name) else None)
  {
    HostIsLastIntroduced(segs, k, w);
    hide Window, StateAfter;
    assert HostAfter(segs, k + 1) == HostNow(HostAfter(segs, k), segs[k]);
    hide HostAfter;
  }

  /**
    A segment that answers for an absent person, reports an absence or moves on, while a call on `name` is in
    force: a proxy is labelled as one for `name`; otherwise it is the host who speaks, and `name` is noted exactly
    when the segment reports an absence.
   */
  lemma CallSettled(segs: seq<Segment>, k: nat, w: int, name: string)
    requires k < |segs| && Settles(segs[k]) && InForce(segs, k, w, name)
    ensures var d, host := DecisionAt(segs, k, w), HostAfter(segs, k + 1);
      && host.Some?
      && d.speaker == Some(if segs[k].proxy then ProxyFor(name) else Named(host.value))
      && d.proxyFor == if segs[k].proxy || segs[k].absent then Some(name) else None
  {
    InForceIsPending(segs, k, w, name);
    StepByCues(segs, k, w);
    hide StateAfter, Called, InForce, DecisionAt, HostAfter;
  }

  /**
    Every other segment that introduces, hosts or calls is spoken by the host, the person introduced last,
    this segment included; and without such a cue nobody is named unless the segment answers a call.
   */
  lemma HostSpeaks(segs: seq<Segment>, k: nat, w: int)
    requires k < |segs|
    ensures var d, host := DecisionAt(segs, k, w), HostAfter(segs, k + 1);
      && d.number == segs[k].number && d.addressedTo == Called(segs, k)
      && (!(Settles(segs[k]) && exists name :: InForce(segs, k, w, name)) ==>
            && d.proxyFor == None
            && (HostCue(segs, k) ==> host.Some? && d.speaker == Some(Named(host.value)))
            && (!HostCue(segs, k) && !Plain(segs, k) ==> d.speaker == None))
  {
    StepByCues(segs, k, w);
    hide StateAfter, Called, DecisionAt, HostAfter, InForce, Plain;
    var pending := if Called(segs, k).Some? then CallOf(segs, k, w) else StateAfter(segs, k, w).pending;
    if pending.Call? && Settles(segs[k]) {
      InForceIsPending(segs, k, w, pending.name);
    }
  }
}
