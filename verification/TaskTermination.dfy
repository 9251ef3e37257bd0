/**
  That the work of the task queue comes to an end. Reads are bounded by the tasks produced, all other
  actions by reads and claims, and claims by crashes and skipped acknowledgements; a queue that has
  not come to rest is never stuck; and when only handlers fail, every task ends.
 */
module TaskTermination {
  import opened TaskQueue
  import opened TaskOutcomes
  import opened TaskConservation

  // ----- entries per task

  lemma {:induction false} InjectionSize<A, B>(xs: set<A>, ys: set<B>, f: A -> B)
    requires forall x :: x in xs ==> f(x) in ys
    requires forall x, y :: x in xs && y in xs && f(x) == f(y) ==> x == y
    ensures |xs| <= |ys|
    decreases |xs|
  {
    if xs != {} {
      var x :| x in xs;
      InjectionSize(xs - {x}, ys - {f(x)}, f);
    }
  }

  ghost function AtTry(log: seq<Entry>, attempts: nat): set<nat> {
    set i: nat | i < |log| && log[i].attempts == attempts
  }

  /** Each copy has its own original: no more entries with one more attempt than with the attempts before. */
  lemma FewerTries(st: Stream, previous: seq<Entry>, attempts: nat)
    requires EntriesOk(st, previous) && Distinct(st)
    ensures |AtTry(st.log, attempts + 1)| <= |AtTry(st.log, attempts)|
  {
    var log := st.log;
    var parent := (i: nat) => if i < |log| && log[i].origin.Retry? then log[i].origin.of else 0;
    forall i | i in AtTry(log, attempts + 1)
      ensures log[i].origin == Retry(parent(i)) && parent(i) < i && SameTask(log[parent(i)], log[i])
      ensures parent(i) in AtTry(log, attempts)
    {
      assert EntryOk(log, previous, i);
    }
    forall i, j | i in AtTry(log, attempts + 1) && j in AtTry(log, attempts + 1) && parent(i) == parent(j)
      ensures i == j
    {
      assert SameTry(log[i], log[j]);
    }
    InjectionSize(AtTry(log, attempts + 1), AtTry(log, attempts), parent);
  }

  lemma {:induction false} TriesBounded(st: Stream, previous: seq<Entry>, attempts: nat)
    requires EntriesOk(st, previous) && Distinct(st)
    ensures |AtTry(st.log, attempts)| <= |AtTry(st.log, 0)|
  {
    if attempts > 0 {
      TriesBounded(st, previous, attempts - 1);
      FewerTries(st, previous, attempts - 1);
    }
  }

  ghost function NewEntries(log: seq<Entry>): set<nat> {
    set i: nat | i < |log| && !log[i].origin.Retry?
  }

  lemma NewSnoc(front: seq<Entry>, e: Entry)
    ensures |NewEntries(front + [e])| == |NewEntries(front)| + if e.origin.Retry? then 0 else 1
  {
    var n, log := |front|, front + [e];
    assert NewEntries(log) == NewEntries(front) + if e.origin.Retry? then {} else {n};
  }

  lemma TrySnoc(front: seq<Entry>, e: Entry, attempts: nat)
    ensures |AtTry(front + [e], attempts)| == |AtTry(front, attempts)| + if e.attempts == attempts then 1 else 0
  {
    var n, log := |front|, front + [e];
    assert AtTry(log, attempts) == AtTry(front, attempts) + if e.attempts == attempts then {n} else {};
  }

  lemma {:induction false} CountNew(log: seq<Entry>)
    ensures TasksIn(log) == |NewEntries(log)|
  {
    hide NewEntries;
    if log == [] {
      assert NewEntries([]) == {} by { NothingNew(); }
    } else {
      var n := |log| - 1;
      assert log == log[..n] + [log[n]];
      CountNew(log[..n]);
      NewSnoc(log[..n], log[n]);
    }
  }

  lemma NothingNew()
    ensures NewEntries([]) == {} && forall attempts :: AtTry([], attempts) == {}
  {
  }

  /** The entries with fewer than `n` attempts. */
  ghost function TriesBelowNumber(log: seq<Entry>, n: nat): nat {
    if n == 0 then 0 else TriesBelowNumber(log, n - 1) + |AtTry(log, n - 1)|
  }

  lemma {:induction false} NoTries(n: nat)
    ensures TriesBelowNumber([], n) == 0
  {
    NothingNew();
    if n > 0 {
      NoTries(n - 1);
    }
  }

  lemma {:induction false} TriesSnoc(front: seq<Entry>, e: Entry, n: nat)
    ensures TriesBelowNumber(front + [e], n) == TriesBelowNumber(front, n) + if e.attempts < n then 1 else 0
  {
    hide AtTry;
    if n > 0 {
      TriesSnoc(front, e, n - 1);
      TrySnoc(front, e, n - 1);
    }
  }

  lemma {:induction false} SplitByTry(log: seq<Entry>, n: nat)
    requires forall i :: 0 <= i < |log| ==> log[i].attempts < n
    ensures |log| == TriesBelowNumber(log, n)
  {
    hide TriesBelowNumber;
    if log == [] {
      NoTries(n);
    } else {
      var front, e := log[..|log| - 1], log[|log| - 1];
      assert log == front + [e];
      SplitByTry(front, n);
      TriesSnoc(front, e, n);
    }
  }

  lemma {:induction false} FewTriesBelow(st: Stream, previous: seq<Entry>, n: nat)
    requires EntriesOk(st, previous) && Distinct(st)
    ensures TriesBelowNumber(st.log, n) <= n * |AtTry(st.log, 0)|
  {
    hide EntriesOk, Distinct, AtTry;
    if n > 0 {
      FewTriesBelow(st, previous, n - 1);
      TriesBounded(st, previous, n - 1);
      var each := |AtTry(st.log, 0)|;
      assert n * each == (n - 1) * each + each;
    }
  }

  /** A stream holds at most max_attempts + 1 entries for each task that came to it. */
  lemma EntriesPerTask(st: Stream, previous: seq<Entry>)
    requires EntriesOk(st, previous) && Distinct(st)
    ensures |st.log| <= (MAX_ATTEMPTS + 1) * TasksIn(st.log)
  {
    var log := st.log;
    forall i | 0 <= i < |log|
      ensures log[i].attempts < MAX_ATTEMPTS + 1 && (log[i].attempts == 0 <==> !log[i].origin.Retry?)
    {
      assert EntryOk(log, previous, i);
    }
    CountNew(log);
    assert AtTry(log, 0) == NewEntries(log);
    hide AtTry, NewEntries, TasksIn, EntriesOk, Distinct, TriesBelowNumber;
    SplitByTry(log, MAX_ATTEMPTS + 1);
    FewTriesBelow(st, previous, MAX_ATTEMPTS + 1);
  }

  // ----- how many actions a run can have

  function Reads(actions: seq<Action>): nat {
    if actions == [] then 0 else (if actions[0].Read? then 1 else 0) + Reads(actions[1..])
  }

  function Claims(actions: seq<Action>): nat {
    if actions == [] then 0 else (if actions[0].Claim? then 1 else 0) + Claims(actions[1..])
  }

  function Crashes(actions: seq<Action>): nat {
    if actions == [] then 0 else (if actions[0].Crash? then 1 else 0) + Crashes(actions[1..])
  }

  function Skips(actions: seq<Action>): nat {
    if actions == [] then 0 else (if actions[0].Skip? then 1 else 0) + Skips(actions[1..])
  }

  /** The actions within a turn of a worker loop. */
  predicate Inner(a: Action) {
    !a.Produce? && !a.Read? && !a.Claim? && !a.Crash?
  }

  function Inners(actions: seq<Action>): nat {
    if actions == [] then 0 else (if Inner(actions[0]) then 1 else 0) + Inners(actions[1..])
  }

  lemma {:induction false} EveryActionCounted(actions: seq<Action>)
    ensures |actions| == Produces(actions) + Reads(actions) + Claims(actions) + Crashes(actions) + Inners(actions)
  {
    if actions != [] {
      EveryActionCounted(actions[1..]);
    }
  }

  /** Entries delivered by the first `n` streams. */
  function Delivered(streams: seq<Stream>, n: nat): nat
    requires n <= |streams|
  {
    if n == 0 then 0 else Delivered(streams, n - 1) + streams[n - 1].delivered
  }

  lemma {:induction false} StepDelivered(s: State, a: Action, n: nat)
    requires Inv(s) && Enabled(s, a) && n <= STAGES
    ensures |Apply(s, a).streams| == STAGES
    ensures Delivered(Apply(s, a).streams, n) ==
      Delivered(s.streams, n) + if a.Read? && s.workers[a.w].stage < n then 1 else 0
  {
    SameWorkers(s, a);
    hide Apply, Inv, Enabled;
    if n > 0 {
      StepDelivered(s, a, n - 1);
      DeliveredKept(s, a, n - 1);
    }
  }

  lemma ReaderStage(s: State, a: Action)
    requires Enabled(s, a) && !a.Produce?
    ensures s.workers[a.w].stage < STAGES
  {
    assert WorkerShaped(s.streams, s.workers[a.w]);
  }

  /** In every run each read delivers one entry. */
  lemma {:induction false} ReadsAreDelivered(s: State, actions: seq<Action>, s': State)
    requires Inv(s) && Run(s, actions, s')
    ensures |s.streams| == |s'.streams| == STAGES
    ensures Delivered(s'.streams, STAGES) == Delivered(s.streams, STAGES) + Reads(actions)
    decreases |actions|
  {
    assert |s.streams| == STAGES;
    hide Inv, Apply, Enabled, Delivered;
    if actions != [] {
      StepKeepsInv(s, actions[0]);
      StepDelivered(s, actions[0], STAGES);
      if actions[0].Read? {
        ReaderStage(s, actions[0]);
      }
      ReadsAreDelivered(Apply(s, actions[0]), actions[1..], s');
    }
  }

  /** Every stage has received at most the tasks produced. */
  lemma TasksAtStage(s: State, k: nat)
    requires Conserved(s) && k < |s.streams|
    ensures TasksIn(s.streams[k].log) <= TasksIn(s.streams[0].log)
  {
    if k > 0 {
      PipelineBalanced(s, k);
    }
  }

  lemma {:induction false} DeliveredBounded(s: State, n: nat)
    requires Inv(s) && Once(s) && Conserved(s) && n <= STAGES
    ensures Delivered(s.streams, n) <= n * ((MAX_ATTEMPTS + 1) * TasksIn(s.streams[0].log))
  {
    if n > 0 {
      var k := n - 1;
      DeliveredBounded(s, k);
      assert StreamOk(s.streams, k) && StreamOnce(s.streams[k], s.nextEvent);
      EntriesPerTask(s.streams[k], Previous(s.streams, k));
      TasksAtStage(s, k);
      var each := (MAX_ATTEMPTS + 1) * TasksIn(s.streams[0].log);
      assert n * each == k * each + each;
    }
  }

  /** How many actions a worker has at most before it is idle. */
  function Rank(phase: Phase): nat {
    match phase
    case Idle => 0
    case Running => 6
    case HandedOff => 5
    case Done => 4
    case Handling(_) => 3
    case Requeued(_) => 2
    case Finalizing(_) => 1
  }

  function Ranks(workers: seq<Worker>): nat {
    if workers == [] then 0 else Ranks(workers[..|workers| - 1]) + Rank(workers[|workers| - 1].phase)
  }

  lemma {:induction false} RanksUpdate(workers: seq<Worker>, w: nat, worker: Worker)
    requires w < |workers|
    ensures Ranks(workers[w := worker]) + Rank(workers[w].phase) == Ranks(workers) + Rank(worker.phase)
  {
    hide Rank;
    var n := |workers| - 1;
    var workers' := workers[w := worker];
    if w == n {
      assert workers'[..n] == workers[..n];
    } else {
      RanksUpdate(workers[..n], w, worker);
      assert workers'[..n] == workers[..n][w := worker];
    }
  }

  lemma {:induction false} RanksAtRest(workers: seq<Worker>)
    requires forall w :: 0 <= w < |workers| ==> workers[w].phase == Idle
    ensures Ranks(workers) == 0
  {
    if workers != [] {
      RanksAtRest(workers[..|workers| - 1]);
    }
  }

  lemma StepRank(s: State, a: Action)
    requires Inv(s) && Enabled(s, a)
    ensures Ranks(Apply(s, a).workers) + (if Inner(a) then 1 else 0) <= Ranks(s.workers) + if a.Read? || a.Claim? then 6 else 0
  {
    if !a.Produce? {
      WorkerChange(s, a);
      PhaseRank(s, a);
      RanksUpdate(s.workers, a.w, Apply(s, a).workers[a.w]);
    }
  }

  lemma PhaseRank(s: State, a: Action)
    requires Enabled(s, a) && !a.Produce?
    ensures a.w < |Apply(s, a).workers|
    ensures Rank(Apply(s, a).workers[a.w].phase) + (if Inner(a) then 1 else 0)
         <= Rank(s.workers[a.w].phase) + if a.Read? || a.Claim? then 6 else 0
  {
    hide HandOn, PutBack;
  }

  /** In every run a read or a claim is followed by at most six actions of its worker. */
  lemma {:induction false} InnersBounded(s: State, actions: seq<Action>, s': State)
    requires Inv(s) && Run(s, actions, s')
    ensures Inners(actions) + Ranks(s'.workers) <= Ranks(s.workers) + 6 * (Reads(actions) + Claims(actions))
    decreases |actions|
  {
    hide Inv, Apply, Enabled, Ranks;
    if actions != [] {
      StepKeepsInv(s, actions[0]);
      StepRank(s, actions[0]);
      InnersBounded(Apply(s, actions[0]), actions[1..], s');
    }
  }

  /**
    In every clean run: the reads are bounded by the tasks produced, and the actions within turns by reads
    and claims. So a run can only go on while tasks are produced, workers crash, or entries are claimed.
   */
  lemma ActionsBounded(start: State, actions: seq<Action>, s: State)
    requires Initial(start) && Run(start, actions, s) && Clean(start, actions)
    ensures Reads(actions) <= (MAX_ATTEMPTS + 1) * STAGES * Produces(actions)
    ensures Inners(actions) <= 6 * (Reads(actions) + Claims(actions))
  {
    hide Clean, TasksIn, Reads, Claims, Inners, Ranks;
    InitialInv(start);
    InitialOnce(start);
    InitialOneEnd(start);
    InitialConserved(start);
    RunOneEnd(start, actions, s);
    RunConserved(start, actions, s);
    ReadsAreDelivered(start, actions, s);
    NothingDelivered(start);
    DeliveredBounded(s, STAGES);
    RanksAtRest(start.workers);
    InnersBounded(start, actions, s);
  }

  lemma NothingDelivered(s: State)
    requires Initial(s)
    ensures Delivered(s.streams, STAGES) == 0 && TasksIn(s.streams[0].log) == 0
  {
    assert forall k :: 0 <= k < STAGES ==> s.streams[k] == EMPTY_STREAM;
    var streams := s.streams;
    assert Delivered(streams, 1) == 0;
    assert Delivered(streams, 2) == 0;
    assert Delivered(streams, 3) == 0;
    assert Delivered(streams, 4) == 0;
  }

  // ----- every claim needs a worker that let go

  ghost function PendingPlaces(s: State): set<Place> {
    set k: nat, i: nat | k < |s.streams| && i in s.streams[k].pending :: Place(k, i)
  }

  ghost function Holding(s: State): set<nat> {
    set w: nat | w < |s.workers| && s.workers[w].phase != Idle
  }

  /** What a worker holds is pending. */
  ghost predicate HeldPending(s: State) {
    forall w :: 0 <= w < |s.workers| && s.workers[w].phase != Idle ==> PendingFor(s, s.workers[w])
  }

  ghost predicate PendingFor(s: State, worker: Worker) {
    worker.stage < |s.streams| && worker.entry in s.streams[worker.stage].pending
  }

  /** Only a read makes an entry pending, and only its acknowledgement lets go of it. */
  lemma PendingChange(s: State, a: Action, k: nat, i: nat)
    requires Inv(s) && Enabled(s, a) && k < STAGES
    ensures |Apply(s, a).streams| == STAGES
    ensures i in Apply(s, a).streams[k].pending <==>
      (i in s.streams[k].pending && !(a.Ack? && s.workers[a.w].stage == k && s.workers[a.w].entry == i))
      || (a.Read? && s.workers[a.w].stage == k && i == s.streams[k].delivered)
  {
    hide StreamOk, HoldsWell;
    DeliveredPending(s, k);
  }

  lemma DeliveredPending(s: State, k: nat)
    requires Inv(s) && k < STAGES
    ensures s.streams[k].delivered !in s.streams[k].pending
  {
    assert StreamOk(s.streams, k);
  }

  lemma StepHeldPending(s: State, a: Action)
    requires Inv(s) && Once(s) && HeldPending(s) && Enabled(s, a) && ClaimGuarded(s, a)
    ensures HeldPending(Apply(s, a))
  {
    SameWorkers(s, a);
    if !a.Produce? {
      WorkerChange(s, a);
    }
    var s' := Apply(s, a);
    forall w | 0 <= w < |s'.workers| && s'.workers[w].phase != Idle
      ensures PendingFor(s', s'.workers[w])
    {
      assert WorkerOk(s.streams, s.workers[w]);
      PendingChange(s, a, s'.workers[w].stage, s'.workers[w].entry);
      HeldStays(s, a, w);
    }
  }

  lemma HeldStays(s: State, a: Action, w: nat)
    requires Inv(s) && Once(s) && HeldPending(s) && Enabled(s, a) && w < |s.workers| && w < |Apply(s, a).workers|
    requires Apply(s, a).workers[w].phase != Idle
    ensures var worker' := Apply(s, a).workers[w];
      && worker'.stage < STAGES
      && (worker'.entry in s.streams[worker'.stage].pending
          || (a.Read? && s.workers[a.w].stage == worker'.stage && worker'.entry == s.streams[worker'.stage].delivered))
      && !(a.Ack? && s.workers[a.w].stage == worker'.stage && s.workers[a.w].entry == worker'.entry)
  {
    hide StreamOk, HoldsWell, StreamOnce, NotCopied, HandOn, PutBack;
    assert WorkerOk(s.streams, s.workers[w]);
    if !a.Produce? {
      WorkerChange(s, a);
      assert w != a.w ==> Apart(s.workers[w], s.workers[a.w]);
      assert s.workers[w].phase != Idle ==> PendingFor(s, s.workers[w]);
    }
  }

  lemma StepPending(s: State, a: Action)
    requires Inv(s) && HeldPending(s) && Enabled(s, a)
    ensures |PendingPlaces(Apply(s, a))| == |PendingPlaces(s)| + if a.Read? then 1 else if a.Ack? then -1 else 0
  {
    SameWorkers(s, a);
    AckHolds(s, a);
    if !a.Produce? {
      ReaderStage(s, a);
      DeliveredPending(s, s.workers[a.w].stage);
    }
    assert |s.streams| == STAGES;
    hide Apply, Inv, HeldPending, Enabled, PendingPlaces;
    var taken, left := Taken(s, a), Left(s, a);
    forall k: nat, i: nat | k < STAGES
      ensures i in Apply(s, a).streams[k].pending <==>
        (i in s.streams[k].pending && Place(k, i) !in left) || Place(k, i) in taken
    {
      PendingChange(s, a, k, i);
    }
    PlacesUpdate(s, Apply(s, a), taken, left);
  }

  /** What a read makes pending. */
  function Taken(s: State, a: Action): set<Place>
    requires Enabled(s, a)
  {
    if a.Read? then {Place(s.workers[a.w].stage, s.streams[s.workers[a.w].stage].delivered)} else {}
  }

  /** What an acknowledgement lets go of. */
  function Left(s: State, a: Action): set<Place>
    requires Enabled(s, a)
  {
    if a.Ack? then {Place(s.workers[a.w].stage, s.workers[a.w].entry)} else {}
  }

  lemma PlacesUpdate(s: State, s': State, taken: set<Place>, left: set<Place>)
    requires |s.streams| == |s'.streams|
    requires forall k: nat, i: nat :: k < |s.streams| ==>
               (i in s'.streams[k].pending <==> (i in s.streams[k].pending && Place(k, i) !in left) || Place(k, i) in taken)
    requires forall p :: p in taken ==> p.stage < |s.streams| && p.index !in s.streams[p.stage].pending
    requires forall p :: p in left ==> p.stage < |s.streams| && p.index in s.streams[p.stage].pending
    ensures |PendingPlaces(s')| == |PendingPlaces(s)| - |left| + |taken|
  {
    var rest := PendingPlaces(s) - left;
    assert PendingPlaces(s') == rest + taken;
    assert left <= PendingPlaces(s);
    assert rest !! taken;
  }

  lemma AckHolds(s: State, a: Action)
    requires Inv(s) && HeldPending(s) && Enabled(s, a)
    ensures a.Ack? ==> PendingFor(s, s.workers[a.w])
  {
  }

  lemma StepHolding(s: State, a: Action)
    requires Inv(s) && Enabled(s, a)
    ensures |Holding(Apply(s, a))| >= |Holding(s)| - if a.Ack? || a.Skip? || a.Crash? then 1 else 0
    ensures a.Read? || a.Claim? ==> |Holding(Apply(s, a))| == |Holding(s)| + 1
  {
    var s' := Apply(s, a);
    if a.Produce? {
      assert Holding(s') == Holding(s);
    } else {
      WorkerChange(s, a);
      Turning(s, a);
      hide Apply, Inv, Enabled;
      HoldingUpdate(s, s', a.w);
    }
  }

  lemma HoldingUpdate(s: State, s': State, w: nat)
    requires w < |s.workers| == |s'.workers| && s'.workers == s.workers[w := s'.workers[w]]
    ensures |Holding(s')| >= |Holding(s)| - if s'.workers[w].phase == Idle then 1 else 0
    ensures s.workers[w].phase == Idle && s'.workers[w].phase != Idle ==> |Holding(s')| == |Holding(s)| + 1
  {
    if s'.workers[w].phase == Idle {
      assert Holding(s') == Holding(s) - {w};
    } else {
      assert Holding(s') == Holding(s) + {w};
    }
  }

  lemma Turning(s: State, a: Action)
    requires Enabled(s, a) && !a.Produce?
    ensures a.w < |Apply(s, a).workers|
    ensures Apply(s, a).workers[a.w].phase == Idle <==> a.Ack? || a.Skip? || a.Crash?
    ensures s.workers[a.w].phase == Idle && !a.Crash? ==> a.Read? || a.Claim?
    ensures a.Read? || a.Claim? ==> s.workers[a.w].phase == Idle
  {
    hide HandOn, PutBack;
  }

  /** The pending entries that no worker holds are as many as were let go and not claimed since. */
  lemma {:induction false} PendingBalance(s: State, actions: seq<Action>, s': State)
    requires Inv(s) && Once(s) && HeldPending(s) && Run(s, actions, s') && Guarded(s, actions)
    ensures Inv(s') && Once(s') && HeldPending(s')
    ensures |PendingPlaces(s')| - |Holding(s')| + Claims(actions)
         <= |PendingPlaces(s)| - |Holding(s)| + Crashes(actions) + Skips(actions)
    decreases |actions|
  {
    hide Inv, Once, HeldPending, Apply, Enabled, ClaimGuarded, PendingPlaces, Holding;
    if actions != [] {
      StepKeepsInv(s, actions[0]);
      StepOnce(s, actions[0]);
      StepHeldPending(s, actions[0]);
      StepPending(s, actions[0]);
      StepHolding(s, actions[0]);
      PendingBalance(Apply(s, actions[0]), actions[1..], s');
    }
  }

  lemma HoldingIsPending(s: State)
    requires Inv(s) && Once(s) && HeldPending(s)
    ensures |Holding(s)| <= |PendingPlaces(s)|
  {
    var place := (w: nat) => if w < |s.workers| then Place(s.workers[w].stage, s.workers[w].entry) else Place(0, 0);
    forall w | w in Holding(s)
      ensures place(w) in PendingPlaces(s)
    {
      assert PendingFor(s, s.workers[w]);
    }
    forall v, w | v in Holding(s) && w in Holding(s) && place(v) == place(w)
      ensures v == w
    {
      assert v != w ==> Apart(s.workers[v], s.workers[w]);
    }
    InjectionSize(Holding(s), PendingPlaces(s), place);
  }

  /** With guarded claims every claim needs a crash or an acknowledgement that was skipped before it. */
  lemma ClaimsBounded(start: State, actions: seq<Action>, s: State)
    requires Initial(start) && Run(start, actions, s) && Guarded(start, actions)
    ensures Claims(actions) <= Crashes(actions) + Skips(actions)
  {
    InitialInv(start);
    InitialOnce(start);
    NonePendingAtStart(start);
    PendingBalance(start, actions, s);
    HoldingIsPending(s);
  }

  lemma NonePendingAtStart(s: State)
    requires Initial(s)
    ensures PendingPlaces(s) == {} && Holding(s) == {} && HeldPending(s)
  {
    assert forall k :: 0 <= k < STAGES ==> s.streams[k] == EMPTY_STREAM;
  }

  // ----- never stuck

  /** There is a worker at every stage. */
  ghost predicate Staffed(s: State) {
    forall k: nat :: k < STAGES ==> StaffedAt(s, k)
  }

  ghost predicate StaffedAt(s: State, k: nat) {
    exists w: nat :: WorksAt(s, w, k)
  }

  ghost predicate WorksAt(s: State, w: nat, k: nat) {
    w < |s.workers| && s.workers[w].stage == k
  }

  ghost predicate AllIdle(s: State) {
    forall w :: 0 <= w < |s.workers| ==> s.workers[w].phase == Idle
  }

  /** Nothing is left to do: every worker is idle, every entry has been read and none is pending. */
  ghost predicate Quiet(s: State) {
    AllIdle(s) && forall k :: 0 <= k < |s.streams| ==> Finished(s.streams[k])
  }

  ghost predicate Finished(st: Stream) {
    st.delivered == |st.log| && st.pending == {}
  }

  /** No new task, and nothing goes wrong: an acknowledgement is left out only where the flag asks for none. */
  predicate Faultless(s: State, a: Action)
    requires Enabled(s, a)
  {
    && !a.Produce? && !a.Crash? && !a.Fail? && !a.RequeueRaises?
    && (a.Skip? ==> s.workers[a.w].phase == Finalizing(false))
  }

  /** What a worker does next when nothing goes wrong. */
  function NextAction(w: nat, phase: Phase): Action
    requires phase != Idle
  {
    match phase
    case Running => Complete(w)
    case HandedOff => SetAck(w)
    case Done => Finish(w)
    case Handling(_) => Requeue(w)
    case Requeued(_) => RequeueReturns(w)
    case Finalizing(shouldAck) => if shouldAck then Ack(w) else Skip(w)
  }

  lemma NextEnabled(s: State, w: nat)
    requires Inv(s) && w < |s.workers| && s.workers[w].phase != Idle
    ensures var a := NextAction(w, s.workers[w].phase); Enabled(s, a) && Faultless(s, a)
  {
    ShapedByInv(s);
    hide Inv, Shaped;
  }

  /** What an idle worker can take from a stream that is not finished: a new entry, else a pending one. */
  lemma CanTakeOne(s: State, w: nat) returns (a: Action)
    requires Inv(s) && w < |s.workers| && s.workers[w].phase == Idle
    requires s.workers[w].stage < |s.streams| && !Finished(s.streams[s.workers[w].stage])
    ensures Enabled(s, a) && Faultless(s, a)
    ensures var st := s.streams[s.workers[w].stage];
      a == Read(w) || (st.delivered == |st.log| && exists i: nat :: i in st.pending && a == Claim(w, i))
  {
    var k := s.workers[w].stage;
    ShapedByInv(s);
    DeliveredWithin(s);
    var st := s.streams[k];
    if st.delivered < |st.log| {
      a := Read(w);
    } else {
      var i :| i in st.pending;
      ClaimedDelivered(s, k, i);
      a := Claim(w, i);
    }
    hide Inv, Shaped;
  }

  /** In no state is the queue stuck: while it is not at rest, some worker can go on without anything going wrong. */
  lemma GoesOn(s: State) returns (a: Action)
    requires Inv(s) && Staffed(s) && !Quiet(s)
    ensures Enabled(s, a) && Faultless(s, a)
    ensures a.Claim? ==> AllIdle(s) && s.workers[a.w].stage < |s.streams| && a.i in s.streams[s.workers[a.w].stage].pending
  {
    assert |s.streams| == STAGES;
    hide Inv, Finished, Enabled;
    if w :| 0 <= w < |s.workers| && s.workers[w].phase != Idle {
      a := NextAction(w, s.workers[w].phase);
      NextEnabled(s, w);
    } else {
      var k :| 0 <= k < STAGES && !Finished(s.streams[k]);
      assert StaffedAt(s, k);
      var w: nat :| WorksAt(s, w, k);
      a := CanTakeOne(s, w);
    }
  }

  lemma NeverStuck(s: State)
    requires Inv(s) && Staffed(s) && !Quiet(s)
    ensures exists a :: Enabled(s, a) && Faultless(s, a)
  {
    hide Inv, Staffed, Quiet, Enabled, Faultless;
    var a := GoesOn(s);
  }

  lemma StepStaffed(s: State, a: Action)
    requires Inv(s) && Enabled(s, a) && Staffed(s)
    ensures Staffed(Apply(s, a))
  {
    SameWorkers(s, a);
    if !a.Produce? {
      WorkerChange(s, a);
    }
    var s' := Apply(s, a);
    hide Apply, Inv, Enabled;
    forall k: nat | k < STAGES
      ensures StaffedAt(s', k)
    {
      assert StaffedAt(s, k);
      var w: nat :| WorksAt(s, w, k);
      assert WorksAt(s', w, k);
    }
  }

  lemma {:induction false} RunStaffed(s: State, actions: seq<Action>, s': State)
    requires Inv(s) && Run(s, actions, s') && Staffed(s)
    ensures Staffed(s')
    decreases |actions|
  {
    hide Inv, Apply, Enabled, Staffed;
    if actions != [] {
      StepKeepsInv(s, actions[0]);
      StepStaffed(s, actions[0]);
      RunStaffed(Apply(s, actions[0]), actions[1..], s');
    }
  }

  // ----- runs in which only handlers fail

  /** No crash, no take-over, no failed acknowledgement or requeue, and no failure after the hand-off. */
  predicate Smooth(s: State, a: Action)
    requires Enabled(s, a)
  {
    && !a.Crash? && !a.Claim? && !a.Skip? && !a.RequeueRaises?
    && (a.Fail? ==> s.workers[a.w].phase == Running)
  }

  ghost predicate Undisturbed(s: State, actions: seq<Action>)
    decreases |actions|
  {
    actions != [] && Enabled(s, actions[0]) ==>
      Smooth(s, actions[0]) && Undisturbed(Apply(s, actions[0]), actions[1..])
  }

  /** A worker will acknowledge, and has not finished what it is about to requeue. */
  ghost predicate Straight(s: State) {
    forall w :: 0 <= w < |s.workers| ==> StraightWorker(s.streams, s.workers[w])
  }

  ghost predicate StraightWorker(streams: seq<Stream>, worker: Worker) {
    && worker.phase != Finalizing(false)
    && worker.stage < |streams|
    && (worker.phase.Handling? ==> worker.entry !in streams[worker.stage].completed)
  }

  lemma StepStraight(s: State, a: Action, w: nat)
    requires Inv(s) && Once(s) && RunningUnfinished(s) && Straight(s) && Enabled(s, a) && Smooth(s, a) && w < |s.workers|
    ensures w < |Apply(s, a).workers| && StraightWorker(Apply(s, a).streams, Apply(s, a).workers[w])
  {
    hide StreamOk, StreamOnce, NotCopied, HandOn, PutBack;
    SameWorkers(s, a);
    var worker := s.workers[w];
    assert WorkerOk(s.streams, worker) && NotCompleted(s.streams, worker) && StraightWorker(s.streams, worker);
    CompletedChange(s, a, worker.stage);
    if !a.Produce? {
      assert w != a.w ==> Apart(worker, s.workers[a.w]);
      WorkerChange(s, a);
    }
  }

  lemma SmoothIsClean(s: State, a: Action)
    requires Straight(s) && Enabled(s, a) && Smooth(s, a)
    ensures ClaimGuarded(s, a) && !LateRequeue(s, a)
  {
    if a.Requeue? {
      assert StraightWorker(s.streams, s.workers[a.w]);
    }
  }

  lemma {:induction false} UndisturbedIsClean(s: State, actions: seq<Action>, s': State)
    requires Inv(s) && Once(s) && OneEnd(s) && Straight(s) && Run(s, actions, s') && Undisturbed(s, actions)
    ensures Clean(s, actions) && Straight(s')
    ensures Crashes(actions) == Claims(actions) == Skips(actions) == 0
    decreases |actions|
  {
    if actions != [] {
      var a, next := actions[0], Apply(s, actions[0]);
      SmoothIsClean(s, a);
      StepKeepsInv(s, a);
      StepOnce(s, a);
      StepOneEnd(s, a);
      SameWorkers(s, a);
      assert Straight(next) by {
        hide Inv, Once, Apply, Enabled, Smooth, StraightWorker;
        forall w | 0 <= w < |next.workers|
          ensures StraightWorker(next.streams, next.workers[w])
        {
          StepStraight(s, a, w);
        }
      }
      hide Inv, Once, OneEnd, Straight, ClaimGuarded, LateRequeue, Apply;
      UndisturbedIsClean(next, actions[1..], s');
    }
  }

  lemma InitialStraight(s: State)
    requires Initial(s)
    ensures Straight(s)
  {
  }

  /** At rest every entry is acknowledged and every task has ended. */
  lemma QuietEnds(s: State)
    requires Inv(s) && Quiet(s)
    ensures forall k, i: nat :: 0 <= k < STAGES && i < |s.streams[k].log| ==> i in s.streams[k].acked
    ensures forall k :: 0 <= k < STAGES ==> Unended(s.streams[k]) == {}
  {
    forall k, i: nat | 0 <= k < STAGES && i < |s.streams[k].log|
      ensures i in s.streams[k].acked && i !in Unended(s.streams[k])
    {
      assert StreamOk(s.streams, k) && Finished(s.streams[k]);
      assert Evidence(s.streams[k], i);
    }
    forall k | 0 <= k < STAGES
      ensures Unended(s.streams[k]) == {}
    {
      assert forall i: nat :: i !in Unended(s.streams[k]);
    }
  }

  /** The dead letters of the first `n` stages. */
  function DeadLetters(streams: seq<Stream>, n: nat): nat
    requires n <= |streams|
  {
    if n == 0 then 0 else DeadLetters(streams, n - 1) + |streams[n - 1].dlq|
  }

  lemma {:induction false} DeadLettersLeft(streams: seq<Stream>, n: nat)
    requires n <= |streams| && forall k :: 0 <= k < |streams| ==> Unended(streams[k]) == {}
    ensures NotThrough(streams, n) == DeadLetters(streams, n)
  {
    hide Unended;
    if n > 0 {
      DeadLettersLeft(streams, n - 1);
    }
  }

  /** Every task has passed the last stage or is in a dead-letter stream. */
  ghost predicate AllEnded(s: State, produced: nat) {
    && |s.streams| == STAGES
    && (forall k :: 0 <= k < STAGES ==> Unended(s.streams[k]) == {})
    && produced == |s.streams[STAGES - 1].completed| + DeadLetters(s.streams, STAGES)
  }

  /** With nothing unended, the balance of a clean run says that every task has ended. */
  lemma NothingOpen(start: State, actions: seq<Action>, s: State)
    requires Initial(start) && Run(start, actions, s) && Clean(start, actions) && |s.streams| == STAGES
    requires forall k :: 0 <= k < STAGES ==> Unended(s.streams[k]) == {}
    ensures AllEnded(s, Produces(actions))
  {
    hide Initial, Run, Clean, Unended, NotThrough, DeadLetters;
    TasksConserved(start, actions, s);
    DeadLettersLeft(s.streams, STAGES);
  }

  /** What is known of a run in which only handlers fail. */
  lemma UndisturbedFacts(start: State, actions: seq<Action>, s: State)
    requires Initial(start) && Run(start, actions, s) && Undisturbed(start, actions)
    ensures Inv(s) && Clean(start, actions) && Claims(actions) == 0
    ensures |PendingPlaces(s)| <= |Holding(s)|
    ensures forall w :: 0 <= w < |s.workers| ==> s.workers[w].phase != Finalizing(false)
  {
    InitialInv(start);
    InitialOnce(start);
    InitialOneEnd(start);
    InitialStraight(start);
    UndisturbedIsClean(start, actions, s);
    assert forall w :: 0 <= w < |s.workers| ==> StraightWorker(s.streams, s.workers[w]);
    CleanIsGuarded(start, actions, s);
    NonePendingAtStart(start);
    hide Inv, Once, OneEnd, HeldPending, Clean, Undisturbed, PendingPlaces, Holding, Initial, Run, Guarded;
    PendingBalance(start, actions, s);
  }

  /** Without claims a run of failing handlers can go on until it is at rest. */
  lemma SmoothlyOn(s: State)
    requires Inv(s) && Staffed(s) && !Quiet(s) && |PendingPlaces(s)| <= |Holding(s)|
    requires forall w :: 0 <= w < |s.workers| ==> s.workers[w].phase != Finalizing(false)
    ensures exists a :: Enabled(s, a) && Faultless(s, a) && Smooth(s, a)
  {
    var a := GoesOn(s);
    hide Inv, Staffed, Quiet;
    if a.Claim? {
      NothingUnheld(s, s.workers[a.w].stage, a.i);
    }
  }

  lemma NothingUnheld(s: State, k: nat, i: nat)
    requires AllIdle(s) && |PendingPlaces(s)| <= |Holding(s)| && k < |s.streams|
    ensures i !in s.streams[k].pending
  {
    assert Holding(s) == {};
    assert Place(k, i) !in PendingPlaces(s);
  }

  /** How many actions a run of failing handlers has. */
  lemma FewActions(start: State, actions: seq<Action>, s: State)
    requires Initial(start) && Run(start, actions, s) && Clean(start, actions)
    ensures |actions| <= (1 + 7 * ((MAX_ATTEMPTS + 1) * STAGES)) * Produces(actions) + 7 * Claims(actions) + Crashes(actions)
  {
    hide Initial, Run, Clean, Reads, Claims, Inners, Produces, Crashes;
    ActionsBounded(start, actions, s);
    EveryActionCounted(actions);
  }

  /**
    Runs in which handlers fail at will but nothing else goes wrong, with a worker at every stage: they have at
    most 141 actions per task produced; they can always go on until the queue is at rest; and at rest every
    entry is acknowledged, and every task has passed the last stage or is in a dead-letter stream.
   */
  lemma AllTasksEnd(start: State, actions: seq<Action>, s: State)
    requires Initial(start) && Staffed(start) && Run(start, actions, s) && Undisturbed(start, actions)
    ensures |actions| <= 141 * Produces(actions)
    ensures Quiet(s) || exists a :: Enabled(s, a) && Faultless(s, a) && Smooth(s, a)
    ensures Quiet(s) ==> AllEnded(s, Produces(actions))
    ensures Quiet(s) ==> forall k, i: nat :: 0 <= k < STAGES && i < |s.streams[k].log| ==> i in s.streams[k].acked
  {
    InitialInv(start);
    assert |s.streams| == STAGES by { RunKeepsInv(start, actions, s); }
    hide Inv, Staffed, Quiet, Clean, Undisturbed, PendingPlaces, Holding, Initial, Unended, Run, Enabled, Faultless, Smooth,
      Produces, Crashes, Claims, AllEnded;
    UndisturbedFacts(start, actions, s);
    UndisturbedCrashes(start, actions, s);
    FewActions(start, actions, s);
    RunStaffed(start, actions, s);
    if Quiet(s) {
      QuietEnds(s);
      NothingOpen(start, actions, s);
    } else {
      SmoothlyOn(s);
    }
  }

  lemma {:induction false} UndisturbedCrashes(s: State, actions: seq<Action>, s': State)
    requires Run(s, actions, s') && Undisturbed(s, actions)
    ensures Crashes(actions) == 0
    decreases |actions|
  {
    hide Apply, Enabled;
    if actions != [] {
      UndisturbedCrashes(Apply(s, actions[0]), actions[1..], s');
    }
  }

  lemma {:induction false} CleanIsNotLate(s: State, actions: seq<Action>, s': State, k: nat, event: nat)
    requires Run(s, actions, s') && Clean(s, actions)
    ensures !RequeuedLate(s, actions, k, event)
    decreases |actions|
  {
    hide Apply, Enabled, ClaimGuarded, LateRequeue;
    if actions != [] {
      CleanIsNotLate(Apply(s, actions[0]), actions[1..], s', k, event);
    }
  }

  /** In such a run each task of each stage has, at rest, one success or one dead letter, and not both. */
  lemma TaskEndsOnce(start: State, actions: seq<Action>, s: State, k: nat, i: nat)
    requires Initial(start) && Staffed(start) && Run(start, actions, s) && Undisturbed(start, actions) && Quiet(s)
    requires k < |s.streams| && i < |s.streams[k].log|
    ensures var event := s.streams[k].log[i].event;
      |SuccessesOf(s.streams[k], event)| + |DeadLettersOf(s.streams[k], event)| == 1
  {
    AllTasksEnd(start, actions, s);
    InitialInv(start);
    InitialOnce(start);
    InitialOneEnd(start);
    InitialStraight(start);
    UndisturbedIsClean(start, actions, s);
    CleanIsGuarded(start, actions, s);
    var event := s.streams[k].log[i].event;
    CleanIsNotLate(start, actions, s, k, event);
    hide Inv, Once, OneEnd, Staffed, Quiet, Straight, Clean, Guarded, Undisturbed, Initial, RequeuedLate;
    OneSuccessOrOneDeadLetter(start, actions, s, k, event);
  }
}
