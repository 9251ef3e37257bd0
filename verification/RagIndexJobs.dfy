/**
  The manager of background index builds. Every locked region is one atomic action; callers and
  worker threads interleave at will. A start while a build is going on joins it, the table of
  jobs is trimmed oldest first and never exceeds its limit, and no unfinished job is trimmed.
 */
module RagIndexJobs {
  import opened Options
  import opened Sorting

  datatype Status = Queued | Running | Completed | Failed

  predicate Terminal(s: Status) {
    s.Completed? || s.Failed?
  }

  type JobId = nat

  /** One row per meeting, with the status of its build; `created` is the creation time. */
  datatype Job = Job(status: Status, created: int, rows: seq<Status>)

  /** Where the worker of a job stands: between rows, inside a row, or cleaning up. */
  datatype Thread = Spawned | AtRow(row: nat) | InRow(row: nat) | Finishing

  /** `order` is the order in which the dictionary of jobs was filled, `used` all identifiers ever given out. */
  datatype Manager = Manager(max: nat, jobs: map<JobId, Job>, order: seq<JobId>, active: Option<JobId>,
                             latest: Option<JobId>, threads: map<JobId, Thread>, used: set<JobId>)

  /** The limit is never below four, whatever the caller asks for. */
  function NoJobs(maxJobs: int): Manager {
    Manager(if maxJobs < 4 then 4 else maxJobs, map[], [], None, None, map[], {})
  }

  datatype Action =
    | Start(id: JobId, rows: nat, created: int)
    | Begin(id: JobId)
    | TakeRow(id: JobId)
    | EndRow(id: JobId, ok: bool)
    | Complete(id: JobId)
    | Abort(id: JobId)
    | Release(id: JobId)

  predicate Busy(m: Manager) {
    m.active.Some? && m.active.value in m.jobs && !Terminal(m.jobs[m.active.value].status)
  }

  predicate AllFailed(rows: seq<Status>) {
    rows != [] && forall i :: 0 <= i < |rows| ==> rows[i] == Failed
  }

  predicate WorkerAt(m: Manager, id: JobId) {
    id in m.threads && id in m.jobs
  }

  predicate Enabled(m: Manager, a: Action) {
    match a
    case Start(id, rows, _) => id !in m.used && rows >= 1
    case Begin(id) => WorkerAt(m, id) && m.threads[id] == Spawned
    case TakeRow(id) => WorkerAt(m, id) && m.threads[id].AtRow? && m.threads[id].row < |m.jobs[id].rows|
    case EndRow(id, _) => WorkerAt(m, id) && m.threads[id].InRow? && m.threads[id].row < |m.jobs[id].rows|
    case Complete(id) => WorkerAt(m, id) && m.threads[id].AtRow? && m.threads[id].row == |m.jobs[id].rows|
    case Abort(id) => WorkerAt(m, id) && (m.threads[id].AtRow? || m.threads[id].InRow?)
    case Release(id) => id in m.threads && m.threads[id] == Finishing
  }

  // ----- trimming

  predicate Removable(m: Manager, id: JobId) {
    id in m.jobs && m.active != Some(id) && Terminal(m.jobs[id].status)
  }

  function RemovableIds(m: Manager, order: seq<JobId>): seq<JobId> {
    if order == [] then []
    else (if Removable(m, order[0]) then [order[0]] else []) + RemovableIds(m, order[1..])
  }

  function Age(jobs: map<JobId, Job>): JobId -> real {
    id => if id in jobs then -(jobs[id].created as real) else 0.0
  }

  /** Oldest first; equal times in the order of the dictionary. */
  function OldestFirst(m: Manager): seq<JobId> {
    SortDesc(RemovableIds(m, m.order), Age(m.jobs))
  }

  function Without(order: seq<JobId>, id: JobId): seq<JobId> {
    if order == [] then []
    else (if order[0] == id then [] else [order[0]]) + Without(order[1..], id)
  }

  function Drop(m: Manager, id: JobId): Manager {
    m.(jobs := m.jobs - {id}, order := Without(m.order, id), latest := if m.latest == Some(id) then None else m.latest)
  }

  function TrimWith(m: Manager, removable: seq<JobId>): Manager
    decreases |removable|
  {
    if |m.jobs| <= m.max || removable == [] then m else TrimWith(Drop(m, removable[0]), removable[1..])
  }

  function Trim(m: Manager): Manager {
    TrimWith(m, OldestFirst(m))
  }

  // ----- the actions

  /** A new job, before the table is trimmed. */
  function Admit(m: Manager, id: JobId, rows: nat, created: int): Manager {
    m.(jobs := m.jobs[id := Job(Queued, created, seq(rows, _ => Queued))], order := m.order + [id],
       active := Some(id), latest := Some(id), threads := m.threads[id := Spawned], used := m.used + {id})
  }

  function Retire(m: Manager, id: JobId): Manager {
    m.(active := if m.active == Some(id) then None else m.active, threads := m.threads - {id})
  }

  function Advance(m: Manager, id: JobId, job: Job, thread: Thread): Manager {
    m.(jobs := m.jobs[id := job], threads := m.threads[id := thread])
  }

  function Apply(m: Manager, a: Action): Manager
    requires Enabled(m, a)
  {
    match a
    case Start(id, rows, created) => if Busy(m) then m else Trim(Admit(m, id, rows, created))
    case Begin(id) => Advance(m, id, m.jobs[id].(status := Running), AtRow(0))
    case TakeRow(id) =>
      var i := m.threads[id].row;
      Advance(m, id, m.jobs[id].(rows := m.jobs[id].rows[i := Running]), InRow(i))
    case EndRow(id, ok) =>
      var i := m.threads[id].row;
      Advance(m, id, m.jobs[id].(rows := m.jobs[id].rows[i := if ok then Completed else Failed]), AtRow(i + 1))
    case Complete(id) =>
      Advance(m, id, m.jobs[id].(status := if AllFailed(m.jobs[id].rows) then Failed else Completed), Finishing)
    case Abort(id) => Advance(m, id, m.jobs[id].(status := Failed), Finishing)
    case Release(id) => Trim(Retire(m, id))
  }

  // ----- the invariant

  ghost predicate RowsDone(rows: seq<Status>, n: nat) {
    n <= |rows| && forall i :: 0 <= i < n ==> Terminal(rows[i])
  }

  /** How far a worker has come agrees with the statuses it has written. */
  ghost predicate Progress(job: Job, thread: Thread) {
    match thread
    case Spawned => job.status == Queued
    case AtRow(i) => job.status == Running && RowsDone(job.rows, i)
    case InRow(i) => job.status == Running && i < |job.rows| && RowsDone(job.rows, i)
    case Finishing => Terminal(job.status)
  }

  /** A completed job has finished every meeting, not all of them in failure. */
  ghost predicate Settled(job: Job) {
    job.rows != [] && (job.status == Completed ==> RowsDone(job.rows, |job.rows|) && !AllFailed(job.rows))
  }

  ghost predicate JobSound(job: Job, isActive: bool, thread: Option<Thread>) {
    && Settled(job)
    && (thread.Some? ==> Progress(job, thread.value))
    && (!Terminal(job.status) ==> isActive && thread.Some?)
  }

  function ThreadOf(m: Manager, id: JobId): Option<Thread> {
    if id in m.threads then Some(m.threads[id]) else None
  }

  /** Everything but the size of the table. */
  ghost predicate Sound(m: Manager) {
    && m.max >= 4
    && (forall id :: id in m.order <==> id in m.jobs)
    && (forall id :: id in m.jobs || id in m.threads ==> id in m.used)
    && (m.active.Some? ==> m.active.value in m.threads && m.active.value in m.jobs)
    && (forall id :: id in m.threads && m.threads[id] != Finishing ==> id in m.jobs)
    && (forall id :: id in m.jobs ==> JobSound(m.jobs[id], m.active == Some(id), ThreadOf(m, id)))
  }

  /** The latest job is in the table, and the active job, if any, is the latest. */
  ghost predicate LatestKept(m: Manager) {
    && (m.active.Some? ==> m.active == m.latest)
    && (m.latest.Some? ==> m.latest.value in m.jobs)
    && (m.latest.None? ==> m.jobs == map[])
  }

  ghost predicate Inv(m: Manager) {
    Sound(m) && LatestKept(m) && |m.jobs| <= m.max
  }

  lemma {:induction false} RemovableIdsExact(m: Manager, order: seq<JobId>)
    ensures forall id :: id in RemovableIds(m, order) <==> id in order && Removable(m, id)
  {
    if order != [] {
      RemovableIdsExact(m, order[1..]);
      assert order == [order[0]] + order[1..];
    }
  }

  lemma {:induction false} WithoutExact(order: seq<JobId>, id: JobId)
    ensures forall x :: x in Without(order, id) <==> x in order && x != id
  {
    if order != [] {
      WithoutExact(order[1..], id);
      assert order == [order[0]] + order[1..];
    }
  }

  /** The first job to go is removable, and none that could go is older. */
  lemma OldestIsOldest(m: Manager)
    requires RemovableIds(m, m.order) != []
    ensures var victims := OldestFirst(m);
      && victims != [] && victims[0] in m.order && Removable(m, victims[0])
      && forall id :: id in m.order && Removable(m, id) ==> m.jobs[victims[0]].created <= m.jobs[id].created
  {
    var key := Age(m.jobs);
    var ids, victims := RemovableIds(m, m.order), OldestFirst(m);
    RemovableIdsExact(m, m.order);
    SortDescArranges(ids, key);
    ArrangementIsPermutation(ids, victims, key);
    SameElements(ids, victims);
    assert victims[0] in ids;
    hide RemovableIds, OldestFirst, Age;
    forall id | id in m.order && Removable(m, id)
      ensures m.jobs[victims[0]].created <= m.jobs[id].created
    {
      FirstIsGreatest(victims, key, id);
      OlderFirst(m.jobs, victims[0], id);
    }
  }

  lemma OlderFirst(jobs: map<JobId, Job>, x: JobId, y: JobId)
    requires x in jobs && y in jobs && Age(jobs)(x) >= Age(jobs)(y)
    ensures jobs[x].created <= jobs[y].created
  {
  }

  lemma SameElements(ids: seq<JobId>, victims: seq<JobId>)
    requires multiset(ids) == multiset(victims) && ids != []
    ensures victims != [] && forall id :: id in ids <==> id in victims
  {
    forall id
      ensures id in ids <==> id in victims
    {
      assert id in multiset(ids) <==> id in multiset(victims);
    }
    assert ids[0] in victims;
  }

  lemma FirstIsGreatest(victims: seq<JobId>, key: JobId -> real, id: JobId)
    requires id in victims && Descending(victims, key)
    ensures key(victims[0]) >= key(id)
  {
    var j :| 0 <= j < |victims| && victims[j] == id;
  }

  lemma SomeOther(ids: set<JobId>, x: Option<JobId>)
    requires |ids| >= 2
    ensures exists id :: id in ids && x != Some(id)
  {
    if x.Some? {
      var rest := ids - {x.value};
      assert rest != {} by { if rest == {} { SubsetOfOne(ids, x.value); } }
      var id :| id in rest;
    } else {
      var id :| id in ids;
    }
  }

  lemma SubsetOfOne(ids: set<JobId>, x: JobId)
    requires ids <= {x}
    ensures |ids| <= 1
  {
    assert ids == {x} || ids == {};
  }

  lemma UnfinishedIsActive(m: Manager, id: JobId)
    requires Sound(m) && id in m.jobs
    ensures !Terminal(m.jobs[id].status) ==> m.active == Some(id) && id in m.threads
    ensures Terminal(m.jobs[id].status) && id in m.threads ==> m.threads[id] == Finishing
  {
    assert JobSound(m.jobs[id], m.active == Some(id), ThreadOf(m, id));
  }

  /** With one job too many, trimming removes exactly one: the oldest finished job that is not active. */
  lemma TrimOne(m: Manager) returns (id: JobId)
    requires Sound(m) && |m.jobs| == m.max + 1
    ensures Removable(m, id) && Trim(m) == Drop(m, id)
    ensures forall other :: Removable(m, other) ==> m.jobs[id].created <= m.jobs[other].created
  {
    hide JobSound;
    hide SortDesc;
    SomeOther(m.jobs.Keys, m.active);
    var other :| other in m.jobs.Keys && m.active != Some(other);
    UnfinishedIsActive(m, other);
    RemovableIdsExact(m, m.order);
    assert other in RemovableIds(m, m.order);
    OldestIsOldest(m);
    var victims := OldestFirst(m);
    id := victims[0];
    var m' := Drop(m, id);
    assert |m'.jobs| == m.max by { assert m'.jobs.Keys == m.jobs.Keys - {id}; }
    var trimmed := Trim(m);
    assert trimmed == TrimWith(m', victims[1..]) == m';
  }

  lemma DropSound(m: Manager, id: JobId)
    requires Sound(m) && Removable(m, id)
    ensures Sound(Drop(m, id))
    ensures |Drop(m, id).jobs| == |m.jobs| - 1
  {
    hide JobSound, Without;
    WithoutExact(m.order, id);
    UnfinishedIsActive(m, id);
    var m' := Drop(m, id);
    assert m'.jobs.Keys == m.jobs.Keys - {id};
    forall j | j in m'.jobs
      ensures JobSound(m'.jobs[j], m'.active == Some(j), ThreadOf(m', j))
    {
      assert j in m.jobs;
    }
  }

  /** Trimming restores the limit and keeps every unfinished job and the active one. */
  lemma TrimKeeps(m: Manager)
    requires Sound(m) && LatestKept(m) && |m.jobs| <= m.max + if m.active.Some? then 1 else 0
    ensures Inv(Trim(m)) && Trim(m).active == m.active && Trim(m).threads == m.threads && Trim(m).latest == m.latest
    ensures forall id :: id in Trim(m).jobs ==> id in m.jobs && Trim(m).jobs[id] == m.jobs[id]
    ensures forall id :: id in m.jobs && id !in Trim(m).jobs ==> Removable(m, id)
    ensures forall id, other :: id in m.jobs && id !in Trim(m).jobs && Removable(m, other) ==>
              m.jobs[id].created <= m.jobs[other].created
    ensures |m.jobs| <= m.max ==> Trim(m) == m
  {
    hide JobSound, OldestFirst;
    if |m.jobs| == m.max + 1 {
      var id := TrimOne(m);
      DropSound(m, id);
    }
  }

  // ----- one action

  lemma AdmitSound(m: Manager, id: JobId, rows: nat, created: int)
    requires Inv(m) && !Busy(m) && Enabled(m, Start(id, rows, created))
    ensures Sound(Admit(m, id, rows, created)) && LatestKept(Admit(m, id, rows, created))
    ensures |Admit(m, id, rows, created).jobs| <= m.max + 1
  {
    var m' := Admit(m, id, rows, created);
    assert m'.jobs.Keys == m.jobs.Keys + {id};
    forall j | j in m'.jobs
      ensures JobSound(m'.jobs[j], m'.active == Some(j), ThreadOf(m', j))
    {
      if j != id {
        UnfinishedIsActive(m, j);
        assert JobSound(m.jobs[j], m.active == Some(j), ThreadOf(m, j));
      }
    }
  }

  lemma RetireSound(m: Manager, id: JobId)
    requires Inv(m) && Enabled(m, Release(id))
    ensures Sound(Retire(m, id)) && LatestKept(Retire(m, id)) && |Retire(m, id).jobs| <= m.max
  {
    var m' := Retire(m, id);
    forall j | j in m'.jobs
      ensures JobSound(m'.jobs[j], m'.active == Some(j), ThreadOf(m', j))
    {
      assert JobSound(m.jobs[j], m.active == Some(j), ThreadOf(m, j));
    }
  }

  lemma AdvanceSound(m: Manager, id: JobId, job: Job, thread: Thread)
    requires Inv(m) && WorkerAt(m, id) && m.threads[id] != Finishing
    requires Settled(job) && Progress(job, thread)
    ensures Inv(Advance(m, id, job, thread)) && m.active == Some(id)
  {
    hide Settled, Progress, RowsDone, AllFailed;
    var m' := Advance(m, id, job, thread);
    UnfinishedIsActive(m, id);
    assert m'.jobs.Keys == m.jobs.Keys;
    forall j | j in m'.jobs
      ensures JobSound(m'.jobs[j], m'.active == Some(j), ThreadOf(m', j))
    {
      assert JobSound(m.jobs[j], m.active == Some(j), ThreadOf(m, j));
    }
  }

  /** The job a worker's action leaves behind is as far as its thread. */
  lemma WorkerStepFits(m: Manager, a: Action) returns (id: JobId, job: Job, thread: Thread)
    requires Inv(m) && Enabled(m, a) && !a.Start? && !a.Release?
    ensures WorkerAt(m, id) && m.threads[id] != Finishing && Apply(m, a) == Advance(m, id, job, thread)
    ensures Settled(job) && Progress(job, thread)
    ensures !Terminal(m.jobs[id].status)
  {
    hide Sound;
    id := a.id;
    UnfinishedAt(m, id);
    var m' := Apply(m, a);
    job, thread := m'.jobs[id], m'.threads[id];
  }

  lemma UnfinishedAt(m: Manager, id: JobId)
    requires Inv(m) && WorkerAt(m, id)
    ensures Settled(m.jobs[id]) && Progress(m.jobs[id], m.threads[id])
  {
    assert JobSound(m.jobs[id], m.active == Some(id), ThreadOf(m, id));
  }

  lemma StepKeepsInv(m: Manager, a: Action)
    requires Inv(m) && Enabled(m, a)
    ensures Inv(Apply(m, a))
  {
    hide Sound, Trim, Admit, Retire, Advance;
    match a
    case Start(id, rows, created) =>
      if !Busy(m) {
        AdmitSound(m, id, rows, created);
        var grown := Admit(m, id, rows, created);
        AdmitKeepsMax(m, id, rows, created);
        TrimKeeps(grown);
      }
    case Release(id) =>
      RetireSound(m, id);
      AdmitKeepsMax(m, id, 1, 0);
      TrimKeeps(Retire(m, id));
    case _ =>
      var id, job, thread := WorkerStepFits(m, a);
      AdvanceSound(m, id, job, thread);
  }

  lemma AdmitKeepsMax(m: Manager, id: JobId, rows: nat, created: int)
    ensures Admit(m, id, rows, created).max == Retire(m, id).max == m.max
    ensures Admit(m, id, rows, created).active == Some(id)
  {
  }

  /** While nothing is going on every older job could be trimmed. */
  lemma OnlyFinished(m: Manager, grown: Manager, started: JobId)
    requires Inv(m) && !Busy(m) && started !in m.jobs
    requires grown.active == Some(started) && forall id :: id in m.jobs ==> id in grown.jobs && grown.jobs[id] == m.jobs[id]
    ensures forall id :: id in m.jobs ==> Terminal(m.jobs[id].status) && Removable(grown, id)
  {
    forall id | id in m.jobs
      ensures Terminal(m.jobs[id].status) && Removable(grown, id)
    {
      UnfinishedIsActive(m, id);
    }
  }

  /** A start trims nothing, or the oldest job of a full table in which every job has finished. */
  lemma StartTrimsOldest(m: Manager, a: Action, id: JobId)
    requires Inv(m) && a.Start? && Enabled(m, a) && id in m.jobs
    ensures id in Apply(m, a).jobs ==> Apply(m, a).jobs[id] == m.jobs[id]
    ensures id !in Apply(m, a).jobs ==> |m.jobs| == m.max && Terminal(m.jobs[id].status)
    ensures id !in Apply(m, a).jobs ==> forall other :: other in m.jobs ==> m.jobs[id].created <= m.jobs[other].created
  {
    hide Sound, JobSound, Trim;
    if !Busy(m) {
      AdmitSound(m, a.id, a.rows, a.created);
      var grown := Admit(m, a.id, a.rows, a.created);
      assert grown.jobs.Keys == m.jobs.Keys + {a.id};
      InUse(m);
      TrimKeeps(grown);
      OnlyFinished(m, grown, a.id);
    }
  }

  lemma InUse(m: Manager)
    requires Inv(m)
    ensures m.jobs.Keys <= m.used
  {
  }

  /** One action changes no finished job, and only a start takes one from the table. */
  lemma StepKeepsFinished(m: Manager, a: Action, id: JobId)
    requires Inv(m) && Enabled(m, a) && id in m.jobs
    ensures id in Apply(m, a).jobs && Terminal(m.jobs[id].status) ==> Apply(m, a).jobs[id] == m.jobs[id]
    ensures id !in Apply(m, a).jobs ==> a.Start? && Terminal(m.jobs[id].status)
  {
    hide Sound, JobSound, Trim;
    match a
    case Start(_, _, _) => StartTrimsOldest(m, a, id);
    case Release(done) =>
      RetireSound(m, done);
      AdmitKeepsMax(m, done, 1, 0);
      TrimKeeps(Retire(m, done));
    case _ =>
      var worker, job, thread := WorkerStepFits(m, a);
  }

  /** Identifiers are never taken back. */
  lemma StepKeepsUsed(m: Manager, a: Action)
    requires Inv(m) && Enabled(m, a)
    ensures forall id :: id in m.used ==> id in Apply(m, a).used && (id in Apply(m, a).jobs ==> id in m.jobs)
  {
    hide Sound, JobSound, Trim;
    match a
    case Start(id, rows, created) =>
      if !Busy(m) {
        var grown := Admit(m, id, rows, created);
        AdmitSound(m, id, rows, created);
        TrimKeeps(grown);
        assert Trim(grown).used == m.used + {id} by { TrimSameUsed(grown); }
      }
    case Release(done) =>
      var retired := Retire(m, done);
      RetireSound(m, done);
      AdmitKeepsMax(m, done, 1, 0);
      TrimKeeps(retired);
    case _ =>
      var worker, job, thread := WorkerStepFits(m, a);
  }

  lemma {:induction false} TrimKeepsUsed(m: Manager, removable: seq<JobId>)
    ensures TrimWith(m, removable).used == m.used
    decreases |removable|
  {
    if |m.jobs| > m.max && removable != [] {
      TrimKeepsUsed(Drop(m, removable[0]), removable[1..]);
    }
  }

  lemma TrimSameUsed(m: Manager)
    ensures Trim(m).used == m.used
  {
    TrimKeepsUsed(m, OldestFirst(m));
  }

  // ----- whole runs

  /** `m'` is reached from `m` by these actions, in some interleaving of callers and workers. */
  ghost predicate Run(m: Manager, actions: seq<Action>, m': Manager)
    decreases |actions|
  {
    if actions == [] then m == m'
    else Enabled(m, actions[0]) && Run(Apply(m, actions[0]), actions[1..], m')
  }

  lemma {:induction false} RunKeepsInv(m: Manager, actions: seq<Action>, m': Manager)
    requires Inv(m) && Run(m, actions, m')
    ensures Inv(m')
    decreases |actions|
  {
    hide Inv, Apply;
    if actions != [] {
      StepKeepsInv(m, actions[0]);
      RunKeepsInv(Apply(m, actions[0]), actions[1..], m');
    }
  }

  lemma Reachable(maxJobs: int, actions: seq<Action>, m: Manager)
    requires Run(NoJobs(maxJobs), actions, m)
    ensures Inv(m)
  {
    RunKeepsInv(NoJobs(maxJobs), actions, m);
  }

  /** In every reachable state the table is within its limit, at most one job is unfinished, and it is the active one. */
  lemma AtMostOneUnfinished(maxJobs: int, actions: seq<Action>, m: Manager)
    requires Run(NoJobs(maxJobs), actions, m)
    ensures |m.jobs| <= m.max
    ensures forall id :: id in m.jobs && !Terminal(m.jobs[id].status) ==> m.active == Some(id)
  {
    Reachable(maxJobs, actions, m);
    forall id | id in m.jobs
      ensures !Terminal(m.jobs[id].status) ==> m.active == Some(id)
    {
      UnfinishedIsActive(m, id);
    }
  }

  /** A worker that has not cleaned up still finds its job in the table. */
  lemma WorkerFindsItsJob(maxJobs: int, actions: seq<Action>, m: Manager, id: JobId)
    requires Run(NoJobs(maxJobs), actions, m)
    requires id in m.threads && m.threads[id] != Finishing
    ensures WorkerAt(m, id) && !Terminal(m.jobs[id].status) && m.active == Some(id)
  {
    Reachable(maxJobs, actions, m);
    UnfinishedIsActive(m, id);
    UnfinishedAt(m, id);
  }

  /** A completed job has finished every meeting, at least one of them without failure. */
  lemma CompletedHasSuccess(maxJobs: int, actions: seq<Action>, m: Manager, id: JobId)
    requires Run(NoJobs(maxJobs), actions, m)
    requires id in m.jobs && m.jobs[id].status == Completed
    ensures forall i :: 0 <= i < |m.jobs[id].rows| ==> Terminal(m.jobs[id].rows[i])
    ensures exists i :: 0 <= i < |m.jobs[id].rows| && m.jobs[id].rows[i] == Completed
  {
    Reachable(maxJobs, actions, m);
    var job := m.jobs[id];
    assert JobSound(job, m.active == Some(id), ThreadOf(m, id));
    var i :| 0 <= i < |job.rows| && job.rows[i] != Failed;
    assert Terminal(job.rows[i]);
  }

  /** A finished job keeps its record until it is trimmed, and a trimmed job never comes back. */
  lemma {:induction false} FinishedForever(m: Manager, actions: seq<Action>, m': Manager, id: JobId)
    requires Inv(m) && Run(m, actions, m') && id in m.used
    requires id in m.jobs ==> Terminal(m.jobs[id].status)
    ensures id in m'.jobs ==> id in m.jobs && m'.jobs[id] == m.jobs[id]
    decreases |actions|
  {
    hide Inv, Apply;
    if actions != [] {
      var next := Apply(m, actions[0]);
      StepKeepsInv(m, actions[0]);
      StepKeepsUsed(m, actions[0]);
      if id in m.jobs {
        StepKeepsFinished(m, actions[0], id);
      }
      FinishedForever(next, actions[1..], m', id);
    }
  }

  /** A late clean-up of an older job leaves a newer unfinished job active and in the table. */
  lemma LateReleaseKeepsNewer(maxJobs: int, actions: seq<Action>, m: Manager, older: JobId, newer: JobId)
    requires Run(NoJobs(maxJobs), actions, m) && Enabled(m, Release(older))
    requires newer in m.jobs && !Terminal(m.jobs[newer].status)
    ensures older != newer && Apply(m, Release(older)).active == Some(newer)
    ensures newer in Apply(m, Release(older)).jobs && Apply(m, Release(older)).jobs[newer] == m.jobs[newer]
  {
    hide Sound, JobSound, Trim;
    Reachable(maxJobs, actions, m);
    UnfinishedIsActive(m, newer);
    if older == newer {
      UnfinishedAt(m, newer);
    }
    RetireSound(m, older);
    AdmitKeepsMax(m, older, 1, 0);
    TrimKeeps(Retire(m, older));
  }

  /** A start joins the build that is going on exactly while some job is unfinished. */
  lemma JoinsIffUnfinished(maxJobs: int, actions: seq<Action>, m: Manager, a: Action)
    requires Run(NoJobs(maxJobs), actions, m) && a.Start? && Enabled(m, a)
    ensures Busy(m) <==> exists id :: id in m.jobs && !Terminal(m.jobs[id].status)
    ensures Apply(m, a) == m <==> Busy(m)
  {
    Reachable(maxJobs, actions, m);
    forall id | id in m.jobs
      ensures !Terminal(m.jobs[id].status) ==> Busy(m)
    {
      UnfinishedIsActive(m, id);
    }
    if !Busy(m) {
      AdmitSound(m, a.id, a.rows, a.created);
      TrimKeepsUsed(Admit(m, a.id, a.rows, a.created), OldestFirst(Admit(m, a.id, a.rows, a.created)));
    }
  }

  // ----- what a record says about the past

  /** How the rows of a job have ended, in order. */
  ghost function Ended(past: seq<Action>, id: JobId): seq<bool> {
    if past == [] then []
    else
      var last := past[|past| - 1];
      Ended(past[..|past| - 1], id) + if last.EndRow? && last.id == id then [last.ok] else []
  }

  lemma EndedSnoc(past: seq<Action>, a: Action, id: JobId)
    ensures Ended(past + [a], id) == Ended(past, id) + if a.EndRow? && a.id == id then [a.ok] else []
  {
    assert (past + [a])[..|past|] == past;
  }

  function RowStatus(ok: bool): Status {
    if ok then Completed else Failed
  }

  /** The rows that have ended show how, the next one may be going on, the others wait. */
  ghost predicate RowsTold(rows: seq<Status>, ended: seq<bool>) {
    && |ended| <= |rows|
    && (forall i :: 0 <= i < |ended| ==> rows[i] == RowStatus(ended[i]))
    && (forall i :: |ended| <= i < |rows| ==> rows[i] == Queued || (rows[i] == Running && i == |ended|))
  }

  ghost predicate StatusTold(job: Job, id: JobId, ended: seq<bool>, past: seq<Action>) {
    && Start(id, |job.rows|, job.created) in past
    && (job.status == Completed <==> Complete(id) in past && true in ended)
    && (job.status == Failed <==> Abort(id) in past || (Complete(id) in past && true !in ended))
    && (job.status == Queued ==> Begin(id) !in past)
    && (job.status == Running ==> Begin(id) in past)
    && (Complete(id) in past ==> |ended| == |job.rows|)
  }

  ghost predicate ThreadTold(thread: Option<Thread>, ended: seq<bool>) {
    thread.Some? ==> match thread.value
                     case Spawned => ended == []
                     case AtRow(i) => i == |ended|
                     case InRow(i) => i == |ended|
                     case Finishing => true
  }

  ghost predicate Unheard(id: JobId, past: seq<Action>) {
    Ended(past, id) == [] && Begin(id) !in past && Complete(id) !in past && Abort(id) !in past
  }

  /** Job `id` of a state, as the actions so far say; an identifier that was not given out has done nothing. */
  ghost predicate Told(m: Manager, id: JobId, past: seq<Action>) {
    && (id in m.jobs ==>
          && RowsTold(m.jobs[id].rows, Ended(past, id)) && StatusTold(m.jobs[id], id, Ended(past, id), past)
          && ThreadTold(ThreadOf(m, id), Ended(past, id)))
    && (id !in m.used ==> Unheard(id, past))
  }

  /** Actions that neither concern the job nor change it. */
  lemma SameTold(m: Manager, m': Manager, a: Action, id: JobId, past: seq<Action>)
    requires Told(m, id, past) && !(a.EndRow? && a.id == id) && a != Begin(id) && a != Complete(id) && a != Abort(id)
    requires id in m'.jobs ==> id in m.jobs && m'.jobs[id] == m.jobs[id]
    requires ThreadOf(m', id) == ThreadOf(m, id) || ThreadOf(m', id) == None
    requires id !in m'.used ==> id !in m.used
    ensures Told(m', id, past + [a])
  {
    EndedSnoc(past, a, id);
    assert forall b :: b in past + [a] <==> b in past || b == a;
    hide Ended, RowsTold;
  }

  lemma StepTold(m: Manager, a: Action, id: JobId, past: seq<Action>)
    requires Inv(m) && Enabled(m, a) && Told(m, id, past)
    ensures Told(Apply(m, a), id, past + [a])
  {
    hide Inv, Trim, Told;
    StepKeepsUsed(m, a);
    match a
    case Start(j, rows, created) => StartTold(m, a, id, past);
    case Release(done) => ReleaseTold(m, a, id, past);
    case _ =>
      if a.id == id {
        WorkerTold(m, a, id, past);
      } else {
        SameTold(m, Apply(m, a), a, id, past);
      }
  }

  lemma StartTold(m: Manager, a: Action, id: JobId, past: seq<Action>)
    requires Inv(m) && a.Start? && Enabled(m, a) && Told(m, id, past)
    ensures Told(Apply(m, a), id, past + [a])
  {
    hide Sound, JobSound, Trim, Ended;
    StepKeepsUsed(m, a);
    EndedSnoc(past, a, id);
    if Busy(m) {
      SameTold(m, m, a, id, past);
    } else {
      var grown := Admit(m, a.id, a.rows, a.created);
      AdmitSound(m, a.id, a.rows, a.created);
      TrimKeeps(grown);
      TrimSameUsed(grown);
      if a.id == id {
        NewTold(id, a.rows, a.created, past);
        hide StatusTold, RowsTold, Inv;
        assert Apply(m, a).active == Some(id);
      } else {
        hide Told;
        SameTold(m, Apply(m, a), a, id, past);
      }
    }
  }

  lemma NewTold(id: JobId, rows: nat, created: int, past: seq<Action>)
    requires Unheard(id, past)
    ensures var job, a := Job(Queued, created, seq(rows, _ => Queued)), Start(id, rows, created);
      && Ended(past + [a], id) == [] && RowsTold(job.rows, []) && StatusTold(job, id, [], past + [a])
  {
    var a := Start(id, rows, created);
    EndedSnoc(past, a, id);
    assert forall b :: b in past + [a] <==> b in past || b == a;
    hide Ended;
  }

  lemma ReleaseTold(m: Manager, a: Action, id: JobId, past: seq<Action>)
    requires Inv(m) && a.Release? && Enabled(m, a) && Told(m, id, past)
    ensures Told(Apply(m, a), id, past + [a])
  {
    hide Sound, JobSound, Trim, Told;
    RetireSound(m, a.id);
    AdmitKeepsMax(m, a.id, 1, 0);
    TrimKeeps(Retire(m, a.id));
    TrimSameUsed(Retire(m, a.id));
    SameTold(m, Apply(m, a), a, id, past);
  }

  /** Record and thread of a job as the actions so far say. */
  ghost predicate WorkTold(job: Job, thread: Thread, id: JobId, past: seq<Action>) {
    && RowsTold(job.rows, Ended(past, id)) && StatusTold(job, id, Ended(past, id), past)
    && ThreadTold(Some(thread), Ended(past, id))
  }

  lemma BeginTold(job: Job, id: JobId, past: seq<Action>)
    requires WorkTold(job, Spawned, id, past) && job.status == Queued
    ensures WorkTold(job.(status := Running), AtRow(0), id, past + [Begin(id)])
  {
    EndedSnoc(past, Begin(id), id);
    hide Ended, RowsTold;
    assert forall b :: b in past + [Begin(id)] <==> b in past || b == Begin(id);
  }

  lemma TakeRowTold(job: Job, i: nat, id: JobId, past: seq<Action>)
    requires WorkTold(job, AtRow(i), id, past) && i < |job.rows|
    ensures WorkTold(job.(rows := job.rows[i := Running]), InRow(i), id, past + [TakeRow(id)])
  {
    EndedSnoc(past, TakeRow(id), id);
    hide Ended;
    assert forall b :: b in past + [TakeRow(id)] <==> b in past || b == TakeRow(id);
  }

  lemma EndRowTold(job: Job, i: nat, ok: bool, id: JobId, past: seq<Action>)
    requires WorkTold(job, InRow(i), id, past) && i < |job.rows| && job.status == Running
    ensures WorkTold(job.(rows := job.rows[i := if ok then Completed else Failed]), AtRow(i + 1), id, past + [EndRow(id, ok)])
  {
    var a, ended := EndRow(id, ok), Ended(past, id);
    EndedSnoc(past, a, id);
    hide Ended;
    assert forall b :: b in past + [a] <==> b in past || b == a;
    assert forall x :: x in ended + [ok] <==> x in ended || x == ok;
  }

  lemma EndTold(job: Job, a: Action, thread: Thread, status: Status, id: JobId, past: seq<Action>)
    requires WorkTold(job, thread, id, past) && job.status == Running && job.rows != []
    requires a == Abort(id) || (a == Complete(id) && thread == AtRow(|job.rows|))
    requires status == if a.Complete? && !AllFailed(job.rows) then Completed else Failed
    ensures WorkTold(job.(status := status), Finishing, id, past + [a])
  {
    var ended := Ended(past, id);
    EndedSnoc(past, a, id);
    assert forall b :: b in past + [a] <==> b in past || b == a;
    if a.Complete? {
      AllFailedTold(job.rows, ended);
    }
    hide Ended, RowsTold, AllFailed;
  }

  /** What the worker of the job does is told by the action itself. */
  lemma WorkerTold(m: Manager, a: Action, id: JobId, past: seq<Action>)
    requires Inv(m) && !a.Start? && !a.Release? && a.id == id && Enabled(m, a) && Told(m, id, past)
    ensures Told(Apply(m, a), id, past + [a])
  {
    UsedByWorker(m, id);
    UnfinishedAt(m, id);
    var job, thread, m' := m.jobs[id], m.threads[id], Apply(m, a);
    assert WorkTold(job, thread, id, past);
    hide Inv, WorkTold, RowsDone, AllFailed;
    match a
    case Begin(_) => BeginTold(job, id, past);
    case TakeRow(_) => TakeRowTold(job, thread.row, id, past);
    case EndRow(_, ok) => EndRowTold(job, thread.row, ok, id, past);
    case Complete(_) => EndTold(job, a, thread, if AllFailed(job.rows) then Failed else Completed, id, past);
    case Abort(_) => EndTold(job, a, thread, Failed, id, past);
    ToldByWork(m', id, past + [a]);
  }

  lemma ToldByWork(m: Manager, id: JobId, past: seq<Action>)
    requires id in m.jobs && id in m.threads && id in m.used && WorkTold(m.jobs[id], m.threads[id], id, past)
    ensures Told(m, id, past)
  {
  }

  lemma UsedByWorker(m: Manager, id: JobId)
    requires Inv(m) && id in m.jobs
    ensures id in m.used
  {
  }

  lemma AllFailedTold(rows: seq<Status>, ended: seq<bool>)
    requires RowsTold(rows, ended) && |ended| == |rows| && rows != []
    ensures AllFailed(rows) <==> true !in ended
  {
    if true in ended {
      var i :| 0 <= i < |ended| && ended[i];
      assert rows[i] == Completed;
    }
  }

  lemma {:induction false} RunTold(m: Manager, actions: seq<Action>, m': Manager, id: JobId, past: seq<Action>)
    requires Inv(m) && Run(m, actions, m') && Told(m, id, past)
    ensures Told(m', id, past + actions)
    decreases |actions|
  {
    hide Inv, Apply, Enabled, Told;
    if actions == [] {
      assert past + [] == past;
    } else {
      StepKeepsInv(m, actions[0]);
      StepTold(m, actions[0], id, past);
      RunTold(Apply(m, actions[0]), actions[1..], m', id, past + [actions[0]]);
      assert past + [actions[0]] + actions[1..] == past + actions;
    }
  }

  /**
    In every run, for every job in the table: its rows are as many as were asked for, and show one by one whether
    the builds of its meetings ended without an error; the job is completed exactly when it came to its end with
    some build that did, and failed exactly when it was aborted or came to its end without one.
   */
  lemma RecordTellsOutcome(maxJobs: int, actions: seq<Action>, m: Manager, id: JobId)
    requires Run(NoJobs(maxJobs), actions, m) && id in m.jobs
    ensures var job, ended := m.jobs[id], Ended(actions, id);
      && Start(id, |job.rows|, job.created) in actions && |ended| <= |job.rows|
      && (forall i :: 0 <= i < |job.rows| ==> (job.rows[i] == Completed <==> i < |ended| && ended[i]))
      && (forall i :: 0 <= i < |job.rows| ==> (job.rows[i] == Failed <==> i < |ended| && !ended[i]))
      && (job.status == Completed <==> Complete(id) in actions && true in ended)
      && (job.status == Failed <==> Abort(id) in actions || (Complete(id) in actions && true !in ended))
      && (job.status == Queued ==> Begin(id) !in actions) && (job.status == Running ==> Begin(id) in actions)
  {
    NoJobsInv(maxJobs);
    assert Told(NoJobs(maxJobs), id, []);
    hide Run, Inv, Ended, NoJobs;
    RunTold(NoJobs(maxJobs), actions, m, id, []);
    assert [] + actions == actions;
    RowByRow(m.jobs[id].rows, Ended(actions, id));
    hide RowsTold;
  }

  lemma RowByRow(rows: seq<Status>, ended: seq<bool>)
    requires RowsTold(rows, ended)
    ensures |ended| <= |rows|
    ensures forall i :: 0 <= i < |rows| ==> (rows[i] == Completed <==> i < |ended| && ended[i])
    ensures forall i :: 0 <= i < |rows| ==> (rows[i] == Failed <==> i < |ended| && !ended[i])
  {
  }

  // ----- what a caller is shown

  /** The given job, else the active one, else the latest. */
  function Shown(m: Manager, jobId: Option<JobId>): Option<Job> {
    var target := if jobId.Some? then jobId else if m.active.Some? then m.active else m.latest;
    if target.Some? && target.value in m.jobs then Some(m.jobs[target.value]) else None
  }

  /** The job that was started last; a start that joins does not count. */
  ghost function LastStarted(m: Manager, actions: seq<Action>, last: Option<JobId>): Option<JobId>
    decreases |actions|
  {
    if actions == [] || !Enabled(m, actions[0]) then last
    else LastStarted(Apply(m, actions[0]), actions[1..],
                     if actions[0].Start? && !Busy(m) then Some(actions[0].id) else last)
  }

  /** Trimming never takes the latest job, so only a start that is not a join changes it. */
  lemma StepLatest(m: Manager, a: Action)
    requires Inv(m) && Enabled(m, a)
    ensures Apply(m, a).latest == if a.Start? && !Busy(m) then Some(a.id) else m.latest
  {
    hide Sound, JobSound, Trim;
    match a
    case Start(id, rows, created) =>
      if !Busy(m) {
        AdmitSound(m, id, rows, created);
        TrimKeeps(Admit(m, id, rows, created));
      }
    case Release(done) =>
      RetireSound(m, done);
      AdmitKeepsMax(m, done, 1, 0);
      TrimKeeps(Retire(m, done));
    case _ =>
      var worker, job, thread := WorkerStepFits(m, a);
  }

  lemma {:induction false} LatestIsLastStarted(m: Manager, actions: seq<Action>, m': Manager)
    requires Inv(m) && Run(m, actions, m')
    ensures m'.latest == LastStarted(m, actions, m.latest)
    decreases |actions|
  {
    hide Inv, Apply, Enabled, Busy;
    if actions != [] {
      StepKeepsInv(m, actions[0]);
      StepLatest(m, actions[0]);
      LatestIsLastStarted(Apply(m, actions[0]), actions[1..], m');
    }
  }

  /**
    Asked for no job in particular, the manager shows the one started last, whether it goes on or has ended: it
    is never trimmed. It shows nothing exactly when none was ever started. A job that goes on is that one.
   */
  lemma ShowsLastStarted(maxJobs: int, actions: seq<Action>, m: Manager)
    requires Run(NoJobs(maxJobs), actions, m)
    ensures var last := LastStarted(NoJobs(maxJobs), actions, None);
      && (last.Some? ==> last.value in m.jobs && Shown(m, None) == Some(m.jobs[last.value]))
      && (last.None? ==> Shown(m, None) == None && m.jobs == map[])
      && forall id :: id in m.jobs && !Terminal(m.jobs[id].status) ==> last == Some(id)
  {
    hide Sound, Run, LastStarted, Terminal;
    Reachable(maxJobs, actions, m);
    var none := NoJobs(maxJobs);
    NoJobsInv(maxJobs);
    LatestIsLastStarted(none, actions, m);
    AtMostOneUnfinished(maxJobs, actions, m);
  }

  lemma NoJobsInv(maxJobs: int)
    ensures Inv(NoJobs(maxJobs))
  {
  }

  // ----- the manager object

  lemma RemovableStep(m: Manager, order: seq<JobId>, i: nat, found: seq<JobId>)
    requires i < |order|
    ensures var rest := if Removable(m, order[i]) then [order[i]] else [];
      found + RemovableIds(m, order[i..]) == found + rest + RemovableIds(m, order[i + 1..])
  {
    assert order[i..][1..] == order[i + 1..];
  }

  class RagIndexJobManager {
    var jobs: map<JobId, Job>
    var order: seq<JobId>
    var activeJobId: Option<JobId>
    var latestJobId: Option<JobId>
    const maxJobs: nat
    ghost var threads: map<JobId, Thread>
    ghost var used: set<JobId>

    ghost function Now(): Manager
      reads this
    {
      Manager(maxJobs, jobs, order, activeJobId, latestJobId, threads, used)
    }

    constructor (limit: int)
      ensures Now() == NoJobs(limit)
    {
      maxJobs := if limit < 4 then 4 else limit;
      jobs, order, activeJobId, latestJobId, threads, used := map[], [], None, None, map[], {};
    }

    /** The finished jobs that are not active, in the order of the dictionary. */
    method CollectRemovable() returns (found: seq<JobId>)
      ensures found == RemovableIds(Now(), order)
    {
      found := [];
      for i := 0 to |order|
        invariant found + RemovableIds(Now(), order[i..]) == RemovableIds(Now(), order)
      {
        RemovableStep(Now(), order, i, found);
        var id := order[i];
        if id in jobs && activeJobId != Some(id) && Terminal(jobs[id].status) {
          found := found + [id];
        }
      }
    }

    /** `_trim_jobs_locked`: oldest first until the table is within its limit. */
    method TrimJobs()
      modifies this
      ensures Now() == Trim(old(Now()))
    {
      hide SortDesc, Without, RemovableIds, Age, Terminal;
      if |jobs| <= maxJobs {
        return;
      }
      var found := CollectRemovable();
      var removable := SortDesc(found, Age(jobs));
      while |jobs| > maxJobs && removable != []
        invariant TrimWith(Now(), removable) == Trim(old(Now()))
        decreases |removable|
      {
        var id := removable[0];
        removable := removable[1..];
        jobs := jobs - {id};
        order := Without(order, id);
        if latestJobId == Some(id) {
          latestJobId := None;
        }
      }
    }

    /** `start`: joins the build that is going on, or queues a new one. */
    method StartJob(id: JobId, rows: nat, created: int) returns (current: JobId, joined: bool)
      requires Enabled(Now(), Start(id, rows, created))
      modifies this
      ensures Now() == Apply(old(Now()), Start(id, rows, created))
      ensures joined == old(Busy(Now()))
      ensures current == if joined then old(activeJobId).value else id
    {
      if activeJobId.Some? {
        if activeJobId.value in jobs {
          var status := jobs[activeJobId.value].status;
          if status == Queued || status == Running {
            return activeJobId.value, true;
          }
        }
        activeJobId := None;
      }
      jobs := jobs[id := Job(Queued, created, seq(rows, _ => Queued))];
      order := order + [id];
      activeJobId := Some(id);
      latestJobId := Some(id);
      used := used + {id};
      threads := threads[id := Spawned];
      TrimJobs();
      return id, false;
    }

    /** The worker's locked regions. */
    method BeginJob(id: JobId)
      requires Enabled(Now(), Begin(id))
      modifies this
      ensures Now() == Apply(old(Now()), Begin(id)) && jobs == old(jobs)[id := old(jobs)[id].(status := Running)]
    {
      jobs := jobs[id := jobs[id].(status := Running)];
      threads := threads[id := AtRow(0)];
    }

    method BeginRow(id: JobId, row: nat)
      requires Enabled(Now(), TakeRow(id)) && threads[id].row == row
      modifies this
      ensures Now() == Apply(old(Now()), TakeRow(id))
      ensures id in jobs && row < |jobs[id].rows| && jobs[id].rows[row] == Running
    {
      jobs := jobs[id := jobs[id].(rows := jobs[id].rows[row := Running])];
      threads := threads[id := InRow(row)];
    }

    method FinishRow(id: JobId, row: nat, ok: bool)
      requires Enabled(Now(), EndRow(id, ok)) && threads[id].row == row
      modifies this
      ensures Now() == Apply(old(Now()), EndRow(id, ok))
      ensures id in jobs && row < |jobs[id].rows| && (jobs[id].rows[row] == Completed <==> ok)
      ensures jobs[id].rows[row] == Failed <==> !ok
    {
      jobs := jobs[id := jobs[id].(rows := jobs[id].rows[row := if ok then Completed else Failed])];
      threads := threads[id := AtRow(row + 1)];
    }

    method CompleteJob(id: JobId)
      requires Enabled(Now(), Complete(id))
      modifies this
      ensures Now() == Apply(old(Now()), Complete(id)) && id in jobs && jobs[id].rows == old(jobs)[id].rows
      ensures jobs[id].status == Failed <==> jobs[id].rows != [] && forall i :: 0 <= i < |jobs[id].rows| ==> jobs[id].rows[i] == Failed
      ensures jobs[id].status == Failed || jobs[id].status == Completed
    {
      var rows := jobs[id].rows;
      var allFailed := rows != [];
      for i := 0 to |rows|
        invariant allFailed <==> rows != [] && forall j :: 0 <= j < i ==> rows[j] == Failed
      {
        allFailed := allFailed && rows[i] == Failed;
      }
      jobs := jobs[id := jobs[id].(status := if allFailed then Failed else Completed)];
      threads := threads[id := Finishing];
    }

    method AbortJob(id: JobId)
      requires Enabled(Now(), Abort(id))
      modifies this
      ensures Now() == Apply(old(Now()), Abort(id)) && jobs == old(jobs)[id := old(jobs)[id].(status := Failed)]
    {
      jobs := jobs[id := jobs[id].(status := Failed)];
      threads := threads[id := Finishing];
    }

    method ReleaseJob(id: JobId)
      requires Enabled(Now(), Release(id))
      modifies this
      ensures Now() == Apply(old(Now()), Release(id))
    {
      if activeJobId == Some(id) {
        activeJobId := None;
      }
      threads := threads - {id};
      TrimJobs();
    }

    /** `get_status`: the given job, else the active one, else the latest. */
    method GetStatus(jobId: Option<JobId>) returns (job: Option<Job>)
      ensures job == Shown(Now(), jobId)
      ensures jobId.Some? ==> job == if jobId.value in jobs then Some(jobs[jobId.value]) else None
    {
      var target := if jobId.Some? then jobId else if activeJobId.Some? then activeJobId else latestJobId;
      if target.None? || target.value !in jobs {
        return None;
      }
      return Some(jobs[target.value]);
    }
  }
}
