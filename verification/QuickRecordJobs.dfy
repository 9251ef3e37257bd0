/**
  The quick-record job manager. Every locked region is one atomic action; worker threads and
  callers interleave at will. In every run at most one job is unfinished, it is the active one,
  and a finished job keeps its status.
 */
module QuickRecordJobs {
  import opened Options

  datatype Status = Queued | Running | Stopping | Completed | Failed

  predicate Terminal(s: Status) {
    s.Completed? || s.Failed?
  }

  type JobId = nat

  /** Where the worker thread of a job stands; a thread that has ended is not listed. */
  datatype Thread = Spawned | Recording | Finishing

  datatype Manager = Manager(jobs: map<JobId, Status>, active: Option<JobId>, latest: Option<JobId>,
                             stops: set<JobId>, threads: map<JobId, Thread>)

  const NO_JOBS := Manager(map[], None, None, {}, map[])

  datatype Action =
    | Start(id: JobId)
    | Stop
    | Begin(id: JobId)
    | Finish(id: JobId, ok: bool)
    | Release(id: JobId)

  /** The active job, if it is one that is still going on. */
  predicate Busy(m: Manager) {
    m.active.Some? && m.active.value in m.jobs && !Terminal(m.jobs[m.active.value])
  }

  /** A new job has a new identifier; a worker takes its steps in order. */
  predicate Enabled(m: Manager, a: Action) {
    match a
    case Start(id) => id !in m.jobs && id !in m.threads && id !in m.stops
    case Stop => true
    case Begin(id) => id in m.threads && m.threads[id] == Spawned && id in m.jobs
    case Finish(id, _) => id in m.threads && m.threads[id] == Recording && id in m.jobs
    case Release(id) => id in m.threads && m.threads[id] == Finishing
  }

  function Apply(m: Manager, a: Action): Manager
    requires Enabled(m, a)
  {
    match a
    case Start(id) =>
      if Busy(m) then m
      else Manager(m.jobs[id := Queued], Some(id), Some(id), m.stops, m.threads[id := Spawned])
    case Stop =>
      if m.active.None? then m
      else if m.active.value !in m.jobs then m.(active := None)
      else if m.jobs[m.active.value] !in {Queued, Running} then m
      else m.(jobs := m.jobs[m.active.value := Stopping], stops := m.stops + {m.active.value})
    case Begin(id) => m.(jobs := m.jobs[id := Running], threads := m.threads[id := Recording])
    case Finish(id, ok) =>
      m.(jobs := m.jobs[id := if ok then Completed else Failed], threads := m.threads[id := Finishing])
    case Release(id) =>
      m.(active := if m.active == Some(id) then None else m.active, threads := m.threads - {id})
  }

  ghost predicate Inv(m: Manager) {
    && (m.active.Some? ==> m.active.value in m.threads)
    && (forall id :: id in m.threads ==> id in m.jobs)
    && (forall id :: id in m.stops ==> id in m.jobs)
    && (forall id :: id in m.jobs && !Terminal(m.jobs[id]) ==>
          m.active == Some(id) && id in m.threads && m.threads[id] != Finishing)
    && (forall id :: id in m.threads ==> (m.threads[id] == Finishing <==> Terminal(m.jobs[id])))
    && (forall id :: id in m.jobs && m.jobs[id] == Stopping ==> id in m.stops)
    && (forall id :: id in m.jobs && m.jobs[id] == Queued ==> m.threads[id] == Spawned)
    && (m.active.Some? ==> m.active == m.latest)
    && (m.latest.Some? ==> m.latest.value in m.jobs)
    && (m.latest.None? ==> m.jobs == map[])
  }

  lemma StepKeepsInv(m: Manager, a: Action)
    requires Inv(m) && Enabled(m, a)
    ensures Inv(Apply(m, a))
  {
  }

  /** One action never changes the status of a finished job, and never takes the active mark from an unfinished one. */
  lemma StepKeepsFinished(m: Manager, a: Action, id: JobId)
    requires Inv(m) && Enabled(m, a) && id in m.jobs
    ensures id in Apply(m, a).jobs
    ensures Terminal(m.jobs[id]) ==> Apply(m, a).jobs[id] == m.jobs[id]
    ensures !Terminal(Apply(m, a).jobs[id]) ==> Apply(m, a).active == m.active == Some(id)
  {
  }

  /** `m'` is reached from `m` by these actions, in some interleaving of callers and workers. */
  ghost predicate Run(m: Manager, actions: seq<Action>, m': Manager)
    decreases |actions|
  {
    if actions == [] then m == m'
    else Enabled(m, actions[0]) && Run(Apply(m, actions[0]), actions[1..], m')
  }

  lemma {:induction false} RunKeepsInv(m: Manager, actions: seq<Action>, m': Manager)
    requires Inv(m) && Run(m, actions, m')
    ensures Inv(m')
    decreases |actions|
  {
    if actions != [] {
      StepKeepsInv(m, actions[0]);
      RunKeepsInv(Apply(m, actions[0]), actions[1..], m');
    }
  }

  /** In every reachable state at most one job is unfinished, and it is the active one. */
  lemma AtMostOneUnfinished(actions: seq<Action>, m: Manager, i: JobId, j: JobId)
    requires Run(NO_JOBS, actions, m)
    requires i in m.jobs && !Terminal(m.jobs[i]) && j in m.jobs && !Terminal(m.jobs[j])
    ensures i == j && m.active == Some(i)
  {
    RunKeepsInv(NO_JOBS, actions, m);
  }

  /** Once finished, a job has the same status ever after. */
  lemma {:induction false} FinishedForever(m: Manager, actions: seq<Action>, m': Manager, id: JobId)
    requires Inv(m) && Run(m, actions, m') && id in m.jobs && Terminal(m.jobs[id])
    ensures id in m'.jobs && m'.jobs[id] == m.jobs[id]
    decreases |actions|
  {
    if actions != [] {
      StepKeepsInv(m, actions[0]);
      StepKeepsFinished(m, actions[0], id);
      FinishedForever(Apply(m, actions[0]), actions[1..], m', id);
    }
  }

  /** A late clean-up of an older job leaves a newer active job active. */
  lemma LateReleaseKeepsNewer(actions: seq<Action>, m: Manager, older: JobId, newer: JobId)
    requires Run(NO_JOBS, actions, m) && Enabled(m, Release(older))
    requires newer in m.jobs && !Terminal(m.jobs[newer])
    ensures older != newer && Apply(m, Release(older)).active == Some(newer)
  {
    RunKeepsInv(NO_JOBS, actions, m);
  }

  /** A start is refused exactly while some job is unfinished. */
  lemma RefusedIffUnfinished(actions: seq<Action>, m: Manager, id: JobId)
    requires Run(NO_JOBS, actions, m) && Enabled(m, Start(id))
    ensures Apply(m, Start(id)) == m <==> exists j :: j in m.jobs && !Terminal(m.jobs[j])
  {
    RunKeepsInv(NO_JOBS, actions, m);
    assert !Busy(m) ==> id in Apply(m, Start(id)).jobs;
  }

  /** A stop that comes before the worker begins is overwritten in the status, though its event stays set. */
  lemma EarlyStopIsOverwritten(id: JobId)
    ensures exists actions, m :: Run(NO_JOBS, actions, m) && id in m.jobs && m.jobs[id] == Running && id in m.stops
  {
    var a := Apply(NO_JOBS, Start(id));
    var b := Apply(a, Stop);
    var c := Apply(b, Begin(id));
    assert Run(c, [], c);
    assert [Begin(id)][1..] == [] && [Stop, Begin(id)][1..] == [Begin(id)];
    assert Run(b, [Begin(id)], c);
    assert Run(a, [Stop, Begin(id)], c);
    assert [Start(id), Stop, Begin(id)][1..] == [Stop, Begin(id)];
    assert Run(NO_JOBS, [Start(id), Stop, Begin(id)], c);
  }

  /** A status that shows a stop tells the truth. */
  lemma StopShows(actions: seq<Action>, m: Manager, id: JobId)
    requires Run(NO_JOBS, actions, m) && id in m.jobs && m.jobs[id] == Stopping
    ensures id in m.stops && m.active == Some(id)
  {
    RunKeepsInv(NO_JOBS, actions, m);
  }

  // ----- what a status says about the past

  /** Job `id` of a state, as the actions so far say; a job that is not in the table has done nothing yet. */
  ghost predicate Told(m: Manager, id: JobId, past: seq<Action>) {
    && (id in m.jobs ==>
          && Start(id) in past
          && (m.jobs[id] == Completed <==> Finish(id, true) in past)
          && (m.jobs[id] == Failed <==> Finish(id, false) in past)
          && (m.jobs[id] == Queued ==> Begin(id) !in past)
          && (m.jobs[id] == Running ==> Begin(id) in past)
          && (m.jobs[id] == Stopping ==> Stop in past))
    && (id !in m.jobs ==> Begin(id) !in past && Finish(id, true) !in past && Finish(id, false) !in past)
  }

  lemma StepTold(m: Manager, a: Action, id: JobId, past: seq<Action>)
    requires Inv(m) && Enabled(m, a) && Told(m, id, past)
    ensures Told(Apply(m, a), id, past + [a])
  {
    var m' := Apply(m, a);
    assert forall b :: b in past + [a] <==> b in past || b == a;
    match a
    case Start(j) =>
      assert j != id ==> (id in m'.jobs <==> id in m.jobs);
    case Stop =>
    case Begin(j) => BeginTold(m, j);
    case Finish(j, ok) => FinishTold(m, j);
    case Release(j) =>
  }

  /** Only a queued or stopping job begins, and only one that goes on ends. */
  lemma BeginTold(m: Manager, id: JobId)
    requires Inv(m) && Enabled(m, Begin(id))
    ensures !Terminal(m.jobs[id])
  {
  }

  lemma FinishTold(m: Manager, id: JobId)
    requires Inv(m) && id in m.threads && m.threads[id] == Recording && id in m.jobs
    ensures !Terminal(m.jobs[id])
  {
  }

  lemma {:induction false} RunTold(m: Manager, actions: seq<Action>, m': Manager, id: JobId, past: seq<Action>)
    requires Inv(m) && Run(m, actions, m') && Told(m, id, past)
    ensures Told(m', id, past + actions)
    decreases |actions|
  {
    hide Inv, Apply, Enabled, Told;
    if actions == [] {
      assert past + [] == past;
    } else {
      StepKeepsInv(m, actions[0]);
      StepTold(m, actions[0], id, past);
      RunTold(Apply(m, actions[0]), actions[1..], m', id, past + [actions[0]]);
      assert past + [actions[0]] + actions[1..] == past + actions;
    }
  }

  /**
    In every run: a job is shown as completed exactly when its recording ended without an error, as failed
    exactly when it ended with one, and as running or queued only after or before its worker has begun.
   */
  lemma StatusTellsOutcome(actions: seq<Action>, m: Manager, id: JobId)
    requires Run(NO_JOBS, actions, m) && id in m.jobs
    ensures m.jobs[id] == Completed <==> Finish(id, true) in actions
    ensures m.jobs[id] == Failed <==> Finish(id, false) in actions
    ensures m.jobs[id] == Queued ==> Begin(id) !in actions
    ensures m.jobs[id] == Running ==> Begin(id) in actions
    ensures m.jobs[id] == Stopping ==> Stop in actions
    ensures Start(id) in actions
  {
    RunTold(NO_JOBS, actions, m, id, []);
    assert [] + actions == actions;
  }

  // ----- when a stop shows in the status

  predicate NoFinish(actions: seq<Action>, id: JobId) {
    forall n :: 0 <= n < |actions| ==> !(actions[n].Finish? && actions[n].id == id)
  }

  /** A stop comes after the worker has begun. */
  predicate StoppedAfterBegin(actions: seq<Action>, id: JobId) {
    exists p, q :: 0 <= p < q < |actions| && actions[p] == Begin(id) && actions[q] == Stop
  }

  /** The unfinished job of a state, and what a run without its end does to it. */
  ghost predicate Unfinished(m: Manager, id: JobId) {
    Inv(m) && id in m.jobs && !Terminal(m.jobs[id]) && m.active == Some(id) && id in m.threads
  }

  lemma StepUnfinished(m: Manager, a: Action, id: JobId)
    requires Unfinished(m, id) && Enabled(m, a) && !(a.Finish? && a.id == id)
    ensures Unfinished(Apply(m, a), id)
    ensures Apply(m, a).threads[id] == if a == Begin(id) then Recording else m.threads[id]
    ensures Apply(m, a).jobs[id] == if a == Begin(id) then Running else if a == Stop then Stopping else m.jobs[id]
    ensures a == Begin(id) ==> m.threads[id] == Spawned
  {
    StepKeepsInv(m, a);
  }

  /** Once the worker is recording, a stop shows from then on. */
  lemma {:induction false} ShowsWhileRecording(m: Manager, actions: seq<Action>, m': Manager, id: JobId)
    requires Unfinished(m, id) && m.threads[id] == Recording && Run(m, actions, m') && NoFinish(actions, id)
    ensures id in m'.jobs && Unfinished(m', id)
    ensures m'.jobs[id] == Stopping <==> m.jobs[id] == Stopping || Stop in actions
    ensures Begin(id) !in actions
    decreases |actions|
  {
    hide Unfinished, Apply, Enabled;
    assert id in m.jobs by { UnfinishedIn(m, id); }
    if actions != [] {
      assert actions == [actions[0]] + actions[1..];
      StepUnfinished(m, actions[0], id);
      ShowsWhileRecording(Apply(m, actions[0]), actions[1..], m', id);
    }
  }

  lemma UnfinishedIn(m: Manager, id: JobId)
    requires Unfinished(m, id)
    ensures id in m.jobs && id in m.threads && (m.threads[id] == Spawned || m.threads[id] == Recording)
  {
  }

  /** Before the worker begins a stop shows too, but the beginning overwrites it. */
  lemma {:induction false} ShowsWhileSpawned(m: Manager, actions: seq<Action>, m': Manager, id: JobId)
    requires Unfinished(m, id) && m.threads[id] == Spawned && m.jobs[id] == Stopping
    requires Run(m, actions, m') && NoFinish(actions, id)
    ensures id in m'.jobs && Unfinished(m', id)
    ensures m'.jobs[id] == Stopping <==> Begin(id) !in actions || StoppedAfterBegin(actions, id)
    decreases |actions|
  {
    hide Unfinished, Apply, Enabled;
    UnfinishedIn(m, id);
    if actions != [] {
      var a, rest := actions[0], actions[1..];
      assert actions == [a] + rest;
      StepUnfinished(m, a, id);
      if a == Begin(id) {
        ShowsWhileRecording(Apply(m, a), rest, m', id);
        BeginFirst(actions, id);
      } else {
        ShowsWhileSpawned(Apply(m, a), rest, m', id);
        BeginLater(actions, id);
      }
    }
  }

  lemma BeginFirst(actions: seq<Action>, id: JobId)
    requires actions != [] && actions[0] == Begin(id)
    ensures Begin(id) !in actions[1..] ==> (StoppedAfterBegin(actions, id) <==> Stop in actions[1..])
  {
    if Stop in actions[1..] {
      var q :| 0 <= q < |actions[1..]| && actions[1..][q] == Stop;
      assert actions[0] == Begin(id) && actions[q + 1] == Stop;
    }
    if StoppedAfterBegin(actions, id) {
      var p, q :| 0 <= p < q < |actions| && actions[p] == Begin(id) && actions[q] == Stop;
      assert actions[1..][q - 1] == Stop;
    }
  }

  lemma BeginLater(actions: seq<Action>, id: JobId)
    requires actions != [] && actions[0] != Begin(id)
    ensures StoppedAfterBegin(actions, id) <==> StoppedAfterBegin(actions[1..], id)
  {
    var rest := actions[1..];
    if StoppedAfterBegin(actions, id) {
      var p, q :| 0 <= p < q < |actions| && actions[p] == Begin(id) && actions[q] == Stop;
      assert rest[p - 1] == Begin(id) && rest[q - 1] == Stop;
    }
    if StoppedAfterBegin(rest, id) {
      var p, q :| 0 <= p < q < |rest| && rest[p] == Begin(id) && rest[q] == Stop;
      assert actions[p + 1] == Begin(id) && actions[q + 1] == Stop;
    }
  }

  /**
    After a stop in any reachable state, and any further run before the job ends: the status of the active job
    shows a stop exactly when its worker was recording at the stop, or has not begun since, or was stopped
    again after it began.
   */
  lemma StopShowsIff(before: seq<Action>, m: Manager, actions: seq<Action>, m': Manager, id: JobId)
    requires Run(NO_JOBS, before, m) && m.active == Some(id) && id in m.jobs && !Terminal(m.jobs[id])
    requires Run(Apply(m, Stop), actions, m') && NoFinish(actions, id)
    ensures id in m.threads && id in m'.jobs
    ensures m'.jobs[id] == Stopping
       <==> m.threads[id] == Recording || Begin(id) !in actions || StoppedAfterBegin(actions, id)
  {
    RunKeepsInv(NO_JOBS, before, m);
    assert Unfinished(m, id);
    StepUnfinished(m, Stop, id);
    var stopped := Apply(m, Stop);
    UnfinishedIn(m, id);
    hide Inv, Unfinished, Apply;
    if m.threads[id] == Recording {
      ShowsWhileRecording(stopped, actions, m', id);
    } else {
      ShowsWhileSpawned(stopped, actions, m', id);
    }
  }

  // ----- what a caller is shown

  /** The status of the given job, else of the active one, else of the latest. */
  function Shown(m: Manager, jobId: Option<JobId>): Option<Status> {
    var target := if jobId.Some? then jobId else if m.active.Some? then m.active else m.latest;
    if target.Some? && target.value in m.jobs then Some(m.jobs[target.value]) else None
  }

  /** The job that was started last, if any start was not refused. */
  ghost function LastStarted(m: Manager, actions: seq<Action>, last: Option<JobId>): Option<JobId>
    decreases |actions|
  {
    if actions == [] || !Enabled(m, actions[0]) then last
    else LastStarted(Apply(m, actions[0]), actions[1..],
                     if actions[0].Start? && !Busy(m) then Some(actions[0].id) else last)
  }

  lemma {:induction false} LatestIsLastStarted(m: Manager, actions: seq<Action>, m': Manager)
    requires Run(m, actions, m')
    ensures m'.latest == LastStarted(m, actions, m.latest)
    decreases |actions|
  {
    if actions != [] {
      LatestIsLastStarted(Apply(m, actions[0]), actions[1..], m');
    }
  }

  /**
    Asked for no job in particular, the manager shows the one started last, whether it goes on or has ended, and
    nothing exactly when none was ever started. A job that goes on is always the one started last.
   */
  lemma ShowsLastStarted(actions: seq<Action>, m: Manager)
    requires Run(NO_JOBS, actions, m)
    ensures var last := LastStarted(NO_JOBS, actions, None);
      && (last.Some? ==> last.value in m.jobs && Shown(m, None) == Some(m.jobs[last.value]))
      && (last.None? ==> Shown(m, None) == None && m.jobs == map[])
      && forall id :: id in m.jobs && !Terminal(m.jobs[id]) ==> last == Some(id)
  {
    RunKeepsInv(NO_JOBS, actions, m);
    LatestIsLastStarted(NO_JOBS, actions, m);
  }

  // ----- the manager object

  class QuickRecordManager {
    var jobs: map<JobId, Status>
    var activeJobId: Option<JobId>
    var latestJobId: Option<JobId>
    var stopEvents: set<JobId>
    ghost var threads: map<JobId, Thread>

    ghost function Now(): Manager
      reads this
    {
      Manager(jobs, activeJobId, latestJobId, stopEvents, threads)
    }

    constructor ()
      ensures Now() == NO_JOBS
    {
      jobs, activeJobId, latestJobId, stopEvents, threads := map[], None, None, {}, map[];
    }

    /** `start`: refused while a job is going on. */
    method StartJob(id: JobId) returns (started: bool)
      requires Enabled(Now(), Start(id))
      modifies this
      ensures jobs == if started then old(jobs)[id := Queued] else old(jobs)
      ensures started ==> activeJobId == latestJobId == Some(id)
      ensures Now() == Apply(old(Now()), Start(id))
      ensures started <==> !old(Busy(Now()))
    {
      if activeJobId.Some? {
        if activeJobId.value in jobs {
          var status := jobs[activeJobId.value];
          if status == Queued || status == Running || status == Stopping {
            return false;
          }
        }
        activeJobId := None;
      }
      jobs := jobs[id := Queued];
      activeJobId := Some(id);
      latestJobId := Some(id);
      threads := threads[id := Spawned];
      return true;
    }

    /** `stop`: marks the active job and sets its event. */
    method StopActive() returns (status: Option<Status>)
      modifies this
      ensures Now() == Apply(old(Now()), Stop)
      ensures jobs != old(jobs) ==> var id := old(activeJobId).value;
        id in old(jobs) && old(jobs)[id] in {Queued, Running} && jobs == old(jobs)[id := Stopping] && id in stopEvents
      ensures status.Some? <==> old(activeJobId.Some? && activeJobId.value in jobs)
      ensures status.Some? ==> status.value == jobs[old(activeJobId).value]
    {
      if activeJobId.None? {
        return None;
      }
      var id := activeJobId.value;
      if id !in jobs {
        activeJobId := None;
        return None;
      }
      if jobs[id] != Queued && jobs[id] != Running {
        return Some(jobs[id]);
      }
      jobs := jobs[id := Stopping];
      stopEvents := stopEvents + {id};
      return Some(Stopping);
    }

    /** `get_status`: the given job, else the active one, else the latest. */
    method GetStatus(jobId: Option<JobId>) returns (status: Option<Status>)
      ensures status == Shown(Now(), jobId)
      ensures jobId.Some? ==> status == if jobId.value in jobs then Some(jobs[jobId.value]) else None
    {
      var target := if jobId.Some? then jobId else if activeJobId.Some? then activeJobId else latestJobId;
      if target.None? || target.value !in jobs {
        return None;
      }
      return Some(jobs[target.value]);
    }

    /** The worker's three locked regions. */
    method BeginJob(id: JobId)
      requires Enabled(Now(), Begin(id))
      modifies this
      ensures Now() == Apply(old(Now()), Begin(id)) && jobs == old(jobs)[id := Running]
    {
      jobs := jobs[id := Running];
      threads := threads[id := Recording];
    }

    method FinishJob(id: JobId, ok: bool)
      requires Enabled(Now(), Finish(id, ok))
      modifies this
      ensures Now() == Apply(old(Now()), Finish(id, ok))
      ensures id in jobs && (jobs[id] == Completed <==> ok) && (jobs[id] == Failed <==> !ok)
      ensures jobs.Keys == old(jobs).Keys && forall j :: j in jobs && j != id ==> jobs[j] == old(jobs)[j]
    {
      jobs := jobs[id := if ok then Completed else Failed];
      threads := threads[id := Finishing];
    }

    method ReleaseJob(id: JobId)
      requires Enabled(Now(), Release(id))
      modifies this
      ensures Now() == Apply(old(Now()), Release(id))
    {
      if activeJobId == Some(id) {
        activeJobId := None;
      }
      threads := threads - {id};
    }
  }
}
