/**
 What the jobs of one workflow assignment add up to.

 `AgreeInv` ties the machine and its jobs to the flat list it is walking.  Its last clause is
 the point: the finished task jobs, in creation order, are the reading of a prefix of the
 list.  With Workflow.FlattenMeaning this makes them a prefix of the workflow's meaning, and
 all of it once the walk has reached the end of the list.
 */
module JobMeaning {
  import opened TaskList
  import opened Workflow
  import opened JobModel
  import opened JobRuns
  import opened Sequences

  /** A flat list, the stage and environment it was started in, and the jobs that are older. */
  datatype Plan = Plan(wf: string, tasks: seq<Entry>, stages: StageStore, s0: string, e0: string, base: nat)

  ghost predicate EntryOk(p: Plan, k: nat)
    requires k < |p.tasks|
  {
    EnvFollows(p.tasks, k, p.stages, p.e0) && EnvAnnounced(p.tasks, k, p.stages) && !p.tasks[k].Malformed?
  }

  ghost predicate PlanOk(p: Plan) {
    forall k :: 0 <= k < |p.tasks| ==> EntryOk(p, k)
  }

  /** The environment after k entries; entering a stage brings the one that the next entry asks for. */
  function EnvIn(p: Plan, k: nat): string
    requires k <= |p.tasks|
  {
    if 0 < k < |p.tasks| && p.tasks[k - 1].StageMark? && p.tasks[k].EnvMark? then p.tasks[k].name
    else EnvAt(p.tasks, k, p.e0)
  }

  /** A machine in a stage with its own environment is in that environment. */
  predicate AtHome(p: Plan, stage: string, env: string) {
    p.tasks != [] && stage in p.stages && p.stages[stage].bootEnv != "" ==> env == p.stages[stage].bootEnv
  }

  /** Stage and environment after k entries. */
  predicate In(p: Plan, k: nat, stage: string, env: string)
    requires k <= |p.tasks|
  {
    stage == StageAt(p.tasks, k, p.s0) && env == EnvIn(p, k) && AtHome(p, stage, env)
  }

  predicate JobOk(p: Plan, j: Job) {
    && 0 <= j.index < |p.tasks|
    && j.next == j.index + 1
    && j.task == p.tasks[j.index]
    && j.workflow == p.wf
    && j.stage == StageAt(p.tasks, j.index + 1, p.s0)
    && j.bootEnv == EnvAt(p.tasks, j.index, p.e0)
    && (j.task.Task? || (j.task.StageMark? && j.state == Finished))
  }

  /** A job comes after its predecessor in the list, or retries it after a failure. */
  predicate InOrder(a: Job, b: Job) {
    a.index < b.index || (a.index == b.index && a.state == Failed)
  }

  predicate JobAt(p: Plan, jobs: Jobs, log: seq<Uuid>, i: nat)
    requires p.base <= i < |log|
  {
    && log[i] in jobs && JobOk(p, jobs[log[i]])
    && (i > p.base ==> log[i - 1] in jobs && InOrder(jobs[log[i - 1]], jobs[log[i]]))
  }

  predicate JobsOk(p: Plan, jobs: Jobs, log: seq<Uuid>) {
    && p.base <= |log|
    && forall i :: p.base <= i < |log| ==> JobAt(p, jobs, log, i)
  }

  function DoneAt(jobs: Jobs, u: Uuid): seq<Placed> {
    if u in jobs && jobs[u].state == Finished && jobs[u].task.Task?
    then [Placed(jobs[u].index, Work(jobs[u].stage, jobs[u].bootEnv, jobs[u].task))]
    else []
  }

  /** The work recorded by the finished task jobs among log[lo..hi]. */
  function Done(jobs: Jobs, log: seq<Uuid>, lo: nat, hi: nat): seq<Placed>
    requires hi <= |log|
  {
    if hi <= lo then [] else Done(jobs, log, lo, hi - 1) + DoneAt(jobs, log[hi - 1])
  }

  /** How many entries of the list the machine's stage and environment account for. */
  function Place(p: Plan, c: int): nat {
    if c < 0 then 0 else if c < |p.tasks| then c + 1 else |p.tasks|
  }

  predicate HeadFinished(s: Server) {
    Head(s.log) in s.jobs && s.jobs[Head(s.log)].state == Finished
  }

  /** How many entries are behind the machine for good. */
  function Progress(p: Plan, s: Server): nat {
    var c := s.machine.currentTask;
    if 0 <= c < |p.tasks| && !HeadFinished(s) then c else Place(p, c)
  }

  ghost predicate OnPlan(p: Plan, s: Server) {
    && ChainInv(s) && PlanOk(p)
    && s.stages == p.stages && s.machine.tasks == p.tasks && s.machine.workflow == p.wf
    && JobsOk(p, s.jobs, s.log)
  }

  /** Where the machine stands: its stage and environment are those of its place in the list. */
  predicate Standing(p: Plan, m: Machine) {
    -1 <= m.currentTask <= |p.tasks| && In(p, Place(p, m.currentTask), m.stage, m.bootEnv)
  }

  /** Which job is current at each place. */
  predicate Attended(p: Plan, s: Server) {
    var c := s.machine.currentTask;
    && (c < 0 ==> |s.log| == p.base)
    && (0 <= c < |p.tasks| ==>
          |s.log| > p.base && Head(s.log) in s.jobs && s.jobs[Head(s.log)].index == c)
    && (c >= |p.tasks| ==> Idle(s))
  }

  /** The finished task jobs are exactly the tasks behind the machine. */
  predicate Recorded(p: Plan, s: Server, n: nat)
    requires n <= |p.tasks|
  {
    Done(s.jobs, s.log, p.base, |s.log|) == Reading(p.tasks, n, p.s0, p.e0)
  }

  ghost predicate AgreeInv(p: Plan, s: Server) {
    && OnPlan(p, s)
    && Standing(p, s.machine)
    && Attended(p, s)
    && Recorded(p, s, Progress(p, s))
  }

  /** The current job leaves entry `start` next: it is done with the one before, or failed there. */
  predicate Leaves(p: Plan, s: Server, start: nat) {
    |s.log| > p.base ==>
      && Head(s.log) in s.jobs
      && var j := s.jobs[Head(s.log)];
         j.index < start || (j.index == start && j.state == Failed)
  }

  /** The state from which the walk resumes at entry `start`. */
  ghost predicate Ready(p: Plan, s: Server, start: nat) {
    && OnPlan(p, s) && Idle(s)
    && start <= |p.tasks|
    && In(p, start, s.machine.stage, s.machine.bootEnv)
    && Leaves(p, s, start)
    && Recorded(p, s, start)
  }

  // ----- small steps -----

  /** Passing over satisfied markers changes nothing. */
  lemma {:induction false} SkipMarks(p: Plan, i: nat, k: nat, stage: string, env: string)
    requires PlanOk(p) && i <= k <= |p.tasks|
    requires forall x :: i <= x < k ==> p.tasks[x] == StageMark(stage) || p.tasks[x] == EnvMark(env)
    requires In(p, i, stage, env)
    ensures In(p, k, stage, env)
    ensures Reading(p.tasks, k, p.s0, p.e0) == Reading(p.tasks, i, p.s0, p.e0)
  {
    if i < k {
      SkipMarks(p, i, k - 1, stage, env);
      assert EntryOk(p, k - 1) && (k < |p.tasks| ==> EntryOk(p, k));
    }
  }

  lemma {:induction false} DoneFrame(jobs: Jobs, log: seq<Uuid>, jobs': Jobs, log': seq<Uuid>, lo: nat, hi: nat)
    requires hi <= |log| && hi <= |log'|
    requires forall i :: lo <= i < hi ==> DoneAt(jobs, log[i]) == DoneAt(jobs', log'[i])
    ensures Done(jobs, log, lo, hi) == Done(jobs', log', lo, hi)
  {
    if lo < hi {
      DoneFrame(jobs, log, jobs', log', lo, hi - 1);
    }
  }

  /** Adding a job that is not yet finished work. */
  lemma AddAgrees(p: Plan, jobs: Jobs, jobs': Jobs, log: seq<Uuid>, u: Uuid)
    requires Extends(jobs, jobs', log, u)
    requires JobsOk(p, jobs, log)
    requires JobOk(p, jobs'[u]) && DoneAt(jobs', u) == []
    requires |log| > p.base ==> InOrder(jobs[log[|log| - 1]], jobs'[u])
    ensures JobsOk(p, jobs', log + [u])
    ensures Done(jobs', log + [u], p.base, |log| + 1) == Done(jobs, log, p.base, |log|)
  {
    var log' := log + [u];
    forall i | p.base <= i < |log'| ensures JobAt(p, jobs', log', i) {
      if i < |log| {
        assert JobAt(p, jobs, log, i);
      } else if i > p.base {
        assert log'[i - 1] == log[i - 1];
      }
    }
    DoneFrame(jobs, log, jobs', log', p.base, |log|);
  }

  // ----- job creation -----

  lemma ArriveRecorded(p: Plan, s: Server, s': Server, u: Uuid, k: nat)
    requires JobsOk(p, s.jobs, s.log) && Leaves(p, s, k) && k < |p.tasks| && Recorded(p, s, k)
    requires s'.log == s.log + [u] && Extends(s.jobs, s'.jobs, s.log, u)
    requires JobOk(p, s'.jobs[u]) && s'.jobs[u].index == k
    requires s'.jobs[u].state == if p.tasks[k].Task? then Created else Finished
    ensures JobsOk(p, s'.jobs, s'.log)
    ensures Recorded(p, s', if p.tasks[k].Task? then k else k + 1)
  {
    AddAgrees(p, s.jobs, s'.jobs, s.log, u);
  }

  /** Arriving at entry k: a new job for it, and a machine in the stage and environment it asks for. */
  lemma Arrive(p: Plan, s: Server, s': Server, u: Uuid, k: nat)
    requires Ready(p, s, k) && k < |p.tasks|
    requires ChainInv(s') && s'.log == s.log + [u] && Extends(s.jobs, s'.jobs, s.log, u)
    requires s'.stages == p.stages && s'.machine.tasks == p.tasks && s'.machine.workflow == p.wf
    requires JobOk(p, s'.jobs[u]) && s'.jobs[u].index == k == s'.machine.currentTask
    requires s'.jobs[u].state == if p.tasks[k].Task? then Created else Finished
    requires In(p, k + 1, s'.machine.stage, s'.machine.bootEnv)
    ensures AgreeInv(p, s')
  {
    ArriveRecorded(p, s, s', u, k);
    assert Head(s'.log) == u;
  }

  lemma StartTaskAgrees(p: Plan, s: Server, k: nat, b: Uuid)
    requires Ready(p, s, k) && k < |p.tasks| && p.tasks[k].Task?
    requires b !in s.jobs && b != 0
    ensures AgreeInv(p, StartTask(s, k, b).0)
  {
    var j := NewRecord(s.machine.(currentTask := k), s.machine.currentJob, k, Created);
    StartTaskKeepsChain(s, k, b);
    AddExtends(s, b, j);
    Arrive(p, s, StartTask(s, k, b).0, b, k);
  }

  /**
   An unsatisfied marker is a stage's, as every environment asked for has come with its stage
   already.  Entering it changes the machine, so no task job follows; the saved machine is in the
   stage asked for and in the environment of that place.
   */
  lemma MarkChanges(p: Plan, s: Server, k: nat, b: Uuid, mark: Uuid)
    requires PlanOk(p) && s.machine.tasks == p.tasks && s.stages == p.stages && k < |p.tasks|
    requires !p.tasks[k].Task? && !Satisfied(p.tasks[k], s.machine)
    requires In(p, k, s.machine.stage, s.machine.bootEnv)
    ensures var m1 := Enter(s.machine, p.tasks[k]).(currentTask := k, currentJob := mark);
            var s' := TakeMark(s, k, b, mark).0;
            && s' == SaveMachine(AddJob(s, mark, NewRecord(m1, s.machine.currentJob, k, Finished)), m1)
            && p.tasks[k].StageMark? && s'.machine.stage == m1.stage
            && In(p, k + 1, s'.machine.stage, s'.machine.bootEnv)
  {
    assert EntryOk(p, k) && (k + 1 < |p.tasks| ==> EntryOk(p, k + 1));
  }

  lemma MarkRecorded(p: Plan, s: Server, k: nat, b: Uuid, mark: Uuid)
    requires Ready(p, s, k) && k < |p.tasks| && mark !in s.jobs
    requires !p.tasks[k].Task? && !Satisfied(p.tasks[k], s.machine)
    ensures var s' := TakeMark(s, k, b, mark).0;
            && s'.log == s.log + [mark] && Extends(s.jobs, s'.jobs, s.log, mark)
            && s'.stages == p.stages && s'.machine.tasks == p.tasks && s'.machine.workflow == p.wf
            && s'.jobs[mark].index == k == s'.machine.currentTask && s'.jobs[mark].state == Finished
            && JobOk(p, s'.jobs[mark])
  {
    var m1 := Enter(s.machine, p.tasks[k]).(currentTask := k, currentJob := mark);
    var j := NewRecord(m1, s.machine.currentJob, k, Finished);
    MarkChanges(p, s, k, b, mark);
    AddExtends(s, mark, j);
    assert JobOk(p, j.(current := true));
  }

  lemma TakeMarkAgrees(p: Plan, s: Server, k: nat, b: Uuid, mark: Uuid)
    requires Ready(p, s, k) && k < |p.tasks|
    requires !p.tasks[k].Task? && !Satisfied(p.tasks[k], s.machine)
    requires Legal(s, Post(s.machine.uuid, b, mark))
    ensures AgreeInv(p, TakeMark(s, k, b, mark).0)
  {
    MarkChanges(p, s, k, b, mark);
    MarkRecorded(p, s, k, b, mark);
    TakeMarkKeepsChain(s, k, b, mark);
    Arrive(p, s, TakeMark(s, k, b, mark).0, mark, k);
  }

  lemma SeekReady(p: Plan, s: Server, start: nat)
    requires Ready(p, s, start) && start <= |s.machine.tasks|
    ensures Ready(p, s, Seek(s.machine, start))
  {
    SkipMarks(p, start, Seek(s.machine, start), s.machine.stage, s.machine.bootEnv);
  }

  lemma EndAgrees(p: Plan, s: Server)
    requires Ready(p, s, |p.tasks|)
    ensures AgreeInv(p, SaveMachine(s, s.machine.(currentTask := |p.tasks|)))
  {
  }

  lemma RunFromAgrees(p: Plan, s: Server, start: nat, b: Uuid, mark: Uuid)
    requires Ready(p, s, start)
    requires Legal(s, Post(s.machine.uuid, b, mark))
    ensures AgreeInv(p, RunFrom(s, start, b, mark).0)
    ensures RunFrom(s, start, b, mark).0.machine.currentTask >= start
  {
    var m := s.machine;
    if start == |m.tasks| {
      EndAgrees(p, s);
    } else {
      var k := Seek(m, start);
      SeekReady(p, s, start);
      if k == |m.tasks| {
        EndAgrees(p, s);
      } else if m.tasks[k].Task? {
        StartTaskAgrees(p, s, k, b);
      } else {
        TakeMarkAgrees(p, s, k, b, mark);
      }
    }
  }

  /** Markers are finished from the start, so a current job in any other state is a task's. */
  lemma HeadIsTask(p: Plan, s: Server)
    requires AgreeInv(p, s) && 0 <= s.machine.currentTask < |p.tasks| && !HeadFinished(s)
    ensures var c := s.machine.currentTask;
            && p.tasks[c].Task?
            && s.machine.stage == StageAt(p.tasks, c, p.s0)
            && s.machine.bootEnv == EnvAt(p.tasks, c, p.e0)
  {
    assert JobAt(p, s.jobs, s.log, |s.log| - 1);
  }

  /** Changing the state of a job from before the assignment. */
  lemma OldJobChanged(p: Plan, s: Server, u: Uuid, now: JobState)
    requires AgreeInv(p, s) && s.machine.currentTask < 0
    requires u in s.jobs && (u == Head(s.log) || Ended(now))
    ensures var s' := ChangeJob(s, u, s.jobs[u].(state := now));
            && AgreeInv(p, s') && s'.machine == s.machine && s'.log == s.log
            && s'.jobs == s.jobs[u := s.jobs[u].(state := now)]
  {
    ChangeKeepsChain(s, u, s.jobs[u].(state := now));
  }

  /** Two tables that agree on all jobs of the log but the last, which keeps its index. */
  predicate SameButHead(jobs: Jobs, jobs': Jobs, log: seq<Uuid>) {
    && |log| > 0 && Head(log) in jobs && Head(log) in jobs'
    && jobs'[Head(log)].index == jobs[Head(log)].index
    && forall i :: 0 <= i < |log| - 1 ==> log[i] in jobs && log[i] in jobs' && jobs'[log[i]] == jobs[log[i]]
  }

  lemma UpdateHead(jobs: Jobs, log: seq<Uuid>, j: Job)
    requires Distinct(log) && |log| > 0 && Head(log) in jobs && j.index == jobs[Head(log)].index
    requires forall i :: 0 <= i < |log| ==> log[i] in jobs
    ensures SameButHead(jobs, jobs[Head(log) := j], log)
  {
    forall i | 0 <= i < |log| - 1 ensures log[i] != Head(log) {
      NotHead(log, i);
    }
  }

  lemma HeadJobsOk(p: Plan, jobs: Jobs, jobs': Jobs, log: seq<Uuid>)
    requires p.base < |log| && JobsOk(p, jobs, log)
    requires SameButHead(jobs, jobs', log) && JobOk(p, jobs'[Head(log)])
    ensures JobsOk(p, jobs', log)
  {
    forall i | p.base <= i < |log| ensures JobAt(p, jobs', log, i) {
      assert JobAt(p, jobs, log, i);
    }
  }

  /** The current job changes state: work is recorded exactly when it finishes. */
  lemma HeadRecorded(p: Plan, s: Server, s': Server, j: Job)
    requires p.base < |s.log| && s'.log == s.log && SameButHead(s.jobs, s'.jobs, s.log)
    requires s.jobs[Head(s.log)].state != Finished && s'.jobs[Head(s.log)] == j
    requires JobOk(p, j) && j.task.Task? && Recorded(p, s, j.index)
    ensures Recorded(p, s', if j.state == Finished then j.index + 1 else j.index)
  {
    var n := |s.log|;
    DoneFrame(s.jobs, s.log, s'.jobs, s.log, p.base, n - 1);
    assert Done(s.jobs, s.log, p.base, n) == Done(s.jobs, s.log, p.base, n - 1);
    assert Done(s'.jobs, s.log, p.base, n) == Done(s'.jobs, s.log, p.base, n - 1) + DoneAt(s'.jobs, Head(s.log));
  }

  lemma HeadChanged(p: Plan, s: Server, now: JobState)
    requires AgreeInv(p, s) && 0 <= s.machine.currentTask < |p.tasks| && !Idle(s)
    ensures AgreeInv(p, ChangeJob(s, Head(s.log), s.jobs[Head(s.log)].(state := now)))
  {
    var u := Head(s.log);
    var j := s.jobs[u].(state := now);
    HeadIsTask(p, s);
    ChangeKeepsChain(s, u, j);
    assert JobAt(p, s.jobs, s.log, |s.log| - 1);
    var s' := s.(jobs := s.jobs[u := j]);
    UpdateHead(s.jobs, s.log, j);
    HeadJobsOk(p, s.jobs, s'.jobs, s.log);
    HeadRecorded(p, s, s', j);
  }

  /** After a finished job the walk resumes one entry on. */
  lemma FinishedReady(p: Plan, s: Server)
    requires AgreeInv(p, s) && s.machine.currentTask < |p.tasks|
    requires s.machine.currentTask < 0 ==> Idle(s)
    requires s.machine.currentTask >= 0 ==> HeadFinished(s)
    ensures Ready(p, s, s.machine.currentTask + 1)
  {
  }

  /** After a failed job the walk resumes at the entry that failed. */
  lemma FailedReady(p: Plan, s: Server)
    requires AgreeInv(p, s) && 0 <= s.machine.currentTask < |p.tasks|
    requires s.jobs[Head(s.log)].state == Failed
    ensures Ready(p, s, s.machine.currentTask)
  {
    HeadIsTask(p, s);
  }

  lemma PostAgrees(p: Plan, s: Server, on: Uuid, b: Uuid, mark: Uuid)
    requires AgreeInv(p, s) && Legal(s, Post(on, b, mark))
    ensures var s' := CreateJob(s, on, b, mark).0;
            AgreeInv(p, s') && s'.machine.currentTask >= s.machine.currentTask
  {
    var s' := CreateJob(s, on, b, mark).0;
    var m, cj := s.machine, CurrentJob(s);
    if on == m.uuid && MayRun(s) {
      if cj.index != m.currentTask && !Ended(cj.state) {
        OpenElsewhereIsOld(p, s);
        ResetAgrees(p, s, b, mark);
        assert s' == RunFrom(ChangeJob(s, m.currentJob, cj.(state := Failed)), 0, b, mark).0;
      } else if Ended(cj.state) {
        var start := if cj.state == Finished then Clamp(m.currentTask + 1) else Clamp(m.currentTask);
        WalkAgrees(p, s, start, b, mark);
        assert s' == RunFrom(s, start, b, mark).0;
      } else {
        assert s' == s;
      }
    } else {
      assert s' == s;
    }
  }

  /** An open job of another index is from before the assignment. */
  lemma OpenElsewhereIsOld(p: Plan, s: Server)
    requires AgreeInv(p, s) && s.machine.currentTask < |p.tasks|
    requires CurrentJob(s).index != s.machine.currentTask && !Ended(CurrentJob(s).state)
    ensures s.machine.currentTask < 0 && s.machine.currentJob in s.jobs
  {
  }

  /** An ended job is left behind or retried. */
  lemma WalkAgrees(p: Plan, s: Server, start: nat, b: Uuid, mark: Uuid)
    requires AgreeInv(p, s) && s.machine.currentTask < |p.tasks| && Legal(s, Post(s.machine.uuid, b, mark))
    requires Ended(CurrentJob(s).state)
    requires start == if CurrentJob(s).state == Finished then Clamp(s.machine.currentTask + 1) else Clamp(s.machine.currentTask)
    ensures AgreeInv(p, RunFrom(s, start, b, mark).0)
    ensures RunFrom(s, start, b, mark).0.machine.currentTask >= s.machine.currentTask
  {
    if CurrentJob(s).state == Finished || s.machine.currentTask < 0 {
      FinishedReady(p, s);
    } else {
      FailedReady(p, s);
    }
    RunFromAgrees(p, s, start, b, mark);
  }

  /** An open job left over from before the assignment is failed, and the walk starts at the top. */
  lemma ResetAgrees(p: Plan, s: Server, b: Uuid, mark: Uuid)
    requires AgreeInv(p, s) && Legal(s, Post(s.machine.uuid, b, mark))
    requires s.machine.currentTask < 0 && s.machine.currentJob in s.jobs
    ensures var cj := s.jobs[s.machine.currentJob].(state := Failed);
            var s' := RunFrom(ChangeJob(s, s.machine.currentJob, cj), 0, b, mark).0;
            AgreeInv(p, s') && s'.machine.currentTask >= 0
  {
    OldJobChanged(p, s, s.machine.currentJob, Failed);
    var s1 := ChangeJob(s, s.machine.currentJob, s.jobs[s.machine.currentJob].(state := Failed));
    FinishedReady(p, s1);
    RunFromAgrees(p, s1, 0, b, mark);
  }

  lemma PatchAgrees(p: Plan, s: Server, u: Uuid, was: JobState, now: JobState)
    requires AgreeInv(p, s) && AgentPatch(was, now)
    ensures AgreeInv(p, PatchJob(s, u, was, now))
  {
    if u in s.jobs && s.jobs[u].state == was {
      var k :| 0 <= k < |s.log| && s.log[k] == u;
      assert Linked(s.jobs, s.log, k);
      assert u == Head(s.log);
      if s.machine.currentTask < 0 {
        OldJobChanged(p, s, u, now);
      } else {
        HeadChanged(p, s, now);
      }
    }
  }

  lemma StepAgrees(p: Plan, s: Server, st: Step)
    requires AgreeInv(p, s) && Legal(s, st) && !st.Assign?
    ensures AgreeInv(p, Apply(s, st))
    ensures Apply(s, st).machine.currentTask >= s.machine.currentTask
  {
    match st
    case Post(on, b, mark) => PostAgrees(p, s, on, b, mark);
    case Patch(u, was, now) => PatchAgrees(p, s, u, was, now);
    case Flags(_, _) => StepKeepsChain(s, st);
  }

  predicate NoAssign(run: seq<Step>) {
    forall i :: 0 <= i < |run| ==> !run[i].Assign?
  }

  lemma {:induction false} RunAgrees(p: Plan, s: Server, run: seq<Step>)
    requires AgreeInv(p, s) && LegalRun(s, run) && NoAssign(run)
    ensures AgreeInv(p, Exec(s, run))
    ensures Exec(s, run).machine.currentTask >= s.machine.currentTask
    decreases run
  {
    if run != [] {
      StepAgrees(p, s, run[0]);
      RunAgrees(p, Apply(s, run[0]), run[1..]);
    }
  }

  // ----- the theorems -----

  /** A machine that is given a workflow starts in its first stage. */
  function FirstStage(s: Server, names: seq<string>): string {
    if names == [] then s.machine.stage else names[0]
  }

  /** And in that stage's environment, or in the one it was in if the stage has none of its own. */
  function FirstEnv(s: Server, names: seq<string>): string
    requires Known(names, s.stages)
  {
    if names == [] || s.stages[names[0]].bootEnv == "" then s.machine.bootEnv else s.stages[names[0]].bootEnv
  }

  function PlanFor(s: Server, wf: string, names: seq<string>): Plan
    requires Known(names, s.stages)
  {
    Plan(wf, Flatten(names, s.stages, ""), s.stages, FirstStage(s, names), FirstEnv(s, names), |s.log|)
  }

  lemma AssignAgrees(s: Server, wf: string, names: seq<string>)
    requires ChainInv(s) && Known(names, s.stages)
    ensures AgreeInv(PlanFor(s, wf, names), AssignWorkflow(s, wf, names))
  {
    var p, s' := PlanFor(s, wf, names), AssignWorkflow(s, wf, names);
    StepKeepsChain(s, Assign(wf, names));
    forall k | 0 <= k < |p.tasks| ensures EntryOk(p, k) {
      FlattenEnvFollows(names, s.stages, "", p.e0, k);
    }
  }

  /**
   Where an assignment puts the machine: at the top of the list, in the first stage and the
   environment that this brings, and still runnable just when the environment is the one it was in.
   */
  lemma AssignedMachine(s: Server, wf: string, names: seq<string>)
    requires Known(names, s.stages)
    ensures var m := AssignWorkflow(s, wf, names).machine;
            && m.workflow == wf && m.tasks == Flatten(names, s.stages, "") && m.currentTask == -1
            && m.stage == FirstStage(s, names) && m.bootEnv == FirstEnv(s, names)
            && (m.runnable <==> s.machine.runnable && FirstEnv(s, names) == s.machine.bootEnv)
            && m.uuid == s.machine.uuid && m.currentJob == s.machine.currentJob && m.available == s.machine.available
  {
  }

  /**
   Where the machine stands, along every run after an assignment: in the stage of the last stage
   entry it has passed, in the environment last asked for, and so in the own environment of its
   stage if it has one.
   */
  lemma MachineStands(s: Server, wf: string, names: seq<string>, run: seq<Step>)
    requires ChainInv(s) && Known(names, s.stages)
    requires LegalRun(AssignWorkflow(s, wf, names), run) && NoAssign(run)
    ensures var p := PlanFor(s, wf, names);
            var m := Exec(AssignWorkflow(s, wf, names), run).machine;
            && m.stage == StageAt(p.tasks, Place(p, m.currentTask), FirstStage(s, names))
            && m.bootEnv == EnvIn(p, Place(p, m.currentTask))
            && (names != [] ==> m.stage in names && m.bootEnv == EnvAfter(s.stages[m.stage], m.bootEnv))
  {
    var p, s1 := PlanFor(s, wf, names), AssignWorkflow(s, wf, names);
    AssignAgrees(s, wf, names);
    RunAgrees(p, s1, run);
    if names != [] {
      StageOfList(names, s.stages, "", Place(p, Exec(s1, run).machine.currentTask), names[0]);
    }
  }

  /** A list enters stages of its workflow only. */
  lemma {:induction false} StageOfList(names: seq<string>, stages: StageStore, lastEnv: string, k: nat, s0: string)
    requires Known(names, stages) && PlainStages(stages) && k <= |Flatten(names, stages, lastEnv)|
    ensures StageAt(Flatten(names, stages, lastEnv), k, s0) in names + [s0]
    decreases k
  {
    if k > 0 {
      StageOfList(names, stages, lastEnv, k - 1, s0);
      MarkOfList(names, stages, lastEnv, k - 1);
    }
  }

  lemma {:induction false} MarkOfList(names: seq<string>, stages: StageStore, lastEnv: string, k: nat)
    requires Known(names, stages) && PlainStages(stages) && k < |Flatten(names, stages, lastEnv)|
    ensures var t := Flatten(names, stages, lastEnv); t[k].StageMark? ==> t[k].name in names
    decreases names
  {
    var st := stages[names[0]];
    var block := [StageMark(names[0])] + EnvEntries(st, lastEnv) + st.tasks;
    var rest := Flatten(names[1..], stages, EnvAfter(st, lastEnv));
    assert Flatten(names, stages, lastEnv) == block + rest;
    if k >= |block| {
      MarkOfList(names[1..], stages, EnvAfter(st, lastEnv), k - |block|);
    }
  }

  lemma {:induction false} ReadingMonotone(t: seq<Entry>, n: nat, k: nat, s0: string, e0: string)
    requires n <= k <= |t|
    ensures Reading(t, n, s0, e0) <= Reading(t, k, s0, e0)
  {
    if n < k {
      ReadingMonotone(t, n, k - 1, s0, e0);
    }
  }

  lemma WorksPrefix(a: seq<Placed>, b: seq<Placed>)
    requires a <= b
    ensures Works(a) <= Works(b)
  {
    WorksConcat(a, b[|a|..]);
    assert a + b[|a|..] == b;
  }

  lemma ListMeans(s: Server, wf: string, names: seq<string>)
    requires Known(names, s.stages) && PlainStages(s.stages)
    ensures var p := PlanFor(s, wf, names);
            Works(Reading(p.tasks, |p.tasks|, p.s0, p.e0)) == Meaning(names, s.stages, s.machine.bootEnv)
  {
    var p := PlanFor(s, wf, names);
    FlattenMeaning(names, s.stages, "", p.s0, p.e0);
  }

  lemma EndIsAll(s: Server, wf: string, names: seq<string>, s': Server)
    requires Known(names, s.stages) && PlainStages(s.stages)
    requires AgreeInv(PlanFor(s, wf, names), s') && s'.machine.currentTask == |Flatten(names, s.stages, "")|
    ensures Works(Done(s'.jobs, s'.log, |s.log|, |s'.log|)) == Meaning(names, s.stages, s.machine.bootEnv)
  {
    ListMeans(s, wf, names);
  }

  /**
   Flattening preserves meaning over whole runs.  Assign a workflow to any machine a run can
   produce, then let requests, agent patches and flag changes follow in any order: the work
   recorded by the jobs created since, in creation order, is a prefix of the workflow's
   meaning, and the whole of it when the machine has reached the end of its list.
   */
  lemma WorkflowRunsInOrder(s: Server, wf: string, names: seq<string>, run: seq<Step>)
    requires ChainInv(s) && Known(names, s.stages)
    requires LegalRun(AssignWorkflow(s, wf, names), run) && NoAssign(run)
    ensures var s1 := AssignWorkflow(s, wf, names);
            var s' := Exec(s1, run);
            var done := Works(Done(s'.jobs, s'.log, |s.log|, |s'.log|));
            var wanted := Meaning(names, s.stages, s.machine.bootEnv);
            && done <= wanted
            && (s'.machine.currentTask == |Flatten(names, s.stages, "")| ==> done == wanted)
  {
    var p, s1 := PlanFor(s, wf, names), AssignWorkflow(s, wf, names);
    AssignAgrees(s, wf, names);
    RunAgrees(p, s1, run);
    var s' := Exec(s1, run);
    ListMeans(s, wf, names);
    ReadingMonotone(p.tasks, Progress(p, s'), |p.tasks|, p.s0, p.e0);
    WorksPrefix(Reading(p.tasks, Progress(p, s'), p.s0, p.e0), Reading(p.tasks, |p.tasks|, p.s0, p.e0));
  }

  /**
   Each job has the stage and environment its entry of the list stands in, and those that are no
   tasks record that a stage was entered.
   */
  lemma JobsAgree(s: Server, wf: string, names: seq<string>, run: seq<Step>, i: nat)
    requires ChainInv(s) && Known(names, s.stages)
    requires LegalRun(AssignWorkflow(s, wf, names), run) && NoAssign(run)
    requires |s.log| <= i < |Exec(AssignWorkflow(s, wf, names), run).log|
    ensures var t := Flatten(names, s.stages, "");
            var s' := Exec(AssignWorkflow(s, wf, names), run);
            && s'.log[i] in s'.jobs
            && var j := s'.jobs[s'.log[i]];
            && 0 <= j.index < |t| && j.next == j.index + 1 && j.task == t[j.index] && j.workflow == wf
            && j.stage == StageAt(t, j.index + 1, FirstStage(s, names))
            && j.bootEnv == EnvAt(t, j.index, FirstEnv(s, names))
            && (j.task.Task? || (j.task.StageMark? && j.state == Finished))
            && (i > |s.log| ==> j.previous in s'.jobs && InOrder(s'.jobs[j.previous], j))
  {
    var p, s1 := PlanFor(s, wf, names), AssignWorkflow(s, wf, names);
    AssignAgrees(s, wf, names);
    RunAgrees(p, s1, run);
    var s' := Exec(s1, run);
    assert JobAt(p, s'.jobs, s'.log, i);
    assert Linked(s'.jobs, s'.log, i);
  }

  lemma {:induction false} ReadingHas(t: seq<Entry>, n: nat, s0: string, e0: string, k: nat) returns (i: nat)
    requires k < n <= |t| && t[k].Task?
    ensures i < |Reading(t, n, s0, e0)| && Reading(t, n, s0, e0)[i].index == k
  {
    if k == n - 1 {
      i := |Reading(t, n - 1, s0, e0)|;
    } else {
      i := ReadingHas(t, n - 1, s0, e0, k);
    }
  }

  lemma {:induction false} DoneFrom(jobs: Jobs, log: seq<Uuid>, lo: nat, hi: nat, i: nat) returns (x: nat)
    requires hi <= |log| && i < |Done(jobs, log, lo, hi)|
    ensures lo <= x < hi && log[x] in jobs && jobs[log[x]].state == Finished
    ensures jobs[log[x]].index == Done(jobs, log, lo, hi)[i].index
  {
    if i < |Done(jobs, log, lo, hi - 1)| {
      x := DoneFrom(jobs, log, lo, hi - 1, i);
    } else {
      x := hi - 1;
    }
  }

  ghost predicate HasFinished(s: Server, base: nat, k: nat) {
    exists i :: base <= i < |s.log| && s.log[i] in s.jobs
                && s.jobs[s.log[i]].index == k && s.jobs[s.log[i]].state == Finished
  }

  lemma TaskBehind(p: Plan, s: Server, k: nat)
    requires AgreeInv(p, s) && k < s.machine.currentTask && p.tasks[k].Task?
    ensures HasFinished(s, p.base, k)
  {
    var i := ReadingHas(p.tasks, Progress(p, s), p.s0, p.e0, k);
    var x := DoneFrom(s.jobs, s.log, p.base, |s.log|, i);
  }

  /**
   No task is skipped: the walk never goes back, stays within the list, and every task behind
   the machine has a job of this assignment that finished.
   */
  lemma NoTaskSkipped(s: Server, wf: string, names: seq<string>, run: seq<Step>, more: seq<Step>, k: nat)
    requires ChainInv(s) && Known(names, s.stages)
    requires LegalRun(AssignWorkflow(s, wf, names), run) && NoAssign(run)
    requires LegalRun(Exec(AssignWorkflow(s, wf, names), run), more) && NoAssign(more)
    ensures var t := Flatten(names, s.stages, "");
            var s' := Exec(AssignWorkflow(s, wf, names), run);
            && -1 <= s'.machine.currentTask <= Exec(s', more).machine.currentTask <= |t|
            && s'.machine.tasks == t
            && (k < s'.machine.currentTask && t[k].Task? ==>
                  HasFinished(s', |s.log|, k))
  {
    var p, s1 := PlanFor(s, wf, names), AssignWorkflow(s, wf, names);
    AssignAgrees(s, wf, names);
    RunAgrees(p, s1, run);
    var s' := Exec(s1, run);
    RunAgrees(p, s', more);
    if k < s'.machine.currentTask && p.tasks[k].Task? {
      TaskBehind(p, s', k);
    }
  }
}
