/**
 Whole runs of the job protocol: any interleaving of job-creation requests, state patches by
 the agent, changes of the machine's flags and workflow assignments.

 Along every such run the jobs of a machine form one chain whose head is the machine's
 current job.
 */
module JobRuns {
  import opened TaskList
  import opened Workflow
  import opened JobModel
  import opened Sequences

  datatype Step =
    | Post(on: Uuid, b: Uuid, mark: Uuid)
    | Patch(u: Uuid, was: JobState, now: JobState)
    | Flags(runnable: bool, available: bool)
    | Assign(wf: string, names: seq<string>)

  /** New identifiers are unused, and only the agent changes job states. */
  predicate Legal(s: Server, st: Step) {
    match st
    case Post(_, b, mark) => b !in s.jobs && mark !in s.jobs && b != mark && b != 0 && mark != 0
    case Patch(_, was, now) => AgentPatch(was, now)
    case Flags(_, _) => true
    case Assign(_, names) => Known(names, s.stages)
  }

  function Apply(s: Server, st: Step): Server
    requires Legal(s, st)
  {
    match st
    case Post(on, b, mark) => CreateJob(s, on, b, mark).0
    case Patch(u, was, now) => PatchJob(s, u, was, now)
    case Flags(runnable, available) => SetFlags(s, runnable, available)
    case Assign(wf, names) => AssignWorkflow(s, wf, names)
  }

  predicate LegalRun(s: Server, run: seq<Step>)
    decreases run
  {
    run == [] || (Legal(s, run[0]) && LegalRun(Apply(s, run[0]), run[1..]))
  }

  function Exec(s: Server, run: seq<Step>): Server
    requires LegalRun(s, run)
    decreases run
  {
    if run == [] then s else Exec(Apply(s, run[0]), run[1..])
  }

  // ----- the chain of jobs -----

  function Head(log: seq<Uuid>): Uuid {
    if log == [] then 0 else log[|log| - 1]
  }

  lemma NotHead(log: seq<Uuid>, i: nat)
    requires Distinct(log) && i < |log|
    ensures log[i] == Head(log) <==> i == |log| - 1
  {
    assert i < |log| - 1 ==> Differ(log, i, |log| - 1);
  }

  function Before(log: seq<Uuid>, i: nat): Uuid
    requires i < |log|
  {
    if i == 0 then 0 else log[i - 1]
  }

  predicate Covers(jobs: Jobs, log: seq<Uuid>) {
    && 0 !in jobs
    && Distinct(log)
    && (forall u :: u in jobs ==> u in log)
    && (forall i :: 0 <= i < |log| ==> log[i] in jobs)
  }

  /** Each job follows the one created before it; only the last may be open, and is current. */
  predicate Linked(jobs: Jobs, log: seq<Uuid>, i: nat)
    requires i < |log| && log[i] in jobs
  {
    var j := jobs[log[i]];
    && j.previous == Before(log, i)
    && j.index >= 0
    && (j.current <==> i == |log| - 1)
    && (i < |log| - 1 ==> Ended(j.state))
  }

  predicate Chain(jobs: Jobs, log: seq<Uuid>) {
    && Covers(jobs, log)
    && forall i :: 0 <= i < |log| ==> Linked(jobs, log, i)
  }

  predicate ChainInv(s: Server) {
    && Chain(s.jobs, s.log)
    && s.machine.currentJob == Head(s.log)
    && ServerOk(s)
    && PlainStages(s.stages)
  }

  predicate Idle(s: Server) {
    s.log == [] || (Head(s.log) in s.jobs && Ended(s.jobs[Head(s.log)].state))
  }

  /** A table that differs from `jobs` in one new job, and in that no older job is current. */
  predicate Extends(jobs: Jobs, jobs': Jobs, log: seq<Uuid>, u: Uuid) {
    && jobs'.Keys == jobs.Keys + {u}
    && forall i :: 0 <= i < |log| ==>
                     log[i] in jobs && log[i] in jobs' && jobs'[log[i]] == jobs[log[i]].(current := false)
  }

  lemma ChainGrows(jobs: Jobs, jobs': Jobs, log: seq<Uuid>, u: Uuid)
    requires Chain(jobs, log)
    requires log != [] ==> Ended(jobs[log[|log| - 1]].state)
    requires u !in jobs && u != 0 && Extends(jobs, jobs', log, u)
    requires jobs'[u].previous == Head(log) && jobs'[u].index >= 0 && jobs'[u].current
    ensures Chain(jobs', log + [u])
  {
    var log' := log + [u];
    assert Covers(jobs', log') by {
      forall v | v in jobs' ensures v in log' {
        assert v == u || v in log;
      }
      forall i, j | 0 <= i < j < |log'| ensures Differ(log', i, j) {
        assert log'[i] == log[i];
        assert j < |log| ==> Differ(log, i, j);
      }
    }
    forall i | 0 <= i < |log'| ensures Linked(jobs', log', i) {
      if i < |log| {
        assert Linked(jobs, log, i);
        assert log'[i] == log[i] && Before(log', i) == Before(log, i);
      }
    }
  }

  lemma AddExtends(s: Server, u: Uuid, j: Job)
    requires Chain(s.jobs, s.log) && u !in s.jobs && j.previous == Head(s.log)
    ensures Extends(s.jobs, AddJob(s, u, j).jobs, s.log, u)
  {
    forall i | 0 <= i < |s.log|
      ensures AddJob(s, u, j).jobs[s.log[i]] == s.jobs[s.log[i]].(current := false)
    {
      assert Linked(s.jobs, s.log, i);
    }
  }

  lemma AddKeepsChain(s: Server, u: Uuid, j: Job)
    requires Chain(s.jobs, s.log) && Idle(s)
    requires u !in s.jobs && u != 0
    requires j.previous == Head(s.log) && j.index >= 0
    ensures var s' := AddJob(s, u, j);
            && Chain(s'.jobs, s'.log) && Head(s'.log) == u
            && Extends(s.jobs, s'.jobs, s.log, u) && s'.jobs[u] == j.(current := true)
  {
    AddExtends(s, u, j);
    ChainGrows(s.jobs, AddJob(s, u, j).jobs, s.log, u);
  }

  lemma ChangeKeepsChain(s: Server, u: Uuid, j: Job)
    requires Chain(s.jobs, s.log) && u in s.jobs
    requires j == s.jobs[u].(state := j.state)
    requires u == Head(s.log) || Ended(j.state)
    ensures ChangeJob(s, u, j) == s.(jobs := s.jobs[u := j])
    ensures Chain(ChangeJob(s, u, j).jobs, s.log)
  {
    var k :| 0 <= k < |s.log| && s.log[k] == u;
    assert Linked(s.jobs, s.log, k);
    if k > 0 {
      assert Linked(s.jobs, s.log, k - 1);
    }
    var jobs' := s.jobs[u := j];
    assert Supersede(s.jobs, j)[u := j] == jobs';
    assert jobs'.Keys == s.jobs.Keys;
    forall i | 0 <= i < |s.log| ensures Linked(jobs', s.log, i) {
      assert Linked(s.jobs, s.log, i);
      NotHead(s.log, i);
    }
  }

  lemma StartTaskKeepsChain(s: Server, k: nat, b: Uuid)
    requires ChainInv(s) && Idle(s) && b !in s.jobs && b != 0
    requires k < |s.machine.tasks|
    ensures ChainInv(StartTask(s, k, b).0)
  {
    AddKeepsChain(s, b, NewRecord(s.machine.(currentTask := k), s.machine.currentJob, k, Created));
  }

  lemma TakeMarkKeepsChain(s: Server, k: nat, b: Uuid, mark: Uuid)
    requires ChainInv(s) && Idle(s)
    requires Legal(s, Post(s.machine.uuid, b, mark))
    requires k < |s.machine.tasks|
    ensures ChainInv(TakeMark(s, k, b, mark).0)
  {
    var m := s.machine;
    var m1 := Enter(m, m.tasks[k]).(currentTask := k, currentJob := mark);
    var done := NewRecord(m1, m.currentJob, k, Finished);
    AddKeepsChain(s, mark, done);
    var s1 := AddJob(s, mark, done).(machine := m1);
    assert ChainInv(s1);
    if m1.stage == m.stage && m1.bootEnv == m.bootEnv {
      StartTaskKeepsChain(s1, k, b);
    }
  }

  lemma RunFromKeepsChain(s: Server, start: nat, b: Uuid, mark: Uuid)
    requires ChainInv(s) && Idle(s)
    requires Legal(s, Post(s.machine.uuid, b, mark))
    ensures ChainInv(RunFrom(s, start, b, mark).0)
  {
    var m := s.machine;
    if start < |m.tasks| {
      var k := Seek(m, start);
      if k < |m.tasks| {
        if m.tasks[k].Task? {
          StartTaskKeepsChain(s, k, b);
        } else {
          TakeMarkKeepsChain(s, k, b, mark);
        }
      }
    }
  }

  lemma PostKeepsChain(s: Server, on: Uuid, b: Uuid, mark: Uuid)
    requires ChainInv(s) && Legal(s, Post(on, b, mark))
    ensures ChainInv(CreateJob(s, on, b, mark).0)
  {
    var m, cj := s.machine, CurrentJob(s);
    if on == m.uuid && m.runnable && m.available && m.currentTask < |m.tasks| {
      if cj.index != m.currentTask && !Ended(cj.state) {
        ChangeKeepsChain(s, m.currentJob, cj.(state := Failed));
        RunFromKeepsChain(ChangeJob(s, m.currentJob, cj.(state := Failed)), Clamp(m.currentTask), b, mark);
      } else if cj.state == Finished {
        RunFromKeepsChain(s, Clamp(m.currentTask + 1), b, mark);
      } else if cj.state == Failed {
        RunFromKeepsChain(s, Clamp(m.currentTask), b, mark);
      }
    }
  }

  lemma StepKeepsChain(s: Server, st: Step)
    requires ChainInv(s) && Legal(s, st)
    ensures ChainInv(Apply(s, st))
  {
    match st
    case Post(on, b, mark) => PostKeepsChain(s, on, b, mark);
    case Patch(u, was, now) =>
      if u in s.jobs && s.jobs[u].state == was {
        var k :| 0 <= k < |s.log| && s.log[k] == u;
        assert Linked(s.jobs, s.log, k);
        ChangeKeepsChain(s, u, s.jobs[u].(state := now));
      }
    case Flags(_, _) =>
    case Assign(wf, names) =>
      var t := Flatten(names, s.stages, "");
      forall k | 0 <= k < |t| ensures !t[k].Malformed? && (t[k].StageMark? ==> t[k].name in s.stages) {
        FlattenEnvFollows(names, s.stages, "", "", k);
      }
  }

  lemma {:induction false} RunKeepsChain(s: Server, run: seq<Step>)
    requires ChainInv(s) && LegalRun(s, run)
    ensures ChainInv(Exec(s, run))
    decreases run
  {
    if run != [] {
      StepKeepsChain(s, run[0]);
      RunKeepsChain(Apply(s, run[0]), run[1..]);
    }
  }

  /** The n-th job before u, or 0 once the chain has ended. */
  function Follow(jobs: Jobs, u: Uuid, n: nat): Uuid
    decreases n
  {
    if n == 0 then u
    else if u in jobs then Follow(jobs, jobs[u].previous, n - 1)
    else 0
  }

  lemma {:induction false} FollowLog(jobs: Jobs, log: seq<Uuid>, i: nat, n: nat)
    requires Chain(jobs, log) && i < |log|
    ensures Follow(jobs, log[i], n) == if n <= i then log[i - n] else 0
    decreases n
  {
    if n > 0 {
      assert Linked(jobs, log, i);
      assert Follow(jobs, log[i], n) == Follow(jobs, Before(log, i), n - 1);
      if i > 0 {
        FollowLog(jobs, log, i - 1, n - 1);
      }
    }
  }

  predicate Fresh(s: Server) {
    s.jobs == map[] && s.log == [] && s.machine.currentJob == 0 && ServerOk(s) && PlainStages(s.stages)
  }

  /**
   Along every run of a machine that starts without jobs: only the current job can be open,
   only it is marked current, and following `previous` never comes back to a job.
   */
  lemma OneOpenJob(s: Server, run: seq<Step>, u: Uuid, n: nat)
    requires Fresh(s) && LegalRun(s, run)
    requires u in Exec(s, run).jobs && n > 0
    ensures var s' := Exec(s, run);
            && (!Ended(s'.jobs[u].state) ==> u == s'.machine.currentJob)
            && (s'.jobs[u].current <==> u == s'.machine.currentJob)
            && Follow(s'.jobs, u, n) != u
  {
    RunKeepsChain(s, run);
    var s' := Exec(s, run);
    var i :| 0 <= i < |s'.log| && s'.log[i] == u;
    assert Linked(s'.jobs, s'.log, i);
    NotHead(s'.log, i);
    assert n <= i ==> Differ(s'.log, i - n, i);
    FollowLog(s'.jobs, s'.log, i, n);
  }

  // ----- what a request is answered with -----

  /** A task job for entry k of the machine as it is. */
  predicate Offered(s: Server, s': Server, b: Uuid) {
    && b in s'.jobs && s'.machine.currentJob == b
    && var j := s'.jobs[b];
       && j.state == Created && j.task.Task?
       && j.index == s'.machine.currentTask && j.previous == s.machine.currentJob
       && 0 <= j.index < |s.machine.tasks| && j.task == s.machine.tasks[j.index]
       && j.stage == s.machine.stage == s'.machine.stage
       && j.bootEnv == s.machine.bootEnv == s'.machine.bootEnv
  }

  /** The environment that entering a stage brings: its own, or none but the one in force. */
  function OwnEnv(stages: StageStore, stage: string, env: string): string {
    if stage !in stages || stages[stage].bootEnv == "" then env else stages[stage].bootEnv
  }

  /**
   What a walk from entry `start` does.  A job is offered in the stage and environment the machine
   is in; a new stage brings its environment; a new environment stops the machine, and nothing
   else does.
   */
  predicate Walked(s: Server, start: nat, s': Server, r: Reply, b: Uuid) {
    && (r == NoJob || r == NewJob(b))
    && (r == NewJob(b) ==> Offered(s, s', b) && s'.machine.runnable && s'.machine.currentTask >= start)
    && (s'.machine.runnable <==> s'.machine.bootEnv == s.machine.bootEnv)
    && (!s'.machine.runnable ==> r == NoJob)
    && (s'.machine.stage != s.machine.stage ==>
          && r == NoJob && 0 <= s'.machine.currentTask < |s.machine.tasks|
          && s.machine.tasks[s'.machine.currentTask] == StageMark(s'.machine.stage)
          && s'.machine.bootEnv == OwnEnv(s.stages, s'.machine.stage, s.machine.bootEnv))
    && (s'.machine.stage == s.machine.stage && s'.machine.bootEnv != s.machine.bootEnv ==>
          && 0 <= s'.machine.currentTask < |s.machine.tasks|
          && s.machine.tasks[s'.machine.currentTask] == EnvMark(s'.machine.bootEnv))
    && (r == NoJob && s'.machine.stage == s.machine.stage && s'.machine.bootEnv == s.machine.bootEnv ==>
          s'.machine.currentTask == |s.machine.tasks|)
  }

  lemma WalkAnswers(s: Server, start: nat, b: Uuid, mark: Uuid)
    requires ServerOk(s) && s.machine.runnable && s.machine.available && b !in s.jobs
    ensures var (s', r) := RunFrom(s, start, b, mark); Walked(s, start, s', r, b)
  {
    var m := s.machine;
    if start < |m.tasks| {
      var k := Seek(m, start);
      if k < |m.tasks| && !m.tasks[k].Task? {
        assert m.tasks[k] != StageMark(m.stage) && m.tasks[k] != EnvMark(m.bootEnv);
      }
    }
  }

  predicate MayRun(s: Server) {
    s.machine.runnable && s.machine.available && s.machine.currentTask < |s.machine.tasks|
  }

  /** A request with an effect walks the list, from the server as it is or with the current job failed. */
  lemma PostWalks(s: Server, b: Uuid, mark: Uuid) returns (s1: Server, start: nat)
    requires ChainInv(s) && Legal(s, Post(s.machine.uuid, b, mark)) && MayRun(s)
    requires CurrentJob(s).index != s.machine.currentTask || Ended(CurrentJob(s).state)
    ensures CreateJob(s, s.machine.uuid, b, mark) == RunFrom(s1, start, b, mark)
    ensures s1.machine == s.machine && s1.stages == s.stages && s1.jobs.Keys == s.jobs.Keys
    ensures start == if CurrentJob(s).state == Finished then Clamp(s.machine.currentTask + 1) else Clamp(s.machine.currentTask)
  {
    var m, cj := s.machine, CurrentJob(s);
    s1, start := s, Clamp(m.currentTask);
    if !Ended(cj.state) {
      ChangeKeepsChain(s, m.currentJob, cj.(state := Failed));
      s1 := ChangeJob(s, m.currentJob, cj.(state := Failed));
    } else if cj.state == Finished {
      start := Clamp(m.currentTask + 1);
    }
  }

  lemma WalkedFrom(s: Server, s1: Server, start: nat, s': Server, r: Reply, b: Uuid)
    requires Walked(s1, start, s', r, b) && s1.machine == s.machine && s1.stages == s.stages
    requires start >= Clamp(s.machine.currentTask)
    ensures Walked(s, Clamp(s.machine.currentTask), s', r, b)
  {
  }

  /**
   The answers.  A request for another machine, or for one that may not run, changes nothing.  A
   conflict is answered just when the current job of the current task is created or running, a
   rerun just when it is incomplete, and neither changes anything.  Any job that is offered is a
   plain task of the list, in the stage and environment the machine is in, and follows the current
   job.  Without a job, either the stage or environment has changed, and a machine whose
   environment has changed may not run on, or the end of the list has been reached.
   */
  predicate Answered(s: Server, on: Uuid, a: (Server, Reply), b: Uuid) {
    var (s', r) := a;
    var mine := on == s.machine.uuid;
    var open := s.machine.currentJob in s.jobs;
    var cj := CurrentJob(s);
    && (r == NoSuchMachine <==> !mine)
    && (r == NotRunnable <==> mine && !(s.machine.runnable && s.machine.available))
    && (!mine || !MayRun(s) ==> s' == s && r in {NoSuchMachine, NotRunnable, NoJob})
    && (r == AlreadyRunning <==> mine && MayRun(s) && open && cj.index == s.machine.currentTask
                                 && cj.state in {Created, Running})
    && (r.Rerun? <==> mine && MayRun(s) && open && cj.index == s.machine.currentTask && cj.state == Incomplete)
    && (r == AlreadyRunning || r.Rerun? ==> s' == s)
    && (r.Rerun? ==> r.job == s.machine.currentJob)
    && (r in {NoJob, NewJob(b)} && MayRun(s) ==>
          Walked(s, Clamp(s.machine.currentTask), s', r, b))
    && r in {NoSuchMachine, NotRunnable, AlreadyRunning, Rerun(s.machine.currentJob), NoJob, NewJob(b)}
  }

  lemma AnswersFrom(s: Server, on: Uuid, b: Uuid, mark: Uuid)
    requires ChainInv(s) && Legal(s, Post(on, b, mark))
    ensures Answered(s, on, CreateJob(s, on, b, mark), b)
  {
    var m, cj := s.machine, CurrentJob(s);
    if on == m.uuid && MayRun(s) && (cj.index != m.currentTask || Ended(cj.state)) {
      var s1, start := PostWalks(s, b, mark);
      WalkAnswers(s1, start, b, mark);
      var (s', r) := RunFrom(s1, start, b, mark);
      WalkedFrom(s, s1, start, s', r, b);
    }
  }

  /** Every request is answered so, in every state a run can reach. */
  lemma RequestAnswers(s0: Server, run: seq<Step>, on: Uuid, b: Uuid, mark: Uuid)
    requires Fresh(s0) && LegalRun(s0, run)
    requires Legal(Exec(s0, run), Post(on, b, mark))
    ensures var s := Exec(s0, run); Answered(s, on, CreateJob(s, on, b, mark), b)
  {
    RunKeepsChain(s0, run);
    AnswersFrom(Exec(s0, run), on, b, mark);
  }

  lemma WalkStops(s: Server, start: nat, b: Uuid, mark: Uuid)
    ensures var m, m' := s.machine, RunFrom(s, start, b, mark).0.machine;
            m'.runnable <==> m.runnable && m'.bootEnv == m.bootEnv
  {
  }

  /**
   What makes a machine not runnable: of all steps but a change of its flags, just those that
   change its environment, and no such step makes it runnable.
   */
  lemma StopsIff(s: Server, st: Step)
    requires ChainInv(s) && Legal(s, st) && !st.Flags?
    ensures var m, m' := s.machine, Apply(s, st).machine;
            m'.runnable <==> m.runnable && m'.bootEnv == m.bootEnv
  {
    if st.Post? && st.on == s.machine.uuid && MayRun(s) {
      var cj := CurrentJob(s);
      if cj.index != s.machine.currentTask || Ended(cj.state) {
        var s1, start := PostWalks(s, st.b, st.mark);
        WalkStops(s1, start, st.b, st.mark);
      }
    }
  }

  /**
   A failed task is offered again, and so is one whose job has no record: on a machine that may run,
   the next request makes a job for the very entry it stands at.
   */
  lemma FailedTaskAgain(s: Server, b: Uuid, mark: Uuid)
    requires MayRun(s) && s.machine.currentTask >= 0 && s.machine.tasks[s.machine.currentTask].Task?
    requires s.machine.currentJob in s.jobs ==> s.jobs[s.machine.currentJob].state == Failed
    ensures var (s', r) := CreateJob(s, s.machine.uuid, b, mark);
            && r == NewJob(b) && b in s'.jobs && s'.machine.currentJob == b
            && s'.jobs[b].index == s.machine.currentTask && s'.jobs[b].task == s.machine.tasks[s.machine.currentTask]
            && s'.jobs[b].state == Created && s'.jobs[b].previous == s.machine.currentJob
  {
    assert Seek(s.machine, s.machine.currentTask) == s.machine.currentTask;
  }
}
