/**
 The server's side of job creation (frontend/job_create.go) together with the hooks that run
 on every save of a job (backend/jobs.go) and of a machine (backend/machines.go), as
 functions on a value state.  The class in JobServer.dfy is proved to compute them.
 */
module JobModel {
  import opened TaskList
  import opened Workflow

  type Uuid = nat

  datatype JobState = Created | Running | Incomplete | Finished | Failed

  predicate Ended(st: JobState) {
    st == Finished || st == Failed
  }

  datatype Job = Job(
    previous: Uuid, task: Entry, stage: string, bootEnv: string, workflow: string,
    index: int, next: int, state: JobState, current: bool)

  datatype Machine = Machine(
    uuid: Uuid, workflow: string, stage: string, bootEnv: string,
    tasks: seq<Entry>, currentTask: int, currentJob: Uuid,
    runnable: bool, available: bool)

  datatype WorkflowDef = WorkflowDef(stages: seq<string>, available: bool)

  type WorkflowStore = map<string, WorkflowDef>

  type Jobs = map<Uuid, Job>

  /** One machine, its jobs, the stages they refer to, and the order the jobs were created in. */
  datatype Server = Server(machine: Machine, jobs: Jobs, stages: StageStore, log: seq<Uuid>)

  /** What machine validation asks of a task list before it calls the machine available. */
  predicate TasksOk(tasks: seq<Entry>, stages: StageStore) {
    forall k :: 0 <= k < |tasks| ==>
                  !tasks[k].Malformed? && (tasks[k].StageMark? ==> tasks[k].name in stages)
  }

  predicate ServerOk(s: Server) {
    s.machine.available ==> TasksOk(s.machine.tasks, s.stages)
  }

  // ----- saving jobs and machines -----

  /** Saving a current job marks its predecessor as superseded. */
  function Supersede(jobs: Jobs, j: Job): Jobs {
    if j.current && j.previous in jobs
    then jobs[j.previous := jobs[j.previous].(current := false)]
    else jobs
  }

  function AddJob(s: Server, u: Uuid, j: Job): Server {
    var nj := j.(current := true);
    s.(jobs := Supersede(s.jobs, nj)[u := nj], log := s.log + [u])
  }

  function ChangeJob(s: Server, u: Uuid, j: Job): Server
    requires u in s.jobs
  {
    var nj := j.(current := s.jobs[u].current);
    s.(jobs := Supersede(s.jobs, nj)[u := nj])
  }

  /** Entering a stage takes on its environment; a changed environment stops the machine. */
  function SaveMachine(s: Server, m: Machine): Server {
    var env := if m.stage != s.machine.stage && m.stage in s.stages
               then EnvAfter(s.stages[m.stage], m.bootEnv) else m.bootEnv;
    s.(machine := m.(bootEnv := env, runnable := m.runnable && env == s.machine.bootEnv))
  }

  // ----- creating a job -----

  datatype Reply =
    | NoSuchMachine
    | NotRunnable
    | AlreadyRunning
    | Rerun(job: Uuid)
    | NoJob
    | NewJob(job: Uuid)

  predicate Satisfied(e: Entry, m: Machine) {
    e == StageMark(m.stage) || e == EnvMark(m.bootEnv)
  }

  /** First entry at or after k that is a task or asks for a change of stage or environment. */
  function Seek(m: Machine, k: nat): (j: nat)
    requires k <= |m.tasks|
    ensures k <= j <= |m.tasks|
    ensures forall i :: k <= i < j ==> Satisfied(m.tasks[i], m)
    ensures j < |m.tasks| ==> !Satisfied(m.tasks[j], m)
    decreases |m.tasks| - k
  {
    if k < |m.tasks| && Satisfied(m.tasks[k], m) then Seek(m, k + 1) else k
  }

  /** The current job, or a failed stand-in when its record does not exist. */
  function CurrentJob(s: Server): Job {
    if s.machine.currentJob in s.jobs then s.jobs[s.machine.currentJob]
    else Job(0, Task(""), "", "", "", 0, 0, Failed, false)
  }

  function NewRecord(m: Machine, previous: Uuid, k: int, st: JobState): Job
    requires 0 <= k < |m.tasks|
  {
    Job(previous, m.tasks[k], m.stage, m.bootEnv, m.workflow, k, k + 1, st, false)
  }

  function Enter(m: Machine, e: Entry): Machine {
    match e
    case StageMark(name) => m.(stage := name)
    case EnvMark(name) => m.(bootEnv := name)
    case _ => m
  }

  function StartTask(s: Server, k: nat, b: Uuid): (Server, Reply)
    requires k < |s.machine.tasks|
  {
    var m1 := s.machine.(currentTask := k);
    var s1 := AddJob(s, b, NewRecord(m1, m1.currentJob, k, Created));
    (SaveMachine(s1, m1.(currentJob := b)), NewJob(b))
  }

  /**
   Entry k is a marker: record it in a finished job.  If that changes the stage or the
   environment, stop there without a task job so that the machine can be rebooted.
   */
  function TakeMark(s: Server, k: nat, b: Uuid, mark: Uuid): (Server, Reply)
    requires k < |s.machine.tasks|
  {
    var m := s.machine;
    var m1 := Enter(m, m.tasks[k]).(currentTask := k, currentJob := mark);
    var s1 := AddJob(s, mark, NewRecord(m1, m.currentJob, k, Finished));
    if m1.stage != m.stage || m1.bootEnv != m.bootEnv then (SaveMachine(s1, m1), NoJob)
    else StartTask(s1.(machine := m1), k, b)
  }

  /** Walk the list from `start`, stopping at the first task or change of stage or environment. */
  function RunFrom(s: Server, start: nat, b: Uuid, mark: Uuid): (Server, Reply) {
    var m := s.machine;
    if start >= |m.tasks| then (SaveMachine(s, m.(currentTask := |m.tasks|)), NoJob)
    else
      var k := Seek(m, start);
      if k >= |m.tasks| then (SaveMachine(s, m.(currentTask := k)), NoJob)
      else if m.tasks[k].Task? then StartTask(s, k, b)
      else TakeMark(s, k, b, mark)
  }

  function Clamp(k: int): nat {
    if k < 0 then 0 else k
  }

  /** A POST to the job collection for machine `on`; `b` and `mark` are the new identifiers. */
  function CreateJob(s: Server, on: Uuid, b: Uuid, mark: Uuid): (Server, Reply) {
    var m := s.machine;
    var cj := CurrentJob(s);
    if on != m.uuid then (s, NoSuchMachine)
    else if !(m.runnable && m.available) then (s, NotRunnable)
    else if m.currentTask >= |m.tasks| then (s, NoJob)
    else if cj.index != m.currentTask && !Ended(cj.state) then
      RunFrom(ChangeJob(s, m.currentJob, cj.(state := Failed)), Clamp(m.currentTask), b, mark)
    else
      match cj.state
      case Incomplete => (s, Rerun(m.currentJob))
      case Finished => RunFrom(s, Clamp(m.currentTask + 1), b, mark)
      case Failed => RunFrom(s, Clamp(m.currentTask), b, mark)
      case _ => (s, AlreadyRunning)
  }

  // ----- the other operations of a run -----

  /** A state patch guarded by a test of the old state, as the agent sends them. */
  function PatchJob(s: Server, u: Uuid, was: JobState, now: JobState): Server {
    if u in s.jobs && s.jobs[u].state == was
    then ChangeJob(s, u, s.jobs[u].(state := now))
    else s
  }

  /** The patches the agent sends: start a job, end it, or fail it on a restart. */
  predicate AgentPatch(was: JobState, now: JobState) {
    || (was == Created && now == Running)
    || (was == Incomplete && now == Running)
    || (was == Running && now in {Finished, Failed, Incomplete})
    || (was == Created && now == Failed)
  }

  function SetFlags(s: Server, runnable: bool, available: bool): Server {
    var ok := available && TasksOk(s.machine.tasks, s.stages);
    s.(machine := s.machine.(runnable := runnable && ok, available := ok))
  }

  /** The machine after the workflow named `wf` has been compiled into its task list. */
  function Adopt(m: Machine, wf: string, names: seq<string>, stages: StageStore): Machine
    requires Known(names, stages)
  {
    var m1 := m.(workflow := wf, tasks := Flatten(names, stages, ""), currentTask := -1);
    if names == [] then m1
    else
      var env := EnvAfter(stages[names[0]], m.bootEnv);
      m1.(stage := names[0], bootEnv := env, runnable := m.runnable && env == m.bootEnv)
  }

  function AssignWorkflow(s: Server, wf: string, names: seq<string>): Server
    requires Known(names, s.stages)
  {
    s.(machine := Adopt(s.machine, wf, names, s.stages))
  }
}
