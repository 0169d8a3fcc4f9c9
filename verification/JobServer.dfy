/**
 The imperative form of job creation and workflow assignment.  Every method is proved
 against the function of the same name in JobModel.dfy.
 */
module JobServer {
  import opened TaskList
  import opened Workflow
  import opened JobModel

  class JobServer {
    var machine: Machine
    var jobs: Jobs
    const stages: StageStore
    const workflows: WorkflowStore
    ghost var log: seq<Uuid>

    ghost function State(): Server
      reads this
    {
      Server(machine, jobs, stages, log)
    }

    constructor (m: Machine, stages: StageStore, workflows: WorkflowStore)
      ensures State() == Server(m, map[], stages, []) && this.workflows == workflows
    {
      machine, jobs, log := m, map[], [];
      this.stages, this.workflows := stages, workflows;
    }

    /** Store a new job and run its creation hooks. */
    method StoreNew(u: Uuid, j: Job)
      modifies this`jobs, this`log
      ensures State() == AddJob(old(State()), u, j)
    {
      var nj := j.(current := true);
      if nj.previous in jobs {
        jobs := jobs[nj.previous := jobs[nj.previous].(current := false)];
      }
      jobs := jobs[u := nj];
      log := log + [u];
    }

    /** Store a changed job and run its change hooks. */
    method StoreChanged(u: Uuid, j: Job)
      requires u in jobs
      modifies this`jobs
      ensures State() == ChangeJob(old(State()), u, j)
    {
      var nj := j.(current := jobs[u].current);
      if nj.current && nj.previous in jobs {
        jobs := jobs[nj.previous := jobs[nj.previous].(current := false)];
      }
      jobs := jobs[u := nj];
    }

    method StoreMachine(m: Machine)
      modifies this`machine
      ensures State() == SaveMachine(old(State()), m)
    {
      var n := m;
      if n.stage != machine.stage && n.stage in stages && stages[n.stage].bootEnv != "" {
        n := n.(bootEnv := stages[n.stage].bootEnv);
      }
      if n.bootEnv != machine.bootEnv {
        n := n.(runnable := false);
      }
      machine := n;
    }

    method CreateJob(on: Uuid, b: Uuid, mark: Uuid) returns (reply: Reply)
      requires b !in jobs && mark !in jobs && b != mark
      modifies this
      ensures (State(), reply) == JobModel.CreateJob(old(State()), on, b, mark)
    {
      if on != machine.uuid {
        return NoSuchMachine;
      }
      if !(machine.runnable && machine.available) {
        return NotRunnable;
      }
      var m := machine;
      var cjState, cjIndex := Failed, 0;
      if m.currentJob in jobs {
        cjState, cjIndex := jobs[m.currentJob].state, jobs[m.currentJob].index;
      }
      if m.currentTask >= |m.tasks| {
        return NoJob;
      }
      var taskToRun := m.currentTask;
      if cjIndex != m.currentTask && !(cjState == Finished || cjState == Failed) {
        StoreChanged(m.currentJob, jobs[m.currentJob].(state := Failed));
      } else {
        match cjState {
          case Incomplete => return Rerun(m.currentJob);
          case Finished => taskToRun := taskToRun + 1;
          case Failed =>
          case _ => return AlreadyRunning;
        }
      }
      if taskToRun < 0 {
        taskToRun := 0;
      }
      reply := WalkTasks(m, taskToRun, b, mark);
    }

    /** Pass over the entries that ask for the stage or environment the machine already has. */
    method SkipSatisfied(m: Machine, start: nat) returns (k: nat)
      requires start <= |m.tasks|
      ensures k == Seek(m, start)
    {
      k := start;
      while k < |m.tasks| && !m.tasks[k].Task?
        invariant start <= k <= |m.tasks|
        invariant Seek(m, start) == Seek(m, k)
      {
        match m.tasks[k] {
          case StageMark(name) =>
            if m.stage == name {
              k := k + 1;
              continue;
            }
          case EnvMark(name) =>
            if m.bootEnv == name {
              k := k + 1;
              continue;
            }
          case _ =>
        }
        break;
      }
    }

    method WalkTasks(m0: Machine, start: nat, b: Uuid, mark: Uuid) returns (reply: Reply)
      requires m0 == machine
      modifies this
      ensures (State(), reply) == RunFrom(old(State()), start, b, mark)
    {
      var m, previous := m0, m0.currentJob;
      if start >= |m.tasks| {
        StoreMachine(m.(currentTask := |m.tasks|));
        return NoJob;
      }
      var k := SkipSatisfied(m, start);
      if k < |m.tasks| && !m.tasks[k].Task? {
        match m.tasks[k] {
          case StageMark(name) => m := m.(stage := name);
          case EnvMark(name) => m := m.(bootEnv := name);
          case _ =>
        }
        StoreNew(mark, Job(previous, m.tasks[k], m.stage, m.bootEnv, m.workflow, k, k + 1, Finished, false));
        previous := mark;
        m := m.(currentJob := mark);
      }
      m := m.(currentTask := k);
      if m.bootEnv != m0.bootEnv || m.stage != m0.stage {
        StoreMachine(m);
        return NoJob;
      }
      if m.currentTask >= |m.tasks| {
        StoreMachine(m);
        return NoJob;
      }
      StoreNew(b, Job(previous, m.tasks[k], m.stage, m.bootEnv, m.workflow, k, k + 1, Created, false));
      StoreMachine(m.(currentJob := b));
      return NewJob(b);
    }

    method PatchJob(u: Uuid, was: JobState, now: JobState) returns (ok: bool)
      modifies this`jobs
      ensures State() == JobModel.PatchJob(old(State()), u, was, now)
      ensures ok <==> u in old(jobs) && old(jobs)[u].state == was
    {
      ok := u in jobs && jobs[u].state == was;
      if ok {
        StoreChanged(u, jobs[u].(state := now));
      }
    }

    /** Build the flat list; also the stage and environment the machine starts in. */
    method CompileStages(names: seq<string>) returns (taskList: seq<Entry>, newStage: string, newEnv: string)
      requires Known(names, stages)
      ensures taskList == Flatten(names, stages, "")
      ensures newStage == if names == [] then "" else names[0]
      ensures newEnv == if names == [] then "" else stages[names[0]].bootEnv
    {
      taskList, newStage, newEnv := [], "", "";
      var lastEnv := "";
      var firstStage := true;
      for i := 0 to |names|
        invariant firstStage <==> i == 0
        invariant i == 0 ==> lastEnv == ""
        invariant Flatten(names, stages, "") == taskList + Flatten(names[i..], stages, lastEnv)
        invariant newStage == if i == 0 then "" else names[0]
        invariant newEnv == if i == 0 then "" else stages[names[0]].bootEnv
      {
        var stage := stages[names[i]];
        FlattenStep(taskList, names, stages, i, lastEnv);
        ghost var entries := [StageMark(names[i])] + EnvEntries(stage, lastEnv) + stage.tasks;
        ghost var before := taskList;
        taskList := taskList + [StageMark(names[i])];
        if firstStage {
          newStage := names[i];
        }
        if stage.bootEnv != "" && stage.bootEnv != lastEnv {
          if firstStage {
            newEnv := stage.bootEnv;
          }
          taskList := taskList + [EnvMark(stage.bootEnv)];
          lastEnv := stage.bootEnv;
        }
        taskList := taskList + stage.tasks;
        firstStage := false;
        assert taskList == before + entries;
      }
    }

    method AssignWorkflow(wf: string) returns (ok: bool)
      requires wf in workflows && workflows[wf].available ==> Known(workflows[wf].stages, stages)
      requires wf != ""
      modifies this`machine
      ensures ok <==> wf != old(machine.workflow) && wf in workflows && workflows[wf].available
      ensures !ok ==> State() == old(State())
      ensures ok ==> State() == JobModel.AssignWorkflow(old(State()), wf, workflows[wf].stages)
    {
      ok := wf != machine.workflow && wf in workflows && workflows[wf].available;
      if !ok {
        return;
      }
      var taskList, newStage, newEnv := CompileStages(workflows[wf].stages);
      var n := machine.(workflow := wf, currentTask := -1, tasks := taskList);
      if newStage != "" {
        n := n.(stage := newStage);
      }
      if newEnv != "" {
        n := n.(bootEnv := newEnv);
      }
      if n.bootEnv != machine.bootEnv {
        n := n.(runnable := false);
      }
      machine := n;
    }
  }
}
