/**
 The agent carries a workflow through: wherever agent and server stand, whatever answers were lost
 before, one restart and answered requests from then on lead to the end of the list.
 */
module AgentProgress {
  import opened Workflow
  import opened JobModel
  import opened JobRuns
  import opened JobMeaning
  import opened JobProgress
  import opened Agent

  predicate Reassigns(e: Event) {
    e.Other? && e.st.Assign?
  }

  predicate NoNewWorkflow(es: seq<Event>) {
    forall i :: 0 <= i < |es| ==> !Reassigns(es[i])
  }

  /** The agent goes on without starting over. */
  predicate Calm(e: Event) {
    !e.Restart? && !e.Init? && !Reassigns(e)
  }

  predicate AllCalm(es: seq<Event>) {
    forall i :: 0 <= i < |es| ==> Calm(es[i])
  }

  ghost predicate Gets(x: Sys, x': Sys) {
    exists es :: AllowedRun(x, es) && AllCalm(es) && ReactAll(x, es) == x'
  }

  lemma GetsSelf(x: Sys)
    ensures Gets(x, x)
  {
    assert AllowedRun(x, []) && AllCalm([]) && ReactAll(x, []) == x;
  }

  lemma GetsOn(x: Sys, e: Event, x': Sys)
    requires Allowed(x, e) && Calm(e) && Gets(React(x, e), x')
    ensures Gets(x, x')
  {
    var rest :| AllowedRun(React(x, e), rest) && AllCalm(rest) && ReactAll(React(x, e), rest) == x';
    var es := [e] + rest;
    assert es[1..] == rest;
    assert AllowedRun(x, es) && ReactAll(x, es) == x';
  }

  lemma {:induction false} GetsAfter(x: Sys, es: seq<Event>, x': Sys)
    requires AllowedRun(x, es) && AllCalm(es) && Gets(ReactAll(x, es), x')
    ensures Gets(x, x')
    decreases es
  {
    if es != [] {
      GetsAfter(React(x, es[0]), es[1..], x');
      GetsOn(x, es[0], x');
    }
  }

  lemma GetsTrans(x: Sys, y: Sys, z: Sys)
    requires Gets(x, y) && Gets(y, z)
    ensures Gets(x, z)
  {
    var es :| AllowedRun(x, es) && AllCalm(es) && ReactAll(x, es) == y;
    GetsAfter(x, es, z);
  }

  ghost predicate Good(p: Plan, x: Sys) {
    SysInv(x) && AgreeInv(p, x.server)
  }

  /** A start-up with all answers fails what is open and changes nothing else. */
  lemma RecoveredAgrees(p: Plan, s: Server)
    requires AgreeInv(p, s)
    ensures var s' := Recovered(s, s.machine.currentJob, true, true);
            && AgreeInv(p, s') && s'.machine == s.machine && !OpenJob(s', s.machine.currentJob)
            && (HeadFinished(s') <==> HeadFinished(s))
  {
    var u := s.machine.currentJob;
    RecoveredIs(s, u, true, true);
    if OpenJob(s, u) {
      PatchAgrees(p, s, u, s.jobs[u].state, Failed);
      PatchHead(s, s.jobs[u].state, Failed);
    }
  }

  /** Between jobs: the agent waits, and nothing is open. */
  ghost predicate Resting(p: Plan, x: Sys) {
    Good(p, x) && x.phase == Waiting && !OpenJob(x.server, x.server.machine.currentJob)
  }

  const BOOT := Init(true, true, true)

  function Restarted(x: Sys): Sys {
    React(React(x, Restart), BOOT)
  }

  /** A restart with an answered start-up comes to rest wherever it is made. */
  lemma RestartRests(p: Plan, x: Sys)
    requires Good(p, x)
    ensures Resting(p, Restarted(x)) && Restarted(x).server.machine == x.server.machine
  {
    var x1 := React(x, Restart);
    ReactKeeps(x, Restart);
    RecoveredAgrees(p, x1.server);
    ReactKeeps(x1, BOOT);
  }

  /** From rest to a request: be made runnable, and wait. */
  lemma GetsReady(p: Plan, x: Sys) returns (x': Sys)
    requires Resting(p, x)
    ensures Good(p, x') && Gets(x, x') && x'.phase == Ready
    ensures x'.server.machine.currentTask == x.server.machine.currentTask && x'.server.jobs == x.server.jobs
    ensures x'.server.log == x.server.log && x'.server.machine.currentJob == x.server.machine.currentJob
    ensures x'.server.machine.runnable && x'.server.machine.available
  {
    var flags := Other(Flags(true, true));
    PlanTasksOk(p, x.server);
    StepAgrees(p, x.server, Flags(true, true));
    ReactKeeps(x, flags);
    var x1 := React(x, flags);
    x' := React(x1, Wait(true));
    ReactKeeps(x1, Wait(true));
    GetsSelf(x');
    GetsOn(x1, Wait(true), x');
    GetsOn(x, flags, x');
  }

  /** A job that the agent holds can be run to its end. */
  lemma GetsDone(p: Plan, x: Sys) returns (x': Sys)
    requires Good(p, x) && x.phase.Holding? && 0 <= x.server.machine.currentTask < |p.tasks|
    ensures Resting(p, x') && Gets(x, x') && x'.server.machine == x.server.machine && HeadFinished(x'.server)
  {
    var s, u := x.server, x.server.machine.currentJob;
    var x1 := React(x, Begin(true));
    PatchAgrees(p, s, u, s.jobs[u].state, Running);
    PatchHead(s, s.jobs[u].state, Running);
    ReactKeeps(x, Begin(true));
    var end := End(Finished, true, false);
    PatchAgrees(p, x1.server, u, Running, Finished);
    PatchHead(x1.server, Running, Finished);
    ReactKeeps(x1, end);
    x' := React(x1, end);
    GetsSelf(x');
    GetsOn(x1, end, x');
    GetsOn(x, Begin(true), x');
  }

  /** Behind the end of the list, finished, or neither. */
  function Left(p: Plan, s: Server): nat {
    if 0 <= s.machine.currentTask < |p.tasks| && !HeadFinished(s) then 1 else 0
  }

  /** What a request is answered when nothing is open: a job to run, or the next place in the list. */
  lemma RequestReply(p: Plan, s: Server, b: Uuid)
    requires AgreeInv(p, s) && MayRun(s) && !OpenJob(s, s.machine.currentJob)
    requires Legal(s, Post(s.machine.uuid, b, b + 1))
    ensures var (s', r) := CreateJob(s, s.machine.uuid, b, b + 1);
            && AgreeInv(p, s') && s'.machine.currentTask >= s.machine.currentTask
            && (s'.machine.currentTask > s.machine.currentTask || (PhaseAfter(r).Holding? && Left(p, s) == 1))
            && (PhaseAfter(r).Holding? || r == NoJob)
            && (PhaseAfter(r).Holding? ==> 0 <= s'.machine.currentTask < |p.tasks|)
  {
    PostAgrees(p, s, s.machine.uuid, b, b + 1);
    AnswersFrom(s, s.machine.uuid, b, b + 1);
    if s.machine.currentTask < 0 || Idle(s) {
      RequestMoves(p, s, b, b + 1);
      if s.machine.currentTask >= 0 && !HeadFinished(s) {
        HeadIsTask(p, s);
        FailedTaskAgain(s, b, b + 1);
      }
    } else {
      assert CreateJob(s, s.machine.uuid, b, b + 1) == (s, Rerun(s.machine.currentJob));
    }
  }

  /** So it leads from a ready state to one with a job in hand, or to rest at the next place. */
  lemma RequestGets(p: Plan, x: Sys) returns (x': Sys)
    requires Good(p, x) && x.phase == Ready && MayRun(x.server) && !OpenJob(x.server, x.server.machine.currentJob)
    ensures Good(p, x') && Gets(x, x') && x'.server.machine.currentTask >= x.server.machine.currentTask
    ensures || (x'.phase.Holding? && 0 <= x'.server.machine.currentTask < |p.tasks|)
            || (Resting(p, x') && x'.server.machine.currentTask > x.server.machine.currentTask)
    ensures x'.server.machine.currentTask > x.server.machine.currentTask || Left(p, x.server) == 1
  {
    var b := Unused(x.server.jobs.Keys);
    var e := Request(b, b + 1, true);
    x' := React(x, e);
    RequestReply(p, x.server, b);
    ReactKeeps(x, e);
    GetsSelf(x');
    GetsOn(x, e, x');
  }

  /** One more round: the current task is finished or the next place reached. */
  lemma Round(p: Plan, x: Sys) returns (x': Sys)
    requires Resting(p, x) && x.server.machine.currentTask < |p.tasks|
    ensures Resting(p, x') && Gets(x, x') && x'.server.machine.currentTask >= x.server.machine.currentTask
    ensures x'.server.machine.currentTask > x.server.machine.currentTask || Left(p, x'.server) < Left(p, x.server)
  {
    var x1 := GetsReady(p, x);
    var x2 := RequestGets(p, x1);
    GetsTrans(x, x1, x2);
    if x2.phase.Holding? && 0 <= x2.server.machine.currentTask < |p.tasks| {
      x' := GetsDone(p, x2);
      GetsTrans(x, x2, x');
    } else {
      x' := x2;
    }
  }

  lemma {:induction false} Rounds(p: Plan, x: Sys) returns (x': Sys)
    requires Resting(p, x)
    ensures Good(p, x') && Gets(x, x') && x'.server.machine.currentTask == |p.tasks|
    decreases |p.tasks| - x.server.machine.currentTask, Left(p, x.server)
  {
    if x.server.machine.currentTask == |p.tasks| {
      x' := x;
      GetsSelf(x);
    } else {
      var x1 := Round(p, x);
      x' := Rounds(p, x1);
      GetsTrans(x, x1, x');
    }
  }

  /** Agreement holds along every run of agent and server until another workflow is assigned. */
  lemma {:induction false} EventsAgree(p: Plan, x: Sys, es: seq<Event>)
    requires Good(p, x) && AllowedRun(x, es) && NoNewWorkflow(es)
    ensures Good(p, ReactAll(x, es))
    decreases es
  {
    if es != [] {
      EventAgrees(p, x, es[0]);
      EventsAgree(p, React(x, es[0]), es[1..]);
    }
  }

  lemma EventAgrees(p: Plan, x: Sys, e: Event)
    requires Good(p, x) && Allowed(x, e) && !Reassigns(e)
    ensures Good(p, React(x, e))
  {
    ReactKeeps(x, e);
    var s := x.server;
    match e
    case Init(fetched, patched, _) =>
      if fetched && patched && OpenJob(s, x.copy) {
        PatchAgrees(p, s, x.copy, s.jobs[x.copy].state, Failed);
      }
    case Request(b, mark, _) => PostAgrees(p, s, s.machine.uuid, b, mark);
    case Begin(patched) =>
      if patched {
        PatchAgrees(p, s, x.phase.job, s.jobs[x.phase.job].state, Running);
      }
    case End(final, patched, _) =>
      if patched {
        PatchAgrees(p, s, x.phase.job, Running, final);
      }
    case Other(st) => StepAgrees(p, s, st);
    case _ =>
  }

  /**
   A workflow that is assigned to a machine in any state agent and server can be in is carried
   through: whatever they do then, whichever answers are lost, one restart later they can go on to the
   end of the list without starting over again, and the jobs since the assignment then record the
   workflow's whole meaning.
   */
  lemma AgentCarriesThrough(x: Sys, wf: string, names: seq<string>, es: seq<Event>)
    requires SysInv(x) && Known(names, x.server.stages)
    requires var x1 := React(x, Other(Assign(wf, names))); AllowedRun(x1, es) && NoNewWorkflow(es)
    ensures var x1 := React(x, Other(Assign(wf, names)));
            exists x' :: && Gets(Restarted(ReactAll(x1, es)), x')
                         && Works(Done(x'.server.jobs, x'.server.log, |x.server.log|, |x'.server.log|))
                            == Meaning(names, x.server.stages, x.server.machine.bootEnv)
  {
    var s := x.server;
    var x1 := React(x, Other(Assign(wf, names)));
    var p := PlanFor(s, wf, names);
    ReactKeeps(x, Other(Assign(wf, names)));
    AssignAgrees(s, wf, names);
    EventsAgree(p, x1, es);
    RestartRests(p, ReactAll(x1, es));
    var x' := Rounds(p, Restarted(ReactAll(x1, es)));
    EndIsAll(s, wf, names, x'.server);
  }
}
