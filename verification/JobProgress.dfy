/**
 Every workflow can be carried through.  Wherever a machine stands in its list, requests, patches
 and changes of its flags lead to the end of it, with every task of the workflow done.
 */
module JobProgress {
  import opened Workflow
  import opened JobModel
  import opened JobRuns
  import opened JobMeaning
  import opened Agent

  /** How far the current job is from being finished. */
  function Rank(p: Plan, s: Server): nat {
    if s.machine.currentTask < 0 || HeadFinished(s) then 0 else if Idle(s) then 2 else 1
  }

  ghost predicate Leads(s: Server, s': Server) {
    exists run :: LegalRun(s, run) && NoAssign(run) && Exec(s, run) == s'
  }

  lemma LeadsSelf(s: Server)
    ensures Leads(s, s)
  {
    assert LegalRun(s, []) && NoAssign([]) && Exec(s, []) == s;
  }

  lemma LeadsOn(s: Server, st: Step, s': Server)
    requires Legal(s, st) && !st.Assign? && Leads(Apply(s, st), s')
    ensures Leads(s, s')
  {
    var rest :| LegalRun(Apply(s, st), rest) && NoAssign(rest) && Exec(Apply(s, st), rest) == s';
    var run := [st] + rest;
    assert run[1..] == rest;
    assert LegalRun(s, run) && Exec(s, run) == s';
  }

  /** A number that is not in use, and nothing above it is. */
  lemma Unused(keys: set<Uuid>) returns (n: Uuid)
    ensures n > 0 && forall k :: k in keys ==> k < n
    decreases keys
  {
    if keys == {} {
      n := 1;
    } else {
      var k :| k in keys;
      var m := Unused(keys - {k});
      n := if m <= k then k + 1 else m;
      assert forall x :: x in keys ==> x == k || x in keys - {k};
    }
  }

  /** A request to a machine that may run, and whose current job is over, moves it on or offers a failed task again. */
  lemma RequestMoves(p: Plan, s: Server, b: Uuid, mark: Uuid)
    requires AgreeInv(p, s) && MayRun(s) && Legal(s, Post(s.machine.uuid, b, mark))
    requires s.machine.currentTask < 0 || Idle(s)
    ensures var s' := CreateJob(s, s.machine.uuid, b, mark).0;
            && AgreeInv(p, s')
            && s'.machine.currentTask >= s.machine.currentTask
            && (s'.machine.currentTask == s.machine.currentTask ==> Rank(p, s) == 2 && Rank(p, s') == 1)
  {
    PostAgrees(p, s, s.machine.uuid, b, mark);
    if s.machine.currentTask < 0 {
      FromTheTop(p, s, b, mark);
    } else if HeadFinished(s) {
      FinishedReady(p, s);
      RunFromAgrees(p, s, s.machine.currentTask + 1, b, mark);
    } else {
      FailedAgain(p, s, b, mark);
    }
  }

  lemma FailedAgain(p: Plan, s: Server, b: Uuid, mark: Uuid)
    requires AgreeInv(p, s) && MayRun(s) && Legal(s, Post(s.machine.uuid, b, mark))
    requires s.machine.currentTask >= 0 && Idle(s) && !HeadFinished(s)
    ensures var s' := CreateJob(s, s.machine.uuid, b, mark).0;
            s'.machine.currentTask == s.machine.currentTask && Rank(p, s) == 2 && Rank(p, s') == 1
  {
    var c := s.machine.currentTask;
    HeadIsTask(p, s);
    assert Seek(s.machine, c) == c;
    var s' := StartTask(s, c, b).0;
    assert CreateJob(s, s.machine.uuid, b, mark).0 == s';
    assert Head(s'.log) == b && s'.jobs[b].state == Created;
  }

  lemma FromTheTop(p: Plan, s: Server, b: Uuid, mark: Uuid)
    requires AgreeInv(p, s) && MayRun(s) && Legal(s, Post(s.machine.uuid, b, mark)) && s.machine.currentTask < 0
    ensures CreateJob(s, s.machine.uuid, b, mark).0.machine.currentTask >= 0
  {
    var cj := CurrentJob(s);
    if cj.index != s.machine.currentTask && !Ended(cj.state) {
      ResetAgrees(p, s, b, mark);
    } else {
      assert s.machine.currentJob in s.jobs ==> Linked(s.jobs, s.log, |s.log| - 1);
      FinishedReady(p, s);
      RunFromAgrees(p, s, 0, b, mark);
    }
  }

  /** An open job can be run to its end. */
  lemma JobEnds(p: Plan, s: Server) returns (s': Server)
    requires AgreeInv(p, s) && 0 <= s.machine.currentTask < |p.tasks| && !Idle(s)
    ensures AgreeInv(p, s') && Leads(s, s') && s'.machine == s.machine && HeadFinished(s')
  {
    var u := s.machine.currentJob;
    var s1 := s;
    if s.jobs[u].state != Running {
      var begin := Patch(u, s.jobs[u].state, Running);
      PatchHead(s, s.jobs[u].state, Running);
      StepAgrees(p, s, begin);
      s1 := Apply(s, begin);
    }
    var end := Patch(u, Running, Finished);
    PatchHead(s1, Running, Finished);
    StepAgrees(p, s1, end);
    s' := Apply(s1, end);
    LeadsSelf(s');
    LeadsOn(s1, end, s');
    if s.jobs[u].state != Running {
      LeadsOn(s, Patch(u, s.jobs[u].state, Running), s');
    }
  }

  lemma LeadsTrans(a: Server, b: Server, c: Server)
    requires Leads(a, b) && Leads(b, c)
    ensures Leads(a, c)
  {
    var run :| LegalRun(a, run) && NoAssign(run) && Exec(a, run) == b;
    LeadsAfter(a, run, c);
  }

  lemma {:induction false} LeadsAfter(a: Server, run: seq<Step>, c: Server)
    requires LegalRun(a, run) && NoAssign(run) && Leads(Exec(a, run), c)
    ensures Leads(a, c)
    decreases run
  {
    if run != [] {
      LeadsAfter(Apply(a, run[0]), run[1..], c);
      LeadsOn(a, run[0], c);
    }
  }

  lemma {:induction false} EndIsReached(p: Plan, s: Server) returns (s': Server)
    requires AgreeInv(p, s)
    ensures AgreeInv(p, s') && Leads(s, s') && s'.machine.currentTask == |p.tasks|
    decreases |p.tasks| - s.machine.currentTask, Rank(p, s)
  {
    if s.machine.currentTask == |p.tasks| {
      s' := s;
      LeadsSelf(s);
    } else if s.machine.currentTask >= 0 && !Idle(s) {
      var s1 := JobEnds(p, s);
      s' := EndIsReached(p, s1);
      LeadsTrans(s, s1, s');
    } else {
      PlanTasksOk(p, s);
      StepAgrees(p, s, Flags(true, true));
      var s1 := Apply(s, Flags(true, true));
      var b := Unused(s1.jobs.Keys);
      RequestMoves(p, s1, b, b + 1);
      var post := Post(s1.machine.uuid, b, b + 1);
      s' := EndIsReached(p, Apply(s1, post));
      LeadsOn(s1, post, s');
      LeadsOn(s, Flags(true, true), s');
    }
  }

  /**
   Assign a workflow to any machine a run can produce, and let any run follow: from there the end of
   the list can be reached, and then the jobs since the assignment record the workflow's whole
   meaning.
   */
  lemma WorkflowCanFinish(s: Server, wf: string, names: seq<string>, run: seq<Step>)
    requires ChainInv(s) && Known(names, s.stages)
    requires LegalRun(AssignWorkflow(s, wf, names), run) && NoAssign(run)
    ensures exists s' :: Leads(Exec(AssignWorkflow(s, wf, names), run), s')
                         && Works(Done(s'.jobs, s'.log, |s.log|, |s'.log|)) == Meaning(names, s.stages, s.machine.bootEnv)
  {
    var p, s1 := PlanFor(s, wf, names), AssignWorkflow(s, wf, names);
    AssignAgrees(s, wf, names);
    RunAgrees(p, s1, run);
    var s' := EndIsReached(p, Exec(s1, run));
    EndIsAll(s, wf, names, s');
  }
}
