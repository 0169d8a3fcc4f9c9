/**
 The machine agent (api/agent.go) as a client of the job server.
 */
module Agent {
  import opened JobModel
  import opened JobRuns
  import opened JobMeaning
  import opened JobServer

  datatype AgentState = AgentInit | WaitForRunnable | AgentExit

  /** What a restarting agent does to the current job it finds on the server. */
  function FailOpenJob(s: Server, u: Uuid): Server {
    if u in s.jobs && s.jobs[u].state in {Running, Created}
    then PatchJob(s, u, s.jobs[u].state, Failed)
    else s
  }

  class MachineAgent {
    var state: AgentState
    var machine: Machine
    var err: bool
    const exitOnFailure: bool

    constructor (m: Machine, exitOnFailure: bool)
      ensures state == AgentInit && machine == m && !err && this.exitOnFailure == exitOnFailure
    {
      state, machine, err := AgentInit, m, false;
      this.exitOnFailure := exitOnFailure;
    }

    method ExitOrSleep()
      modifies this`state
      ensures state == if exitOnFailure then AgentExit else old(state)
    {
      if exitOnFailure {
        state := AgentExit;
      }
    }

    /** `fetched`, `patched` and `attached` say whether the server answers each request. */
    method Init(srv: JobServer, fetched: bool, patched: bool, attached: bool)
      requires state == AgentInit
      modifies this`state, this`err, srv`jobs
      ensures state in {AgentInit, WaitForRunnable, AgentExit}
      ensures state == WaitForRunnable <==> !err
      ensures !err <==> && attached
                        && (|| patched || !fetched || machine.currentJob !in old(srv.jobs)
                            || old(srv.jobs)[machine.currentJob].state !in {Created, Running})
      ensures err <==> !Passed(old(srv.State()), machine.currentJob, fetched, patched, attached)
      ensures srv.State() == Recovered(old(srv.State()), machine.currentJob, fetched, patched)
    {
      err := false;
      var u := machine.currentJob;
      if fetched && u in srv.jobs {
        var was := srv.jobs[u].state;
        if was == Running || was == Created {
          if !patched {
            err := true;
            ExitOrSleep();
            return;
          }
          var ok := srv.PatchJob(u, was, Failed);
        }
      }
      if !attached {
        err := true;
        ExitOrSleep();
        return;
      }
      state := WaitForRunnable;
    }
  }

  /** A job that is created or running. */
  predicate OpenJob(s: Server, u: Uuid) {
    u in s.jobs && s.jobs[u].state in {Created, Running}
  }

  /** The server after a start-up that works with a copy of the machine whose current job is `copy`. */
  function Recovered(s: Server, copy: Uuid, fetched: bool, patched: bool): Server {
    if fetched && patched then FailOpenJob(s, copy) else s
  }

  predicate Passed(s: Server, copy: Uuid, fetched: bool, patched: bool, attached: bool) {
    attached && (fetched && OpenJob(s, copy) ==> patched)
  }

  // ----- one agent and one server, with lost answers and restarts at any moment -----

  datatype Phase = Booting | Waiting | Ready | Holding(job: Uuid) | Working(job: Uuid)

  /** `copy` is the current job in the agent's own copy of the machine, which only waiting renews. */
  datatype Sys = Sys(server: Server, copy: Uuid, phase: Phase)

  /**
   `fetched`, `patched`, `attached` and `answered` say whether the agent gets its answers.  A job
   request has its effect in any case, and counts as unanswered too when the agent then fails to
   fetch the task; beginning a job counts as not patched too when no directory can be made for it.
   A patch that had its effect but whose answer is lost is one that is answered, with a failure
   after it.
   */
  datatype Event =
    | Restart
    | Init(fetched: bool, patched: bool, attached: bool)
    | Wait(answered: bool)
    | Request(b: Uuid, mark: Uuid, answered: bool)
    | Begin(patched: bool)
    | End(final: JobState, patched: bool, failed: bool)
    | Other(st: Step)

  predicate Allowed(x: Sys, e: Event) {
    match e
    case Restart => true
    case Init(_, _, _) => x.phase.Booting?
    case Wait(_) => x.phase.Waiting?
    case Request(b, mark, _) => x.phase.Ready? && Legal(x.server, Post(x.server.machine.uuid, b, mark))
    case Begin(_) => x.phase.Holding? && x.phase.job in x.server.jobs
    case End(final, _, _) => x.phase.Working? && final in {Finished, Failed, Incomplete}
    case Other(st) => (st.Flags? || st.Assign?) && Legal(x.server, st)
  }

  /** A job is run, an empty answer waited on, and an error sends the agent back to its start-up. */
  function PhaseAfter(r: Reply): Phase {
    match r
    case NewJob(u) => Holding(u)
    case Rerun(u) => Holding(u)
    case NoJob => Waiting
    case _ => Booting
  }

  function React(x: Sys, e: Event): Sys
    requires Allowed(x, e)
  {
    var s := x.server;
    match e
    case Restart => Sys(s, s.machine.currentJob, Booting)
    case Init(fetched, patched, attached) =>
      Sys(Recovered(s, x.copy, fetched, patched), x.copy,
          if Passed(s, x.copy, fetched, patched, attached) then Waiting else Booting)
    case Wait(answered) =>
      if answered then Sys(s, s.machine.currentJob, if s.machine.runnable then Ready else Waiting)
      else x.(phase := Booting)
    case Request(b, mark, answered) =>
      var (s', r) := CreateJob(s, s.machine.uuid, b, mark);
      Sys(s', x.copy, if answered then PhaseAfter(r) else Booting)
    case Begin(patched) =>
      var u := x.phase.job;
      if patched then Sys(PatchJob(s, u, s.jobs[u].state, Running), x.copy, Working(u)) else x.(phase := Booting)
    case End(final, patched, failed) =>
      Sys(if patched then PatchJob(s, x.phase.job, Running, final) else s, x.copy, if failed then Booting else Waiting)
    case Other(st) => x.(server := Apply(s, st))
  }

  /** The job the agent is busy with is the current one, in the state it thinks. */
  predicate BusyOk(s: Server, ph: Phase) {
    var u := s.machine.currentJob;
    match ph
    case Holding(j) => j == u && u in s.jobs && s.jobs[u].state in {Created, Incomplete}
    case Working(j) => j == u && u in s.jobs && s.jobs[u].state == Running
    case _ => true
  }

  /** And the copy is the one that waiting has just renewed when a job is requested. */
  predicate SysInv(x: Sys) {
    && ChainInv(x.server) && BusyOk(x.server, x.phase)
    && (x.phase.Ready? ==> x.copy == x.server.machine.currentJob)
  }

  /** Nothing is open that the agent does not know of: its copy names it while it starts up. */
  predicate Settled(x: Sys) {
    match x.phase
    case Booting => OpenJob(x.server, x.server.machine.currentJob) ==> x.copy == x.server.machine.currentJob
    case Waiting => !OpenJob(x.server, x.server.machine.currentJob)
    case Ready => !OpenJob(x.server, x.server.machine.currentJob)
    case _ => true
  }

  /** The agent gets hold of every job: fetching, requesting, beginning and ending it all go through. */
  predicate Heard(e: Event) {
    match e
    case Init(fetched, _, _) => fetched
    case Request(_, _, answered) => answered
    case Begin(patched) => patched
    case End(_, patched, _) => patched
    case _ => true
  }

  lemma RunFromOpens(s: Server, start: nat, b: Uuid, mark: Uuid)
    requires ChainInv(s) && Idle(s) && b !in s.jobs
    ensures var (s', r) := RunFrom(s, start, b, mark);
            && r in {NoJob, NewJob(b)}
            && (r == NoJob ==> !OpenJob(s', s'.machine.currentJob))
            && (r == NewJob(b) ==> BusyOk(s', Holding(b)))
  {
    var m := s.machine;
    if start < |m.tasks| {
      var k := Seek(m, start);
      if k < |m.tasks| && !m.tasks[k].Task? {
        var s' := TakeMark(s, k, b, mark).0;
        assert s'.machine.currentJob in s'.jobs;
      }
    }
  }

  /** When a request is in conflict, and what it leaves open. */
  lemma RequestPhase(s: Server, b: Uuid, mark: Uuid)
    requires ChainInv(s) && Legal(s, Post(s.machine.uuid, b, mark))
    ensures var (s', r) := CreateJob(s, s.machine.uuid, b, mark);
            && ChainInv(s') && BusyOk(s', PhaseAfter(r))
            && (r == AlreadyRunning <==> MayRun(s) && OpenJob(s, s.machine.currentJob)
                                         && s.jobs[s.machine.currentJob].index == s.machine.currentTask)
            && (!OpenJob(s, s.machine.currentJob) && !PhaseAfter(r).Holding? ==> !OpenJob(s', s'.machine.currentJob))
  {
    PostKeepsChain(s, s.machine.uuid, b, mark);
    var m, cj := s.machine, CurrentJob(s);
    if MayRun(s) {
      if cj.index != m.currentTask && !Ended(cj.state) {
        ChangeKeepsChain(s, m.currentJob, cj.(state := Failed));
        RunFromOpens(ChangeJob(s, m.currentJob, cj.(state := Failed)), Clamp(m.currentTask), b, mark);
      } else if cj.state == Finished {
        RunFromOpens(s, Clamp(m.currentTask + 1), b, mark);
      } else if cj.state == Failed {
        RunFromOpens(s, Clamp(m.currentTask), b, mark);
      }
    }
  }

  /** A patch of the current job touches nothing else. */
  lemma PatchHead(s: Server, was: JobState, now: JobState)
    requires ChainInv(s) && AgentPatch(was, now)
    requires s.machine.currentJob in s.jobs && s.jobs[s.machine.currentJob].state == was
    ensures var u := s.machine.currentJob;
            && PatchJob(s, u, was, now) == s.(jobs := s.jobs[u := s.jobs[u].(state := now)])
            && ChainInv(PatchJob(s, u, was, now))
  {
    ChangeKeepsChain(s, s.machine.currentJob, s.jobs[s.machine.currentJob].(state := now));
  }

  /** Only the current job can be open, so a start-up with any other copy changes nothing. */
  lemma RecoveredIs(s: Server, copy: Uuid, fetched: bool, patched: bool)
    requires ChainInv(s)
    ensures var s' := Recovered(s, copy, fetched, patched);
            var u := s.machine.currentJob;
            && ChainInv(s') && s'.machine == s.machine && s'.jobs.Keys == s.jobs.Keys
            && (OpenJob(s', u) <==> OpenJob(s, u) && !(fetched && patched && copy == u))
            && (u in s.jobs ==> s'.jobs[u].index == s.jobs[u].index)
  {
    var u := s.machine.currentJob;
    if fetched && patched && OpenJob(s, copy) {
      var i :| 0 <= i < |s.log| && s.log[i] == copy;
      assert Linked(s.jobs, s.log, i);
      assert copy == u;
      PatchHead(s, s.jobs[u].state, Failed);
    }
  }

  /**
   After a start-up that got as far as waiting, with whatever copy of the machine: the next
   request is in conflict just when the current job of the current task was created or running
   and the copy named another job or the job could not be fetched.
   */
  lemma ConflictAfterInit(s: Server, copy: Uuid, fetched: bool, patched: bool, attached: bool, b: Uuid, mark: Uuid)
    requires ChainInv(s) && Passed(s, copy, fetched, patched, attached)
    requires Legal(s, Post(s.machine.uuid, b, mark))
    ensures var u := s.machine.currentJob;
            var reply := CreateJob(Recovered(s, copy, fetched, patched), s.machine.uuid, b, mark).1;
            reply == AlreadyRunning <==>
              MayRun(s) && OpenJob(s, u) && s.jobs[u].index == s.machine.currentTask && (copy != u || !fetched)
  {
    RecoveredIs(s, copy, fetched, patched);
    RequestPhase(Recovered(s, copy, fetched, patched), b, mark);
  }

  lemma ReactKeeps(x: Sys, e: Event)
    requires SysInv(x) && Allowed(x, e)
    ensures SysInv(React(x, e))
    ensures Settled(x) && Heard(e) ==> Settled(React(x, e))
  {
    var s := x.server;
    var u := s.machine.currentJob;
    match e
    case Restart =>
    case Init(fetched, patched, _) => RecoveredIs(s, x.copy, fetched, patched);
    case Wait(_) =>
    case Request(b, mark, _) => RequestPhase(s, b, mark);
    case Begin(patched) =>
      if patched {
        PatchHead(s, s.jobs[u].state, Running);
      }
    case End(final, patched, _) =>
      if patched {
        PatchHead(s, Running, final);
      }
    case Other(st) => StepKeepsChain(s, st);
  }

  predicate AllowedRun(x: Sys, es: seq<Event>)
    decreases es
  {
    es == [] || (Allowed(x, es[0]) && AllowedRun(React(x, es[0]), es[1..]))
  }

  function ReactAll(x: Sys, es: seq<Event>): Sys
    requires AllowedRun(x, es)
    decreases es
  {
    if es == [] then x else ReactAll(React(x, es[0]), es[1..])
  }

  predicate AllHeard(es: seq<Event>) {
    forall i :: 0 <= i < |es| ==> Heard(es[i])
  }

  lemma {:induction false} ReactAllKeeps(x: Sys, es: seq<Event>)
    requires SysInv(x) && AllowedRun(x, es)
    ensures SysInv(ReactAll(x, es))
    ensures Settled(x) && AllHeard(es) ==> Settled(ReactAll(x, es))
    decreases es
  {
    if es != [] {
      ReactKeeps(x, es[0]);
      ReactAllKeeps(React(x, es[0]), es[1..]);
    }
  }

  /**
   Along every run of one agent against the server, with restarts at any moment, in which it gets
   hold of every job it fetches, requests, begins and ends, a job request is never answered with the
   already-running conflict.
   */
  lemma AgentNeverConflicts(s: Server, es: seq<Event>, b: Uuid, mark: Uuid)
    requires Fresh(s) && AllowedRun(Sys(s, 0, Booting), es) && AllHeard(es)
    requires var x := ReactAll(Sys(s, 0, Booting), es);
             x.phase.Ready? && Legal(x.server, Post(x.server.machine.uuid, b, mark))
    ensures var x := ReactAll(Sys(s, 0, Booting), es);
            CreateJob(x.server, x.server.machine.uuid, b, mark).1 != AlreadyRunning
  {
    ReactAllKeeps(Sys(s, 0, Booting), es);
    RequestPhase(ReactAll(Sys(s, 0, Booting), es).server, b, mark);
  }

  lemma HealsFrom(x: Sys, b: Uuid, mark: Uuid, b': Uuid, mark': Uuid)
    requires SysInv(x) && Allowed(x, Request(b, mark, true)) && Legal(x.server, Post(x.server.machine.uuid, b', mark'))
    requires CreateJob(x.server, x.server.machine.uuid, b, mark).1 == AlreadyRunning
    ensures var y := React(x, Request(b, mark, true));
            && y == x.(phase := Booting)
            && var z := React(y, Init(true, true, true));
            && z.phase == Waiting && z.server.machine == x.server.machine
            && CreateJob(z.server, z.server.machine.uuid, b', mark').1 != AlreadyRunning
  {
    RequestPhase(x.server, b, mark);
    RecoveredIs(x.server, x.copy, true, true);
    RequestPhase(Recovered(x.server, x.copy, true, true), b', mark');
  }

  /**
   Whatever answers were lost before: a conflict changes nothing and finds the agent with a
   renewed copy, so the start-up it leads to, once answered, fails the job, and a request after
   it is not in conflict.
   */
  lemma ConflictHeals(s: Server, es: seq<Event>, b: Uuid, mark: Uuid, b': Uuid, mark': Uuid)
    requires Fresh(s) && AllowedRun(Sys(s, 0, Booting), es)
    requires var x := ReactAll(Sys(s, 0, Booting), es);
             && Allowed(x, Request(b, mark, true)) && Legal(x.server, Post(x.server.machine.uuid, b', mark'))
             && CreateJob(x.server, x.server.machine.uuid, b, mark).1 == AlreadyRunning
    ensures var x := ReactAll(Sys(s, 0, Booting), es);
            var z := React(React(x, Request(b, mark, true)), Init(true, true, true));
            && z.phase == Waiting && z.server.machine == x.server.machine
            && CreateJob(z.server, z.server.machine.uuid, b', mark').1 != AlreadyRunning
  {
    ReactAllKeeps(Sys(s, 0, Booting), es);
    HealsFrom(ReactAll(Sys(s, 0, Booting), es), b, mark, b', mark');
  }

  /**
   Recovery: a task interrupted while its job was created or running is offered again, at the
   same index and with the interrupted job as its predecessor, by the first request after a
   restart on which the machine may run.
   */
  lemma InterruptedTaskIsRetried(p: Plan, s: Server, b: Uuid, mark: Uuid)
    requires AgreeInv(p, s) && 0 <= s.machine.currentTask < |p.tasks|
    requires s.jobs[s.machine.currentJob].state in {Created, Running}
    requires Legal(s, Post(s.machine.uuid, b, mark))
    ensures var s1 := SetFlags(FailOpenJob(s, s.machine.currentJob), true, true);
            var (s', r) := CreateJob(s1, s.machine.uuid, b, mark);
            var was := s.jobs[s.machine.currentJob];
            && r == NewJob(b) && b in s'.jobs && s'.jobs[b].state == Created
            && s'.jobs[b].index == was.index && s'.jobs[b].task == was.task
            && s'.jobs[b].previous == s.machine.currentJob
            && s'.machine.currentJob == b
  {
    var u := s.machine.currentJob;
    HeadIsTask(p, s);
    PatchHead(s, s.jobs[u].state, Failed);
    assert JobAt(p, s.jobs, s.log, |s.log| - 1);
    PlanTasksOk(p, s);
  }

  lemma PlanTasksOk(p: Plan, s: Server)
    requires OnPlan(p, s)
    ensures TasksOk(s.machine.tasks, s.stages)
  {
    forall k | 0 <= k < |p.tasks|
      ensures !p.tasks[k].Malformed? && (p.tasks[k].StageMark? ==> p.tasks[k].name in p.stages)
    {
      assert EntryOk(p, k);
    }
  }

  /** A request has its effect whether or not the agent hears of it. */
  lemma LostAnswerCounts(x: Sys, b: Uuid, mark: Uuid)
    requires Allowed(x, Request(b, mark, true))
    ensures React(x, Request(b, mark, false)).server == React(x, Request(b, mark, true)).server
    ensures React(x, Request(b, mark, false)).phase == Booting
  {
  }
}
