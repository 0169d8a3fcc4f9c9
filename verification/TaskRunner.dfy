/**
 The task runner's choice of a job's final state (api/jobs.go): it carries out the actions of
 a task one by one and stops at the first that has something to report.
 */
module TaskRunner {
  import opened JobModel

  /** What became of one action: its helper could not be written, it could not be carried out, or it left these flags. */
  datatype Outcome =
    | NoHelper
    | CouldNotRun
    | Flags(failed: bool, incomplete: bool, reboot: bool, poweroff: bool, stop: bool)

  const QUIET := Flags(false, false, false, false, false)

  function SaneExit(code: nat): Outcome {
    match code
    case 0 => QUIET
    case 16 => QUIET.(stop := true)
    case 32 => QUIET.(poweroff := true)
    case 64 => QUIET.(reboot := true)
    case 128 => QUIET.(incomplete := true)
    case 144 => QUIET.(stop := true, incomplete := true)
    case 160 => QUIET.(poweroff := true, incomplete := true)
    case 192 => QUIET.(reboot := true, incomplete := true)
    case _ => QUIET.(failed := true)
  }

  function LegacyExit(code: nat): Outcome {
    match code
    case 0 => QUIET
    case 1 => QUIET.(reboot := true)
    case 2 => QUIET.(incomplete := true)
    case 3 => QUIET.(incomplete := true, reboot := true)
    case _ => QUIET.(failed := true)
  }

  /** An action of a task: a file that was written or not, or a script that exited or never ran. */
  datatype Action = File(written: bool) | Script(helped: bool, started: bool, sane: bool, code: nat)

  function Result(a: Action): Outcome {
    match a
    case File(written) => if written then QUIET else CouldNotRun
    case Script(helped, started, sane, code) =>
      if !helped then NoHelper
      else if !started then CouldNotRun else if sane then SaneExit(code) else LegacyExit(code)
  }

  predicate Leaving(o: Outcome) {
    o.Flags? && (o.reboot || o.poweroff || o.stop)
  }

  /** The action that decides: the first that reports anything, or the last one. */
  ghost predicate Decides(acts: seq<Action>, i: int) {
    && 0 <= i < |acts|
    && (forall k :: 0 <= k < i ==> Result(acts[k]) == QUIET)
    && (Result(acts[i]) == QUIET ==> i == |acts| - 1)
  }

  /** There is always one. */
  lemma SomeActionDecides(acts: seq<Action>) returns (i: nat)
    requires acts != []
    ensures Decides(acts, i)
  {
    i := 0;
    while i < |acts| - 1 && Result(acts[i]) == QUIET
      invariant i < |acts| && forall k :: 0 <= k < i ==> Result(acts[k]) == QUIET
    {
      i := i + 1;
    }
  }

  /** The state an action decides on, given whether it is the last. */
  function Verdict(o: Outcome, last: bool): JobState {
    if o.NoHelper? then Incomplete
    else if o.CouldNotRun? || o.failed then Failed
    else if last then if o.incomplete && !Leaving(o) then Incomplete else Finished
    else if Leaving(o) && !o.incomplete then Incomplete
    else Finished
  }

  /** The state patched onto the job at the end: a task without actions finishes, one whose actions are not to be had does not. */
  method FinalState(rendered: bool, acts: seq<Action>) returns (final: JobState)
    ensures !rendered ==> final == Incomplete
    ensures rendered && acts == [] ==> final == Finished
    ensures rendered ==> forall i :: Decides(acts, i) ==> final == Verdict(Result(acts[i]), i == |acts| - 1)
  {
    var failed, incomplete := false, false;
    final := Incomplete;
    if !rendered {
      return;
    }
    for i := 0 to |acts|
      invariant final == Incomplete && !failed && !incomplete
      invariant forall k :: 0 <= k < i ==> Result(acts[k]) == QUIET && k < |acts| - 1
    {
      var last := |acts| - 1 == i;
      var o := Result(acts[i]);
      if o.NoHelper? {
        return;
      }
      if o.CouldNotRun? {
        final := Failed;
        return;
      }
      failed, incomplete := o.failed, o.incomplete;
      if !last && incomplete {
        incomplete := !incomplete;
        break;
      }
      if failed {
        final := Failed;
        break;
      }
      if o.reboot || o.poweroff || o.stop {
        incomplete := !last;
        break;
      }
      if last {
        break;
      }
    }
    if !failed && !incomplete {
      final := Finished;
    }
  }

  /**
   What the exit code of a script that ran makes of its job.  On the last action only 128 alone
   leaves it incomplete; before that, only a bare request to leave does.
   */
  lemma SaneVerdicts(code: nat)
    ensures var o := Result(Script(true, true, true, code));
            && (o == QUIET <==> code == 0)
            && (Verdict(o, true) == Failed <==> code !in {0, 16, 32, 64, 128, 144, 160, 192})
            && (Verdict(o, true) == Incomplete <==> code == 128)
            && (Verdict(o, false) == Failed <==> Verdict(o, true) == Failed)
            && (Verdict(o, false) == Incomplete <==> code in {16, 32, 64})
            && Verdict(o, true) in {Finished, Incomplete, Failed} && Verdict(o, false) in {Finished, Incomplete, Failed}
  {
  }

  lemma LegacyVerdicts(code: nat)
    ensures var o := Result(Script(true, true, false, code));
            && (o == QUIET <==> code == 0)
            && (Verdict(o, true) == Failed <==> code > 3)
            && (Verdict(o, true) == Incomplete <==> code == 2)
            && (Verdict(o, false) == Failed <==> code > 3)
            && (Verdict(o, false) == Incomplete <==> code == 1)
            && Verdict(o, true) in {Finished, Incomplete, Failed} && Verdict(o, false) in {Finished, Incomplete, Failed}
  {
  }

  /** Without a helper the job is left incomplete; a file or script that could not be carried out fails it. */
  lemma OtherVerdicts(a: Action, last: bool)
    requires a.Script? ==> !a.helped || !a.started
    ensures Verdict(Result(a), last) == Incomplete <==> a.Script? && !a.helped
    ensures Verdict(Result(a), last) == Finished <==> a == File(true)
  {
  }
}
