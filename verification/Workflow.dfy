/**
 Compiling a workflow into a flat task list (backend/machines.go), and what it means.

 A workflow is a list of stage names.  `Flatten` is the compiler's output; `Meaning` is what
 the workflow asks for without reference to that output: every task of every stage in
 order, each to be run in its stage and in the boot environment last asked for.  The
 theorem of this module says that reading the flat list entry by entry (`Reading`) gives
 back exactly the meaning.
 */
module Workflow {
  import opened TaskList

  datatype Stage = Stage(bootEnv: string, tasks: seq<Entry>)

  type StageStore = map<string, Stage>

  /** One unit of work: a task run in a stage and a boot environment. */
  datatype Work = Work(stage: string, bootEnv: string, task: Entry)

  /** A unit of work and the index of its entry in the flat list. */
  datatype Placed = Placed(index: int, work: Work)

  /** An available workflow names stages of the store, and no stored name is empty. */
  predicate Known(wf: seq<string>, stages: StageStore) {
    forall i :: 0 <= i < |wf| ==> wf[i] in stages && wf[i] != ""
  }

  /** Stage validation only lets tasks of the task store in, so none of them is a marker. */
  predicate PlainStages(stages: StageStore) {
    forall n, i :: n in stages && 0 <= i < |stages[n].tasks| ==> stages[n].tasks[i].Task?
  }

  /** The environment in force after a stage, given the one in force before it. */
  function EnvAfter(st: Stage, env: string): string {
    if st.bootEnv != "" then st.bootEnv else env
  }

  function EnvEntries(st: Stage, lastEnv: string): seq<Entry> {
    if st.bootEnv != "" && st.bootEnv != lastEnv then [EnvMark(st.bootEnv)] else []
  }

  function Flatten(wf: seq<string>, stages: StageStore, lastEnv: string): seq<Entry>
    requires Known(wf, stages)
  {
    if wf == [] then []
    else
      var st := stages[wf[0]];
      [StageMark(wf[0])] + EnvEntries(st, lastEnv) + st.tasks
      + Flatten(wf[1..], stages, EnvAfter(st, lastEnv))
  }

  lemma FlattenStep(done: seq<Entry>, wf: seq<string>, stages: StageStore, i: nat, lastEnv: string)
    requires Known(wf, stages) && i < |wf|
    ensures done + Flatten(wf[i..], stages, lastEnv)
         == done + ([StageMark(wf[i])] + EnvEntries(stages[wf[i]], lastEnv) + stages[wf[i]].tasks)
            + Flatten(wf[i + 1..], stages, EnvAfter(stages[wf[i]], lastEnv))
  {
    assert wf[i..][0] == wf[i] && wf[i..][1..] == wf[i + 1..];
  }

  function StageWork(stage: string, env: string, tasks: seq<Entry>): seq<Work> {
    seq(|tasks|, i requires 0 <= i < |tasks| => Work(stage, env, tasks[i]))
  }

  function Meaning(wf: seq<string>, stages: StageStore, env: string): seq<Work>
    requires Known(wf, stages)
  {
    if wf == [] then []
    else
      var st := stages[wf[0]];
      StageWork(wf[0], EnvAfter(st, env), st.tasks)
      + Meaning(wf[1..], stages, EnvAfter(st, env))
  }

  // ----- reading a flat list -----

  /** The stage in force after the first k entries: that of the nearest stage marker before k. */
  function StageAt(t: seq<Entry>, k: nat, s0: string): string
    requires k <= |t|
  {
    if k == 0 then s0
    else if t[k - 1].StageMark? then t[k - 1].name
    else StageAt(t, k - 1, s0)
  }

  function EnvAt(t: seq<Entry>, k: nat, e0: string): string
    requires k <= |t|
  {
    if k == 0 then e0
    else if t[k - 1].EnvMark? then t[k - 1].name
    else EnvAt(t, k - 1, e0)
  }

  /** The tasks among the first n entries, each with the stage and environment in force there. */
  function Reading(t: seq<Entry>, n: nat, s0: string, e0: string): seq<Placed>
    requires n <= |t|
  {
    if n == 0 then []
    else
      Reading(t, n - 1, s0, e0)
      + if t[n - 1].Task?
        then [Placed(n - 1, Work(StageAt(t, n - 1, s0), EnvAt(t, n - 1, e0), t[n - 1]))]
        else []
  }

  function Works(ps: seq<Placed>): seq<Work> {
    seq(|ps|, i requires 0 <= i < |ps| => ps[i].work)
  }

  // ----- the compiler is correct -----

  lemma {:induction false} AtConcat(a: seq<Entry>, b: seq<Entry>, k: nat, s0: string, e0: string)
    requires k <= |b|
    ensures StageAt(a + b, |a| + k, s0) == StageAt(b, k, StageAt(a, |a|, s0))
    ensures EnvAt(a + b, |a| + k, e0) == EnvAt(b, k, EnvAt(a, |a|, e0))
  {
    if k == 0 {
      AtPrefix(a, b, |a|, s0, e0);
    } else {
      assert (a + b)[|a| + k - 1] == b[k - 1];
      AtConcat(a, b, k - 1, s0, e0);
    }
  }

  lemma {:induction false} AtPrefix(a: seq<Entry>, b: seq<Entry>, k: nat, s0: string, e0: string)
    requires k <= |a|
    ensures StageAt(a + b, k, s0) == StageAt(a, k, s0)
    ensures EnvAt(a + b, k, e0) == EnvAt(a, k, e0)
  {
    if k > 0 {
      AtPrefix(a, b, k - 1, s0, e0);
    }
  }

  lemma {:induction false} ReadingPrefix(a: seq<Entry>, b: seq<Entry>, n: nat, s0: string, e0: string)
    requires n <= |a|
    ensures Reading(a + b, n, s0, e0) == Reading(a, n, s0, e0)
  {
    if n > 0 {
      ReadingPrefix(a, b, n - 1, s0, e0);
      AtPrefix(a, b, n - 1, s0, e0);
    }
  }

  lemma WorksConcat(a: seq<Placed>, b: seq<Placed>)
    ensures Works(a + b) == Works(a) + Works(b)
  {
    assert |Works(a + b)| == |a| + |b|;
    forall i | 0 <= i < |a + b| ensures Works(a + b)[i] == (Works(a) + Works(b))[i] {
    }
  }

  lemma {:induction false} ReadingConcat(a: seq<Entry>, b: seq<Entry>, n: nat, s0: string, e0: string)
    requires n <= |b|
    ensures Works(Reading(a + b, |a| + n, s0, e0))
         == Works(Reading(a, |a|, s0, e0)) + Works(Reading(b, n, StageAt(a, |a|, s0), EnvAt(a, |a|, e0)))
  {
    if n == 0 {
      ReadingPrefix(a, b, |a|, s0, e0);
    } else {
      ReadingConcat(a, b, n - 1, s0, e0);
      AtConcat(a, b, n - 1, s0, e0);
      var ab, s1, e1 := a + b, StageAt(a, |a|, s0), EnvAt(a, |a|, e0);
      assert ab[|a| + n - 1] == b[n - 1];
      if b[n - 1].Task? {
        var w := Work(StageAt(b, n - 1, s1), EnvAt(b, n - 1, e1), b[n - 1]);
        WorksConcat(Reading(ab, |a| + n - 1, s0, e0), [Placed(|a| + n - 1, w)]);
        WorksConcat(Reading(b, n - 1, s1, e1), [Placed(n - 1, w)]);
        assert Works([Placed(|a| + n - 1, w)]) == [w] == Works([Placed(n - 1, w)]);
        assert Reading(ab, |a| + n, s0, e0) == Reading(ab, |a| + n - 1, s0, e0) + [Placed(|a| + n - 1, w)];
        assert Reading(b, n, s1, e1) == Reading(b, n - 1, s1, e1) + [Placed(n - 1, w)];
      } else {
        assert Reading(ab, |a| + n, s0, e0) == Reading(ab, |a| + n - 1, s0, e0);
      }
    }
  }

  /** A run of plain tasks changes neither stage nor environment. */
  lemma {:induction false} ReadingTasks(t: seq<Entry>, n: nat, s0: string, e0: string)
    requires n <= |t|
    requires forall i :: 0 <= i < n ==> t[i].Task?
    ensures StageAt(t, n, s0) == s0 && EnvAt(t, n, e0) == e0
    ensures Works(Reading(t, n, s0, e0)) == StageWork(s0, e0, t[..n])
  {
    if n > 0 {
      ReadingTasks(t, n - 1, s0, e0);
      WorksConcat(Reading(t, n - 1, s0, e0), [Placed(n - 1, Work(s0, e0, t[n - 1]))]);
    }
  }

  /** The entries one stage contributes. */
  lemma ReadingStage(name: string, st: Stage, lastEnv: string, s0: string, e0: string)
    requires forall i :: 0 <= i < |st.tasks| ==> st.tasks[i].Task?
    requires lastEnv == "" || lastEnv == e0
    ensures var block := [StageMark(name)] + EnvEntries(st, lastEnv) + st.tasks;
            && StageAt(block, |block|, s0) == name
            && EnvAt(block, |block|, e0) == EnvAfter(st, e0)
            && Works(Reading(block, |block|, s0, e0)) == StageWork(name, EnvAfter(st, e0), st.tasks)
  {
    var head := [StageMark(name)] + EnvEntries(st, lastEnv);
    var block := head + st.tasks;
    assert StageAt(head, 1, s0) == name && EnvAt(head, 1, e0) == EnvAt(head, 0, e0) == e0;
    assert Reading(head, 1, s0, e0) == Reading(head, 0, s0, e0);
    assert StageAt(head, |head|, s0) == name;
    assert EnvAt(head, |head|, e0) == EnvAfter(st, e0);
    assert Reading(head, |head|, s0, e0) == [];
    ReadingTasks(st.tasks, |st.tasks|, name, EnvAfter(st, e0));
    assert st.tasks[..|st.tasks|] == st.tasks;
    AtConcat(head, st.tasks, |st.tasks|, s0, e0);
    ReadingConcat(head, st.tasks, |st.tasks|, s0, e0);
  }

  /** Flattening preserves meaning: the flat list, read in order, asks for the workflow's work. */
  lemma {:induction false} FlattenMeaning(wf: seq<string>, stages: StageStore, lastEnv: string,
                                          s0: string, e0: string)
    requires Known(wf, stages) && PlainStages(stages)
    requires lastEnv == "" || lastEnv == e0
    ensures var t := Flatten(wf, stages, lastEnv);
            Works(Reading(t, |t|, s0, e0)) == Meaning(wf, stages, e0)
  {
    if wf != [] {
      var st := stages[wf[0]];
      var block := [StageMark(wf[0])] + EnvEntries(st, lastEnv) + st.tasks;
      var rest := Flatten(wf[1..], stages, EnvAfter(st, lastEnv));
      ReadingStage(wf[0], st, lastEnv, s0, e0);
      FlattenMeaning(wf[1..], stages, EnvAfter(st, lastEnv), wf[0], EnvAfter(st, e0));
      ReadingConcat(block, rest, |rest|, s0, e0);
      var t := Flatten(wf, stages, lastEnv);
      assert t == block + rest;
      calc {
        Works(Reading(t, |t|, s0, e0));
        Works(Reading(block, |block|, s0, e0)) + Works(Reading(rest, |rest|, wf[0], EnvAfter(st, e0)));
        StageWork(wf[0], EnvAfter(st, e0), st.tasks) + Meaning(wf[1..], stages, EnvAfter(st, e0));
        Meaning(wf, stages, e0);
      }
    }
  }

  /**
   Entering a stage sets the machine's environment to the stage's own at once
   (backend/machines.go, validateChangeStage).  The flat list never contradicts that: the
   environment is already in force at the marker, or the very next entry asks for it.
   */
  ghost predicate EnvFollows(t: seq<Entry>, k: nat, stages: StageStore, e0: string)
    requires k < |t|
  {
    t[k].StageMark? ==>
      && t[k].name in stages
      && var env := stages[t[k].name].bootEnv;
         env == "" || EnvAt(t, k, e0) == env || (k + 1 < |t| && t[k + 1] == EnvMark(env))
  }

  /** An environment is asked for only right after the stage that it is the environment of. */
  predicate EnvAnnounced(t: seq<Entry>, k: nat, stages: StageStore)
    requires k < |t|
  {
    t[k].EnvMark? ==>
      && k > 0 && t[k - 1].StageMark? && t[k - 1].name in stages
      && t[k].name == stages[t[k - 1].name].bootEnv != ""
  }

  lemma BlockEnvFollows(block: seq<Entry>, rest: seq<Entry>, stages: StageStore, e0: string, k: nat)
    requires |block| <= k < |block + rest|
    requires EnvFollows(rest, k - |block|, stages, EnvAt(block, |block|, e0))
    requires EnvAnnounced(rest, k - |block|, stages)
    ensures EnvFollows(block + rest, k, stages, e0) && EnvAnnounced(block + rest, k, stages)
  {
    AtConcat(block, rest, k - |block|, "", e0);
    var t := block + rest;
    assert t[k] == rest[k - |block|];
    assert k + 1 < |t| ==> t[k + 1] == rest[k + 1 - |block|];
    assert k > |block| ==> t[k - 1] == rest[k - 1 - |block|];
  }

  lemma {:induction false} FlattenEnvFollows(wf: seq<string>, stages: StageStore, lastEnv: string,
                                             e0: string, k: nat)
    requires Known(wf, stages) && PlainStages(stages)
    requires lastEnv == "" || lastEnv == e0
    requires k < |Flatten(wf, stages, lastEnv)|
    ensures EnvFollows(Flatten(wf, stages, lastEnv), k, stages, e0)
    ensures EnvAnnounced(Flatten(wf, stages, lastEnv), k, stages)
    ensures !Flatten(wf, stages, lastEnv)[k].Malformed?
    decreases wf
  {
    var st := stages[wf[0]];
    var block := [StageMark(wf[0])] + EnvEntries(st, lastEnv) + st.tasks;
    var rest := Flatten(wf[1..], stages, EnvAfter(st, lastEnv));
    var t := block + rest;
    assert t == Flatten(wf, stages, lastEnv);
    if k == 0 {
      assert t[0] == StageMark(wf[0]);
      if st.bootEnv != "" && st.bootEnv != lastEnv {
        assert t[1] == EnvMark(st.bootEnv);
      }
    } else if k < |block| {
      assert t[k] == block[k] && t[0] == block[0];
    } else {
      FlattenEnvFollows(wf[1..], stages, EnvAfter(st, lastEnv), EnvAfter(st, e0), k - |block|);
      ReadingStage(wf[0], st, lastEnv, "", e0);
      BlockEnvFollows(block, rest, stages, e0, k);
    }
  }

  /** An environment is asked for only where another one, or none, was asked for last. */
  lemma {:induction false} FlattenSparse(wf: seq<string>, stages: StageStore, lastEnv: string, k: nat)
    requires Known(wf, stages) && PlainStages(stages) && k < |Flatten(wf, stages, lastEnv)|
    ensures var t := Flatten(wf, stages, lastEnv); t[k].EnvMark? ==> t[k].name != EnvAt(t, k, lastEnv)
    decreases wf
  {
    var st := stages[wf[0]];
    var block := [StageMark(wf[0])] + EnvEntries(st, lastEnv) + st.tasks;
    var rest := Flatten(wf[1..], stages, EnvAfter(st, lastEnv));
    var t := block + rest;
    assert t == Flatten(wf, stages, lastEnv);
    if k < |block| {
      assert t[k] == block[k];
      assert k == 1 ==> EnvAt(t, 1, lastEnv) == EnvAt(t, 0, lastEnv) == lastEnv;
    } else {
      FlattenSparse(wf[1..], stages, EnvAfter(st, lastEnv), k - |block|);
      ReadingStage(wf[0], st, lastEnv, "", lastEnv);
      AtConcat(block, rest, k - |block|, "", lastEnv);
      assert t[k] == rest[k - |block|];
    }
  }
}
