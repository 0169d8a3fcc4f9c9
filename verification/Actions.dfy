/**
 Plugin actions and how they are unloaded (midlayer/actions.go).

 The first part is the protocol: any number of threads look actions up, reserve them, run
 them and release them, while others add actions, take them out of the table and wait for
 them to fall idle.  Each step is one critical section of the source.
 */
module Actions {
  import opened Wrappers

  type Aid = nat
  type Tid = nat

  datatype Key = Key(ob: string, cmd: string, plugin: string)

  datatype Action = Action(inflight: int, unloading: bool)

  /** `Crashed`: a missing action is reported through a nil pointer. */
  datatype Phase = Idle | Found(a: Aid) | Running(a: Aid) | Taken(a: Aid) | Waiting(a: Aid) | Crashed

  datatype State = State(table: map<Key, Aid>, actions: seq<Action>, threads: seq<Phase>, unloaded: set<Aid>)

  datatype Op =
    | Add(key: Key)
    | Lookup(key: Key)
    | Reserve
    | Release
    | Remove(key: Key)
    | Mark
    | Check

  predicate Can(s: State, t: Tid, op: Op) {
    t < |s.threads| &&
    match op
    case Add(_) => s.threads[t].Idle?
    case Lookup(_) => s.threads[t].Idle?
    case Remove(_) => s.threads[t].Idle?
    case Reserve => s.threads[t].Found? && s.threads[t].a < |s.actions|
    case Release => s.threads[t].Running? && s.threads[t].a < |s.actions|
    case Mark => s.threads[t].Taken? && s.threads[t].a < |s.actions|
    case Check => s.threads[t].Waiting? && s.threads[t].a < |s.actions|
  }

  function At(s: State, t: Tid, ph: Phase): State
    requires t < |s.threads|
  {
    s.(threads := s.threads[t := ph])
  }

  function SetAction(s: State, a: Aid, act: Action): State
    requires a < |s.actions|
  {
    s.(actions := s.actions[a := act])
  }

  function Step(s: State, t: Tid, op: Op): State
    requires Can(s, t, op)
  {
    match op
    case Add(key) =>
      if key in s.table then s
      else s.(table := s.table[key := |s.actions|], actions := s.actions + [Action(0, false)])
    case Lookup(key) => At(s, t, if key in s.table then Found(s.table[key]) else Crashed)
    case Reserve =>
      var a := s.threads[t].a;
      var act := s.actions[a];
      if act.unloading then At(s, t, Idle)
      else At(SetAction(s, a, act.(inflight := act.inflight + 1)), t, Running(a))
    case Release =>
      var a := s.threads[t].a;
      At(SetAction(s, a, s.actions[a].(inflight := s.actions[a].inflight - 1)), t, Idle)
    case Remove(key) =>
      if key !in s.table then s
      else At(s, t, Taken(s.table[key])).(table := s.table - {key})
    case Mark =>
      var a := s.threads[t].a;
      At(SetAction(s, a, s.actions[a].(unloading := true)), t, Waiting(a))
    case Check =>
      var a := s.threads[t].a;
      if s.actions[a].inflight != 0 then s
      else At(s, t, Idle).(unloaded := s.unloaded + {a})
  }

  /** The threads between Reserve and Release on an action. */
  function Runners(threads: seq<Phase>, a: Aid): set<Tid> {
    set t | 0 <= t < |threads| && threads[t] == Running(a)
  }

  ghost predicate ActionOk(s: State, a: Aid)
    requires a < |s.actions|
  {
    && s.actions[a].inflight == |Runners(s.threads, a)|
    && (a in s.unloaded ==> s.actions[a].unloading && s.actions[a].inflight == 0)
  }

  predicate PhaseOk(s: State, ph: Phase) {
    && (ph.Found? || ph.Running? || ph.Taken? || ph.Waiting? ==> ph.a < |s.actions|)
    && (ph.Waiting? ==> s.actions[ph.a].unloading)
  }

  ghost predicate Inv(s: State) {
    && (forall a :: 0 <= a < |s.actions| ==> ActionOk(s, a))
    && (forall t :: 0 <= t < |s.threads| ==> PhaseOk(s, s.threads[t]))
    && (forall k :: k in s.table ==> s.table[k] < |s.actions|)
    && (forall a :: a in s.unloaded ==> a < |s.actions|)
  }

  /** Changing one thread changes the runners of an action by that thread alone. */
  lemma RunnersChange(threads: seq<Phase>, t: Tid, ph: Phase, a: Aid)
    requires t < |threads|
    ensures var was, now := Runners(threads, a), Runners(threads[t := ph], a);
            |now| == |was| + (if ph == Running(a) then 1 else 0) - (if threads[t] == Running(a) then 1 else 0)
  {
    var was, now := Runners(threads, a), Runners(threads[t := ph], a);
    var rest := was - {t};
    assert now == if ph == Running(a) then rest + {t} else rest;
  }

  lemma ReserveKeeps(s: State, t: Tid)
    requires Inv(s) && Can(s, t, Reserve)
    ensures Inv(Step(s, t, Reserve))
  {
    var s' := Step(s, t, Reserve);
    assert PhaseOk(s, s.threads[t]);
    forall a | 0 <= a < |s'.actions| ensures ActionOk(s', a) {
      assert ActionOk(s, a);
      RunnersChange(s.threads, t, s'.threads[t], a);
    }
    forall u | 0 <= u < |s'.threads| ensures PhaseOk(s', s'.threads[u]) {
      assert PhaseOk(s, s.threads[u]);
    }
  }

  lemma ReleaseKeeps(s: State, t: Tid)
    requires Inv(s) && Can(s, t, Release)
    ensures Inv(Step(s, t, Release))
  {
    var s' := Step(s, t, Release);
    assert PhaseOk(s, s.threads[t]);
    assert t in Runners(s.threads, s.threads[t].a);
    forall a | 0 <= a < |s'.actions| ensures ActionOk(s', a) {
      assert ActionOk(s, a);
      RunnersChange(s.threads, t, Idle, a);
    }
    forall u | 0 <= u < |s'.threads| ensures PhaseOk(s', s'.threads[u]) {
      assert PhaseOk(s, s.threads[u]);
    }
  }

  /** Steps that start or end no call. */
  lemma QuietKeeps(s: State, t: Tid, op: Op)
    requires Inv(s) && Can(s, t, op) && !op.Reserve? && !op.Release? && !op.Add?
    ensures Inv(Step(s, t, op))
  {
    var s' := Step(s, t, op);
    assert PhaseOk(s, s.threads[t]);
    forall a | 0 <= a < |s'.actions| ensures ActionOk(s', a) {
      assert ActionOk(s, a);
      RunnersChange(s.threads, t, s'.threads[t], a);
      assert s'.threads == s.threads[t := s'.threads[t]];
    }
    forall u | 0 <= u < |s'.threads| ensures PhaseOk(s', s'.threads[u]) {
      assert PhaseOk(s, s.threads[u]);
    }
  }

  lemma AddKeeps(s: State, t: Tid, key: Key)
    requires Inv(s) && Can(s, t, Add(key))
    ensures Inv(Step(s, t, Add(key)))
  {
    var s' := Step(s, t, Add(key));
    if key !in s.table {
      forall a | 0 <= a < |s'.actions| ensures ActionOk(s', a) {
        if a < |s.actions| {
          assert ActionOk(s, a);
        } else {
          forall u | 0 <= u < |s.threads| ensures s.threads[u] != Running(a) {
            assert PhaseOk(s, s.threads[u]);
          }
          assert Runners(s.threads, a) == {};
        }
      }
      forall u | 0 <= u < |s'.threads| ensures PhaseOk(s', s'.threads[u]) {
        assert PhaseOk(s, s.threads[u]);
      }
    }
  }

  lemma StepKeeps(s: State, t: Tid, op: Op)
    requires Inv(s) && Can(s, t, op)
    ensures Inv(Step(s, t, op))
  {
    match op
    case Reserve => ReserveKeeps(s, t);
    case Release => ReleaseKeeps(s, t);
    case Add(key) => AddKeeps(s, t, key);
    case _ => QuietKeeps(s, t, op);
  }

  predicate LegalRun(s: State, run: seq<(Tid, Op)>)
    decreases run
  {
    run == [] || (Can(s, run[0].0, run[0].1) && LegalRun(Step(s, run[0].0, run[0].1), run[1..]))
  }

  function Exec(s: State, run: seq<(Tid, Op)>): State
    requires LegalRun(s, run)
    decreases run
  {
    if run == [] then s else Exec(Step(s, run[0].0, run[0].1), run[1..])
  }

  predicate Initial(s: State) {
    && s.table == map[] && s.actions == [] && s.unloaded == {}
    && forall t :: 0 <= t < |s.threads| ==> s.threads[t].Idle?
  }

  /** The invariant along every run; an action that is unloaded stays so. */
  lemma {:induction false} RunKeeps(s: State, run: seq<(Tid, Op)>)
    requires Inv(s) && LegalRun(s, run)
    ensures Inv(Exec(s, run)) && s.unloaded <= Exec(s, run).unloaded
    decreases run
  {
    if run != [] {
      StepKeeps(s, run[0].0, run[0].1);
      RunKeeps(Step(s, run[0].0, run[0].1), run[1..]);
    }
  }

  /** In every state a run can reach, an action's counter is the number of calls through it. */
  lemma InflightCounts(s0: State, run: seq<(Tid, Op)>, a: Aid)
    requires Initial(s0) && LegalRun(s0, run) && a < |Exec(s0, run).actions|
    ensures var s := Exec(s0, run); s.actions[a].inflight == |Runners(s.threads, a)|
  {
    RunKeeps(s0, run);
    assert ActionOk(Exec(s0, run), a);
  }

  /**
   Unload safety: once the unloading of an action has returned, no call through it is running
   at any later time, whoever had looked it up before.
   */
  lemma UnloadedForGood(s0: State, before: seq<(Tid, Op)>, after: seq<(Tid, Op)>, a: Aid, t: Tid)
    requires Initial(s0) && LegalRun(s0, before) && LegalRun(Exec(s0, before), after)
    requires a in Exec(s0, before).unloaded
    requires t < |Exec(Exec(s0, before), after).threads|
    ensures Exec(Exec(s0, before), after).threads[t] != Running(a)
  {
    RunKeeps(s0, before);
    RunKeeps(Exec(s0, before), after);
    var s := Exec(Exec(s0, before), after);
    assert ActionOk(s, a);
    assert s.threads[t] == Running(a) ==> t in Runners(s.threads, a);
  }

  /** A caller that still holds an unloaded action is turned away. */
  lemma StaleCallerRefused(s0: State, run: seq<(Tid, Op)>, t: Tid)
    requires Initial(s0) && LegalRun(s0, run) && Can(Exec(s0, run), t, Reserve)
    requires Exec(s0, run).threads[t].a in Exec(s0, run).unloaded
    ensures Step(Exec(s0, run), t, Reserve) == At(Exec(s0, run), t, Idle)
  {
    RunKeeps(s0, run);
    assert ActionOk(Exec(s0, run), Exec(s0, run).threads[t].a);
  }

  /** The wait ends: it can leave its loop exactly when no call is running. */
  lemma WaitEnds(s0: State, run: seq<(Tid, Op)>, t: Tid)
    requires Initial(s0) && LegalRun(s0, run) && Can(Exec(s0, run), t, Check)
    ensures var s := Exec(s0, run);
            Step(s, t, Check).threads[t].Idle? <==> Runners(s.threads, s.threads[t].a) == {}
  {
    RunKeeps(s0, run);
    var s := Exec(s0, run);
    assert ActionOk(s, s.threads[t].a);
  }

  // ----- an action that is in the table can be called -----

  /** No thread is about to unload an action or is waiting for it. */
  predicate Spared(s: State, a: Aid) {
    && a < |s.actions| && !s.actions[a].unloading && a !in s.unloaded
    && forall t :: 0 <= t < |s.threads| ==> s.threads[t] != Taken(a) && s.threads[t] != Waiting(a)
  }

  ghost predicate Listed(s: State) {
    && (forall k :: k in s.table ==> Spared(s, s.table[k]))
    && (forall k, l :: k in s.table && l in s.table && k != l ==> s.table[k] != s.table[l])
  }

  lemma StepLists(s: State, t: Tid, op: Op)
    requires Inv(s) && Listed(s) && Can(s, t, op)
    ensures Listed(Step(s, t, op))
  {
    var s' := Step(s, t, op);
    forall k | k in s'.table ensures Spared(s', s'.table[k]) {
      if k in s.table {
        assert Spared(s, s.table[k]);
      } else {
        forall u | 0 <= u < |s.threads| ensures s.threads[u] != Taken(|s.actions|) && s.threads[u] != Waiting(|s.actions|) {
          assert PhaseOk(s, s.threads[u]);
        }
      }
    }
  }

  lemma {:induction false} RunLists(s: State, run: seq<(Tid, Op)>)
    requires Inv(s) && Listed(s) && LegalRun(s, run)
    ensures Inv(Exec(s, run)) && Listed(Exec(s, run))
    decreases run
  {
    if run != [] {
      StepKeeps(s, run[0].0, run[0].1);
      StepLists(s, run[0].0, run[0].1);
      RunLists(Step(s, run[0].0, run[0].1), run[1..]);
    }
  }

  /**
   In every state a run can reach, an idle caller who looks an action up in the table gets to run
   it: the lookup finds it, and if nothing comes between, the reservation is granted and counted.
   */
  lemma ListedRuns(s0: State, run: seq<(Tid, Op)>, t: Tid, key: Key)
    requires Initial(s0) && LegalRun(s0, run)
    requires t < |Exec(s0, run).threads| && Exec(s0, run).threads[t].Idle? && key in Exec(s0, run).table
    ensures var s := Exec(s0, run);
            var a := s.table[key];
            var s1 := Step(s, t, Lookup(key));
            && Can(s1, t, Reserve)
            && var s2 := Step(s1, t, Reserve);
            && s2.threads == s.threads[t := Running(a)] && s2.table == s.table
            && s2.actions == s.actions[a := Action(s.actions[a].inflight + 1, false)]
  {
    RunLists(s0, run);
    assert Spared(Exec(s0, run), Exec(s0, run).table[key]);
  }

  /** A reservation is granted just when nobody has begun to unload the action. */
  lemma ReservedIff(s: State, t: Tid)
    requires Can(s, t, Reserve)
    ensures Step(s, t, Reserve).threads[t].Running? <==> !s.actions[s.threads[t].a].unloading
    ensures Step(s, t, Reserve).threads[t].Running? ==> Step(s, t, Reserve).threads[t].a == s.threads[t].a
  {
  }

  /** What a plugin adds stays in the table until it is removed. */
  lemma {:induction false} AddedStays(s: State, run: seq<(Tid, Op)>, key: Key)
    requires LegalRun(s, run) && key in s.table
    requires forall i :: 0 <= i < |run| ==> run[i].1 != Remove(key)
    ensures key in Exec(s, run).table && Exec(s, run).table[key] == s.table[key]
    decreases run
  {
    if run != [] {
      AddedStays(Step(s, run[0].0, run[0].1), run[1..], key);
    }
  }

  lemma AddLists(s: State, t: Tid, key: Key)
    requires Can(s, t, Add(key))
    ensures key in Step(s, t, Add(key)).table
    ensures key !in s.table ==> Step(s, t, Add(key)).table == s.table[key := |s.actions|]
  {
  }

  /** Removing takes an action out of the table, and nobody finds it there again. */
  lemma RemoveTakes(s: State, t: Tid, key: Key)
    requires Can(s, t, Remove(key)) && key in s.table
    ensures var s' := Step(s, t, Remove(key));
            s'.table == s.table - {key} && s'.threads == s.threads[t := Taken(s.table[key])] && s'.actions == s.actions
  {
  }

  /** Once no call is running, whoever has taken an action out gets to the end of unloading it. */
  lemma UnloadEnds(s0: State, run: seq<(Tid, Op)>, t: Tid)
    requires Initial(s0) && LegalRun(s0, run)
    requires var s := Exec(s0, run);
             t < |s.threads| && s.threads[t].Taken? && Runners(s.threads, s.threads[t].a) == {}
    ensures var s := Exec(s0, run);
            && Can(s, t, Mark) && Can(Step(s, t, Mark), t, Check)
            && var s' := Step(Step(s, t, Mark), t, Check);
               s'.threads[t].Idle? && s.threads[t].a in s'.unloaded
  {
    RunKeeps(s0, run);
    var s := Exec(s0, run);
    assert PhaseOk(s, s.threads[t]) && ActionOk(s, s.threads[t].a);
  }
}
