/**
 When transactions can block each other for good (backend/dataTracker.go, lockEnts and lockAll).
 The lock order alone never lets that happen.  The one way to a deadlock is a transaction that
 names a store that does not exist: it crashes with the reader side taken, and a transaction on
 all stores then waits for it in vain.
 */
module Deadlocks {
  import opened LockOrder
  import opened Transactions
  import opened Wrappers

  predicate Good(stores: set<Name>, x: Txn) {
    AllExist(stores, PlanOf(x))
  }

  /** A transaction is good just when every store it names exists. */
  lemma GoodIff(stores: set<Name>, x: Txn)
    ensures Good(stores, x) <==> (x.Stores? ==> forall n :: n in x.ents ==> n in stores)
  {
    if x.Stores? {
      PlanOk(x.ents);
      if Good(stores, x) {
        forall n | n in x.ents ensures n in stores {
          var i :| 0 <= i < |Plan(x.ents)| && Plan(x.ents)[i] == n;
        }
      }
    }
  }

  /** A thread crashes sooner or later. */
  predicate Crashes(stores: set<Name>, todo: seq<Txn>) {
    todo != [] && (!Good(stores, todo[0]) || Crashes(stores, todo[1..]))
  }

  /** A thread comes to a transaction on all stores without crashing. */
  predicate TakesAll(stores: set<Name>, todo: seq<Txn>) {
    todo != [] && (todo[0].AllStores? || (Good(stores, todo[0]) && TakesAll(stores, todo[1..])))
  }

  predicate Hazard(s: State, t: Tid, u: Tid) {
    && t < |s.threads| && u < |s.threads| && t != u
    && Crashes(s.stores, s.threads[t].todo) && TakesAll(s.stores, s.threads[u].todo)
  }

  // ----- without a hazard -----

  /** No step makes a hazard that was not there before. */
  lemma HazardOnlyShrinks(s: State, x: Tid, a: Act, t: Tid, u: Tid)
    requires Inv(s) && Can(s, x, a) && Hazard(Step(s, x, a), t, u)
    ensures Hazard(s, t, u)
  {
    assert ThreadOk(s, x);
  }

  lemma {:induction false} RunHazard(s: State, run: seq<(Tid, Act)>, t: Tid, u: Tid)
    requires Inv(s) && LegalRun(s, run) && Hazard(Exec(s, run), t, u)
    ensures Hazard(s, t, u)
    decreases run
  {
    if run != [] {
      StepKeeps(s, run[0].0, run[0].1);
      RunHazard(Step(s, run[0].0, run[0].1), run[1..], t, u);
      HazardOnlyShrinks(s, run[0].0, run[0].1, t, u);
    }
  }

  lemma BlockedIsHazard(s: State, r: Tid, w: Tid)
    requires Inv(s) && Blocked(s, r, w)
    ensures Hazard(s, r, w)
  {
    assert ThreadOk(s, r) && ThreadOk(s, w);
  }

  /**
   Deadlock freedom: in every state a run can reach, as long as some thread has not finished,
   some thread can take a step, unless one thread names a store that does not exist and another
   takes all stores.
   */
  lemma NoDeadlock(s0: State, run: seq<(Tid, Act)>, t: Tid)
    requires Initial(s0) && LegalRun(s0, run)
    requires forall r, w :: !Hazard(s0, r, w)
    requires t < |Exec(s0, run).threads| && Unfinished(Exec(s0, run).threads[t])
    ensures exists u :: CanStep(Exec(s0, run), u)
  {
    InitialOk(s0);
    RunKeeps(s0, run);
    var s := Exec(s0, run);
    SomeoneCanStep(s, t);
    if r, w :| Blocked(s, r, w) {
      BlockedIsHazard(s, r, w);
      RunHazard(s0, run, r, w);
    }
  }

  // ----- with a hazard: a run into the deadlock -----

  ghost predicate Reach(s: State, s': State) {
    exists run :: LegalRun(s, run) && Exec(s, run) == s'
  }

  lemma ReachSelf(s: State)
    ensures Reach(s, s)
  {
    assert LegalRun(s, []) && Exec(s, []) == s;
  }

  lemma ReachStep(s: State, t: Tid, a: Act, s': State)
    requires Can(s, t, a) && Reach(Step(s, t, a), s')
    ensures Reach(s, s')
  {
    var run :| LegalRun(Step(s, t, a), run) && Exec(Step(s, t, a), run) == s';
    var more := [(t, a)] + run;
    assert more[1..] == run;
    assert LegalRun(s, more) && Exec(s, more) == s';
  }

  lemma {:induction false} ReachOn(s: State, run: seq<(Tid, Act)>, s': State)
    requires LegalRun(s, run) && Reach(Exec(s, run), s')
    ensures Reach(s, s')
    decreases run
  {
    if run != [] {
      ReachOn(Step(s, run[0].0, run[0].1), run[1..], s');
      ReachStep(s, run[0].0, run[0].1, s');
    }
  }

  lemma ReachTrans(a: State, b: State, c: State)
    requires Reach(a, b) && Reach(b, c)
    ensures Reach(a, c)
  {
    var run :| LegalRun(a, run) && Exec(a, run) == b;
    ReachOn(a, run, c);
  }

  /** The first k stores of a plan, held by t. */
  function HeldBy(plan: seq<Name>, k: nat, t: Tid): map<Name, Tid>
    requires k <= |plan|
  {
    if k == 0 then map[] else HeldBy(plan, k - 1, t)[plan[k - 1] := t]
  }

  lemma {:induction false} HeldNames(plan: seq<Name>, k: nat, t: Tid)
    requires k <= |plan|
    ensures forall n :: n in HeldBy(plan, k, t) <==> n in plan[..k]
  {
    if k > 0 {
      HeldNames(plan, k - 1, t);
      assert plan[..k] == plan[..k - 1] + [plan[k - 1]];
    }
  }

  lemma HeldNext(plan: seq<Name>, k: nat, t: Tid)
    requires k < |plan| && Descending(plan)
    ensures plan[k] !in HeldBy(plan, k, t)
    ensures HeldBy(plan, k, t)[plan[k] := t] == HeldBy(plan, k + 1, t)
    ensures HeldBy(plan, k + 1, t) - {plan[k]} == HeldBy(plan, k, t)
  {
    HeldNames(plan, k, t);
  }

  /** The state with one thread, and what it holds, replaced. */
  function With(s: State, t: Tid, th: Thread, held: map<Name, Tid>): State
    requires t < |s.threads|
  {
    s.(threads := s.threads[t := th], held := held)
  }

  lemma {:induction false} TakeAll(s: State, t: Tid, k: nat)
    requires t < |s.threads| && var th := s.threads[t];
             && k <= |th.plan| && Descending(th.plan) && AllExist(s.stores, th.plan)
             && th.phase == Acquiring(k) && s.held == HeldBy(th.plan, k, t)
    ensures var th := s.threads[t];
            Reach(s, With(s, t, th.(phase := Acquiring(|th.plan|)), HeldBy(th.plan, |th.plan|, t)))
    decreases |s.threads[t].plan| - k
  {
    var th := s.threads[t];
    var end := With(s, t, th.(phase := Acquiring(|th.plan|)), HeldBy(th.plan, |th.plan|, t));
    if k == |th.plan| {
      assert end == s;
      ReachSelf(s);
    } else {
      HeldNext(th.plan, k, t);
      var s1 := With(s, t, th.(phase := Acquiring(k + 1)), HeldBy(th.plan, k + 1, t));
      assert Step(s, t, TakeStore) == s1;
      TakeAll(s1, t, k + 1);
      assert With(s1, t, s1.threads[t].(phase := Acquiring(|th.plan|)), HeldBy(th.plan, |th.plan|, t)) == end;
      ReachStep(s, t, TakeStore, end);
    }
  }

  lemma DropOne(s: State, t: Tid, j: nat) returns (s': State)
    requires t < |s.threads| && var th := s.threads[t];
             && j < |th.plan| && Descending(th.plan)
             && th.phase == Releasing(j + 1) && s.held == HeldBy(th.plan, j + 1, t)
    ensures Can(s, t, DropStore) && s' == Step(s, t, DropStore)
    ensures s' == With(s, t, s.threads[t].(phase := Releasing(j)), HeldBy(s.threads[t].plan, j, t))
  {
    HeldNext(s.threads[t].plan, j, t);
    s' := Step(s, t, DropStore);
  }

  lemma {:induction false} DropAll(s: State, t: Tid, k: nat)
    requires t < |s.threads| && var th := s.threads[t];
             && k <= |th.plan| && Descending(th.plan)
             && th.phase == Releasing(k) && s.held == HeldBy(th.plan, k, t)
    ensures Reach(s, With(s, t, s.threads[t].(phase := Releasing(0)), map[]))
    decreases k
  {
    var th := s.threads[t];
    var end := With(s, t, th.(phase := Releasing(0)), map[]);
    if k == 0 {
      assert HeldBy(th.plan, 0, t) == map[];
      assert end == s;
      ReachSelf(s);
    } else {
      var s1 := DropOne(s, t, k - 1);
      DropAll(s1, t, k - 1);
      assert With(s1, t, s1.threads[t].(phase := Releasing(0)), map[]) == end;
      ReachStep(s, t, DropStore, end);
    }
  }

  /** A thread about to take its next transaction, with nothing in its way but crashed readers. */
  predicate Next(s: State, t: Tid) {
    && t < |s.threads| && t !in s.readers && s.held == map[] && s.writer.None?
    && s.threads[t].phase.Idle? && s.threads[t].todo != [] && s.threads[t].queue == []
  }

  function Done(th: Thread): Thread
    requires th.todo != []
  {
    th.(todo := th.todo[1..], plan := PlanOf(th.todo[0]))
  }

  lemma StoresInside(s: State, t: Tid, th: Thread)
    requires t < |s.threads| && s.threads[t] == th && th.phase == Acquiring(0)
    requires Descending(th.plan) && AllExist(s.stores, th.plan) && s.held == map[]
    ensures Reach(s, s.(threads := s.threads[t := th.(phase := Releasing(0))]))
  {
    var n := |th.plan|;
    var all := HeldBy(th.plan, n, t);
    assert HeldBy(th.plan, 0, t) == map[];
    TakeAll(s, t, 0);
    var s1 := With(s, t, th.(phase := Acquiring(n)), all);
    var s2 := With(s, t, th.(phase := InThunk), all);
    var s3 := With(s, t, th.(phase := Releasing(n)), all);
    var s4 := s.(threads := s.threads[t := th.(phase := Releasing(0))]);
    assert Step(s1, t, Enter) == s2 && Step(s2, t, Leave) == s3;
    DropAll(s3, t, n);
    assert With(s3, t, s3.threads[t].(phase := Releasing(0)), map[]) == s4;
    ReachStep(s2, t, Leave, s4);
    ReachStep(s1, t, Enter, s4);
    ReachTrans(s, s1, s4);
  }

  lemma SoloStores(s: State, t: Tid)
    requires Next(s, t) && s.threads[t].todo[0].Stores? && Good(s.stores, s.threads[t].todo[0])
    ensures Reach(s, s.(threads := s.threads[t := Done(s.threads[t])]))
  {
    var th := s.threads[t].(plan := PlanOf(s.threads[t].todo[0]));
    PlanOk(th.todo[0].ents);
    var in' := s.(readers := s.readers + {t});
    var s1 := s.(threads := s.threads[t := th.(phase := WantRead)]);
    var s2 := in'.(threads := s.threads[t := th.(phase := Acquiring(0))]);
    var s3 := in'.(threads := s.threads[t := th.(phase := Releasing(0))]);
    var s4 := s.(threads := s.threads[t := th.(phase := Publishing)]);
    var s5 := s.(threads := s.threads[t := Done(s.threads[t])]);
    assert Step(s, t, Begin) == s1 && Step(s1, t, TakeRead) == s2;
    StoresInside(s2, t, th.(phase := Acquiring(0)));
    assert s2.(threads := s2.threads[t := th.(phase := Releasing(0))]) == s3;
    assert s.readers + {t} - {t} == s.readers;
    assert Step(s3, t, DropRead) == s4 && Step(s4, t, Finish) == s5;
    ReachSelf(s5);
    ReachStep(s4, t, Finish, s5);
    ReachStep(s3, t, DropRead, s5);
    ReachTrans(s2, s3, s5);
    ReachStep(s1, t, TakeRead, s5);
    ReachStep(s, t, Begin, s5);
  }

  lemma SoloAll(s: State, t: Tid)
    requires Next(s, t) && s.threads[t].todo[0].AllStores? && s.readers == {}
    ensures Reach(s, s.(threads := s.threads[t := Done(s.threads[t])]))
  {
    var th := s.threads[t].(plan := []);
    var mine := s.(writer := Some(t));
    var s1 := s.(threads := s.threads[t := th.(phase := WantWrite)]);
    var s2 := mine.(threads := s.threads[t := th.(phase := Draining)]);
    var s3 := mine.(threads := s.threads[t := th.(phase := AllThunk)]);
    var s4 := s.(threads := s.threads[t := th.(phase := Publishing)]);
    var s5 := s.(threads := s.threads[t := Done(s.threads[t])]);
    assert Step(s, t, Begin) == s1 && Step(s1, t, Announce) == s2 && Step(s2, t, TakeWrite) == s3;
    assert Step(s3, t, DropWrite) == s4 && Step(s4, t, Finish) == s5;
    ReachSelf(s5);
    ReachStep(s4, t, Finish, s5);
    ReachStep(s3, t, DropWrite, s5);
    ReachStep(s2, t, TakeWrite, s5);
    ReachStep(s1, t, Announce, s5);
    ReachStep(s, t, Begin, s5);
  }

  /** Only one thread has moved. */
  predicate OnlyMoved(s: State, s': State, t: Tid) {
    && t < |s.threads| == |s'.threads| && s'.stores == s.stores && s'.held == s.held
    && forall v :: 0 <= v < |s.threads| && v != t ==> s'.threads[v] == s.threads[v]
  }

  lemma {:induction false} RunToCrash(s: State, t: Tid) returns (s': State)
    requires Next(s, t) && s.readers == {} && Crashes(s.stores, s.threads[t].todo)
    ensures Reach(s, s') && OnlyMoved(s, s', t)
    ensures s'.threads[t].phase.Crashed? && s'.readers == {t} && s'.writer.None?
    decreases |s.threads[t].todo|
  {
    var th := s.threads[t];
    if Good(s.stores, th.todo[0]) {
      if th.todo[0].Stores? {
        SoloStores(s, t);
      } else {
        SoloAll(s, t);
      }
      var s1 := s.(threads := s.threads[t := Done(th)]);
      s' := RunToCrash(s1, t);
      ReachTrans(s, s1, s');
    } else {
      var s1 := Step(s, t, Begin);
      var s2 := Step(s1, t, TakeRead);
      s' := Step(s2, t, Crash);
      ReachSelf(s');
      ReachStep(s2, t, Crash, s');
      ReachStep(s1, t, TakeRead, s');
      ReachStep(s, t, Begin, s');
    }
  }

  lemma {:induction false} RunToDrain(s: State, u: Tid) returns (s': State)
    requires Next(s, u) && TakesAll(s.stores, s.threads[u].todo)
    ensures Reach(s, s') && OnlyMoved(s, s', u)
    ensures s'.threads[u].phase.Draining? && s'.readers == s.readers && s'.writer == Some(u)
    decreases |s.threads[u].todo|
  {
    var th := s.threads[u];
    if th.todo[0].AllStores? {
      var s1 := Step(s, u, Begin);
      s' := Step(s1, u, Announce);
      ReachSelf(s');
      ReachStep(s1, u, Announce, s');
      ReachStep(s, u, Begin, s');
    } else {
      SoloStores(s, u);
      var s1 := s.(threads := s.threads[u := Done(th)]);
      s' := RunToDrain(s1, u);
      ReachTrans(s, s1, s');
    }
  }

  predicate Asking(th: Thread) {
    (th.phase.Idle? && th.todo == []) || th.phase.WantRead? || th.phase.WantWrite?
  }

  /** Everybody but the two has finished, or asks for the reader or the writer side. */
  predicate OthersAsk(s: State, t: Tid, u: Tid, n: nat) {
    forall v :: 0 <= v < n && v < |s.threads| && v != t && v != u ==> Asking(s.threads[v])
  }

  predicate OthersIdle(s: State, t: Tid, u: Tid, n: nat) {
    forall v :: n <= v < |s.threads| && v != t && v != u ==> s.threads[v].phase.Idle?
  }

  lemma {:induction false} OthersBegin(s: State, t: Tid, u: Tid, n: nat) returns (s': State)
    requires Blocked(s, t, u) && s.readers == {t} && s.writer == Some(u) && n <= |s.threads|
    requires OthersAsk(s, t, u, n) && OthersIdle(s, t, u, n)
    ensures Reach(s, s') && |s'.threads| == |s.threads|
    ensures Blocked(s', t, u) && s'.readers == {t} && s'.writer == Some(u) && OthersAsk(s', t, u, |s'.threads|)
    decreases |s.threads| - n
  {
    if n == |s.threads| {
      s' := s;
      ReachSelf(s);
    } else if n == t || n == u || s.threads[n].todo == [] {
      s' := OthersBegin(s, t, u, n + 1);
    } else {
      var s1 := Step(s, n, Begin);
      s' := OthersBegin(s1, t, u, n + 1);
      ReachStep(s, n, Begin, s');
    }
  }

  /** Somebody has not finished, and nobody can take a step. */
  ghost predicate Dead(s: State) {
    && (exists t :: 0 <= t < |s.threads| && Unfinished(s.threads[t]))
    && forall u: Tid, a :: Can(s, u, a) ==> !Advances(a)
  }

  lemma AllAskIsDead(s: State, t: Tid, u: Tid)
    requires Blocked(s, t, u) && s.readers == {t} && s.writer == Some(u) && OthersAsk(s, t, u, |s.threads|)
    ensures Dead(s)
  {
    assert Unfinished(s.threads[u]);
    forall v: Tid, a | Can(s, v, a) ensures !Advances(a) {
      assert v == t || v == u || Asking(s.threads[v]);
    }
  }

  lemma HazardDeadlocks(s0: State, t: Tid, u: Tid)
    requires Initial(s0) && Hazard(s0, t, u)
    ensures exists s :: Reach(s0, s) && Dead(s)
  {
    var s1 := RunToCrash(s0, t);
    assert s1.threads[u] == s0.threads[u];
    var s2 := RunToDrain(s1, u);
    assert s2.threads[t] == s1.threads[t];
    var s3 := OthersBegin(s2, t, u, 0);
    AllAskIsDead(s3, t, u);
    ReachTrans(s0, s1, s2);
    ReachTrans(s0, s2, s3);
  }

  /**
   Exactly when a deadlock can be reached, for any number of threads with any transactions: when
   one thread comes to a transaction that names a store that does not exist, and another, before
   any such of its own, to one on all stores.
   */
  lemma DeadlockIff(s0: State)
    requires Initial(s0)
    ensures (exists s :: Reach(s0, s) && Dead(s)) <==> exists t, u :: Hazard(s0, t, u)
  {
    if t, u :| Hazard(s0, t, u) {
      HazardDeadlocks(s0, t, u);
    } else {
      forall s | Reach(s0, s) ensures !Dead(s) {
        var run :| LegalRun(s0, run) && Exec(s0, run) == s;
        if t :| 0 <= t < |s.threads| && Unfinished(s.threads[t]) {
          NoDeadlock(s0, run, t);
        }
      }
    }
  }
}
