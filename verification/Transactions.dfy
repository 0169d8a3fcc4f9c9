/**
 Many threads running transactions against the stores (backend/requestTracker.go,
 backend/dataTracker.go), as a state machine whose steps are single lock operations.

 A transaction on named stores takes the reader side of one reader/writer lock, then its
 stores one at a time in the order of LockOrder.Plan; a transaction on all stores takes the
 writer side.  As in Go, a writer that has announced itself keeps new readers out while it
 waits for the present ones.  A transaction that names a store that does not exist crashes with
 the reader side taken, which it never gives back.  Events published inside a transaction are
 queued, and delivered once its locks have been given back.
 */
module Transactions {
  import opened LockOrder
  import opened Wrappers

  type Event = nat
  type Tid = nat

  datatype Txn = Stores(ents: seq<Name>) | AllStores

  datatype Phase =
    | Idle
    | WantRead
    | Acquiring(k: nat)
    | InThunk
    | Releasing(k: nat)
    | WantWrite
    | Draining
    | AllThunk
    | Publishing
    | Crashed

  /** `todo` starts with the transaction at hand; `issued` is everything published so far. */
  datatype Thread = Thread(todo: seq<Txn>, phase: Phase, plan: seq<Name>, queue: seq<Event>, issued: seq<Event>)

  datatype State = State(
    threads: seq<Thread>, readers: set<Tid>, writer: Option<Tid>, held: map<Name, Tid>,
    delivered: seq<(Tid, Event)>, stores: set<Name>)

  datatype Act =
    | Begin
    | TakeRead
    | TakeStore
    | Enter
    | Crash
    | Queue(e: Event)
    | Leave
    | DropStore
    | DropRead
    | Announce
    | TakeWrite
    | DropWrite
    | Deliver
    | Finish
    | PublishNow(e: Event)

  /** The stores a transaction names, in the order it takes them. */
  function PlanOf(x: Txn): seq<Name> {
    if x.Stores? then Plan(x.ents) else []
  }

  predicate AllExist(stores: set<Name>, names: seq<Name>) {
    forall i :: 0 <= i < |names| ==> names[i] in stores
  }

  predicate Can(s: State, t: Tid, a: Act) {
    t < |s.threads| &&
    var th := s.threads[t];
    match a
    case Begin => th.phase.Idle? && th.todo != []
    case TakeRead => th.phase.WantRead? && s.writer.None?
    case TakeStore =>
      && th.phase.Acquiring? && AllExist(s.stores, th.plan)
      && th.phase.k < |th.plan| && th.plan[th.phase.k] !in s.held
    case Enter => th.phase.Acquiring? && AllExist(s.stores, th.plan) && th.phase.k == |th.plan|
    case Crash => th.phase.Acquiring? && !AllExist(s.stores, th.plan)
    case Queue(_) => th.phase.InThunk? || th.phase.AllThunk?
    case Leave => th.phase.InThunk?
    case DropStore => th.phase.Releasing? && 0 < th.phase.k <= |th.plan|
    case DropRead => th.phase.Releasing? && th.phase.k == 0
    case Announce => th.phase.WantWrite? && s.writer.None?
    case TakeWrite => th.phase.Draining? && s.readers == {}
    case DropWrite => th.phase.AllThunk?
    case Deliver => th.phase.Publishing? && th.queue != []
    case Finish => th.phase.Publishing? && th.queue == [] && th.todo != []
    case PublishNow(_) => th.phase.Idle?
  }

  /** What the acting thread becomes. */
  function After(th: Thread, a: Act): Thread {
    match a
    case Begin =>
      if th.todo == [] then th
      else th.(phase := if th.todo[0].Stores? then WantRead else WantWrite, plan := PlanOf(th.todo[0]))
    case TakeRead => th.(phase := Acquiring(0))
    case TakeStore => if th.phase.Acquiring? then th.(phase := Acquiring(th.phase.k + 1)) else th
    case Enter => th.(phase := InThunk)
    case Crash => th.(phase := Crashed)
    case Queue(e) => th.(queue := th.queue + [e], issued := th.issued + [e])
    case Leave => th.(phase := Releasing(|th.plan|))
    case DropStore => if th.phase.Releasing? && th.phase.k > 0 then th.(phase := Releasing(th.phase.k - 1)) else th
    case DropRead => th.(phase := Publishing)
    case Announce => th.(phase := Draining)
    case TakeWrite => th.(phase := AllThunk)
    case DropWrite => th.(phase := Publishing)
    case Deliver => if th.queue == [] then th else th.(queue := th.queue[1..])
    case Finish => if th.todo == [] then th else th.(phase := Idle, todo := th.todo[1..])
    case PublishNow(e) => th.(issued := th.issued + [e])
  }

  function Step(s: State, t: Tid, a: Act): State
    requires Can(s, t, a)
  {
    var th := s.threads[t];
    var s1 := s.(threads := s.threads[t := After(th, a)]);
    match a
    case TakeRead => s1.(readers := s.readers + {t})
    case TakeStore => s1.(held := s.held[th.plan[th.phase.k] := t])
    case DropStore => s1.(held := s.held - {th.plan[th.phase.k - 1]})
    case DropRead => s1.(readers := s.readers - {t})
    case Announce => s1.(writer := Some(t))
    case DropWrite => s1.(writer := None)
    case Deliver => s1.(delivered := s.delivered + [(t, th.queue[0])])
    case PublishNow(e) => s1.(delivered := s.delivered + [(t, e)])
    case _ => s1
  }

  // ----- the invariant -----

  /** How many of its planned stores a thread holds. */
  function Holds(th: Thread): nat {
    match th.phase
    case Acquiring(k) => k
    case InThunk => |th.plan|
    case Releasing(k) => k
    case _ => 0
  }

  predicate Reading(ph: Phase) {
    ph.Acquiring? || ph.InThunk? || ph.Releasing? || ph.Crashed?
  }

  predicate Writing(ph: Phase) {
    ph.Draining? || ph.AllThunk?
  }

  /** The events of one thread among those delivered. */
  function Sent(d: seq<(Tid, Event)>, t: Tid): seq<Event> {
    if d == [] then []
    else
      var rest := Sent(d[..|d| - 1], t);
      if d[|d| - 1].0 == t then rest + [d[|d| - 1].1] else rest
  }

  /** Past the first lock, all stores of the transaction exist; a crashed one names one that does not. */
  predicate NamesOk(stores: set<Name>, th: Thread) {
    match th.phase
    case Acquiring(k) => k > 0 ==> AllExist(stores, th.plan)
    case InThunk => AllExist(stores, th.plan)
    case Releasing(_) => AllExist(stores, th.plan)
    case Publishing => AllExist(stores, th.plan)
    case Crashed => !AllExist(stores, th.plan)
    case _ => true
  }

  predicate LocalOk(th: Thread) {
    && Holds(th) <= |th.plan|
    && (th.phase.Idle? || (th.todo != [] && th.plan == PlanOf(th.todo[0])))
    && (th.phase.WantRead? || Reading(th.phase) ==> th.todo[0].Stores?)
    && (th.phase.WantWrite? || Writing(th.phase) ==> th.todo[0].AllStores?)
    && (th.queue != [] ==> th.phase.InThunk? || th.phase.AllThunk? || th.phase.Releasing? || th.phase.Publishing?)
  }

  predicate Owns(s: State, t: Tid, i: nat)
    requires t < |s.threads| && i < |s.threads[t].plan|
  {
    var n := s.threads[t].plan[i];
    n in s.held && s.held[n] == t
  }

  predicate ThreadOk(s: State, t: Tid)
    requires t < |s.threads|
  {
    var th := s.threads[t];
    && LocalOk(th) && NamesOk(s.stores, th)
    && (t in s.readers <==> Reading(th.phase))
    && (s.writer == Some(t) <==> Writing(th.phase))
    && (th.phase.AllThunk? ==> s.readers == {})
    && (forall i :: 0 <= i < Holds(th) ==> Owns(s, t, i))
    && Sent(s.delivered, t) + th.queue == th.issued
  }

  /** Every locked store is locked by a thread that counts it among its own. */
  ghost predicate HeldOk(s: State, n: Name)
    requires n in s.held
  {
    && s.held[n] < |s.threads|
    && var th := s.threads[s.held[n]];
       exists i :: 0 <= i < Holds(th) && i < |th.plan| && th.plan[i] == n
  }

  ghost predicate Inv(s: State) {
    && (forall t :: 0 <= t < |s.threads| ==> ThreadOk(s, t))
    && (forall n :: n in s.held ==> HeldOk(s, n))
    && (forall t :: t in s.readers ==> t < |s.threads|)
    && (s.writer.Some? ==> s.writer.value < |s.threads|)
  }

  predicate Initial(s: State) {
    && (forall t :: 0 <= t < |s.threads| ==> s.threads[t].phase.Idle? && s.threads[t].plan == []
                                             && s.threads[t].queue == [] && s.threads[t].issued == [])
    && s.readers == {} && s.writer.None? && s.held == map[] && s.delivered == []
  }

  lemma InitialOk(s: State)
    requires Initial(s)
    ensures Inv(s)
  {
  }

  // ----- every step keeps it -----

  lemma SentAppend(d: seq<(Tid, Event)>, t: Tid, e: Event, u: Tid)
    ensures Sent(d + [(t, e)], u) == if u == t then Sent(d, u) + [e] else Sent(d, u)
  {
    assert (d + [(t, e)])[..|d|] == d;
  }

  /** Another thread's part of the invariant does not depend on what the acting thread does. */
  lemma OtherOk(s: State, t: Tid, a: Act, u: Tid)
    requires Inv(s) && Can(s, t, a) && u < |s.threads| && u != t
    ensures ThreadOk(Step(s, t, a), u)
  {
    var s' := Step(s, t, a);
    var th := s.threads[u];
    assert ThreadOk(s, u) && ThreadOk(s, t);
    assert s'.threads[u] == th;
    if a.Deliver? {
      SentAppend(s.delivered, t, s.threads[t].queue[0], u);
    } else if a.PublishNow? {
      SentAppend(s.delivered, t, a.e, u);
    }
    if a.DropStore? {
      assert Owns(s, t, s.threads[t].phase.k - 1);
    }
    forall i | 0 <= i < Holds(th) ensures Owns(s', u, i) {
      assert Owns(s, u, i);
    }
  }

  lemma SelfLocal(s: State, t: Tid, a: Act)
    requires t < |s.threads| && ThreadOk(s, t) && Can(s, t, a)
    ensures LocalOk(After(s.threads[t], a)) && NamesOk(s.stores, After(s.threads[t], a))
  {
  }

  lemma SelfOwns(s: State, t: Tid, a: Act, i: nat)
    requires t < |s.threads| && ThreadOk(s, t) && Can(s, t, a)
    requires i < Holds(After(s.threads[t], a)) && i < |After(s.threads[t], a).plan|
    ensures Owns(Step(s, t, a), t, i)
  {
    var th := s.threads[t];
    assert i < Holds(th) ==> Owns(s, t, i);
    if a.DropStore? {
      PlanDistinct(th, i, th.phase.k - 1);
    }
  }

  lemma PlanDistinct(th: Thread, i: nat, j: nat)
    requires LocalOk(th) && !th.phase.Idle? && i < j < |th.plan|
    ensures th.plan[i] > th.plan[j]
  {
    if th.todo[0].Stores? {
      PlanOk(th.todo[0].ents);
    }
  }

  lemma SelfEvents(s: State, t: Tid, a: Act)
    requires t < |s.threads| && ThreadOk(s, t) && Can(s, t, a)
    ensures var s' := Step(s, t, a); Sent(s'.delivered, t) + s'.threads[t].queue == s'.threads[t].issued
  {
    var th := s.threads[t];
    if a.Deliver? {
      SentAppend(s.delivered, t, th.queue[0], t);
      assert th.queue == [th.queue[0]] + th.queue[1..];
    } else if a.PublishNow? {
      SentAppend(s.delivered, t, a.e, t);
    }
  }

  lemma SelfOk(s: State, t: Tid, a: Act)
    requires Inv(s) && Can(s, t, a)
    ensures ThreadOk(Step(s, t, a), t)
  {
    var s' := Step(s, t, a);
    assert ThreadOk(s, t);
    SelfLocal(s, t, a);
    SelfEvents(s, t, a);
    forall i | 0 <= i < Holds(s'.threads[t]) ensures Owns(s', t, i) {
      SelfOwns(s, t, a, i);
    }
  }

  /** A thread keeps counting a store it holds until it drops that very store. */
  lemma StillCounts(s: State, t: Tid, a: Act, i: nat)
    requires t < |s.threads| && LocalOk(s.threads[t]) && NamesOk(s.stores, s.threads[t]) && Can(s, t, a)
    requires i < Holds(s.threads[t])
    requires a.DropStore? ==> i != s.threads[t].phase.k - 1
    ensures var th' := After(s.threads[t], a); th'.plan == s.threads[t].plan && i < Holds(th')
  {
  }

  lemma HeldStaysOk(s: State, t: Tid, a: Act, n: Name)
    requires Inv(s) && Can(s, t, a) && n in Step(s, t, a).held
    ensures HeldOk(Step(s, t, a), n)
  {
    var s' := Step(s, t, a);
    var th := s.threads[t];
    if a.TakeStore? && n == th.plan[th.phase.k] {
      assert s'.threads[t].plan[th.phase.k] == n;
    } else {
      assert HeldOk(s, n);
      var u := s.held[n];
      assert s'.held[n] == u;
      var i :| 0 <= i < Holds(s.threads[u]) && i < |s.threads[u].plan| && s.threads[u].plan[i] == n;
      if u == t {
        assert ThreadOk(s, t);
        StillCounts(s, t, a, i);
      }
      assert s'.threads[u].plan[i] == n && i < Holds(s'.threads[u]);
    }
  }

  lemma StepKeeps(s: State, t: Tid, a: Act)
    requires Inv(s) && Can(s, t, a)
    ensures Inv(Step(s, t, a))
  {
    var s' := Step(s, t, a);
    forall u | 0 <= u < |s'.threads| ensures ThreadOk(s', u) {
      if u == t {
        SelfOk(s, t, a);
      } else {
        OtherOk(s, t, a, u);
      }
    }
    forall n | n in s'.held ensures HeldOk(s', n) {
      HeldStaysOk(s, t, a, n);
    }
  }

  // ----- runs -----

  predicate LegalRun(s: State, run: seq<(Tid, Act)>)
    decreases run
  {
    run == [] || (Can(s, run[0].0, run[0].1) && LegalRun(Step(s, run[0].0, run[0].1), run[1..]))
  }

  function Exec(s: State, run: seq<(Tid, Act)>): State
    requires LegalRun(s, run)
    decreases run
  {
    if run == [] then s else Exec(Step(s, run[0].0, run[0].1), run[1..])
  }

  lemma {:induction false} RunKeeps(s: State, run: seq<(Tid, Act)>)
    requires Inv(s) && LegalRun(s, run)
    ensures Inv(Exec(s, run))
    decreases run
  {
    if run != [] {
      StepKeeps(s, run[0].0, run[0].1);
      RunKeeps(Step(s, run[0].0, run[0].1), run[1..]);
    }
  }

  // ----- no deadlock -----

  predicate Unfinished(th: Thread) {
    !th.phase.Crashed? && (th.todo != [] || !th.phase.Idle?)
  }

  /** Steps that bring a thread closer to its end; publishing an event does not. */
  predicate Advances(a: Act) {
    !a.Queue? && !a.PublishNow?
  }

  ghost predicate CanStep(s: State, t: Tid) {
    exists a :: Advances(a) && Can(s, t, a)
  }

  function Cost(x: Txn): nat {
    2 * |PlanOf(x)| + 7
  }

  function CostOf(todo: seq<Txn>): nat {
    if todo == [] then 0 else Cost(todo[0]) + CostOf(todo[1..])
  }

  function PhaseCost(ph: Phase, n: nat): int {
    match ph
    case Idle => 0
    case WantRead => 2 * n + 6
    case Acquiring(k) => 2 * n - k + 5
    case InThunk => n + 4
    case Releasing(k) => k + 3
    case WantWrite => 6
    case Draining => 5
    case AllThunk => 4
    case Publishing => 2
    case Crashed => 0
  }

  /** A bound on the steps that a thread still has to take, events already queued included. */
  function Remaining(th: Thread): int {
    |th.queue| +
    if th.phase.Idle? || th.todo == [] then CostOf(th.todo)
    else PhaseCost(th.phase, |th.plan|) + CostOf(th.todo[1..])
  }

  /** Every advancing step brings the acting thread closer to its end and delays no other. */
  lemma AdvanceDecreases(s: State, t: Tid, a: Act, u: Tid)
    requires Inv(s) && Can(s, t, a) && Advances(a) && u < |s.threads|
    ensures var s' := Step(s, t, a);
            && 0 <= Remaining(s'.threads[t]) < Remaining(s.threads[t])
            && (u != t ==> Remaining(s'.threads[u]) == Remaining(s.threads[u]))
  {
    assert ThreadOk(s, t);
  }

  /** A phase in which a thread waits for nobody. */
  predicate Free(s: State, th: Thread) {
    !(th.phase.WantRead? || th.phase.WantWrite? || th.phase.Draining? || th.phase.Crashed?
      || (th.phase.Acquiring? && th.phase.k < |th.plan| && AllExist(s.stores, th.plan)))
  }

  lemma FreeCanStep(s: State, t: Tid)
    requires Inv(s) && t < |s.threads| && Unfinished(s.threads[t]) && Free(s, s.threads[t])
    ensures CanStep(s, t)
  {
    var th := s.threads[t];
    assert ThreadOk(s, t);
    var a := match th.phase
             case Idle => Begin
             case Acquiring(_) => if AllExist(s.stores, th.plan) then Enter else Crash
             case InThunk => Leave
             case Releasing(k) => if k > 0 then DropStore else DropRead
             case AllThunk => DropWrite
             case Publishing => if th.queue != [] then Deliver else Finish
             case _ => Begin;
    assert Advances(a) && Can(s, t, a);
  }

  /**
   Follow the holders: a thread waiting for a store leads to the thread that holds it, which
   is past its waiting or waits for a store of smaller rank.
   */
  lemma {:induction false} AcquirerLeads(s: State, t: Tid) returns (u: Tid)
    requires Inv(s) && t < |s.threads|
    requires s.threads[t].phase.Acquiring? && s.threads[t].phase.k < |s.threads[t].plan|
    requires AllExist(s.stores, s.threads[t].plan)
    ensures u < |s.threads| && CanStep(s, u)
    decreases s.threads[t].plan[s.threads[t].phase.k]
  {
    var n := s.threads[t].plan[s.threads[t].phase.k];
    if n !in s.held {
      assert Advances(TakeStore) && Can(s, t, TakeStore);
      u := t;
    } else {
      assert HeldOk(s, n);
      var h := s.held[n];
      var th := s.threads[h];
      assert ThreadOk(s, h);
      if Free(s, th) {
        FreeCanStep(s, h);
        u := h;
      } else {
        var i :| 0 <= i < Holds(th) && i < |th.plan| && th.plan[i] == n;
        PlanDistinct(th, i, th.phase.k);
        u := AcquirerLeads(s, h);
      }
    }
  }

  /** A writer waits for a reader that has crashed. */
  predicate Blocked(s: State, r: Tid, w: Tid) {
    && r < |s.threads| && s.threads[r].phase.Crashed?
    && w < |s.threads| && s.threads[w].phase.Draining?
  }

  /** As long as some thread has not finished, some thread can take a step, or a crashed one blocks a writer. */
  lemma SomeoneCanStep(s: State, t: Tid)
    requires Inv(s) && t < |s.threads| && Unfinished(s.threads[t])
    ensures (exists u :: CanStep(s, u)) || (exists r, w :: Blocked(s, r, w))
  {
    var th := s.threads[t];
    assert ThreadOk(s, t);
    if Free(s, th) {
      FreeCanStep(s, t);
    } else if th.phase.Acquiring? {
      var u := AcquirerLeads(s, t);
    } else if r :| r in s.readers && !s.threads[r].phase.Crashed? {
      var u := ReaderLeads(s, r);
    } else if s.writer.Some? {
      WriterLeads(s, s.writer.value);
    } else {
      assert if th.phase.WantRead? then Can(s, t, TakeRead) && Advances(TakeRead)
             else Can(s, t, Announce) && Advances(Announce);
      assert CanStep(s, t);
    }
  }

  lemma ReaderLeads(s: State, r: Tid) returns (u: Tid)
    requires Inv(s) && r in s.readers && !s.threads[r].phase.Crashed?
    ensures u < |s.threads| && CanStep(s, u)
  {
    assert ThreadOk(s, r);
    if Free(s, s.threads[r]) {
      FreeCanStep(s, r);
      u := r;
    } else {
      u := AcquirerLeads(s, r);
    }
  }

  lemma WriterLeads(s: State, w: Tid)
    requires Inv(s) && s.writer == Some(w) && forall r :: r in s.readers ==> s.threads[r].phase.Crashed?
    ensures CanStep(s, w) || exists r :: Blocked(s, r, w)
  {
    assert ThreadOk(s, w);
    if !s.threads[w].phase.Draining? {
      FreeCanStep(s, w);
    } else if r :| r in s.readers {
      assert Blocked(s, r, w);
    } else {
      assert Advances(TakeWrite) && Can(s, w, TakeWrite);
    }
  }

  // ----- isolation and events -----

  /** A thread has the store n locked. */
  ghost predicate HasLock(s: State, t: Tid, n: Name) {
    t < |s.threads| && exists i :: 0 <= i < Holds(s.threads[t]) && i < |s.threads[t].plan| && s.threads[t].plan[i] == n
  }

  /**
   Isolation, in every state a run can reach: while the thunk of one thread runs, no other
   thread has a store it named, and while the thunk of an all-stores transaction runs, nobody
   has any.
   */
  lemma Isolation(s0: State, run: seq<(Tid, Act)>, t: Tid, u: Tid, n: Name)
    requires Initial(s0) && LegalRun(s0, run)
    requires t < |Exec(s0, run).threads| && u != t && HasLock(Exec(s0, run), u, n)
    ensures var th := Exec(s0, run).threads[t];
            && !th.phase.AllThunk?
            && (th.phase.InThunk? ==> th.todo != [] && th.todo[0].Stores? && n !in th.todo[0].ents)
  {
    InitialOk(s0);
    RunKeeps(s0, run);
    var s := Exec(s0, run);
    var th := s.threads[t];
    assert ThreadOk(s, t) && ThreadOk(s, u);
    var i :| 0 <= i < Holds(s.threads[u]) && i < |s.threads[u].plan| && s.threads[u].plan[i] == n;
    assert Owns(s, u, i);
    if th.phase.InThunk? {
      PlanOk(th.todo[0].ents);
      forall k | 0 <= k < |th.plan| ensures th.plan[k] != n {
        assert Owns(s, t, k);
      }
    }
  }

  /** And the thread whose thunk runs has every store it named. */
  lemma ThunkHolds(s0: State, run: seq<(Tid, Act)>, t: Tid, n: Name)
    requires Initial(s0) && LegalRun(s0, run)
    requires var s := Exec(s0, run);
             t < |s.threads| && s.threads[t].phase.InThunk? && s.threads[t].todo != []
             && s.threads[t].todo[0].Stores? && n in s.threads[t].todo[0].ents
    ensures var s := Exec(s0, run); HasLock(s, t, n) && n in s.held && s.held[n] == t && n in s.stores
  {
    InitialOk(s0);
    RunKeeps(s0, run);
    var s := Exec(s0, run);
    var th := s.threads[t];
    assert ThreadOk(s, t);
    PlanOk(th.todo[0].ents);
    var i :| 0 <= i < |th.plan| && th.plan[i] == n;
    assert Owns(s, t, i);
  }

  /** An event is only delivered by a thread that has no lock left. */
  lemma DeliveredUnlocked(s: State, t: Tid)
    requires Inv(s) && Can(s, t, Deliver)
    ensures t !in s.readers && s.writer != Some(t)
    ensures forall n :: n in s.held ==> s.held[n] != t
  {
    assert ThreadOk(s, t);
    forall n | n in s.held ensures s.held[n] != t {
      assert HeldOk(s, n);
    }
  }

  /** The events that a thread publishes in a run, inside its transactions or between them. */
  function Published(run: seq<(Tid, Act)>, t: Tid): seq<Event> {
    if run == [] then []
    else
      (if run[0].0 == t && (run[0].1.Queue? || run[0].1.PublishNow?) then [run[0].1.e] else []) + Published(run[1..], t)
  }

  lemma {:induction false} IssuedIsPublished(s: State, run: seq<(Tid, Act)>, t: Tid)
    requires LegalRun(s, run) && t < |s.threads|
    ensures |Exec(s, run).threads| == |s.threads|
    ensures Exec(s, run).threads[t].issued == s.threads[t].issued + Published(run, t)
    decreases run
  {
    if run != [] {
      var s' := Step(s, run[0].0, run[0].1);
      IssuedIsPublished(s', run[1..], t);
      var now := if run[0].0 == t && (run[0].1.Queue? || run[0].1.PublishNow?) then [run[0].1.e] else [];
      assert s'.threads[t].issued == s.threads[t].issued + now;
      assert s.threads[t].issued + now + Published(run[1..], t) == s.threads[t].issued + (now + Published(run[1..], t));
    }
  }

  /**
   Exactly once and in order: what a thread has had delivered is a prefix of what it published,
   and all of it whenever it is between transactions.
   */
  lemma EventsInOrder(s0: State, run: seq<(Tid, Act)>, t: Tid)
    requires Initial(s0) && LegalRun(s0, run) && t < |s0.threads|
    ensures var s := Exec(s0, run);
            && |s.threads| == |s0.threads|
            && Sent(s.delivered, t) <= Published(run, t)
            && (s.threads[t].phase.Idle? ==> Sent(s.delivered, t) == Published(run, t))
  {
    InitialOk(s0);
    RunKeeps(s0, run);
    IssuedIsPublished(s0, run, t);
    var s := Exec(s0, run);
    assert s0.threads[t].issued == [];
    assert s.threads[t].issued == Published(run, t);
    assert ThreadOk(s, t);
  }

  predicate InsideThunk(s: State, t: Tid) {
    t < |s.threads| && (s.threads[t].phase.InThunk? || s.threads[t].phase.AllThunk?)
  }

  /** How often a thread begins a thunk in a run. */
  function Thunks(s: State, run: seq<(Tid, Act)>, t: Tid): nat
    requires LegalRun(s, run)
    decreases run
  {
    if run == [] then 0
    else
      var s' := Step(s, run[0].0, run[0].1);
      (if InsideThunk(s', t) && !InsideThunk(s, t) then 1 else 0) + Thunks(s', run[1..], t)
  }

  /** The thunk of the transaction at hand has begun. */
  function Begun(th: Thread): nat {
    if th.phase.InThunk? || th.phase.Releasing? || th.phase.AllThunk? || th.phase.Publishing? then 1 else 0
  }

  lemma {:induction false} ThunksCount(s: State, run: seq<(Tid, Act)>, t: Tid)
    requires LegalRun(s, run) && t < |s.threads|
    ensures |Exec(s, run).threads| == |s.threads|
    ensures Begun(s.threads[t]) + Thunks(s, run, t) + |Exec(s, run).threads[t].todo|
         == |s.threads[t].todo| + Begun(Exec(s, run).threads[t])
    decreases run
  {
    if run != [] {
      ThunksCount(Step(s, run[0].0, run[0].1), run[1..], t);
    }
  }

  /** Every transaction runs its thunk exactly once: those done, and the one at hand if it has begun. */
  lemma OneThunkEach(s0: State, run: seq<(Tid, Act)>, t: Tid)
    requires Initial(s0) && LegalRun(s0, run) && t < |s0.threads|
    ensures var s := Exec(s0, run);
            |s.threads| == |s0.threads| && Thunks(s0, run, t) == |s0.threads[t].todo| - |s.threads[t].todo| + Begun(s.threads[t])
  {
    assert s0.threads[t].phase.Idle?;
    ThunksCount(s0, run, t);
  }
}
