/**
 The disturbances of DhcpRuns.InterferesIff are not only possible in some table: they come about
 from an empty one, by ordinary calls.
 */
module DhcpReach {
  import opened DhcpModel
  import opened DhcpRuns
  import opened Wrappers

  function Empty(s: Subnet): Dhcp {
    Dhcp(map[], map[], [s], map[])
  }

  ghost predicate RunTo(s: Subnet, st: Dhcp, states: seq<Dhcp>, calls: seq<Call>) {
    && Run(states, calls) && states[0] == Empty(s) && states[|states| - 1] == st
    && forall i :: 0 <= i < |calls| ==> calls[i].now == 0
  }

  /** A table that calls lead to from the empty one, all of them made at one moment. */
  ghost predicate Reached(s: Subnet, st: Dhcp) {
    exists states, calls :: RunTo(s, st, states, calls)
  }

  lemma EmptyReached(s: Subnet)
    ensures Reached(s, Empty(s))
  {
    assert RunTo(s, Empty(s), [Empty(s)], []);
  }

  lemma {:induction false} RunAppend(states: seq<Dhcp>, calls: seq<Call>, c: Call, st': Dhcp)
    requires Run(states, calls) && Step(states[|states| - 1], c, st') && c.now == 0
    requires forall i :: 0 <= i < |calls| ==> calls[i].now == 0
    ensures Run(states + [st'], calls + [c])
    decreases calls
  {
    if calls == [] {
      assert Run([st'], []);
      assert (states + [st'])[1..] == [st'] && ([] + [c])[1..] == [];
    } else {
      var rest, more := states[1..], calls[1..];
      assert rest[|rest| - 1] == states[|states| - 1];
      RunAppend(rest, more, c, st');
      assert (states + [st'])[1..] == rest + [st'] && (calls + [c])[1..] == more + [c];
    }
  }

  lemma ReachedNext(s: Subnet, st: Dhcp, c: Call, st': Dhcp)
    requires Reached(s, st) && Step(st, c, st') && c.now == 0
    ensures Reached(s, st')
  {
    var states, calls :| RunTo(s, st, states, calls);
    RunAppend(states, calls, c, st');
    assert RunTo(s, st', states + [st'], calls + [c]);
  }

  /** A call through the subnet, served by a pick. */
  lemma ReachedPick(s: Subnet, via: Addr, owner: Owner, a: Addr, st: Dhcp, req: Option<Addr>, cur': Option<Addr>)
    requires Reached(s, st) && s.Contains(via) && GlobalUnicast(via) && Serves(s)
    requires st.subnets == [s] && st.reservations == map[] && OwnLeases(st, s, owner, req) == {}
    requires NextOk(s, s.pickers, UsedAddrs(st, s), owner.token, req, 0, CursorOf(st.cursors, s), Take(a), cur')
    requires cur'.None? ==> s.name !in st.cursors
    ensures Reached(s, Picked(st, s, a, PickedLease(s, owner.token, Some(via), 0), cur'))
  {
    PickServes(s, via, owner, a, st, req, 0, cur');
    var l := PickedLease(s, owner.token, Some(via), 0);
    ReachedNext(s, st, Discover(owner, req, [via], 0, Offer(a, l)), Picked(st, s, a, l, cur'));
  }

  // ----- filling the range -----

  /** Different tokens for different callers. */
  function Token(t0: string, k: nat): (t: string)
    ensures |t| == |t0| + k
  {
    if k == 0 then t0 else Token(t0, k - 1) + "x"
  }

  predicate Among(s: Subnet, n: nat, x: Addr) {
    s.activeStart <= x < s.activeStart + n
  }

  /** The table with the first n addresses of the range leased one by one. */
  function Filled(s: Subnet, via: Addr, t0: string, n: nat): (st: Dhcp)
    requires s.activeStart + n <= 0x1_0000_0000
    ensures forall x :: x in st.leases ==> Among(s, n, x)
    ensures forall x: Addr :: Among(s, n, x) ==>
              x in st.leases && st.leases[x] == PickedLease(s, Token(t0, x - s.activeStart), Some(via), 0)
    ensures st.reservations == map[] && st.subnets == [s]
    ensures CursorOf(st.cursors, s) == if n == 0 then None else Some(s.activeStart + n - 1)
  {
    if n == 0 then Empty(s)
    else
      var a := s.activeStart + n - 1;
      Picked(Filled(s, via, t0, n - 1), s, a, PickedLease(s, Token(t0, n - 1), Some(via), 0), Some(a))
  }

  /** All but the last of them are inside the subnet, so that they count as used. */
  predicate CanFill(s: Subnet, n: nat) {
    (n > 1 ==> s.activeStart + n - 1 <= s.activeEnd && s.first <= s.activeStart && s.activeStart + n - 2 <= s.last)
  }

  lemma FirstUnused(s: Subnet, used: Used, cur: Option<Addr>, n: nat, a: Addr)
    requires CanFill(s, n + 1) && a == s.activeStart + n && a !in used
    requires forall x: Addr :: Among(s, n, x) ==> x in used
    requires cur == if n == 0 then None else Some(s.activeStart + n - 1)
    ensures CursorOk(s, cur) && NextUnused(s, used, StartCursor(s, cur), a)
  {
    assert n > 0 ==> Among(s, n, a - 1);
  }

  lemma FilledUses(s: Subnet, via: Addr, t0: string, n: nat, a: Addr)
    requires CanFill(s, n + 1) && a == s.activeStart + n
    ensures var used := UsedAddrs(Filled(s, via, t0, n), s);
            var cur := CursorOf(Filled(s, via, t0, n).cursors, s);
            CursorOk(s, cur) && NoneExpired(used, 0) && NextUnused(s, used, StartCursor(s, cur), a)
  {
    var st := Filled(s, via, t0, n);
    var used := UsedAddrs(st, s);
    assert forall x: Addr :: Among(s, n, x) ==> x in used;
    FirstUnused(s, used, CursorOf(st.cursors, s), n, a);
  }

  lemma NewToken(s: Subnet, via: Addr, t0: string, n: nat)
    requires s.activeStart + n <= 0x1_0000_0000
    ensures OwnLeases(Filled(s, via, t0, n), s, Owner(s.strategy, Token(t0, n)), None) == {}
  {
    var st := Filled(s, via, t0, n);
    forall x | x in st.leases ensures st.leases[x].owner != Owner(s.strategy, Token(t0, n)) {
      assert |st.leases[x].owner.token| < |Token(t0, n)|;
    }
  }

  lemma FillNext(s: Subnet, via: Addr, t0: string, n: nat, a: Addr)
    requires s.Contains(via) && GlobalUnicast(via) && Serves(s) && Before(s.pickers, PickNextFree)
    requires CanFill(s, n + 1) && a == s.activeStart + n && Reached(s, Filled(s, via, t0, n))
    ensures Reached(s, Filled(s, via, t0, n + 1))
  {
    var st := Filled(s, via, t0, n);
    var owner := Owner(s.strategy, Token(t0, n));
    FilledUses(s, via, t0, n, a);
    FreeTakes(s, s.pickers, UsedAddrs(st, s), owner.token, a, 0, CursorOf(st.cursors, s));
    NewToken(s, via, t0, n);
    ReachedPick(s, via, owner, a, st, None, Some(a));
  }

  lemma {:induction false} FillTo(s: Subnet, via: Addr, t0: string, n: nat)
    requires s.Contains(via) && GlobalUnicast(via) && Serves(s) && Before(s.pickers, PickNextFree)
    requires CanFill(s, n) && s.activeStart + n <= 0x1_0000_0000
    ensures Reached(s, Filled(s, via, t0, n))
  {
    if n == 0 {
      EmptyReached(s);
      assert Filled(s, via, t0, 0) == Empty(s);
    } else {
      FillTo(s, via, t0, n - 1);
      FillNext(s, via, t0, n - 1, s.activeStart + n - 1);
    }
  }

  // ----- reaching a disturbance -----

  /** Calls from an empty table that end in one that changes somebody else's unexpired lease. */
  ghost predicate ReachedInterference(s: Subnet, via: Addr, owner: Owner) {
    exists st, st', req, now, offer, a, holder ::
      Reached(s, st) && now >= 0 && Interferes(s, via, owner, a, holder, st, st', req, now, offer)
  }

  /** The last call of such a run. */
  lemma LastCall(s: Subnet, via: Addr, owner: Owner, a: Addr, st: Dhcp, req: Option<Addr>, cur': Option<Addr>, t: string)
    requires Reached(s, st) && s.Contains(via) && GlobalUnicast(via) && Serves(s) && StateOk(st)
    requires st.subnets == [s] && st.reservations == map[] && OwnLeases(st, s, owner, req) == {}
    requires a in st.leases && st.leases[a] == PickedLease(s, t, Some(via), 0) && Owner(s.strategy, t) != owner
    requires NextOk(s, s.pickers, UsedAddrs(st, s), owner.token, req, 1, CursorOf(st.cursors, s), Take(a), cur')
    requires cur'.None? ==> s.name !in st.cursors
    ensures ReachedInterference(s, via, owner)
  {
    PickServes(s, via, owner, a, st, req, 1, cur');
    var l := PickedLease(s, owner.token, Some(via), 1);
    assert Interferes(s, via, owner, a, Owner(s.strategy, t), st, Picked(st, s, a, l, cur'), req, 1, Offer(a, l));
  }

  lemma StrangeTokens(s: Subnet, via: Addr, owner: Owner, n: nat)
    requires s.activeStart + n <= 0x1_0000_0000
    ensures OwnLeases(Filled(s, via, owner.token + "x", n), s, owner, None) == {}
  {
    var st := Filled(s, via, owner.token + "x", n);
    forall x | x in st.leases ensures st.leases[x].owner != owner {
      assert |st.leases[x].owner.token| > |owner.token|;
    }
  }

  /** What the next caller finds when the last of the filled addresses is outside the subnet. */
  lemma StrayIsFree(s: Subnet, via: Addr, t0: string, n: nat, a: Addr)
    requires n > 0 && CanFill(s, n) && a == s.activeStart + n - 1 && !s.Contains(a)
    ensures var st := Filled(s, via, t0, n);
            && a in st.leases && st.leases[a] == PickedLease(s, Token(t0, n - 1), Some(via), 0)
            && CursorOf(st.cursors, s) == Some(a) && StateOk(st)
            && NoneExpired(UsedAddrs(st, s), 1) && NextUnused(s, UsedAddrs(st, s), a, a)
  {
    assert Among(s, n, a);
  }

  /** The next-free picker comes to an address outside, and finds it free a second time. */
  lemma StrayByCursor(s: Subnet, via: Addr, owner: Owner)
    requires s.Contains(via) && GlobalUnicast(via) && Serves(s)
    requires !RangeInside(s) && Before(s.pickers, PickNextFree)
    ensures ReachedInterference(s, via, owner)
  {
    var n := if s.Contains(s.activeStart) then s.last - s.activeStart + 2 else 1;
    var a: Addr := s.activeStart + n - 1;
    var t0 := owner.token + "x";
    FillTo(s, via, t0, n);
    StrayIsFree(s, via, t0, n, a);
    StrangeTokens(s, via, owner, n);
    StrayAgain(s, via, owner, Filled(s, via, t0, n), a, Token(t0, n - 1));
  }

  lemma StrayAgain(s: Subnet, via: Addr, owner: Owner, st: Dhcp, a: Addr, t: string)
    requires Reached(s, st) && s.Contains(via) && GlobalUnicast(via) && Serves(s) && StateOk(st)
    requires st.subnets == [s] && st.reservations == map[] && OwnLeases(st, s, owner, None) == {}
    requires a in st.leases && st.leases[a] == PickedLease(s, t, Some(via), 0) && |t| > |owner.token|
    requires CursorOf(st.cursors, s) == Some(a) && Before(s.pickers, PickNextFree)
    requires NoneExpired(UsedAddrs(st, s), 1) && NextUnused(s, UsedAddrs(st, s), a, a)
    ensures ReachedInterference(s, via, owner)
  {
    assert st.subnets[0] == s;
    FreeTakes(s, s.pickers, UsedAddrs(st, s), owner.token, a, 1, Some(a));
    LastCall(s, via, owner, a, st, None, Some(a), t);
  }

  /** A hint comes before none and before the next-free picker. */
  predicate HintFirst(ps: seq<Picker>) {
    ps != [] && (ps[0] == PickHint || (ps[0] == PickMostExpired && HintFirst(ps[1..])))
  }

  lemma {:induction false} HintOrFree(ps: seq<Picker>)
    requires Before(ps, PickHint)
    ensures HintFirst(ps) || Before(ps, PickNextFree)
  {
    if ps[0] == PickMostExpired {
      HintOrFree(ps[1..]);
    }
  }

  lemma {:induction false} HintDirect(s: Subnet, ps: seq<Picker>, used: Used, token: string, a: Addr, now: int)
    requires HintFirst(ps) && Hint(s, used, token, Some(a), now) == Take(a) && NoneExpired(used, now)
    ensures NextOk(s, ps, used, token, Some(a), now, None, Take(a), None)
  {
    if ps[0] != PickHint {
      HintDirect(s, ps[1..], used, token, a, now);
    }
  }

  /** The first caller to ask for an address by hint is given it. */
  lemma OnceByHint(s: Subnet, via: Addr, a: Addr, t: string) returns (st: Dhcp)
    requires s.Contains(via) && GlobalUnicast(via) && Serves(s) && HintFirst(s.pickers) && s.InActiveRange(a)
    ensures Reached(s, st) && st == Dhcp(map[a := PickedLease(s, t, Some(via), 0)], map[], [s], map[])
  {
    EmptyReached(s);
    HintDirect(s, s.pickers, UsedAddrs(Empty(s), s), t, a, 0);
    assert OwnLeases(Empty(s), s, Owner(s.strategy, t), Some(a)) == {};
    ReachedPick(s, via, Owner(s.strategy, t), a, Empty(s), Some(a), None);
    st := Picked(Empty(s), s, a, PickedLease(s, t, Some(via), 0), None);
  }

  lemma OthersLease(st: Dhcp, s: Subnet, owner: Owner, a: Addr)
    requires st.leases.Keys == {a} && st.leases[a].owner != owner
    ensures OwnLeases(st, s, owner, Some(a)) == {}
  {
  }

  /** And so is the second, who does not own what the first was given. */
  lemma SecondByHint(s: Subnet, via: Addr, owner: Owner, a: Addr, t: string, st: Dhcp)
    requires s.Contains(via) && GlobalUnicast(via) && Serves(s) && HintFirst(s.pickers) && s.InActiveRange(a)
    requires Owner(s.strategy, t) != owner && (s.Contains(a) ==> t == owner.token)
    requires Reached(s, st) && st == Dhcp(map[a := PickedLease(s, t, Some(via), 0)], map[], [s], map[])
    ensures ReachedInterference(s, via, owner)
  {
    HintDirect(s, s.pickers, UsedAddrs(st, s), owner.token, a, 1);
    OthersLease(st, s, owner, a);
    LastCall(s, via, owner, a, st, Some(a), None, t);
  }

  lemma TwiceByHint(s: Subnet, via: Addr, owner: Owner, a: Addr, t: string)
    requires s.Contains(via) && GlobalUnicast(via) && Serves(s) && HintFirst(s.pickers) && s.InActiveRange(a)
    requires Owner(s.strategy, t) != owner && (s.Contains(a) ==> t == owner.token)
    ensures ReachedInterference(s, via, owner)
  {
    var st := OnceByHint(s, via, a, t);
    SecondByHint(s, via, owner, a, t, st);
  }

  /** What the next caller finds when the whole range is filled. */
  lemma FullIsUsed(s: Subnet, via: Addr, t0: string, n: nat)
    requires RangeInside(s) && s.activeStart <= s.activeEnd && n == s.activeEnd - s.activeStart + 1
    ensures var st := Filled(s, via, t0, n);
            && s.activeStart in st.leases && st.leases[s.activeStart] == PickedLease(s, t0, Some(via), 0)
            && StateOk(st) && s.name in st.cursors && NoneExpired(UsedAddrs(st, s), 1)
            && (forall x: Addr :: Looked(s, x) ==> x in UsedAddrs(st, s))
            && UsedAddrs(st, s)[s.activeStart] == Leased(st.leases[s.activeStart])
  {
    var st := Filled(s, via, t0, n);
    assert forall x: Addr :: Looked(s, x) ==> Among(s, n, x) && s.Contains(x);
    assert Looked(s, s.activeStart) && Looked(s, s.activeEnd);
    assert CursorOf(st.cursors, s) == Some(s.activeEnd);
  }

  lemma SameStrategyOnly(s: Subnet, via: Addr, t0: string, n: nat, owner: Owner, req: Option<Addr>)
    requires s.strategy != owner.strategy && s.activeStart + n <= 0x1_0000_0000
    ensures OwnLeases(Filled(s, via, t0, n), s, owner, req) == {}
  {
  }

  /** Once the range is full, the hint behind the next-free picker is asked. */
  lemma HintWhenFull(s: Subnet, via: Addr, owner: Owner)
    requires s.Contains(via) && GlobalUnicast(via) && Serves(s) && RangeInside(s) && s.activeStart <= s.activeEnd
    requires Before(s.pickers, PickHint) && Before(s.pickers, PickNextFree) && s.strategy != owner.strategy
    ensures ReachedInterference(s, via, owner)
  {
    var n := s.activeEnd - s.activeStart + 1;
    FillTo(s, via, owner.token, n);
    FullIsUsed(s, via, owner.token, n);
    SameStrategyOnly(s, via, owner.token, n, owner, Some(s.activeStart));
    HintAgain(s, via, owner, Filled(s, via, owner.token, n), s.activeStart);
  }

  lemma HintAgain(s: Subnet, via: Addr, owner: Owner, st: Dhcp, a: Addr)
    requires Reached(s, st) && s.Contains(via) && GlobalUnicast(via) && Serves(s) && StateOk(st) && RangeInside(s)
    requires st.subnets == [s] && st.reservations == map[] && OwnLeases(st, s, owner, Some(a)) == {}
    requires a in st.leases && st.leases[a] == PickedLease(s, owner.token, Some(via), 0) && s.strategy != owner.strategy
    requires s.InActiveRange(a) && s.name in st.cursors && Before(s.pickers, PickHint)
    requires NoneExpired(UsedAddrs(st, s), 1) && forall x: Addr :: Looked(s, x) ==> x in UsedAddrs(st, s)
    requires a in UsedAddrs(st, s) && UsedAddrs(st, s)[a] == Leased(st.leases[a])
    ensures ReachedInterference(s, via, owner)
  {
    assert st.subnets[0] == s;
    ReachesBefore(s, s.pickers, PickHint);
    var cur' := HintTakes(s, s.pickers, UsedAddrs(st, s), owner.token, a, 1, CursorOf(st.cursors, s));
    LastCall(s, via, owner, a, st, Some(a), cur', owner.token);
  }

  lemma DisturbsReached(s: Subnet, via: Addr, owner: Owner)
    requires s.Contains(via) && GlobalUnicast(via) && Disturbs(s, owner)
    ensures ReachedInterference(s, via, owner)
  {
    if !RangeInside(s) && Before(s.pickers, PickNextFree) {
      StrayByCursor(s, via, owner);
    } else {
      HintOrFree(s.pickers);
      if !RangeInside(s) {
        var a := if s.Contains(s.activeStart) then s.activeEnd else s.activeStart;
        assert |owner.token + "x"| != |owner.token|;
        TwiceByHint(s, via, owner, a, owner.token + "x");
      } else if HintFirst(s.pickers) {
        TwiceByHint(s, via, owner, s.activeStart, owner.token);
      } else {
        HintWhenFull(s, via, owner);
      }
    }
  }

  /**
   For every subnet, its pickers in any order, and every caller: calls from an empty table can end
   in one of this caller's that changes somebody else's unexpired lease just when `Disturbs` says so.
   */
  lemma ReachedIff(s: Subnet, via: Addr, owner: Owner)
    requires s.Contains(via) && GlobalUnicast(via)
    ensures ReachedInterference(s, via, owner) <==> Disturbs(s, owner)
  {
    InterferesIff(s, via, owner);
    if Disturbs(s, owner) {
      DisturbsReached(s, via, owner);
    }
  }
}
