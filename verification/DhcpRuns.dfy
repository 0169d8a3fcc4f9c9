/**
 What the allocator promises its clients, for single calls and over whole runs of
 DHCPDISCOVER and DHCPREQUEST handling.
 */
module DhcpRuns {
  import opened DhcpModel
  import opened Maps
  import opened Wrappers

  // ----- what the pickers can reach -----

  /** The addresses that the next-free picker looks at: the active range, and its start in any case. */
  predicate Looked(s: Subnet, a: Addr) {
    s.activeStart <= a && (a <= s.activeEnd || a == s.activeStart)
  }

  /** All of them lie inside the subnet. */
  predicate RangeInside(s: Subnet) {
    s.first <= s.activeStart <= s.last && s.activeEnd <= s.last
  }

  /** A picker comes up before the list says to pick none. */
  predicate Before(ps: seq<Picker>, p: Picker) {
    ps != [] && (ps[0] == p || (ps[0] != PickNone && Before(ps[1..], p)))
  }

  /** A picker can be asked: addresses outside the subnet never count as used, so next-free never gives up on them. */
  predicate Reaches(s: Subnet, ps: seq<Picker>, p: Picker) {
    ps != [] &&
    (ps[0] == p ||
     (ps[0] != PickNone && (ps[0] == PickNextFree ==> RangeInside(s)) && Reaches(s, ps[1..], p)))
  }

  predicate HintGives(s: Subnet, ps: seq<Picker>, a: Addr) {
    Reaches(s, ps, PickHint) && s.InActiveRange(a)
  }

  predicate FreeGives(s: Subnet, ps: seq<Picker>, a: Addr) {
    Reaches(s, ps, PickNextFree) && Looked(s, a)
  }

  predicate CursorOk(s: Subnet, cur: Option<Addr>) {
    cur.Some? ==> Looked(s, cur.value)
  }

  /** Subnets have distinct names, and every cursor is where its subnet's picker can have left it. */
  ghost predicate StateOk(st: Dhcp) {
    && (forall i, j :: 0 <= i < j < |st.subnets| ==> st.subnets[i].name != st.subnets[j].name)
    && (forall i :: 0 <= i < |st.subnets| ==> CursorOk(st.subnets[i], CursorOf(st.cursors, st.subnets[i])))
  }

  // ----- the pickers -----

  /** The next-free picker is complete: it gives up exactly when all it looks at is used. */
  lemma NextFreeComplete(s: Subnet, used: Used, cur: Addr)
    requires Looked(s, cur)
    ensures Full(s, used, cur) <==> forall a: Addr :: Looked(s, a) ==> a in used
    ensures forall a: Addr :: NextUnused(s, used, cur, a) ==> Looked(s, a) && a !in used
    ensures Full(s, used, cur) ==> !exists a: Addr :: NextUnused(s, used, cur, a)
  {
    if Full(s, used, cur) {
      forall a: Addr | Looked(s, a) ensures a in used {
        assert cur <= a <= s.activeEnd || s.activeStart <= a <= cur;
      }
    }
  }

  /** There is one such address at most: the first on the way from the cursor to the end and on from the start. */
  lemma NextIsUnique(s: Subnet, used: Used, cur: Addr, a: Addr, b: Addr)
    requires Looked(s, cur) && NextUnused(s, used, cur, a)
    ensures NextUnused(s, used, cur, b) ==> b == a
    ensures cur <= b < a || (a < cur && (cur <= b <= s.activeEnd || s.activeStart <= b < a)) ==> b in used
  {
  }

  /** What a picked address is: an unused one that a picker gives, an expired lease, or a hint that is the client's. */
  ghost predicate PickedBy(s: Subnet, ps: seq<Picker>, used: Used, token: string, now: int, a: Addr) {
    if a in used
    then && used[a].Leased?
         && (|| Expired(used[a].lease, now)
             || (used[a].lease.owner == Owner(s.strategy, token) && HintGives(s, ps, a)))
    else HintGives(s, ps, a) || FreeGives(s, ps, a)
  }

  lemma FullIsInside(s: Subnet, used: Used, cur: Addr)
    requires Looked(s, cur) && Full(s, used, cur) && forall a :: a in used ==> s.Contains(a)
    ensures RangeInside(s)
  {
    NextFreeComplete(s, used, cur);
    assert Looked(s, s.activeStart);
    assert s.activeStart <= s.activeEnd ==> Looked(s, s.activeEnd);
  }

  lemma {:induction false} NextIsFair(s: Subnet, ps: seq<Picker>, used: Used, token: string, hint: Option<Addr>,
                                      now: int, cur: Option<Addr>, pick: Pick, cur': Option<Addr>)
    requires CursorOk(s, cur) && forall a :: a in used ==> s.Contains(a)
    requires NextOk(s, ps, used, token, hint, now, cur, pick, cur')
    ensures CursorOk(s, cur')
    ensures pick.Take? ==> PickedBy(s, ps, used, token, now, pick.addr)
    decreases ps
  {
    if ps != [] {
      match ps[0]
      case PickNone =>
      case PickHint =>
        if Hint(s, used, token, hint, now).Skip? {
          NextIsFair(s, ps[1..], used, token, hint, now, cur, pick, cur');
        }
      case PickNextFree =>
        var c := StartCursor(s, cur);
        if Full(s, used, c) {
          FullIsInside(s, used, c);
          NextIsFair(s, ps[1..], used, token, hint, now, Some(c), pick, cur');
        } else {
          NextFreeComplete(s, used, c);
        }
      case PickMostExpired =>
        if NoneExpired(used, now) {
          NextIsFair(s, ps[1..], used, token, hint, now, cur, pick, cur');
        }
    }
  }

  /** With the default pickers a client without a hint is turned away only by a full, live range. */
  lemma DefaultPickersComplete(s: Subnet, used: Used, token: string, now: int,
                               cur: Option<Addr>, pick: Pick, cur': Option<Addr>)
    requires CursorOk(s, cur)
    requires NextOk(s, [PickHint, PickNextFree, PickMostExpired], used, token, None, now, cur, pick, cur')
    ensures pick == Refuse <==>
            (forall a: Addr :: Looked(s, a) ==> a in used) && NoneExpired(used, now)
    ensures pick.Take? && pick.addr in used ==>
              && used[pick.addr].Leased? && Expired(used[pick.addr].lease, now)
              && (forall b :: b in used && used[b].Leased? ==> used[pick.addr].lease.expire <= used[b].lease.expire)
              && forall a: Addr :: Looked(s, a) ==> a in used
  {
    var ps := [PickHint, PickNextFree, PickMostExpired];
    var c := StartCursor(s, cur);
    NextFreeComplete(s, used, c);
    assert ps[1..] == [PickNextFree, PickMostExpired];
    assert ps[1..][1..] == [PickMostExpired];
    assert ps[1..][1..][1..] == [];
    assert NextOk(s, ps[1..], used, token, None, now, cur, pick, cur');
    if Full(s, used, c) {
      assert NextOk(s, ps[1..][1..], used, token, None, now, Some(c), pick, cur');
      if NoneExpired(used, now) {
        assert NextOk(s, ps[1..][1..][1..], used, token, None, now, Some(c), pick, cur');
      }
    }
  }

  // ----- non-interference -----

  predicate Serves(s: Subnet) {
    s.enabled && !s.proxy
  }

  /**
   When a DHCPDISCOVER of `owner` through a subnet can change the unexpired lease that somebody
   else holds at an address: the address is outside the subnet and a picker gives it, or it is
   inside, can be asked for by hint, and is held in the subnet's strategy with the caller's token.
   */
  predicate CanTouch(s: Subnet, owner: Owner, a: Addr, holder: Owner) {
    && Serves(s)
    && if s.Contains(a) then holder == Owner(s.strategy, owner.token) && HintGives(s, s.pickers, a)
       else HintGives(s, s.pickers, a) || FreeGives(s, s.pickers, a)
  }

  /** An unexpired lease that is not what it was. */
  ghost predicate Touched(was: Leases, after: Leases, a: Addr, now: int) {
    a in was && !Expired(was[a], now) && !(a in after && after[a] == was[a])
  }

  lemma {:induction false} SubnetForMember(subnets: seq<Subnet>, vias: seq<Addr>)
    ensures var sn := SubnetFor(subnets, vias).0; sn.Some? ==> sn.value in subnets
  {
    if subnets != [] && ViaIn(subnets[0], vias).None? {
      SubnetForMember(subnets[1..], vias);
    }
  }

  /**
   What is picked.  Inside the subnet it holds no reservation, and its lease, if any, had expired
   or was the client's; and it is always inside when the range is.
   */
  lemma PickedIsFair(st: Dhcp, st': Dhcp, s: Subnet, via: Option<Addr>, owner: Owner, req: Option<Addr>,
                     now: int, offer: Offer)
    requires CursorOk(s, CursorOf(st.cursors, s))
    requires PickedOk(st, st', s, via, owner, req, now, offer)
    ensures CursorOk(s, CursorOf(st'.cursors, s))
    ensures offer.Offer? ==> PickedBy(s, s.pickers, UsedAddrs(st, s), owner.token, now, offer.addr)
    ensures offer.Offer? && RangeInside(s) ==> s.Contains(offer.addr)
    ensures offer.Offer? && s.Contains(offer.addr) ==>
              && offer.addr !in st.reservations
              && (offer.addr !in st.leases ==> Looked(s, offer.addr))
              && (offer.addr in st.leases ==> Expired(st.leases[offer.addr], now)
                                              || st.leases[offer.addr].owner == Owner(s.strategy, owner.token))
  {
    var used := UsedAddrs(st, s);
    var pick := if offer.Offer? then Take(offer.addr) else Refuse;
    NextIsFair(s, s.pickers, used, owner.token, req, now, CursorOf(st.cursors, s), pick, CursorOf(st'.cursors, s));
  }

  lemma SubnetTouches(st: Dhcp, st': Dhcp, sn: Option<Subnet>, via: Option<Addr>, owner: Owner,
                      req: Option<Addr>, now: int, offer: Offer, a: Addr)
    requires sn.Some? ==> CursorOk(sn.value, CursorOf(st.cursors, sn.value))
    requires SubnetOk(st, st', sn, via, owner, req, now, offer)
    requires Touched(st.leases, st'.leases, a, now) && st.leases[a].owner != owner
    ensures sn.Some? && CanTouch(sn.value, owner, a, st.leases[a].owner)
  {
    assert sn.Some? && Serves(sn.value);
    assert Candidate(st, sn.value, owner, req).None?;
    PickedIsFair(st, st', sn.value, via, owner, req, now, offer);
    assert offer.Offer? && offer.addr == a;
    assert a in UsedAddrs(st, sn.value) <==> sn.value.Contains(a);
  }

  /** A DHCPDISCOVER changes somebody else's unexpired lease only where its subnet can. */
  lemma DiscoverUntouched(st: Dhcp, st': Dhcp, owner: Owner, req: Option<Addr>, vias: seq<Addr>, now: int,
                          offer: Offer, a: Addr)
    requires StateOk(st)
    requires DiscoverOk(st, st', owner, req, vias, now, offer)
    requires Touched(st.leases, st'.leases, a, now) && st.leases[a].owner != owner
    ensures var sn := SubnetFor(st.subnets, vias).0;
            sn.Some? && CanTouch(sn.value, owner, a, st.leases[a].owner)
  {
    var (sn, via) := SubnetFor(st.subnets, vias);
    SubnetForMember(st.subnets, vias);
    SubnetTouches(st, st', sn, via, owner, req, now, offer, a);
  }

  lemma RequestUntouched(st: Dhcp, owner: Owner, req: Option<Addr>, vias: seq<Addr>, now: int, a: Addr)
    requires Touched(st.leases, Request(st, owner, req, vias, now).0.leases, a, now)
    ensures st.leases[a].owner == owner
  {
  }

  /** A change of cursors comes from the pickers of the subnet that serves the call. */
  lemma CursorMoved(st: Dhcp, st': Dhcp, owner: Owner, req: Option<Addr>, vias: seq<Addr>, now: int, offer: Offer)
    requires DiscoverOk(st, st', owner, req, vias, now, offer)
    ensures st'.subnets == st.subnets && st'.reservations == st.reservations
    ensures st'.cursors != st.cursors ==>
              var (sn, via) := SubnetFor(st.subnets, vias);
              sn.Some? && !sn.value.proxy && PickedOk(st, st', sn.value, via, owner, req, now, offer)
  {
    var (sn, via) := SubnetFor(st.subnets, vias);
    if st'.cursors != st.cursors {
      assert SubnetOk(st, st', sn, via, owner, req, now, offer);
    }
  }

  /** Moving one subnet's cursor within its range keeps all cursors usable. */
  lemma CursorKept(st: Dhcp, st': Dhcp, s: Subnet)
    requires StateOk(st) && s in st.subnets && st'.subnets == st.subnets
    requires forall i :: 0 <= i < |st.subnets| && st.subnets[i].name != s.name ==>
                           CursorOf(st'.cursors, st.subnets[i]) == CursorOf(st.cursors, st.subnets[i])
    requires CursorOk(s, CursorOf(st'.cursors, s))
    ensures StateOk(st')
  {
    forall i | 0 <= i < |st.subnets| ensures CursorOk(st.subnets[i], CursorOf(st'.cursors, st.subnets[i])) {
      if st.subnets[i].name == s.name {
        var j :| 0 <= j < |st.subnets| && st.subnets[j] == s;
        assert i < j || j < i || i == j;
      }
    }
  }

  lemma DiscoverKeepsState(st: Dhcp, st': Dhcp, owner: Owner, req: Option<Addr>, vias: seq<Addr>, now: int, offer: Offer)
    requires StateOk(st)
    requires DiscoverOk(st, st', owner, req, vias, now, offer)
    ensures StateOk(st') && st'.subnets == st.subnets && st'.reservations == st.reservations
  {
    CursorMoved(st, st', owner, req, vias, now, offer);
    if st'.cursors != st.cursors {
      var (sn, via) := SubnetFor(st.subnets, vias);
      SubnetForMember(st.subnets, vias);
      PickedIsFair(st, st', sn.value, via, owner, req, now, offer);
      CursorKept(st, st', sn.value);
    }
  }

  lemma RequestKeepsState(st: Dhcp, owner: Owner, req: Option<Addr>, vias: seq<Addr>, now: int)
    requires StateOk(st)
    ensures var st' := Request(st, owner, req, vias, now).0;
            StateOk(st') && st'.subnets == st.subnets && st'.reservations == st.reservations
  {
  }

  // ----- runs -----

  datatype Call =
    | Discover(owner: Owner, req: Option<Addr>, vias: seq<Addr>, now: int, offer: Offer)
    | Renew(owner: Owner, req: Option<Addr>, vias: seq<Addr>, now: int)

  ghost predicate Step(st: Dhcp, c: Call, st': Dhcp) {
    match c
    case Discover(owner, req, vias, now, offer) => DiscoverOk(st, st', owner, req, vias, now, offer)
    case Renew(owner, req, vias, now) => st' == Request(st, owner, req, vias, now).0
  }

  /** `states` are the tables before, between and after the calls, made at non-decreasing times. */
  ghost predicate Run(states: seq<Dhcp>, calls: seq<Call>)
    decreases calls
  {
    && |states| == |calls| + 1
    && (calls != [] ==>
          && Step(states[0], calls[0], states[1])
          && (|calls| > 1 ==> calls[0].now <= calls[1].now)
          && Run(states[1..], calls[1..]))
  }

  /** A call that cannot change the lease `holder` has at an address. */
  predicate Harmless(subnets: seq<Subnet>, c: Call, a: Addr, holder: Owner) {
    && holder != c.owner
    && var sn := SubnetFor(subnets, c.vias).0;
       c.Discover? && sn.Some? ==> !CanTouch(sn.value, c.owner, a, holder)
  }

  lemma StepKeeps(st: Dhcp, c: Call, st': Dhcp)
    requires StateOk(st) && Step(st, c, st')
    ensures StateOk(st') && st'.subnets == st.subnets && st'.reservations == st.reservations
  {
    match c
    case Discover(owner, req, vias, now, offer) =>
      DiscoverKeepsState(st, st', owner, req, vias, now, offer);
    case Renew(owner, req, vias, now) =>
      RequestKeepsState(st, owner, req, vias, now);
  }

  lemma StepSpares(st: Dhcp, c: Call, st': Dhcp, a: Addr)
    requires StateOk(st) && Step(st, c, st') && a in st.leases && !Expired(st.leases[a], c.now)
    requires Harmless(st.subnets, c, a, st.leases[a].owner)
    ensures a in st'.leases && st'.leases[a] == st.leases[a]
  {
    if Touched(st.leases, st'.leases, a, c.now) {
      match c
      case Discover(owner, req, vias, now, offer) =>
        DiscoverUntouched(st, st', owner, req, vias, now, offer, a);
        assert false;
      case Renew(owner, req, vias, now) =>
        RequestUntouched(st, owner, req, vias, now, a);
        assert false;
    }
  }

  /**
   Non-interference over whole runs: a lease stays exactly as it is for as long as it has not
   expired and no call is made that can change it.
   */
  lemma {:induction false} HeldLeaseSurvives(states: seq<Dhcp>, calls: seq<Call>, a: Addr)
    requires Run(states, calls) && StateOk(states[0])
    requires a in states[0].leases
    requires forall i :: 0 <= i < |calls| ==>
                           && Harmless(states[0].subnets, calls[i], a, states[0].leases[a].owner)
                           && !Expired(states[0].leases[a], calls[i].now)
    ensures var end := states[|states| - 1];
            a in end.leases && end.leases[a] == states[0].leases[a] && StateOk(end)
    decreases calls
  {
    if calls != [] {
      var rest, more := states[1..], calls[1..];
      StepKeeps(states[0], calls[0], states[1]);
      StepSpares(states[0], calls[0], states[1], a);
      forall i | 0 <= i < |more|
        ensures && Harmless(rest[0].subnets, more[i], a, rest[0].leases[a].owner)
                && !Expired(rest[0].leases[a], more[i].now)
      {
        assert more[i] == calls[i + 1];
      }
      HeldLeaseSurvives(rest, more, a);
      assert rest[|rest| - 1] == states[|states| - 1];
    }
  }

  /** The cursors stay usable along every run, so the next-free picker stays complete. */
  lemma {:induction false} RunKeepsState(states: seq<Dhcp>, calls: seq<Call>)
    requires Run(states, calls) && StateOk(states[0])
    ensures StateOk(states[|states| - 1])
    ensures states[|states| - 1].subnets == states[0].subnets
    decreases calls
  {
    if calls != [] {
      StepKeeps(states[0], calls[0], states[1]);
      RunKeepsState(states[1..], calls[1..]);
      assert states[1..][|states| - 2] == states[|states| - 1];
    }
  }

  // ----- outcomes of a DHCPREQUEST -----

  /**
   The three answers.  It is silent exactly when no lease, reservation or subnet covers the
   request.  It acknowledges only an address whose lease was the requester's or had expired,
   and then records the requester as owner.  If the requester already held the lease, nobody
   else holds a reservation for the address, and the requester's own reservation, if any, is
   for that address.
   */
  lemma RequestOutcomes(st: Dhcp, owner: Owner, req: Option<Addr>, vias: seq<Addr>, now: int)
    ensures var (st', reply) := Request(st, owner, req, vias, now);
            var sn := SubnetFor(st.subnets, vias).0;
            var r := ReservationFor(st.reservations, sn, owner, req);
            && (reply == Silent <==>
                  sn.None? && (req.None? || (req.value !in st.leases && req.value !in st.reservations)))
            && (reply.Ack? ==>
                  && req == Some(reply.addr) && reply.addr in st.leases
                  && (Expired(st.leases[reply.addr], now) || st.leases[reply.addr].owner == owner)
                  && reply.addr in st'.leases && st'.leases[reply.addr].owner == owner
                  && st'.leases[reply.addr].state == Acked && st'.leases[reply.addr].expire > now
                  && st'.leases[reply.addr].expire == now + Duration(ReservationAt(st.reservations, reply.addr), sn))
            && (reply.Ack? && st.leases[reply.addr].owner == owner ==>
                  && (reply.addr in st.reservations ==> st.reservations[reply.addr].owner == owner)
                  && (r.Some? ==> r.value == reply.addr))
            && (reply.Ack? && reply.addr in st.reservations && st.reservations[reply.addr].owner != owner ==>
                  && Expired(st.leases[reply.addr], now)
                  && st.leases[reply.addr].owner == st.reservations[reply.addr].owner)
  {
  }

  /** The via that a lease is confirmed with. */
  function ViaFor(st: Dhcp, l: Lease, vias: seq<Addr>): Option<Addr> {
    var via := SubnetFor(st.subnets, vias).1;
    if via.None? && l.via.Some? && l.via.value in vias then l.via else via
  }

  /**
   An address that is reserved for somebody else is acknowledged just when the caller has no
   reservation, the lease has expired and was the reserving client's, and the via has not changed:
   the reservation is compared with the owner that the lease had.
   */
  lemma ReservedPassesIff(st: Dhcp, owner: Owner, a: Addr, vias: seq<Addr>, now: int)
    requires a in st.reservations && st.reservations[a].owner != owner
    ensures Request(st, owner, Some(a), vias, now).1 == Ack(a) <==>
              && ReservationFor(st.reservations, SubnetFor(st.subnets, vias).0, owner, Some(a)).None?
              && a in st.leases && Expired(st.leases[a], now)
              && st.leases[a].owner == st.reservations[a].owner
              && (st.leases[a].via.Some? ==> st.leases[a].via == ViaFor(st, st.leases[a], vias))
  {
  }

  /** One expired lease of the reserving client is enough, for every two clients and every address. */
  lemma ReservedPasses(a: Addr, b: Owner, c: Owner)
    requires b != c
    ensures var st := Dhcp(map[a := Lease(b, 0, Acked, None)], map[a := Reservation(b, false, "", 0)], [], map[]);
            var (st', reply) := Request(st, c, Some(a), [], 1);
            reply == Ack(a) && a in st'.leases && st'.leases[a].owner == c
  {
    var st := Dhcp(map[a := Lease(b, 0, Acked, None)], map[a := Reservation(b, false, "", 0)], [], map[]);
    assert Global(st.reservations, c) == {};
    assert ScopedIn(st.reservations, None, c) == {};
    ReservedPassesIff(st, c, a, [], 1);
  }

  // ----- outcomes of a DHCPDISCOVER -----

  function Names(sn: Option<Subnet>, owner: Owner): set<Owner> {
    if sn.Some? then {owner, Owner(sn.value.strategy, owner.token)} else {owner}
  }

  predicate FreeFor(st: Dhcp, owner: Owner, a: Addr, now: int) {
    a in st.leases ==> st.leases[a].owner == owner || Expired(st.leases[a], now)
  }

  /** The caller has a lease of the right kind in a subnet that gives out leases. */
  ghost predicate HasOwn(st: Dhcp, sn: Option<Subnet>, owner: Owner, req: Option<Addr>) {
    && sn.Some? && sn.value.enabled && !sn.value.proxy
    && !HasReservation(st, sn.value, owner)
    && OwnLeases(st, sn.value, owner, req) != {}
  }

  /**
   An offer is recorded for a minute in the name of the caller, or of the subnet's strategy with
   the caller's token.  A caller with a reservation whose address nobody else holds is offered
   that address; a caller without one, who has a lease in the subnet that fits, is offered such a
   lease again, and no address changes hands.
   */
  lemma DiscoverOffers(st: Dhcp, st': Dhcp, owner: Owner, req: Option<Addr>, vias: seq<Addr>, now: int, offer: Offer)
    requires DiscoverOk(st, st', owner, req, vias, now, offer)
    ensures var sn := SubnetFor(st.subnets, vias).0;
            var r := ReservationFor(st.reservations, sn, owner, req);
            && (offer.Offer? ==> offer.lease.owner in Names(sn, owner) && offer.lease.expire == now + 60)
            && (offer.Offer? && !(sn.Some? && sn.value.proxy) ==>
                  offer.addr in st'.leases && st'.leases[offer.addr] == offer.lease)
            && (r.Some? && FreeFor(st, owner, r.value, now) ==>
                  offer.Offer? && offer.addr == r.value && offer.lease.owner == owner)
            && (r.None? && HasOwn(st, sn, owner, req) ==>
                  offer.Offer? && offer.addr in OwnLeases(st, sn.value, owner, req)
                  && st'.leases.Keys == st.leases.Keys)
  {
  }

  // ----- the limits of non-interference, exactly -----

  /** A DHCPDISCOVER of `owner` through a subnet that changes the unexpired lease of somebody else. */
  ghost predicate Interferes(s: Subnet, via: Addr, owner: Owner, a: Addr, holder: Owner,
                             st: Dhcp, st': Dhcp, req: Option<Addr>, now: int, offer: Offer)
  {
    && StateOk(st) && st.subnets == [s]
    && DiscoverOk(st, st', owner, req, [via], now, offer)
    && Touched(st.leases, st'.leases, a, now) && st.leases[a].owner == holder != owner
  }

  /** A hint is taken once every picker before it has passed the request on. */
  lemma {:induction false} HintTakes(s: Subnet, ps: seq<Picker>, used: Used, token: string, a: Addr, now: int,
                                     cur: Option<Addr>) returns (cur': Option<Addr>)
    requires CursorOk(s, cur) && Reaches(s, ps, PickHint) && Hint(s, used, token, Some(a), now) == Take(a)
    requires NoneExpired(used, now) && (RangeInside(s) ==> forall x: Addr :: Looked(s, x) ==> x in used)
    ensures CursorOk(s, cur') && (cur.Some? ==> cur'.Some?)
    ensures NextOk(s, ps, used, token, Some(a), now, cur, Take(a), cur')
    decreases ps
  {
    if ps[0] == PickHint {
      cur' := cur;
    } else if ps[0] == PickNextFree {
      var c := StartCursor(s, cur);
      NextFreeComplete(s, used, c);
      cur' := HintTakes(s, ps[1..], used, token, a, now, Some(c));
    } else {
      cur' := HintTakes(s, ps[1..], used, token, a, now, cur);
    }
  }

  /** Without a hint and an expired lease it is the next-free picker that decides. */
  lemma {:induction false} FreeTakes(s: Subnet, ps: seq<Picker>, used: Used, token: string, a: Addr, now: int,
                                     cur: Option<Addr>)
    requires CursorOk(s, cur) && Before(ps, PickNextFree) && NoneExpired(used, now)
    requires NextUnused(s, used, StartCursor(s, cur), a)
    ensures NextOk(s, ps, used, token, None, now, cur, Take(a), Some(a))
    decreases ps
  {
    if ps[0] == PickNextFree {
      NextFreeComplete(s, used, StartCursor(s, cur));
    } else {
      FreeTakes(s, ps[1..], used, token, a, now, cur);
    }
  }

  /** The table after a pick. */
  function Picked(st: Dhcp, s: Subnet, a: Addr, l: Lease, cur': Option<Addr>): Dhcp {
    st.(leases := st.leases[a := l],
        cursors := if cur'.Some? then st.cursors[s.name := cur'.value] else st.cursors)
  }

  /** A call through a single subnet, by a caller without lease and reservation there, is served by a pick. */
  lemma PickServes(s: Subnet, via: Addr, owner: Owner, a: Addr, st: Dhcp, req: Option<Addr>, now: int,
                   cur': Option<Addr>)
    requires s.Contains(via) && GlobalUnicast(via) && Serves(s)
    requires st.subnets == [s] && st.reservations == map[] && OwnLeases(st, s, owner, req) == {}
    requires NextOk(s, s.pickers, UsedAddrs(st, s), owner.token, req, now, CursorOf(st.cursors, s), Take(a), cur')
    requires cur'.None? ==> s.name !in st.cursors
    ensures var l := PickedLease(s, owner.token, Some(via), now);
            DiscoverOk(st, Picked(st, s, a, l, cur'), owner, req, [via], now, Offer(a, l))
  {
    var l := PickedLease(s, owner.token, Some(via), now);
    assert ViaIn(s, [via]) == Some(via);
    assert ReservationFor(st.reservations, Some(s), owner, req) == None;
    assert Candidate(st, s, owner, req) == None;
    assert PickedOk(st, Picked(st, s, a, l, cur'), s, Some(via), owner, req, now, Offer(a, l));
  }

  /** The whole active range, leased to one holder. */
  lemma AllHeld(s: Subnet, l: Lease) returns (st: Dhcp)
    ensures st.subnets == [s] && st.reservations == map[] && st.cursors == map[]
    ensures forall x :: x in st.leases <==> s.InActiveRange(x)
    ensures forall x :: x in st.leases ==> st.leases[x] == l
  {
    st := Dhcp(Tabulate((set x: Addr | s.activeStart <= x <= s.activeEnd && s.InActiveRange(x)), x => l), map[], [s], map[]);
  }

  lemma HintWitness(s: Subnet, via: Addr, owner: Owner, a: Addr, holder: Owner)
    requires s.Contains(via) && GlobalUnicast(via) && Serves(s) && holder != owner && HintGives(s, s.pickers, a)
    requires s.Contains(a) ==> holder == Owner(s.strategy, owner.token)
    ensures exists st, st', req, now, offer :: Interferes(s, via, owner, a, holder, st, st', req, now, offer)
  {
    var l := Lease(holder, 100, Acked, None);
    var st := AllHeld(s, l);
    assert st.subnets[0] == s;
    var cur' := HintTakes(s, s.pickers, UsedAddrs(st, s), owner.token, a, 0, None);
    PickServes(s, via, owner, a, st, Some(a), 0, cur');
    var l' := PickedLease(s, owner.token, Some(via), 0);
    assert Interferes(s, via, owner, a, holder, st, Picked(st, s, a, l', cur'), Some(a), 0, Offer(a, l'));
  }

  lemma FreeWitness(s: Subnet, via: Addr, owner: Owner, a: Addr, holder: Owner)
    requires s.Contains(via) && GlobalUnicast(via) && Serves(s) && holder != owner && FreeGives(s, s.pickers, a)
    requires !s.Contains(a)
    ensures exists st, st', req, now, offer :: Interferes(s, via, owner, a, holder, st, st', req, now, offer)
  {
    var st := Dhcp(map[a := Lease(holder, 100, Acked, None)], map[], [s], map[s.name := a]);
    assert UsedAddrs(st, s).Keys == {};
    ReachesBefore(s, s.pickers, PickNextFree);
    FreeTakes(s, s.pickers, UsedAddrs(st, s), owner.token, a, 0, Some(a));
    PickServes(s, via, owner, a, st, None, 0, Some(a));
    var l' := PickedLease(s, owner.token, Some(via), 0);
    assert Interferes(s, via, owner, a, holder, st, Picked(st, s, a, l', Some(a)), None, 0, Offer(a, l'));
  }

  /** For every subnet, caller and lease: some DHCPDISCOVER changes the lease just when `CanTouch` says so. */
  lemma TouchedIff(s: Subnet, via: Addr, owner: Owner, a: Addr, holder: Owner)
    requires s.Contains(via) && GlobalUnicast(via) && holder != owner
    ensures (exists st, st', req, now, offer :: Interferes(s, via, owner, a, holder, st, st', req, now, offer))
       <==> CanTouch(s, owner, a, holder)
  {
    if CanTouch(s, owner, a, holder) {
      if HintGives(s, s.pickers, a) {
        HintWitness(s, via, owner, a, holder);
      } else {
        FreeWitness(s, via, owner, a, holder);
      }
    }
    forall st, st', req, now, offer | Interferes(s, via, owner, a, holder, st, st', req, now, offer)
      ensures CanTouch(s, owner, a, holder)
    {
      assert ViaIn(s, [via]) == Some(via);
      DiscoverUntouched(st, st', owner, req, [via], now, offer, a);
    }
  }

  /** Addresses outside the subnet can be picked. */
  predicate Strays(s: Subnet) {
    && !RangeInside(s)
    && (Before(s.pickers, PickNextFree) || (Before(s.pickers, PickHint) && s.activeStart <= s.activeEnd))
  }

  /** Some lease of somebody else's is at the mercy of the caller. */
  predicate Disturbs(s: Subnet, owner: Owner) {
    && Serves(s)
    && (|| Strays(s)
        || (s.strategy != owner.strategy && Before(s.pickers, PickHint) && s.activeStart <= s.activeEnd))
  }

  lemma {:induction false} ReachesBefore(s: Subnet, ps: seq<Picker>, p: Picker)
    ensures Reaches(s, ps, p) ==> Before(ps, p)
    ensures Before(ps, p) ==> Reaches(s, ps, p) || (!RangeInside(s) && Reaches(s, ps, PickNextFree))
  {
    if ps != [] && ps[0] != p && ps[0] != PickNone {
      ReachesBefore(s, ps[1..], p);
    }
  }

  lemma StrayAddress(s: Subnet, owner: Owner) returns (a: Addr, holder: Owner)
    requires Serves(s) && Strays(s)
    ensures holder != owner && CanTouch(s, owner, a, holder)
  {
    ReachesBefore(s, s.pickers, PickNextFree);
    ReachesBefore(s, s.pickers, PickHint);
    a := if s.Contains(s.activeStart) then s.activeEnd else s.activeStart;
    holder := Owner(owner.strategy + "x", owner.token);
    assert |holder.strategy| != |owner.strategy|;
  }

  /**
   For every subnet, its pickers in any order: a caller can disturb leases that are not its own
   just when addresses outside the subnet can be picked, or its strategy is not the subnet's and
   it can ask by hint for an address of the active range.
   */
  lemma InterferesIff(s: Subnet, via: Addr, owner: Owner)
    requires s.Contains(via) && GlobalUnicast(via)
    ensures (exists a, holder, st, st', req, now, offer ::
               Interferes(s, via, owner, a, holder, st, st', req, now, offer))
       <==> Disturbs(s, owner)
  {
    ReachesBefore(s, s.pickers, PickHint);
    ReachesBefore(s, s.pickers, PickNextFree);
    if Disturbs(s, owner) {
      if Strays(s) {
        var a, holder := StrayAddress(s, owner);
        TouchedIff(s, via, owner, a, holder);
      } else {
        TouchedIff(s, via, owner, s.activeStart, Owner(s.strategy, owner.token));
      }
    }
    forall a, holder, st, st', req, now, offer | Interferes(s, via, owner, a, holder, st, st', req, now, offer)
      ensures Disturbs(s, owner)
    {
      TouchedIff(s, via, owner, a, holder);
    }
  }

  // ----- what validation gives -----

  /** The range checks of subnet validation, which are skipped for proxies and where only reservations are served. */
  predicate Validated(s: Subnet) {
    !(s.onlyReservations || s.proxy) ==>
      s.Contains(s.activeStart) && s.Contains(s.activeEnd) && s.activeStart < s.activeEnd
  }

  /**
   A validated subnet that serves calls picks outside itself only if it serves reservations only;
   left to its default pickers, which are then none, not even that one does.
   */
  lemma ValidatedStrays(s: Subnet)
    requires Validated(s) && Serves(s) && Strays(s)
    ensures s.onlyReservations && s.pickers != [PickNone]
  {
    assert [PickNone][1..] == [];
  }

  /** There are such subnets, and they disturb callers of their own strategy. */
  lemma ReservationsOnlyStrays()
    ensures exists s: Subnet, owner: Owner :: Validated(s) && s.strategy == owner.strategy && Disturbs(s, owner)
  {
    var s := Subnet("net", 0xA00_0000, 0xA00_00FF, 0xB00_0000, 0xB00_0010, "MAC", true, false, true,
                    [PickNextFree], 60, 7200);
    assert Validated(s) && Disturbs(s, Owner("MAC", "t"));
  }
}
