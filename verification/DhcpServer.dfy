/**
 The imperative form of the lease allocator.  Each method is proved against the function or
 relation in DhcpModel.dfy that describes it.
 */
module DhcpServer {
  import opened DhcpModel
  import opened Wrappers

  /** The first of the keys that are left: stores are walked in key order. */
  method First(keys: set<Addr>) returns (a: Addr)
    requires keys != {}
    ensures a in keys && forall x :: x in keys ==> a <= x
  {
    ghost var least := Least(keys);
    a :| a in keys && forall x :: x in keys ==> a <= x;
  }

  /** `found` is the least address of `wanted` once those in `rest` have been looked at too. */
  ghost predicate FirstOf(found: Option<Addr>, wanted: set<Addr>, rest: set<Addr>) {
    match found
    case None => wanted <= rest
    case Some(a) => a in wanted && a !in rest && (forall x :: x in wanted ==> a <= x) && (forall x :: x in rest ==> a < x)
  }

  lemma IsMin(s: set<Addr>, a: Addr)
    requires a in s && forall x :: x in s ==> a <= x
    ensures s != {} && MinAddr(s) == a
  {
  }

  class DhcpServer {
    var leases: Leases
    var cursors: Cursors
    const reservations: Reservations
    const subnets: seq<Subnet>

    ghost function State(): Dhcp
      reads this
    {
      Dhcp(leases, reservations, subnets, cursors)
    }

    constructor (reservations: Reservations, subnets: seq<Subnet>)
      ensures State() == Dhcp(map[], reservations, subnets, map[])
    {
      leases, cursors := map[], map[];
      this.reservations, this.subnets := reservations, subnets;
    }

    method FindSubnetForVias(vias: seq<Addr>) returns (sn: Option<Subnet>, via: Option<Addr>)
      ensures (sn, via) == SubnetFor(subnets, vias)
    {
      for i := 0 to |subnets|
        invariant SubnetFor(subnets, vias) == SubnetFor(subnets[i..], vias)
      {
        for j := 0 to |vias|
          invariant ViaIn(subnets[i], vias) == ViaIn(subnets[i], vias[j..])
        {
          if !GlobalUnicast(vias[j]) {
            continue;
          }
          if subnets[i].Contains(vias[j]) {
            return Some(subnets[i]), Some(vias[j]);
          }
        }
      }
      return None, None;
    }

    method FindReservation(sn: Option<Subnet>, owner: Owner, req: Option<Addr>) returns (r: Option<Addr>)
      ensures r == ReservationFor(reservations, sn, owner, req)
    {
      if req.Some? && GlobalUnicast(req.value) && req.value in reservations
         && reservations[req.value].owner == owner {
        return req;
      }
      var rest := reservations.Keys;
      var inSubnet, global: Option<Addr> := None, None;
      while rest != {}
        invariant rest <= reservations.Keys
        invariant FirstOf(inSubnet, ScopedIn(reservations, sn, owner), rest)
        invariant FirstOf(global, Global(reservations, owner), rest)
        decreases rest
      {
        var a := First(rest);
        rest := rest - {a};
        var res := reservations[a];
        if res.owner == owner {
          if !res.scoped {
            if global.None? {
              global := Some(a);
            }
          } else if sn.Some? && inSubnet.None? && sn.value.InSubnetRange(a) {
            inSubnet := Some(a);
          }
        }
      }
      if inSubnet.Some? {
        IsMin(ScopedIn(reservations, sn, owner), inSubnet.value);
        return inSubnet;
      }
      assert ScopedIn(reservations, sn, owner) == {};
      if global.Some? {
        IsMin(Global(reservations, owner), global.value);
        return global;
      }
      assert Global(reservations, owner) == {};
      return None;
    }

    // ----- DHCPREQUEST -----

    method FindLease(owner: Owner, req: Option<Addr>, vias: seq<Addr>, now: int) returns (reply: Reply)
      modifies this`leases
      ensures (State(), reply) == Request(old(State()), owner, req, vias, now)
    {
      var sn, via := FindSubnetForVias(vias);
      if req.None? || req.value !in leases {
        if req.Some? && req.value in reservations {
          return Nak;
        }
        if sn.Some? {
          return Nak;
        }
        return Silent;
      }
      var a := req.value;
      var lease := leases[a];
      if !Expired(lease, now) && lease.owner != owner {
        return Nak;
      }
      var reservation := FindReservation(sn, owner, req);
      if reservation.None? {
        if a in reservations && reservations[a].owner != lease.owner {
          leases := leases[a := Invalidate(lease, now)];
          return Nak;
        }
      } else if reservation.value != a {
        leases := leases[a := Invalidate(lease, now)];
        return Nak;
      }
      lease := lease.(owner := owner);
      leases := leases[a := lease];
      if via.None? {
        via := FillVia(lease, vias);
      }
      if lease.via.Some? && lease.via != via {
        return Nak;
      }
      if a !in reservations && sn.None? {
        leases := leases - {a};
        assert leases == old(leases) - {a};
        return Nak;
      }
      lease := lease.(state := Acked, via := via);
      lease := lease.(expire := now + Duration(ReservationAt(reservations, a), sn));
      leases := leases[a := lease];
      assert leases == old(leases)[a := lease];
      return Ack(a);
    }

    // ----- pickers -----

    /**
     The next free address.  With the cursor in the active range this finds an unused address
     whenever there is one, and passes the request on only when the range is full.
     */
    method NextFree(s: Subnet, used: Used) returns (pick: Pick)
      modifies this`cursors
      ensures var c := StartCursor(s, CursorOf(old(cursors), s));
              if Full(s, used, c) then pick == Skip && cursors == old(cursors)[s.name := c]
              else && pick.Take? && NextUnused(s, used, c, pick.addr)
                   && cursors == old(cursors)[s.name := pick.addr]
    {
      if s.name !in cursors {
        cursors := cursors[s.name := s.activeStart];
      }
      var c := cursors[s.name];
      var curr: int, end: int := c, s.activeEnd;
      while curr <= end
        invariant c <= curr
        invariant AllUsed(used, c, curr - 1)
        invariant cursors == old(cursors)[s.name := c]
      {
        var addr: Addr := curr;
        curr := curr + 1;
        if addr !in used {
          cursors := cursors[s.name := addr];
          return Take(addr);
        }
      }
      end, curr := c, s.activeStart;
      while curr <= end
        invariant s.activeStart <= curr
        invariant AllUsed(used, s.activeStart, curr - 1)
        invariant cursors == old(cursors)[s.name := c]
      {
        var addr: Addr := curr;
        curr := curr + 1;
        if addr !in used {
          cursors := cursors[s.name := addr];
          return Take(addr);
        }
      }
      return Skip;
    }

    method MostExpiredLease(used: Used, now: int) returns (pick: Pick)
      ensures if NoneExpired(used, now) then pick == Skip
              else pick.Take? && MostExpired(used, pick.addr, now)
    {
      pick := Skip;
      var rest := used.Keys;
      while rest != {}
        invariant rest <= used.Keys
        invariant !pick.Refuse?
        invariant pick.Skip? ==> forall b :: b in used && b !in rest ==> !used[b].Leased?
        invariant pick.Take? ==>
                    && pick.addr in used && used[pick.addr].Leased?
                    && forall b :: b in used && b !in rest && used[b].Leased? ==>
                                     used[pick.addr].lease.expire <= used[b].lease.expire
        decreases rest
      {
        var a :| a in rest;
        rest := rest - {a};
        if used[a].Leased? && (pick.Skip? || used[a].lease.expire < used[pick.addr].lease.expire) {
          pick := Take(a);
        }
      }
      if pick.Take? && !Expired(used[pick.addr].lease, now) {
        assert forall b :: b in used && used[b].Leased? ==> !Expired(used[b].lease, now);
        pick := Skip;
      }
    }

    ghost predicate OthersKept(was: Cursors, s: Subnet)
      reads this`cursors
    {
      forall n :: n != s.name ==> (n in was <==> n in cursors) && (n in was ==> cursors[n] == was[n])
    }

    method Next(s: Subnet, used: Used, token: string, hint: Option<Addr>, now: int) returns (pick: Pick)
      modifies this`cursors
      ensures !pick.Skip?
      ensures NextOk(s, s.pickers, used, token, hint, now, CursorOf(old(cursors), s), pick, CursorOf(cursors, s))
      ensures OthersKept(old(cursors), s)
    {
      for i := 0 to |s.pickers|
        invariant OthersKept(old(cursors), s)
        invariant forall p, c :: NextOk(s, s.pickers[i..], used, token, hint, now, CursorOf(cursors, s), p, c) ==>
                    NextOk(s, s.pickers, used, token, hint, now, CursorOf(old(cursors), s), p, c)
      {
        assert s.pickers[i..][1..] == s.pickers[i + 1..];
        match s.pickers[i] {
          case PickNone => return Refuse;
          case PickHint =>
            pick := Hint(s, used, token, hint, now);
          case PickNextFree =>
            pick := NextFree(s, used);
          case PickMostExpired =>
            pick := MostExpiredLease(used, now);
        }
        if !pick.Skip? {
          return;
        }
      }
      return Refuse;
    }
  
    // ----- DHCPDISCOVER -----

    /** The leases of a subnet, and the last one that is the client's. */
    method SurveyLeases(s: Subnet, owner: Owner, req: Option<Addr>) returns (used: Used, lease: Option<Addr>)
      ensures used == UsedAddrs(State().(reservations := map[]), s)
      ensures var own := OwnLeases(State(), s, owner, req);
              lease == if own == {} then None else Some(MaxAddr(own))
    {
      used, lease := map[], None;
      var rest := leases.Keys;
      ghost var own := OwnLeases(State(), s, owner, req);
      while rest != {}
        invariant rest <= leases.Keys
        invariant forall a :: a in used <==> a in leases && a !in rest && s.Contains(a)
        invariant forall a :: a in used ==> used[a] == Leased(leases[a])
        invariant lease.None? ==> own <= rest
        invariant lease.Some? ==> && lease.value in own && (forall a :: a in own ==> a <= lease.value || a in rest)
                                  && forall a :: a in rest ==> lease.value < a
        decreases rest
      {
        var a := First(rest);
        rest := rest - {a};
        if s.Contains(a) {
          if leases[a].owner == owner && (req.None? || a == req.value) {
            lease := Some(a);
          }
          used := used[a := Leased(leases[a])];
        }
      }
      UsedAddrsAre(State().(reservations := map[]), s, used);
    }

    /** Add the reservations of a subnet; a client with one there gets no other lease. */
    method SurveyReservations(s: Subnet, owner: Owner, used0: Used, lease0: Option<Addr>)
      returns (used: Used, lease: Option<Addr>)
      requires used0 == UsedAddrs(State().(reservations := map[]), s)
      ensures used == UsedAddrs(State(), s)
      ensures lease == if HasReservation(State(), s, owner) then None else lease0
    {
      used, lease := used0, lease0;
      var rest := reservations.Keys;
      while rest != {}
        invariant rest <= reservations.Keys
        invariant forall a :: a in used <==> a in used0 || (a in reservations && a !in rest && s.Contains(a))
        invariant forall a :: a in used ==>
                    used[a] == if a in reservations && a !in rest then Reserved else Leased(leases[a])
        invariant lease == lease0 || (lease == None && HasReservation(State(), s, owner))
        invariant lease.Some? ==>
                    forall a :: a in reservations && a !in rest && s.Contains(a) ==> reservations[a].owner != owner
        decreases rest
      {
        var a := First(rest);
        rest := rest - {a};
        if s.Contains(a) {
          if reservations[a].owner == owner && lease != None {
            lease := None;
          }
          used := used[a := Reserved];
        }
      }
      UsedAddrsAre(State(), s, used);
    }

    method FindViaSubnet(sn: Option<Subnet>, via: Option<Addr>, owner: Owner, req: Option<Addr>, now: int)
      returns (offer: Offer)
      modifies this
      ensures SubnetOk(old(State()), State(), sn, via, owner, req, now, offer)
    {
      if sn.None? || !sn.value.enabled {
        return NoOffer;
      }
      var s := sn.value;
      if s.proxy {
        return FakeOffer;
      }
      var used0, lease0 := SurveyLeases(s, owner, req);
      var used, lease := SurveyReservations(s, owner, used0, lease0);
      if lease.Some? {
        var l := leases[lease.value].(via := via, expire := now + 60);
        leases := leases[lease.value := l];
        return Offer(lease.value, l);
      }
      var pick := Next(s, used, owner.token, req, now);
      if pick.Take? {
        var l := PickedLease(s, owner.token, via, now);
        leases := leases[pick.addr := l];
        return Offer(pick.addr, l);
      }
      return NoOffer;
    }

    method FindOrCreateLease(owner: Owner, req: Option<Addr>, vias: seq<Addr>, now: int) returns (offer: Offer)
      modifies this
      ensures DiscoverOk(old(State()), State(), owner, req, vias, now, offer)
    {
      var sn, via := FindSubnetForVias(vias);
      var reservation := FindReservation(sn, owner, req);
      if reservation.Some? {
        var a := reservation.value;
        if a !in leases {
          var l := Lease(owner, now + 60, Offered, None);
          if !(sn.Some? && sn.value.proxy) {
            leases := leases[a := l];
          }
          return Offer(a, l);
        }
        var l := leases[a];
        if l.owner == owner || Expired(l, now) {
          l := l.(owner := owner, expire := now + 60);
          leases := leases[a := l];
          return Offer(a, l);
        }
      }
      offer := FindViaSubnet(sn, via, owner, req, now);
    }
  }
}
