/**
 What a client is given: which reservation is found for it, when a DHCPREQUEST is acknowledged and
 for how long, what a refusal leaves behind, and when an offered address is then acknowledged.
 */
module DhcpAnswers {
  import opened DhcpModel
  import opened DhcpRuns
  import opened Wrappers

  // ----- the subnet that serves a call -----

  /** Global unicast: not loopback, link-local, multicast or the broadcast address. */
  lemma UnicastIff(a: Addr)
    ensures var b1, b2 := a / 0x100_0000, a / 0x1_0000 % 0x100;
            GlobalUnicast(a) <==> !(b1 == 127 || (b1 == 169 && b2 == 254) || 224 <= b1 <= 239 || a == 0xFFFF_FFFF)
  {
  }

  predicate Reachable(s: Subnet, via: Addr) {
    GlobalUnicast(via) && s.Contains(via)
  }

  lemma {:induction false} FirstVia(s: Subnet, vias: seq<Addr>) returns (j: nat)
    ensures var via := ViaIn(s, vias);
            && (via.None? <==> forall k :: 0 <= k < |vias| ==> !Reachable(s, vias[k]))
            && (via.Some? ==> j < |vias| && via == Some(vias[j]) && Reachable(s, vias[j])
                              && forall k :: 0 <= k < j ==> !Reachable(s, vias[k]))
  {
    j := 0;
    if vias != [] && !Reachable(s, vias[0]) {
      var i := FirstVia(s, vias[1..]);
      j := i + 1;
      assert forall k :: 0 < k < |vias| ==> vias[k] == vias[1..][k - 1];
    }
  }

  /** A subnet serves a call that comes by way of it. */
  ghost predicate Covers(s: Subnet, vias: seq<Addr>) {
    exists k :: 0 <= k < |vias| && Reachable(s, vias[k])
  }

  /** It is the first in the store that does, and the via is the first inside it. */
  lemma {:induction false} ServingSubnet(subnets: seq<Subnet>, vias: seq<Addr>) returns (i: nat, j: nat)
    ensures var (sn, via) := SubnetFor(subnets, vias);
            && (sn.None? <==> via.None?)
            && (sn.None? <==> forall k :: 0 <= k < |subnets| ==> !Covers(subnets[k], vias))
            && (sn.Some? ==>
                  && i < |subnets| && sn == Some(subnets[i]) && (forall k :: 0 <= k < i ==> !Covers(subnets[k], vias))
                  && j < |vias| && via == Some(vias[j]) && Reachable(subnets[i], vias[j])
                  && forall k :: 0 <= k < j ==> !Reachable(subnets[i], vias[k]))
  {
    i, j := 0, 0;
    if subnets != [] {
      j := FirstVia(subnets[0], vias);
      if ViaIn(subnets[0], vias).None? {
        i, j := ServingSubnet(subnets[1..], vias);
        i := i + 1;
        assert forall k :: 0 < k < |subnets| ==> subnets[k] == subnets[1..][k - 1];
      }
    }
  }

  // ----- the reservation that is found -----

  predicate Owns(rs: Reservations, owner: Owner, a: Addr) {
    a in rs && rs[a].owner == owner
  }

  /** A reservation that may be used: asked for, global, or scoped and strictly inside the subnet. */
  predicate Usable(rs: Reservations, sn: Option<Subnet>, owner: Owner, req: Option<Addr>, a: Addr) {
    && Owns(rs, owner, a)
    && (|| (req == Some(a) && GlobalUnicast(a))
        || !rs[a].scoped
        || (sn.Some? && sn.value.first < a < sn.value.last))
  }

  /** The order of preference: what was asked for, then scoped before global, then the least address. */
  predicate Preferred(rs: Reservations, req: Option<Addr>, a: Addr, b: Addr)
    requires a in rs && b in rs
  {
    || (req == Some(a) && GlobalUnicast(a))
    || (!(req == Some(b) && GlobalUnicast(b))
        && (rs[a].scoped != rs[b].scoped ==> rs[a].scoped)
        && (rs[a].scoped == rs[b].scoped ==> a <= b))
  }

  /** A reservation is found just when the client has one that may be used, and it is the preferred one. */
  lemma ReservationFound(rs: Reservations, sn: Option<Subnet>, owner: Owner, req: Option<Addr>)
    ensures var r := ReservationFor(rs, sn, owner, req);
            && (r.None? <==> forall a :: a in rs ==> !Usable(rs, sn, owner, req, a))
            && (r.Some? ==> && Usable(rs, sn, owner, req, r.value)
                            && forall a :: a in rs && Usable(rs, sn, owner, req, a) ==> Preferred(rs, req, r.value, a))
  {
    var scoped, global := ScopedIn(rs, sn, owner), Global(rs, owner);
    forall a | a in rs && Usable(rs, sn, owner, req, a) && !(req == Some(a) && GlobalUnicast(a))
      ensures a in scoped || a in global
    {
    }
  }

  /**
   A client with a single reservation that may be used is offered its address whenever nobody else
   holds it, whatever was asked for.
   */
  lemma ReservationOffered(st: Dhcp, st': Dhcp, owner: Owner, req: Option<Addr>, vias: seq<Addr>, now: int,
                           offer: Offer, a: Addr)
    requires DiscoverOk(st, st', owner, req, vias, now, offer) && FreeFor(st, owner, a, now)
    requires Usable(st.reservations, SubnetFor(st.subnets, vias).0, owner, req, a)
    requires forall b :: b in st.reservations && st.reservations[b].owner == owner ==> b == a
    ensures offer.Offer? && offer.addr == a && offer.lease.owner == owner
    ensures a !in st.leases ==> offer.lease == Lease(owner, now + 60, Offered, None)
    ensures a in st.leases ==> offer.lease == st.leases[a].(owner := owner, expire := now + 60)
    ensures var sn := SubnetFor(st.subnets, vias).0;
            st' == if a !in st.leases && sn.Some? && sn.value.proxy then st else st.(leases := st.leases[a := offer.lease])
  {
    ReservationFound(st.reservations, SubnetFor(st.subnets, vias).0, owner, req);
  }

  // ----- DHCPREQUEST -----

  /** The reservations leave the lease at `a` to the caller. */
  ghost predicate Unopposed(st: Dhcp, owner: Owner, a: Addr, vias: seq<Addr>)
    requires a in st.leases
  {
    var r := ReservationFor(st.reservations, SubnetFor(st.subnets, vias).0, owner, Some(a));
    if r.Some? then r.value == a
    else a in st.reservations ==> st.reservations[a].owner == st.leases[a].owner
  }

  predicate SameVia(st: Dhcp, l: Lease, vias: seq<Addr>) {
    l.via.Some? ==> l.via == ViaFor(st, l, vias)
  }

  predicate Served(st: Dhcp, a: Addr, vias: seq<Addr>) {
    a in st.reservations || SubnetFor(st.subnets, vias).0.Some?
  }

  /**
   When a DHCPREQUEST is acknowledged, for every table, caller, address, vias and time: the address
   is leased, to the caller or no longer; the reservations leave it to the caller; it comes by the
   same via; and a reservation or a subnet covers it.
   */
  lemma AckIff(st: Dhcp, owner: Owner, a: Addr, vias: seq<Addr>, now: int)
    ensures Request(st, owner, Some(a), vias, now).1 == Ack(a) <==>
              && a in st.leases && FreeFor(st, owner, a, now)
              && Unopposed(st, owner, a, vias) && SameVia(st, st.leases[a], vias) && Served(st, a, vias)
  {
  }

  /** What an acknowledgement records; the term is the reservation's, else the subnet's, else two hours. */
  lemma AckRecords(st: Dhcp, owner: Owner, a: Addr, vias: seq<Addr>, now: int)
    requires Request(st, owner, Some(a), vias, now).1 == Ack(a)
    ensures var st' := Request(st, owner, Some(a), vias, now).0;
            var sn := SubnetFor(st.subnets, vias).0;
            && st' == st.(leases := st.leases[a := st'.leases[a]])
            && var l := st'.leases[a];
            && l.owner == owner && l.state == Acked && l.via == ViaFor(st, st.leases[a], vias)
            && (a in st.reservations && st.reservations[a].duration > 0 ==>
                  l.expire == now + st.reservations[a].duration)
            && (a in st.reservations && st.reservations[a].duration <= 0 && sn.Some? && sn.value.reservedTime > 0 ==>
                  l.expire == now + sn.value.reservedTime)
            && (a !in st.reservations && sn.Some? && sn.value.activeTime > 0 ==> l.expire == now + sn.value.activeTime)
            && (a in st.reservations && st.reservations[a].duration <= 0 && (sn.None? || sn.value.reservedTime <= 0) ==>
                  l.expire == now + 7200)
            && (a !in st.reservations && (sn.None? || sn.value.activeTime <= 0) ==> l.expire == now + 7200)
  {
  }

  /** What a refusal leaves: the lease of somebody else as it is, a contested one nobody's, a stray one removed. */
  lemma NakLeaves(st: Dhcp, owner: Owner, a: Addr, vias: seq<Addr>, now: int)
    requires a in st.leases && Request(st, owner, Some(a), vias, now).1 != Ack(a)
    ensures var (st', reply) := Request(st, owner, Some(a), vias, now);
            && reply == Nak && st'.reservations == st.reservations && st'.subnets == st.subnets && st'.cursors == st.cursors
            && (forall b :: b != a ==> (b in st'.leases <==> b in st.leases) && (b in st.leases ==> st'.leases[b] == st.leases[b]))
            && (!FreeFor(st, owner, a, now) ==> st' == st)
            && (FreeFor(st, owner, a, now) && !Unopposed(st, owner, a, vias) ==>
                  a in st'.leases && st'.leases[a].state == Invalid && st'.leases[a].expire == now + 600
                  && st'.leases[a].owner == Owner("", ""))
            && (FreeFor(st, owner, a, now) && Unopposed(st, owner, a, vias) ==>
                  if SameVia(st, st.leases[a], vias) then a !in st'.leases
                  else a in st'.leases && st'.leases[a] == st.leases[a].(owner := owner))
  {
  }

  /** A contested address is held back: for ten minutes no client that has a name is acknowledged on it. */
  lemma ContestedIsHeldBack(st: Dhcp, owner: Owner, a: Addr, vias: seq<Addr>, now: int,
                            other: Owner, vias': seq<Addr>, later: int)
    requires a in st.leases && FreeFor(st, owner, a, now) && !Unopposed(st, owner, a, vias)
    requires other != Owner("", "") && later <= now + 600
    ensures var st' := Request(st, owner, Some(a), vias, now).0;
            Request(st', other, Some(a), vias', later) == (st', Nak)
  {
    AckIff(st, owner, a, vias, now);
    NakLeaves(st, owner, a, vias, now);
    var st' := Request(st, owner, Some(a), vias, now).0;
    AckIff(st', other, a, vias', later);
    NakLeaves(st', other, a, vias', later);
  }

  // ----- DHCPDISCOVER -----

  /** A lease inside the subnet that is the caller's and fits what was asked for. */
  predicate Own(st: Dhcp, s: Subnet, owner: Owner, req: Option<Addr>, a: Addr) {
    a in st.leases && st.leases[a].owner == owner && s.Contains(a) && (req.None? || req == Some(a))
  }

  /**
   A caller without a reservation, through a subnet that serves: it is offered its own lease again,
   the one with the greatest address, just when it has one that fits; and else what the pickers give.
   */
  lemma OwnLeaseAgain(st: Dhcp, st': Dhcp, owner: Owner, req: Option<Addr>, vias: seq<Addr>, now: int,
                      offer: Offer, s: Subnet, a: Addr)
    requires DiscoverOk(st, st', owner, req, vias, now, offer) && SubnetFor(st.subnets, vias).0 == Some(s) && Serves(s)
    requires forall b :: b in st.reservations ==> st.reservations[b].owner != owner
    requires Own(st, s, owner, req, a)
    ensures offer.Offer? && offer.addr >= a && Own(st, s, owner, req, offer.addr)
    ensures offer.lease == st.leases[offer.addr].(via := SubnetFor(st.subnets, vias).1, expire := now + 60)
    ensures st' == st.(leases := st.leases[offer.addr := offer.lease])
  {
    ReservationFound(st.reservations, Some(s), owner, req);
    assert a in OwnLeases(st, s, owner, req);
    assert !HasReservation(st, s, owner);
  }

  lemma OthersPicked(st: Dhcp, st': Dhcp, owner: Owner, req: Option<Addr>, vias: seq<Addr>, now: int,
                     offer: Offer, s: Subnet)
    requires DiscoverOk(st, st', owner, req, vias, now, offer) && SubnetFor(st.subnets, vias).0 == Some(s) && Serves(s)
    requires forall b :: b in st.reservations ==> st.reservations[b].owner != owner
    requires forall a :: a in st.leases ==> !Own(st, s, owner, req, a)
    ensures PickedOk(st, st', s, SubnetFor(st.subnets, vias).1, owner, req, now, offer)
    ensures offer.Offer? ==>
              && offer.lease == Lease(Owner(s.strategy, owner.token), now + 60, Probing, SubnetFor(st.subnets, vias).1)
              && st'.leases == st.leases[offer.addr := offer.lease]
    ensures !offer.Offer? ==> st'.leases == st.leases
  {
    ReservationFound(st.reservations, Some(s), owner, req);
    assert OwnLeases(st, s, owner, req) == {};
  }

  /** A caller whose reserved address somebody else holds is given a fresh pick, not its own lease in that subnet. */
  lemma ReservedPicked(st: Dhcp, st': Dhcp, owner: Owner, req: Option<Addr>, vias: seq<Addr>, now: int,
                       offer: Offer, s: Subnet, a: Addr)
    requires DiscoverOk(st, st', owner, req, vias, now, offer) && SubnetFor(st.subnets, vias).0 == Some(s) && Serves(s)
    requires Owns(st.reservations, owner, a) && s.Contains(a)
    requires forall b :: b in st.reservations && Owns(st.reservations, owner, b) ==> !FreeFor(st, owner, b, now)
    ensures PickedOk(st, st', s, SubnetFor(st.subnets, vias).1, owner, req, now, offer)
  {
    assert HasReservation(st, s, owner);
  }

  /** Through no subnet, a disabled one or a proxy a caller without a reservation is offered no address. */
  lemma NotServed(st: Dhcp, st': Dhcp, owner: Owner, req: Option<Addr>, vias: seq<Addr>, now: int, offer: Offer)
    requires DiscoverOk(st, st', owner, req, vias, now, offer)
    requires forall b :: b in st.reservations ==> st.reservations[b].owner != owner
    requires var sn := SubnetFor(st.subnets, vias).0; sn.Some? ==> !Serves(sn.value)
    ensures st' == st && !offer.Offer?
    ensures offer.FakeOffer? <==> var sn := SubnetFor(st.subnets, vias).0; sn.Some? && sn.value.enabled
  {
    ReservationFound(st.reservations, SubnetFor(st.subnets, vias).0, owner, req);
  }

  const DEFAULT_PICKERS := [PickHint, PickNextFree, PickMostExpired]

  /**
   With the default pickers, a caller who asks for an address of the active range is given it just
   when it is unused, or leased to the caller or no longer; and nothing else is given instead.
   */
  lemma HintHonoured(s: Subnet, used: Used, token: string, a: Addr, now: int,
                     cur: Option<Addr>, pick: Pick, cur': Option<Addr>)
    requires NextOk(s, DEFAULT_PICKERS, used, token, Some(a), now, cur, pick, cur') && s.InActiveRange(a)
    ensures pick == Take(a) <==>
              || a !in used
              || (used[a].Leased? && (Expired(used[a].lease, now) || used[a].lease.owner == Owner(s.strategy, token)))
    ensures pick == Take(a) || pick == Refuse
  {
  }

  /**
   With the default pickers, a caller without reservation and lease who asks for nothing is offered
   an address just when one of the range is unused or some lease in the subnet has expired.
   */
  lemma OfferedIffRoom(st: Dhcp, st': Dhcp, owner: Owner, vias: seq<Addr>, now: int, offer: Offer, s: Subnet)
    requires StateOk(st) && s in st.subnets && s.pickers == DEFAULT_PICKERS
    requires DiscoverOk(st, st', owner, None, vias, now, offer) && SubnetFor(st.subnets, vias).0 == Some(s) && Serves(s)
    requires forall b :: b in st.reservations ==> st.reservations[b].owner != owner
    requires forall a :: a in st.leases ==> !Own(st, s, owner, None, a)
    ensures offer.Offer? <==>
              || (exists a: Addr :: Looked(s, a) && !(s.Contains(a) && (a in st.leases || a in st.reservations)))
              || (exists a :: a in st.leases && a !in st.reservations && s.Contains(a) && Expired(st.leases[a], now))
  {
    OthersPicked(st, st', owner, None, vias, now, offer, s);
    var used := UsedAddrs(st, s);
    var pick := if offer.Offer? then Take(offer.addr) else Refuse;
    DefaultPickersComplete(s, used, owner.token, now, CursorOf(st.cursors, s), pick, CursorOf(st'.cursors, s));
    assert forall a: Addr :: a in used <==> s.Contains(a) && (a in st.leases || a in st.reservations);
    SomeExpired(st, s, now);
  }

  lemma SomeExpired(st: Dhcp, s: Subnet, now: int)
    ensures !NoneExpired(UsedAddrs(st, s), now) <==>
              exists a :: a in st.leases && a !in st.reservations && s.Contains(a) && Expired(st.leases[a], now)
  {
    var used := UsedAddrs(st, s);
    forall a | a in st.leases && a !in st.reservations && s.Contains(a) && Expired(st.leases[a], now)
      ensures !NoneExpired(used, now)
    {
      assert a in used && IsExpired(used, a, now);
    }
  }

  // ----- the two together -----

  /**
   An address that was offered is acknowledged within the minute, by the same vias, just when it
   was offered in the caller's own name, the reservations leave it to the caller, and the via
   recorded with it is the one found now.
   */
  lemma OfferedIsAckedIff(st: Dhcp, st': Dhcp, owner: Owner, req: Option<Addr>, vias: seq<Addr>, now: int,
                          offer: Offer, later: int)
    requires DiscoverOk(st, st', owner, req, vias, now, offer) && offer.Offer? && now <= later <= now + 60
    requires var sn := SubnetFor(st.subnets, vias).0; sn.Some? ==> !sn.value.proxy
    ensures var a := offer.addr;
            Request(st', owner, Some(a), vias, later).1 == Ack(a) <==>
              && offer.lease.owner == owner && Unopposed(st', owner, a, vias) && SameVia(st', offer.lease, vias)
  {
    DiscoverOffers(st, st', owner, req, vias, now, offer);
    CursorMoved(st, st', owner, req, vias, now, offer);
    AckIff(st', owner, offer.addr, vias, later);
    if SubnetFor(st.subnets, vias).0.None? {
      assert offer.addr in st.reservations;
    }
  }

  /**
   A caller without reservations, in a subnet of its own strategy whose range is inside it, gets
   what it was offered, unless the offer was a lease of its own at an address that has been
   reserved for somebody else since.
   */
  lemma HandshakeIff(st: Dhcp, st': Dhcp, owner: Owner, req: Option<Addr>, vias: seq<Addr>, now: int,
                     offer: Offer, later: int, s: Subnet)
    requires StateOk(st) && DiscoverOk(st, st', owner, req, vias, now, offer) && offer.Offer? && now <= later <= now + 60
    requires SubnetFor(st.subnets, vias).0 == Some(s) && Serves(s) && s.strategy == owner.strategy && RangeInside(s)
    requires forall b :: b in st.reservations ==> st.reservations[b].owner != owner
    ensures Request(st', owner, Some(offer.addr), vias, later).1 == Ack(offer.addr) <==> offer.addr !in st.reservations
    ensures offer.addr in st.reservations ==> Own(st, s, owner, req, offer.addr)
  {
    var a := offer.addr;
    OfferedIsAckedIff(st, st', owner, req, vias, now, offer, later);
    CursorMoved(st, st', owner, req, vias, now, offer);
    ReservationFound(st.reservations, Some(s), owner, req);
    ReservationFound(st'.reservations, Some(s), owner, Some(a));
    if exists b :: b in st.leases && Own(st, s, owner, req, b) {
      var b :| b in st.leases && Own(st, s, owner, req, b);
      OwnLeaseAgain(st, st', owner, req, vias, now, offer, s, b);
    } else {
      PickIsInside(st, st', owner, req, vias, now, offer, s);
    }
  }

  lemma PickIsInside(st: Dhcp, st': Dhcp, owner: Owner, req: Option<Addr>, vias: seq<Addr>, now: int,
                     offer: Offer, s: Subnet)
    requires StateOk(st) && DiscoverOk(st, st', owner, req, vias, now, offer) && offer.Offer?
    requires SubnetFor(st.subnets, vias).0 == Some(s) && Serves(s) && RangeInside(s)
    requires forall b :: b in st.reservations ==> st.reservations[b].owner != owner
    requires forall a :: a in st.leases ==> !Own(st, s, owner, req, a)
    ensures offer.lease == Lease(Owner(s.strategy, owner.token), now + 60, Probing, SubnetFor(st.subnets, vias).1)
    ensures offer.addr !in st.reservations
  {
    SubnetForMember(st.subnets, vias);
    OthersPicked(st, st', owner, req, vias, now, offer, s);
    PickedIsFair(st, st', s, SubnetFor(st.subnets, vias).1, owner, req, now, offer);
  }
}
