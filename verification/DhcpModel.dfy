/**
 The lease allocator (backend/dhcpUtils.go, backend/subnet.go) as relations on a value state.

 Addresses are numbers; the source compares their fixed-width hexadecimal keys, which orders
 them the same way.  Lease tables are what the source keeps in memory and looks leases up
 in.  Time is a number that calls are given.
 */
module DhcpModel {
  import opened Maps
  import opened Wrappers

  /** An IPv4 address whose first byte is not zero. */
  type Addr = n: nat | 0x100_0000 <= n < 0x1_0000_0000 witness 0x100_0000

  datatype Owner = Owner(strategy: string, token: string)

  datatype LeaseState = Offered | Probing | Acked | Invalid

  datatype Lease = Lease(owner: Owner, expire: int, state: LeaseState, via: Option<Addr>)

  datatype Reservation = Reservation(owner: Owner, scoped: bool, subnet: string, duration: int)

  datatype Picker = PickNone | PickHint | PickNextFree | PickMostExpired

  datatype Subnet = Subnet(
    name: string, first: Addr, last: Addr, activeStart: Addr, activeEnd: Addr,
    strategy: string, enabled: bool, proxy: bool, onlyReservations: bool, pickers: seq<Picker>,
    activeTime: int, reservedTime: int)
  {
    predicate Contains(a: Addr) { first <= a <= last }

    /** Strictly inside: neither the network nor the broadcast address. */
    predicate InSubnetRange(a: Addr) { first < a < last }

    predicate InActiveRange(a: Addr) { activeStart <= a <= activeEnd }
  }

  type Leases = map<Addr, Lease>
  type Reservations = map<Addr, Reservation>
  type Cursors = map<string, Addr>

  datatype Dhcp = Dhcp(leases: Leases, reservations: Reservations, subnets: seq<Subnet>, cursors: Cursors)

  predicate Expired(l: Lease, now: int) {
    l.expire < now
  }

  predicate GlobalUnicast(a: Addr) {
    && a != 0xFFFF_FFFF
    && !(0x7F00_0000 <= a < 0x8000_0000)
    && !(0xA9FE_0000 <= a < 0xA9FF_0000)
    && !(0xE000_0000 <= a < 0xF000_0000)
  }

  // ----- least and greatest of a set of addresses -----

  lemma Least(s: set<Addr>) returns (m: Addr)
    requires s != {}
    ensures m in s && forall x :: x in s ==> m <= x
    decreases s
  {
    var y :| y in s;
    var rest := s - {y};
    if rest == {} {
      assert s == {y};
      m := y;
    } else {
      m := Least(rest);
      assert s == rest + {y};
      if y < m {
        m := y;
      }
    }
  }

  ghost function MinAddr(s: set<Addr>): (m: Addr)
    requires s != {}
    ensures m in s && forall x :: x in s ==> m <= x
  {
    assert exists m :: m in s && forall x :: x in s ==> m <= x by {
      var least := Least(s);
    }
    var m :| m in s && forall x :: x in s ==> m <= x;
    m
  }

  lemma Greatest(s: set<Addr>) returns (m: Addr)
    requires s != {}
    ensures m in s && forall x :: x in s ==> x <= m
    decreases s
  {
    var y :| y in s;
    var rest := s - {y};
    if rest == {} {
      assert s == {y};
      m := y;
    } else {
      m := Greatest(rest);
      assert s == rest + {y};
      if m < y {
        m := y;
      }
    }
  }

  ghost function MaxAddr(s: set<Addr>): (m: Addr)
    requires s != {}
    ensures m in s && forall x :: x in s ==> x <= m
  {
    assert exists m :: m in s && forall x :: x in s ==> x <= m by {
      var greatest := Greatest(s);
    }
    var m :| m in s && forall x :: x in s ==> x <= m;
    m
  }

  // ----- lookups -----

  /** The first global unicast via inside a subnet. */
  function ViaIn(s: Subnet, vias: seq<Addr>): Option<Addr> {
    if vias == [] then None
    else if GlobalUnicast(vias[0]) && s.Contains(vias[0]) then Some(vias[0])
    else ViaIn(s, vias[1..])
  }

  /** The first subnet that contains one of the vias, with that via. */
  function SubnetFor(subnets: seq<Subnet>, vias: seq<Addr>): (Option<Subnet>, Option<Addr>) {
    if subnets == [] then (None, None)
    else
      var via := ViaIn(subnets[0], vias);
      if via.Some? then (Some(subnets[0]), via) else SubnetFor(subnets[1..], vias)
  }

  ghost function ScopedIn(rs: Reservations, sn: Option<Subnet>, owner: Owner): set<Addr> {
    set a | a in rs && rs[a].owner == owner && rs[a].scoped && sn.Some? && sn.value.InSubnetRange(a)
  }

  ghost function Global(rs: Reservations, owner: Owner): set<Addr> {
    set a | a in rs && rs[a].owner == owner && !rs[a].scoped
  }

  /**
   The reservation for an owner: the one at the requested address if it is theirs, else their
   first scoped one inside the subnet, else their first global one.
   */
  ghost function ReservationFor(rs: Reservations, sn: Option<Subnet>, owner: Owner, req: Option<Addr>): (r: Option<Addr>)
    ensures r.Some? ==> r.value in rs && rs[r.value].owner == owner
  {
    if req.Some? && GlobalUnicast(req.value) && req.value in rs && rs[req.value].owner == owner then req
    else if ScopedIn(rs, sn, owner) != {} then Some(MinAddr(ScopedIn(rs, sn, owner)))
    else if Global(rs, owner) != {} then Some(MinAddr(Global(rs, owner)))
    else None
  }

  /** How long a confirmed lease lasts. */
  function Duration(r: Option<Reservation>, s: Option<Subnet>): int {
    var own := if r.Some? && r.value.duration > 0 then r.value.duration else 0;
    var d := if own < 1 && s.Some?
             then if r.Some? then s.value.reservedTime else s.value.activeTime
             else own;
    if d < 1 then 7200 else d
  }

  function ReservationAt(rs: Reservations, a: Addr): Option<Reservation> {
    if a in rs then Some(rs[a]) else None
  }

  // ----- DHCPREQUEST -----

  datatype Reply = Silent | Nak | Ack(addr: Addr)

  function Invalidate(l: Lease, now: int): Lease {
    l.(owner := Owner("", ""), expire := now + 600, state := Invalid)
  }

  function FillVia(l: Lease, vias: seq<Addr>): Option<Addr> {
    if l.via.Some? && l.via.value in vias then l.via else None
  }

  ghost function Request(st: Dhcp, owner: Owner, req: Option<Addr>, vias: seq<Addr>, now: int): (Dhcp, Reply) {
    var (sn, via) := SubnetFor(st.subnets, vias);
    if req.None? || req.value !in st.leases then
      (st, if (req.Some? && req.value in st.reservations) || sn.Some? then Nak else Silent)
    else
      var a := req.value;
      var l := st.leases[a];
      var r := ReservationFor(st.reservations, sn, owner, req);
      if !Expired(l, now) && l.owner != owner then (st, Nak)
      else if (if r.None? then a in st.reservations && st.reservations[a].owner != l.owner else r.value != a) then
        (st.(leases := st.leases[a := Invalidate(l, now)]), Nak)
      else
        var l1 := l.(owner := owner);
        var via1 := if via.None? then FillVia(l1, vias) else via;
        if l1.via.Some? && l1.via != via1 then (st.(leases := st.leases[a := l1]), Nak)
        else if a !in st.reservations && sn.None? then (st.(leases := st.leases - {a}), Nak)
        else
          var l2 := l1.(state := Acked, via := via1,
                        expire := now + Duration(ReservationAt(st.reservations, a), sn));
          (st.(leases := st.leases[a := l2]), Ack(a))
  }

  // ----- picking an address -----

  /** A used address holds a reservation, or only a lease. */
  datatype Use = Reserved | Leased(lease: Lease)

  type Used = map<Addr, Use>

  function UseOf(st: Dhcp, a: Addr): Use
    requires a in st.leases.Keys + st.reservations.Keys
  {
    if a in st.reservations then Reserved else Leased(st.leases[a])
  }

  ghost function UsedAddrs(st: Dhcp, s: Subnet): (used: Used)
    ensures forall a :: a in used <==> a in st.leases.Keys + st.reservations.Keys && s.Contains(a)
    ensures forall a :: a in used ==> used[a] == UseOf(st, a)
  {
    Tabulate((set a | a in st.leases.Keys + st.reservations.Keys && s.Contains(a)),
             a requires a in st.leases.Keys + st.reservations.Keys => UseOf(st, a))
  }

  lemma UsedAddrsAre(st: Dhcp, s: Subnet, used: Used)
    requires forall a :: a in used <==> a in st.leases.Keys + st.reservations.Keys && s.Contains(a)
    requires forall a :: a in used ==> used[a] == UseOf(st, a)
    ensures used == UsedAddrs(st, s)
  {
  }

  datatype Pick = Skip | Refuse | Take(addr: Addr)

  function Hint(s: Subnet, used: Used, token: string, hint: Option<Addr>, now: int): Pick {
    if hint.None? || !s.InActiveRange(hint.value) then Skip
    else if hint.value !in used then Take(hint.value)
    else
      match used[hint.value]
      case Leased(l) =>
        if l.owner == Owner(s.strategy, token) || Expired(l, now) then Take(hint.value) else Refuse
      case Reserved => Refuse
  }

  /** Every address from lo up to hi is used. */
  ghost predicate AllUsed(used: Used, lo: int, hi: int) {
    forall a: Addr :: lo <= a <= hi ==> a in used
  }

  /** `a` is the first unused address on the way from the cursor to the end, then from the start. */
  ghost predicate NextUnused(s: Subnet, used: Used, cur: Addr, a: Addr) {
    && a !in used
    && (|| (cur <= a <= s.activeEnd && AllUsed(used, cur, a - 1))
        || (AllUsed(used, cur, s.activeEnd) && s.activeStart <= a <= cur && AllUsed(used, s.activeStart, a - 1)))
  }

  ghost predicate Full(s: Subnet, used: Used, cur: Addr) {
    AllUsed(used, cur, s.activeEnd) && AllUsed(used, s.activeStart, cur)
  }

  ghost predicate IsExpired(used: Used, a: Addr, now: int) {
    a in used && used[a].Leased? && Expired(used[a].lease, now)
  }

  ghost predicate NoneExpired(used: Used, now: int) {
    forall a :: a in used ==> !IsExpired(used, a, now)
  }

  ghost predicate MostExpired(used: Used, a: Addr, now: int) {
    && IsExpired(used, a, now)
    && forall b :: b in used && used[b].Leased? ==> used[a].lease.expire <= used[b].lease.expire
  }

  function StartCursor(s: Subnet, cur: Option<Addr>): Addr {
    if cur.Some? then cur.value else s.activeStart
  }

  /** The pickers in order; the first that does not pass the request on decides. */
  ghost predicate NextOk(s: Subnet, ps: seq<Picker>, used: Used, token: string, hint: Option<Addr>, now: int,
                         cur: Option<Addr>, pick: Pick, cur': Option<Addr>)
    decreases ps
  {
    if ps == [] then pick == Refuse && cur' == cur
    else
      match ps[0]
      case PickNone => pick == Refuse && cur' == cur
      case PickHint =>
        var h := Hint(s, used, token, hint, now);
        if h.Skip? then NextOk(s, ps[1..], used, token, hint, now, cur, pick, cur')
        else pick == h && cur' == cur
      case PickNextFree =>
        var c := StartCursor(s, cur);
        if Full(s, used, c) then NextOk(s, ps[1..], used, token, hint, now, Some(c), pick, cur')
        else pick.Take? && NextUnused(s, used, c, pick.addr) && cur' == Some(pick.addr)
      case PickMostExpired =>
        if NoneExpired(used, now) then NextOk(s, ps[1..], used, token, hint, now, cur, pick, cur')
        else pick.Take? && MostExpired(used, pick.addr, now) && cur' == cur
  }

  // ----- DHCPDISCOVER -----

  datatype Offer = NoOffer | FakeOffer | Offer(addr: Addr, lease: Lease)

  function CursorOf(cs: Cursors, s: Subnet): Option<Addr> {
    if s.name in cs then Some(cs[s.name]) else None
  }

  ghost function OwnLeases(st: Dhcp, s: Subnet, owner: Owner, req: Option<Addr>): set<Addr> {
    set a | a in st.leases && s.Contains(a) && st.leases[a].owner == owner && (req.None? || req.value == a)
  }

  ghost predicate HasReservation(st: Dhcp, s: Subnet, owner: Owner) {
    exists a :: a in st.reservations && s.Contains(a) && st.reservations[a].owner == owner
  }

  /** A lease of the client's that can be offered again: the last one, unless they have a reservation. */
  ghost function Candidate(st: Dhcp, s: Subnet, owner: Owner, req: Option<Addr>): Option<Addr> {
    if HasReservation(st, s, owner) || OwnLeases(st, s, owner, req) == {} then None
    else Some(MaxAddr(OwnLeases(st, s, owner, req)))
  }

  function PickedLease(s: Subnet, token: string, via: Option<Addr>, now: int): Lease {
    Lease(Owner(s.strategy, token), now + 60, Probing, via)
  }

  ghost predicate SubnetOk(st: Dhcp, st': Dhcp, sn: Option<Subnet>, via: Option<Addr>, owner: Owner,
                           req: Option<Addr>, now: int, offer: Offer)
  {
    if sn.None? || !sn.value.enabled then st' == st && offer == NoOffer
    else if sn.value.proxy then st' == st && offer == FakeOffer
    else
      var s := sn.value;
      match Candidate(st, s, owner, req)
      case Some(a) =>
        var l := st.leases[a].(via := via, expire := now + 60);
        st' == st.(leases := st.leases[a := l]) && offer == Offer(a, l)
      case None => PickedOk(st, st', s, via, owner, req, now, offer)
  }

  ghost predicate PickedOk(st: Dhcp, st': Dhcp, s: Subnet, via: Option<Addr>, owner: Owner,
                           req: Option<Addr>, now: int, offer: Offer)
  {
    var used := UsedAddrs(st, s);
    && st'.reservations == st.reservations && st'.subnets == st.subnets
    && (forall n :: n in st.cursors && n != s.name ==> n in st'.cursors && st'.cursors[n] == st.cursors[n])
    && (forall n :: n in st'.cursors && n != s.name ==> n in st.cursors)
    && !offer.FakeOffer?
    && NextOk(s, s.pickers, used, owner.token, req, now, CursorOf(st.cursors, s),
              if offer.Offer? then Take(offer.addr) else Refuse, CursorOf(st'.cursors, s))
    && (if offer.Offer?
        then offer.lease == PickedLease(s, owner.token, via, now)
             && st'.leases == st.leases[offer.addr := offer.lease]
        else st'.leases == st.leases)
  }

  ghost predicate DiscoverOk(st: Dhcp, st': Dhcp, owner: Owner, req: Option<Addr>, vias: seq<Addr>,
                             now: int, offer: Offer)
  {
    var (sn, via) := SubnetFor(st.subnets, vias);
    match ReservationFor(st.reservations, sn, owner, req)
    case None => SubnetOk(st, st', sn, via, owner, req, now, offer)
    case Some(a) =>
      if a !in st.leases then
        var l := Lease(owner, now + 60, Offered, None);
        && offer == Offer(a, l)
        && st' == if sn.Some? && sn.value.proxy then st else st.(leases := st.leases[a := l])
      else if st.leases[a].owner == owner || Expired(st.leases[a], now) then
        var l := st.leases[a].(owner := owner, expire := now + 60);
        offer == Offer(a, l) && st' == st.(leases := st.leases[a := l])
      else SubnetOk(st, st', sn, via, owner, req, now, offer)
  }
}
