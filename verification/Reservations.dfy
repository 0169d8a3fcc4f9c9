/**
 Reservations and subnets as they are created, changed and deleted (backend/reservation.go,
 backend/subnet.go).  The invariant: two reservations for the same strategy and token are
 both scoped, to different subnets; and the subnet of a scoped reservation exists and has the
 address strictly inside.
 */
module Reservations {
  import opened DhcpModel
  import opened Wrappers

  datatype Store = Store(reservations: Reservations, subnets: seq<Subnet>)

  /** The first subnet in key order whose CIDR contains the address. */
  function SubnetOf(subnets: seq<Subnet>, a: Addr): (s: Option<Subnet>)
    ensures s.Some? ==> s.value in subnets && s.value.Contains(a)
  {
    if subnets == [] then None
    else if subnets[0].Contains(a) then Some(subnets[0])
    else SubnetOf(subnets[1..], a)
  }

  /** Another reservation for the same owner that the new one may not coexist with. */
  predicate Conflicts(r: Reservation, sn: Option<Subnet>, b: Addr, other: Reservation) {
    && other.owner == r.owner
    && (!r.scoped || !other.scoped || (sn.Some? && sn.value.Contains(b)))
  }

  predicate WellFormed(a: Addr, r: Reservation) {
    GlobalUnicast(a) && r.owner.strategy != "" && r.owner.token != ""
  }

  predicate Accepts(st: Store, a: Addr, r: Reservation) {
    var sn := SubnetOf(st.subnets, a);
    && a !in st.reservations && WellFormed(a, r)
    && (sn.Some? ==> sn.value.InSubnetRange(a))
    && (r.scoped ==> sn.Some?)
    && forall b :: b in st.reservations ==> !Conflicts(r, sn, b, st.reservations[b])
  }

  function Stored(st: Store, a: Addr, r: Reservation): Reservation {
    var sn := SubnetOf(st.subnets, a);
    if r.scoped && sn.Some? then r.(subnet := sn.value.name) else r
  }

  predicate DeleteBlocked(st: Store, s: Subnet) {
    exists a :: a in st.reservations && st.reservations[a].scoped && s.InSubnetRange(a)
  }

  predicate SameIdentity(r: Reservation, old': Reservation) {
    r.owner == old'.owner && r.scoped == old'.scoped && r.subnet == old'.subnet
  }

  predicate SameRange(s: Subnet, old': Subnet) {
    s.name == old'.name && s.strategy == old'.strategy && s.first == old'.first && s.last == old'.last
  }

  datatype Op =
    | CreateReservation(a: Addr, r: Reservation)
    | UpdateReservation(a: Addr, r: Reservation)
    | DeleteReservation(a: Addr)
    | CreateSubnet(at: nat, s: Subnet)
    | UpdateSubnet(i: nat, s: Subnet)
    | DeleteSubnet(i: nat)

  predicate NameTaken(subnets: seq<Subnet>, name: string) {
    exists i :: 0 <= i < |subnets| && subnets[i].name == name
  }

  /** Rejected operations leave the store as it is. */
  function Apply(st: Store, op: Op): Store {
    match op
    case CreateReservation(a, r) =>
      if Accepts(st, a, r) then st.(reservations := st.reservations[a := Stored(st, a, r)]) else st
    case UpdateReservation(a, r) =>
      if a in st.reservations && SameIdentity(r, st.reservations[a])
      then st.(reservations := st.reservations[a := r]) else st
    case DeleteReservation(a) => st.(reservations := st.reservations - {a})
    case CreateSubnet(at, s) =>
      if at <= |st.subnets| && !NameTaken(st.subnets, s.name)
      then st.(subnets := st.subnets[..at] + [s] + st.subnets[at..]) else st
    case UpdateSubnet(i, s) =>
      if i < |st.subnets| && SameRange(s, st.subnets[i]) then st.(subnets := st.subnets[i := s]) else st
    case DeleteSubnet(i) =>
      if i < |st.subnets| && !DeleteBlocked(st, st.subnets[i])
      then st.(subnets := st.subnets[..i] + st.subnets[i + 1..]) else st
  }

  // ----- the invariant -----

  ghost predicate Homed(subnets: seq<Subnet>, a: Addr, r: Reservation) {
    r.scoped ==> exists i :: 0 <= i < |subnets| && subnets[i].name == r.subnet && subnets[i].InSubnetRange(a)
  }

  ghost predicate Compatible(rs: Reservations, a: Addr, b: Addr)
    requires a in rs && b in rs
  {
    rs[a].owner == rs[b].owner ==> rs[a].scoped && rs[b].scoped && rs[a].subnet != rs[b].subnet
  }

  ghost predicate NamesDistinct(subnets: seq<Subnet>) {
    forall i, j :: 0 <= i < j < |subnets| ==> subnets[i].name != subnets[j].name
  }

  ghost predicate Inv(st: Store) {
    && NamesDistinct(st.subnets)
    && (forall a :: a in st.reservations ==> Homed(st.subnets, a, st.reservations[a]))
    && (forall a, b :: a in st.reservations && b in st.reservations && a != b ==> Compatible(st.reservations, a, b))
  }

  /** Different subnets have different names. */
  lemma OtherName(subnets: seq<Subnet>, s: Subnet, i: nat)
    requires NamesDistinct(subnets) && s in subnets && i < |subnets| && subnets[i] != s
    ensures subnets[i].name != s.name
  {
    var j :| 0 <= j < |subnets| && subnets[j] == s;
    assert i < j || j < i;
  }

  lemma CreateKeeps(st: Store, a: Addr, r: Reservation)
    requires Inv(st) && Accepts(st, a, r)
    ensures Inv(Apply(st, CreateReservation(a, r)))
  {
    var sn := SubnetOf(st.subnets, a);
    var rs := st.reservations[a := Stored(st, a, r)];
    if r.scoped {
      var i :| 0 <= i < |st.subnets| && st.subnets[i] == sn.value;
      assert Homed(st.subnets, a, rs[a]);
    }
    forall b | b in st.reservations ensures Compatible(rs, a, b) && Compatible(rs, b, a) {
      var other := st.reservations[b];
      assert !Conflicts(r, sn, b, other);
      if other.owner == r.owner {
        assert Homed(st.subnets, b, other);
        var i :| 0 <= i < |st.subnets| && st.subnets[i].name == other.subnet && st.subnets[i].InSubnetRange(b);
        OtherName(st.subnets, sn.value, i);
      }
    }
  }

  /** The subnet at i lives on, at k, in another list. */
  predicate Survives(subnets: seq<Subnet>, i: nat, subnets': seq<Subnet>, k: int) {
    i < |subnets| && 0 <= k < |subnets'| && SameRange(subnets'[k], subnets[i])
  }

  /** A list of subnets may be replaced by one in which every home survives. */
  lemma HomesKept(st: Store, subnets': seq<Subnet>, at: nat -> int)
    requires Inv(st) && NamesDistinct(subnets')
    requires forall i: nat :: i < |st.subnets| && DeleteBlocked(st, st.subnets[i]) ==>
                                Survives(st.subnets, i, subnets', at(i))
    ensures Inv(st.(subnets := subnets'))
  {
    forall a | a in st.reservations ensures Homed(subnets', a, st.reservations[a]) {
      var r := st.reservations[a];
      assert Homed(st.subnets, a, r);
      if r.scoped {
        var i :| 0 <= i < |st.subnets| && st.subnets[i].name == r.subnet && st.subnets[i].InSubnetRange(a);
        assert DeleteBlocked(st, st.subnets[i]);
        assert Survives(st.subnets, i, subnets', at(i));
      }
    }
  }

  lemma AddSubnetKeeps(st: Store, at: nat, s: Subnet)
    requires Inv(st) && at <= |st.subnets| && !NameTaken(st.subnets, s.name)
    ensures Inv(st.(subnets := st.subnets[..at] + [s] + st.subnets[at..]))
  {
    var subnets' := st.subnets[..at] + [s] + st.subnets[at..];
    forall i, j | 0 <= i < j < |subnets'| ensures subnets'[i].name != subnets'[j].name {
      assert i != at ==> subnets'[i] == st.subnets[if i < at then i else i - 1];
      assert j != at ==> subnets'[j] == st.subnets[if j < at then j else j - 1];
    }
    HomesKept(st, subnets', i => if i < at then i else i + 1);
  }

  lemma ChangeSubnetKeeps(st: Store, k: nat, s: Subnet)
    requires Inv(st) && k < |st.subnets| && SameRange(s, st.subnets[k])
    ensures Inv(st.(subnets := st.subnets[k := s]))
  {
    HomesKept(st, st.subnets[k := s], i => i);
  }

  lemma DropSubnetKeeps(st: Store, k: nat)
    requires Inv(st) && k < |st.subnets| && !DeleteBlocked(st, st.subnets[k])
    ensures Inv(st.(subnets := st.subnets[..k] + st.subnets[k + 1..]))
  {
    var subnets' := st.subnets[..k] + st.subnets[k + 1..];
    forall i, j | 0 <= i < j < |subnets'| ensures subnets'[i].name != subnets'[j].name {
      assert subnets'[i] == st.subnets[if i < k then i else i + 1];
      assert subnets'[j] == st.subnets[if j < k then j else j + 1];
    }
    HomesKept(st, subnets', i => if i < k then i else i - 1);
  }

  lemma ApplyKeeps(st: Store, op: Op)
    requires Inv(st)
    ensures Inv(Apply(st, op))
  {
    match op
    case CreateReservation(a, r) =>
      if Accepts(st, a, r) {
        CreateKeeps(st, a, r);
      }
    case UpdateReservation(a, r) =>
      if a in st.reservations && SameIdentity(r, st.reservations[a]) {
        var rs := st.reservations[a := r];
        forall b, c | b in rs && c in rs && b != c ensures Compatible(rs, b, c) {
          assert Compatible(st.reservations, b, c);
        }
        assert Homed(st.subnets, a, st.reservations[a]);
      }
    case DeleteReservation(a) =>
      var rs := st.reservations - {a};
      forall b, c | b in rs && c in rs && b != c ensures Compatible(rs, b, c) {
        assert Compatible(st.reservations, b, c);
      }
    case CreateSubnet(at, s) =>
      if at <= |st.subnets| && !NameTaken(st.subnets, s.name) {
        AddSubnetKeeps(st, at, s);
      }
    case UpdateSubnet(i, s) =>
      if i < |st.subnets| && SameRange(s, st.subnets[i]) {
        ChangeSubnetKeeps(st, i, s);
      }
    case DeleteSubnet(i) =>
      if i < |st.subnets| && !DeleteBlocked(st, st.subnets[i]) {
        DropSubnetKeeps(st, i);
      }
  }

  function ApplyAll(st: Store, ops: seq<Op>): Store
    decreases ops
  {
    if ops == [] then st else ApplyAll(Apply(st, ops[0]), ops[1..])
  }

  lemma {:induction false} ApplyAllKeeps(st: Store, ops: seq<Op>)
    requires Inv(st)
    ensures Inv(ApplyAll(st, ops))
    decreases ops
  {
    if ops != [] {
      ApplyKeeps(st, ops[0]);
      ApplyAllKeeps(Apply(st, ops[0]), ops[1..]);
    }
  }

  /** Along every run from an empty store, reservations of one owner are scoped to different subnets. */
  lemma ReservationsStayApart(ops: seq<Op>, a: Addr, b: Addr)
    requires var st := ApplyAll(Store(map[], []), ops);
             a in st.reservations && b in st.reservations && a != b
    ensures Compatible(ApplyAll(Store(map[], []), ops).reservations, a, b)
  {
    ApplyAllKeeps(Store(map[], []), ops);
  }

  /** And every scoped reservation has its subnet, with the address strictly inside. */
  lemma ReservationsAreHomed(ops: seq<Op>, a: Addr)
    requires a in ApplyAll(Store(map[], []), ops).reservations
    ensures var st := ApplyAll(Store(map[], []), ops); Homed(st.subnets, a, st.reservations[a])
  {
    ApplyAllKeeps(Store(map[], []), ops);
  }

  // ----- the imperative form -----

  class ReservationStore {
    var reservations: Reservations
    var subnets: seq<Subnet>

    ghost function State(): Store
      reads this
    {
      Store(reservations, subnets)
    }

    /** Find the subnet, check the address and every other reservation, and store the result. */
    method Create(a: Addr, r: Reservation) returns (ok: bool)
      modifies this`reservations
      ensures ok <==> Accepts(old(State()), a, r)
      ensures State() == Apply(old(State()), CreateReservation(a, r))
    {
      if a in reservations {
        return false;
      }
      ok := WellFormed(a, r);
      var res := r;
      var sn: Option<Subnet> := None;
      for i := 0 to |subnets|
        invariant SubnetOf(subnets, a) == SubnetOf(subnets[i..], a)
        invariant sn == None && res == r && ok == WellFormed(a, r)
      {
        if !subnets[i].Contains(a) {
          continue;
        }
        if !subnets[i].InSubnetRange(a) {
          ok := false;
        }
        sn := Some(subnets[i]);
        if r.scoped {
          res := res.(subnet := subnets[i].name);
        }
        break;
      }
      assert sn == SubnetOf(subnets, a);
      if r.scoped && sn.None? {
        return false;
      }
      var fits := ok;
      var rest := reservations.Keys;
      while rest != {}
        invariant rest <= reservations.Keys
        invariant ok <==> fits && forall b :: b in reservations && b !in rest ==> !Conflicts(r, sn, b, reservations[b])
        decreases rest
      {
        var b :| b in rest;
        rest := rest - {b};
        var other := reservations[b];
        if other.owner != r.owner {
          continue;
        }
        if !r.scoped {
          ok := false;
          continue;
        }
        if !other.scoped {
          ok := false;
          continue;
        }
        if sn.value.Contains(b) {
          ok := false;
        }
      }
      if ok {
        reservations := reservations[a := res];
      }
    }

    /** A subnet goes only when no scoped reservation lies inside it. */
    method RemoveSubnet(i: nat) returns (ok: bool)
      requires i < |subnets|
      modifies this`subnets
      ensures ok <==> !DeleteBlocked(old(State()), old(subnets)[i])
      ensures State() == Apply(old(State()), DeleteSubnet(i))
    {
      ok := true;
      var rest := reservations.Keys;
      while rest != {}
        invariant rest <= reservations.Keys
        invariant ok <==> forall b :: b in reservations && b !in rest ==>
                            !(reservations[b].scoped && subnets[i].InSubnetRange(b))
        decreases rest
      {
        var b :| b in rest;
        rest := rest - {b};
        if reservations[b].scoped && subnets[i].InSubnetRange(b) {
          ok := false;
        }
      }
      if ok {
        subnets := subnets[..i] + subnets[i + 1..];
      }
    }
  }

  // ----- what is accepted -----

  /** The subnet of an address is the first in key order that contains it. */
  lemma {:induction false} FirstSubnet(subnets: seq<Subnet>, a: Addr) returns (i: nat)
    ensures SubnetOf(subnets, a).None? <==> forall k :: 0 <= k < |subnets| ==> !subnets[k].Contains(a)
    ensures SubnetOf(subnets, a).Some? ==>
              i < |subnets| && SubnetOf(subnets, a) == Some(subnets[i]) && forall k :: 0 <= k < i ==> !subnets[k].Contains(a)
  {
    i := 0;
    if subnets != [] && !subnets[0].Contains(a) {
      var j := FirstSubnet(subnets[1..], a);
      i := j + 1;
      assert forall k :: 0 < k < |subnets| ==> subnets[k] == subnets[1..][k - 1];
    }
  }

  /** The reservations that an owner has. */
  ghost function Holding(st: Store, owner: Owner): set<Addr> {
    set b | b in st.reservations && st.reservations[b].owner == owner
  }

  /**
   A reservation is accepted just when its address is free, well formed and not on the edge of its
   subnet, and the owner has none besides; except that an owner may have scoped ones, each in a
   subnet that does not contain the other addresses.
   */
  lemma AcceptedIff(st: Store, a: Addr, r: Reservation)
    ensures var sn := SubnetOf(st.subnets, a);
            Accepts(st, a, r) <==>
              && a !in st.reservations && GlobalUnicast(a) && r.owner.strategy != "" && r.owner.token != ""
              && (sn.Some? ==> sn.value.first < a < sn.value.last)
              && if r.scoped then sn.Some? && forall b :: b in Holding(st, r.owner) ==>
                                                           st.reservations[b].scoped && !sn.value.Contains(b)
                 else Holding(st, r.owner) == {}
  {
    var sn := SubnetOf(st.subnets, a);
    assert forall b :: b in Holding(st, r.owner) <==> b in st.reservations && st.reservations[b].owner == r.owner;
    if Accepts(st, a, r) && !r.scoped {
      forall b | b in Holding(st, r.owner) ensures false {
        assert Conflicts(r, sn, b, st.reservations[b]);
      }
    }
  }

  /** An accepted reservation is stored under its address, scoped ones with the name of their subnet. */
  lemma AcceptedIsStored(st: Store, a: Addr, r: Reservation)
    requires Accepts(st, a, r)
    ensures var st' := Apply(st, CreateReservation(a, r));
            && a in st'.reservations && st'.reservations[a].owner == r.owner && st'.reservations[a].scoped == r.scoped
            && st'.reservations[a].duration == r.duration && st'.subnets == st.subnets
            && (r.scoped ==> st'.reservations[a].subnet == SubnetOf(st.subnets, a).value.name)
            && st'.reservations - {a} == st.reservations
  {
  }

  /** An update goes through just when it leaves owner, scope and subnet alone; a deletion always does. */
  lemma ChangesApply(st: Store, a: Addr, r: Reservation)
    requires a in st.reservations
    ensures var was := st.reservations[a];
            Apply(st, UpdateReservation(a, r)).reservations
            == if r.owner == was.owner && r.scoped == was.scoped && r.subnet == was.subnet
               then st.reservations[a := r] else st.reservations
    ensures a !in Apply(st, DeleteReservation(a)).reservations
    ensures Apply(st, DeleteReservation(a)).reservations[a := st.reservations[a]] == st.reservations
  {
  }

  /**
   A subnet is added just when its name is free, changed just when name, strategy and range stay,
   and deleted just when no scoped reservation lies strictly inside it.
   */
  lemma SubnetsChange(st: Store, i: nat, s: Subnet)
    requires i < |st.subnets|
    ensures Apply(st, CreateSubnet(i, s)).subnets
            == if forall k :: 0 <= k < |st.subnets| ==> st.subnets[k].name != s.name
               then st.subnets[..i] + [s] + st.subnets[i..] else st.subnets
    ensures var was := st.subnets[i];
            Apply(st, UpdateSubnet(i, s)).subnets
            == if s.name == was.name && s.strategy == was.strategy && s.first == was.first && s.last == was.last
               then st.subnets[i := s] else st.subnets
    ensures Apply(st, DeleteSubnet(i)).subnets
            == if forall a :: a in st.reservations && st.reservations[a].scoped ==>
                                !(st.subnets[i].first < a < st.subnets[i].last)
               then st.subnets[..i] + st.subnets[i + 1..] else st.subnets
  {
  }
}
