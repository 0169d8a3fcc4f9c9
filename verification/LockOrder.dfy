/**
 The order in which a transaction takes and gives back its store locks
 (backend/dataTracker.go, lockEnts).  A store is identified with the rank of its name in
 name order.  The source sorts the requested names in reverse, locks each name once, and the
 unlocker walks the same list backwards, unlocking each name it still finds in its table.
 */
module LockOrder {
  import opened Sequences

  type Name = nat

  predicate Descending(s: seq<Name>) {
    forall i, j :: 0 <= i < j < |s| ==> s[i] > s[j]
  }

  predicate WeaklyDescending(s: seq<Name>) {
    forall i, j :: 0 <= i < j < |s| ==> s[i] >= s[j]
  }

  function Insert(n: Name, s: seq<Name>): seq<Name> {
    if s == [] || n > s[0] then [n] + s
    else if n == s[0] then s
    else [s[0]] + Insert(n, s[1..])
  }

  /** The distinct names of a list in descending order. */
  function Plan(ents: seq<Name>): seq<Name> {
    if ents == [] then [] else Insert(ents[0], Plan(ents[1..]))
  }

  lemma {:induction false} InsertOk(n: Name, s: seq<Name>)
    requires Descending(s)
    ensures Descending(Insert(n, s))
    ensures forall x :: x in Insert(n, s) <==> x == n || x in s
  {
    if s != [] && n < s[0] {
      InsertOk(n, s[1..]);
      var rest := Insert(n, s[1..]);
      assert forall x :: x in s <==> x == s[0] || x in s[1..];
      forall j | 0 <= j < |rest| ensures rest[j] < s[0] {
        assert rest[j] in rest;
      }
    } else if s != [] && n > s[0] {
      assert forall j :: 0 <= j < |s| ==> s[j] <= s[0];
    }
  }

  lemma {:induction false} PlanOk(ents: seq<Name>)
    ensures Descending(Plan(ents))
    ensures forall x :: x in Plan(ents) <==> x in ents
  {
    if ents != [] {
      PlanOk(ents[1..]);
      InsertOk(ents[0], Plan(ents[1..]));
      assert forall x :: x in ents <==> x == ents[0] || x in ents[1..];
    }
  }

  lemma HasElement(s: seq<Name>)
    ensures s != [] ==> exists x :: x in s
  {
    assert s != [] ==> s[0] in s;
  }

  /** A descending list is determined by its elements. */
  lemma {:induction false} DescendingUnique(a: seq<Name>, b: seq<Name>)
    requires Descending(a) && Descending(b)
    requires forall x :: x in a <==> x in b
    ensures a == b
  {
    if a == [] {
      HasElement(b);
    } else {
      assert a[0] in a;
      assert a[0] in b && b[0] in b;
      assert b[0] in a;
      assert a[0] == b[0];
      var a', b' := a[1..], b[1..];
      forall x ensures x in a' <==> x in b' {
        assert x in a <==> x == a[0] || x in a';
        assert x in b <==> x == b[0] || x in b';
        assert a[0] !in a' && b[0] !in b';
      }
      DescendingUnique(a', b');
    }
  }

  function Reverse(s: seq<Name>): seq<Name> {
    if s == [] then [] else Reverse(s[1..]) + [s[0]]
  }

  lemma InsertAt(s: seq<Name>, k: nat, x: Name)
    requires WeaklyDescending(s) && k <= |s|
    requires forall i :: 0 <= i < k ==> s[i] >= x
    requires k < |s| ==> s[k] <= x
    ensures WeaklyDescending(s[..k] + [x] + s[k..])
  {
    var t := s[..k] + [x] + s[k..];
    forall i, j | 0 <= i < j < |t| ensures t[i] >= t[j] {
      assert j > k ==> t[j] == s[j - 1] <= x;
      assert i < k ==> t[i] == s[i] >= x;
    }
  }

  lemma InsertAdds(s: seq<Name>, k: nat, x: Name)
    requires k <= |s|
    ensures multiset(s[..k] + [x] + s[k..]) == multiset(s) + multiset{x}
  {
    assert s == s[..k] + s[k..];
  }

  /** A reverse-sorted copy of the list, duplicates included. */
  method SortDescending(ents: seq<Name>) returns (s: seq<Name>)
    ensures WeaklyDescending(s)
    ensures multiset(s) == multiset(ents)
  {
    s := [];
    for i := 0 to |ents|
      invariant WeaklyDescending(s)
      invariant multiset(s) == multiset(ents[..i])
    {
      var k := 0;
      while k < |s| && s[k] >= ents[i]
        invariant 0 <= k <= |s|
        invariant forall x :: 0 <= x < k ==> s[x] >= ents[i]
      {
        k := k + 1;
      }
      assert ents[..i + 1] == ents[..i] + [ents[i]];
      InsertAt(s, k, ents[i]);
      InsertAdds(s, k, ents[i]);
      s := s[..k] + [ents[i]] + s[k..];
    }
    assert ents[..|ents|] == ents;
  }

  /** Which locks are taken, in order: each requested store once, in descending order. */
  method Acquire(ents: seq<Name>) returns (s: seq<Name>, taken: seq<Name>, table: set<Name>)
    ensures WeaklyDescending(s) && multiset(s) == multiset(ents)
    ensures taken == Plan(ents)
    ensures forall x :: x in taken <==> x in s
    ensures table == set x | x in taken
  {
    s := SortDescending(ents);
    taken, table := [], {};
    for i := 0 to |s|
      invariant Descending(taken)
      invariant forall x :: x in taken <==> x in s[..i]
      invariant table == set x | x in taken
    {
      assert s[..i + 1] == s[..i] + [s[i]];
      if s[i] !in table {
        forall k | 0 <= k < |taken| ensures taken[k] > s[i] {
          assert taken[k] in taken;
        }
        taken := taken + [s[i]];
        table := table + {s[i]};
      }
    }
    assert s[..|s|] == s;
    PlanOk(ents);
    forall x ensures x in s <==> x in ents {
      assert multiset(s)[x] == multiset(ents)[x];
    }
    DescendingUnique(taken, Plan(ents));
  }

  lemma {:induction false} ReverseOk(s: seq<Name>)
    ensures |Reverse(s)| == |s|
    ensures forall i :: 0 <= i < |s| ==> Reverse(s)[i] == s[|s| - 1 - i]
  {
    if s != [] {
      ReverseOk(s[1..]);
    }
  }

  /** Which locks are given back: exactly the taken ones, each once, in the opposite order. */
  method Release(ents: seq<Name>) returns (released: seq<Name>)
    ensures released == Reverse(Plan(ents))
    ensures forall x :: x in ents ==> multiset(released)[x] == 1
  {
    var s, taken, table := Acquire(ents);
    released := [];
    var i := |s|;
    while i > 0
      invariant 0 <= i <= |s|
      invariant forall x :: x in released <==> x in s[i..]
      invariant Ascending(released)
      invariant table == set x | x in taken && x !in released
    {
      i := i - 1;
      assert s[i..] == [s[i]] + s[i + 1..];
      if s[i] in table {
        forall k | 0 <= k < |released| ensures released[k] < s[i] {
          assert released[k] in released;
        }
        released := released + [s[i]];
        table := table - {s[i]};
      }
    }
    assert s[0..] == s;
    forall x ensures x in s <==> x in ents {
      assert multiset(s)[x] == multiset(ents)[x];
    }
    ReleasedReverse(ents, released);
  }

  lemma ReverseDescends(s: seq<Name>)
    requires Ascending(s)
    ensures Descending(Reverse(s))
    ensures forall x :: x in Reverse(s) <==> x in s
  {
    ReverseOk(s);
    forall x | x in s ensures x in Reverse(s) {
      var k :| 0 <= k < |s| && s[k] == x;
      assert Reverse(s)[|s| - 1 - k] == x;
    }
  }

  lemma ReverseTwice(s: seq<Name>)
    ensures Reverse(Reverse(s)) == s
  {
    ReverseOk(s);
    ReverseOk(Reverse(s));
  }

  lemma ReleasedReverse(ents: seq<Name>, released: seq<Name>)
    requires forall x :: x in released <==> x in ents
    requires Ascending(released)
    ensures released == Reverse(Plan(ents))
    ensures forall x :: x in ents ==> multiset(released)[x] == 1
  {
    PlanOk(ents);
    ReverseDescends(released);
    DescendingUnique(Reverse(released), Plan(ents));
    ReverseTwice(released);
    forall x | x in ents ensures multiset(released)[x] == 1 {
      OnceInAscending(released, x);
    }
  }

  lemma {:induction false} OnceInAscending(s: seq<Name>, x: Name)
    requires Ascending(s) && x in s
    ensures multiset(s)[x] == 1
  {
    assert s == [s[0]] + s[1..];
    if s[0] == x {
      assert x !in s[1..];
    } else {
      OnceInAscending(s[1..], x);
    }
  }
}
