/**
 The connection cache (backend/conncache.go): which local address last served a remote one.
 It is an array in strictly descending order of remote address, searched by bisection,
 extended by shifting, and compacted in place when lines expire.  The ghost field `table` is
 the plain map that it stands for.
 */
module ConnCache {
  import opened Maps
  import opened Wrappers

  /** A 16-byte address as a number. */
  type Bits = n: nat | n < 0x1_0000_0000_0000_0000_0000_0000_0000_0000

  /** What callers pass: nothing, a slice of no valid length, or an address. */
  datatype Ip = NilIp | Malformed | Ip(bits: Bits)

  datatype Line = Line(local: Bits, remote: Bits, timeout: int)

  datatype Entry = Entry(local: Bits, timeout: int)

  const TTL := 600

  /** The 16-byte copy that is made of an argument. */
  function Key(ip: Ip): Bits {
    if ip.Ip? then ip.bits else 0
  }

  /** The zero address, as IPv6 or as an embedded IPv4 address. */
  predicate Unspecified(ip: Ip) {
    ip.Ip? && (ip.bits == 0 || ip.bits == 0xFFFF_0000_0000)
  }

  ghost predicate Falls(s: seq<Line>, i: nat, j: nat)
    requires i < j < |s|
  {
    s[i].remote > s[j].remote
  }

  ghost predicate Descending(s: seq<Line>) {
    forall i, j :: 0 <= i < j < |s| ==> Falls(s, i, j)
  }

  ghost predicate Holds(m: map<Bits, Entry>, l: Line) {
    l.remote in m && m[l.remote] == Entry(l.local, l.timeout)
  }

  ghost predicate Listed(s: seq<Line>, r: Bits) {
    exists i :: 0 <= i < |s| && s[i].remote == r
  }

  /** The lines are exactly the entries of the map. */
  ghost predicate Agrees(s: seq<Line>, m: map<Bits, Entry>) {
    && (forall i :: 0 <= i < |s| ==> Holds(m, s[i]))
    && (forall r :: r in m ==> Listed(s, r))
  }

  // ----- inserting and renewing a line -----

  ghost predicate PlaceFor(s: seq<Line>, k: nat, r: Bits) {
    && k <= |s|
    && (forall i :: 0 <= i < k ==> s[i].remote > r)
    && (forall i :: k <= i < |s| ==> s[i].remote <= r)
  }

  lemma AbsentAt(s: seq<Line>, m: map<Bits, Entry>, k: nat, r: Bits)
    requires Descending(s) && Agrees(s, m) && PlaceFor(s, k, r)
    ensures r in m <==> k < |s| && s[k].remote == r
  {
    assert r in m ==> Listed(s, r);
    assert k < |s| ==> Holds(m, s[k]);
    forall i | k < i < |s| ensures s[i].remote != r {
      assert Falls(s, k, i);
    }
  }

  /** A new line at place k. */
  function Inserted(s: seq<Line>, k: nat, l: Line): seq<Line>
    requires k <= |s|
  {
    s[..k] + [l] + s[k..]
  }

  lemma InsertDescends(s: seq<Line>, k: nat, l: Line)
    requires Descending(s) && PlaceFor(s, k, l.remote) && (k < |s| ==> s[k].remote != l.remote)
    ensures Descending(Inserted(s, k, l))
  {
    var t := Inserted(s, k, l);
    forall i, j | 0 <= i < j < |t| ensures Falls(t, i, j) {
      if i != k && j != k {
        assert Falls(s, if i < k then i else i - 1, if j < k then j else j - 1);
      } else if i == k && k + 1 < j {
        assert Falls(s, k, j - 1);
      }
    }
  }

  lemma InsertAgrees(s: seq<Line>, m: map<Bits, Entry>, k: nat, l: Line)
    requires Agrees(s, m) && k <= |s| && l.remote !in m
    ensures Agrees(Inserted(s, k, l), m[l.remote := Entry(l.local, l.timeout)])
  {
    var t, m' := Inserted(s, k, l), m[l.remote := Entry(l.local, l.timeout)];
    forall i | 0 <= i < |t| ensures Holds(m', t[i]) {
      if i != k {
        assert Holds(m, s[if i < k then i else i - 1]);
      }
    }
    forall r | r in m' ensures Listed(t, r) {
      if r == l.remote {
        assert t[k].remote == r;
      } else {
        assert Listed(s, r);
        var i :| 0 <= i < |s| && s[i].remote == r;
        assert t[if i < k then i else i + 1].remote == r;
      }
    }
  }

  lemma RenewKeeps(s: seq<Line>, m: map<Bits, Entry>, k: nat, l: Line)
    requires Descending(s) && Agrees(s, m) && k < |s| && s[k].remote == l.remote
    ensures Descending(s[k := l])
    ensures Agrees(s[k := l], m[l.remote := Entry(l.local, l.timeout)])
  {
    var t, m' := s[k := l], m[l.remote := Entry(l.local, l.timeout)];
    forall i, j | 0 <= i < j < |t| ensures Falls(t, i, j) {
      assert Falls(s, i, j);
    }
    forall i | 0 <= i < |t| ensures Holds(m', t[i]) {
      assert Holds(m, s[i]);
      assert i < k ==> Falls(s, i, k);
      assert k < i ==> Falls(s, k, i);
    }
    forall r | r in m' ensures Listed(t, r) {
      assert Holds(m, s[k]);
      assert Listed(s, r);
      var i :| 0 <= i < |s| && s[i].remote == r;
      assert t[i].remote == r;
    }
  }

  // ----- collecting expired lines -----

  /** The lines among the first hi that have not expired, in order. */
  ghost function Live(s: seq<Line>, deadline: int, hi: nat): seq<Line>
    requires hi <= |s|
  {
    if hi == 0 then []
    else Live(s, deadline, hi - 1) + if s[hi - 1].timeout < deadline then [] else [s[hi - 1]]
  }

  ghost predicate NoneExpired(s: seq<Line>, deadline: int, lo: int, hi: int)
    requires 0 <= lo && hi <= |s|
  {
    forall i :: lo <= i < hi ==> s[i].timeout >= deadline
  }

  lemma {:induction false} LiveStretch(s: seq<Line>, deadline: int, lo: nat, hi: nat)
    requires lo <= hi <= |s| && NoneExpired(s, deadline, lo, hi)
    ensures Live(s, deadline, hi) == Live(s, deadline, lo) + s[lo..hi]
  {
    if lo < hi {
      LiveStretch(s, deadline, lo, hi - 1);
      assert s[lo..hi] == s[lo..hi - 1] + [s[hi - 1]];
    }
  }

  /** The k-th index to remove, or the end. */
  function Next(rem: seq<nat>, k: nat, n: nat): nat {
    if k < |rem| then rem[k] else n
  }

  /** rem[k] is the first expired line at or after the place behind rem[k-1]. */
  ghost predicate Gap(s: seq<Line>, deadline: int, rem: seq<nat>, k: nat, n: nat)
    requires n <= |s| && k <= |rem|
  {
    var lo := if k == 0 then 0 else rem[k - 1] + 1;
    && lo <= Next(rem, k, n) <= n
    && NoneExpired(s, deadline, lo, Next(rem, k, n))
    && (k < |rem| ==> rem[k] < n && s[rem[k]].timeout < deadline)
  }

  /** rem lists the indices below n of the expired lines, in order. */
  ghost predicate Collected(s: seq<Line>, deadline: int, rem: seq<nat>, n: nat)
    requires n <= |s|
  {
    forall k :: 0 <= k <= |rem| ==> Gap(s, deadline, rem, k, n)
  }

  lemma CollectMore(s: seq<Line>, deadline: int, rem: seq<nat>, n: nat)
    requires n < |s| && Collected(s, deadline, rem, n)
    ensures Collected(s, deadline, if s[n].timeout < deadline then rem + [n] else rem, n + 1)
  {
    var top := n + 1;
    if s[n].timeout < deadline {
      var more := rem + [n];
      forall k | 0 <= k <= |more| ensures Gap(s, deadline, more, k, top) {
        assert Gap(s, deadline, rem, if k <= |rem| then k else |rem|, n);
      }
    } else {
      forall k | 0 <= k <= |rem| ensures Gap(s, deadline, rem, k, top) {
        assert Gap(s, deadline, rem, k, n);
      }
    }
  }

  /** Removing rem[k] moves the following stretch up behind the lines that stay. */
  lemma LiveStep(s: seq<Line>, deadline: int, rem: seq<nat>, k: nat)
    requires k < |rem| && Collected(s, deadline, rem, |s|)
    ensures rem[k] < Next(rem, k + 1, |s|) <= |s|
    ensures Live(s, deadline, Next(rem, k + 1, |s|))
         == Live(s, deadline, rem[k]) + s[rem[k] + 1..Next(rem, k + 1, |s|)]
  {
    assert Gap(s, deadline, rem, k, |s|) && Gap(s, deadline, rem, k + 1, |s|);
    LiveStretch(s, deadline, rem[k] + 1, Next(rem, k + 1, |s|));
    assert Live(s, deadline, rem[k] + 1) == Live(s, deadline, rem[k]);
  }

  function MovedDown(s: seq<Line>, idx: nat, i: nat, final: nat): seq<Line>
    requires i <= idx < final <= |s|
  {
    s[..idx - i] + s[idx + 1..final] + s[final - 1 - i..]
  }

  /** With i lines removed, the lines below f are filtered and the rest is as it was. */
  ghost predicate Closing(cur: seq<Line>, s: seq<Line>, deadline: int, f: nat, i: nat) {
    && i <= f <= |s| == |cur|
    && cur[..f - i] == Live(s, deadline, f)
    && cur[f..] == s[f..]
  }

  lemma SameSlice(a: seq<Line>, b: seq<Line>, lo: nat, x: nat, y: nat)
    requires lo <= x <= y <= |a| == |b| && a[lo..] == b[lo..]
    ensures a[x..y] == b[x..y]
  {
    forall k | x <= k < y ensures a[k] == b[k] {
      assert a[k] == a[lo..][k - lo];
    }
  }

  lemma ClosingStep(cur: seq<Line>, s: seq<Line>, deadline: int, idx: nat, i: nat, final: nat)
    requires Closing(cur, s, deadline, idx, i) && idx < final <= |s|
    requires Live(s, deadline, final) == Live(s, deadline, idx) + s[idx + 1..final]
    ensures Closing(MovedDown(cur, idx, i, final), s, deadline, final, i + 1)
  {
    var t := MovedDown(cur, idx, i, final);
    SameSlice(cur, s, idx, idx + 1, final);
    SameSlice(cur, s, idx, final, |s|);
    assert t[..final - 1 - i] == cur[..idx - i] + cur[idx + 1..final];
    assert t[final..] == cur[final - 1 - i..][i + 1..] == cur[final..|s|];
  }

  /** Nothing has to move behind a gap at the very end. */
  lemma ClosingLast(cur: seq<Line>, s: seq<Line>, deadline: int, i: nat)
    requires |s| > 0 && Closing(cur, s, deadline, |s| - 1, i)
    requires Live(s, deadline, |s|) == Live(s, deadline, |s| - 1)
    ensures Closing(cur, s, deadline, |s|, i + 1)
  {
  }

  lemma NothingExpired(s: seq<Line>, deadline: int)
    requires Collected(s, deadline, [], |s|)
    ensures Live(s, deadline, |s|) == s
  {
    assert Gap(s, deadline, [], 0, |s|);
    LiveStretch(s, deadline, 0, |s|);
  }

  ghost function Unexpired(m: map<Bits, Entry>, deadline: int): map<Bits, Entry> {
    Tabulate((set r | r in m && m[r].timeout >= deadline), r requires r in m => m[r])
  }

  /** What filtering keeps: a line stays just when it has not expired, in the same order. */
  lemma {:induction false} LiveOk(s: seq<Line>, deadline: int, hi: nat)
    requires hi <= |s| && Descending(s)
    ensures Descending(Live(s, deadline, hi))
    ensures forall l :: l in Live(s, deadline, hi) <==> l in s[..hi] && l.timeout >= deadline
  {
    if hi > 0 {
      LiveOk(s, deadline, hi - 1);
      assert s[..hi] == s[..hi - 1] + [s[hi - 1]];
      var t, t' := Live(s, deadline, hi - 1), Live(s, deadline, hi);
      forall i, j | 0 <= i < j < |t'| ensures Falls(t', i, j) {
        if j < |t| {
          assert Falls(t, i, j);
        } else {
          assert t[i] in t;
          var k :| 0 <= k < hi - 1 && s[k] == t[i];
          assert Falls(s, k, hi - 1);
        }
      }
    }
  }

  lemma LiveHolds(s: seq<Line>, m: map<Bits, Entry>, deadline: int, l: Line)
    requires Descending(s) && Agrees(s, m) && l in Live(s, deadline, |s|)
    ensures Holds(Unexpired(m, deadline), l)
  {
    LiveOk(s, deadline, |s|);
    var k :| 0 <= k < |s| && s[k] == l;
    assert Holds(m, s[k]);
  }

  lemma LiveListed(s: seq<Line>, m: map<Bits, Entry>, deadline: int, r: Bits)
    requires Descending(s) && Agrees(s, m) && r in Unexpired(m, deadline)
    ensures Listed(Live(s, deadline, |s|), r)
  {
    LiveOk(s, deadline, |s|);
    assert Listed(s, r);
    var k :| 0 <= k < |s| && s[k].remote == r;
    assert Holds(m, s[k]);
    var t := Live(s, deadline, |s|);
    assert s[k] in s[..|s|];
    assert s[k] in t;
    var i :| 0 <= i < |t| && t[i] == s[k];
    assert t[i].remote == r;
  }

  lemma LiveAgrees(s: seq<Line>, m: map<Bits, Entry>, deadline: int)
    requires Descending(s) && Agrees(s, m)
    ensures Descending(Live(s, deadline, |s|))
    ensures Agrees(Live(s, deadline, |s|), Unexpired(m, deadline))
  {
    LiveOk(s, deadline, |s|);
    var t := Live(s, deadline, |s|);
    forall i | 0 <= i < |t| ensures Holds(Unexpired(m, deadline), t[i]) {
      LiveHolds(s, m, deadline, t[i]);
    }
    forall r | r in Unexpired(m, deadline) ensures Listed(t, r) {
      LiveListed(s, m, deadline, r);
    }
  }

  // ----- the operations on the map -----

  datatype Op =
    | Add(la: Ip, ra: Ip, now: int)
    | Look(ra: Ip, now: int)
    | Collect(now: int)

  ghost function Apply(m: map<Bits, Entry>, op: Op): map<Bits, Entry> {
    match op
    case Add(la, ra, now) =>
      if la.NilIp? || ra.NilIp? then m else m[Key(ra) := Entry(Key(la), now + TTL)]
    case Look(ra, now) =>
      if Found(m, ra) then m[Key(ra) := Entry(m[Key(ra)].local, now + TTL)] else m
    case Collect(now) => Unexpired(m, now)
  }

  ghost predicate Found(m: map<Bits, Entry>, ra: Ip) {
    !ra.NilIp? && !Unspecified(ra) && Key(ra) in m
  }

  class AddrCache {
    var buf: array<Line>
    var n: nat
    ghost var table: map<Bits, Entry>

    ghost predicate Valid()
      reads this, buf
    {
      n <= buf.Length && Descending(buf[..n]) && Agrees(buf[..n], table)
    }

    constructor ()
      ensures Valid() && table == map[] && fresh(buf)
    {
      buf := new Line[0];
      n := 0;
      table := map[];
    }

    /** Bisection for the first line whose remote address is not above the key. */
    method Search(key: Bits) returns (k: nat)
      requires Valid()
      ensures PlaceFor(buf[..n], k, key)
    {
      var i, j := 0, n;
      while i < j
        invariant 0 <= i <= j <= n
        invariant forall x :: 0 <= x < i ==> buf[x].remote > key
        invariant forall x :: j <= x < n ==> buf[x].remote <= key
      {
        var h := (i + j) / 2;
        forall x | 0 <= x < n && x != h
          ensures if x < h then buf[x].remote > buf[h].remote else buf[h].remote > buf[x].remote
        {
          assert if x < h then Falls(buf[..n], x, h) else Falls(buf[..n], h, x);
        }
        if buf[h].remote > key {
          i := h + 1;
        } else {
          j := h;
        }
      }
      k := i;
    }

    /** Room for one more line at the end. */
    method Grow()
      requires n <= buf.Length
      modifies this`buf
      ensures n < buf.Length && buf[..n] == old(buf[..n])
      ensures buf == old(buf) || fresh(buf)
    {
      if n == buf.Length {
        var bigger := new Line[2 * n + 1];
        forall i | 0 <= i < n {
          bigger[i] := buf[i];
        }
        buf := bigger;
      }
    }

    /** Append, shift the tail by one, and fill the hole. */
    method InsertLine(k: nat, l: Line)
      requires k <= n <= buf.Length
      modifies this`buf, this`n, buf
      ensures n == old(n) + 1 <= buf.Length && buf[..n] == Inserted(old(buf[..n]), k, l)
      ensures buf == old(buf) || fresh(buf)
    {
      ghost var s := buf[..n];
      Grow();
      ShiftUp(k);
      ghost var tail := buf[k + 1..n + 1];
      buf[k] := l;
      n := n + 1;
      assert buf[..n] == buf[..k] + [l] + buf[k + 1..n];
      assert buf[k + 1..n] == tail;
    }

    method ShiftUp(k: nat)
      requires k <= n < buf.Length
      modifies buf
      ensures buf[..k] == old(buf[..n])[..k] && buf[k + 1..n + 1] == old(buf[..n])[k..]
    {
      forall i | k < i < n + 1 {
        buf[i] := buf[i - 1];
      }
    }

    /** Another local address or timeout for a remote address that is listed. */
    method Renew(k: nat, l: Line)
      requires Valid() && k < n && buf[k].remote == l.remote
      modifies this`table, buf
      ensures Valid() && table == old(table)[l.remote := Entry(l.local, l.timeout)] && buf[k] == l
    {
      ghost var s := buf[..n];
      RenewKeeps(s, table, k, l);
      buf[k] := l;
      table := table[l.remote := Entry(l.local, l.timeout)];
      assert buf[..n] == s[k := l];
    }

    method AddToCache(la: Ip, ra: Ip, now: int)
      requires Valid()
      modifies this, buf
      ensures Valid() && (buf == old(buf) || fresh(buf))
      ensures table == Apply(old(table), Add(la, ra, now))
    {
      if la.NilIp? || ra.NilIp? {
        return;
      }
      var l := Line(Key(la), Key(ra), now + TTL);
      var k := Search(l.remote);
      if k < n && buf[k].remote == l.remote {
        Renew(k, l);
      } else {
        AbsentAt(buf[..n], table, k, l.remote);
        InsertDescends(buf[..n], k, l);
        InsertAgrees(buf[..n], table, k, l);
        InsertLine(k, l);
        table := table[l.remote := Entry(l.local, l.timeout)];
      }
    }

    /** The local address for a remote one, whose line then lives longer. */
    method LocalFor(ra: Ip, now: int) returns (local: Option<Bits>)
      requires Valid()
      modifies this`table, buf
      ensures Valid()
      ensures table == Apply(old(table), Look(ra, now))
      ensures local == if Found(old(table), ra) then Some(old(table)[Key(ra)].local) else None
    {
      if ra.NilIp? || Unspecified(ra) {
        return None;
      }
      var k := Search(Key(ra));
      AbsentAt(buf[..n], table, k, Key(ra));
      if k < n && buf[k].remote == Key(ra) {
        assert Holds(table, buf[..n][k]);
        Renew(k, buf[k].(timeout := now + TTL));
        return Some(buf[k].local);
      }
      return None;
    }

    method ExpiredIndices(deadline: int) returns (rem: seq<nat>)
      requires n <= buf.Length
      ensures Collected(buf[..n], deadline, rem, n)
    {
      rem := [];
      for i := 0 to n
        invariant Collected(buf[..n], deadline, rem, i)
      {
        CollectMore(buf[..n], deadline, rem, i);
        if buf[i].timeout < deadline {
          rem := rem + [i];
        }
      }
    }

    /** One round of the collector: gather the expired indices, then close all gaps in place. */
    method CollectExpired(deadline: int)
      requires Valid()
      modifies this, buf
      ensures Valid() && buf == old(buf)
      ensures buf[..n] == Live(old(buf[..n]), deadline, old(n))
      ensures table == Apply(old(table), Collect(deadline))
    {
      ghost var s := buf[..n];
      var rem := ExpiredIndices(deadline);
      LiveAgrees(s, table, deadline);
      if |rem| > 0 {
        CloseGaps(s, rem, deadline);
        n := n - |rem|;
      } else {
        NothingExpired(s, deadline);
      }
      table := Unexpired(table, deadline);
    }

    method CloseGaps(ghost s: seq<Line>, rem: seq<nat>, ghost deadline: int)
      requires n <= buf.Length && s == buf[..n]
      requires |rem| > 0 && Collected(s, deadline, rem, n)
      modifies buf
      ensures |rem| <= n && buf[..n - |rem|] == Live(s, deadline, n)
    {
      assert Gap(s, deadline, rem, 0, n);
      LiveStretch(s, deadline, 0, rem[0]);
      for i := 0 to |rem|
        invariant Closing(buf[..n], s, deadline, Next(rem, i, n), i)
      {
        CloseGap(s, rem, deadline, i);
      }
    }

    method CloseGap(ghost s: seq<Line>, rem: seq<nat>, ghost deadline: int, i: nat)
      requires n <= buf.Length && n == |s| && i < |rem| && Collected(s, deadline, rem, n)
      requires Closing(buf[..n], s, deadline, rem[i], i)
      modifies buf
      ensures Closing(buf[..n], s, deadline, Next(rem, i + 1, n), i + 1)
    {
      var idx := rem[i];
      LiveStep(s, deadline, rem, i);
      if idx == n - 1 {
        ClosingLast(buf[..n], s, deadline, i);
        return;
      }
      var final := if i != |rem| - 1 then rem[i + 1] else n;
      ClosingStep(buf[..n], s, deadline, idx, i, final);
      CopyDown(idx, i, final);
    }

    /** The lines between two gaps move down by the number of gaps before them. */
    method CopyDown(idx: nat, i: nat, final: nat)
      requires i <= idx < final <= n <= buf.Length
      modifies buf
      ensures buf[..n] == MovedDown(old(buf[..n]), idx, i, final)
    {
      forall k | idx - i <= k < final - 1 - i {
        buf[k] := buf[k + 1 + i];
      }
    }
  }

  // ----- what the cache promises over whole runs -----

  ghost function ApplyAll(m: map<Bits, Entry>, ops: seq<Op>): map<Bits, Entry> {
    if ops == [] then m else Apply(ApplyAll(m, ops[..|ops| - 1]), ops[|ops| - 1])
  }

  predicate Adds(op: Op, r: Bits) {
    op.Add? && !op.la.NilIp? && !op.ra.NilIp? && Key(op.ra) == r
  }

  /** The local address that was last added for a remote one. */
  function LastAdded(ops: seq<Op>, r: Bits): Option<Bits> {
    if ops == [] then None
    else if Adds(ops[|ops| - 1], r) then Some(Key(ops[|ops| - 1].la))
    else LastAdded(ops[..|ops| - 1], r)
  }

  /** Whatever the cache answers for a remote address is what was last added for it. */
  lemma {:induction false} AnswersAreLatest(ops: seq<Op>, r: Bits)
    ensures var m := ApplyAll(map[], ops); r in m ==> LastAdded(ops, r) == Some(m[r].local)
  {
    if ops != [] {
      AnswersAreLatest(ops[..|ops| - 1], r);
    }
  }

  /** An entry outlives every collection that is not later than its timeout. */
  lemma {:induction false} RecentEntriesStay(m: map<Bits, Entry>, ops: seq<Op>, r: Bits, t: int)
    requires r in m && m[r].timeout >= t
    requires forall i :: 0 <= i < |ops| ==> if ops[i].Collect? then ops[i].now <= t else ops[i].now + TTL >= t
    ensures r in ApplyAll(m, ops) && ApplyAll(m, ops)[r].timeout >= t
  {
    if ops != [] {
      RecentEntriesStay(m, ops[..|ops| - 1], r, t);
    }
  }

  /** The step gives or renews the entry for a remote address. */
  ghost predicate Uses(m: map<Bits, Entry>, op: Op, r: Bits) {
    Adds(op, r) || (op.Look? && Found(m, op.ra) && Key(op.ra) == r)
  }

  /**
   What is added is found: for ten minutes after an address was added or found, a lookup answers it,
   with the local address last added, whatever else happens and however often the cache is collected.
   */
  lemma {:induction false} UsedIsFound(m: map<Bits, Entry>, op: Op, ops: seq<Op>, ra: Ip)
    requires ra.Ip? && ra.bits != 0 && ra.bits != 0xFFFF_0000_0000 && Uses(m, op, ra.bits)
    requires forall i :: 0 <= i < |ops| ==> if ops[i].Collect? then ops[i].now <= op.now + 600 else ops[i].now >= op.now
    ensures var m' := ApplyAll(Apply(m, op), ops);
            && Found(m', ra)
            && ((forall i :: 0 <= i < |ops| ==> !Adds(ops[i], ra.bits)) ==>
                  m'[ra.bits].local == if op.Add? then Key(op.la) else m[ra.bits].local)
  {
    RecentEntriesStay(Apply(m, op), ops, ra.bits, op.now + 600);
    if forall i :: 0 <= i < |ops| ==> !Adds(ops[i], ra.bits) {
      LocalStays(Apply(m, op), ops, ra.bits);
    }
  }

  lemma {:induction false} LocalStays(m: map<Bits, Entry>, ops: seq<Op>, r: Bits)
    requires r in m && forall i :: 0 <= i < |ops| ==> !Adds(ops[i], r)
    ensures r in ApplyAll(m, ops) ==> ApplyAll(m, ops)[r].local == m[r].local
  {
    if ops != [] {
      LocalStays(m, ops[..|ops| - 1], r);
    }
  }

  /** And what has not been used for longer is dropped by the next collection. */
  lemma StaleIsDropped(m: map<Bits, Entry>, now: int, r: Bits)
    ensures r in Apply(m, Collect(now)) <==> r in m && m[r].timeout >= now
    ensures r in Apply(m, Collect(now)) ==> Apply(m, Collect(now))[r] == m[r]
  {
  }

  /** The zero addresses are never found. */
  lemma ZeroIsNotFound(m: map<Bits, Entry>)
    ensures !Found(m, Ip(0)) && !Found(m, Ip(0xFFFF_0000_0000)) && !Found(m, NilIp)
  {
  }

  /** A slice of no valid length counts as the zero address. */
  lemma MalformedIsZero(m: map<Bits, Entry>, now: int)
    ensures Apply(m, Add(Malformed, Malformed, now)) == m[0 := Entry(0, now + 600)]
    ensures Found(m, Malformed) <==> 0 in m
  {
  }
}
