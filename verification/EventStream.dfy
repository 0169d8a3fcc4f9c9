/**
 The client's event stream in its imperative form (api/event_stream.go): tables of sorted
 handle lists searched by bisection, proved against the sets of the state machine.
 */
module EventStream {
  import opened Maps
  import opened Sequences
  import opened WireText
  import opened Subscriptions

  function HandleSet(s: seq<Handle>): set<Handle> {
    set h | h in s
  }

  ghost function SetsOf(m: map<string, seq<Handle>>): (subs: Subs)
    ensures subs.Keys == m.Keys
    ensures forall evt :: evt in m ==> subs[evt] == HandleSet(m[evt])
  {
    Tabulate(m.Keys, evt requires evt in m => HandleSet(m[evt]))
  }

  lemma SubscribeNext(subs: Subs, up: bool, h: Handle, evt: string, events: seq<string>)
    ensures SubscribeAll(subs, up, h, [evt] + events)
         == if Has(subs, evt, h) then SubscribeAll(subs, up, h, events)
            else if evt !in subs && !up then (subs, [])
            else
              var more := SubscribeAll(Adding(subs, evt, h), up, h, events);
              (more.0, if evt in subs then more.1 else [evt] + more.1)
  {
    assert ([evt] + events)[1..] == events;
  }

  lemma SetsOfUpdate(m: map<string, seq<Handle>>, evt: string, s: seq<Handle>)
    ensures SetsOf(m[evt := s]) == SetsOf(m)[evt := HandleSet(s)]
  {
  }

  /** Where a handle is, or would go. */
  method Place(s: seq<Handle>, h: Handle) returns (k: nat)
    requires Ascending(s)
    ensures k <= |s|
    ensures forall i :: 0 <= i < k ==> s[i] < h
    ensures forall i :: k <= i < |s| ==> s[i] >= h
  {
    var i, j := 0, |s|;
    while i < j
      invariant 0 <= i <= j <= |s|
      invariant forall x :: 0 <= x < i ==> s[x] < h
      invariant forall x :: j <= x < |s| ==> s[x] >= h
    {
      var m := (i + j) / 2;
      if s[m] >= h {
        j := m;
      } else {
        i := m + 1;
      }
    }
    k := i;
  }

  method Insert(s: seq<Handle>, h: Handle) returns (t: seq<Handle>, added: bool)
    requires Ascending(s)
    ensures Ascending(t) && HandleSet(t) == HandleSet(s) + {h}
    ensures added <==> h !in s
    ensures !added ==> t == s
  {
    var k := Place(s, h);
    if k == |s| {
      t, added := s + [h], true;
    } else if s[k] == h {
      t, added := s, false;
    } else {
      t, added := s[..k] + [h] + s[k..], true;
      assert s == s[..k] + s[k..];
    }
  }

  method Remove(s: seq<Handle>, h: Handle) returns (t: seq<Handle>, removed: bool)
    requires Ascending(s)
    ensures Ascending(t) && HandleSet(t) == HandleSet(s) - {h}
    ensures removed <==> h in s
    ensures !removed ==> t == s
  {
    var k := Place(s, h);
    if k == |s| || s[k] != h {
      t, removed := s, false;
    } else {
      t, removed := s[..k] + s[k + 1..], true;
      assert s == s[..k] + [h] + s[k + 1..];
      assert h !in s[..k] && h !in s[k + 1..];
    }
  }

  class Stream {
    var next: Handle
    var subscriptions: map<string, seq<Handle>>
    var receivers: map<Handle, bool>
    var up: bool
    ghost var used: set<Handle>
    ghost var closed: set<Handle>

    ghost function Model(): Client
      reads this
    {
      Client(next, SetsOf(subscriptions), receivers, used, closed, up)
    }

    ghost predicate Sorted()
      reads this
    {
      forall evt :: evt in subscriptions ==> Ascending(subscriptions[evt])
    }

    /** A channel may be closed once only. */
    method CloseChannel(h: Handle)
      requires h !in closed
      modifies this`closed
      ensures closed == old(closed) + {h}
    {
      closed := closed + {h};
    }

    /** Enter the handle in every list, and name the events that the server has to be told about. */
    method Subscribe(h: Handle, events: seq<string>) returns (ok: bool, names: seq<string>)
      requires Sorted()
      modifies this`subscriptions
      ensures Sorted()
      ensures ok <==> Open(old(Model()), h) && (up || forall i :: 0 <= i < |events| ==> events[i] in old(subscriptions))
      ensures if Open(old(Model()), h)
              then (SetsOf(subscriptions), names) == SubscribeAll(old(SetsOf(subscriptions)), up, h, events)
              else subscriptions == old(subscriptions) && names == []
    {
      names := [];
      if h !in receivers || !receivers[h] {
        return false, [];
      }
      ghost var subs := SetsOf(subscriptions);
      ghost var all := SubscribeAll(subs, up, h, events);
      assert events[0..] == events;
      for i := 0 to |events|
        invariant Sorted() && subs == SetsOf(subscriptions)
        invariant all.0 == SubscribeAll(subs, up, h, events[i..]).0
        invariant all.1 == names + SubscribeAll(subs, up, h, events[i..]).1
        invariant !up ==> subscriptions.Keys == old(subscriptions).Keys
        invariant !up ==> forall k :: 0 <= k < i ==> events[k] in old(subscriptions)
      {
        var evt := events[i];
        assert events[i..] == [evt] + events[i + 1..];
        SubscribeNext(subs, up, h, evt, events[i + 1..]);
        var stop, tell := SubscribeTo(h, evt);
        subs := SetsOf(subscriptions);
        if stop {
          assert names + [] == names;
          return false, names;
        }
        if tell {
          Associates(names, [evt], SubscribeAll(subs, up, h, events[i + 1..]).1);
          names := names + [evt];
        }
      }
      assert events[|events|..] == [] && names + [] == names;
      ok := true;
    }

    /** One event; `stop` when the server cannot be told, `tell` when it has to be. */
    method SubscribeTo(h: Handle, evt: string) returns (stop: bool, tell: bool)
      requires Sorted()
      modifies this`subscriptions
      ensures Sorted()
      ensures var subs := old(SetsOf(subscriptions));
              && (stop <==> evt !in subs && !up)
              && (tell <==> evt !in subs && up)
              && SetsOf(subscriptions) == (if stop || Has(subs, evt, h) then subs else Adding(subs, evt, h))
              && (!up ==> subscriptions.Keys == old(subscriptions).Keys)
    {
      stop, tell := false, false;
      var handles := if evt in subscriptions then subscriptions[evt] else [];
      assert HandleSet(handles) == if evt in subscriptions then SetsOf(subscriptions)[evt] else {};
      var added;
      handles, added := Insert(handles, h);
      if !added {
        return;
      }
      if evt !in subscriptions {
        if !up {
          stop := true;
          return;
        }
        tell := true;
      }
      SetsOfUpdate(subscriptions, evt, handles);
      subscriptions := subscriptions[evt := handles];
    }

    /** A fresh handle with an open channel, subscribed to the events. */
    method Register(h: Handle, events: seq<string>) returns (ok: bool, names: seq<string>)
      requires Sorted() && h !in used
      modifies this`subscriptions, this`receivers, this`used
      ensures Sorted()
      ensures ok <==> up || forall i :: 0 <= i < |events| ==> events[i] in old(subscriptions)
      ensures var (subs, msgs) := SubscribeAll(old(SetsOf(subscriptions)), up, h, events);
              && names == msgs
              && Model() == old(Model()).(subs := subs, receivers := old(receivers)[h := true], used := old(used) + {h})
    {
      receivers := receivers[h := true];
      used := used + {h};
      ok, names := Subscribe(h, events);
    }

    /** Take the handle out of every list; an event whose list is then empty is deregistered. */
    method Deregister(h: Handle) returns (ok: bool, names: seq<string>)
      requires Sorted() && ClientOk(Model())
      modifies this`subscriptions, this`receivers, this`closed
      ensures Sorted()
      ensures ok <==> h in old(receivers)
      ensures Distinct(names) && Elems(names) == if ok then Dropped(old(SetsOf(subscriptions)), h) else {}
      ensures var c := old(Model());
              Model() == if !ok then c
                         else c.(subs := Dropping(c.subs, h), receivers := c.receivers - {h},
                                 closed := c.closed + Closing(c, Drop(h, names)))
    {
      names := [];
      if h !in receivers {
        return false, [];
      }
      names := Unlist(h);
      var ch := receivers[h];
      receivers := receivers - {h};
      if ch {
        CloseChannel(h);
      }
      ok := true;
    }

    method UnlistFrom(evt: string, h: Handle) returns (emptied: bool)
      requires Sorted() && evt in subscriptions
      modifies this`subscriptions
      ensures Sorted()
      ensures emptied <==> HandleSet(old(subscriptions)[evt]) == {h}
      ensures Unlisted(old(subscriptions)[evt], h, evt, subscriptions)
      ensures subscriptions - {evt} == old(subscriptions) - {evt}
    {
      ghost var was := HandleSet(subscriptions[evt]);
      var handles, removed := Remove(subscriptions[evt], h);
      emptied := false;
      if !removed {
        assert h !in was && was - {h} == was;
      } else if |handles| == 0 {
        emptied := true;
        assert h in was && was - {h} == {};
        subscriptions := subscriptions - {evt};
      } else {
        assert handles[0] in HandleSet(handles);
        subscriptions := subscriptions[evt := handles];
      }
    }

    method Unlist(h: Handle) returns (names: seq<string>)
      requires Sorted()
      modifies this`subscriptions
      ensures Sorted()
      ensures SetsOf(subscriptions) == Dropping(old(SetsOf(subscriptions)), h)
      ensures Distinct(names) && Elems(names) == Dropped(old(SetsOf(subscriptions)), h)
    {
      names := [];
      var rest := subscriptions.Keys;
      ghost var was := subscriptions;
      while rest != {}
        invariant Sorted()
        invariant rest <= was.Keys && subscriptions.Keys <= was.Keys
        invariant forall evt :: evt in rest ==> evt in subscriptions && subscriptions[evt] == was[evt]
        invariant forall evt :: evt in was && evt !in rest ==> Unlisted(was[evt], h, evt, subscriptions)
        invariant Distinct(names)
        invariant forall evt :: evt in names <==> evt in was && evt !in rest && HandleSet(was[evt]) == {h}
        decreases rest
      {
        var evt :| evt in rest;
        rest := rest - {evt};
        ghost var before := subscriptions;
        var emptied := UnlistFrom(evt, h);
        SameApartFrom(before, subscriptions, evt);
        if emptied {
          AppendOk(names, evt);
          names := names + [evt];
        }
      }
      AllUnlisted(was, h, subscriptions);
      assert forall evt :: evt in names <==> evt in Dropped(SetsOf(was), h);
    }

    /** The stream is gone: every channel is closed, and none is left to close again. */
    method Shut()
      requires ClientOk(Model()) && up
      modifies this`receivers, this`closed, this`up
      ensures var c := old(Model());
              Model() == c.(up := false, receivers := Nilled(c.receivers),
                            closed := c.closed + Closing(c, Fail))
    {
      up := false;
      var rest := receivers.Keys;
      ghost var was := receivers;
      while rest != {}
        invariant !up && rest <= was.Keys == receivers.Keys
        invariant forall h :: h in was ==> receivers[h] == (h in rest)
        invariant closed == old(closed) + (was.Keys - rest)
        decreases rest
      {
        var h :| h in rest;
        rest := rest - {h};
        CloseChannel(h);
        receivers := receivers[h := false];
      }
      assert was == old(receivers) && was.Keys - rest == was.Keys;
      assert receivers == Nilled(was);
      assert closed == old(closed) + Closing(old(Model()), Fail);
    }

    /** The channels that an event is sent on: those of every handle with a matching subscription, all open. */
    method Recipients(e: Event) returns (to: set<Handle>)
      requires ClientOk(Model()) && up
      ensures forall h :: h in to <==> Receives(SetsOf(subscriptions), h, e)
      ensures to !! closed
    {
      to := {};
      var rest := subscriptions.Keys;
      while rest != {}
        invariant rest <= subscriptions.Keys
        invariant forall h :: h in to <==>
                    exists reg :: reg !in rest && Has(SetsOf(subscriptions), reg, h) && Matches(reg, e)
        decreases rest
      {
        var reg :| reg in rest;
        ghost var before := rest;
        rest := rest - {reg};
        if !Matches(reg, e) {
          continue;
        }
        assert forall i :: 0 <= i < |subscriptions[reg]| ==> Has(SetsOf(subscriptions), reg, subscriptions[reg][i]);
        var open := OpenOnes(subscriptions[reg]);
        to := to + open;
      }
    }

    /** The handles of a list whose channel is open, which is all of them. */
    method OpenOnes(handles: seq<Handle>) returns (to: set<Handle>)
      requires forall i :: 0 <= i < |handles| ==> handles[i] in receivers && receivers[handles[i]]
      ensures to == HandleSet(handles)
    {
      to := {};
      for i := 0 to |handles|
        invariant to == HandleSet(handles[..i])
      {
        if receivers[handles[i]] {
          to := to + {handles[i]};
        }
      }
      assert handles[..|handles|] == handles;
    }
  }

  lemma SameApartFrom(a: map<string, seq<Handle>>, b: map<string, seq<Handle>>, evt: string)
    requires a - {evt} == b - {evt}
    ensures forall e :: e != evt ==> (e in a <==> e in b) && (e in a ==> a[e] == b[e])
  {
    forall e | e != evt ensures (e in a <==> e in b) && (e in a ==> a[e] == b[e]) {
      assert e in a <==> e in a - {evt};
      assert e in b <==> e in b - {evt};
      if e in a {
        assert (a - {evt})[e] == (b - {evt})[e];
      }
    }
  }

  /** What has become of one list. */
  ghost predicate Unlisted(was: seq<Handle>, h: Handle, evt: string, now: map<string, seq<Handle>>) {
    if HandleSet(was) == {h} then evt !in now
    else evt in now && HandleSet(now[evt]) == HandleSet(was) - {h}
  }

  lemma AllUnlisted(was: map<string, seq<Handle>>, h: Handle, now: map<string, seq<Handle>>)
    requires now.Keys <= was.Keys && forall evt :: evt in was ==> Unlisted(was[evt], h, evt, now)
    ensures SetsOf(now) == Dropping(SetsOf(was), h)
  {
    var left := Dropping(SetsOf(was), h);
    forall evt ensures evt in SetsOf(now) <==> evt in left {
      assert evt in was ==> Unlisted(was[evt], h, evt, now);
    }
    forall evt | evt in now ensures SetsOf(now)[evt] == left[evt] {
      assert Unlisted(was[evt], h, evt, now);
    }
  }
}
