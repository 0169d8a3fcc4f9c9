/**
 The subscription protocol as a state machine: the client's tables (api/event_stream.go), the
 texts in flight, and the server's list for the session (frontend/websocket.go).

 A handle stands for its channel too.  Handles are numbered when they are asked for and
 registered later, so several callers may register out of order.
 */
module Subscriptions {
  import opened Maps
  import opened Sequences
  import opened WireText
  import opened Wrappers

  type Handle = nat
  type Subs = map<string, set<Handle>>

  /** What the client listens to from the start, without telling the server. */
  const BUILT_IN := "websocket.*.*"

  /** `receivers[h]` is false once the channel of h has been dropped; `used` are all handles ever registered. */
  datatype Client = Client(
    next: Handle, subs: Subs, receivers: map<Handle, bool>, used: set<Handle>, closed: set<Handle>, up: bool)

  /** `taken` counts the messages that the server has read. */
  datatype Net = Net(
    client: Client, wire: seq<string>, server: seq<string>, sent: seq<Msg>, acks: seq<Msg>, taken: nat)

  const START := Net(Client(1, map[BUILT_IN := {1}], map[1 := true], {1}, {}, true), [], [], [], [], 0)

  datatype Op =
    | Alloc
    | Enlist(h: Handle, events: seq<string>)
    | Subscribe(h: Handle, events: seq<string>)
    | Drop(h: Handle, order: seq<string>)
    | Receive
    | Fail

  predicate Has(subs: Subs, evt: string, h: Handle) {
    evt in subs && h in subs[evt]
  }

  predicate Open(c: Client, h: Handle) {
    h in c.receivers && c.receivers[h]
  }

  function Adding(subs: Subs, evt: string, h: Handle): Subs {
    subs[evt := (if evt in subs then subs[evt] else {}) + {h}]
  }

  /** The new table and the events to register; without a connection the first new event stops it. */
  function SubscribeAll(subs: Subs, up: bool, h: Handle, events: seq<string>): (Subs, seq<string>)
    decreases events
  {
    if events == [] then (subs, [])
    else
      var evt := events[0];
      if Has(subs, evt, h) then SubscribeAll(subs, up, h, events[1..])
      else if evt in subs then SubscribeAll(Adding(subs, evt, h), up, h, events[1..])
      else if !up then (subs, [])
      else
        var (subs', names) := SubscribeAll(Adding(subs, evt, h), up, h, events[1..]);
        (subs', [evt] + names)
  }

  function Dropped(subs: Subs, h: Handle): set<string> {
    set evt | evt in subs && subs[evt] == {h}
  }

  ghost function Dropping(subs: Subs, h: Handle): (left: Subs)
    ensures forall evt :: evt in left <==> evt in subs && subs[evt] != {h}
    ensures forall evt :: evt in left ==> left[evt] == subs[evt] - {h}
  {
    Tabulate(subs.Keys - Dropped(subs, h), evt requires evt in subs => subs[evt] - {h})
  }

  function Elems(s: seq<string>): set<string> {
    set x | x in s
  }

  function Registers(names: seq<string>): seq<Msg> {
    if names == [] then [] else [Register(names[0])] + Registers(names[1..])
  }

  function Deregisters(names: seq<string>): seq<Msg> {
    if names == [] then [] else [Deregister(names[0])] + Deregisters(names[1..])
  }

  function Mapped<A, B>(f: A -> B, s: seq<A>): seq<B> {
    if s == [] then [] else [f(s[0])] + Mapped(f, s[1..])
  }

  function Texts(ms: seq<Msg>): seq<string> {
    Mapped(Print, ms)
  }

  function Send(s: Net, ms: seq<Msg>): Net {
    if s.client.up then s.(wire := s.wire + Texts(ms), sent := s.sent + ms) else s
  }

  predicate AllSendable(events: seq<string>) {
    forall i :: 0 <= i < |events| ==> Sendable(events[i])
  }

  predicate Legal(s: Net, op: Op) {
    match op
    case Alloc => true
    case Enlist(h, _) => 1 <= h <= s.client.next && h !in s.client.used
    case Subscribe(_, _) => true
    case Drop(h, order) =>
      Distinct(order) && Elems(order) == if h in s.client.receivers then Dropped(s.client.subs, h) else {}
    case Receive => s.client.up && s.wire != []
    case Fail => s.client.up
  }

  ghost function Nilled(receivers: map<Handle, bool>): map<Handle, bool> {
    Tabulate(receivers.Keys, h => false)
  }

  /** The step uses only event names that arrive as they were sent. */
  predicate SendableOp(op: Op) {
    op.Enlist? || op.Subscribe? ==> AllSendable(op.events)
  }

  /** The channels a step closes. */
  function Closing(c: Client, op: Op): set<Handle> {
    match op
    case Drop(h, _) => if Open(c, h) then {h} else {}
    case Fail => set h | h in c.receivers && c.receivers[h]
    case _ => {}
  }

  ghost function Step(s: Net, op: Op): Net
    requires Legal(s, op)
  {
    var c := s.client;
    match op
    case Alloc => s.(client := c.(next := c.next + 1))
    case Enlist(h, events) =>
      var (subs, names) := SubscribeAll(c.subs, c.up, h, events);
      Send(s.(client := c.(subs := subs, receivers := c.receivers[h := true], used := c.used + {h})), Registers(names))
    case Subscribe(h, events) =>
      if !Open(c, h) then s
      else
        var (subs, names) := SubscribeAll(c.subs, c.up, h, events);
        Send(s.(client := c.(subs := subs)), Registers(names))
    case Drop(h, order) =>
      if h !in c.receivers then s
      else
        var c' := c.(subs := Dropping(c.subs, h), receivers := c.receivers - {h}, closed := c.closed + Closing(c, op));
        Send(s.(client := c'), Deregisters(order))
    case Receive =>
      var m := Parse(s.wire[0]);
      s.(wire := s.wire[1..], server := OnText(s.server, s.wire[0]),
         acks := if m.Some? then s.acks + [m.value] else s.acks, taken := s.taken + 1)
    case Fail =>
      s.(wire := [], client := c.(up := false, receivers := Nilled(c.receivers),
                                  closed := c.closed + Closing(c, op)))
  }

  // ----- the invariant -----

  /** The server's list once everything in flight has arrived. */
  function OnTexts(list: seq<string>, wire: seq<string>): seq<string>
    decreases wire
  {
    if wire == [] then list else OnTexts(OnText(list, wire[0]), wire[1..])
  }

  function UpdateAll(list: seq<string>, ms: seq<Msg>): seq<string>
    decreases ms
  {
    if ms == [] then list else UpdateAll(Update(list, ms[0]), ms[1..])
  }

  predicate SameEvents(list: seq<string>, keys: set<string>) {
    && Distinct(list)
    && Elems(list) <= keys
    && keys - {BUILT_IN} <= Elems(list)
  }

  predicate SendableMsgs(ms: seq<Msg>) {
    forall i :: 0 <= i < |ms| ==> Sendable(ms[i].evt)
  }

  predicate SendableKeys(subs: Subs) {
    forall evt :: evt in subs ==> Sendable(evt)
  }

  /** Listed handles have receivers, and what is stored as open is open. */
  ghost predicate ClientOk(c: Client) {
    && (forall evt, h :: Has(c.subs, evt, h) ==> h in c.receivers)
    && (forall evt :: evt in c.subs ==> c.subs[evt] != {})
    && (forall h :: h in c.receivers ==> h in c.used)
    && (forall h :: h in c.closed ==> h in c.used)
    && (forall h :: h in c.used ==> (h in c.closed <==> !Open(c, h)))
    && (forall h :: h in c.used ==> h <= c.next)
    && (c.up ==> forall h :: h in c.receivers ==> c.receivers[h])
  }

  function Kept<A, B>(f: A -> Option<B>, s: seq<A>): seq<B> {
    if s == [] then []
    else
      var b := f(s[|s| - 1]);
      Kept(f, s[..|s| - 1]) + if b.Some? then [b.value] else []
  }

  function ReadMsg(m: Msg): Option<Msg> {
    Parse(Print(m))
  }

  /** The messages among `ms` that the server can read, as it reads them. */
  function Understood(ms: seq<Msg>): seq<Msg> {
    Kept(ReadMsg, ms)
  }

  /** Messages are read in order, each once, and the server's list is what they amount to. */
  predicate WireOk(s: Net) {
    && s.taken <= |s.sent|
    && s.acks == Understood(s.sent[..s.taken])
    && s.server == UpdateAll([], s.acks)
    && (s.client.up ==> s.wire == Texts(s.sent[s.taken..]))
  }

  /** With the messages in flight the server will list what the client is subscribed to. */
  predicate AgreeOk(s: Net) {
    && s.taken <= |s.sent|
    && SendableMsgs(s.sent) && SendableKeys(s.client.subs)
    && (s.client.up ==> SameEvents(UpdateAll(s.server, s.sent[s.taken..]), s.client.subs.Keys))
  }

  // ----- messages -----

  lemma {:induction false} MappedAppend<A, B>(f: A -> B, a: seq<A>, b: seq<A>)
    ensures Mapped(f, a + b) == Mapped(f, a) + Mapped(f, b)
  {
    if a == [] {
      assert a + b == b;
    } else {
      var head, t, u := [f(a[0])], Mapped(f, a[1..]), Mapped(f, b);
      MappedAppend(f, a[1..], b);
      assert (a + b)[0] == a[0] && (a + b)[1..] == a[1..] + b;
      assert Mapped(f, a + b) == head + (t + u);
      Associates(head, t, u);
    }
  }

  lemma {:induction false} MappedLength<A, B>(f: A -> B, s: seq<A>)
    ensures |Mapped(f, s)| == |s|
  {
    if s != [] {
      MappedLength(f, s[1..]);
    }
  }

  lemma MappedFirst<A, B>(f: A -> B, a: A, rest: seq<A>)
    ensures Mapped(f, [a] + rest) == [f(a)] + Mapped(f, rest)
  {
    assert ([a] + rest)[1..] == rest;
  }

  lemma KeptAppend<A, B>(f: A -> Option<B>, s: seq<A>, a: A)
    ensures Kept(f, s + [a]) == Kept(f, s) + if f(a).Some? then [f(a).value] else []
  {
    assert (s + [a])[..|s|] == s;
  }

  lemma {:induction false} KeptAll<A>(f: A -> Option<A>, s: seq<A>)
    requires forall i :: 0 <= i < |s| ==> f(s[i]) == Some(s[i])
    ensures Kept(f, s) == s
  {
    if s != [] {
      KeptAll(f, s[..|s| - 1]);
    }
  }

  lemma {:induction false} UpdateAppend(list: seq<string>, a: seq<Msg>, b: seq<Msg>)
    ensures UpdateAll(list, a + b) == UpdateAll(UpdateAll(list, a), b)
    decreases a
  {
    if a == [] {
      assert a + b == b;
    } else {
      UpdateAppend(Update(list, a[0]), a[1..], b);
      assert (a + b)[1..] == a[1..] + b;
    }
  }

  /** Reading the texts is applying the messages. */
  lemma {:induction false} ReadTexts(list: seq<string>, ms: seq<Msg>)
    requires SendableMsgs(ms)
    ensures OnTexts(list, Texts(ms)) == UpdateAll(list, ms)
    decreases ms
  {
    if ms != [] {
      ReadBack(ms[0]);
      ReadTexts(Update(list, ms[0]), ms[1..]);
      assert Texts(ms)[0] == Print(ms[0]) && Texts(ms)[1..] == Texts(ms[1..]);
    }
  }

  lemma FrontOk(list: seq<string>)
    requires list != [] && Distinct(list)
    ensures Distinct(list[..|list| - 1]) && list[|list| - 1] !in list[..|list| - 1]
    ensures forall x :: x in list <==> x in list[..|list| - 1] || x == list[|list| - 1]
  {
    var front := list[..|list| - 1];
    assert list == front + [list[|list| - 1]];
    forall i, j | 0 <= i < j < |front| ensures Differ(front, i, j) {
      assert Differ(list, i, j);
    }
    forall i | 0 <= i < |front| ensures front[i] != list[|list| - 1] {
      assert Differ(list, i, |list| - 1);
    }
  }

  lemma AppendOk(list: seq<string>, evt: string)
    requires Distinct(list) && evt !in list
    ensures Distinct(list + [evt]) && Elems(list + [evt]) == Elems(list) + {evt}
  {
    forall i, j | 0 <= i < j < |list| + 1 ensures Differ(list + [evt], i, j) {
      assert j < |list| ==> Differ(list, i, j);
    }
  }

  lemma {:induction false} WithoutOk(list: seq<string>, evt: string)
    requires Distinct(list)
    ensures Distinct(Without(list, evt))
    ensures forall x :: x in Without(list, evt) <==> x in list && x != evt
  {
    if list != [] {
      var front := list[..|list| - 1];
      FrontOk(list);
      WithoutOk(front, evt);
      if list[|list| - 1] != evt {
        AppendOk(Without(front, evt), list[|list| - 1]);
      }
    }
  }

  /** Registering new events keeps the two sides in step. */
  lemma {:induction false} SubscribeAgrees(list: seq<string>, subs: Subs, up: bool, h: Handle, events: seq<string>)
    requires SameEvents(list, subs.Keys) && SendableKeys(subs) && AllSendable(events)
    ensures var (subs', names) := SubscribeAll(subs, up, h, events);
            && SameEvents(UpdateAll(list, Registers(names)), subs'.Keys)
            && SendableKeys(subs') && SendableMsgs(Registers(names))
    decreases events
  {
    if events != [] {
      var evt := events[0];
      if Has(subs, evt, h) {
        SubscribeAgrees(list, subs, up, h, events[1..]);
      } else if evt in subs {
        assert Adding(subs, evt, h).Keys == subs.Keys;
        SubscribeAgrees(list, Adding(subs, evt, h), up, h, events[1..]);
      } else if up {
        assert Adding(subs, evt, h).Keys == subs.Keys + {evt};
        assert evt !in Elems(list);
        AppendOk(list, evt);
        SubscribeAgrees(list + [evt], Adding(subs, evt, h), up, h, events[1..]);
        RegistersFirst(list, evt, SubscribeAll(Adding(subs, evt, h), up, h, events[1..]).1);
      }
    }
  }

  lemma RegistersFirst(list: seq<string>, evt: string, names: seq<string>)
    requires evt !in list
    ensures UpdateAll(list, Registers([evt] + names)) == UpdateAll(list + [evt], Registers(names))
    ensures Registers([evt] + names) == [Register(evt)] + Registers(names)
  {
    assert ([evt] + names)[1..] == names;
  }

  /** Deregistering takes exactly the named events off the list. */
  lemma {:induction false} DeregisterAgrees(list: seq<string>, order: seq<string>)
    requires Distinct(list)
    ensures var list' := UpdateAll(list, Deregisters(order));
            Distinct(list') && Elems(list') == Elems(list) - Elems(order)
    decreases order
  {
    if order != [] {
      var list1 := Without(list, order[0]);
      WithoutOk(list, order[0]);
      DeregisterAgrees(list1, order[1..]);
      assert Elems(list1) == Elems(list) - {order[0]};
      assert Elems(order) == {order[0]} + Elems(order[1..]);
      assert UpdateAll(list, Deregisters(order)) == UpdateAll(list1, Deregisters(order[1..]));
    }
  }

  lemma {:induction false} DeregistersOk(order: seq<string>)
    requires AllSendable(order)
    ensures SendableMsgs(Deregisters(order))
  {
    if order != [] {
      DeregistersOk(order[1..]);
    }
  }

  // ----- every step keeps the invariant -----

  lemma SendKeepsWire(s: Net, c: Client, ms: seq<Msg>)
    requires WireOk(s) && c.up == s.client.up
    ensures WireOk(Send(s.(client := c), ms))
  {
    if c.up {
      assert (s.sent + ms)[..s.taken] == s.sent[..s.taken];
      assert (s.sent + ms)[s.taken..] == s.sent[s.taken..] + ms;
      MappedAppend(Print, s.sent[s.taken..], ms);
    }
  }

  /** Sending messages that turn the old agreement into the new one. */
  lemma SendAgrees(s: Net, c: Client, ms: seq<Msg>)
    requires s.taken <= |s.sent| && c.up == s.client.up
    requires SendableMsgs(s.sent) && SendableMsgs(ms) && SendableKeys(c.subs)
    requires c.up ==> SameEvents(UpdateAll(UpdateAll(s.server, s.sent[s.taken..]), ms), c.subs.Keys)
    ensures AgreeOk(Send(s.(client := c), ms))
  {
    if c.up {
      assert (s.sent + ms)[s.taken..] == s.sent[s.taken..] + ms;
      UpdateAppend(s.server, s.sent[s.taken..], ms);
    }
  }

  lemma FirstInFlight(sent: seq<Msg>, taken: nat)
    requires taken < |sent|
    ensures sent[taken..] == [sent[taken]] + sent[taken + 1..]
    ensures sent[..taken + 1] == sent[..taken] + [sent[taken]]
  {
  }

  lemma UpdateOne(list: seq<string>, ms: seq<Msg>, m: Msg)
    ensures UpdateAll(list, ms + [m]) == Update(UpdateAll(list, ms), m)
  {
    UpdateAppend(list, ms, [m]);
    assert [m][1..] == [];
  }

  /** Reading one more message, understood or not. */
  lemma OneMoreRead(sent: seq<Msg>, taken: nat, acks: seq<Msg>, list: seq<string>, r: Option<Msg>)
    requires taken < |sent| && acks == Understood(sent[..taken]) && list == UpdateAll([], acks)
    requires r == ReadMsg(sent[taken])
    ensures var acks' := if r.Some? then acks + [r.value] else acks;
            && acks' == Understood(sent[..taken + 1])
            && UpdateAll([], acks') == if r.Some? then Update(list, r.value) else list
  {
    FirstInFlight(sent, taken);
    KeptAppend(ReadMsg, sent[..taken], sent[taken]);
    if r.Some? {
      UpdateOne([], acks, r.value);
    }
  }

  lemma ReceiveKeepsWire(s: Net)
    requires WireOk(s) && Legal(s, Receive)
    ensures WireOk(Step(s, Receive)) && s.taken < |s.sent| && s.wire[0] == Print(s.sent[s.taken])
  {
    var m := s.sent[s.taken];
    FirstInFlight(s.sent, s.taken);
    MappedFirst(Print, m, s.sent[s.taken + 1..]);
    OneMoreRead(s.sent, s.taken, s.acks, s.server, Parse(s.wire[0]));
  }

  lemma ReceiveAgrees(s: Net)
    requires WireOk(s) && AgreeOk(s) && Legal(s, Receive)
    ensures AgreeOk(Step(s, Receive))
  {
    ReceiveKeepsWire(s);
    var m, rest := s.sent[s.taken], s.sent[s.taken + 1..];
    ReadBack(m);
    FirstInFlight(s.sent, s.taken);
    assert ([m] + rest)[1..] == rest;
    assert UpdateAll(s.server, [m] + rest) == UpdateAll(Update(s.server, m), rest);
  }

  lemma {:induction false} SubscribedHandles(subs: Subs, up: bool, h: Handle, events: seq<string>)
    ensures var subs' := SubscribeAll(subs, up, h, events).0;
            && (forall evt, k :: Has(subs', evt, k) ==> k == h || Has(subs, evt, k))
            && (forall evt, k :: Has(subs, evt, k) ==> Has(subs', evt, k))
            && (forall evt :: evt in subs' && evt !in subs ==> subs'[evt] != {})
            && (forall evt :: evt in subs ==> evt in subs' && subs[evt] <= subs'[evt])
    decreases events
  {
    if events != [] {
      var evt := events[0];
      if Has(subs, evt, h) {
        SubscribedHandles(subs, up, h, events[1..]);
      } else if evt in subs || up {
        var added := Adding(subs, evt, h);
        SubscribedHandles(added, up, h, events[1..]);
        assert forall e, k :: Has(added, e, k) <==> Has(subs, e, k) || (e == evt && k == h);
        assert Has(added, evt, h);
      }
    }
  }

  /** How many of the events are entered: all, or without a connection those before the first new one. */
  function Entered(subs: Subs, up: bool, events: seq<string>): (n: nat)
    ensures n <= |events|
    ensures forall i :: 0 <= i < n ==> up || events[i] in subs
    ensures n < |events| ==> !up && events[n] !in subs
  {
    if events == [] || (!up && events[0] !in subs) then 0 else 1 + Entered(subs, up, events[1..])
  }

  lemma {:induction false} EnteredSame(subs: Subs, subs': Subs, up: bool, events: seq<string>)
    requires up || subs.Keys == subs'.Keys
    ensures Entered(subs, up, events) == Entered(subs', up, events)
  {
    if events != [] {
      EnteredSame(subs, subs', up, events[1..]);
    }
  }

  /** Subscribing adds the handle to each of the events that are entered, and does nothing else. */
  lemma {:induction false} SubscribeAdds(subs: Subs, up: bool, h: Handle, events: seq<string>, evt: string, k: Handle)
    ensures Has(SubscribeAll(subs, up, h, events).0, evt, k)
       <==> Has(subs, evt, k) || (k == h && evt in events[..Entered(subs, up, events)])
    decreases events
  {
    if events != [] {
      var first, rest := events[0], events[1..];
      var n := Entered(subs, up, events);
      if Has(subs, first, h) || first in subs || up {
        assert events[..n] == [first] + rest[..n - 1];
        var subs1 := if Has(subs, first, h) then subs else Adding(subs, first, h);
        SubscribeAdds(subs1, up, h, rest, evt, k);
        EnteredSame(subs, subs1, up, rest);
        assert Has(subs1, evt, k) <==> Has(subs, evt, k) || (k == h && evt == first);
      }
    }
  }

  lemma SubscribeKeepsClient(c: Client, h: Handle, events: seq<string>)
    requires ClientOk(c) && h in c.receivers
    ensures ClientOk(c.(subs := SubscribeAll(c.subs, c.up, h, events).0))
  {
    SubscribedHandles(c.subs, c.up, h, events);
  }

  lemma SubscribeAgreed(s: Net, c: Client, h: Handle, events: seq<string>)
    requires s.taken <= |s.sent| && AgreeOk(s) && AllSendable(events) && c.up == s.client.up
    requires c.subs == SubscribeAll(s.client.subs, c.up, h, events).0
    ensures AgreeOk(Send(s.(client := c), Registers(SubscribeAll(s.client.subs, c.up, h, events).1)))
  {
    var (subs, names) := SubscribeAll(s.client.subs, c.up, h, events);
    if c.up {
      SubscribeAgrees(UpdateAll(s.server, s.sent[s.taken..]), s.client.subs, c.up, h, events);
      SendAgrees(s, c, Registers(names));
    } else {
      OfflineQuiet(s.client.subs, h, events);
    }
  }

  /** Without a connection nothing new is registered. */
  lemma {:induction false} OfflineQuiet(subs: Subs, h: Handle, events: seq<string>)
    ensures var (subs', names) := SubscribeAll(subs, false, h, events);
            names == [] && subs'.Keys == subs.Keys
    decreases events
  {
    if events != [] {
      var evt := events[0];
      if Has(subs, evt, h) {
        OfflineQuiet(subs, h, events[1..]);
      } else if evt in subs {
        OfflineQuiet(Adding(subs, evt, h), h, events[1..]);
        assert Adding(subs, evt, h).Keys == subs.Keys;
      }
    }
  }

  lemma DropKeepsClient(c: Client, h: Handle)
    requires ClientOk(c) && h in c.receivers
    ensures ClientOk(c.(subs := Dropping(c.subs, h), receivers := c.receivers - {h},
                        closed := c.closed + if Open(c, h) then {h} else {}))
  {
    var subs' := Dropping(c.subs, h);
    forall evt, k | Has(subs', evt, k) ensures k in c.receivers - {h} {
      assert Has(c.subs, evt, k);
    }
    forall evt | evt in subs' ensures subs'[evt] != {} {
      assert c.subs[evt] != {} && c.subs[evt] != {h};
      assert exists k :: k in c.subs[evt] && k != h;
    }
  }

  lemma DropAgreed(s: Net, c: Client, h: Handle, order: seq<string>)
    requires s.taken <= |s.sent| && AgreeOk(s) && c.up == s.client.up
    requires c.subs == Dropping(s.client.subs, h) && Elems(order) == Dropped(s.client.subs, h)
    ensures AgreeOk(Send(s.(client := c), Deregisters(order)))
  {
    forall i | 0 <= i < |order| ensures Sendable(order[i]) {
      assert order[i] in Elems(order);
    }
    DeregistersOk(order);
    if c.up {
      DeregisterAgrees(UpdateAll(s.server, s.sent[s.taken..]), order);
      assert c.subs.Keys == s.client.subs.Keys - Elems(order);
      SendAgrees(s, c, Deregisters(order));
    }
  }

  lemma ClientKeeps(s: Net, op: Op)
    requires ClientOk(s.client) && Legal(s, op)
    ensures ClientOk(Step(s, op).client)
  {
    var c := s.client;
    match op
    case Enlist(h, events) =>
      SubscribeKeepsClient(c.(receivers := c.receivers[h := true], used := c.used + {h}), h, events);
    case Subscribe(h, events) =>
      if Open(c, h) {
        SubscribeKeepsClient(c, h, events);
      }
    case Drop(h, _) =>
      if h in c.receivers {
        DropKeepsClient(c, h);
      }
    case _ =>
  }

  lemma WireKeeps(s: Net, op: Op)
    requires WireOk(s) && Legal(s, op)
    ensures WireOk(Step(s, op))
  {
    var c, c' := s.client, Step(s, op).client;
    match op
    case Enlist(h, events) => SendKeepsWire(s, c', Registers(SubscribeAll(c.subs, c.up, h, events).1));
    case Subscribe(h, events) => SendKeepsWire(s, c', Registers(SubscribeAll(c.subs, c.up, h, events).1));
    case Drop(h, order) => SendKeepsWire(s, c', Deregisters(order));
    case Receive => ReceiveKeepsWire(s);
    case _ =>
  }

  lemma AgreeKeeps(s: Net, op: Op)
    requires WireOk(s) && AgreeOk(s) && Legal(s, op) && SendableOp(op)
    ensures AgreeOk(Step(s, op))
  {
    var c' := Step(s, op).client;
    match op
    case Enlist(h, events) => SubscribeAgreed(s, c', h, events);
    case Subscribe(h, events) =>
      if Open(s.client, h) {
        SubscribeAgreed(s, c', h, events);
      }
    case Drop(h, order) =>
      if h in s.client.receivers {
        DropAgreed(s, c', h, order);
      }
    case Receive => ReceiveAgrees(s);
    case _ =>
  }

  /** Whatever the names: channels, tables and messages. */
  ghost predicate Inv(s: Net) {
    ClientOk(s.client) && WireOk(s)
  }

  /** Every step keeps the invariant, and with sendable names the agreement. */
  lemma StepKeeps(s: Net, op: Op)
    requires Inv(s) && Legal(s, op)
    ensures Inv(Step(s, op))
    ensures AgreeOk(s) && SendableOp(op) ==> AgreeOk(Step(s, op))
  {
    ClientKeeps(s, op);
    WireKeeps(s, op);
    if AgreeOk(s) && SendableOp(op) {
      AgreeKeeps(s, op);
    }
  }

  ghost predicate LegalRun(s: Net, ops: seq<Op>)
    decreases ops
  {
    ops == [] || (Legal(s, ops[0]) && LegalRun(Step(s, ops[0]), ops[1..]))
  }

  ghost function Exec(s: Net, ops: seq<Op>): Net
    requires LegalRun(s, ops)
    decreases ops
  {
    if ops == [] then s else Exec(Step(s, ops[0]), ops[1..])
  }

  predicate SendableRun(ops: seq<Op>) {
    forall i :: 0 <= i < |ops| ==> SendableOp(ops[i])
  }

  lemma {:induction false} RunKeeps(s: Net, ops: seq<Op>)
    requires Inv(s) && LegalRun(s, ops)
    ensures Inv(Exec(s, ops))
    ensures AgreeOk(s) && SendableRun(ops) ==> AgreeOk(Exec(s, ops))
    decreases ops
  {
    if ops != [] {
      StepKeeps(s, ops[0]);
      RunKeeps(Step(s, ops[0]), ops[1..]);
    }
  }

  lemma StartOk()
    ensures Inv(START) && AgreeOk(START)
  {
    BuiltInSendable();
    assert forall evt, h :: Has(START.client.subs, evt, h) ==> h == 1;
  }

  // ----- the promises -----

  /** The two sides agree once the texts in flight have arrived, the built-in event aside. */
  predicate Agrees(s: Net) {
    var list := OnTexts(s.server, s.wire);
    && Distinct(list)
    && Elems(list) <= s.client.subs.Keys
    && Elems(list) - {BUILT_IN} == s.client.subs.Keys - {BUILT_IN}
  }

  /**
   Agreement: in every state a run with sendable names can reach while the stream is up, the
   server's list, once the texts in flight have arrived, holds no event twice and names exactly
   the events the client is subscribed to, the built-in one aside.
   */
  lemma SubscriptionsAgree(ops: seq<Op>)
    requires LegalRun(START, ops) && SendableRun(ops) && Exec(START, ops).client.up
    ensures Agrees(Exec(START, ops))
  {
    StartOk();
    RunKeeps(START, ops);
    var s := Exec(START, ops);
    ReadTexts(s.server, s.sent[s.taken..]);
  }

  /** The run subscribes to events of a set only. */
  predicate Uses(ops: seq<Op>, names: set<string>) {
    forall i, k :: 0 <= i < |ops| && (ops[i].Enlist? || ops[i].Subscribe?) && 0 <= k < |ops[i].events| ==>
                     ops[i].events[k] in names
  }

  ghost predicate AlwaysAgrees(names: set<string>) {
    forall ops :: Uses(ops, names) && LegalRun(START, ops) && Exec(START, ops).client.up ==> Agrees(Exec(START, ops))
  }

  /** Which names may be subscribed to: the two sides agree along every run just when all of them are sendable. */
  lemma AgreementIff(names: set<string>)
    ensures AlwaysAgrees(names) <==> forall evt :: evt in names ==> Sendable(evt)
  {
    if forall evt :: evt in names ==> Sendable(evt) {
      forall ops | Uses(ops, names) && LegalRun(START, ops) && Exec(START, ops).client.up
        ensures Agrees(Exec(START, ops))
      {
        SubscriptionsAgree(ops);
      }
    } else {
      var evt :| evt in names && !Sendable(evt);
      var ops := [Alloc, Enlist(2, [evt])];
      assert Uses(ops, names);
      OneRegistration(evt);
    }
  }

  /** The run that only registers one more event. */
  lemma OneRegistration(evt: string)
    ensures var ops := [Alloc, Enlist(2, [evt])];
            && LegalRun(START, ops) && Exec(START, ops).client.up
            && (Agrees(Exec(START, ops)) <==> Sendable(evt))
  {
    var ops := [Alloc, Enlist(2, [evt])];
    assert ops[1..] == [Enlist(2, [evt])] && ops[1..][1..] == [];
    var s1 := Step(START, Alloc);
    assert Legal(s1, ops[1]);
    var s2 := Step(s1, ops[1]);
    assert LegalRun(s2, []) && Exec(s2, []) == s2;
    assert LegalRun(s1, ops[1..]) && Exec(s1, ops[1..]) == s2;
    var (subs, names) := SubscribeAll(START.client.subs, true, 2, [evt]);
    assert s2.wire == Texts(Registers(names)) && s2.client.subs == subs && s2.server == [];
    AgreementNeedsSendable(evt);
    SameAgrees(s2);
  }

  lemma SameAgrees(s: Net)
    ensures SameEvents(OnTexts(s.server, s.wire), s.client.subs.Keys) <==> Agrees(s)
  {
    var list, keys := OnTexts(s.server, s.wire), s.client.subs.Keys;
    if Distinct(list) && Elems(list) <= keys && keys - {BUILT_IN} <= Elems(list) {
      assert Elems(list) - {BUILT_IN} == keys - {BUILT_IN};
    }
    if Agrees(s) {
      assert keys - {BUILT_IN} <= Elems(list);
    }
  }

  lemma AllUnderstood(ms: seq<Msg>)
    requires SendableMsgs(ms)
    ensures Understood(ms) == ms
  {
    forall i | 0 <= i < |ms| ensures ReadMsg(ms[i]) == Some(ms[i]) {
      ReadBack(ms[i]);
    }
    KeptAll(ReadMsg, ms);
  }

  /**
   Every message is read once and in order, each that the server understands is acknowledged as
   it was read, and those not read yet are in flight; the list is what the acknowledged messages
   amount to.  With sendable names the acknowledgements are the messages themselves.
   */
  lemma OneAckEach(ops: seq<Op>)
    requires LegalRun(START, ops)
    ensures var s := Exec(START, ops);
            && s.taken <= |s.sent|
            && s.acks == Understood(s.sent[..s.taken])
            && s.server == UpdateAll([], s.acks)
            && (s.client.up ==> |s.wire| == |s.sent| - s.taken)
            && (SendableRun(ops) ==> s.acks == s.sent[..s.taken])
  {
    StartOk();
    RunKeeps(START, ops);
    var s := Exec(START, ops);
    MappedLength(Print, s.sent[s.taken..]);
    if SendableRun(ops) {
      AllUnderstood(s.sent[..s.taken]);
    }
  }

  /** No channel is closed twice, in any state and by any step a run can reach. */
  lemma ClosedOnce(ops: seq<Op>, op: Op)
    requires LegalRun(START, ops) && Legal(Exec(START, ops), op)
    ensures var c := Exec(START, ops).client; Closing(c, op) !! c.closed
  {
    StartOk();
    RunKeeps(START, ops);
  }

  /** A channel that was ever opened is closed just when it is no longer kept as open, so none is leaked. */
  lemma ClosedIff(ops: seq<Op>, h: Handle)
    requires LegalRun(START, ops)
    ensures var c := Exec(START, ops).client; h in c.used ==> (h in c.closed <==> !Open(c, h))
  {
    StartOk();
    RunKeeps(START, ops);
  }

  /** The server's list names no event twice, whatever it is sent. */
  lemma {:induction false} ServerListsOnce(ops: seq<Op>, s: Net)
    requires LegalRun(s, ops) && Distinct(s.server)
    ensures Distinct(Exec(s, ops).server)
    decreases ops
  {
    if ops != [] {
      if ops[0].Receive? {
        UpdateIs(s.server, if Parse(s.wire[0]).Some? then Parse(s.wire[0]).value else Register(""));
      }
      ServerListsOnce(ops[1..], Step(s, ops[0]));
    }
  }

  /** What a message does to the list: its event is there once afterwards, or not at all, and the others stay. */
  lemma UpdateIs(list: seq<string>, m: Msg)
    requires Distinct(list)
    ensures Distinct(Update(list, m))
    ensures forall x :: x in Update(list, m) <==> (x in list && x != m.evt) || (x == m.evt && m.Register?)
    ensures m.Register? ==> list <= Update(list, m)
  {
    if m.Deregister? {
      WithoutOk(list, m.evt);
    } else if m.evt !in list {
      AppendOk(list, m.evt);
    }
  }

  /** While the stream is up, every subscribed handle has an open channel. */
  lemma ListedAreOpen(ops: seq<Op>, evt: string, h: Handle)
    requires LegalRun(START, ops)
    requires var c := Exec(START, ops).client; c.up && Has(c.subs, evt, h)
    ensures var c := Exec(START, ops).client; Open(c, h) && h !in c.closed
  {
    StartOk();
    RunKeeps(START, ops);
  }

  /** The step subscribes a handle to an event. */
  predicate Asks(s: Net, op: Op, h: Handle, evt: string) {
    && (op.Enlist? || (op.Subscribe? && Open(s.client, h))) && op.h == h
    && evt in op.events[..Entered(s.client.subs, s.client.up, op.events)]
  }

  predicate Drops(s: Net, op: Op, h: Handle) {
    op.Drop? && op.h == h && h in s.client.receivers
  }

  /** Who is subscribed to what after a step: whoever was and has not been dropped, and whoever has just asked. */
  lemma StepSubscribes(s: Net, op: Op, h: Handle, evt: string)
    requires Legal(s, op)
    ensures Has(Step(s, op).client.subs, evt, h) <==>
              (Has(s.client.subs, evt, h) && !Drops(s, op, h)) || Asks(s, op, h, evt)
  {
    match op
    case Enlist(k, events) => SubscribeAdds(s.client.subs, s.client.up, k, events, evt, h);
    case Subscribe(k, events) => SubscribeAdds(s.client.subs, s.client.up, k, events, evt, h);
    case Drop(k, _) =>
    case _ =>
  }

  ghost predicate NeverDrops(s: Net, ops: seq<Op>, h: Handle)
    requires LegalRun(s, ops)
    decreases ops
  {
    ops == [] || (!Drops(s, ops[0], h) && NeverDrops(Step(s, ops[0]), ops[1..], h))
  }

  ghost predicate AsksIn(s: Net, ops: seq<Op>, h: Handle, evt: string)
    requires LegalRun(s, ops)
    decreases ops
  {
    ops != [] &&
    (|| (Asks(s, ops[0], h, evt) && NeverDrops(Step(s, ops[0]), ops[1..], h))
     || AsksIn(Step(s, ops[0]), ops[1..], h, evt))
  }

  /** Over whole runs: a handle is subscribed to just what it has asked for, or had, and was not dropped since. */
  lemma {:induction false} SubscribedIffAsked(s: Net, ops: seq<Op>, h: Handle, evt: string)
    requires LegalRun(s, ops)
    ensures Has(Exec(s, ops).client.subs, evt, h) <==>
              (Has(s.client.subs, evt, h) && NeverDrops(s, ops, h)) || AsksIn(s, ops, h, evt)
    decreases ops
  {
    if ops != [] {
      StepSubscribes(s, ops[0], h, evt);
      SubscribedIffAsked(Step(s, ops[0]), ops[1..], h, evt);
    }
  }

  /** An event is sent to a handle: one of its subscriptions matches. */
  ghost predicate Receives(subs: Subs, h: Handle, e: Event) {
    exists reg :: Has(subs, reg, h) && Matches(reg, e)
  }

  /**
   Whoever subscribes while the stream is up is sent every event that matches one of the events
   named, on a channel that is open, as long as the handle is not dropped and the stream stays up.
   */
  lemma SubscriberIsServed(before: seq<Op>, op: Op, after: seq<Op>, h: Handle, i: nat, e: Event)
    requires LegalRun(START, before) && Legal(Exec(START, before), op)
    requires var s := Exec(START, before);
             && s.client.up && (op.Enlist? || (op.Subscribe? && Open(s.client, h))) && op.h == h
             && i < |op.events| && Matches(op.events[i], e)
             && LegalRun(Step(s, op), after) && NeverDrops(Step(s, op), after, h) && Exec(Step(s, op), after).client.up
    ensures var c := Exec(Step(Exec(START, before), op), after).client;
            Receives(c.subs, h, e) && Open(c, h) && h !in c.closed
  {
    var s := Exec(START, before);
    var s1 := Step(s, op);
    var evt := op.events[i];
    assert op.events[..Entered(s.client.subs, true, op.events)] == op.events;
    StepSubscribes(s, op, h, evt);
    SubscribedIffAsked(s1, after, h, evt);
    StartOk();
    RunKeeps(START, before);
    StepKeeps(s, op);
    RunKeeps(s1, after);
  }

  /** Somebody is subscribed to an event, other than by a built-in subscription the server was never told of. */
  ghost predicate Subscribed(s: Net, reg: string) {
    (reg != BUILT_IN || BUILT_IN in s.server) && exists h :: Has(s.client.subs, reg, h)
  }

  /** A registration decides about an event at its place in the server's list. */
  ghost predicate DecidesAs(list: seq<string>, reg: string, e: Event) {
    exists i :: Decides(list, e, i) && list[i] == reg
  }

  lemma ListedIffSubscribed(s: Net, reg: string)
    requires ClientOk(s.client) && Agrees(s) && s.wire == []
    ensures reg in s.server <==> Subscribed(s, reg)
  {
    assert reg in s.server <==> reg in Elems(s.server);
    assert reg != BUILT_IN ==> (reg in Elems(s.server) <==> reg in Elems(s.server) - {BUILT_IN});
    assert reg != BUILT_IN ==> (reg in s.client.subs <==> reg in s.client.subs.Keys - {BUILT_IN});
    if reg in s.client.subs {
      var h :| h in s.client.subs[reg];
      assert Has(s.client.subs, reg, h);
    }
  }

  /**
   What the server does with an event when nothing is in flight and the two sides agree, as they
   do along every run with sendable names.  It forwards it just when a
   subscription matches that no registration before it in the list stops the server at; it stops
   just when a subscription with too few parts comes first.  If no subscription stops it, it
   forwards the event just when some subscription matches.
   */
  lemma ForwardedIffWanted(ops: seq<Op>, e: Event)
    requires LegalRun(START, ops)
    requires var s := Exec(START, ops);
             Agrees(s) && s.client.up && s.wire == []
    ensures var s := Exec(START, ops);
            var answer := Passes(s.server, e);
            && (answer == Some(true) <==>
                  exists reg :: Subscribed(s, reg) && Matches(reg, e) && DecidesAs(s.server, reg, e))
            && (answer == None <==>
                  exists reg :: Subscribed(s, reg) && Stops(reg, e) && DecidesAs(s.server, reg, e))
            && ((forall reg :: Subscribed(s, reg) ==> !Stops(reg, e)) ==>
                  answer != None && (answer == Some(true) <==> exists reg :: Subscribed(s, reg) && Matches(reg, e)))
            && ((forall reg :: Subscribed(s, reg) ==> !Matches(reg, e)) ==>
                  (answer == None <==> exists reg :: Subscribed(s, reg) && Stops(reg, e)))
  {
    StartOk();
    RunKeeps(START, ops);
    AnswerIsSubscribed(Exec(START, ops), e);
    AnswerIsFirst(Exec(START, ops), e);
  }

  lemma AnswerIsSubscribed(s: Net, e: Event)
    requires ClientOk(s.client) && Agrees(s) && s.wire == []
    ensures Passes(s.server, e) == Some(true) <==>
              exists reg :: Subscribed(s, reg) && Matches(reg, e) && DecidesAs(s.server, reg, e)
    ensures Passes(s.server, e) == None <==>
              exists reg :: Subscribed(s, reg) && Stops(reg, e) && DecidesAs(s.server, reg, e)
  {
    forall i | Decides(s.server, e, i)
      ensures Subscribed(s, s.server[i]) && DecidesAs(s.server, s.server[i], e)
    {
      assert s.server[i] in s.server;
      ListedIffSubscribed(s, s.server[i]);
    }
  }

  lemma {:induction false} FirstDecides(list: seq<string>, e: Event, k: nat) returns (i: nat)
    requires k < |list| && (Matches(list[k], e) || Stops(list[k], e))
    ensures i <= k && Decides(list, e, i)
  {
    if j :| 0 <= j < k && (Matches(list[j], e) || Stops(list[j], e)) {
      i := FirstDecides(list, e, j);
    } else {
      i := k;
    }
  }

  lemma AnswerIsFirst(s: Net, e: Event)
    requires ClientOk(s.client) && Agrees(s) && s.wire == []
    ensures (forall reg :: Subscribed(s, reg) ==> !Stops(reg, e)) ==>
              && Passes(s.server, e) != None
              && (Passes(s.server, e) == Some(true) <==> exists reg :: Subscribed(s, reg) && Matches(reg, e))
    ensures (forall reg :: Subscribed(s, reg) ==> !Matches(reg, e)) ==>
              (Passes(s.server, e) == None <==> exists reg :: Subscribed(s, reg) && Stops(reg, e))
  {
    AnswerIsSubscribed(s, e);
    var answer := Passes(s.server, e);
    match answer {
      case None =>
      case Some(b) => assert if b then answer == Some(true) else answer == Some(false);
    }
    if reg :| Subscribed(s, reg) && Matches(reg, e) {
      SomeoneDecides(s, e, reg);
    }
    if reg :| Subscribed(s, reg) && Stops(reg, e) {
      SomeoneDecides(s, e, reg);
    }
  }

  lemma SomeoneDecides(s: Net, e: Event, reg: string)
    requires ClientOk(s.client) && Agrees(s) && s.wire == []
    requires Subscribed(s, reg) && (Matches(reg, e) || Stops(reg, e))
    ensures Passes(s.server, e) != Some(false)
  {
    ListedIffSubscribed(s, reg);
    var k :| 0 <= k < |s.server| && s.server[k] == reg;
    var i := FirstDecides(s.server, e, k);
  }

  /**
   Agreement needs sendable names: registering one more event from the start leaves the two
   sides in agreement just when its name is sendable.  Otherwise the server lists the name
   without its trailing blanks, or nothing at all.
   */
  lemma AgreementNeedsSendable(evt: string)
    ensures var (subs, names) := SubscribeAll(START.client.subs, true, 2, [evt]);
            SameEvents(OnTexts([], Texts(Registers(names))), subs.Keys) <==> Sendable(evt)
  {
    var subs := START.client.subs;
    var added := Adding(subs, evt, 2);
    assert !Has(subs, evt, 2);
    assert [evt][1..] == [];
    BuiltInSendable();
    if evt in subs {
      assert SubscribeAll(subs, true, 2, [evt]) == (added, []);
      assert added.Keys == {BUILT_IN};
    } else {
      assert SubscribeAll(added, true, 2, []) == (added, []);
      assert [evt] + [] == [evt];
      assert SubscribeAll(subs, true, 2, [evt]) == (added, [evt]);
      OneMessage(evt);
      ListedAlone(evt, added.Keys);
    }
  }

  lemma ListedAlone(evt: string, keys: set<string>)
    requires keys == {BUILT_IN, evt} && evt != BUILT_IN
    ensures SameEvents(if TrimRight(evt) == "" then [] else [TrimRight(evt)], keys) <==> Sendable(evt)
  {
    assert evt in keys - {BUILT_IN};
    assert Elems([]) == {};
    assert Elems([TrimRight(evt)]) == {TrimRight(evt)};
  }

  lemma BuiltInSendable()
    ensures Sendable(BUILT_IN)
  {
    assert BUILT_IN[|BUILT_IN| - 1] == '*';
  }

  lemma OneMessage(evt: string)
    ensures OnTexts([], Texts(Registers([evt]))) == if TrimRight(evt) == "" then [] else [TrimRight(evt)]
  {
    var text := Print(Register(evt));
    assert [evt][1..] == [];
    assert Registers([evt]) == [Register(evt)] + [];
    MappedFirst(Print, Register(evt), []);
    assert Texts(Registers([evt])) == [text];
    OneText(text);
    ReadAs(Register(evt));
  }

  lemma OneText(text: string)
    ensures OnTexts([], [text]) == OnText([], text)
  {
    assert [text][1..] == [];
  }
}
