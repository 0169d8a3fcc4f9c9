/**
 The text of the registration protocol: what the client writes (api/event_stream.go) and how
 the server reads it (frontend/websocket.go).
 */
module WireText {
  import opened Strings
  import opened Wrappers

  datatype Msg = Register(evt: string) | Deregister(evt: string)

  predicate IsSpace(c: char) {
    || '\t' <= c <= '\r' || c == ' ' || c == '\U{85}' || c == '\U{A0}' || c == '\U{1680}'
    || '\U{2000}' <= c <= '\U{200a}' || c == '\U{2028}' || c == '\U{2029}' || c == '\U{202f}'
    || c == '\U{205f}' || c == '\U{3000}'
  }

  function TrimLeft(s: string): string {
    if s != [] && IsSpace(s[0]) then TrimLeft(s[1..]) else s
  }

  function TrimRight(s: string): (t: string)
    ensures |t| <= |s|
    ensures s != [] && IsSpace(s[|s| - 1]) ==> |t| < |s|
  {
    if s != [] && IsSpace(s[|s| - 1]) then TrimRight(s[..|s| - 1]) else s
  }

  function Print(m: Msg): string {
    match m
    case Register(evt) => "register" + " " + evt
    case Deregister(evt) => "deregister" + " " + evt
  }

  /** Trimmed and cut at the first blank; anything else than the two verbs is dropped. */
  function Parse(text: string): Option<Msg> {
    var parts := SplitN(TrimRight(TrimLeft(text)), ' ', 2);
    if |parts| != 2 then None
    else if parts[0] == "register" then Some(Register(parts[1]))
    else if parts[0] == "deregister" then Some(Deregister(parts[1]))
    else None
  }

  /** Event names that arrive as they were sent. */
  predicate Sendable(evt: string) {
    evt != "" && !IsSpace(evt[|evt| - 1])
  }

  lemma {:induction false} TrimAppend(p: string, e: string)
    requires p != "" && !IsSpace(p[|p| - 1])
    ensures TrimRight(p + " " + e) == if TrimRight(e) == "" then p else p + " " + TrimRight(e)
    decreases |e|
  {
    var text := p + " " + e;
    if e == "" {
      assert text[..|text| - 1] == p;
    } else {
      assert text[|text| - 1] == e[|e| - 1];
      if IsSpace(e[|e| - 1]) {
        TrimAppend(p, e[..|e| - 1]);
        assert text[..|text| - 1] == p + " " + e[..|e| - 1];
      }
    }
  }

  lemma PartsOf(p: string, e: string)
    requires p != "" && ' ' !in p && !IsSpace(p[0]) && !IsSpace(p[|p| - 1])
    ensures SplitN(TrimRight(TrimLeft(p + " " + e)), ' ', 2)
         == if TrimRight(e) == "" then [p] else [p, TrimRight(e)]
  {
    TrimAppend(p, e);
    var text := p + " " + e;
    assert text[0] == p[0];
    if TrimRight(e) != "" {
      SplitAt(p, ' ', TrimRight(e));
    }
  }

  /** What the server reads: the event name without trailing blanks, if anything is left. */
  lemma ReadAs(m: Msg)
    ensures Parse(Print(m))
         == if TrimRight(m.evt) == "" then None
            else if m.Register? then Some(Register(TrimRight(m.evt)))
            else Some(Deregister(TrimRight(m.evt)))
  {
    VerbOk("register");
    VerbOk("deregister");
    if m.Register? {
      PartsOf("register", m.evt);
    } else {
      PartsOf("deregister", m.evt);
    }
  }

  lemma VerbOk(verb: string)
    requires verb == "register" || verb == "deregister"
    ensures verb != "" && ' ' !in verb && !IsSpace(verb[0]) && !IsSpace(verb[|verb| - 1])
  {
  }

  /** A message is read back as it was meant just when its event name is sendable. */
  lemma ReadBack(m: Msg)
    ensures Parse(Print(m)) == Some(m) <==> Sendable(m.evt)
  {
    ReadAs(m);
  }

  /** The two verbs as they are written. */
  lemma VerbText(evt: string)
    requires Sendable(evt)
    ensures Parse("register" + " " + evt) == Some(Register(evt))
    ensures Parse("deregister" + " " + evt) == Some(Deregister(evt))
  {
    ReadBack(Register(evt));
    ReadBack(Deregister(evt));
  }

  /** White space before the verb is ignored. */
  lemma LeadingBlank(c: char, text: string)
    requires IsSpace(c)
    ensures Parse([c] + text) == Parse(text)
  {
    assert ([c] + text)[1..] == text;
  }

  // ----- the server's list -----

  function Without(list: seq<string>, evt: string): seq<string> {
    if list == [] then []
    else if list[|list| - 1] == evt then Without(list[..|list| - 1], evt)
    else Without(list[..|list| - 1], evt) + [list[|list| - 1]]
  }

  /** Every occurrence is taken out, and nothing else. */
  lemma {:induction false} WithoutAll(list: seq<string>, evt: string, x: string)
    ensures x in Without(list, evt) <==> x in list && x != evt
  {
    if list != [] {
      WithoutAll(list[..|list| - 1], evt, x);
      assert list == list[..|list| - 1] + [list[|list| - 1]];
    }
  }

  function Update(list: seq<string>, m: Msg): seq<string> {
    match m
    case Register(evt) => if evt in list then list else list + [evt]
    case Deregister(evt) => Without(list, evt)
  }

  function OnText(list: seq<string>, text: string): seq<string> {
    var m := Parse(text);
    if m.None? then list else Update(list, m.value)
  }

  // ----- which events a registration is for -----

  datatype Event = Event(kind: string, action: string, key: string)

  predicate Fits(part: string, value: string) {
    part == value || part == "*"
  }

  /** The client's test: three parts, each the value or a star. */
  predicate Matches(reg: string, e: Event) {
    var parts := SplitN(reg, '.', 3);
    |parts| == 3 && Fits(parts[0], e.kind) && Fits(parts[1], e.action) && Fits(parts[2], e.key)
  }

  /** Too few parts, all of which fit: the server indexes a part that is not there. */
  predicate Stops(reg: string, e: Event) {
    var parts := SplitN(reg, '.', 3);
    |parts| < 3 && Fits(parts[0], e.kind) && (|parts| == 2 ==> Fits(parts[1], e.action))
  }

  /** The first registration that decides about an event: one that matches it, or stops the server. */
  ghost predicate Decides(emap: seq<string>, e: Event, i: int) {
    && 0 <= i < |emap|
    && (Matches(emap[i], e) || Stops(emap[i], e))
    && forall k :: 0 <= k < i ==> !Matches(emap[k], e) && !Stops(emap[k], e)
  }

  /** Whether an event passes a session's list; None where the server would stop. */
  function Passes(emap: seq<string>, e: Event): (r: Option<bool>)
    ensures r == None <==> exists i :: Decides(emap, e, i) && Stops(emap[i], e)
    ensures r == Some(true) <==> exists i :: Decides(emap, e, i) && Matches(emap[i], e)
  {
    if emap == [] then Some(false)
    else if Stops(emap[0], e) then
      assert Decides(emap, e, 0);
      None
    else if Matches(emap[0], e) then
      assert Decides(emap, e, 0);
      Some(true)
    else
      var rest := emap[1..];
      assert forall i :: Decides(emap, e, i) ==> i > 0 && emap[i] == rest[i - 1] && Decides(rest, e, i - 1);
      assert forall i :: Decides(rest, e, i) ==> emap[i + 1] == rest[i] && Decides(emap, e, i + 1);
      Passes(rest, e)
  }

  /** The server's test over a session's list, which it leaves at the first registration that decides. */
  method Forwards(emap: seq<string>, e: Event) returns (r: Option<bool>)
    ensures r == Passes(emap, e)
    ensures r == None <==> exists i :: Decides(emap, e, i) && Stops(emap[i], e)
    ensures r == Some(true) <==> exists i :: Decides(emap, e, i) && Matches(emap[i], e)
  {
    assert emap[0..] == emap;
    for i := 0 to |emap|
      invariant Passes(emap, e) == Passes(emap[i..], e)
    {
      assert emap[i..][0] == emap[i] && emap[i..][1..] == emap[i + 1..];
      var parts := SplitN(emap[i], '.', 3);
      if !Fits(parts[0], e.kind) {
        continue;
      }
      if |parts| < 2 {
        return None;
      }
      if !Fits(parts[1], e.action) {
        continue;
      }
      if |parts| < 3 {
        return None;
      }
      if !Fits(parts[2], e.key) {
        continue;
      }
      return Some(true);
    }
    return Some(false);
  }

  /** A subscription in full does not help when a short one that fits comes before it. */
  lemma ShortNameStops(e: Event, full: string)
    requires '.' !in e.kind
    ensures Passes([e.kind, full], e) == None
  {
    assert SplitN(e.kind, '.', 3) == [e.kind];
    assert Stops(e.kind, e);
  }

  /** Which registrations have too few parts: a type alone, or a type and an action, that fit. */
  lemma StopsParts(kind: string, action: string, e: Event)
    requires '.' !in kind && '.' !in action
    ensures Stops(kind, e) <==> kind == e.kind || kind == "*"
    ensures Stops(kind + "." + action, e) <==> (kind == e.kind || kind == "*") && (action == e.action || action == "*")
  {
    assert SplitN(kind, '.', 3) == [kind];
    SplitAt(kind, '.', action);
    assert SplitN(action, '.', 2) == [action];
    assert SplitN(kind + "." + action, '.', 3) == [kind, action];
  }

  lemma ThreeParts(kind: string, action: string, key: string)
    requires '.' !in kind && '.' !in action
    ensures SplitN(kind + "." + (action + "." + key), '.', 3) == [kind, action, key]
  {
    SplitAt(kind, '.', action + "." + key);
    SplitAt(action, '.', key);
    assert SplitN(action + "." + key, '.', 2) == [action, key];
  }

  /** A registration is cut at its first two dots; the key may hold more of them. */
  lemma MatchesParts(kind: string, action: string, key: string, e: Event)
    requires '.' !in kind && '.' !in action
    ensures Matches(kind + "." + (action + "." + key), e)
       <==> && (kind == e.kind || kind == "*") && (action == e.action || action == "*")
            && (key == e.key || key == "*")
    ensures !Stops(kind + "." + (action + "." + key), e)
  {
    ThreeParts(kind, action, key);
  }

  /** The server's side: one acknowledgement for each message it understands. */
  class Session {
    var emap: seq<string>

    method OnMessage(text: string) returns (ack: Option<Msg>)
      modifies this
      ensures ack == Parse(text)
      ensures emap == OnText(old(emap), text)
    {
      ack := Parse(text);
      if ack.None? {
        return;
      }
      match ack.value
      case Register(evt) =>
        var found := false;
        for i := 0 to |emap|
          invariant !found && forall k :: 0 <= k < i ==> emap[k] != evt
        {
          if emap[i] == evt {
            found := true;
            break;
          }
        }
        if !found {
          emap := emap + [evt];
        }
      case Deregister(evt) =>
        var res := [];
        for i := 0 to |emap|
          invariant emap == old(emap) && res == Without(emap[..i], evt)
        {
          assert emap[..i + 1][..i] == emap[..i];
          if emap[i] == evt {
            continue;
          }
          res := res + [emap[i]];
        }
        assert emap[..|emap|] == emap;
        emap := res;
    }
  }
}
