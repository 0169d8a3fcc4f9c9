/**
 List filters: how the client turns a list of arguments into query parameters (api/client.go,
 R.Filter) and how the server reads a parameter back (frontend/frontend.go,
 convertValueToFilter).
 */
module Filters {
  import opened Strings
  import opened Wrappers

  datatype Cmp = Eq | Lt | Lte | Gt | Gte | Ne
  datatype Span = Between | Except

  datatype Filter = Compare(cmp: Cmp, value: string) | Range(span: Span, lo: string, hi: string)

  type Param = (string, string)

  // ----- operator names -----

  function CmpName(op: Cmp): (s: string)
    ensures |s| > 0 && '(' !in s
  {
    match op
    case Eq => "Eq" case Lt => "Lt" case Lte => "Lte" case Gt => "Gt" case Gte => "Gte" case Ne => "Ne"
  }

  function SpanName(op: Span): (s: string)
    ensures |s| > 0 && '(' !in s
  {
    match op
    case Between => "Between" case Except => "Except"
  }

  function CmpOf(s: string): Option<Cmp> {
    if s == "Eq" then Some(Eq) else if s == "Lt" then Some(Lt) else if s == "Lte" then Some(Lte)
    else if s == "Gt" then Some(Gt) else if s == "Gte" then Some(Gte) else if s == "Ne" then Some(Ne)
    else None
  }

  function SpanOf(s: string): Option<Span> {
    if s == "Between" then Some(Between) else if s == "Except" then Some(Except) else None
  }

  function LowerChar(c: char): char {
    if 'A' <= c <= 'Z' then ((c as int) + 32) as char else c
  }

  function Lower(s: string): string {
    if s == "" then "" else [LowerChar(s[0])] + Lower(s[1..])
  }

  predicate IsWordChar(c: char) {
    'a' <= c <= 'z' || 'A' <= c <= 'Z' || '0' <= c <= '9' || c == '_'
  }

  /** The first letter of every word in upper case. */
  function Title(s: string, start: bool): string {
    if s == "" then ""
    else
      var c := if start && 'a' <= s[0] <= 'z' then ((s[0] as int) - 32) as char else s[0];
      [c] + Title(s[1..], !IsWordChar(s[0]))
  }

  /** Operators may be spelled in any mixture of cases. */
  function Spelled(s: string): string {
    Title(Lower(s), true)
  }

  lemma {:induction false} LowerTitle(s: string, start: bool)
    ensures Lower(Title(Lower(s), start)) == Lower(s)
  {
    if s != "" {
      var low := Lower(s);
      assert low[1..] == Lower(s[1..]);
      LowerTitle(s[1..], !IsWordChar(low[0]));
      var t := Title(low, start);
      assert t[1..] == Title(low[1..], !IsWordChar(low[0]));
      assert LowerChar(t[0]) == low[0];
    }
  }

  /** A name that is its own spelling is meant by exactly the spellings that differ from it in case. */
  lemma AnyCase(s: string, name: string)
    requires Spelled(name) == name
    ensures Spelled(s) == name <==> Lower(s) == Lower(name)
  {
    LowerTitle(s, true);
  }

  predicate Small(s: string) {
    forall i :: 0 <= i < |s| ==> 'a' <= s[i] <= 'z'
  }

  lemma {:induction false} SmallFixed(s: string)
    requires Small(s)
    ensures Lower(s) == s && Title(s, false) == s
  {
    if s != "" {
      SmallFixed(s[1..]);
      assert s == [s[0]] + s[1..];
    }
  }

  lemma CapitalFixed(s: string)
    requires s != "" && 'A' <= s[0] <= 'Z' && Small(s[1..])
    ensures Spelled(s) == s
  {
    SmallFixed(s[1..]);
    var low := Lower(s);
    assert low[1..] == s[1..];
    assert s == [s[0]] + s[1..];
  }

  /** The names of all operators are. */
  lemma NamesAreSpelled(op: Cmp, span: Span)
    ensures Spelled(CmpName(op)) == CmpName(op)
    ensures Spelled(SpanName(span)) == SpanName(span)
  {
    CapitalFixed(CmpName(op));
    CapitalFixed(SpanName(span));
  }

  /** Operators are recognised in any mixture of cases, and nothing else is. */
  lemma OperatorsInAnyCase(s: string, op: Cmp, span: Span)
    ensures CmpOf(Spelled(s)) == Some(op) <==> Lower(s) == Lower(CmpName(op))
    ensures SpanOf(Spelled(s)) == Some(span) <==> Lower(s) == Lower(SpanName(span))
  {
    NamesAreSpelled(op, span);
    AnyCase(s, CmpName(op));
    AnyCase(s, SpanName(span));
  }

  // ----- what the client accepts -----

  predicate Setting(s: string) {
    s == "sort" || s == "limit" || s == "offset" || s == "slim"
  }

  predicate Keyword(s: string) {
    s == "reverse" || Setting(s)
  }

  datatype Item =
    | Reverse
    | Set(name: string, value: string)
    | On1(index: string, op: string, value: string)
    | On2(index: string, op: string, lo: string, hi: string)

  predicate Valid(it: Item) {
    match it
    case Reverse => true
    case Set(name, _) => Setting(name)
    case On1(index, op, _) => !Keyword(index) && CmpOf(Spelled(op)).Some?
    case On2(index, op, _, _) => !Keyword(index) && SpanOf(Spelled(op)).Some?
  }

  predicate AllValid(items: seq<Item>) {
    forall i :: 0 <= i < |items| ==> Valid(items[i])
  }

  function Args(it: Item): seq<string> {
    match it
    case Reverse => ["reverse"]
    case Set(name, value) => [name, value]
    case On1(index, op, value) => [index, op, value]
    case On2(index, op, lo, hi) => [index, op, lo, hi]
  }

  function Flat(items: seq<Item>): seq<string> {
    if items == [] then [] else Args(items[0]) + Flat(items[1..])
  }

  /** The first item of an argument list. */
  function First(args: seq<string>): (it: Option<Item>)
    requires args != []
    ensures it.Some? ==> |Args(it.value)| <= |args|
  {
    if args[0] == "reverse" then Some(Reverse)
    else if Setting(args[0]) then if |args| < 2 then None else Some(Set(args[0], args[1]))
    else if |args| < 2 then None
    else if CmpOf(Spelled(args[1])).Some? then
      if |args| < 3 then None else Some(On1(args[0], args[1], args[2]))
    else if SpanOf(Spelled(args[1])).Some? then
      if |args| < 4 then None else Some(On2(args[0], args[1], args[2], args[3]))
    else None
  }

  function Items(args: seq<string>): Option<seq<Item>>
    decreases |args|
  {
    if args == [] then Some([])
    else
      var it := First(args);
      if it.None? then None
      else
        var rest := Items(args[|Args(it.value)|..]);
        if rest.None? then None else Some([it.value] + rest.value)
  }

  function ParamOf(it: Item): Param {
    match it
    case Reverse => ("reverse", "true")
    case Set(name, value) => (name, value)
    case On1(index, op, value) => (index, Spelled(op) + "(" + (value + ")"))
    case On2(index, op, lo, hi) => (index, Spelled(op) + "(" + ((lo + "," + hi) + ")"))
  }

  function ParamsOf(items: seq<Item>): seq<Param> {
    if items == [] then [] else [ParamOf(items[0])] + ParamsOf(items[1..])
  }

  /** The item that starts at an argument; None when there is none. */
  method ScanItem(args: seq<string>, i: nat) returns (it: Option<Item>)
    requires i < |args|
    ensures it == First(args[i..])
  {
    var filter := args[i];
    assert args[i..][0] == filter;
    if filter == "reverse" {
      return Some(Reverse);
    }
    if |args| - i < 2 {
      return None;
    }
    if Setting(filter) {
      return Some(Set(filter, args[i + 1]));
    }
    var op := Spelled(args[i + 1]);
    if CmpOf(op).Some? {
      if |args| - i < 3 {
        return None;
      }
      return Some(On1(filter, args[i + 1], args[i + 2]));
    }
    if SpanOf(op).Some? {
      if |args| - i < 4 {
        return None;
      }
      return Some(On2(filter, args[i + 1], args[i + 2], args[i + 3]));
    }
    return None;
  }

  /** The walk over the arguments; None when the request fails instead. */
  method PrintFilter(args: seq<string>) returns (r: Option<seq<Param>>)
    ensures r == if Items(args).None? then None else Some(ParamsOf(Items(args).value))
  {
    var params: seq<Param> := [];
    var i := 0;
    ghost var done: seq<Item> := [];
    ScanStart(args);
    while i < |args|
      invariant 0 <= i <= |args| && params == ParamsOf(done)
      invariant Scanned(args, i, done)
      decreases |args| - i
    {
      var it, n := NextItem(args, i, done);
      if it.None? {
        return None;
      }
      params := AddParam(params, done, it.value);
      i, done := n, done + [it.value];
    }
    assert done + [] == done;
    return Some(params);
  }

  /** One item, and where the next one starts. */
  method NextItem(args: seq<string>, i: nat, ghost done: seq<Item>) returns (it: Option<Item>, n: nat)
    requires i < |args| && Scanned(args, i, done)
    ensures it.None? ==> Items(args).None?
    ensures it.Some? ==> i < n <= |args| && Scanned(args, n, done + [it.value])
  {
    it := ScanItem(args, i);
    ScanNext(args, i, done);
    n := if it.Some? then i + |Args(it.value)| else i;
  }

  method AddParam(params: seq<Param>, ghost done: seq<Item>, it: Item) returns (params': seq<Param>)
    requires params == ParamsOf(done)
    ensures params' == ParamsOf(done + [it])
  {
    ParamsAppend(done, it);
    params' := params + [ParamOf(it)];
  }

  /** The arguments before i are the items done. */
  ghost predicate Scanned(args: seq<string>, i: nat, done: seq<Item>) {
    && i <= |args|
    && Items(args) == if Items(args[i..]).None? then None else Some(done + Items(args[i..]).value)
  }

  lemma ScanStart(args: seq<string>)
    ensures Scanned(args, 0, [])
  {
    assert args[0..] == args;
    assert Items(args).Some? ==> [] + Items(args).value == Items(args).value;
  }

  lemma ScanNext(args: seq<string>, i: nat, done: seq<Item>)
    requires i < |args| && Scanned(args, i, done)
    ensures var it := First(args[i..]);
            if it.None? then Items(args).None? else Scanned(args, i + |Args(it.value)|, done + [it.value])
  {
    var it := First(args[i..]);
    if it.Some? {
      assert args[i..][|Args(it.value)|..] == args[i + |Args(it.value)|..];
      var rest := Items(args[i + |Args(it.value)|..]);
      assert rest.Some? ==> done + ([it.value] + rest.value) == done + [it.value] + rest.value;
    }
  }

  lemma {:induction false} ParamsAppend(items: seq<Item>, it: Item)
    ensures ParamsOf(items + [it]) == ParamsOf(items) + [ParamOf(it)]
  {
    if items == [] {
      assert (items + [it])[1..] == [];
    } else {
      ParamsAppend(items[1..], it);
      assert (items + [it])[1..] == items[1..] + [it];
    }
  }

  lemma FirstOf(it: Item, rest: seq<string>)
    requires Valid(it)
    ensures First(Args(it) + rest) == Some(it)
    ensures (Args(it) + rest)[|Args(it)|..] == rest
  {
    if it.On2? {
      NotBoth(Spelled(it.op));
    }
  }

  lemma NotBoth(s: string)
    requires SpanOf(s).Some?
    ensures CmpOf(s).None?
  {
  }

  lemma ItemsFirst(it: Item, rest: seq<string>)
    requires Valid(it) && Items(rest).Some?
    ensures Items(Args(it) + rest) == Some([it] + Items(rest).value)
  {
    FirstOf(it, rest);
  }

  /** Every list of items is taken apart as it was put together. */
  lemma {:induction false} ItemsOfFlat(items: seq<Item>)
    requires AllValid(items)
    ensures Items(Flat(items)) == Some(items)
  {
    if items != [] {
      ItemsOfFlat(items[1..]);
      ItemsFirst(items[0], Flat(items[1..]));
      assert items == [items[0]] + items[1..];
    }
  }

  lemma FirstIsValid(args: seq<string>)
    requires args != [] && First(args).Some?
    ensures var it := First(args).value;
            && Valid(it) && args == Args(it) + args[|Args(it)|..]
  {
    var it := First(args).value;
    assert args[..|Args(it)|] == Args(it);
  }

  lemma FlatFirst(it: Item, items: seq<Item>)
    ensures Flat([it] + items) == Args(it) + Flat(items)
  {
    assert ([it] + items)[1..] == items;
  }

  /** And nothing else is accepted. */
  lemma {:induction false} OnlyItems(args: seq<string>)
    ensures Items(args).Some? ==> AllValid(Items(args).value) && Flat(Items(args).value) == args
    decreases |args|
  {
    if args != [] && Items(args).Some? {
      var it := First(args).value;
      var rest := args[|Args(it)|..];
      FirstIsValid(args);
      OnlyItems(rest);
      FlatFirst(it, Items(rest).value);
    }
  }

  // ----- what the server reads -----

  /** None where the source indexes a part that is not there. */
  function Read(v: string): Option<Filter> {
    var args := SplitN(v, '(', 2);
    var cmp, span := CmpOf(args[0]), SpanOf(args[0]);
    if cmp.None? && span.None? then Some(Compare(Eq, v))
    else if |args| < 2 then None
    else
      var inner := SplitN(args[1], ')', 2)[0];
      if cmp.Some? then Some(Compare(cmp.value, inner))
      else
        var parts := Split(inner, ',');
        if |parts| < 2 then None else Some(Range(span.value, parts[0], parts[1]))
  }

  /** Keys that are settings are not filters. */
  function ReadAll(params: seq<Param>): Option<seq<(string, Filter)>> {
    if params == [] then Some([])
    else
      var rest := ReadAll(params[1..]);
      if Keyword(params[0].0) then rest
      else
        var f := Read(params[0].1);
        if f.None? || rest.None? then None else Some([(params[0].0, f.value)] + rest.value)
  }

  /** What an item asks for. */
  function Meant(it: Item): Filter
    requires Valid(it) && (it.On1? || it.On2?)
  {
    match it
    case On1(_, op, value) => Compare(CmpOf(Spelled(op)).value, value)
    case On2(_, op, lo, hi) => Range(SpanOf(Spelled(op)).value, lo, hi)
  }

  function MeantAll(items: seq<Item>): seq<(string, Filter)>
    requires AllValid(items)
  {
    if items == [] then []
    else if items[0].On1? || items[0].On2? then [(items[0].index, Meant(items[0]))] + MeantAll(items[1..])
    else MeantAll(items[1..])
  }

  /** Arguments that keep clear of the punctuation. */
  predicate Clean(it: Item) {
    match it
    case On1(_, _, value) => ')' !in value
    case On2(_, _, lo, hi) => ')' !in lo && ',' !in lo && ')' !in hi && ',' !in hi
    case _ => true
  }

  predicate AllClean(items: seq<Item>) {
    forall i :: 0 <= i < |items| ==> Clean(items[i])
  }

  // ----- round trip -----

  lemma UpTo(s: string, c: char, rest: string)
    ensures var head := SplitN(s + [c] + rest, c, 2)[0];
            head == s[..IndexOf(s, c)] && c !in head
  {
    var i := IndexOf(s, c);
    var text := s + [c] + rest;
    assert text[i] == c;
    assert text == s[..i] + [c] + text[i + 1..];
    SplitAt(s[..i], c, text[i + 1..]);
    assert SplitN(text, c, 2) == [s[..i], text[i + 1..]];
  }

  lemma Opened(name: string, rest: string)
    requires '(' !in name
    ensures SplitN(name + "(" + rest, '(', 2) == [name, rest]
  {
    SplitAt(name, '(', rest);
  }

  lemma CmpSpelled(s: string)
    ensures CmpOf(s).Some? ==> s == CmpName(CmpOf(s).value)
    ensures SpanOf(s).Some? ==> s == SpanName(SpanOf(s).value)
  {
  }

  lemma ReadCompare(name: string, value: string)
    requires CmpOf(name).Some?
    ensures Read(name + "(" + (value + ")")) == Some(Compare(CmpOf(name).value, value[..IndexOf(value, ')')]))
  {
    CmpSpelled(name);
    Opened(name, value + ")");
    UpTo(value, ')', "");
    assert value + ")" + "" == value + ")";
  }

  lemma ReadRange(name: string, inner: string)
    requires SpanOf(name).Some?
    ensures var parts := Split(inner[..IndexOf(inner, ')')], ',');
            var read := if |parts| < 2 then None else Some(Range(SpanOf(name).value, parts[0], parts[1]));
            Read(name + "(" + (inner + ")")) == read
  {
    CmpSpelled(name);
    NotBoth(name);
    Opened(name, inner + ")");
    UpTo(inner, ')', "");
    assert inner + ")" + "" == inner + ")";
  }

  lemma {:induction false} PartsAreClean(s: string, c: char, i: nat, d: char)
    requires i < |Split(s, c)| && (d == c || d !in s)
    ensures d !in Split(s, c)[i]
    decreases |s|
  {
    var k := IndexOf(s, c);
    if k < |s| && i > 0 {
      assert d == c || d !in s[k + 1..];
      PartsAreClean(s[k + 1..], c, i - 1, d);
    }
  }

  /** The two bounds come back just when neither holds a comma or a closing parenthesis. */
  lemma BoundsBack(lo: string, hi: string)
    ensures var inner := lo + "," + hi;
            var parts := Split(inner[..IndexOf(inner, ')')], ',');
            (|parts| >= 2 && parts[0] == lo && parts[1] == hi) ==
            (')' !in lo && ',' !in lo && ')' !in hi && ',' !in hi)
  {
    var inner := lo + "," + hi;
    var cut := inner[..IndexOf(inner, ')')];
    var parts := Split(cut, ',');
    assert ')' !in cut;
    PartsAreClean(cut, ',', 0, ',');
    PartsAreClean(cut, ',', 0, ')');
    if |parts| >= 2 {
      PartsAreClean(cut, ',', 1, ',');
      PartsAreClean(cut, ',', 1, ')');
    }
    if ')' !in lo && ',' !in lo && ')' !in hi && ',' !in hi {
      assert cut == inner;
      assert Join([lo, hi], ',') == inner by {
        assert [lo, hi][1..] == [hi];
      }
      SplitJoin([lo, hi], ',');
    }
  }

  /** One filter is read as it was meant just when its arguments are clean. */
  lemma FilterRoundTrip(it: Item)
    requires Valid(it) && (it.On1? || it.On2?)
    ensures Read(ParamOf(it).1) == Some(Meant(it)) <==> Clean(it)
  {
    match it
    case On1(_, op, value) =>
      ReadCompare(Spelled(op), value);
      assert value[..IndexOf(value, ')')] == value <==> ')' !in value;
    case On2(_, op, lo, hi) =>
      ReadRange(Spelled(op), lo + "," + hi);
      BoundsBack(lo, hi);
  }

  /**
   Round trip for lists of any length: what the server reads from the printed parameters is
   what was meant, just when every argument is clean.
   */
  lemma {:induction false} ListRoundTrip(items: seq<Item>)
    requires AllValid(items)
    ensures ReadAll(ParamsOf(items)) == Some(MeantAll(items)) <==> AllClean(items)
  {
    if items != [] {
      var it, rest := items[0], items[1..];
      ListRoundTrip(rest);
      CleanTail(items);
      assert ParamsOf(items)[1..] == ParamsOf(rest);
      if it.On1? || it.On2? {
        FilterRoundTrip(it);
        OneAhead(items);
      }
    }
  }

  lemma CleanTail(items: seq<Item>)
    requires items != []
    ensures AllClean(items) <==> Clean(items[0]) && AllClean(items[1..])
  {
    assert forall i :: 0 < i < |items| ==> items[i] == items[1..][i - 1];
  }

  lemma OneAhead(items: seq<Item>)
    requires AllValid(items) && items != [] && (items[0].On1? || items[0].On2?)
    ensures ReadAll(ParamsOf(items)) == Some(MeantAll(items))
       <==> Read(ParamOf(items[0]).1) == Some(Meant(items[0]))
            && ReadAll(ParamsOf(items[1..])) == Some(MeantAll(items[1..]))
  {
    var ps, rest := ParamsOf(items), items[1..];
    assert ps[1..] == ParamsOf(rest);
    if ReadAll(ps) == Some(MeantAll(items)) {
      assert MeantAll(items)[1..] == MeantAll(rest);
      assert ReadAll(ps).value[1..] == ReadAll(ParamsOf(rest)).value;
    }
  }

  // ----- the text itself -----

  /** The operators under their names on the wire. */
  const COMPARISONS: map<string, Cmp> := map["Eq" := Eq, "Lt" := Lt, "Lte" := Lte, "Gt" := Gt, "Gte" := Gte, "Ne" := Ne]
  const SPANS: map<string, Span> := map["Between" := Between, "Except" := Except]

  lemma NamesOnTheWire(name: string)
    ensures CmpOf(name) == if name in COMPARISONS then Some(COMPARISONS[name]) else None
    ensures SpanOf(name) == if name in SPANS then Some(SPANS[name]) else None
  {
  }

  /** What the server reads from the text of an operator. */
  lemma CompareText(name: string, v: string)
    requires name in COMPARISONS && ')' !in v
    ensures Read(name + "(" + (v + ")")) == Some(Compare(COMPARISONS[name], v))
  {
    NamesOnTheWire(name);
    ReadCompare(name, v);
    assert v[..IndexOf(v, ')')] == v;
  }

  lemma SpanText(name: string, lo: string, hi: string)
    requires name in SPANS && ')' !in lo && ',' !in lo && ')' !in hi && ',' !in hi
    ensures Read(name + "(" + ((lo + "," + hi) + ")")) == Some(Range(SPANS[name], lo, hi))
  {
    NamesOnTheWire(name);
    ReadRange(name, lo + "," + hi);
    BoundsBack(lo, hi);
  }

  /** A value that starts with no operator is compared for equality as a whole. */
  lemma PlainText(v: string)
    requires v[..IndexOf(v, '(')] !in COMPARISONS && v[..IndexOf(v, '(')] !in SPANS
    ensures Read(v) == Some(Compare(Eq, v))
  {
    NamesOnTheWire(v[..IndexOf(v, '(')]);
    assert SplitN(v, '(', 2)[0] == v[..IndexOf(v, '(')];
  }

  /** An operator without its parenthesis, or a range with one bound, is more than the server can read. */
  lemma Unreadable(name: string, v: string)
    ensures name in COMPARISONS || name in SPANS ==> Read(name) == None
    ensures name in SPANS && ')' !in v && ',' !in v ==> Read(name + "(" + (v + ")")) == None
  {
    NamesOnTheWire(name);
    CmpSpelled(name);
    if name in COMPARISONS || name in SPANS {
      assert SplitN(name, '(', 2) == [name];
    }
    if name in SPANS && ')' !in v && ',' !in v {
      ReadRange(name, v);
      assert v[..IndexOf(v, ')')] == v;
    }
  }

  /** The words that are not filters, and the parameters they become. */
  lemma SettingText(name: string, value: string)
    ensures Items([name, value]) == Some([Set(name, value)])
       <==> name == "sort" || name == "limit" || name == "offset" || name == "slim"
    ensures ParamOf(Set(name, value)) == (name, value)
  {
    OnlyItems([name, value]);
    assert Items([name, value]) == Some([Set(name, value)]) ==> Valid([Set(name, value)][0]);
    if Setting(name) {
      OneItem(Set(name, value));
    }
  }

  lemma ReverseText()
    ensures Items(["reverse"]) == Some([Reverse]) && ParamOf(Reverse) == ("reverse", "true")
  {
    OneItem(Reverse);
  }

  lemma OneItem(it: Item)
    requires Valid(it)
    ensures Items(Args(it)) == Some([it])
  {
    ItemsFirst(it, []);
    assert Args(it) + [] == Args(it) && [it] + [] == [it];
  }
}
