/**
 A machine's task list holds strings.  An entry without a colon names a task; an entry
 with one is split at its first colon, and only the prefixes "stage" and "bootenv" mean
 something to the job interpreter.  `Entry` is that split form, and the two lemmas below
 show that it loses nothing: strings and valid entries are in bijection.
 */
module TaskList {
  import opened Strings

  datatype Entry =
    | Task(name: string)
    | StageMark(name: string)
    | EnvMark(name: string)
    | Malformed(prefix: string, rest: string)

  function Parse(text: string): Entry {
    var i := IndexOf(text, ':');
    if i == |text| then Task(text)
    else
      var prefix, rest := text[..i], text[i + 1..];
      if prefix == "stage" then StageMark(rest)
      else if prefix == "bootenv" then EnvMark(rest)
      else Malformed(prefix, rest)
  }

  function Render(e: Entry): string {
    match e
    case Task(name) => name
    case StageMark(name) => "stage" + ":" + name
    case EnvMark(name) => "bootenv" + ":" + name
    case Malformed(prefix, rest) => prefix + ":" + rest
  }

  /** The entries that some string parses to. */
  predicate Valid(e: Entry) {
    match e
    case Task(name) => ':' !in name
    case Malformed(prefix, _) => ':' !in prefix && prefix != "stage" && prefix != "bootenv"
    case _ => true
  }

  lemma RenderParse(text: string)
    ensures Valid(Parse(text))
    ensures Render(Parse(text)) == text
  {
    var i := IndexOf(text, ':');
    if i < |text| {
      assert text == text[..i] + [':'] + text[i + 1..];
    }
  }

  lemma ParseRender(e: Entry)
    requires Valid(e)
    ensures Parse(Render(e)) == e
  {
    match e
    case Task(_) =>
    case StageMark(rest) => ParseSplit("stage", rest);
    case EnvMark(rest) => ParseSplit("bootenv", rest);
    case Malformed(prefix, rest) => ParseSplit(prefix, rest);
  }

  /** The two prefixes as they are written. */
  lemma MarkerText(name: string)
    ensures Parse("stage" + ":" + name) == StageMark(name)
    ensures Parse("bootenv" + ":" + name) == EnvMark(name)
  {
    ParseSplit("stage", name);
    ParseSplit("bootenv", name);
  }

  lemma ParseSplit(prefix: string, rest: string)
    requires ':' !in prefix
    ensures Parse(prefix + ":" + rest)
         == if prefix == "stage" then StageMark(rest)
            else if prefix == "bootenv" then EnvMark(rest)
            else Malformed(prefix, rest)
  {
    SplitAt(prefix, ':', rest);
  }
}
