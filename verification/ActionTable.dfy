/**
 The table of actions in its imperative form (midlayer/actions.go): object type, then command,
 then a list with at most one action of each plugin.  Empty lists and maps are pruned.
 */
module ActionTable {
  import opened Actions
  import opened Wrappers

  datatype Entry = Entry(plugin: string, id: Aid)

  type Commands = map<string, seq<Entry>>

  predicate OnePerPlugin(list: seq<Entry>) {
    forall i, j :: 0 <= i < j < |list| ==> list[i].plugin != list[j].plugin
  }

  function FindIn(list: seq<Entry>, plugin: string): (r: Option<Aid>)
    ensures r.None? <==> forall i :: 0 <= i < |list| ==> list[i].plugin != plugin
  {
    if list == [] then None
    else if list[0].plugin == plugin then Some(list[0].id)
    else
      assert list == [list[0]] + list[1..];
      FindIn(list[1..], plugin)
  }

  function Find(actions: map<string, Commands>, k: Key): Option<Aid> {
    if k.ob in actions && k.cmd in actions[k.ob] then FindIn(actions[k.ob][k.cmd], k.plugin) else None
  }

  ghost predicate AgreesAt(actions: map<string, Commands>, table: map<Key, Aid>, k: Key) {
    Find(actions, k) == if k in table then Some(table[k]) else None
  }

  ghost predicate Agrees(actions: map<string, Commands>, table: map<Key, Aid>) {
    forall k :: AgreesAt(actions, table, k)
  }

  predicate ListOk(list: seq<Entry>) {
    list != [] && OnePerPlugin(list)
  }

  predicate CommandsOk(oc: Commands) {
    oc != map[] && forall cmd :: cmd in oc ==> ListOk(oc[cmd])
  }

  predicate TableOk(actions: map<string, Commands>) {
    forall ob :: ob in actions ==> CommandsOk(actions[ob])
  }

  function CommandsOf(actions: map<string, Commands>, ob: string): Commands {
    if ob in actions then actions[ob] else map[]
  }

  /** The table with another list for a command; nothing empty is kept. */
  function PutList(actions: map<string, Commands>, ob: string, cmd: string, list: seq<Entry>): map<string, Commands> {
    var oc := CommandsOf(actions, ob);
    if list != [] then actions[ob := oc[cmd := list]]
    else if oc - {cmd} == map[] then actions - {ob}
    else actions[ob := oc - {cmd}]
  }

  lemma FindPut(actions: map<string, Commands>, ob: string, cmd: string, list: seq<Entry>, k: Key)
    ensures Find(PutList(actions, ob, cmd, list), k)
         == if k.ob == ob && k.cmd == cmd then FindIn(list, k.plugin) else Find(actions, k)
  {
    var oc := CommandsOf(actions, ob);
    if list == [] && oc - {cmd} == map[] && k.ob == ob && k.cmd != cmd {
      assert k.cmd in oc ==> k.cmd in oc - {cmd};
    }
  }

  lemma PutOk(actions: map<string, Commands>, ob: string, cmd: string, list: seq<Entry>)
    requires TableOk(actions) && (list != [] ==> ListOk(list))
    ensures TableOk(PutList(actions, ob, cmd, list))
  {
    var oc := CommandsOf(actions, ob);
    assert forall c :: c in oc ==> ListOk(oc[c]);
    assert cmd in oc[cmd := list];
  }

  /** Replacing the list of a command by one that differs at one plugin. */
  lemma PutAgrees(actions: map<string, Commands>, table: map<Key, Aid>, key: Key, list: seq<Entry>, table': map<Key, Aid>)
    requires Agrees(actions, table)
    requires forall k :: k != key ==> (k in table' <==> k in table) && (k in table ==> table'[k] == table[k])
    requires FindIn(list, key.plugin) == if key in table' then Some(table'[key]) else None
    requires forall p :: p != key.plugin ==> FindIn(list, p) == Find(actions, key.(plugin := p))
    ensures Agrees(PutList(actions, key.ob, key.cmd, list), table')
  {
    forall k ensures AgreesAt(PutList(actions, key.ob, key.cmd, list), table', k) {
      assert AgreesAt(actions, table, k);
      FindPut(actions, key.ob, key.cmd, list, k);
      if k != key && k.ob == key.ob && k.cmd == key.cmd {
        assert k == key.(plugin := k.plugin);
      }
    }
  }

  lemma {:induction false} FindAppend(list: seq<Entry>, e: Entry, plugin: string)
    requires FindIn(list, e.plugin).None?
    ensures FindIn(list + [e], plugin) == if plugin == e.plugin then Some(e.id) else FindIn(list, plugin)
  {
    if list != [] {
      assert (list + [e])[1..] == list[1..] + [e];
      assert list[0].plugin != e.plugin;
      forall i | 0 <= i < |list[1..]| ensures list[1..][i].plugin != e.plugin {
        assert list[1..][i] == list[i + 1];
      }
      FindAppend(list[1..], e, plugin);
    }
  }

  lemma {:induction false} FindAt(list: seq<Entry>, i: nat)
    requires OnePerPlugin(list) && i < |list|
    ensures FindIn(list, list[i].plugin) == Some(list[i].id)
  {
    if i > 0 {
      assert list[1..][i - 1] == list[i];
      assert list[0].plugin != list[i].plugin;
      FindAt(list[1..], i - 1);
    }
  }

  lemma AddAgrees(actions: map<string, Commands>, table: map<Key, Aid>, key: Key, list: seq<Entry>, id: Aid)
    requires TableOk(actions) && Agrees(actions, table) && key !in table
    requires list == if key.cmd in CommandsOf(actions, key.ob) then actions[key.ob][key.cmd] else []
    ensures TableOk(PutList(actions, key.ob, key.cmd, list + [Entry(key.plugin, id)]))
    ensures Agrees(PutList(actions, key.ob, key.cmd, list + [Entry(key.plugin, id)]), table[key := id])
  {
    assert AgreesAt(actions, table, key);
    forall p {
      FindAppend(list, Entry(key.plugin, id), p);
    }
    PutOk(actions, key.ob, key.cmd, list + [Entry(key.plugin, id)]);
    PutAgrees(actions, table, key, list + [Entry(key.plugin, id)], table[key := id]);
  }

  /** The list without a plugin's action, and that action. */
  method Split(list: seq<Entry>, plugin: string) returns (found: Option<Aid>, rest: seq<Entry>)
    requires OnePerPlugin(list)
    ensures found == FindIn(list, plugin)
    ensures OnePerPlugin(rest)
    ensures forall p :: FindIn(rest, p) == if p == plugin then None else FindIn(list, p)
  {
    found, rest := None, [];
    for i := 0 to |list|
      invariant found == FindIn(list[..i], plugin)
      invariant OnePerPlugin(rest)
      invariant forall j, k :: 0 <= j < |rest| && i <= k < |list| ==> rest[j].plugin != list[k].plugin
      invariant forall p :: FindIn(rest, p) == if p == plugin then None else FindIn(list[..i], p)
    {
      assert list[..i + 1] == list[..i] + [list[i]];
      forall k | 0 <= k < i ensures list[..i][k].plugin != list[i].plugin {
        assert list[..i][k] == list[k];
      }
      forall p {
        FindAppend(list[..i], list[i], p);
      }
      if list[i].plugin == plugin {
        found := Some(list[i].id);
      } else {
        forall p {
          FindAppend(rest, list[i], p);
        }
        rest := rest + [list[i]];
      }
    }
    assert list[..|list|] == list;
  }

  class Table {
    var actions: map<string, Commands>
    ghost var table: map<Key, Aid>

    ghost predicate Valid()
      reads this
    {
      TableOk(actions) && Agrees(actions, table)
    }

    /** Refused when the plugin has an action for the command already. */
    method Add(model: string, cmd: string, plugin: string, id: Aid) returns (ok: bool)
      requires Valid()
      modifies this
      ensures Valid()
      ensures var k := Key(if model != "" then model else "system", cmd, plugin);
              && (ok <==> k !in old(table))
              && table == if ok then old(table)[k := id] else old(table)
    {
      var ob := if model != "" then model else "system";
      var oc: Commands := if ob in actions then actions[ob] else map[];
      var list := if cmd in oc then oc[cmd] else [];
      ghost var key := Key(ob, cmd, plugin);
      assert AgreesAt(actions, table, key);
      assert FindIn(list, plugin) == Find(actions, key);
      for i := 0 to |list|
        invariant unchanged(this)
        invariant forall j :: 0 <= j < i ==> list[j].plugin != plugin
      {
        if list[i].plugin == plugin {
          return false;
        }
      }
      var e := Entry(plugin, id);
      AddAgrees(actions, table, key, list, id);
      ghost var next := PutList(actions, ob, cmd, list + [e]);
      actions := actions[ob := oc[cmd := list + [e]]];
      table := table[key := id];
      assert actions == next;
      ok := true;
    }

    /** Takes the action out of the table and hands it back to be unloaded. */
    method Remove(model: string, cmd: string, plugin: string) returns (taken: Option<Aid>)
      requires Valid()
      modifies this
      ensures Valid()
      ensures var k := Key(if model != "" then model else "system", cmd, plugin);
              && taken == (if k in old(table) then Some(old(table)[k]) else None)
              && table == old(table) - {k}
    {
      var ob := if model != "" then model else "system";
      ghost var key := Key(ob, cmd, plugin);
      assert AgreesAt(actions, table, key);
      if ob !in actions || cmd !in actions[ob] {
        return None;
      }
      var oc := actions[ob];
      var rest;
      taken, rest := Split(oc[cmd], plugin);
      if taken.None? {
        return;
      }
      PutOk(actions, ob, cmd, rest);
      PutAgrees(actions, table, key, rest, table - {key});
      ghost var next := PutList(actions, ob, cmd, rest);
      if |rest| > 0 {
        actions := actions[ob := oc[cmd := rest]];
      } else {
        oc := oc - {cmd};
        actions := if oc == map[] then actions - {ob} else actions[ob := oc];
      }
      table := table - {key};
      assert actions == next;
    }

    method GetSpecific(ob: string, name: string, plugin: string) returns (r: Option<Aid>)
      requires Valid()
      ensures r == if Key(ob, name, plugin) in table then Some(table[Key(ob, name, plugin)]) else None
    {
      assert AgreesAt(actions, table, Key(ob, name, plugin));
      if ob !in actions {
        return None;
      }
      if name in actions[ob] {
        var list := actions[ob][name];
        for i := 0 to |list|
          invariant forall j :: 0 <= j < i ==> list[j].plugin != plugin
        {
          if list[i].plugin == plugin {
            FindAt(list, i);
            return Some(list[i].id);
          }
        }
      }
      return None;
    }
  }
}
