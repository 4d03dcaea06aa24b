/**
 * Import-name binding (`AstroidBuilder.add_from_names_to_locals`) and the
 * collection of `__future__` symbols done while draining the import-from
 * queue.
 */
module ImportBinding {
  import opened Wrappers
  import opened Symbols

  /** One `name [as asname]` of an import-from statement; `name` may be `*`. */
  datatype ImportedName = ImportedName(name: string, asname: Option<string>)

  /**
   * A pending `from modname import names` statement: the import node, the
   * scope its parent belongs to, and what importing `modname` gives, namely
   * the imported module's public names, or None when the import fails with
   * AstroidBuildingError.
   */
  datatype ImportFrom = ImportFrom(
    node: Node,
    scope: NodeId,
    modname: string,
    names: seq<ImportedName>,
    imported: Option<seq<string>>)

  /** `asname or name`: an absent or empty alias falls back to the name. */
  function BoundName(n: ImportedName): (b: string)
    ensures b == n.name || Some(b) == n.asname
    ensures b == n.name <== n.asname.None? || n.asname == Some("")
    ensures n.asname.Some? && n.asname.value != "" ==> b == n.asname.value
  {
    if n.asname.Some? && n.asname.value != "" then n.asname.value else n.name
  }

  /** `set_local(name, node)` then the stable re-sort of that name's list by line. */
  function Bind(t: Tables, scope: NodeId, name: string, node: Node): Tables
  {
    Store(t, Locals(scope), name, SortByLine(Lookup(t, Locals(scope), name) + [node]))
  }

  /** Binds each name in turn. */
  function BindAll(t: Tables, scope: NodeId, names: seq<string>, node: Node): Tables
  {
    if names == [] then t
    else Bind(BindAll(t, scope, names[..|names| - 1], node), scope, names[|names| - 1], node)
  }

  /** One entry: `*` binds every public name of the imported module, or nothing when the import failed. */
  function BindEntry(t: Tables, rec: ImportFrom, entry: ImportedName): Tables
  {
    if entry.name == "*" then
      match rec.imported
      case None => t
      case Some(publicNames) => BindAll(t, rec.scope, publicNames, rec.node)
    else Bind(t, rec.scope, BoundName(entry), rec.node)
  }

  function BindEntries(t: Tables, rec: ImportFrom, entries: seq<ImportedName>): Tables
  {
    if entries == [] then t
    else BindEntry(BindEntries(t, rec, entries[..|entries| - 1]), rec, entries[|entries| - 1])
  }

  /** The effect of `add_from_names_to_locals(node)`. */
  function AddFromNames(t: Tables, rec: ImportFrom): Tables
  {
    BindEntries(t, rec, rec.names)
  }

  /** The names an entry binds. */
  function EntryNames(rec: ImportFrom, entry: ImportedName): set<string>
  {
    if entry.name == "*" then
      (if rec.imported.Some? then set x | x in rec.imported.value else {})
    else {BoundName(entry)}
  }

  /** The names a sequence of entries binds. */
  function NamesBound(rec: ImportFrom, entries: seq<ImportedName>): set<string>
  {
    set i, x | 0 <= i < |entries| && x in EntryNames(rec, entries[i]) :: x
  }

  /**
   * One binding: the name's list becomes the old list plus the node, sorted
   * by line (same nodes, each line's nodes in their old order, the new node
   * after those already on its line); nothing else changes.
   */
  lemma BindEffect(t: Tables, scope: NodeId, name: string, node: Node)
    ensures var r := Lookup(Bind(t, scope, name, node), Locals(scope), name);
            && SortedByLine(r)
            && multiset(r) == multiset(Lookup(t, Locals(scope), name)) + multiset{node}
            && (forall line :: OnLine(r, line) == OnLine(Lookup(t, Locals(scope), name) + [node], line))
            && Holds(r, node)
    ensures forall ref, x :: ref != Locals(scope) || x != name ==>
              Lookup(Bind(t, scope, name, node), ref, x) == Lookup(t, ref, x)
  {
    var old_ := Lookup(t, Locals(scope), name);
    var r := SortByLine(old_ + [node]);
    SortByLineSorted(old_ + [node]);
    forall line ensures OnLine(r, line) == OnLine(old_ + [node], line) {
      SortByLineStable(old_ + [node], line);
    }
    assert node in multiset(old_ + [node]);
    assert node in multiset(r);
    var k :| 0 <= k < |r| && r[k] == node;
  }

  /** The name's list holds the import node and is in line order. */
  ghost predicate BoundTo(t: Tables, scope: NodeId, x: string, node: Node)
  {
    Holds(Lookup(t, Locals(scope), x), node) && SortedByLine(Lookup(t, Locals(scope), x))
  }

  /** A later binding, of any name, keeps an earlier one in place and sorted. */
  lemma BindKeeps(t: Tables, scope: NodeId, name: string, node: Node, x: string, n: Node)
    requires BoundTo(t, scope, x, n)
    ensures BoundTo(Bind(t, scope, name, node), scope, x, n)
  {
    BindEffect(t, scope, name, node);
    if x == name {
      var l := Lookup(t, Locals(scope), name);
      var k :| 0 <= k < |l| && l[k].id == n.id;
      var r := Lookup(Bind(t, scope, name, node), Locals(scope), name);
      assert l[k] in multiset(l + [node]) by { assert (l + [node])[k] == l[k]; }
      assert l[k] in multiset(r);
      var j :| 0 <= j < |r| && r[j] == l[k];
    }
  }

  lemma {:induction false} BindAllEffect(t: Tables, scope: NodeId, names: seq<string>, node: Node)
    ensures forall x :: x in names ==> BoundTo(BindAll(t, scope, names, node), scope, x, node)
    ensures forall ref, x :: ref != Locals(scope) || x !in names ==>
              Lookup(BindAll(t, scope, names, node), ref, x) == Lookup(t, ref, x)
  {
    if names != [] {
      var init, last := names[..|names| - 1], names[|names| - 1];
      BindAllEffect(t, scope, init, node);
      assert names == init + [last];
      var mid := BindAll(t, scope, init, node);
      BindEffect(mid, scope, last, node);
      forall x | x in names ensures BoundTo(BindAll(t, scope, names, node), scope, x, node) {
        if x != last {
          assert x in init;
          BindKeeps(mid, scope, last, node, x, node);
        }
      }
    }
  }

  lemma {:induction false} BindEntriesEffect(t: Tables, rec: ImportFrom, entries: seq<ImportedName>)
    ensures forall x :: x in NamesBound(rec, entries) ==>
              BoundTo(BindEntries(t, rec, entries), rec.scope, x, rec.node)
    ensures forall ref, x :: ref != Locals(rec.scope) || x !in NamesBound(rec, entries) ==>
              Lookup(BindEntries(t, rec, entries), ref, x) == Lookup(t, ref, x)
  {
    if entries != [] {
      var init, last := entries[..|entries| - 1], entries[|entries| - 1];
      BindEntriesEffect(t, rec, init);
      var mid := BindEntries(t, rec, init);
      assert NamesBound(rec, entries) == NamesBound(rec, init) + EntryNames(rec, last) by {
        forall x | x in NamesBound(rec, entries) ensures x in NamesBound(rec, init) + EntryNames(rec, last) {
          var i :| 0 <= i < |entries| && x in EntryNames(rec, entries[i]);
          if i < |init| { assert entries[i] == init[i]; }
        }
        forall x | x in NamesBound(rec, init) ensures x in NamesBound(rec, entries) {
          var i :| 0 <= i < |init| && x in EntryNames(rec, init[i]);
          assert entries[i] == init[i];
        }
      }
      if last.name != "*" {
        var b := BoundName(last);
        BindEffect(mid, rec.scope, b, rec.node);
        forall x | x in NamesBound(rec, init)
          ensures BoundTo(Bind(mid, rec.scope, b, rec.node), rec.scope, x, rec.node)
        {
          BindKeeps(mid, rec.scope, b, rec.node, x, rec.node);
        }
      } else if rec.imported.Some? {
        BindAllEffect(mid, rec.scope, rec.imported.value, rec.node);
      }
    }
  }

  /**
   * Import binding: every bound name (the alias or the name, or each public
   * name of the module imported by `*`) ends with the import node in its
   * line-sorted list; no other list of any table changes.
   */
  lemma AddFromNamesEffect(t: Tables, rec: ImportFrom)
    ensures forall x :: x in NamesBound(rec, rec.names) ==> BoundTo(AddFromNames(t, rec), rec.scope, x, rec.node)
    ensures forall ref, x :: ref != Locals(rec.scope) || x !in NamesBound(rec, rec.names) ==>
              Lookup(AddFromNames(t, rec), ref, x) == Lookup(t, ref, x)
  {
    BindEntriesEffect(t, rec, rec.names);
  }

  /** The entries other than `*`, in their order. */
  function NamedEntries(entries: seq<ImportedName>): (r: seq<ImportedName>)
    ensures forall e {:trigger e in r} :: e in r <==> e in entries && e.name != "*"
    ensures |entries| == 1 ==> r == if entries[0].name == "*" then [] else entries
    ensures |r| <= |entries|
  {
    if entries == [] then []
    else NamedEntries(entries[..|entries| - 1])
         + (if entries[|entries| - 1].name == "*" then [] else [entries[|entries| - 1]])
  }

  /** Filtering distributes over concatenation, so the order of the kept entries is their order in the import. */
  lemma {:induction false} NamedEntriesConcat(a: seq<ImportedName>, b: seq<ImportedName>)
    ensures NamedEntries(a + b) == NamedEntries(a) + NamedEntries(b)
    decreases |b|
  {
    if b == [] {
      assert a + b == a;
    } else {
      var init, last := b[..|b| - 1], b[|b| - 1];
      var kept := if last.name == "*" then [] else [last];
      NamedEntriesConcat(a, init);
      assert b == init + [last];
      assert a + b == (a + init) + [last];
      NamedEntriesSnoc(init, last);
      NamedEntriesSnoc(a + init, last);
      ConcatAssoc(NamedEntries(a), NamedEntries(init), kept);
    }
  }

  lemma ConcatAssoc(x: seq<ImportedName>, y: seq<ImportedName>, z: seq<ImportedName>)
    ensures (x + y) + z == x + (y + z)
  {
  }

  /** One more entry at the end is kept at the end, unless it is `*`. */
  lemma NamedEntriesSnoc(entries: seq<ImportedName>, e: ImportedName)
    ensures NamedEntries(entries + [e]) == NamedEntries(entries) + (if e.name == "*" then [] else [e])
  {
    assert (entries + [e])[..|entries|] == entries;
  }

  /** A failed `*` import skips only its own entry: the others bind as if it were absent. */
  lemma {:induction false} FailedStarSkipsOnlyItself(t: Tables, rec: ImportFrom, entries: seq<ImportedName>)
    requires rec.imported.None?
    ensures BindEntries(t, rec, entries) == BindEntries(t, rec, NamedEntries(entries))
  {
    if entries != [] {
      var init, last := entries[..|entries| - 1], entries[|entries| - 1];
      FailedStarSkipsOnlyItself(t, rec, init);
      var before := BindEntries(t, rec, init);
      assert BindEntries(t, rec, entries) == BindEntry(before, rec, last);
      if last.name == "*" {
        assert NamedEntries(entries) == NamedEntries(init);
        assert BindEntry(before, rec, last) == before;
      } else {
        var named := NamedEntries(init) + [last];
        assert NamedEntries(entries) == named;
        assert named[..|named| - 1] == NamedEntries(init);
        assert BindEntries(t, rec, named) == BindEntry(BindEntries(t, rec, NamedEntries(init)), rec, last);
      }
    }
  }

  /** The names an import-from record adds to `future_imports`. */
  function FutureSymbols(rec: ImportFrom): set<string>
  {
    if rec.modname == "__future__" then set e | e in rec.names :: e.name else {}
  }

  /** The `__future__` symbols of a whole queue, gathered record by record. */
  function QueueFutureSymbols(queue: seq<ImportFrom>): set<string>
  {
    if queue == [] then {}
    else QueueFutureSymbols(queue[..|queue| - 1]) + FutureSymbols(queue[|queue| - 1])
  }

  /** A symbol is collected exactly when some `from __future__ import` in the queue names it. */
  lemma {:induction false} QueueFutureSymbolsExact(queue: seq<ImportFrom>, x: string)
    ensures x in QueueFutureSymbols(queue) <==>
            exists i, j :: 0 <= i < |queue| && queue[i].modname == "__future__"
                           && 0 <= j < |queue[i].names| && queue[i].names[j].name == x
  {
    if queue != [] {
      var init := queue[..|queue| - 1];
      QueueFutureSymbolsExact(init, x);
      var last := queue[|queue| - 1];
      if x in FutureSymbols(last) {
        var e :| e in last.names && e.name == x;
        var j :| 0 <= j < |last.names| && last.names[j] == e;
        assert queue[|queue| - 1].names[j].name == x;
      }
      if exists i, j :: 0 <= i < |queue| && queue[i].modname == "__future__"
                        && 0 <= j < |queue[i].names| && queue[i].names[j].name == x {
        var i, j :| 0 <= i < |queue| && queue[i].modname == "__future__"
                    && 0 <= j < |queue[i].names| && queue[i].names[j].name == x;
        if i < |init| {
          assert init[i] == queue[i];
        } else {
          assert queue[i].names[j] in last.names;
        }
      }
    }
  }

  /** A later binding keeps an earlier one, whatever names it binds. */
  lemma {:induction false} BindAllKeeps(t: Tables, scope: NodeId, names: seq<string>, node: Node, x: string, n: Node)
    requires BoundTo(t, scope, x, n)
    ensures BoundTo(BindAll(t, scope, names, node), scope, x, n)
  {
    if names != [] {
      BindAllKeeps(t, scope, names[..|names| - 1], node, x, n);
      BindKeeps(BindAll(t, scope, names[..|names| - 1], node), scope, names[|names| - 1], node, x, n);
    }
  }

  lemma {:induction false} BindEntriesKeeps(t: Tables, rec: ImportFrom, entries: seq<ImportedName>, x: string, n: Node)
    requires BoundTo(t, rec.scope, x, n)
    ensures BoundTo(BindEntries(t, rec, entries), rec.scope, x, n)
  {
    if entries != [] {
      var init, last := entries[..|entries| - 1], entries[|entries| - 1];
      BindEntriesKeeps(t, rec, init, x, n);
      var mid := BindEntries(t, rec, init);
      if last.name != "*" {
        BindKeeps(mid, rec.scope, BoundName(last), rec.node, x, n);
      } else if rec.imported.Some? {
        BindAllKeeps(mid, rec.scope, rec.imported.value, rec.node, x, n);
      }
    }
  }

  /** Binding into a scope leaves every other scope's binding in place. */
  lemma AddFromNamesKeeps(t: Tables, rec: ImportFrom, scope: NodeId, x: string, n: Node)
    requires BoundTo(t, scope, x, n)
    ensures BoundTo(AddFromNames(t, rec), scope, x, n)
  {
    if scope == rec.scope {
      BindEntriesKeeps(t, rec, rec.names, x, n);
    } else {
      AddFromNamesEffect(t, rec);
    }
  }

  /** The import-from queue, drained in order. */
  function ImportStage(t: Tables, queue: seq<ImportFrom>): Tables
  {
    if queue == [] then t
    else AddFromNames(ImportStage(t, queue[..|queue| - 1]), queue[|queue| - 1])
  }

  /**
   * Line ordering after the stage: every name any record of the queue binds
   * holds that record's import node, in a list sorted by line.
   */
  lemma {:induction false} ImportStageBinds(t: Tables, queue: seq<ImportFrom>)
    ensures forall i, x :: 0 <= i < |queue| && x in NamesBound(queue[i], queue[i].names) ==>
              BoundTo(ImportStage(t, queue), queue[i].scope, x, queue[i].node)
  {
    if queue != [] {
      var init, last := queue[..|queue| - 1], queue[|queue| - 1];
      ImportStageBinds(t, init);
      var mid := ImportStage(t, init);
      AddFromNamesEffect(mid, last);
      forall i, x | 0 <= i < |queue| && x in NamesBound(queue[i], queue[i].names)
        ensures BoundTo(ImportStage(t, queue), queue[i].scope, x, queue[i].node)
      {
        if i < |init| {
          assert queue[i] == init[i];
          AddFromNamesKeeps(mid, last, queue[i].scope, x, queue[i].node);
        }
      }
    }
  }
}
