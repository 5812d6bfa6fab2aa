/** Start-up reconciliation of the commands table with the commands the program has registered. */
module CommandTable {
  datatype Command = Command(name: string, description: string, perm: int)

  /** Each key is the name of its command. */
  ghost predicate Named(loaded: map<string, Command>) {
    forall n :: n in loaded ==> loaded[n].name == n
  }

  /** `LoadedCommands`: a JavaScript map, which remembers the order of insertion. */
  class Registry {
    var loaded: map<string, Command>
    var order: seq<string>

    ghost predicate Valid()
      reads this
    {
      && Named(loaded)
      && (forall n :: n in order <==> n in loaded)
      && (forall i, j :: 0 <= i < j < |order| ==> order[i] != order[j])
    }

    constructor ()
      ensures Valid() && loaded == map[]
    {
      loaded, order := map[], [];
    }

    /** Registering a name twice fails the assertion of the source. */
    method RegisterCommand(command: Command) returns (accepted: bool)
      requires Valid()
      modifies this
      ensures Valid()
      ensures accepted <==> command.name !in old(loaded)
      ensures loaded == if accepted then old(loaded)[command.name := command] else old(loaded)
    {
      accepted := command.name !in loaded;
      if accepted {
        loaded := loaded[command.name := command];
        order := order + [command.name];
      }
    }
  }

  function Overwritten(rows: map<nat, Command>, command: Command): map<nat, Command> {
    map i | i in rows :: if rows[i].name == command.name then command else rows[i]
  }

  /** The rows of the table by id. `nextId` is the sequence behind the serial column; `writes` counts statements. */
  class Table {
    var rows: map<nat, Command>
    var nextId: nat
    var writes: nat

    /** Every id came from the sequence. */
    ghost predicate Valid()
      reads this
    {
      forall i :: i in rows ==> i < nextId
    }

    constructor (rows: map<nat, Command>, nextId: nat)
      requires forall i :: i in rows ==> i < nextId
      ensures Valid() && this.rows == rows && this.nextId == nextId && writes == 0
    {
      this.rows, this.nextId, writes := rows, nextId, 0;
    }

    method UpdateWhereName(command: Command)
      modifies `rows, `writes
      ensures rows == Overwritten(old(rows), command) && writes == old(writes) + 1
    {
      rows := Overwritten(rows, command);
      writes := writes + 1;
    }

    /** A conflict on the id would do nothing; ids from the sequence are new. */
    method Insert(command: Command)
      requires Valid()
      modifies this
      ensures Valid() && rows == old(rows)[old(nextId) := command]
      ensures nextId == old(nextId) + 1 && writes == old(writes) + 1
    {
      if nextId !in rows {
        rows := rows[nextId := command];
      }
      nextId := nextId + 1;
      writes := writes + 1;
    }

    method DeleteWhereName(name: string)
      modifies `rows, `writes
      ensures rows == (map i | i in old(rows) && old(rows)[i].name != name :: old(rows)[i]) && writes == old(writes) + 1
    {
      rows := map i | i in rows && rows[i].name != name :: rows[i];
      writes := writes + 1;
    }

    /** All rows, in an order of the database's choosing. */
    method SelectAll() returns (all: seq<Command>)
      ensures forall c :: c in all <==> c in rows.Values
    {
      all := [];
      var rest := rows.Keys;
      while rest != {}
        invariant rest <= rows.Keys
        invariant forall c :: c in all <==> exists i :: i in rows.Keys - rest && rows[i] == c
        decreases rest
      {
        var i :| i in rest;
        rest := rest - {i};
        all := all + [rows[i]];
        assert forall c :: c in all ==> exists j :: j in rows.Keys - rest && rows[j] == c;
      }
    }
  }

  /** Rows of the first commands overwritten, the others as they were. */
  ghost function Refreshed(rows: map<nat, Command>, loaded: map<string, Command>, names: seq<string>): map<nat, Command>
    requires forall n :: n in names ==> n in loaded
  {
    map i | i in rows :: if rows[i].name in names then loaded[rows[i].name] else rows[i]
  }

  ghost predicate HasName(rows: map<nat, Command>, name: string) {
    exists i :: i in rows && rows[i].name == name
  }

  /** The table holds exactly the loaded commands. */
  ghost predicate Reconciled(rows: map<nat, Command>, loaded: map<string, Command>) {
    && (forall i :: i in rows ==> rows[i].name in loaded && rows[i] == loaded[rows[i].name])
    && (forall n :: n in loaded ==> HasName(rows, n))
  }

  ghost predicate NamesDistinct(rows: map<nat, Command>) {
    forall i, j :: i in rows && j in rows && rows[i].name == rows[j].name ==> i == j
  }

  /** What reconciliation does to each row: a row of a loaded command gets that command's content under its old
      id, a row of an unknown command goes, and each command without a row gets one new row. */
  ghost predicate Reconciliation(before: map<nat, Command>, after: map<nat, Command>, loaded: map<string, Command>) {
    && (forall i :: i in before ==>
          if before[i].name in loaded then i in after && after[i] == loaded[before[i].name] else i !in after)
    && (forall i :: i in after && i !in before ==> after[i].name in loaded && after[i] == loaded[after[i].name])
    && (forall n :: n in loaded && !HasName(before, n) ==> HasName(after, n))
    && (forall i :: i in after && i !in before ==> !HasName(before, after[i].name))
    && (forall i, j :: i in after && i !in before && j in after && j !in before && after[i].name == after[j].name ==> i == j)
  }

  /** Such a table holds exactly the loaded commands, distinct names stay distinct, and rows that were right are
      the same rows still. */
  lemma ReconciliationReconciles(before: map<nat, Command>, after: map<nat, Command>, loaded: map<string, Command>)
    requires Named(loaded) && Reconciliation(before, after, loaded)
    ensures Reconciled(after, loaded)
    ensures after.Values == loaded.Values
    ensures NamesDistinct(before) ==> NamesDistinct(after)
    ensures forall i :: i in before && before[i] in loaded.Values ==> i in after && after[i] == before[i]
  {
  }

  // --- StoreToDB, phase by phase ----------------------------------------------------------------

  ghost predicate Snapshot(all: seq<Command>, rows: map<nat, Command>) {
    forall c :: c in all <==> c in rows.Values
  }

  predicate Stale(row: Command, command: Command) {
    row.name == command.name && (row.description != command.description || row.perm != command.perm)
  }

  lemma RefreshedNext(rows: map<nat, Command>, loaded: map<string, Command>, names: seq<string>, name: string)
    requires Named(loaded) && (forall n :: n in names ==> n in loaded) && name in loaded && name !in names
    ensures Overwritten(Refreshed(rows, loaded, names), loaded[name]) == Refreshed(rows, loaded, names + [name])
    ensures (forall i :: i in rows ==> !Stale(rows[i], loaded[name])) ==>
              Refreshed(rows, loaded, names) == Refreshed(rows, loaded, names + [name])
  {
  }

  /** The inner loop: every row read that has the command's name and other content triggers the update. */
  method UpdateOne(table: Table, command: Command, all: seq<Command>)
    modifies table`rows, table`writes
    ensures table.rows == Overwritten(old(table.rows), command)
            || (table.rows == old(table.rows) && forall c :: c in all ==> !Stale(c, command))
    ensures (forall c :: c in all ==> !Stale(c, command)) ==> table.writes == old(table.writes)
  {
    for j := 0 to |all|
      invariant table.rows == Overwritten(old(table.rows), command)
                || (table.rows == old(table.rows) && forall c :: c in all[..j] ==> !Stale(c, command))
      invariant (forall c :: c in all ==> !Stale(c, command)) ==> table.writes == old(table.writes)
    {
      if all[j].name == command.name && (all[j].description != command.description || all[j].perm != command.perm) {
        assert all[j] in all && Stale(all[j], command);
        table.UpdateWhereName(command);
        assert Overwritten(Overwritten(old(table.rows), command), command) == Overwritten(old(table.rows), command);
      }
    }
    assert all[..|all|] == all;
  }

  lemma NotStale(rows: map<nat, Command>, all: seq<Command>, loaded: map<string, Command>, name: string)
    requires Named(loaded) && name in loaded && Snapshot(all, rows)
    ensures (forall c :: c in all ==> !Stale(c, loaded[name])) ==> forall i :: i in rows ==> !Stale(rows[i], loaded[name])
    ensures Reconciled(rows, loaded) ==> forall c :: c in all ==> !Stale(c, loaded[name])
  {
  }

  method UpdateStale(table: Table, registry: Registry, all: seq<Command>)
    requires table.Valid() && registry.Valid() && Snapshot(all, table.rows)
    modifies table`rows, table`writes
    ensures table.Valid()
    ensures table.rows == Refreshed(old(table.rows), registry.loaded, registry.order)
    ensures Reconciled(old(table.rows), registry.loaded) ==> table.writes == old(table.writes)
  {
    ghost var before := table.rows;
    var loaded, order := registry.loaded, registry.order;
    assert Refreshed(before, loaded, order[..0]) == before;
    for k := 0 to |order|
      invariant table.rows == Refreshed(before, loaded, order[..k])
      invariant Reconciled(before, loaded) ==> table.writes == old(table.writes)
    {
      NotStale(before, all, loaded, order[k]);
      RefreshedNext(before, loaded, order[..k], order[k]);
      UpdateOne(table, loaded[order[k]], all);
      assert order[..k + 1] == order[..k] + [order[k]];
    }
    assert order[..|order|] == order;
  }

  predicate Mentioned(all: seq<Command>, name: string) {
    exists j :: 0 <= j < |all| && all[j].name == name
  }

  /** `after` is `before` with one new row for each of the first names that had none. */
  ghost predicate Added(before: map<nat, Command>, after: map<nat, Command>, loaded: map<string, Command>,
                        all: seq<Command>, names: seq<string>)
  {
    && (forall i :: i in before ==> i in after && after[i] == before[i])
    && (forall i :: i in after && i !in before ==>
          after[i].name in names && after[i].name in loaded && after[i] == loaded[after[i].name] && !Mentioned(all, after[i].name))
    && (forall i, j :: i in after && i !in before && j in after && j !in before && after[i].name == after[j].name ==> i == j)
    && (forall n :: n in names && !Mentioned(all, n) ==> HasName(after, n))
  }

  lemma AddedNext(before: map<nat, Command>, after: map<nat, Command>, loaded: map<string, Command>,
                  all: seq<Command>, names: seq<string>, name: string, id: nat)
    requires Named(loaded) && name in loaded && name !in names && !Mentioned(all, name)
    requires Added(before, after, loaded, all, names) && id !in after
    ensures Added(before, after[id := loaded[name]], loaded, all, names + [name])
  {
  }

  method InsertMissing(table: Table, registry: Registry, all: seq<Command>)
    requires table.Valid() && registry.Valid()
    modifies table
    ensures table.Valid()
    ensures Added(old(table.rows), table.rows, registry.loaded, all, registry.order)
    ensures (forall n :: n in registry.loaded ==> Mentioned(all, n)) ==> table.writes == old(table.writes)
  {
    var loaded, order := registry.loaded, registry.order;
    for k := 0 to |order|
      invariant table.Valid()
      invariant Added(old(table.rows), table.rows, loaded, all, order[..k])
      invariant (forall n :: n in loaded ==> Mentioned(all, n)) ==> table.writes == old(table.writes)
    {
      assert order[..k + 1] == order[..k] + [order[k]];
      if !Mentioned(all, order[k]) {
        AddedNext(old(table.rows), table.rows, loaded, all, order[..k], order[k], table.nextId);
        table.Insert(loaded[order[k]]);
      }
    }
    assert order[..|order|] == order;
  }

  /** The rows whose name is not that of an unknown command among the first ones. */
  ghost function Kept(rows: map<nat, Command>, loaded: map<string, Command>, all: seq<Command>): map<nat, Command> {
    map i | i in rows && (rows[i].name in loaded || !Mentioned(all, rows[i].name)) :: rows[i]
  }

  lemma MentionedAppend(all: seq<Command>, c: Command, name: string)
    ensures Mentioned(all + [c], name) <==> Mentioned(all, name) || c.name == name
  {
    assert (all + [c])[|all|] == c;
    if Mentioned(all, name) {
      var j :| 0 <= j < |all| && all[j].name == name;
      assert (all + [c])[j].name == name;
    }
  }

  method DeleteUnknown(table: Table, registry: Registry, all: seq<Command>)
    requires table.Valid() && registry.Valid()
    modifies table
    ensures table.Valid() && table.rows == Kept(old(table.rows), registry.loaded, all)
    ensures (forall c :: c in all ==> c.name in registry.loaded) ==> table.writes == old(table.writes)
  {
    var loaded := registry.loaded;
    for j := 0 to |all|
      invariant table.Valid() && table.rows == Kept(old(table.rows), loaded, all[..j])
      invariant (forall c :: c in all ==> c.name in loaded) ==> table.writes == old(table.writes)
    {
      assert all[..j + 1] == all[..j] + [all[j]];
      forall name ensures Mentioned(all[..j + 1], name) <==> Mentioned(all[..j], name) || all[j].name == name {
        MentionedAppend(all[..j], all[j], name);
      }
      if all[j].name !in loaded {
        table.DeleteWhereName(all[j].name);
      }
    }
    assert all[..|all|] == all;
  }

  lemma PhasesReconcile(before: map<nat, Command>, mid: map<nat, Command>, after: map<nat, Command>,
                        loaded: map<string, Command>, order: seq<string>, all: seq<Command>)
    requires Named(loaded) && (forall n :: n in order <==> n in loaded) && Snapshot(all, before)
    requires Added(Refreshed(before, loaded, order), mid, loaded, all, order) && after == Kept(mid, loaded, all)
    ensures Reconciliation(before, after, loaded)
  {
    forall n ensures Mentioned(all, n) <==> HasName(before, n) {
      if Mentioned(all, n) {
        var j :| 0 <= j < |all| && all[j].name == n;
        assert all[j] in before.Values;
      }
      if HasName(before, n) {
        var i :| i in before && before[i].name == n;
        assert before[i] in all;
        var j :| 0 <= j < |all| && all[j] == before[i];
      }
    }
    forall n | n in loaded && !HasName(before, n) ensures HasName(after, n) {
      var i :| i in mid && mid[i].name == n;
      assert after[i].name == n;
    }
  }

  lemma ReconciledSnapshot(rows: map<nat, Command>, loaded: map<string, Command>, all: seq<Command>)
    requires Snapshot(all, rows)
    ensures Reconciled(rows, loaded) ==> (forall n :: n in loaded ==> Mentioned(all, n)) && forall c :: c in all ==> c.name in loaded
  {
    if Reconciled(rows, loaded) {
      forall n | n in loaded ensures Mentioned(all, n) {
        assert HasName(rows, n);
        var i :| i in rows && rows[i].name == n;
        assert rows[i] in all;
      }
      forall c | c in all ensures c.name in loaded {
        assert c in rows.Values;
      }
    }
  }

  /** `StoreToDB`, when no statement fails. */
  method StoreToDB(table: Table, registry: Registry)
    requires table.Valid() && registry.Valid()
    modifies table
    ensures table.Valid() && Reconciliation(old(table.rows), table.rows, registry.loaded)
    ensures Reconciled(table.rows, registry.loaded)
    ensures Reconciled(old(table.rows), registry.loaded) ==> table.writes == old(table.writes)
  {
    var all := table.SelectAll();
    ReconciledSnapshot(table.rows, registry.loaded, all);
    UpdateStale(table, registry, all);
    InsertMissing(table, registry, all);
    ghost var mid := table.rows;
    DeleteUnknown(table, registry, all);
    PhasesReconcile(old(table.rows), mid, table.rows, registry.loaded, registry.order, all);
    ReconciliationReconciles(old(table.rows), table.rows, registry.loaded);
  }

  /** A second start with the same commands issues no write. */
  method StoreTwice(table: Table, registry: Registry) returns (writesOfSecondRun: nat)
    requires table.Valid() && registry.Valid()
    modifies table
    ensures writesOfSecondRun == 0
  {
    StoreToDB(table, registry);
    var before := table.writes;
    StoreToDB(table, registry);
    writesOfSecondRun := table.writes - before;
  }
}
