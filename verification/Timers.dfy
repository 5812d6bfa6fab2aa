/** The timer singleton as it runs: timers are objects started and stopped in place, and every change is
    written to the timers table. Each method runs to completion. */
module Timers {
  import opened Common
  import opened TimerModel
  import opened TimerEffects

  class Database {
    var timers: map<nat, Row>

    constructor (timers: map<nat, Row>)
      ensures this.timers == timers
    {
      this.timers := timers;
    }
  }

  datatype Result = Ok | Err | Throws

  class SingleTimer {
    const uuid: nat
    const opts: Row
    /** The interval handle is set. */
    var running: bool

    constructor (uuid: nat, opts: Row)
      ensures View() == Timer(uuid, opts, false)
    {
      this.uuid := uuid;
      this.opts := opts;
      running := false;
    }

    function View(): Timer
      reads this
    {
      Timer(uuid, opts, running)
    }

    method Start(db: Database) returns (r: Result)
      modifies `running, db
      ensures running && r == if old(running) then Err else Ok
      ensures db.timers == if old(running) then old(db.timers) else SetEnabled(old(db.timers), uuid, true)
    {
      if running {
        return Err;
      }
      running := true;
      db.timers := SetEnabled(db.timers, uuid, true);
      return Ok;
    }

    method Stop(db: Database) returns (r: Result)
      modifies `running, db
      ensures !running && r == if old(running) then Ok else Err
      ensures db.timers == if old(running) then SetEnabled(old(db.timers), uuid, false) else old(db.timers)
    {
      if !running {
        return Err;
      }
      running := false;
      db.timers := SetEnabled(db.timers, uuid, false);
      return Ok;
    }
  }

  /** No two timers in memory have the same uuid. */
  ghost predicate UuidsDistinct(mem: map<string, seq<Timer>>) {
    forall o, i, p, j ::
      o in mem && p in mem && 0 <= i < |mem[o]| && 0 <= j < |mem[p]| && mem[o][i].uuid == mem[p][j].uuid ==> o == p && i == j
  }

  lemma AddKeepsDistinct(mem: map<string, seq<Timer>>, owner: string, timer: Timer)
    requires UuidsDistinct(mem)
    requires forall o, i :: o in mem && 0 <= i < |mem[o]| ==> mem[o][i].uuid != timer.uuid
    ensures UuidsDistinct(mem[owner := (if owner in mem then mem[owner] else []) + [timer]])
  {
  }

  lemma RemoveKeepsDistinct(mem: map<string, seq<Timer>>, owner: string, i: nat)
    requires UuidsDistinct(mem) && owner in mem && i < |mem[owner]|
    ensures UuidsDistinct(mem[owner := RemoveAt(mem[owner], i)])
  {
  }

  ghost predicate UuidsAmong(mem: map<string, seq<Timer>>, order: seq<nat>) {
    forall o, i :: o in mem && 0 <= i < |mem[o]| ==> mem[o][i].uuid in order
  }

  /** The timers made have the uuids of the rows read. */
  lemma {:induction false} InitializeUuids(rows: map<nat, Row>, order: seq<nat>, titles: map<string, string>)
    requires forall u :: u in order ==> u in rows
    ensures UuidsAmong(TimerModel.Initialize(rows, order, titles).mem, order)
  {
    if order != [] {
      var u := Last(order);
      var mem: map<string, seq<Timer>> := TimerModel.Initialize(rows, Front(order), titles).mem;
      var mem': map<string, seq<Timer>> := TimerModel.Initialize(rows, order, titles).mem;
      InitializeUuids(rows, Front(order), titles);
      forall o, i | o in mem' && 0 <= i < |mem'[o]| ensures mem'[o][i].uuid in order {
        if o in mem && i < |mem[o]| {
          assert mem'[o][i] == mem[o][i] && mem[o][i].uuid in Front(order);
        } else {
          assert mem'[o][i].uuid == u;
        }
      }
    }
  }

  lemma InitializeStep(rows: map<nat, Row>, order: seq<nat>, k: nat, titles: map<string, string>)
    requires (forall u :: u in order ==> u in rows) && k < |order|
    requires forall i, j :: 0 <= i < j < |order| ==> order[i] != order[j]
    ensures
      var s := TimerModel.Initialize(rows, order[..k], titles);
      var row := rows[order[k]];
      && TimerModel.Initialize(rows, order[..k + 1], titles) == Restore(s, order[k], row, Title(titles, row.owner))
      && forall o, i :: o in s.mem && 0 <= i < |s.mem[o]| ==> s.mem[o][i].uuid != order[k]
  {
    var s := TimerModel.Initialize(rows, order[..k], titles);
    assert Front(order[..k + 1]) == order[..k] && Last(order[..k + 1]) == order[k];
    InitializeUuids(rows, order[..k], titles);
  }

  class TimerSingleton {
    const db: Database
    var timers: map<string, seq<SingleTimer>>
    ghost var model: State
    ghost var Repr: set<object>

    ghost predicate Valid()
      reads this, Repr
    {
      && this in Repr && db in Repr
      && db.timers == model.rows
      && UuidsDistinct(model.mem)
      && timers.Keys == model.mem.Keys
      && (forall o :: o in timers ==> |timers[o]| == |model.mem[o]|)
      && (forall o, i :: o in timers && 0 <= i < |timers[o]| ==>
            timers[o][i] in Repr && timers[o][i].View() == model.mem[o][i])
    }

    constructor (db: Database)
      ensures Valid() && this.db == db && model == State(db.timers, map[]) && Repr == {this, db}
    {
      this.db := db;
      timers := map[];
      model := State(db.timers, map[]);
      Repr := {this, db};
    }

    /** Put a new timer object at the end of its channel's list. */
    method Insert(timer: SingleTimer)
      requires Valid() && timer !in Repr
      requires forall o, i :: o in model.mem && 0 <= i < |model.mem[o]| ==> model.mem[o][i].uuid != timer.uuid
      modifies `timers, `model, `Repr
      ensures Valid() && Repr == old(Repr) + {timer} && timer.opts.owner in timers
      ensures model == old(model).(mem := old(model).mem[timer.opts.owner := TimersOf(old(model), timer.opts.owner) + [timer.View()]])
    {
      var owner := timer.opts.owner;
      var list := if owner in timers then timers[owner] else [];
      AddKeepsDistinct(model.mem, owner, timer.View());
      timers := timers[owner := list + [timer]];
      model := model.(mem := model.mem[owner := TimersOf(model, owner) + [timer.View()]]);
      Repr := Repr + {timer};
    }

    method StartAt(owner: string, i: nat) returns (r: Result)
      requires Valid() && owner in timers && i < |timers[owner]|
      modifies Repr
      ensures Valid() && Repr == old(Repr) && timers == old(timers)
      ensures r == if old(model).mem[owner][i].running then Err else Ok
      ensures model == Switch(old(model), owner, i, true)
    {
      model := Switch(model, owner, i, true);
      r := timers[owner][i].Start(db);
    }

    method StopAt(owner: string, i: nat) returns (r: Result)
      requires Valid() && owner in timers && i < |timers[owner]|
      modifies Repr
      ensures Valid() && Repr == old(Repr) && timers == old(timers)
      ensures r == if old(model).mem[owner][i].running then Ok else Err
      ensures model == Switch(old(model), owner, i, false)
    {
      model := Switch(model, owner, i, false);
      r := timers[owner][i].Stop(db);
    }

    /** `getTimer`, as the position of the timer. */
    method GetTimer(owner: string, name: string) returns (position: Option<nat>)
      requires Valid()
      ensures position == FindName(TimersOf(model, owner), name)
      ensures position.Some? ==> owner in timers && position.value < |timers[owner]|
    {
      if owner !in timers {
        return None;
      }
      for i := 0 to |timers[owner]|
        invariant forall k :: 0 <= k < i ==> model.mem[owner][k].opts.name != name
      {
        assert timers[owner][i].View() == model.mem[owner][i];
        if timers[owner][i].opts.name == name {
          return Some(i);
        }
      }
      return None;
    }

    method LoadRows(order: seq<nat>, titles: map<string, string>)
      requires Valid() && model.mem == map[]
      requires (forall u :: u in order ==> u in db.timers) && forall i, j :: 0 <= i < j < |order| ==> order[i] != order[j]
      modifies this, db
      ensures Valid() && old(Repr) <= Repr && fresh(Repr - old(Repr))
      ensures model == State(old(model).rows, TimerModel.Initialize(old(model).rows, order, titles).mem)
    {
      ghost var rows := model.rows;
      for k := 0 to |order|
        invariant Valid() && old(Repr) <= Repr && fresh(Repr - old(Repr))
        invariant model == State(rows, TimerModel.Initialize(rows, order[..k], titles).mem)
      {
        var row := db.timers[order[k]];
        InitializeStep(rows, order, k, titles);
        var timer := new SingleTimer(order[k], row);
        if row.enabled && TitleMatches(row.titles, Title(titles, row.owner)) {
          StartRestored(timer);
        }
        Insert(timer);
      }
      assert order[..|order|] == order;
    }

    /** Start-up: one timer for each row, in the order the table streams them, running if its row and the channel's title
        say so. */
    method Initialize(order: seq<nat>, titles: map<string, string>)
      requires Valid() && model.mem == map[]
      requires (forall u :: u in order ==> u in db.timers) && forall i, j :: 0 <= i < j < |order| ==> order[i] != order[j]
      modifies this, db
      ensures Valid() && old(Repr) <= Repr && fresh(Repr - old(Repr))
      ensures model == State(old(model).rows, TimerModel.Initialize(old(model).rows, order, titles).mem)
      ensures forall owner :: Restored(TimersOf(model, owner), old(model).rows, order, titles, owner)
    {
      ghost var rows := model.rows;
      LoadRows(order, titles);
      forall owner ensures Restored(TimersOf(model, owner), rows, order, titles, owner) {
        StartUpRestores(rows, order, titles, owner);
      }
    }

    /** Starting a timer whose row is already enabled writes the row as it was. */
    method StartRestored(timer: SingleTimer)
      requires Valid() && timer !in Repr && !timer.running
      requires timer.uuid in db.timers && db.timers[timer.uuid].enabled
      modifies timer`running, db
      ensures Valid() && timer.running && db.timers == old(db.timers)
    {
      var _ := timer.Start(db);
      assert db.timers == old(db.timers);
    }

    method CreateNewTimer(uuid: nat, opts: Row) returns (r: Result)
      requires Valid() && FreshUuid(model, uuid)
      modifies Repr
      ensures Valid() && old(Repr) <= Repr && fresh(Repr - old(Repr))
      ensures r == if NameTaken(old(model).rows, opts.owner, opts.name) then Err else Ok
      ensures model == Next(old(model), Create(uuid, opts))
    {
      if NameTaken(db.timers, opts.owner, opts.name) {
        return Err;
      }
      var timer := new SingleTimer(uuid, opts);
      AddRow(uuid, opts);
      Insert(timer);
      var _ := StartAt(opts.owner, |timers[opts.owner]| - 1);
      return Ok;
    }

    method AddRow(uuid: nat, opts: Row)
      requires Valid()
      modifies `model, db
      ensures Valid() && model == old(model).(rows := old(model).rows[uuid := opts])
    {
      db.timers := db.timers[uuid := opts];
      model := model.(rows := model.rows[uuid := opts]);
    }

    method DeleteTimer(owner: string, name: string) returns (r: Result)
      requires Valid()
      modifies Repr
      ensures Valid() && Repr == old(Repr)
      ensures r == if owner !in old(model).mem then Err
                   else if FindName(old(model).mem[owner], name).None? then Throws else Ok
      ensures model == Next(old(model), Delete(owner, name))
    {
      if owner !in timers {
        return Err;
      }
      var position := GetTimer(owner, name);
      if position.None? {
        return Throws;
      }
      var _ := StopAt(owner, position.value);
      Forget(owner, position.value);
      DropRow(owner, name);
      return Ok;
    }

    method Forget(owner: string, i: nat)
      requires Valid() && owner in timers && i < |timers[owner]|
      modifies `timers, `model
      ensures Valid() && model == old(model).(mem := old(model).mem[owner := RemoveAt(old(model).mem[owner], i)])
    {
      RemoveKeepsDistinct(model.mem, owner, i);
      timers := timers[owner := RemoveAt(timers[owner], i)];
      model := model.(mem := model.mem[owner := RemoveAt(model.mem[owner], i)]);
    }

    method DropRow(owner: string, name: string)
      requires Valid()
      modifies `model, db
      ensures Valid()
      ensures model == old(model).(rows := map u | u in old(model).rows && !(old(model).rows[u].owner == owner && old(model).rows[u].name == name) :: old(model).rows[u])
    {
      db.timers := map u | u in db.timers && !(db.timers[u].owner == owner && db.timers[u].name == name) :: db.timers[u];
      model := model.(rows := db.timers);
    }

    method EnableTimer(owner: string, name: string) returns (r: Result)
      requires Valid()
      modifies Repr
      ensures Valid() && Repr == old(Repr)
      ensures model == Next(old(model), Enable(owner, name))
      ensures r == var position := FindName(TimersOf(old(model), owner), name);
                   if owner !in old(model).mem then Err
                   else if position.None? then Throws
                   else if old(model).mem[owner][position.value].running then Err else Ok
    {
      if owner !in timers {
        return Err;
      }
      var position := GetTimer(owner, name);
      if position.None? {
        return Throws;
      }
      r := StartAt(owner, position.value);
    }

    method DisableTimer(owner: string, name: string) returns (r: Result)
      requires Valid()
      modifies Repr
      ensures Valid() && Repr == old(Repr)
      ensures model == Next(old(model), Disable(owner, name))
      ensures r == var position := FindName(TimersOf(old(model), owner), name);
                   if owner !in old(model).mem then Err
                   else if position.None? then Throws
                   else if old(model).mem[owner][position.value].running then Ok else Err
    {
      if owner !in timers {
        return Err;
      }
      var position := GetTimer(owner, name);
      if position.None? {
        return Throws;
      }
      r := StopAt(owner, position.value);
    }

    /** A channel without timers gets an empty list. */
    method GetTimers(owner: string)
      requires Valid()
      modifies this
      ensures Valid() && Repr == old(Repr) && owner in timers
      ensures model == old(model).(mem := old(model).mem[owner := TimersOf(old(model), owner)])
    {
      if owner !in timers {
        timers := timers[owner := []];
      }
      model := model.(mem := model.mem[owner := TimersOf(model, owner)]);
    }

    /** `OnTitleChange` of one timer. */
    method TitleChanged(owner: string, i: nat, title: string)
      requires Valid() && owner in timers && i < |timers[owner]|
      modifies Repr
      ensures Valid() && Repr == old(Repr) && timers == old(timers)
      ensures model == OnTitle(old(model), owner, i, title)
    {
      assert timers[owner][i].View() == model.mem[owner][i];
      var titles := timers[owner][i].opts.titles;
      if titles == [] {
        return;
      }
      if title in titles {
        var _ := StartAt(owner, i);
      } else {
        var _ := StopAt(owner, i);
      }
    }

    /** The `channel.update` handler fans a title out to every timer of the channel. */
    method HandleChannelUpdate(owner: string, title: string)
      requires Valid()
      modifies Repr
      ensures Valid() && Repr == old(Repr)
      ensures model == Next(old(model), TitleChange(owner, title))
    {
      GetTimers(owner);
      ghost var start := model;
      for i := 0 to |timers[owner]|
        invariant Valid() && Repr == old(Repr)
        invariant owner in timers && |timers[owner]| == |start.mem[owner]|
        invariant model == OnTitles(start, owner, i, title)
      {
        TitleChanged(owner, i, title);
      }
    }

    method DeleteForChannel(owner: string)
      requires Valid()
      modifies Repr
      ensures Valid() && Repr == old(Repr)
      ensures model == Next(old(model), Leave(owner))
    {
      if owner !in timers {
        return;
      }
      ghost var start := model;
      for i := 0 to |timers[owner]|
        invariant Valid() && Repr == old(Repr)
        invariant owner in timers && |timers[owner]| == |start.mem[owner]|
        invariant model == StopFirst(start, owner, i)
      {
        var _ := StopAt(owner, i);
      }
      DropRows(owner);
    }

    method DropRows(owner: string)
      requires Valid()
      modifies `model, db
      ensures Valid()
      ensures model == old(model).(rows := map u | u in old(model).rows && old(model).rows[u].owner != owner :: old(model).rows[u])
    {
      db.timers := map u | u in db.timers && db.timers[u].owner != owner :: db.timers[u];
      model := model.(rows := db.timers);
    }
  }
}
