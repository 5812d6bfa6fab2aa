/** Chat timers: the timers in memory, the rows of the timers table, and the operations on both. */
module TimerModel {
  import opened Common

  datatype Row = Row(owner: string, name: string, interval: int, message: string, enabled: bool, titles: seq<string>)

  /** A timer in memory: the row it was made from, and whether its interval handle is set. */
  datatype Timer = Timer(uuid: nat, opts: Row, running: bool)

  /** `mem` lists the timers of each channel in the order they were added. */
  datatype State = State(rows: map<nat, Row>, mem: map<string, seq<Timer>>)

  datatype Event =
    | Create(uuid: nat, opts: Row)
    | Delete(owner: string, name: string)
    | Enable(owner: string, name: string)
    | Disable(owner: string, name: string)
    | TitleChange(owner: string, title: string)
    | Leave(owner: string)

  /** `UPDATE timers SET enabled = … WHERE uuid = …`. */
  function SetEnabled(rows: map<nat, Row>, uuid: nat, enabled: bool): map<nat, Row> {
    if uuid in rows then rows[uuid := rows[uuid].(enabled := enabled)] else rows
  }

  /** Start or stop the timer at a position; a timer already there is left alone, and so is its row. */
  function Switch(s: State, owner: string, i: nat, on: bool): (r: State)
    requires owner in s.mem && i < |s.mem[owner]|
    ensures r.mem.Keys == s.mem.Keys && |r.mem[owner]| == |s.mem[owner]|
  {
    var t := s.mem[owner][i];
    if t.running == on then s
    else State(SetEnabled(s.rows, t.uuid, on), s.mem[owner := s.mem[owner][i := t.(running := on)]])
  }

  /** The first timer with the name. */
  function FindName(timers: seq<Timer>, name: string): (r: Option<nat>)
    ensures r.Some? ==>
              && r.value < |timers| && timers[r.value].opts.name == name
              && forall k :: 0 <= k < r.value ==> timers[k].opts.name != name
    ensures r.None? ==> forall k :: 0 <= k < |timers| ==> timers[k].opts.name != name
  {
    if timers == [] then None
    else if timers[0].opts.name == name then Some(0)
    else
      match FindName(timers[1..], name)
      case None => None
      case Some(k) => Some(k + 1)
  }

  function TimersOf(s: State, owner: string): seq<Timer> {
    if owner in s.mem then s.mem[owner] else []
  }

  predicate NameTaken(rows: map<nat, Row>, owner: string, name: string) {
    exists u :: u in rows && rows[u].owner == owner && rows[u].name == name
  }

  /** The generated uuid is new. */
  ghost predicate FreshUuid(s: State, uuid: nat) {
    && uuid !in s.rows
    && forall o, i :: o in s.mem && 0 <= i < |s.mem[o]| ==> s.mem[o][i].uuid != uuid
  }

  function AddTimer(s: State, uuid: nat, opts: Row): (r: State)
    ensures opts.owner in r.mem && |r.mem[opts.owner]| == |TimersOf(s, opts.owner)| + 1
  {
    State(s.rows[uuid := opts], s.mem[opts.owner := TimersOf(s, opts.owner) + [Timer(uuid, opts, false)]])
  }

  function RemoveAt<T>(s: seq<T>, i: nat): seq<T>
    requires i < |s|
  {
    s[..i] + s[i + 1..]
  }

  function DropTimer(s: State, owner: string, i: nat, name: string): State
    requires owner in s.mem && i < |s.mem[owner]|
  {
    State(map u | u in s.rows && !(s.rows[u].owner == owner && s.rows[u].name == name) :: s.rows[u],
          s.mem[owner := RemoveAt(s.mem[owner], i)])
  }

  /** `OnTitleChange` of the timer at a position. */
  function OnTitle(s: State, owner: string, i: nat, title: string): (r: State)
    requires owner in s.mem && i < |s.mem[owner]|
    ensures r.mem.Keys == s.mem.Keys && |r.mem[owner]| == |s.mem[owner]|
  {
    var titles := s.mem[owner][i].opts.titles;
    if titles == [] then s else Switch(s, owner, i, title in titles)
  }

  /** The first `n` timers of the channel have heard of the title. */
  function OnTitles(s: State, owner: string, n: nat, title: string): (r: State)
    requires owner in s.mem && n <= |s.mem[owner]|
    ensures r.mem.Keys == s.mem.Keys && |r.mem[owner]| == |s.mem[owner]|
  {
    if n == 0 then s else OnTitle(OnTitles(s, owner, n - 1, title), owner, n - 1, title)
  }

  function StopFirst(s: State, owner: string, n: nat): (r: State)
    requires owner in s.mem && n <= |s.mem[owner]|
    ensures r.mem.Keys == s.mem.Keys && |r.mem[owner]| == |s.mem[owner]|
  {
    if n == 0 then s else Switch(StopFirst(s, owner, n - 1), owner, n - 1, false)
  }

  /** Leaving a channel stops its timers and deletes its rows; the stopped timers stay in memory. */
  function DeleteForChannel(s: State, owner: string): State {
    if owner !in s.mem then s
    else
      var t := StopFirst(s, owner, |s.mem[owner]|);
      t.(rows := map u | u in t.rows && t.rows[u].owner != owner :: t.rows[u])
  }

  ghost function Next(s: State, e: Event): State {
    match e
    case Create(uuid, opts) =>
      if NameTaken(s.rows, opts.owner, opts.name) || !FreshUuid(s, uuid) then s
      else
        var t := AddTimer(s, uuid, opts);
        Switch(t, opts.owner, |t.mem[opts.owner]| - 1, true)
    case Delete(owner, name) =>
      var k := FindName(TimersOf(s, owner), name);
      if k.None? then s else DropTimer(Switch(s, owner, k.value, false), owner, k.value, name)
    case Enable(owner, name) =>
      var k := FindName(TimersOf(s, owner), name);
      if k.None? then s else Switch(s, owner, k.value, true)
    case Disable(owner, name) =>
      var k := FindName(TimersOf(s, owner), name);
      if k.None? then s else Switch(s, owner, k.value, false)
    case TitleChange(owner, title) =>
      var t := s.(mem := s.mem[owner := TimersOf(s, owner)]);
      OnTitles(t, owner, |t.mem[owner]|, title)
    case Leave(owner) => DeleteForChannel(s, owner)
  }

  predicate TitleMatches(titles: seq<string>, title: string) {
    titles == [] || title in titles
  }

  /** One row read at start-up: the timer runs if the row is enabled and the current title suits it. */
  function Restore(s: State, uuid: nat, row: Row, title: string): State {
    State(s.rows[uuid := row],
          s.mem[row.owner := TimersOf(s, row.owner) + [Timer(uuid, row, row.enabled && TitleMatches(row.titles, title))]])
  }

  function Title(titles: map<string, string>, owner: string): string {
    if owner in titles then titles[owner] else ""
  }

  /** `Initialize` over the rows in the order the table streams them. */
  function Initialize(rows: map<nat, Row>, order: seq<nat>, titles: map<string, string>): State
    requires forall u :: u in order ==> u in rows
  {
    if order == [] then State(map[], map[])
    else
      var u := Last(order);
      Restore(Initialize(rows, Front(order), titles), u, rows[u], Title(titles, rows[u].owner))
  }

  ghost function After(s: State, es: seq<Event>): State {
    if es == [] then s else Next(After(s, Front(es)), Last(es))
  }

  // --- Agreement of memory and table -----------------------------------------------------------

  /** The timer has its row, of the same channel and with the same content; it runs only if the row is enabled,
      and without titles exactly then. */
  ghost predicate Backed(rows: map<nat, Row>, owner: string, t: Timer) {
    && t.uuid in rows
    && t.opts.owner == owner
    && rows[t.uuid] == t.opts.(enabled := rows[t.uuid].enabled)
    && (t.running ==> rows[t.uuid].enabled)
    && (t.opts.titles == [] && rows[t.uuid].enabled ==> t.running)
  }

  ghost predicate AllBacked(rows: map<nat, Row>, owner: string, timers: seq<Timer>) {
    forall i :: 0 <= i < |timers| ==> Backed(rows, owner, timers[i])
  }

  ghost predicate HasUuid(timers: seq<Timer>, u: nat) {
    exists i :: 0 <= i < |timers| && timers[i].uuid == u
  }

  ghost predicate AllLoaded(rows: map<nat, Row>, owner: string, timers: seq<Timer>) {
    forall u :: u in rows && rows[u].owner == owner ==> HasUuid(timers, u)
  }

  ghost predicate Distinct(timers: seq<Timer>) {
    forall i, j :: 0 <= i < j < |timers| ==>
      timers[i].uuid != timers[j].uuid && timers[i].opts.name != timers[j].opts.name
  }

  /** The timers of one channel match its rows one to one. */
  ghost predicate AgreeOn(rows: map<nat, Row>, owner: string, timers: seq<Timer>) {
    AllBacked(rows, owner, timers) && AllLoaded(rows, owner, timers) && Distinct(timers)
  }

  ghost predicate Agreement(s: State) {
    forall owner :: AgreeOn(s.rows, owner, TimersOf(s, owner))
  }

  /** The rows of a channel, and so its agreement, do not depend on the rows of the others. */
  ghost predicate SameRowsFor(rows: map<nat, Row>, rows': map<nat, Row>, owner: string) {
    forall u :: (u in rows && rows[u].owner == owner) || (u in rows' && rows'[u].owner == owner) ==>
      u in rows && u in rows' && rows[u] == rows'[u]
  }

  lemma AgreeOnFrame(rows: map<nat, Row>, rows': map<nat, Row>, owner: string, timers: seq<Timer>)
    requires AgreeOn(rows, owner, timers) && SameRowsFor(rows, rows', owner)
    ensures AgreeOn(rows', owner, timers)
  {
  }

  lemma SwitchRows(rows: map<nat, Row>, owner: string, timers: seq<Timer>, i: nat, on: bool)
    requires AgreeOn(rows, owner, timers) && i < |timers| && timers[i].running != on
    ensures AgreeOn(SetEnabled(rows, timers[i].uuid, on), owner, timers[i := timers[i].(running := on)])
    ensures forall o :: o != owner ==> SameRowsFor(rows, SetEnabled(rows, timers[i].uuid, on), o)
  {
    var t, rows', timers' := timers[i], SetEnabled(rows, timers[i].uuid, on), timers[i := timers[i].(running := on)];
    assert Backed(rows, owner, t);
    forall k | 0 <= k < |timers'| ensures Backed(rows', owner, timers'[k]) {
      assert Backed(rows, owner, timers[k]);
    }
    forall u | u in rows' && rows'[u].owner == owner ensures HasUuid(timers', u) {
      assert HasUuid(timers, u);
      var k :| 0 <= k < |timers| && timers[k].uuid == u;
      assert timers'[k].uuid == u;
    }
  }

  lemma AgreementUpdate(s: State, rows': map<nat, Row>, owner: string, timers': seq<Timer>)
    requires Agreement(s) && AgreeOn(rows', owner, timers')
    requires forall o :: o != owner ==> SameRowsFor(s.rows, rows', o)
    ensures Agreement(State(rows', s.mem[owner := timers']))
  {
    var r := State(rows', s.mem[owner := timers']);
    forall o ensures AgreeOn(r.rows, o, TimersOf(r, o)) {
      if o == owner {
        assert TimersOf(r, o) == timers';
      } else {
        assert TimersOf(r, o) == TimersOf(s, o);
        assert AgreeOn(s.rows, o, TimersOf(s, o));
        AgreeOnFrame(s.rows, rows', o, TimersOf(s, o));
      }
    }
  }

  lemma SwitchAgrees(s: State, owner: string, i: nat, on: bool)
    requires Agreement(s) && owner in s.mem && i < |s.mem[owner]|
    ensures Agreement(Switch(s, owner, i, on))
  {
    var timers := s.mem[owner];
    assert AgreeOn(s.rows, owner, TimersOf(s, owner));
    if timers[i].running != on {
      SwitchRows(s.rows, owner, timers, i, on);
      AgreementUpdate(s, SetEnabled(s.rows, timers[i].uuid, on), owner, timers[i := timers[i].(running := on)]);
    }
  }

  lemma AddRowAgrees(s: State, row: Row, t: Timer)
    requires Agreement(s) && t.uuid !in s.rows
    requires !NameTaken(s.rows, row.owner, row.name)
    requires Backed(map[t.uuid := row], row.owner, t)
    ensures Agreement(State(s.rows[t.uuid := row], s.mem[row.owner := TimersOf(s, row.owner) + [t]]))
  {
    var owner, timers, rows' := row.owner, TimersOf(s, row.owner), s.rows[t.uuid := row];
    var timers' := timers + [t];
    assert AgreeOn(s.rows, owner, timers);
    forall k | 0 <= k < |timers'| ensures Backed(rows', owner, timers'[k]) {
      if k < |timers| {
        assert Backed(s.rows, owner, timers[k]);
      }
    }
    forall u | u in rows' && rows'[u].owner == owner ensures HasUuid(timers', u) {
      if u == t.uuid {
        assert timers'[|timers|].uuid == u;
      } else {
        assert HasUuid(timers, u);
        var k :| 0 <= k < |timers| && timers[k].uuid == u;
        assert timers'[k].uuid == u;
      }
    }
    forall i, j | 0 <= i < j < |timers'|
      ensures timers'[i].uuid != timers'[j].uuid && timers'[i].opts.name != timers'[j].opts.name
    {
      if j == |timers| {
        assert Backed(s.rows, owner, timers[i]);
      }
    }
    AgreementUpdate(s, rows', owner, timers');
  }

  lemma CreateAgrees(s: State, uuid: nat, opts: Row)
    requires Agreement(s)
    ensures Agreement(Next(s, Create(uuid, opts)))
  {
    if !NameTaken(s.rows, opts.owner, opts.name) && FreshUuid(s, uuid) {
      var row, t := opts.(enabled := true), Timer(uuid, opts, true);
      AddRowAgrees(s, row, t);
      var r := Next(s, Create(uuid, opts));
      assert r.mem[opts.owner] == TimersOf(s, opts.owner) + [t];
      assert r.rows == s.rows[uuid := row];
      assert r == State(s.rows[uuid := row], s.mem[opts.owner := TimersOf(s, opts.owner) + [t]]);
    }
  }

  lemma DropAgrees(s: State, owner: string, i: nat)
    requires Agreement(s) && owner in s.mem && i < |s.mem[owner]|
    ensures Agreement(DropTimer(s, owner, i, s.mem[owner][i].opts.name))
  {
    var timers, name := s.mem[owner], s.mem[owner][i].opts.name;
    var r := DropTimer(s, owner, i, name);
    var timers' := RemoveAt(timers, i);
    assert AgreeOn(s.rows, owner, TimersOf(s, owner));
    forall k | 0 <= k < |timers'| ensures Backed(r.rows, owner, timers'[k]) {
      var j := if k < i then k else k + 1;
      assert timers'[k] == timers[j] && Backed(s.rows, owner, timers[j]);
      assert timers[j].opts.name != name;
    }
    forall u | u in r.rows && r.rows[u].owner == owner ensures HasUuid(timers', u) {
      assert HasUuid(timers, u);
      var j :| 0 <= j < |timers| && timers[j].uuid == u;
      assert Backed(s.rows, owner, timers[j]);
      assert timers'[if j < i then j else j - 1].uuid == u;
    }
    assert forall k :: 0 <= k < |timers'| ==> timers'[k] == timers[if k < i then k else k + 1];
    AgreementUpdate(s, r.rows, owner, timers');
  }

  lemma {:induction false} OnTitlesAgrees(s: State, owner: string, n: nat, title: string)
    requires Agreement(s) && owner in s.mem && n <= |s.mem[owner]|
    ensures Agreement(OnTitles(s, owner, n, title))
  {
    if n > 0 {
      OnTitlesAgrees(s, owner, n - 1, title);
      var t := OnTitles(s, owner, n - 1, title);
      SwitchAgrees(t, owner, n - 1, title in t.mem[owner][n - 1].opts.titles);
    }
  }

  lemma TitleChangeAgrees(s: State, owner: string, title: string)
    requires Agreement(s)
    ensures Agreement(Next(s, TitleChange(owner, title)))
  {
    var t := s.(mem := s.mem[owner := TimersOf(s, owner)]);
    assert AgreeOn(s.rows, owner, TimersOf(s, owner));
    AgreementUpdate(s, s.rows, owner, TimersOf(s, owner));
    assert t == State(s.rows, s.mem[owner := TimersOf(s, owner)]);
    OnTitlesAgrees(t, owner, |t.mem[owner]|, title);
  }

  lemma NamedAgrees(s: State, owner: string, name: string, e: Event)
    requires Agreement(s)
    requires e == Delete(owner, name) || e == Enable(owner, name) || e == Disable(owner, name)
    ensures Agreement(Next(s, e))
  {
    var k := FindName(TimersOf(s, owner), name);
    if k.Some? {
      SwitchAgrees(s, owner, k.value, e.Enable?);
      if e.Delete? {
        DropAgrees(Switch(s, owner, k.value, false), owner, k.value);
      }
    }
  }

  lemma {:induction false} StopFirstAgrees(s: State, owner: string, n: nat)
    requires Agreement(s) && owner in s.mem && n <= |s.mem[owner]|
    ensures Agreement(StopFirst(s, owner, n))
  {
    if n > 0 {
      StopFirstAgrees(s, owner, n - 1);
      SwitchAgrees(StopFirst(s, owner, n - 1), owner, n - 1, false);
    }
  }

  lemma {:induction false} StopFirstStops(s: State, owner: string, n: nat)
    requires owner in s.mem && n <= |s.mem[owner]|
    ensures
      var r := StopFirst(s, owner, n);
      && (forall k :: 0 <= k < n ==> r.mem[owner][k] == s.mem[owner][k].(running := false))
      && (forall k :: n <= k < |s.mem[owner]| ==> r.mem[owner][k] == s.mem[owner][k])
      && (forall o :: o != owner ==> TimersOf(r, o) == TimersOf(s, o))
  {
    if n > 0 {
      StopFirstStops(s, owner, n - 1);
    }
  }

  /** Leaving a channel stops all its timers and deletes all its rows, and the other channels still agree; the
      channel itself agrees with the table afterwards exactly when it had no timer. */
  lemma LeavingChannel(s: State, owner: string)
    requires Agreement(s)
    ensures
      var r := DeleteForChannel(s, owner);
      && (forall k :: 0 <= k < |TimersOf(r, owner)| ==> !TimersOf(r, owner)[k].running)
      && (forall u :: u in r.rows ==> r.rows[u].owner != owner)
      && |TimersOf(r, owner)| == |TimersOf(s, owner)|
      && (forall o :: o != owner ==> AgreeOn(r.rows, o, TimersOf(r, o)))
      && (AgreeOn(r.rows, owner, TimersOf(r, owner)) <==> TimersOf(s, owner) == [])
  {
    var r := DeleteForChannel(s, owner);
    assert AgreeOn(s.rows, owner, TimersOf(s, owner));
    if owner in s.mem {
      var t := StopFirst(s, owner, |s.mem[owner]|);
      StopFirstStops(s, owner, |s.mem[owner]|);
      StopFirstAgrees(s, owner, |s.mem[owner]|);
      forall o | o != owner ensures AgreeOn(r.rows, o, TimersOf(r, o)) {
        assert AgreeOn(t.rows, o, TimersOf(t, o));
        AgreeOnFrame(t.rows, r.rows, o, TimersOf(r, o));
      }
      if s.mem[owner] != [] {
        var first := TimersOf(r, owner)[0];
        assert !Backed(r.rows, owner, first);
      }
    } else {
      assert forall u :: !HasUuid(TimersOf(s, owner), u);
      forall o ensures AgreeOn(r.rows, o, TimersOf(r, o)) {
        assert AgreeOn(s.rows, o, TimersOf(s, o));
      }
    }
  }

  /** Every event keeps the agreement, except leaving a channel that has timers. */
  lemma NextAgrees(s: State, e: Event)
    requires Agreement(s)
    ensures Agreement(Next(s, e)) <==> (e.Leave? ==> TimersOf(s, e.owner) == [])
  {
    match e
    case Create(uuid, opts) =>
      CreateAgrees(s, uuid, opts);
    case TitleChange(owner, title) =>
      TitleChangeAgrees(s, owner, title);
    case Leave(owner) =>
      LeavingChannel(s, owner);
    case _ =>
      NamedAgrees(s, e.owner, e.name, e);
  }

  /** The agreement holds at every moment of the run. */
  ghost predicate AlwaysAgrees(s: State, es: seq<Event>) {
    Agreement(After(s, es)) && (es != [] ==> AlwaysAgrees(s, Front(es)))
  }

  /** No channel is left while it has timers. */
  ghost predicate NothingLeftBehind(s: State, es: seq<Event>) {
    es != [] ==>
      && NothingLeftBehind(s, Front(es))
      && (Last(es).Leave? ==> TimersOf(After(s, Front(es)), Last(es).owner) == [])
  }

  /** The timers in memory and the rows of the table match one to one at every moment of a run if and only if no
      channel is left while it has timers. */
  lemma {:induction false} TimersAgreeWithTable(s: State, es: seq<Event>)
    requires Agreement(s)
    ensures AlwaysAgrees(s, es) <==> NothingLeftBehind(s, es)
    ensures (forall k :: 0 <= k < |es| ==> !es[k].Leave?) ==> AlwaysAgrees(s, es)
  {
    if es != [] {
      TimersAgreeWithTable(s, Front(es));
      if AlwaysAgrees(s, Front(es)) {
        NextAgrees(After(s, Front(es)), Last(es));
      }
    }
  }

  ghost predicate NamesDistinct(rows: map<nat, Row>) {
    forall u, v :: u in rows && v in rows && rows[u].owner == rows[v].owner && rows[u].name == rows[v].name ==> u == v
  }

  /** Every row read has its timer, in the list of its channel. */
  lemma {:induction false} InitializeLoads(rows: map<nat, Row>, order: seq<nat>, titles: map<string, string>, u: nat)
    requires (forall v :: v in order ==> v in rows) && u in order
    ensures exists i :: 0 <= i < |TimersOf(Initialize(rows, order, titles), rows[u].owner)|
                        && TimersOf(Initialize(rows, order, titles), rows[u].owner)[i].uuid == u
                        && TimersOf(Initialize(rows, order, titles), rows[u].owner)[i].opts == rows[u]
  {
    var s, v := Initialize(rows, Front(order), titles), Last(order);
    var t, timers := Initialize(rows, order, titles), TimersOf(Initialize(rows, order, titles), rows[u].owner);
    if u == v {
      assert timers[|timers| - 1].uuid == u && timers[|timers| - 1].opts == rows[u];
    } else {
      InitializeLoads(rows, Front(order), titles, u);
      var i :| 0 <= i < |TimersOf(s, rows[u].owner)| && TimersOf(s, rows[u].owner)[i].uuid == u
               && TimersOf(s, rows[u].owner)[i].opts == rows[u];
      assert timers[i] == TimersOf(s, rows[u].owner)[i];
    }
  }

  lemma {:induction false} InitializeReads(rows: map<nat, Row>, order: seq<nat>, titles: map<string, string>)
    requires forall u :: u in order ==> u in rows
    ensures Initialize(rows, order, titles).rows == map u | u in rows && u in order :: rows[u]
  {
    if order != [] {
      InitializeReads(rows, Front(order), titles);
      assert forall v :: v in order <==> v in Front(order) || v == Last(order);
    }
  }

  lemma {:induction false} InitializeFromDistinct(rows: map<nat, Row>, order: seq<nat>, titles: map<string, string>)
    requires NamesDistinct(rows) && forall u :: u in order ==> u in rows
    requires forall i, j :: 0 <= i < j < |order| ==> order[i] != order[j]
    ensures Agreement(Initialize(rows, order, titles))
  {
    if order != [] {
      var s, u := Initialize(rows, Front(order), titles), Last(order);
      InitializeFromDistinct(rows, Front(order), titles);
      InitializeReads(rows, Front(order), titles);
      var t := Timer(u, rows[u], rows[u].enabled && TitleMatches(rows[u].titles, Title(titles, rows[u].owner)));
      assert u !in Front(order);
      AddRowAgrees(s, rows[u], t);
    }
  }

  /** Start-up reads the whole table, in some order; memory and table then agree if and only if no channel has two
      rows of the same name. */
  lemma InitializeAgrees(rows: map<nat, Row>, order: seq<nat>, titles: map<string, string>)
    requires forall u :: u in order <==> u in rows
    requires forall i, j :: 0 <= i < j < |order| ==> order[i] != order[j]
    ensures Agreement(Initialize(rows, order, titles)) <==> NamesDistinct(rows)
    ensures Initialize(rows, order, titles).rows == rows
  {
    var s := Initialize(rows, order, titles);
    InitializeReads(rows, order, titles);
    if NamesDistinct(rows) {
      InitializeFromDistinct(rows, order, titles);
    } else {
      var u, v :| u in rows && v in rows && rows[u].owner == rows[v].owner && rows[u].name == rows[v].name && u != v;
      InitializeLoads(rows, order, titles, u);
      InitializeLoads(rows, order, titles, v);
      var timers := TimersOf(s, rows[u].owner);
      assert !Distinct(timers);
      assert !AgreeOn(s.rows, rows[u].owner, timers);
    }
  }

  // --- Title changes ----------------------------------------------------------------------------

  /** What a timer is after its channel changed title. */
  function AfterTitle(t: Timer, title: string): Timer {
    if t.opts.titles == [] then t else t.(running := title in t.opts.titles)
  }

  lemma OnTitleDecides(s: State, owner: string, i: nat, title: string)
    requires owner in s.mem && i < |s.mem[owner]|
    ensures OnTitle(s, owner, i, title).mem[owner] == s.mem[owner][i := AfterTitle(s.mem[owner][i], title)]
    ensures forall o :: o in s.mem && o != owner ==> OnTitle(s, owner, i, title).mem[o] == s.mem[o]
  {
  }

  lemma {:induction false} OnTitlesDecides(s: State, owner: string, n: nat, title: string)
    requires owner in s.mem && n <= |s.mem[owner]|
    ensures
      var r := OnTitles(s, owner, n, title);
      && (forall k :: 0 <= k < n ==> r.mem[owner][k] == AfterTitle(s.mem[owner][k], title))
      && (forall k :: n <= k < |s.mem[owner]| ==> r.mem[owner][k] == s.mem[owner][k])
      && (forall o :: o in s.mem && o != owner ==> r.mem[o] == s.mem[o])
  {
    if n > 0 {
      var t := OnTitles(s, owner, n - 1, title);
      OnTitlesDecides(s, owner, n - 1, title);
      OnTitleDecides(t, owner, n - 1, title);
      assert t.mem[owner][n - 1] == s.mem[owner][n - 1];
    }
  }

  lemma SameRowsTransitive(a: map<nat, Row>, b: map<nat, Row>, c: map<nat, Row>, owner: string)
    requires SameRowsFor(a, b, owner) && SameRowsFor(b, c, owner)
    ensures SameRowsFor(a, c, owner)
  {
  }

  lemma {:induction false} OnTitlesRows(s: State, owner: string, n: nat, title: string)
    requires Agreement(s) && owner in s.mem && n <= |s.mem[owner]|
    ensures forall o :: o != owner ==> SameRowsFor(s.rows, OnTitles(s, owner, n, title).rows, o)
  {
    if n > 0 {
      OnTitlesRows(s, owner, n - 1, title);
      OnTitlesAgrees(s, owner, n - 1, title);
      var t := OnTitles(s, owner, n - 1, title);
      assert AgreeOn(t.rows, owner, TimersOf(t, owner));
      var on := title in t.mem[owner][n - 1].opts.titles;
      if t.mem[owner][n - 1].running != on {
        SwitchRows(t.rows, owner, t.mem[owner], n - 1, on);
      }
      var r := OnTitles(s, owner, n, title);
      forall o | o != owner ensures SameRowsFor(s.rows, r.rows, o) {
        assert SameRowsFor(t.rows, r.rows, o);
        SameRowsTransitive(s.rows, t.rows, r.rows, o);
      }
    }
  }

  /** Whatever happened before, a title change leaves every timer of the channel that has titles running exactly
      when the new title is one of them, and touches no other timer; rows of other channels stay, provided memory
      and table agreed. */
  lemma TitleChangeDecides(s: State, owner: string, title: string)
    ensures
      var r := Next(s, TitleChange(owner, title));
      && |TimersOf(r, owner)| == |TimersOf(s, owner)|
      && (forall k :: 0 <= k < |TimersOf(s, owner)| ==>
            var timer := TimersOf(s, owner)[k];
            TimersOf(r, owner)[k] == if timer.opts.titles == [] then timer else timer.(running := title in timer.opts.titles))
      && (forall o :: o != owner ==> TimersOf(r, o) == TimersOf(s, o))
      && (Agreement(s) ==> forall o :: o != owner ==> SameRowsFor(s.rows, r.rows, o))
  {
    var t := s.(mem := s.mem[owner := TimersOf(s, owner)]);
    OnTitlesDecides(t, owner, |t.mem[owner]|, title);
    if Agreement(s) {
      assert AgreeOn(s.rows, owner, TimersOf(s, owner));
      AgreementUpdate(s, s.rows, owner, TimersOf(s, owner));
      assert t == State(s.rows, s.mem[owner := TimersOf(s, owner)]);
      OnTitlesRows(t, owner, |t.mem[owner]|, title);
    }
  }
}
