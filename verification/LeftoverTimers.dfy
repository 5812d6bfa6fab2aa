/** What becomes of the timers of a channel that is left. Their rows are deleted and they are stopped, but they stay in
    memory, where every later operation finds them before any new timer of the same name. */
module LeftoverTimers {
  import opened Common
  import opened TimerModel
  import opened TimerEffects

  /** Timer `i` is the first of its name and the only one of its uuid. */
  ghost predicate FirstAndOnly(timers: seq<Timer>, u: nat, opts: Row, on: bool, i: nat) {
    && i < |timers| && timers[i] == Timer(u, opts, on)
    && (forall j :: 0 <= j < i ==> timers[j].opts.name != opts.name)
    && (forall j :: 0 <= j < |timers| && j != i ==> timers[j].uuid != u)
  }

  /** Such a timer of its channel without a row. */
  ghost predicate Leftover(s: State, u: nat, opts: Row, on: bool, i: nat) {
    u !in s.rows && FirstAndOnly(TimersOf(s, opts.owner), u, opts, on, i)
  }

  /** Neither memory nor table knows the uuid. */
  ghost predicate Gone(s: State, u: nat, owner: string) {
    && u !in s.rows
    && forall j :: 0 <= j < |TimersOf(s, owner)| ==> TimersOf(s, owner)[j].uuid != u
  }

  /** Whether such a timer runs after an event, if it is still there. */
  function SwitchedBy(opts: Row, e: Event, on: bool): bool {
    match e
    case Enable(owner, name) => on || (owner == opts.owner && name == opts.name)
    case Disable(owner, name) => on && !(owner == opts.owner && name == opts.name)
    case TitleChange(owner, title) => if owner == opts.owner && opts.titles != [] then title in opts.titles else on
    case Leave(owner) => on && owner != opts.owner
    case _ => on
  }

  /** The last event that concerns it decides; before the first it is stopped. */
  function SwitchedOn(opts: Row, es: seq<Event>): bool {
    es != [] && SwitchedBy(opts, Last(es), SwitchedOn(opts, Front(es)))
  }

  predicate Deleted(opts: Row, es: seq<Event>) {
    es != [] && (Deleted(opts, Front(es)) || Last(es) == Delete(opts.owner, opts.name))
  }

  lemma {:induction false} OnTitlesUuids(s: State, owner: string, n: nat, title: string)
    requires owner in s.mem && n <= |s.mem[owner]|
    ensures OnTitles(s, owner, n, title).rows.Keys == s.rows.Keys
  {
    if n > 0 {
      OnTitlesUuids(s, owner, n - 1, title);
    }
  }

  lemma CreateEffect(s: State, uuid: nat, opts: Row)
    ensures
      var r := Next(s, Create(uuid, opts));
      && r.rows.Keys <= s.rows.Keys + {uuid}
      && (forall o :: o != opts.owner ==> TimersOf(r, o) == TimersOf(s, o))
      && (TimersOf(r, opts.owner) == TimersOf(s, opts.owner)
          || TimersOf(r, opts.owner) == TimersOf(s, opts.owner) + [Timer(uuid, opts, true)])
  {
    if !NameTaken(s.rows, opts.owner, opts.name) && FreshUuid(s, uuid) {
      var t := AddTimer(s, uuid, opts);
      SwitchEffect(t, opts.owner, |t.mem[opts.owner]| - 1, true);
    }
  }

  lemma DeleteEffect(s: State, owner: string, name: string)
    ensures
      var r, k := Next(s, Delete(owner, name)), FindName(TimersOf(s, owner), name);
      && r.rows.Keys <= s.rows.Keys
      && (forall o :: o != owner ==> TimersOf(r, o) == TimersOf(s, o))
      && TimersOf(r, owner) == if k.Some? then RemoveAt(TimersOf(s, owner), k.value) else TimersOf(s, owner)
  {
    var k := FindName(TimersOf(s, owner), name);
    if k.Some? {
      SwitchEffect(s, owner, k.value, false);
      var t := Switch(s, owner, k.value, false);
      assert RemoveAt(t.mem[owner], k.value) == RemoveAt(s.mem[owner], k.value);
    }
  }

  lemma TitleEffect(s: State, owner: string, title: string)
    ensures Next(s, TitleChange(owner, title)).rows.Keys == s.rows.Keys
  {
    var t := s.(mem := s.mem[owner := TimersOf(s, owner)]);
    OnTitlesUuids(t, owner, |t.mem[owner]|, title);
  }

  /** Removing an earlier timer moves the leftover one up. */
  function Shifted(i: nat, k: nat): nat {
    if k < i then i - 1 else i
  }

  lemma RemoveAtKeeps(timers: seq<Timer>, k: nat)
    requires k < |timers|
    ensures |RemoveAt(timers, k)| == |timers| - 1
    ensures forall j :: 0 <= j < |timers| - 1 ==> RemoveAt(timers, k)[j] == timers[if j < k then j else j + 1]
  {
  }

  lemma RemovalKeeps(timers: seq<Timer>, k: nat, u: nat, opts: Row, on: bool, i: nat)
    requires FirstAndOnly(timers, u, opts, on, i) && k < |timers| && timers[k].opts.name != opts.name
    ensures FirstAndOnly(RemoveAt(timers, k), u, opts, on, Shifted(i, k))
  {
    RemoveAtKeeps(timers, k);
  }

  lemma DeleteKeeps(s: State, e: Event, u: nat, opts: Row, on: bool, i: nat) returns (i': nat)
    requires Leftover(s, u, opts, on, i) && e.Delete? && e != Delete(opts.owner, opts.name)
    ensures Leftover(Next(s, e), u, opts, on, i')
  {
    DeleteEffect(s, e.owner, e.name);
    i' := i;
    var k := FindName(TimersOf(s, e.owner), e.name);
    if e.owner == opts.owner && k.Some? {
      i' := Shifted(i, k.value);
      RemovalKeeps(TimersOf(s, opts.owner), k.value, u, opts, on, i);
    }
  }

  lemma DeleteRemoves(s: State, u: nat, opts: Row, on: bool, i: nat)
    requires Leftover(s, u, opts, on, i)
    ensures Gone(Next(s, Delete(opts.owner, opts.name)), u, opts.owner)
  {
    DeleteEffect(s, opts.owner, opts.name);
    var timers := TimersOf(s, opts.owner);
    assert FindName(timers, opts.name) == Some(i);
    RemoveAtKeeps(timers, i);
  }

  lemma SwitchKeeps(s: State, e: Event, u: nat, opts: Row, on: bool, i: nat)
    requires Leftover(s, u, opts, on, i) && (e.Enable? || e.Disable?)
    ensures Leftover(Next(s, e), u, opts, SwitchedBy(opts, e, on), i)
  {
    var k := FindName(TimersOf(s, e.owner), e.name);
    if k.Some? {
      SwitchEffect(s, e.owner, k.value, e.Enable?);
    }
  }

  lemma LeftoverStep(s: State, e: Event, u: nat, opts: Row, on: bool, i: nat) returns (i': nat)
    requires Leftover(s, u, opts, on, i) && (e.Create? ==> e.uuid != u) && e != Delete(opts.owner, opts.name)
    ensures Leftover(Next(s, e), u, opts, SwitchedBy(opts, e, on), i')
  {
    i' := i;
    match e
    case Create(uuid, other) => CreateEffect(s, uuid, other);
    case Delete(_, _) => i' := DeleteKeeps(s, e, u, opts, on, i);
    case TitleChange(owner, title) =>
      TitleEffect(s, owner, title);
      TitleChangeDecides(s, owner, title);
    case Leave(owner) => LeavingDecides(s, owner);
    case _ => SwitchKeeps(s, e, u, opts, on, i);
  }

  lemma GoneAfterDelete(s: State, e: Event, u: nat, owner: string)
    requires Gone(s, u, owner) && e.Delete?
    ensures Gone(Next(s, e), u, owner)
  {
    DeleteEffect(s, e.owner, e.name);
    var timers, k := TimersOf(s, e.owner), FindName(TimersOf(s, e.owner), e.name);
    if k.Some? {
      RemoveAtKeeps(timers, k.value);
    }
  }

  lemma GoneAfterSwitch(s: State, e: Event, u: nat, owner: string)
    requires Gone(s, u, owner) && (e.Enable? || e.Disable?)
    ensures Gone(Next(s, e), u, owner)
  {
    var k := FindName(TimersOf(s, e.owner), e.name);
    if k.Some? {
      SwitchEffect(s, e.owner, k.value, e.Enable?);
    }
  }

  lemma GoneStep(s: State, e: Event, u: nat, owner: string)
    requires Gone(s, u, owner) && (e.Create? ==> e.uuid != u)
    ensures Gone(Next(s, e), u, owner)
  {
    match e
    case Create(uuid, opts) => CreateEffect(s, uuid, opts);
    case Delete(_, _) => GoneAfterDelete(s, e, u, owner);
    case TitleChange(o, title) =>
      TitleEffect(s, o, title);
      TitleChangeDecides(s, o, title);
    case Leave(o) => LeavingDecides(s, o);
    case _ => GoneAfterSwitch(s, e, u, owner);
  }

  ghost predicate NeverReused(u: nat, es: seq<Event>) {
    forall j :: 0 <= j < |es| && es[j].Create? ==> es[j].uuid != u
  }

  /** Every timer of a channel that is left has become a stopped one without a row. */
  lemma LeavingMakesLeftover(s: State, owner: string, k: nat)
    requires Agreement(s) && k < |TimersOf(s, owner)|
    ensures
      var t := TimersOf(s, owner)[k];
      t.opts.owner == owner && Leftover(Next(s, Leave(owner)), t.uuid, t.opts, false, k)
  {
    var timers := TimersOf(s, owner);
    assert AgreeOn(s.rows, owner, timers);
    assert Backed(s.rows, owner, timers[k]);
    LeavingDecides(s, owner);
    StopFirstUuids(s, owner, |s.mem[owner]|);
  }

  lemma {:induction false} LeftoverRun(s: State, u: nat, opts: Row, k: nat, es: seq<Event>) returns (i: nat)
    requires Leftover(s, u, opts, false, k) && NeverReused(u, es)
    ensures !Deleted(opts, es) ==> Leftover(After(s, es), u, opts, SwitchedOn(opts, es), i)
    ensures Deleted(opts, es) ==> Gone(After(s, es), u, opts.owner)
  {
    i := k;
    if es != [] {
      var t, e, on := After(s, Front(es)), Last(es), SwitchedOn(opts, Front(es));
      i := LeftoverRun(s, u, opts, k, Front(es));
      if Deleted(opts, Front(es)) {
        GoneStep(t, e, u, opts.owner);
      } else if e == Delete(opts.owner, opts.name) {
        DeleteRemoves(t, u, opts, on, i);
      } else {
        i := LeftoverStep(t, e, u, opts, on, i);
      }
    }
  }

  /** The fate of every timer of a channel that is left, over every later run, uuids never being reused: no row comes
      back to it; it stays in memory if and only if its name is not deleted; and it runs if and only if the last event
      that concerns it switches it on: enabling its name, or a title of its own. */
  lemma FateOfLeftovers(s: State, owner: string, k: nat, es: seq<Event>)
    requires Agreement(s) && k < |TimersOf(s, owner)| && NeverReused(TimersOf(s, owner)[k].uuid, es)
    ensures
      var t := TimersOf(s, owner)[k];
      var r := After(Next(s, Leave(owner)), es);
      && t.uuid !in r.rows
      && (HasUuid(TimersOf(r, owner), t.uuid) <==> !Deleted(t.opts, es))
      && forall i :: 0 <= i < |TimersOf(r, owner)| && TimersOf(r, owner)[i].uuid == t.uuid ==>
           TimersOf(r, owner)[i] == Timer(t.uuid, t.opts, SwitchedOn(t.opts, es))
  {
    var t := TimersOf(s, owner)[k];
    LeavingMakesLeftover(s, owner, k);
    var i := LeftoverRun(Next(s, Leave(owner)), t.uuid, t.opts, k, es);
    if !Deleted(t.opts, es) {
      assert TimersOf(After(Next(s, Leave(owner)), es), owner)[i].uuid == t.uuid;
    }
  }

  /** A new timer of the name of one left behind suffers from it: deleting the name removes the old timer and the new
      one's row, and the new one runs on without a row. */
  lemma NamesakeLosesItsRow(s: State, owner: string, k: nat, uuid: nat, opts: Row)
    requires Agreement(s) && k < |TimersOf(s, owner)|
    requires opts.owner == owner && opts.name == TimersOf(s, owner)[k].opts.name && FreshUuid(Next(s, Leave(owner)), uuid)
    ensures
      var r := Next(Next(Next(s, Leave(owner)), Create(uuid, opts)), Delete(owner, opts.name));
      && uuid !in r.rows
      && TimersOf(r, owner) != [] && Last(TimersOf(r, owner)) == Timer(uuid, opts, true)
  {
    var left := Next(s, Leave(owner));
    LeavingMakesLeftover(s, owner, k);
    LeavingChannel(s, owner);
    CreatingDecides(left, uuid, opts);
    var made := Next(left, Create(uuid, opts));
    FirstIsFound(TimersOf(made, owner), opts.name, k);
    DeleteEffect(made, owner, opts.name);
    assert Last(RemoveAt(TimersOf(made, owner), k)) == Timer(uuid, opts, true);
  }
}
