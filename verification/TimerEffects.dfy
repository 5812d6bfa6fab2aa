/** What start-up and each operation on timers do, to the timer they mean and to nothing else, whatever the state. */
module TimerEffects {
  import opened Common
  import opened TimerModel

  // --- Start-up --------------------------------------------------------------------------------

  /** The uuids of a channel's rows, in the order the table streams them. */
  function OwnedBy(rows: map<nat, Row>, order: seq<nat>, owner: string): (r: seq<nat>)
    requires forall u :: u in order ==> u in rows
    ensures forall k :: 0 <= k < |r| ==> r[k] in order && rows[r[k]].owner == owner
    ensures forall u :: u in order && rows[u].owner == owner ==> u in r
  {
    if order == [] then []
    else OwnedBy(rows, Front(order), owner) + if rows[Last(order)].owner == owner then [Last(order)] else []
  }

  /** One timer for each row of the channel, in order; it runs if its row is enabled and lists no titles or the channel's
      stored one. */
  ghost predicate Restored(timers: seq<Timer>, rows: map<nat, Row>, order: seq<nat>, titles: map<string, string>, owner: string)
    requires forall u :: u in order ==> u in rows
  {
    var uuids := OwnedBy(rows, order, owner);
    && |timers| == |uuids|
    && forall k :: 0 <= k < |timers| ==>
         var row := rows[uuids[k]];
         && timers[k].uuid == uuids[k] && timers[k].opts == row
         && (timers[k].running <==>
             row.enabled && (row.titles == [] || (if owner in titles then titles[owner] else "") in row.titles))
  }

  lemma {:induction false} StartUpRestores(rows: map<nat, Row>, order: seq<nat>, titles: map<string, string>, owner: string)
    requires forall u :: u in order ==> u in rows
    ensures Restored(TimersOf(Initialize(rows, order, titles), owner), rows, order, titles, owner)
  {
    if order != [] {
      StartUpRestores(rows, Front(order), titles, owner);
    }
  }

  lemma {:induction false} OwnedOnce(rows: map<nat, Row>, order: seq<nat>, owner: string)
    requires forall u :: u in order ==> u in rows
    requires forall i, j :: 0 <= i < j < |order| ==> order[i] != order[j]
    ensures forall i, j :: 0 <= i < j < |OwnedBy(rows, order, owner)| ==> OwnedBy(rows, order, owner)[i] != OwnedBy(rows, order, owner)[j]
  {
    if order != [] {
      OwnedOnce(rows, Front(order), owner);
      assert forall u :: u in Front(order) ==> u != Last(order);
    }
  }

  // --- Operations ------------------------------------------------------------------------------

  /** Timer `k` of the channel runs or stands still and every other timer is as it was; its row, if it has one, says so if
      the timer was switched, and every other row is as it was. */
  ghost predicate Switched(s: State, t: State, owner: string, k: nat, on: bool) {
    && k < |TimersOf(s, owner)|
    && var timer := TimersOf(s, owner)[k];
    && TimersOf(t, owner) == TimersOf(s, owner)[k := timer.(running := on)]
    && (forall o :: o != owner ==> TimersOf(t, o) == TimersOf(s, o))
    && t.rows.Keys == s.rows.Keys
    && forall u :: u in s.rows ==>
         t.rows[u] == if u == timer.uuid && timer.running != on then s.rows[u].(enabled := on) else s.rows[u]
  }

  lemma SwitchEffect(s: State, owner: string, k: nat, on: bool)
    requires owner in s.mem && k < |s.mem[owner]|
    ensures Switched(s, Switch(s, owner, k, on), owner, k, on)
  {
    var timer := s.mem[owner][k];
    assert timer.running == on ==> timer.(running := on) == timer && s.mem[owner][k := timer] == s.mem[owner];
  }

  /** The first timer of the name. */
  ghost predicate IsFirst(timers: seq<Timer>, name: string, k: nat) {
    && k < |timers| && timers[k].opts.name == name
    && forall j :: 0 <= j < k ==> timers[j].opts.name != name
  }

  lemma FirstIsFound(timers: seq<Timer>, name: string, k: nat)
    requires IsFirst(timers, name, k)
    ensures FindName(timers, name) == Some(k)
  {
  }

  ghost predicate NoneNamed(timers: seq<Timer>, name: string) {
    forall k :: 0 <= k < |timers| ==> timers[k].opts.name != name
  }

  /** Enabling a name makes its first timer run, and where memory and table agreed its row is enabled. */
  lemma EnablingDecides(s: State, owner: string, name: string, k: nat)
    ensures IsFirst(TimersOf(s, owner), name, k) ==> Switched(s, Next(s, Enable(owner, name)), owner, k, true)
    ensures IsFirst(TimersOf(s, owner), name, k) && Agreement(s) ==>
              var u := TimersOf(s, owner)[k].uuid;
              u in s.rows && Next(s, Enable(owner, name)).rows[u].enabled
    ensures NoneNamed(TimersOf(s, owner), name) ==> Next(s, Enable(owner, name)) == s
  {
    if IsFirst(TimersOf(s, owner), name, k) {
      FirstIsFound(TimersOf(s, owner), name, k);
      SwitchEffect(s, owner, k, true);
      if Agreement(s) {
        assert AgreeOn(s.rows, owner, TimersOf(s, owner));
        assert Backed(s.rows, owner, TimersOf(s, owner)[k]);
      }
    }
  }

  /** Disabling a name stops its first timer, and disables its row if the timer was running. */
  lemma DisablingDecides(s: State, owner: string, name: string, k: nat)
    ensures IsFirst(TimersOf(s, owner), name, k) ==> Switched(s, Next(s, Disable(owner, name)), owner, k, false)
    ensures IsFirst(TimersOf(s, owner), name, k) && TimersOf(s, owner)[k].running && TimersOf(s, owner)[k].uuid in s.rows ==>
              !Next(s, Disable(owner, name)).rows[TimersOf(s, owner)[k].uuid].enabled
    ensures NoneNamed(TimersOf(s, owner), name) ==> Next(s, Disable(owner, name)) == s
  {
    if IsFirst(TimersOf(s, owner), name, k) {
      FirstIsFound(TimersOf(s, owner), name, k);
      SwitchEffect(s, owner, k, false);
    }
  }

  /** A new timer of a free name runs at the end of its channel's list, with an enabled row. */
  lemma CreatingDecides(s: State, uuid: nat, opts: Row)
    requires FreshUuid(s, uuid)
    ensures
      var t := Next(s, Create(uuid, opts));
      if exists u :: u in s.rows && s.rows[u].owner == opts.owner && s.rows[u].name == opts.name then t == s
      else
        && t.rows == s.rows[uuid := opts.(enabled := true)]
        && TimersOf(t, opts.owner) == TimersOf(s, opts.owner) + [Timer(uuid, opts, true)]
        && forall o :: o != opts.owner ==> TimersOf(t, o) == TimersOf(s, o)
  {
    if !NameTaken(s.rows, opts.owner, opts.name) {
      var t := AddTimer(s, uuid, opts);
      SwitchEffect(t, opts.owner, |t.mem[opts.owner]| - 1, true);
      assert s.rows[uuid := opts][uuid := opts.(enabled := true)] == s.rows[uuid := opts.(enabled := true)];
    }
  }

  /** Deleting a name forgets its first timer and deletes every row of the name; other rows stay, except that a timer whose
      row had another name disables it if it was running. */
  lemma DeletingDecides(s: State, owner: string, name: string, k: nat)
    ensures NoneNamed(TimersOf(s, owner), name) ==> Next(s, Delete(owner, name)) == s
    ensures IsFirst(TimersOf(s, owner), name, k) ==>
              var t := Next(s, Delete(owner, name));
              var timer := TimersOf(s, owner)[k];
              && TimersOf(t, owner) == TimersOf(s, owner)[..k] + TimersOf(s, owner)[k + 1..]
              && (forall o :: o != owner ==> TimersOf(t, o) == TimersOf(s, o))
              && (forall u :: u in t.rows <==> u in s.rows && !(s.rows[u].owner == owner && s.rows[u].name == name))
              && forall u :: u in t.rows ==>
                   t.rows[u] == if u == timer.uuid && timer.running then s.rows[u].(enabled := false) else s.rows[u]
  {
    if IsFirst(TimersOf(s, owner), name, k) {
      FirstIsFound(TimersOf(s, owner), name, k);
      SwitchEffect(s, owner, k, false);
      assert RemoveAt(Switch(s, owner, k, false).mem[owner], k) == s.mem[owner][..k] + s.mem[owner][k + 1..];
    }
  }

  /** What a title makes of the row of a timer: it is written if and only if the timer is switched. */
  ghost predicate RowTold(rows: map<nat, Row>, rows': map<nat, Row>, timer: Timer, title: string) {
    var on := title in timer.opts.titles;
    && timer.uuid in rows && timer.uuid in rows'
    && rows'[timer.uuid] == if timer.opts.titles != [] && timer.running != on then rows[timer.uuid].(enabled := on) else rows[timer.uuid]
  }

  lemma TitleSparesRow(s: State, owner: string, i: nat, title: string, u: nat)
    requires owner in s.mem && i < |s.mem[owner]| && u in s.rows && s.mem[owner][i].uuid != u
    ensures u in OnTitle(s, owner, i, title).rows && OnTitle(s, owner, i, title).rows[u] == s.rows[u]
  {
  }

  lemma TitleWritesRow(s: State, owner: string, i: nat, title: string)
    requires owner in s.mem && i < |s.mem[owner]| && s.mem[owner][i].uuid in s.rows
    ensures RowTold(s.rows, OnTitle(s, owner, i, title).rows, s.mem[owner][i], title)
  {
  }

  lemma NextToHear(s: State, owner: string, n: nat, title: string)
    requires owner in s.mem && n < |s.mem[owner]|
    ensures OnTitles(s, owner, n, title).mem[owner][n] == s.mem[owner][n]
  {
    OnTitlesDecides(s, owner, n, title);
  }

  ghost predicate RowHeard(s: State, owner: string, n: nat, title: string, k: nat)
    requires owner in s.mem && n <= |s.mem[owner]| && k < |s.mem[owner]|
  {
    var rows' := OnTitles(s, owner, n, title).rows;
    if k < n then RowTold(s.rows, rows', s.mem[owner][k], title)
    else s.mem[owner][k].uuid in s.rows && s.mem[owner][k].uuid in rows' && rows'[s.mem[owner][k].uuid] == s.rows[s.mem[owner][k].uuid]
  }

  lemma {:induction false} TitlesWriteRows(s: State, owner: string, n: nat, title: string, k: nat)
    requires owner in s.mem && n <= |s.mem[owner]| && k < |s.mem[owner]| && s.mem[owner][k].uuid in s.rows
    requires forall j :: 0 <= j < |s.mem[owner]| && j != k ==> s.mem[owner][j].uuid != s.mem[owner][k].uuid
    ensures RowHeard(s, owner, n, title, k)
  {
    if n > 0 {
      TitlesWriteRows(s, owner, n - 1, title, k);
      NextToHear(s, owner, n - 1, title);
      var t := OnTitles(s, owner, n - 1, title);
      if k == n - 1 {
        TitleWritesRow(t, owner, n - 1, title);
      } else {
        TitleSparesRow(t, owner, n - 1, title, s.mem[owner][k].uuid);
      }
    }
  }

  /** Where memory and table agreed, a title is written to the rows of exactly the timers it switches. */
  lemma TitlesDecideRows(s: State, owner: string, title: string, k: nat)
    requires Agreement(s) && k < |TimersOf(s, owner)|
    ensures RowTold(s.rows, Next(s, TitleChange(owner, title)).rows, TimersOf(s, owner)[k], title)
  {
    var t := s.(mem := s.mem[owner := TimersOf(s, owner)]);
    assert AgreeOn(s.rows, owner, TimersOf(s, owner));
    assert Backed(s.rows, owner, TimersOf(s, owner)[k]);
    TitlesWriteRows(t, owner, |t.mem[owner]|, title, k);
  }

  lemma {:induction false} StopFirstUuids(s: State, owner: string, n: nat)
    requires owner in s.mem && n <= |s.mem[owner]|
    ensures StopFirst(s, owner, n).rows.Keys == s.rows.Keys
    ensures forall u :: u in s.rows ==> StopFirst(s, owner, n).rows[u].owner == s.rows[u].owner
  {
    if n > 0 {
      StopFirstUuids(s, owner, n - 1);
    }
  }

  lemma NextToStop(s: State, owner: string, n: nat)
    requires owner in s.mem && n < |s.mem[owner]|
    ensures StopFirst(s, owner, n).mem[owner][n] == s.mem[owner][n]
  {
    StopFirstStops(s, owner, n);
  }

  lemma SwitchSparesRow(s: State, owner: string, k: nat, on: bool, u: nat)
    requires owner in s.mem && k < |s.mem[owner]| && u in s.rows && s.mem[owner][k].uuid != u
    ensures u in Switch(s, owner, k, on).rows && Switch(s, owner, k, on).rows[u] == s.rows[u]
  {
  }

  ghost predicate SameRow(rows: map<nat, Row>, rows': map<nat, Row>, u: nat) {
    u in rows && u in rows' && rows'[u] == rows[u]
  }

  lemma StopSparesRow(s: State, owner: string, n: nat, u: nat)
    requires owner in s.mem && n < |s.mem[owner]| && s.mem[owner][n].uuid != u && u in StopFirst(s, owner, n).rows
    ensures SameRow(StopFirst(s, owner, n).rows, StopFirst(s, owner, n + 1).rows, u)
  {
    NextToStop(s, owner, n);
    SwitchSparesRow(StopFirst(s, owner, n), owner, n, false, u);
  }

  lemma {:induction false} StopFirstKeepsRow(s: State, owner: string, n: nat, u: nat)
    requires owner in s.mem && n <= |s.mem[owner]| && u in s.rows
    requires forall k :: 0 <= k < |s.mem[owner]| ==> s.mem[owner][k].uuid != u
    ensures SameRow(s.rows, StopFirst(s, owner, n).rows, u)
  {
    if n > 0 {
      StopFirstKeepsRow(s, owner, n - 1, u);
      StopSparesRow(s, owner, n - 1, u);
    }
  }

  /** Leaving stops the channel's timers, deletes its rows and no others, and touches no other timer; where memory and table
      agreed, nor any other row. */
  lemma LeavingDecides(s: State, owner: string)
    ensures
      var t := Next(s, Leave(owner));
      && |TimersOf(t, owner)| == |TimersOf(s, owner)|
      && (forall k :: 0 <= k < |TimersOf(s, owner)| ==> TimersOf(t, owner)[k] == TimersOf(s, owner)[k].(running := false))
      && (forall o :: o != owner ==> TimersOf(t, o) == TimersOf(s, o))
      && (forall u :: u in t.rows <==> u in s.rows && !(owner in s.mem && s.rows[u].owner == owner))
      && (Agreement(s) ==> forall u :: u in t.rows ==> t.rows[u] == s.rows[u])
  {
    if owner in s.mem {
      StopFirstStops(s, owner, |s.mem[owner]|);
      StopFirstUuids(s, owner, |s.mem[owner]|);
      if Agreement(s) {
        assert AgreeOn(s.rows, owner, TimersOf(s, owner));
        forall u | u in s.rows && s.rows[u].owner != owner ensures StopFirst(s, owner, |s.mem[owner]|).rows[u] == s.rows[u] {
          forall k | 0 <= k < |s.mem[owner]| ensures s.mem[owner][k].uuid != u {
            assert Backed(s.rows, owner, s.mem[owner][k]);
          }
          StopFirstKeepsRow(s, owner, |s.mem[owner]|, u);
        }
      }
    }
  }
}
