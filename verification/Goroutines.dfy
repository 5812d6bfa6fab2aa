/** Which goroutines there are, and that they keep the queues moving: once `Run` was called and until shutdown every queue
    can be sent to its end, and without `Run` the catch-all's never is. */
module Goroutines {
  import opened Common
  import opened Permissions
  import opened SchedulerModel

  // --- Who drains what --------------------------------------------------------------------------

  /** How many goroutines were started for schedule `i`. */
  function Drainers(loops: seq<Loop>, i: nat): nat {
    if loops == [] then 0 else Drainers(Front(loops), i) + if Last(loops).schedule == i then 1 else 0
  }

  lemma DrainersAppend(loops: seq<Loop>, loop: Loop, i: nat)
    ensures Drainers(loops + [loop], i) == Drainers(loops, i) + if loop.schedule == i then 1 else 0
  {
    FrontLastOfAppend(loops, loop);
  }

  lemma {:induction false} DrainersConcat(a: seq<Loop>, b: seq<Loop>, i: nat)
    ensures Drainers(a + b, i) == Drainers(a, i) + Drainers(b, i)
  {
    if b == [] {
      assert a + b == a;
    } else {
      DrainersConcat(a, Front(b), i);
      DrainersAppend(a + Front(b), Last(b), i);
      assert a + b == (a + Front(b)) + [Last(b)];
    }
  }

  lemma SpawnLast(directory: map<string, nat>, order: seq<string>)
    requires order != [] && forall c :: c in order ==> c in directory
    ensures Spawn(directory, order) == Spawn(directory, Front(order)) + [Spawned(directory[Last(order)])]
  {
  }

  lemma {:induction false} SpawnsNone(directory: map<string, nat>, order: seq<string>, i: nat)
    requires forall c :: c in order ==> c in directory && directory[c] != i
    ensures Drainers(Spawn(directory, order), i) == 0
  {
    if order != [] {
      SpawnLast(directory, order);
      SpawnsNone(directory, Front(order), i);
      DrainersAppend(Spawn(directory, Front(order)), Spawned(directory[Last(order)]), i);
    }
  }

  lemma {:induction false} SpawnsOne(directory: map<string, nat>, order: seq<string>, channel: string, i: nat)
    requires (forall c :: c in order ==> c in directory) && channel in order && directory[channel] == i
    requires forall j, k :: 0 <= j < k < |order| ==> order[j] != order[k]
    requires forall c :: c in directory && directory[c] == i ==> c == channel
    ensures Drainers(Spawn(directory, order), i) == 1
  {
    var front, last := Front(order), Last(order);
    SpawnLast(directory, order);
    DrainersAppend(Spawn(directory, front), Spawned(directory[last]), i);
    if last == channel {
      SpawnsNone(directory, front, i);
    } else {
      SpawnsOne(directory, front, channel, i);
    }
  }

  lemma SpawnsEach(s: State, order: seq<string>, i: nat)
    requires WellFormed(s) && Enumerates(order, s.directory.Keys)
    ensures Drainers(Spawn(s.directory, order), i) == if i in s.directory.Values then 1 else 0
  {
    if i in s.directory.Values {
      var channel :| channel in s.directory && s.directory[channel] == i;
      forall c | c in s.directory && s.directory[c] == i ensures c == channel {
        if c != channel {
          SchedulesAreApart(s, c, channel);
        }
      }
      SpawnsOne(s.directory, order, channel, i);
    } else {
      SpawnsNone(s.directory, order, i);
    }
  }

  /** `Run` starts one goroutine for the catch-all and one for each registered schedule, and leaves the others alone. */
  lemma RunStarts(s: State, order: seq<string>, i: nat)
    requires WellFormed(s) && Enumerates(order, s.directory.Keys)
    ensures
      var loops := Next(s, RunAll(order)).loops;
      && s.loops <= loops && (forall l :: |s.loops| <= l < |loops| ==> loops[l].Spawned?)
      && Drainers(loops, i) == Drainers(s.loops, i) + if i == 0 || i in s.directory.Values then 1 else 0
  {
    var spawned := Spawn(s.directory, order);
    SpawnsEach(s, order, i);
    DrainersConcat(s.loops, spawned, i);
    DrainersAppend(s.loops + spawned, Spawned(0), i);
  }

  // --- Every schedule has a goroutine once Run was called --------------------------------------

  ghost predicate Attended(s: State, i: nat) {
    exists l :: 0 <= l < |s.loops| && s.loops[l].schedule == i && !s.loops[l].Ended?
  }

  /** `Run` was called, ranging over the channels registered then. */
  ghost predicate Started(es: seq<Event>) {
    es != []
    && (Started(Front(es)) || (Last(es).RunAll? && Enumerates(Last(es).order, After(Init(), Front(es)).directory.Keys)))
  }

  lemma AttendedKept(s: State, e: Event, i: nat)
    requires WellFormed(s) && !s.cancelled && Attended(s, i)
    ensures Attended(Next(s, e), i)
  {
    var l :| 0 <= l < |s.loops| && s.loops[l].schedule == i && !s.loops[l].Ended?;
    assert Next(s, e).loops[l].schedule == i && !Next(s, e).loops[l].Ended?;
  }

  lemma AttendedNow(s: State, e: Event)
    requires WellFormed(s)
    ensures e.RunAll? && Enumerates(e.order, s.directory.Keys) ==> Attended(Next(s, e), 0)
    ensures Opens(s, e) ==> Attended(Next(s, e), |s.schedules|)
  {
    var loops := Next(s, e).loops;
    if (e.RunAll? && Enumerates(e.order, s.directory.Keys)) || Opens(s, e) {
      assert loops[|loops| - 1].Spawned?;
    }
  }

  ghost predicate NoneOf(loops: seq<Loop>, i: nat) {
    forall l :: 0 <= l < |loops| ==> loops[l].schedule != i
  }

  lemma NoneOfKept(s: State, e: Event)
    requires WellFormed(s) && NoneOf(s.loops, 0) && !(e.RunAll? && Enumerates(e.order, s.directory.Keys))
    ensures NoneOf(Next(s, e).loops, 0)
  {
  }

  /** Before `Run` the catch-all has no goroutine at all. */
  lemma {:induction false} NotAttendedBefore(es: seq<Event>)
    requires !Started(es)
    ensures NoneOf(After(Init(), es).loops, 0)
  {
    if es != [] {
      NotAttendedBefore(Front(es));
      NoneOfKept(After(Init(), Front(es)), Last(es));
    }
  }

  /** Until shutdown a schedule has a goroutine that has not returned if and only if it is a channel's, of a channel
      registered or removed, or `Run` was called. */
  lemma {:induction false} AttendedExactlyWhen(es: seq<Event>, i: nat)
    requires !After(Init(), es).cancelled && i < |After(Init(), es).schedules|
    ensures Attended(After(Init(), es), i) <==> i > 0 || Started(es)
  {
    if !Started(es) {
      NotAttendedBefore(es);
    }
    if es != [] && (i > 0 || Started(es)) {
      var s, e := After(Init(), Front(es)), Last(es);
      AttendedNow(s, e);
      if i < |s.schedules| && (i > 0 || Started(Front(es))) {
        AttendedExactlyWhen(Front(es), i);
        AttendedKept(s, e, i);
      }
    }
  }

  // --- The queues move --------------------------------------------------------------------------

  ghost function EndTime(es: seq<Event>, now: int): int {
    if es == [] || !(Last(es).Begin? || Last(es).Wake?) then now else Last(es).now
  }

  /** The turns of one goroutine, at increasing times after `now`. */
  ghost predicate TurnsOf(es: seq<Event>, l: nat, now: int) {
    es != [] ==>
      && (Last(es).Begin? || Last(es).Wake?) && Last(es).loop == l
      && Last(es).now > EndTime(Front(es), now) && TurnsOf(Front(es), l, now)
  }

  /** After the events, goroutine `l` sleeps on, the first `n` messages of its queue were sent and nothing else, and the
      other queues are as they were. */
  ghost predicate Drained(s: State, es: seq<Event>, l: nat, i: nat, n: nat)
    requires WellFormed(s)
  {
    var t := After(s, es);
    && !t.cancelled && l < |t.loops| && t.loops[l].Sleeping? && t.loops[l].schedule == i
    && n <= |QueueOf(s, i)| && Dispatched(s, es) == QueueOf(s, i)[..n] && QueueOf(t, i) == QueueOf(s, i)[n..]
    && forall j :: j != i ==> QueueOf(t, j) == QueueOf(s, j)
  }

  lemma AfterLast(s: State, es: seq<Event>, e: Event)
    requires WellFormed(s)
    ensures After(s, es + [e]) == Next(After(s, es), e)
    ensures Dispatched(s, es + [e]) == Dispatched(s, es) + ToSeq(Output(After(s, es), e))
  {
    FrontLastOfAppend(es, e);
  }

  lemma TurnSends(t: State, l: nat, i: nat, at: int)
    requires WellFormed(t) && !t.cancelled && l < |t.loops| && t.loops[l].Sleeping? && t.loops[l].schedule == i
    requires t.loops[l].next <= at && QueueOf(t, i) != []
    ensures
      var u := Next(t, Wake(l, at));
      && Output(t, Wake(l, at)) == Some(QueueOf(t, i)[0])
      && !u.cancelled && l < |u.loops| && u.loops[l].Sleeping? && u.loops[l].schedule == i
      && QueueOf(u, i) == QueueOf(t, i)[1..]
      && forall j :: j != i ==> QueueOf(u, j) == QueueOf(t, j)
  {
  }

  lemma OneMore<T>(queue: seq<T>, n: nat)
    requires n < |queue|
    ensures queue[n..][0] == queue[n] && queue[n..][1..] == queue[n + 1..] && queue[..n] + [queue[n]] == queue[..n + 1]
  {
  }

  lemma {:induction false} DrainsFirst(s: State, l: nat, i: nat, n: nat, now: int) returns (es: seq<Event>)
    requires WellFormed(s) && !s.cancelled && l < |s.loops| && s.loops[l].schedule == i && !s.loops[l].Ended?
    requires n <= |QueueOf(s, i)|
    ensures TurnsOf(es, l, now) && Drained(s, es, l, i, n)
  {
    if n == 0 {
      es := [];
      if s.loops[l].Spawned? {
        es := [Begin(l, now + 1)];
        assert Front(es) == [];
      }
      assert QueueOf(s, i)[..0] == [] && QueueOf(s, i)[0..] == QueueOf(s, i);
    } else {
      var first := DrainsFirst(s, l, i, n - 1, now);
      var t := After(s, first);
      var at := if t.loops[l].next > EndTime(first, now) then t.loops[l].next else EndTime(first, now) + 1;
      es := first + [Wake(l, at)];
      OneMore(QueueOf(s, i), n - 1);
      TurnSends(t, l, i, at);
      AfterLast(s, first, Wake(l, at));
      FrontLastOfAppend(first, Wake(l, at));
    }
  }

  /** Some turns of one goroutine send everything that waits on schedule `i`, in order and nothing else. */
  ghost predicate CanDrain(s: State, i: nat, now: int)
    requires WellFormed(s)
  {
    exists es, l :: TurnsOf(es, l, now) && Drained(s, es, l, i, |QueueOf(s, i)|)
  }

  lemma AttendedDrains(s: State, i: nat, now: int)
    requires WellFormed(s) && !s.cancelled && Attended(s, i)
    ensures CanDrain(s, i, now)
  {
    var l :| 0 <= l < |s.loops| && s.loops[l].schedule == i && !s.loops[l].Ended?;
    var es := DrainsFirst(s, l, i, |QueueOf(s, i)|, now);
    assert Drained(s, es, l, i, |QueueOf(s, i)|);
  }

  lemma {:induction false} DispatchedByNobody(es: seq<Event>)
    requires !Started(es)
    ensures DispatchedBy(Init(), es, 0) == []
  {
    if es != [] {
      DispatchedByNobody(Front(es));
      NotAttendedBefore(Front(es));
    }
  }

  /** Progress, over every run from the start of the program in which `Run` was called and that was not shut down: at any
      time later turns of one goroutine send everything that waits on a schedule, be it the catch-all, a channel's or a
      removed channel's. Without `Run` the catch-all has never sent anything. */
  lemma EveryQueueDrains(es: seq<Event>, i: nat, now: int)
    requires i < |After(Init(), es).schedules|
    ensures Started(es) && !After(Init(), es).cancelled ==> CanDrain(After(Init(), es), i, now)
    ensures !Started(es) ==> DispatchedBy(Init(), es, 0) == []
  {
    if !Started(es) {
      DispatchedByNobody(es);
    } else if !After(Init(), es).cancelled {
      AttendedExactlyWhen(es, i);
      AttendedDrains(After(Init(), es), i, now);
    }
  }

  /** A message waits at the end of its channel's queue, or of the catch-all's if the channel is not registered. */
  lemma MessageWaits(s: State, message: Message)
    requires WellFormed(s)
    ensures
      var i := if message.channel in s.directory then s.directory[message.channel] else 0;
      && i < |s.schedules|
      && forall j :: QueueOf(Next(s, AddMessage(message)), j) == QueueOf(s, j) + if j == i then [message] else []
  {
    var t := Next(s, AddMessage(message));
    forall j: nat
      ensures QueueOf(t, j)
           == QueueOf(s, j) + if j == (if message.channel in s.directory then s.directory[message.channel] else 0) then [message] else []
    {
      assert QueueOf(s, j) + [] == QueueOf(s, j);
    }
  }

  // --- Shutdown --------------------------------------------------------------------------------

  lemma {:induction false} SilentWhenCancelled(s: State, es: seq<Event>)
    requires WellFormed(s) && s.cancelled
    ensures After(s, es).cancelled && Dispatched(s, es) == []
  {
    if es != [] {
      SilentWhenCancelled(s, Front(es));
    }
  }

  /** After a shutdown nothing is sent any more, whatever happens, and each goroutine returns when it next wakes. */
  lemma ShutdownSilences(s: State, es: seq<Event>, l: nat, now: int)
    requires WellFormed(s)
    ensures Dispatched(Next(s, Shutdown), es) == []
    ensures
      var t := After(Next(s, Shutdown), es);
      Due(t, l, now) ==> Next(t, Wake(l, now)).loops[l] == Ended(t.loops[l].schedule)
  {
    SilentWhenCancelled(Next(s, Shutdown), es);
  }
}
