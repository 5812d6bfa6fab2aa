/** The paced message queues as a transition system.

    A schedule is named by its creation number; number 0 is the catch-all. A schedule stays in
    the model after its channel is removed, because the goroutine draining it stays alive.
    An event that cannot happen in a state (a goroutine waking before its deadline, say) leaves
    the state as it is, so every event sequence is a run. */
module SchedulerModel {
  import opened Common
  import opened Permissions

  datatype Message = Message(channel: string, text: string, replyTo: Option<string>)

  datatype Schedule = Schedule(interval: int, queue: seq<Message>)

  /** A goroutine running `channelLoop`: started but not yet scheduled, asleep until `next`, or returned. */
  datatype Loop =
    | Spawned(schedule: nat)
    | Sleeping(schedule: nat, next: int)
    | Ended(schedule: nat)

  datatype State = State(
    schedules: seq<Schedule>,
    directory: map<string, nat>,
    loops: seq<Loop>,
    cancelled: bool)

  datatype Event =
    | AddChannel(channel: string, permission: int)
    | RemoveChannel(channel: string)
    | UpdateTimer(channel: string, permission: int)
    | AddMessage(message: Message)
    | RunAll(order: seq<string>)
    | Begin(loop: nat, now: int)
    | Wake(loop: nat, now: int)
    | Shutdown

  ghost predicate WellFormed(s: State) {
    && |s.schedules| >= 1
    && s.schedules[0].interval == WRITE
    && (forall c :: c in s.directory ==> 1 <= s.directory[c] < |s.schedules|)
    && (forall c, d {:trigger Same(c, d)} ::
           c in s.directory && d in s.directory && s.directory[c] == s.directory[d] ==> Same(c, d))
    && (forall l :: 0 <= l < |s.loops| ==> s.loops[l].schedule < |s.schedules|)
  }

  lemma SchedulesAreApart(s: State, c: string, d: string)
    requires WellFormed(s) && c in s.directory && d in s.directory && c != d
    ensures s.directory[c] != s.directory[d]
  {
    assert !Same(c, d);
  }

  function Init(): (s: State)
    ensures WellFormed(s)
  {
    State([Schedule(WRITE, [])], map[], [], false)
  }

  function Tail<T>(s: seq<T>): seq<T> {
    if s == [] then [] else s[1..]
  }

  /** The schedule a message for `channel` is queued on. */
  function Route(s: State, channel: string): (i: nat)
    requires WellFormed(s)
    ensures i < |s.schedules|
  {
    if channel in s.directory then s.directory[channel] else 0
  }

  ghost predicate Enumerates(order: seq<string>, channels: set<string>) {
    && (forall c :: c in order <==> c in channels)
    && (forall i, j :: 0 <= i < j < |order| ==> order[i] != order[j])
  }

  predicate Due(s: State, l: nat, now: int) {
    l < |s.loops| && s.loops[l].Sleeping? && s.loops[l].next <= now
  }

  /** The goroutine is past its sleep and has not returned: it looks at the queue. */
  predicate Passes(s: State, e: Event) {
    e.Wake? && Due(s, e.loop, e.now) && !s.cancelled
  }

  function Pause(s: State, i: nat): int
    requires i < |s.schedules|
  {
    MessageCooldown(s.schedules[i].interval)
  }

  function Spawn(directory: map<string, nat>, order: seq<string>): (r: seq<Loop>)
    requires forall c :: c in order ==> c in directory
    ensures |r| == |order|
    ensures forall k :: 0 <= k < |order| ==> r[k] == Spawned(directory[order[k]])
  {
    seq(|order|, k requires 0 <= k < |order| => Spawned(directory[order[k]]))
  }

  predicate Opens(s: State, e: Event) {
    e.AddChannel? && e.channel !in s.directory
  }

  function NextSchedules(s: State, e: Event): (r: seq<Schedule>)
    requires WellFormed(s)
    ensures |r| == |s.schedules| + if Opens(s, e) then 1 else 0
    ensures r[0].interval == WRITE
  {
    match e
    case AddChannel(channel, permission) =>
      if channel in s.directory then s.schedules else s.schedules + [Schedule(permission, [])]
    case UpdateTimer(channel, permission) =>
      if channel !in s.directory then s.schedules
      else
        var i := s.directory[channel];
        s.schedules[i := s.schedules[i].(interval := permission)]
    case AddMessage(message) =>
      var i := Route(s, message.channel);
      s.schedules[i := s.schedules[i].(queue := s.schedules[i].queue + [message])]
    case Wake(l, now) =>
      if !Passes(s, e) then s.schedules
      else
        var i := s.loops[l].schedule;
        s.schedules[i := s.schedules[i].(queue := Tail(s.schedules[i].queue))]
    case _ => s.schedules
  }

  function NextDirectory(s: State, e: Event): map<string, nat> {
    match e
    case AddChannel(channel, permission) =>
      if channel in s.directory then s.directory else s.directory[channel := |s.schedules|]
    case RemoveChannel(channel) => s.directory - {channel}
    case _ => s.directory
  }

  ghost function NextLoops(s: State, e: Event): (r: seq<Loop>)
    requires WellFormed(s)
    ensures |s.loops| <= |r|
    ensures forall l :: 0 <= l < |s.loops| ==> r[l].schedule == s.loops[l].schedule
  {
    match e
    case AddChannel(channel, permission) =>
      if channel in s.directory then s.loops else s.loops + [Spawned(|s.schedules|)]
    case RunAll(order) =>
      if Enumerates(order, s.directory.Keys) then s.loops + Spawn(s.directory, order) + [Spawned(0)]
      else s.loops
    case Begin(l, now) =>
      if l < |s.loops| && s.loops[l].Spawned? then
        var i := s.loops[l].schedule;
        s.loops[l := Sleeping(i, now + Pause(s, i))]
      else s.loops
    case Wake(l, now) =>
      if !Due(s, l, now) then s.loops
      else if s.cancelled then s.loops[l := Ended(s.loops[l].schedule)]
      else
        var i := s.loops[l].schedule;
        s.loops[l := Sleeping(i, s.loops[l].next + Pause(s, i))]
    case _ => s.loops
  }

  ghost function Next(s: State, e: Event): (r: State)
    requires WellFormed(s)
    ensures WellFormed(r)
  {
    State(NextSchedules(s, e), NextDirectory(s, e), NextLoops(s, e), s.cancelled || e.Shutdown?)
  }

  /** The message an event hands to `OnMessage`. */
  function Output(s: State, e: Event): (m: Option<Message>)
    requires WellFormed(s)
  {
    if Passes(s, e) then
      var queue := s.schedules[s.loops[e.loop].schedule].queue;
      if queue == [] then None else Some(queue[0])
    else None
  }

  ghost function After(s: State, es: seq<Event>): (r: State)
    requires WellFormed(s)
    ensures WellFormed(r)
  {
    if es == [] then s else Next(After(s, Front(es)), Last(es))
  }

  // --- What a run accepted and dispatched -------------------------------------------------

  function QueueOf(s: State, i: nat): seq<Message> {
    if i < |s.schedules| then s.schedules[i].queue else []
  }

  function ToSeq<T>(o: Option<T>): seq<T> {
    if o.Some? then [o.value] else []
  }

  function AcceptedNow(s: State, e: Event, i: nat): seq<Message>
    requires WellFormed(s)
  {
    if e.AddMessage? && Route(s, e.message.channel) == i then [e.message] else []
  }

  function DispatchedNow(s: State, e: Event, i: nat): seq<Message>
    requires WellFormed(s)
  {
    if Passes(s, e) && s.loops[e.loop].schedule == i then ToSeq(Output(s, e)) else []
  }

  /** Messages handed to AddMessage while schedule `i` was the one to take them, in order. */
  ghost function AcceptedBy(s: State, es: seq<Event>, i: nat): seq<Message>
    requires WellFormed(s)
  {
    if es == [] then [] else AcceptedBy(s, Front(es), i) + AcceptedNow(After(s, Front(es)), Last(es), i)
  }

  /** Messages that goroutines of schedule `i` handed to OnMessage, in order. */
  ghost function DispatchedBy(s: State, es: seq<Event>, i: nat): seq<Message>
    requires WellFormed(s)
  {
    if es == [] then [] else DispatchedBy(s, Front(es), i) + DispatchedNow(After(s, Front(es)), Last(es), i)
  }

  /** Everything handed to OnMessage, in order. */
  ghost function Dispatched(s: State, es: seq<Event>): seq<Message>
    requires WellFormed(s)
  {
    if es == [] then [] else Dispatched(s, Front(es)) + ToSeq(Output(After(s, Front(es)), Last(es)))
  }

  /** Every message a client asked to send, in order. */
  function Requested(es: seq<Event>): seq<Message> {
    if es == [] then []
    else Requested(Front(es)) + if Last(es).AddMessage? then [Last(es).message] else []
  }

  // --- Conservation -----------------------------------------------------------------------

  lemma StepConserves(s: State, e: Event, i: nat)
    requires WellFormed(s)
    ensures QueueOf(s, i) + AcceptedNow(s, e, i) == DispatchedNow(s, e, i) + QueueOf(Next(s, e), i)
  {
    if Passes(s, e) && s.loops[e.loop].schedule == i {
      var queue := s.schedules[i].queue;
      assert queue != [] ==> queue == [queue[0]] + queue[1..];
    }
  }

  lemma Compose<T>(q: seq<T>, a: seq<T>, d: seq<T>, t: seq<T>, a': seq<T>, d': seq<T>, r: seq<T>)
    requires q + a == d + t
    requires t + a' == d' + r
    ensures q + (a + a') == (d + d') + r
  {
    assert q + (a + a') == (q + a) + a';
    assert (d + t) + a' == d + (t + a');
    assert d + (d' + r) == (d + d') + r;
  }

  /** For every schedule ever created, removed or not: what it held at the start followed by what it
      accepted is what it dispatched followed by what it still holds. */
  lemma {:induction false} ConservationAndFifo(s: State, es: seq<Event>, i: nat)
    requires WellFormed(s)
    ensures QueueOf(s, i) + AcceptedBy(s, es, i) == DispatchedBy(s, es, i) + QueueOf(After(s, es), i)
  {
    if es != [] {
      ConservationAndFifo(s, Front(es), i);
      var t, e := After(s, Front(es)), Last(es);
      StepConserves(t, e, i);
      Compose(QueueOf(s, i), AcceptedBy(s, Front(es), i), DispatchedBy(s, Front(es), i), QueueOf(t, i),
              AcceptedNow(t, e, i), DispatchedNow(t, e, i), QueueOf(Next(t, e), i));
    }
  }

  /** How many copies of `m` wait in the queues of all schedules together. */
  function Waiting(schedules: seq<Schedule>, m: Message): nat {
    if schedules == [] then 0 else Waiting(Front(schedules), m) + multiset(Last(schedules).queue)[m]
  }

  lemma {:induction false} WaitingUpdate(schedules: seq<Schedule>, i: nat, schedule: Schedule, m: Message)
    requires i < |schedules|
    ensures Waiting(schedules[i := schedule], m) + multiset(schedules[i].queue)[m]
         == Waiting(schedules, m) + multiset(schedule.queue)[m]
  {
    if i < |schedules| - 1 {
      WaitingUpdate(Front(schedules), i, schedule, m);
      assert Front(schedules[i := schedule]) == Front(schedules)[i := schedule];
    } else {
      assert Front(schedules[i := schedule]) == Front(schedules);
    }
  }

  lemma CountAppend<T>(a: seq<T>, b: seq<T>, m: T)
    ensures multiset(a + b)[m] == multiset(a)[m] + multiset(b)[m]
  {
  }

  lemma CountPop<T>(queue: seq<T>, m: T)
    ensures multiset(queue)[m] == multiset(if queue == [] then [] else [queue[0]])[m] + multiset(Tail(queue))[m]
  {
    if queue != [] {
      assert queue == [queue[0]] + queue[1..];
    }
  }

  lemma WaitingPush(schedules: seq<Schedule>, i: nat, message: Message, m: Message)
    requires i < |schedules|
    ensures Waiting(schedules[i := schedules[i].(queue := schedules[i].queue + [message])], m)
         == Waiting(schedules, m) + if message == m then 1 else 0
  {
    WaitingUpdate(schedules, i, schedules[i].(queue := schedules[i].queue + [message]), m);
    CountAppend(schedules[i].queue, [message], m);
  }

  lemma WaitingPop(schedules: seq<Schedule>, i: nat, m: Message)
    requires i < |schedules|
    ensures
      var queue := schedules[i].queue;
      Waiting(schedules, m) == Waiting(schedules[i := schedules[i].(queue := Tail(queue))], m)
                                 + multiset(if queue == [] then [] else [queue[0]])[m]
  {
    WaitingUpdate(schedules, i, schedules[i].(queue := Tail(schedules[i].queue)), m);
    CountPop(schedules[i].queue, m);
  }

  ghost predicate Balanced(s: State, e: Event, m: Message)
    requires WellFormed(s)
  {
    Waiting(s.schedules, m) + (if e.AddMessage? && e.message == m then 1 else 0)
    == multiset(ToSeq(Output(s, e)))[m] + Waiting(NextSchedules(s, e), m)
  }

  lemma WaitingOnAdd(s: State, e: Event, m: Message)
    requires WellFormed(s) && e.AddChannel?
    ensures Balanced(s, e, m)
  {
    FrontLastOfAppend(s.schedules, Schedule(e.permission, []));
  }

  lemma WaitingOnUpdate(s: State, e: Event, m: Message)
    requires WellFormed(s) && e.UpdateTimer?
    ensures Balanced(s, e, m)
  {
    if e.channel in s.directory {
      var i := s.directory[e.channel];
      WaitingUpdate(s.schedules, i, s.schedules[i].(interval := e.permission), m);
    }
  }

  lemma WaitingOnMessage(s: State, e: Event, m: Message)
    requires WellFormed(s) && e.AddMessage?
    ensures Balanced(s, e, m)
  {
    WaitingPush(s.schedules, Route(s, e.message.channel), e.message, m);
  }

  lemma WaitingOnWake(s: State, e: Event, m: Message)
    requires WellFormed(s) && e.Wake?
    ensures Balanced(s, e, m)
  {
    if Passes(s, e) {
      WaitingPop(s.schedules, s.loops[e.loop].schedule, m);
    }
  }

  /** Each message waiting or asked for in a step is dispatched by it or waits behind it. */
  lemma WaitingStep(s: State, e: Event, m: Message)
    requires WellFormed(s)
    ensures Balanced(s, e, m)
  {
    match e
    case AddChannel(_, _) => WaitingOnAdd(s, e, m);
    case UpdateTimer(_, _) => WaitingOnUpdate(s, e, m);
    case AddMessage(_) => WaitingOnMessage(s, e, m);
    case Wake(_, _) => WaitingOnWake(s, e, m);
    case _ =>
  }

  /** Over all schedules together nothing is lost, duplicated or invented: each message has as many
      copies dispatched or still waiting as were waiting at the start or requested since. */
  lemma {:induction false} NothingLostOrDuplicated(s: State, es: seq<Event>, m: Message)
    requires WellFormed(s)
    ensures Waiting(s.schedules, m) + multiset(Requested(es))[m]
         == multiset(Dispatched(s, es))[m] + Waiting(After(s, es).schedules, m)
  {
    if es != [] {
      NothingLostOrDuplicated(s, Front(es), m);
      var t, e := After(s, Front(es)), Last(es);
      WaitingStep(t, e, m);
      CountAppend(Requested(Front(es)), if e.AddMessage? then [e.message] else [], m);
      CountAppend(Dispatched(s, Front(es)), ToSeq(Output(t, e)), m);
    }
  }
}
