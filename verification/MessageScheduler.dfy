/** The scheduler as the Firehose runs it: schedules and goroutines are objects changed in place, and
    several goroutines may share one schedule. Each method is one atomic step of the model. */
module MessageScheduling {
  import opened Common
  import opened Permissions
  import opened SchedulerModel
  import opened Goroutines

  class ChannelSchedule {
    ghost const number: nat
    var interval: int
    var messageQueue: seq<Message>

    constructor (ghost number: nat, interval: int)
      ensures this.number == number && View() == Schedule(interval, [])
    {
      this.number := number;
      this.interval := interval;
      messageQueue := [];
    }

    function View(): Schedule
      reads this
    {
      Schedule(interval, messageQueue)
    }
  }

  datatype LoopState = NotStarted | Asleep(next: int) | Returned

  /** A goroutine executing `channelLoop` on one schedule. */
  class ChannelLoop {
    ghost const number: nat
    const schedule: ChannelSchedule
    var state: LoopState

    constructor (ghost number: nat, schedule: ChannelSchedule)
      ensures this.number == number && this.schedule == schedule && state == NotStarted
    {
      this.number := number;
      this.schedule := schedule;
      state := NotStarted;
    }

    ghost function View(): Loop
      reads this
    {
      match state
      case NotStarted => Spawned(schedule.number)
      case Asleep(next) => Sleeping(schedule.number, next)
      case Returned => Ended(schedule.number)
    }
  }

  lemma EnumeratesAppend(order: seq<string>, keys: set<string>, rest: set<string>, channel: string)
    requires channel in rest && rest <= keys && Enumerates(order, keys - rest)
    ensures Enumerates(order + [channel], keys - (rest - {channel}))
  {
  }

  lemma SpawnsNext(start: State, before: State, order: seq<string>, channel: string, after: State)
    requires channel in start.directory && forall c :: c in order ==> c in start.directory
    requires before == start.(loops := start.loops + Spawn(start.directory, order))
    requires after == before.(loops := before.loops + [Spawned(start.directory[channel])])
    ensures after == start.(loops := start.loops + Spawn(start.directory, order + [channel]))
  {
  }

  /** The first half of AddChannel: the schedule exists, its goroutine does not. */
  function Registered(s: State, channel: string, interval: int): State {
    s.(schedules := s.schedules + [Schedule(interval, [])], directory := s.directory[channel := |s.schedules|])
  }

  lemma RegisterWellFormed(s: State, channel: string, interval: int)
    requires WellFormed(s) && channel !in s.directory
    ensures WellFormed(Registered(s, channel, interval))
  {
  }

  /** The directory leads to the schedules its model counterpart numbers. */
  ghost predicate DirectoryMatches(schedules: map<string, ChannelSchedule>, directory: map<string, nat>, created: seq<ChannelSchedule>) {
    && schedules.Keys == directory.Keys
    && forall c :: c in schedules ==> directory[c] < |created| && schedules[c] == created[directory[c]]
  }

  /** Each goroutine drains the schedule its model counterpart numbers. */
  ghost predicate LoopsMatch(goroutines: seq<ChannelLoop>, loops: seq<Loop>, created: seq<ChannelSchedule>) {
    && |goroutines| == |loops|
    && forall l :: 0 <= l < |goroutines| ==>
         && goroutines[l].number == l
         && loops[l].schedule < |created| && goroutines[l].schedule == created[loops[l].schedule]
  }

  lemma MatchesGrow(schedules: map<string, ChannelSchedule>, directory: map<string, nat>, goroutines: seq<ChannelLoop>,
                    loops: seq<Loop>, created: seq<ChannelSchedule>, channel: string, schedule: ChannelSchedule)
    requires DirectoryMatches(schedules, directory, created) && LoopsMatch(goroutines, loops, created)
    ensures DirectoryMatches(schedules[channel := schedule], directory[channel := |created|], created + [schedule])
    ensures LoopsMatch(goroutines, loops, created + [schedule])
  {
  }

  /** How many of the goroutines run on the schedule with a number. */
  ghost function Draining(goroutines: seq<ChannelLoop>, number: nat): nat {
    if goroutines == [] then 0
    else Draining(Front(goroutines), number) + if Last(goroutines).schedule.number == number then 1 else 0
  }

  lemma {:induction false} DrainingCounts(goroutines: seq<ChannelLoop>, loops: seq<Loop>, number: nat)
    requires |goroutines| == |loops|
    requires forall l :: 0 <= l < |goroutines| ==> goroutines[l].schedule.number == loops[l].schedule
    ensures Draining(goroutines, number) == Drainers(loops, number)
  {
    if goroutines != [] {
      DrainingCounts(Front(goroutines), Front(loops), number);
    }
  }

  /** A goroutine that is not due sleeps on. */
  lemma IdleWake(s: State, l: nat, now: int)
    requires WellFormed(s) && !Due(s, l, now)
    ensures Next(s, Wake(l, now)) == s
  {
  }

  class MessageScheduler {
    const catchAllScheduler: ChannelSchedule
    var channelSchedules: map<string, ChannelSchedule>
    var goroutines: seq<ChannelLoop>
    var cancelled: bool

    /** Every schedule in order of creation, removed ones included, and the abstract state. */
    ghost var created: seq<ChannelSchedule>
    ghost var model: State
    ghost var Repr: set<object>

    ghost predicate Valid()
      reads this, Repr
    {
      && this in Repr
      && WellFormed(model)
      && |created| == |model.schedules| && created[0] == catchAllScheduler
      && (forall i :: 0 <= i < |created| ==>
            created[i] in Repr && created[i].number == i && created[i].View() == model.schedules[i])
      && DirectoryMatches(channelSchedules, model.directory, created)
      && LoopsMatch(goroutines, model.loops, created)
      && (forall l :: 0 <= l < |goroutines| ==> goroutines[l] in Repr && goroutines[l].View() == model.loops[l])
      && cancelled == model.cancelled
    }

    constructor ()
      ensures Valid() && model == Init() && fresh(Repr)
    {
      var catchAll := new ChannelSchedule(0, WRITE);
      catchAllScheduler := catchAll;
      channelSchedules := map[];
      goroutines := [];
      cancelled := false;
      created, model := [catchAll], Init();
      Repr := {this, catchAll};
    }

    method UpdateTimer(channel: string, interval: int)
      requires Valid()
      modifies Repr
      ensures Valid() && Repr == old(Repr)
      ensures model == Next(old(model), SchedulerModel.UpdateTimer(channel, interval))
    {
      model := Next(model, SchedulerModel.UpdateTimer(channel, interval));
      if channel in channelSchedules {
        channelSchedules[channel].interval := interval;
      }
    }

    method AddChannel(channel: string, interval: int)
      requires Valid()
      modifies this
      ensures Valid() && old(Repr) <= Repr && fresh(Repr - old(Repr))
      ensures model == Next(old(model), SchedulerModel.AddChannel(channel, interval))
    {
      ghost var before := model;
      if channel !in channelSchedules {
        var schedule := Register(channel, interval);
        StartLoop(schedule);
      }
      assert model == Next(before, SchedulerModel.AddChannel(channel, interval));
    }

    method Register(channel: string, interval: int) returns (schedule: ChannelSchedule)
      requires Valid() && channel !in channelSchedules
      modifies `channelSchedules, `created, `model, `Repr
      ensures Valid() && old(Repr) <= Repr && fresh(Repr - old(Repr))
      ensures model == Registered(old(model), channel, interval)
      ensures schedule in created && schedule.number == |old(model).schedules|
    {
      RegisterWellFormed(model, channel, interval);
      schedule := new ChannelSchedule(|created|, interval);
      MatchesGrow(channelSchedules, model.directory, goroutines, model.loops, created, channel, schedule);
      channelSchedules := channelSchedules[channel := schedule];
      created := created + [schedule];
      Repr := Repr + {schedule};
      model := Registered(model, channel, interval);
    }

    /** Calling `Ctx.Done()` only returns a channel: the goroutine of the removed schedule lives on. */
    method RemoveChannel(channel: string) returns (found: bool)
      requires Valid()
      modifies this
      ensures Valid() && Repr == old(Repr)
      ensures found <==> channel in old(model).directory
      ensures model == Next(old(model), SchedulerModel.RemoveChannel(channel))
    {
      found := channel in channelSchedules;
      channelSchedules := channelSchedules - {channel};
      model := Next(model, SchedulerModel.RemoveChannel(channel));
    }

    method AddMessage(message: Message)
      requires Valid()
      modifies Repr
      ensures Valid() && Repr == old(Repr)
      ensures model == Next(old(model), SchedulerModel.AddMessage(message))
    {
      var schedule := if message.channel in channelSchedules then channelSchedules[message.channel] else catchAllScheduler;
      schedule.messageQueue := schedule.messageQueue + [message];
      model := Next(model, SchedulerModel.AddMessage(message));
    }

    method Cancel()
      requires Valid()
      modifies this
      ensures Valid() && Repr == old(Repr)
      ensures model == Next(old(model), Shutdown) && cancelled
    {
      cancelled := true;
      model := Next(model, Shutdown);
    }

    lemma CountsMatch(number: nat)
      requires Valid()
      ensures Draining(goroutines, number) == Drainers(model.loops, number)
    {
      DrainingCounts(goroutines, model.loops, number);
    }

    lemma RegisteredNumbers(n: nat)
      requires Valid() && n < |created|
      ensures created[n] == catchAllScheduler <==> n == 0
      ensures created[n] in channelSchedules.Values <==> n in model.directory.Values
    {
      if created[n] in channelSchedules.Values {
        var c :| c in channelSchedules && channelSchedules[c] == created[n];
        assert created[model.directory[c]].number == model.directory[c];
      }
      if n in model.directory.Values {
        var c :| c in model.directory && model.directory[c] == n;
        assert channelSchedules[c] == created[n];
      }
    }

    /** Go ranges over a map in an arbitrary order; `order` is the one taken. One goroutine more runs on the catch-all, one
        more on each registered schedule, and as many as before on every other one. */
    method Run() returns (ghost order: seq<string>)
      requires Valid()
      modifies this
      ensures Valid() && old(Repr) <= Repr && fresh(Repr - old(Repr))
      ensures Enumerates(order, old(model).directory.Keys)
      ensures model == Next(old(model), RunAll(order))
      ensures channelSchedules == old(channelSchedules) && created == old(created)
      ensures forall n :: 0 <= n < |created| ==>
                Draining(goroutines, n) == Draining(old(goroutines), n)
                  + if created[n] == catchAllScheduler || created[n] in channelSchedules.Values then 1 else 0
    {
      ghost var before, start := goroutines, model;
      order := StartAll();
      forall n | 0 <= n < |created|
        ensures Draining(goroutines, n) == Draining(before, n)
                  + if created[n] == catchAllScheduler || created[n] in channelSchedules.Values then 1 else 0
      {
        RunStarts(start, order, n);
        RegisteredNumbers(n);
        CountsMatch(n);
        DrainingCounts(before, start.loops, n);
      }
    }

    method StartAll() returns (ghost order: seq<string>)
      requires Valid()
      modifies `goroutines, `model, `Repr
      ensures Valid() && old(Repr) <= Repr && fresh(Repr - old(Repr))
      ensures Enumerates(order, old(model).directory.Keys)
      ensures model == Next(old(model), RunAll(order))
    {
      order := StartRegistered();
      ghost var spawned := model;
      StartLoop(catchAllScheduler);
      assert model == spawned.(loops := spawned.loops + [Spawned(0)]);
    }

    method StartRegistered() returns (ghost order: seq<string>)
      requires Valid()
      modifies `goroutines, `model, `Repr
      ensures Valid() && old(Repr) <= Repr && fresh(Repr - old(Repr))
      ensures Enumerates(order, old(model).directory.Keys)
      ensures model == old(model).(loops := old(model).loops + Spawn(old(model).directory, order))
    {
      ghost var start := model;
      order := [];
      var rest := channelSchedules.Keys;
      while rest != {}
        invariant Valid() && old(Repr) <= Repr && fresh(Repr - old(Repr))
        invariant rest <= start.directory.Keys && Enumerates(order, start.directory.Keys - rest)
        invariant model == start.(loops := start.loops + Spawn(start.directory, order))
        decreases rest
      {
        var channel :| channel in rest;
        EnumeratesAppend(order, start.directory.Keys, rest, channel);
        ghost var before := model;
        StartLoop(channelSchedules[channel]);
        SpawnsNext(start, before, order, channel, model);
        rest := rest - {channel};
        order := order + [channel];
      }
    }

    method StartLoop(schedule: ChannelSchedule)
      requires Valid() && schedule in created
      modifies `goroutines, `model, `Repr
      ensures Valid() && old(Repr) <= Repr && fresh(Repr - old(Repr))
      ensures model == old(model).(loops := old(model).loops + [Spawned(schedule.number)])
    {
      var loop := new ChannelLoop(|goroutines|, schedule);
      goroutines := goroutines + [loop];
      model := model.(loops := model.loops + [Spawned(schedule.number)]);
      Repr := Repr + {loop};
    }

    /** The goroutine takes its first look at the clock. */
    method BeginLoop(l: nat, now: int)
      requires Valid() && l < |goroutines| && goroutines[l].state == NotStarted
      modifies Repr
      ensures Valid() && Repr == old(Repr)
      ensures model == Next(old(model), Begin(l, now))
    {
      var loop := goroutines[l];
      loop.state := Asleep(now + MessageCooldown(loop.schedule.interval));
      model := Next(model, Begin(l, now));
    }

    /** What goroutine `l`, looking at its queue at time `now`, hands to `OnMessage`. */
    method NextMessage(l: nat, now: int) returns (message: Option<Message>)
      requires Valid() && l < |goroutines|
      ensures message == Output(model, Wake(l, now))
    {
      var loop := goroutines[l];
      if loop.state.Asleep? && loop.state.next <= now && !cancelled && |loop.schedule.messageQueue| > 0 {
        return Some(loop.schedule.messageQueue[0]);
      }
      return None;
    }

    /** The passed goroutine pops its queue, and its deadline moves on from the old one. */
    method Pass(l: nat, now: int)
      requires Valid() && l < |goroutines| && goroutines[l].state.Asleep? && goroutines[l].state.next <= now && !cancelled
      modifies Repr
      ensures Valid() && Repr == old(Repr)
      ensures model == Next(old(model), Wake(l, now))
    {
      var loop := goroutines[l];
      var schedule := loop.schedule;
      model := Next(model, Wake(l, now));
      if |schedule.messageQueue| > 0 {
        schedule.messageQueue := schedule.messageQueue[1..];
      }
      loop.state := Asleep(loop.state.next + MessageCooldown(schedule.interval));
    }

    /** The rest of the turn, once `OnMessage` has returned: drop the message and move the deadline on. */
    method WakeLoop(l: nat, now: int)
      requires Valid() && l < |goroutines|
      modifies Repr
      ensures Valid() && Repr == old(Repr)
      ensures model == Next(old(model), Wake(l, now))
    {
      var loop := goroutines[l];
      if !loop.state.Asleep? || now < loop.state.next {
        IdleWake(model, l, now);
        return;
      }
      if cancelled {
        loop.state := Returned;
        model := Next(model, Wake(l, now));
      } else {
        Pass(l, now);
      }
    }
  }
}
