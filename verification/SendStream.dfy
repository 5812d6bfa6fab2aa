/** From the client's request to the chat: the scheduler's queues followed by the repeat evasion. */
module SendStream {
  import opened Common
  import opened Permissions
  import opened Texts
  import opened SchedulerModel
  import opened RepeatEvasion

  /** What the chat sees: the dispatched messages, each rewritten as it is handed to `OnMessage`. */
  ghost function Sent(s: State, es: seq<Event>, last: map<string, string>): seq<Message>
    requires WellFormed(s)
  {
    RewriteAll(last, Dispatched(s, es))
  }

  ghost predicate StaysRegistered(es: seq<Event>, channel: string) {
    forall k :: 0 <= k < |es| ==> es[k] != RemoveChannel(channel)
  }

  /** Schedule `i` is the one registered for the channel, and the only one with its messages. */
  ghost predicate Home(s: State, channel: string, i: nat) {
    && channel in s.directory && s.directory[channel] == i
    && forall j, k :: 0 <= j < |s.schedules| && 0 <= k < |s.schedules[j].queue| ==>
         (s.schedules[j].queue[k].channel == channel <==> j == i)
  }

  /** What a step leaves in the queue of one schedule is still where it belongs. */
  lemma HomeQueue(s: State, e: Event, channel: string, i: nat, j: nat, m: Message)
    requires WellFormed(s) && Home(s, channel, i) && j < |Next(s, e).schedules| && m in QueueOf(Next(s, e), j)
    ensures m.channel == channel <==> j == i
  {
    if j < |s.schedules| {
      StepConserves(s, e, j);
      if e.AddMessage? && e.message.channel in s.directory && e.message.channel != channel {
        SchedulesAreApart(s, e.message.channel, channel);
      }
      assert m in QueueOf(s, j) + AcceptedNow(s, e, j);
    }
  }

  lemma HomeStep(s: State, e: Event, channel: string, i: nat)
    requires WellFormed(s) && Home(s, channel, i) && e != RemoveChannel(channel)
    ensures Home(Next(s, e), channel, i)
  {
    var t := Next(s, e);
    forall j, k | 0 <= j < |t.schedules| && 0 <= k < |t.schedules[j].queue|
      ensures t.schedules[j].queue[k].channel == channel <==> j == i
    {
      HomeQueue(s, e, channel, i, j, t.schedules[j].queue[k]);
    }
  }

  lemma {:induction false} HomeRun(s: State, es: seq<Event>, channel: string, i: nat)
    requires WellFormed(s) && Home(s, channel, i) && StaysRegistered(es, channel)
    ensures Home(After(s, es), channel, i)
  {
    if es != [] {
      HomeRun(s, Front(es), channel, i);
      HomeStep(After(s, Front(es)), Last(es), channel, i);
    }
  }

  lemma HomeOutputs(s: State, e: Event, channel: string, i: nat)
    requires WellFormed(s) && Home(s, channel, i)
    ensures e.AddMessage? ==> (Route(s, e.message.channel) == i <==> e.message.channel == channel)
    ensures DispatchedNow(s, e, i) == OnChannel(ToSeq(Output(s, e)), channel)
  {
    if e.AddMessage? && e.message.channel in s.directory && e.message.channel != channel {
      SchedulesAreApart(s, e.message.channel, channel);
    }
  }

  lemma OnChannelOne(m: Message, channel: string)
    ensures OnChannel([m], channel) == if m.channel == channel then [m] else []
  {
  }

  lemma OnChannelConcat(a: seq<Message>, o: Option<Message>, channel: string)
    ensures OnChannel(a + ToSeq(o), channel) == OnChannel(a, channel) + OnChannel(ToSeq(o), channel)
  {
    if o.Some? {
      OnChannelAppend(a, o.value, channel);
      OnChannelOne(o.value, channel);
      assert OnChannel(a, channel) + [] == OnChannel(a, channel);
    } else {
      assert a + [] == a;
    }
  }

  /** The messages of a registered channel all pass through its own schedule. */
  lemma {:induction false} OneSchedule(s: State, es: seq<Event>, channel: string, i: nat)
    requires WellFormed(s) && Home(s, channel, i) && StaysRegistered(es, channel)
    ensures AcceptedBy(s, es, i) == OnChannel(Requested(es), channel)
    ensures DispatchedBy(s, es, i) == OnChannel(Dispatched(s, es), channel)
  {
    if es != [] {
      var front, e := Front(es), Last(es);
      var t := After(s, front);
      OneSchedule(s, front, channel, i);
      HomeRun(s, front, channel, i);
      HomeOutputs(t, e, channel, i);
      OnChannelConcat(Dispatched(s, front), Output(t, e), channel);
      var asked := if e.AddMessage? then Some(e.message) else None;
      OnChannelConcat(Requested(front), asked, channel);
      if e.AddMessage? {
        OnChannelOne(e.message, channel);
      }
    }
  }

  /** `sent` answers the first |sent| of the messages asked for, one for one, in order, and the rest still waits. */
  ghost predicate Delivers(previous: string, asked: seq<Message>, sent: seq<Message>, waiting: seq<Message>) {
    && NoRepeat(previous, TextsOf(sent))
    && |asked| == |sent| + |waiting|
    && asked[|sent|..] == waiting
    && forall k :: 0 <= k < |sent| ==> SameMessage(sent[k], asked[k])
  }

  /** For a channel registered throughout a run, whatever happens to the other channels, however often the
      timers change and however late the goroutines wake: what it sends is what it was asked to send, one for
      one and in order, up to evasion characters and a trailing space; no text is sent twice in a row; and what
      is not sent yet still waits in its queue. */
  lemma EndToEnd(s: State, es: seq<Event>, last: map<string, string>, channel: string, i: nat)
    requires WellFormed(s) && Home(s, channel, i) && StaysRegistered(es, channel)
    ensures Delivers(LastText(last, channel),
                     QueueOf(s, i) + OnChannel(Requested(es), channel),
                     OnChannel(Sent(s, es, last), channel),
                     QueueOf(After(s, es), i))
  {
    var dispatched := Dispatched(s, es);
    OneSchedule(s, es, channel, i);
    ConservationAndFifo(s, es, i);
    NeverTwiceInARow(last, dispatched, channel);
    ChannelsIndependent(last, dispatched, channel);
    RewritingIsFaithful(last, OnChannel(dispatched, channel));
  }

  ghost predicate NoneQueued(s: State, channel: string) {
    forall j, k :: 0 <= j < |s.schedules| && 0 <= k < |s.schedules[j].queue| ==> s.schedules[j].queue[k].channel != channel
  }

  /** A channel that joins gets such a home if and only if no message for it is queued anywhere: neither on the
      catch-all nor on a schedule it had before it left. */
  lemma HomeOnJoin(s: State, channel: string, permission: int)
    requires WellFormed(s) && channel !in s.directory
    ensures Home(Next(s, AddChannel(channel, permission)), channel, |s.schedules|) <==> NoneQueued(s, channel)
  {
    var t := Next(s, AddChannel(channel, permission));
    assert forall j :: 0 <= j < |s.schedules| ==> t.schedules[j] == s.schedules[j];
  }

  /** In particular from the start of the program, for a channel joined first. */
  lemma EndToEndFromStart(es: seq<Event>, channel: string, permission: int)
    requires StaysRegistered(es, channel)
    ensures
      var joined := Next(Init(), AddChannel(channel, permission));
      Delivers("", OnChannel(Requested(es), channel), OnChannel(Sent(joined, es, map[]), channel),
               QueueOf(After(joined, es), 1))
  {
    var joined := Next(Init(), AddChannel(channel, permission));
    HomeOnJoin(Init(), channel, permission);
    EndToEnd(joined, es, map[], channel, 1);
    assert QueueOf(joined, 1) + OnChannel(Requested(es), channel) == OnChannel(Requested(es), channel);
  }

  /** A registered channel parts and joins again. */
  lemma PartAndJoin(s: State, channel: string, permission: int)
    requires WellFormed(s)
    ensures Next(Next(s, RemoveChannel(channel)), AddChannel(channel, permission))
         == State(s.schedules + [Schedule(permission, [])], s.directory[channel := |s.schedules|],
                  s.loops + [Spawned(|s.schedules|)], s.cancelled)
  {
    assert Next(s, RemoveChannel(channel)) == s.(directory := s.directory - {channel});
    assert (s.directory - {channel})[channel := |s.schedules|] == s.directory[channel := |s.schedules|];
  }

  /** The schedule made last is asked for `b` and its goroutine begins. */
  lemma AskAndBegin(s: State, schedules: seq<Schedule>, loops: seq<Loop>, channel: string, permission: int, b: Message, now: int)
    requires WellFormed(s) && b.channel == channel && channel in s.directory && s.directory[channel] == |schedules|
    requires s.schedules == schedules + [Schedule(permission, [])] && s.loops == loops + [Spawned(|schedules|)]
    ensures
      var t := Next(Next(s, AddMessage(b)), Begin(|loops|, now));
      && t.schedules == schedules + [Schedule(permission, [b])]
      && t.loops == loops + [Sleeping(|schedules|, now + MessageCooldown(permission))] && t.cancelled == s.cancelled
  {
    var t, queue := Next(s, AddMessage(b)), s.schedules[|schedules|].queue;
    assert queue == [] && queue + [b] == [b];
    assert t.schedules == schedules + [Schedule(permission, [b])] && t.loops == s.loops;
  }

  lemma LastSends(t: State, schedules: seq<Schedule>, loops: seq<Loop>, permission: int, b: Message, due: int)
    requires WellFormed(t) && !t.cancelled
    requires t.schedules == schedules + [Schedule(permission, [b])] && t.loops == loops + [Sleeping(|schedules|, due)]
    ensures Output(t, Wake(|loops|, due)) == Some(b)
    ensures forall i :: 0 <= i < |schedules| ==> Next(t, Wake(|loops|, due)).schedules[i] == schedules[i]
  {
  }

  /** Otherwise the order of a channel's messages may be lost. In any state, if a channel parts, joins again and is asked
      for `b`, its new goroutine sends `b` while everything it was asked for before still waits. */
  lemma OvertakenOnRejoin(s: State, channel: string, permission: int, b: Message, now: int)
    requires WellFormed(s) && !s.cancelled && b.channel == channel
    ensures
      var back := Next(Next(s, RemoveChannel(channel)), AddChannel(channel, permission));
      var t := Next(Next(back, AddMessage(b)), Begin(|s.loops|, now));
      var turn := Wake(|s.loops|, now + MessageCooldown(permission));
      && Output(t, turn) == Some(b)
      && forall i :: 0 <= i < |s.schedules| ==> Next(t, turn).schedules[i] == s.schedules[i]
  {
    var back := Next(Next(s, RemoveChannel(channel)), AddChannel(channel, permission));
    PartAndJoin(s, channel, permission);
    AskAndBegin(back, s.schedules, s.loops, channel, permission, b, now);
    LastSends(Next(Next(back, AddMessage(b)), Begin(|s.loops|, now)), s.schedules, s.loops, permission, b,
              now + MessageCooldown(permission));
  }
}
