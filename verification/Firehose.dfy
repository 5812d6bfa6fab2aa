/** The Firehose application: client commands, user states and the goroutines of the scheduler, as
    atomic steps on one object. One ghost history of scheduler events and one of all that happens to the channels table
    and the scheduler tie the object to the runs of the models. */
module Firehose {
  import opened Common
  import opened Permissions
  import opened Texts
  import opened SchedulerModel
  import opened Goroutines
  import opened MessageScheduling
  import opened RepeatEvasion
  import opened SendStream
  import opened PermissionUpdates
  import opened Pacing

  datatype ChannelRow = ChannelRow(userId: string, permission: int)

  datatype ModeUpdate = ModeUpdate(channel: string, mode: int)

  datatype Outcome = Ignored | NilDereference | Handled

  ghost predicate DistinctUsers(db: map<string, ChannelRow>) {
    forall c, d {:trigger db[c], db[d]} :: c in db && d in db && db[c].userId == db[d].userId ==> c == d
  }

  /** The scheduler, the last-message table and the chat at one moment. */
  datatype Snapshot = Snapshot(model: State, last: map<string, string>, sent: seq<Message>)

  ghost function Advance(s: Snapshot, e: Event): Snapshot
    requires WellFormed(s.model)
  {
    match Output(s.model, e)
    case None => s.(model := Next(s.model, e))
    case Some(m) =>
      var m' := Rewrite(s.last, m);
      Snapshot(Next(s.model, e), s.last[m.channel := m'.text], s.sent + [m'])
  }

  ghost function Recorded(history: seq<Event>): (s: Snapshot)
    ensures WellFormed(s.model)
  {
    if history == [] then Snapshot(Init(), map[], []) else Advance(Recorded(Front(history)), Last(history))
  }

  lemma RecordedAppend(history: seq<Event>, e: Event)
    ensures Recorded(history + [e]) == Advance(Recorded(history), e)
  {
  }

  /** Every event but a goroutine's turn leaves the chat alone. */
  lemma RecordedQuietly(history: seq<Event>, e: Event, s: Snapshot, model: State)
    requires !e.Wake? && s == Recorded(history) && model == Next(s.model, e)
    ensures Snapshot(model, s.last, s.sent) == Recorded(history + [e])
  {
    RecordedAppend(history, e);
  }

  /** After a goroutine's turn the chat holds the message it handed over, rewritten. */
  lemma RecordedTurn(history: seq<Event>, e: Event, s: Snapshot, last: map<string, string>, sent: seq<Message>)
    requires s == Recorded(history)
    requires
      match Output(s.model, e)
      case None => last == s.last && sent == s.sent
      case Some(m) =>
        last == s.last[m.channel := Rewrite(s.last, m).text] && sent == s.sent + [Rewrite(s.last, m)]
    ensures Snapshot(Next(s.model, e), last, sent) == Recorded(history + [e])
  {
    RecordedAppend(history, e);
  }

  /** What a run makes of a moment: the state after it, and the whole stream it dispatches, rewritten and sent. */
  ghost function Played(s: Snapshot, es: seq<Event>): Snapshot
    requires WellFormed(s.model)
  {
    Snapshot(After(s.model, es), LastAfter(s.last, Dispatched(s.model, es)), s.sent + Sent(s.model, es, s.last))
  }

  lemma PlayedAppend(s: Snapshot, es: seq<Event>, e: Event)
    requires WellFormed(s.model)
    ensures Played(s, es + [e]) == Advance(Played(s, es), e)
  {
    var model, dispatched := After(s.model, es), Dispatched(s.model, es);
    FrontLastOfAppend(es, e);
    match Output(model, e)
    case Some(m) =>
      RewriteAllAppend(s.last, dispatched, m);
      Associative(s.sent, RewriteAll(s.last, dispatched), [Rewrite(LastAfter(s.last, dispatched), m)]);
    case None =>
      assert dispatched + [] == dispatched;
  }

  lemma FrontLastOfConcat<T>(past: seq<T>, later: seq<T>)
    requires later != []
    ensures Front(past + later) == past + Front(later) && Last(past + later) == Last(later)
  {
  }

  lemma RecordedLast(past: seq<Event>, later: seq<Event>)
    requires later != []
    ensures Recorded(past + later) == Advance(Recorded(past + Front(later)), Last(later))
  {
    FrontLastOfConcat(past, later);
  }

  lemma PlayedLast(s: Snapshot, later: seq<Event>)
    requires WellFormed(s.model) && later != []
    ensures Played(s, later) == Advance(Played(s, Front(later)), Last(later))
  {
    PlayedAppend(s, Front(later), Last(later));
    assert later == Front(later) + [Last(later)];
  }

  lemma PlayedNothing(s: Snapshot)
    requires WellFormed(s.model)
    ensures Played(s, []) == s
  {
    assert s.sent + [] == s.sent;
  }

  /** Sending each message as it is dispatched is rewriting the whole dispatched stream, from any moment on. */
  lemma {:induction false} RecordedIsTheRun(past: seq<Event>, later: seq<Event>)
    ensures Recorded(past + later) == Played(Recorded(past), later)
  {
    if later == [] {
      PlayedNothing(Recorded(past));
      assert past + later == past;
    } else {
      RecordedIsTheRun(past, Front(later));
      RecordedLast(past, later);
      PlayedLast(Recorded(past), later);
    }
  }

  function JoinPermission(db: map<string, ChannelRow>, channel: string, lookupFails: bool): int {
    if channel in db && !lookupFails then db[channel].permission else WRITE
  }

  // --- Table and scheduler ---------------------------------------------------------------------

  function Interval(model: State, channel: string): int
    requires WellFormed(model) && channel in model.directory
  {
    model.schedules[model.directory[channel]].interval
  }

  /** The stored permission of every registered channel is the interval of its schedule. */
  ghost predicate Agreement(db: map<string, ChannelRow>, model: State)
    requires WellFormed(model)
  {
    forall c :: c in db && c in model.directory ==> db[c].permission == Interval(model, c)
  }

  /** What `OnUserState` leaves behind is one step of the channel's permission machine; the other channels keep
      their rows and intervals, and agreement is kept. */
  lemma UserStateStep(db: map<string, ChannelRow>, model: State, channel: string, badges: Badges, writes: nat)
    requires WellFormed(model) && channel in db && channel in model.directory
    ensures
      var before := ChannelState(db[channel].permission, Interval(model, channel), writes);
      var after := Handle(before, UserState(badges, true));
      match Decide(badges, Interval(model, channel))
      case None => after == before
      case Some(p) =>
        var model' := Next(model, UpdateTimer(channel, p));
        var db' := db[channel := db[channel].(permission := p)];
        && model'.directory == model.directory
        && after == ChannelState(db'[channel].permission, Interval(model', channel), writes + 1)
        && (forall c :: c in model.directory && c != channel ==> Interval(model', c) == Interval(model, c))
        && (Agreement(db, model) ==> Agreement(db', model'))
  {
    forall c | c in model.directory && c != channel ensures model.directory[c] != model.directory[channel] {
      SchedulesAreApart(model, c, channel);
    }
  }

  /** The channels table and the scheduler. */
  datatype World = World(db: map<string, ChannelRow>, model: State)

  /** What can happen to them. The bot's other process inserts, renames and deletes rows. `Other` stands for the
      scheduler's remaining events: parts, messages, goroutines. */
  datatype Happening =
    | Joins(channel: string, lookupFails: bool)
    | BotState(channel: string, badges: Badges, updateSucceeds: bool)
    | Inserted(channel: string, row: ChannelRow)
    | Renamed(channel: string, newName: string)
    | Deleted(channel: string)
    | Other(event: Event)

  /** Names and user ids are unique in the table: otherwise an insert or a rename fails. */
  predicate Insertable(db: map<string, ChannelRow>, channel: string, row: ChannelRow) {
    channel !in db && forall c :: c in db ==> db[c].userId != row.userId
  }

  function Insert(db: map<string, ChannelRow>, channel: string, row: ChannelRow): map<string, ChannelRow> {
    if Insertable(db, channel, row) then db[channel := row] else db
  }

  function Rename(db: map<string, ChannelRow>, channel: string, newName: string): map<string, ChannelRow> {
    if channel in db && newName !in db then (db - {channel})[newName := db[channel]] else db
  }

  /** The permission a user state of the bot sets; a channel without a row or without a schedule is left alone. */
  function Decision(w: World, channel: string, badges: Badges, updateSucceeds: bool): Option<int>
    requires WellFormed(w.model)
  {
    if channel in w.db && channel in w.model.directory && updateSucceeds
    then Decide(badges, Interval(w.model, channel)) else None
  }

  ghost function Happens(w: World, h: Happening): (r: World)
    requires WellFormed(w.model)
    ensures WellFormed(r.model)
  {
    match h
    case Joins(channel, fails) => w.(model := Next(w.model, AddChannel(channel, JoinPermission(w.db, channel, fails))))
    case BotState(channel, badges, ok) =>
      (match Decision(w, channel, badges, ok)
       case None => w
       case Some(p) =>
         World(w.db[channel := w.db[channel].(permission := p)], Next(w.model, UpdateTimer(channel, p))))
    case Inserted(channel, row) => w.(db := Insert(w.db, channel, row))
    case Renamed(channel, newName) => w.(db := Rename(w.db, channel, newName))
    case Deleted(channel) => w.(db := w.db - {channel})
    case Other(e) => if e.AddChannel? || e.UpdateTimer? then w else w.(model := Next(w.model, e))
  }

  /** The channel is not registered, or has the interval of that permission. */
  predicate Fits(model: State, channel: string, permission: int)
    requires WellFormed(model)
  {
    channel in model.directory ==> Interval(model, channel) == permission
  }

  /** Unless it is the JOIN of a channel not yet registered whose lookup fails although its row says other than Write, or
      a registered channel gets a row with another permission than its schedule has. */
  predicate Harmless(w: World, h: Happening)
    requires WellFormed(w.model)
  {
    match h
    case Joins(channel, fails) =>
      fails && channel in w.db && channel !in w.model.directory ==> w.db[channel].permission == WRITE
    case Inserted(channel, row) => Insertable(w.db, channel, row) ==> Fits(w.model, channel, row.permission)
    case Renamed(channel, newName) =>
      channel in w.db && newName !in w.db ==> Fits(w.model, newName, w.db[channel].permission)
    case _ => true
  }

  lemma InsertKeepsAgreement(w: World, channel: string, row: ChannelRow)
    requires WellFormed(w.model) && Agreement(w.db, w.model)
    ensures Agreement(Insert(w.db, channel, row), w.model) <==> Harmless(w, Inserted(channel, row))
  {
    var db := Insert(w.db, channel, row);
    if Insertable(w.db, channel, row) {
      assert channel in db && forall c :: c in w.db ==> db[c] == w.db[c];
    }
  }

  lemma RenameKeepsAgreement(w: World, channel: string, newName: string)
    requires WellFormed(w.model) && Agreement(w.db, w.model)
    ensures Agreement(Rename(w.db, channel, newName), w.model) <==> Harmless(w, Renamed(channel, newName))
  {
    var db := Rename(w.db, channel, newName);
    if channel in w.db && newName !in w.db {
      assert newName in db && forall c :: c in db && c != newName ==> c in w.db && db[c] == w.db[c];
    }
  }

  lemma JoinKeepsAgreement(w: World, channel: string, fails: bool)
    requires WellFormed(w.model) && Agreement(w.db, w.model)
    ensures
      var r := Happens(w, Joins(channel, fails));
      Agreement(r.db, r.model) <==> Harmless(w, Joins(channel, fails))
  {
    var r := Happens(w, Joins(channel, fails));
    if channel in w.db && channel !in w.model.directory {
      assert Interval(r.model, channel) == JoinPermission(w.db, channel, fails);
    }
  }

  /** Whatever happens, stored permissions and intervals still agree afterwards if and only if it is harmless. */
  lemma AgreementKept(w: World, h: Happening)
    requires WellFormed(w.model) && Agreement(w.db, w.model)
    ensures Agreement(Happens(w, h).db, Happens(w, h).model) <==> Harmless(w, h)
  {
    match h
    case Joins(channel, fails) => JoinKeepsAgreement(w, channel, fails);
    case BotState(channel, badges, ok) =>
      if channel in w.db && channel in w.model.directory {
        UserStateStep(w.db, w.model, channel, badges, 0);
      }
    case Inserted(channel, row) => InsertKeepsAgreement(w, channel, row);
    case Renamed(channel, newName) => RenameKeepsAgreement(w, channel, newName);
    case Deleted(channel) =>
    case Other(e) =>
  }

  ghost function AfterAll(w: World, hs: seq<Happening>): (r: World)
    requires WellFormed(w.model)
    ensures WellFormed(r.model)
  {
    if hs == [] then w else Happens(AfterAll(w, Front(hs)), Last(hs))
  }

  /** At every moment of the run the stored permission of each registered channel is its interval. */
  ghost predicate AlwaysAgrees(w: World, hs: seq<Happening>)
    requires WellFormed(w.model)
  {
    Agreement(AfterAll(w, hs).db, AfterAll(w, hs).model) && (hs != [] ==> AlwaysAgrees(w, Front(hs)))
  }

  ghost predicate AllHarmless(w: World, hs: seq<Happening>)
    requires WellFormed(w.model)
  {
    hs != [] ==> AllHarmless(w, Front(hs)) && Harmless(AfterAll(w, Front(hs)), Last(hs))
  }

  /** An event of the scheduler that leaves the table alone. */
  lemma SchedulerStep(db: map<string, ChannelRow>, model: State, model': State, e: Event)
    requires WellFormed(model) && model' == Next(model, e) && !e.AddChannel? && !e.UpdateTimer?
    ensures World(db, model') == Happens(World(db, model), Other(e))
  {
  }

  /** A channel that joins is paced at the permission of its row, and at Write, which is 1, if it has no row or the lookup
      fails; for a channel already registered nothing changes. */
  lemma JoinInterval(w: World, channel: string, fails: bool)
    requires WellFormed(w.model)
    ensures
      var r := Happens(w, Joins(channel, fails));
      if channel in w.model.directory then r == w
      else
        && r.db == w.db && channel in r.model.directory
        && Interval(r.model, channel) == if channel in w.db && !fails then w.db[channel].permission else 1
  {
  }

  lemma JoinStep(db: map<string, ChannelRow>, model: State, model': State, channel: string, fails: bool)
    requires WellFormed(model) && model' == Next(model, AddChannel(channel, JoinPermission(db, channel, fails)))
    ensures World(db, model') == Happens(World(db, model), Joins(channel, fails))
  {
  }

  /** A user state of the bot that changes what its decision says. */
  lemma BotStateStep(w: World, w': World, channel: string, badges: Badges, updateSucceeds: bool)
    requires WellFormed(w.model)
    requires
      match Decision(w, channel, badges, updateSucceeds)
      case None => w' == w
      case Some(p) => w'.db == w.db[channel := w.db[channel].(permission := p)] && w'.model == Next(w.model, UpdateTimer(channel, p))
    ensures w' == Happens(w, BotState(channel, badges, updateSucceeds))
  {
  }

  /** From the start of the program, over joins, parts, messages, turns, user states and changes of the table, with
      failing lookups and updates: table and scheduler agree throughout if and only if all that happens is harmless. */
  lemma {:induction false} AgreeThroughout(db: map<string, ChannelRow>, hs: seq<Happening>)
    ensures AlwaysAgrees(World(db, Init()), hs) <==> AllHarmless(World(db, Init()), hs)
  {
    if hs != [] {
      AgreeThroughout(db, Front(hs));
      if AlwaysAgrees(World(db, Init()), Front(hs)) {
        AgreementKept(AfterAll(World(db, Init()), Front(hs)), Last(hs));
      }
    }
  }

  ghost predicate Step(worlds: seq<World>, hs: seq<Happening>, k: nat) {
    k + 1 < |worlds| && k < |hs| && WellFormed(worlds[k].model) && worlds[k + 1] == Happens(worlds[k], hs[k])
  }

  /** One world before each happening and one after the last. */
  ghost predicate Trace(worlds: seq<World>, hs: seq<Happening>) {
    |worlds| == |hs| + 1 && forall k {:trigger Step(worlds, hs, k)} :: 0 <= k < |hs| ==> Step(worlds, hs, k)
  }

  lemma TraceAppend(worlds: seq<World>, hs: seq<Happening>, h: Happening, w: World)
    requires Trace(worlds, hs) && WellFormed(Last(worlds).model) && w == Happens(Last(worlds), h)
    ensures Trace(worlds + [w], hs + [h])
  {
    var worlds', hs' := worlds + [w], hs + [h];
    forall k | 0 <= k < |hs'| ensures Step(worlds', hs', k) {
      if k < |hs| {
        assert Step(worlds, hs, k);
      }
    }
  }

  lemma TraceFront(worlds: seq<World>, hs: seq<Happening>)
    requires Trace(worlds, hs) && hs != []
    ensures Trace(Front(worlds), Front(hs)) && Step(worlds, hs, |hs| - 1)
  {
    forall k | 0 <= k < |hs| - 1 ensures Step(Front(worlds), Front(hs), k) {
      assert Step(worlds, hs, k);
    }
  }

  lemma {:induction false} TraceIsRun(worlds: seq<World>, hs: seq<Happening>)
    requires Trace(worlds, hs) && WellFormed(worlds[0].model)
    ensures Last(worlds) == AfterAll(worlds[0], hs)
  {
    if hs != [] {
      TraceFront(worlds, hs);
      TraceIsRun(Front(worlds), Front(hs));
    }
  }

  /** The harmful ones: for instance the first JOIN of a channel stored as VIP, its lookup failing. */
  lemma FailedLookupDisagrees(channel: string, userId: string)
    ensures
      var r := Happens(World(map[channel := ChannelRow(userId, VIP)], Init()), Joins(channel, true));
      !Agreement(r.db, r.model) && Interval(r.model, channel) == WRITE
  {
    JoinKeepsAgreement(World(map[channel := ChannelRow(userId, VIP)], Init()), channel, true);
  }

  /** Another: a channel leaves the bot, which deletes its row before the PART, and comes back in between. Its new row
      says Write while its old schedule stands. */
  lemma QuickReturnDisagrees(w: World, channel: string)
    requires WellFormed(w.model) && DistinctUsers(w.db) && channel in w.db && channel in w.model.directory
    requires Interval(w.model, channel) != WRITE
    ensures
      var row := w.db[channel].(permission := WRITE);
      var r := Happens(Happens(w, Deleted(channel)), Inserted(channel, row));
      r.db == w.db[channel := row] && !Agreement(r.db, r.model)
  {
    var row := w.db[channel].(permission := WRITE);
    assert (w.db - {channel})[channel := row] == w.db[channel := row];
    assert w.db[channel := row][channel].permission == WRITE;
  }

  // --- The application ---------------------------------------------------------------------------

  class Application {
    const botUsername: string
    const scheduler: MessageScheduler
    var lastMessage: map<string, string>
    var db: map<string, ChannelRow>
    var published: seq<ModeUpdate>
    /** Messages given to the chat client, in order, and the scheduler events so far. */
    ghost var sent: seq<Message>
    ghost var history: seq<Event>
    /** All that happened to the table and the scheduler, and what they were before and after each happening. */
    ghost var happened: seq<Happening>
    ghost var worlds: seq<World>

    ghost function View(): World
      reads `db, scheduler
    {
      World(db, scheduler.model)
    }

    /** The scheduler, the last-message table and the chat are those of the history. */
    ghost predicate Logged()
      reads `lastMessage, `sent, `history, scheduler, scheduler.Repr
    {
      && this !in scheduler.Repr
      && scheduler.Valid()
      && Snapshot(scheduler.model, lastMessage, sent) == Recorded(history)
    }

    ghost predicate Consistent()
      reads `lastMessage, `db, `sent, `history, scheduler, scheduler.Repr
    {
      Logged() && DistinctUsers(db)
    }

    ghost predicate Valid()
      reads this, scheduler, scheduler.Repr
    {
      && Consistent()
      && Trace(worlds, happened) && worlds[0].model == Init() && Last(worlds) == World(db, scheduler.model)
    }

    /** Puts on record what happened since `before`. */
    ghost method Note(before: World, h: Happening)
      requires Trace(worlds, happened) && Last(worlds) == before
      requires WellFormed(before.model) && World(db, scheduler.model) == Happens(before, h)
      modifies `happened, `worlds
      ensures happened == old(happened) + [h] && worlds == old(worlds) + [World(db, scheduler.model)]
      ensures Trace(worlds, happened) && worlds[0] == old(worlds[0]) && Last(worlds) == World(db, scheduler.model)
    {
      TraceAppend(worlds, happened, h, World(db, scheduler.model));
      happened, worlds := happened + [h], worlds + [World(db, scheduler.model)];
    }

    /** Puts on record an event after which nothing was sent; `model` is the scheduler before it. */
    ghost method Log(model: State, e: Event)
      requires this !in scheduler.Repr && scheduler.Valid()
      requires WellFormed(model) && Snapshot(model, lastMessage, sent) == Recorded(history)
      requires !e.Wake? && scheduler.model == Next(model, e)
      modifies `history
      ensures Logged() && history == old(history) + [e]
    {
      RecordedQuietly(history, e, Snapshot(model, lastMessage, sent), scheduler.model);
      history := history + [e];
    }

    constructor (botUsername: string, db: map<string, ChannelRow>)
      requires DistinctUsers(db)
      ensures Valid() && history == [] && sent == [] && this.db == db && this.botUsername == botUsername
      ensures happened == [] && worlds == [World(db, Init())]
      ensures fresh(scheduler) && fresh(scheduler.Repr)
    {
      this.botUsername := botUsername;
      this.db := db;
      scheduler := new MessageScheduler();
      lastMessage, published := map[], [];
      sent, history := [], [];
      happened, worlds := [], [World(db, Init())];
    }

    /** `AddChannel`, on record. */
    method Register(channel: string, permission: int)
      requires Logged()
      modifies `history, scheduler
      ensures Logged() && old(scheduler.Repr) <= scheduler.Repr && fresh(scheduler.Repr - old(scheduler.Repr))
      ensures history == old(history) + [AddChannel(channel, permission)]
      ensures scheduler.model == Next(old(scheduler.model), AddChannel(channel, permission))
    {
      scheduler.AddChannel(channel, permission);
      Log(old(scheduler.model), AddChannel(channel, permission));
    }

    /** JOIN: a failed lookup counts as Write permission. */
    method Join(channel: string, lookupFails: bool)
      requires Valid()
      modifies this, scheduler
      ensures Valid() && unchanged(`db) && unchanged(`sent) && unchanged(`published)
      ensures old(scheduler.Repr) <= scheduler.Repr && fresh(scheduler.Repr - old(scheduler.Repr))
      ensures happened == old(happened) + [Joins(channel, lookupFails)] && worlds == old(worlds) + [View()]
      ensures history == old(history) + [AddChannel(channel, JoinPermission(db, channel, lookupFails))]
      ensures View() == Happens(old(View()), Joins(channel, lookupFails))
    {
      Register(channel, if channel in db && !lookupFails then db[channel].permission else WRITE);
      JoinStep(db, old(scheduler.model), scheduler.model, channel, lookupFails);
      Note(old(View()), Joins(channel, lookupFails));
    }

    method Part(channel: string)
      requires Valid()
      modifies this, scheduler
      ensures Valid() && unchanged(`db) && unchanged(`sent) && unchanged(`published)
      ensures scheduler.Repr == old(scheduler.Repr)
      ensures happened == old(happened) + [Other(RemoveChannel(channel))] && worlds == old(worlds) + [View()]
      ensures history == old(history) + [RemoveChannel(channel)]
      ensures scheduler.model == Next(old(scheduler.model), RemoveChannel(channel))
    {
      var _ := scheduler.RemoveChannel(channel);
      SchedulerStep(db, old(scheduler.model), scheduler.model, RemoveChannel(channel));
      Note(old(View()), Other(RemoveChannel(channel)));
      Log(old(scheduler.model), RemoveChannel(channel));
    }

    /** PRIVMSG and replies. */
    method Privmsg(message: Message)
      requires Valid()
      modifies this, scheduler.Repr
      ensures Valid() && unchanged(`db) && unchanged(`sent) && unchanged(`published)
      ensures scheduler.Repr == old(scheduler.Repr)
      ensures happened == old(happened) + [Other(AddMessage(message))] && worlds == old(worlds) + [View()]
      ensures history == old(history) + [AddMessage(message)]
      ensures scheduler.model == Next(old(scheduler.model), AddMessage(message))
    {
      scheduler.AddMessage(message);
      SchedulerStep(db, old(scheduler.model), scheduler.model, AddMessage(message));
      Note(old(View()), Other(AddMessage(message)));
      Log(old(scheduler.model), AddMessage(message));
    }

    /** `onScheduleMessage`: rewrite a repeated text, remember it and send it. */
    method OnScheduleMessage(message: Message)
      modifies `lastMessage, `sent
      ensures lastMessage == old(lastMessage)[message.channel := Rewrite(old(lastMessage), message).text]
      ensures sent == old(sent) + [Rewrite(old(lastMessage), message)]
    {
      var text := message.text;
      var last := if message.channel in lastMessage then lastMessage[message.channel] else "";
      if last == text {
        if EVASION in text {
          text := Strip(text);
        } else {
          text := text + " " + [EVASION];
        }
      }
      lastMessage := lastMessage[message.channel := text];
      sent := sent + [message.(text := text)];
    }

    /** The goroutine hands the head of its queue, if it may, to `onScheduleMessage`. */
    method HandOver(l: nat, now: int)
      requires Logged() && l < |scheduler.goroutines|
      modifies `lastMessage, `sent, `history
      ensures scheduler.Valid()
      ensures history == old(history) + [Wake(l, now)]
      ensures Snapshot(Next(scheduler.model, Wake(l, now)), lastMessage, sent) == Recorded(history)
    {
      var message := scheduler.NextMessage(l, now);
      if message.Some? {
        OnScheduleMessage(message.value);
      }
      RecordedTurn(history, Wake(l, now), old(Snapshot(scheduler.model, lastMessage, sent)), lastMessage, sent);
      history := history + [Wake(l, now)];
    }

    /** One turn of goroutine `l`: the message is sent before it leaves the queue. */
    method Turn(l: nat, now: int)
      requires Valid() && l < |scheduler.goroutines|
      modifies this, scheduler.Repr
      ensures Valid() && unchanged(`db) && unchanged(`published) && scheduler.Repr == old(scheduler.Repr)
      ensures happened == old(happened) + [Other(Wake(l, now))] && worlds == old(worlds) + [View()]
      ensures history == old(history) + [Wake(l, now)]
      ensures scheduler.model == Next(old(scheduler.model), Wake(l, now))
    {
      HandOver(l, now);
      scheduler.WakeLoop(l, now);
      SchedulerStep(db, old(scheduler.model), scheduler.model, Wake(l, now));
      assert Consistent();
      Note(old(View()), Other(Wake(l, now)));
    }

    method Store(name: string, permission: int)
      requires name in db && DistinctUsers(db)
      modifies `db, `published
      ensures DistinctUsers(db) && db == old(db)[name := old(db)[name].(permission := permission)]
      ensures published == old(published) + [ModeUpdate(db[name].userId, permission)]
    {
      var userId := db[name].userId;
      db := map c | c in db :: if db[c].userId == userId then db[c].(permission := permission) else db[c];
      published := published + [ModeUpdate(userId, permission)];
    }

    /** `UpdateTimer`, on record. */
    method MoveTimer(name: string, permission: int)
      requires Logged()
      modifies `history, scheduler.Repr
      ensures Logged() && scheduler.Repr == old(scheduler.Repr)
      ensures history == old(history) + [UpdateTimer(name, permission)]
      ensures scheduler.model == Next(old(scheduler.model), UpdateTimer(name, permission))
    {
      scheduler.UpdateTimer(name, permission);
      Log(old(scheduler.model), UpdateTimer(name, permission));
    }

    method Apply(name: string, permission: int)
      requires Consistent() && name in db
      modifies `db, `published, `history, scheduler.Repr
      ensures Consistent() && scheduler.Repr == old(scheduler.Repr)
      ensures history == old(history) + [UpdateTimer(name, permission)]
      ensures scheduler.model == Next(old(scheduler.model), UpdateTimer(name, permission))
      ensures db == old(db)[name := old(db)[name].(permission := permission)]
      ensures published == old(published) + [ModeUpdate(db[name].userId, permission)]
    {
      Store(name, permission);
      MoveTimer(name, permission);
    }

    /** `setPermission`: store the permission and announce it, and move the timer. */
    method SetPermission(name: string, permission: int, updateSucceeds: bool)
      requires Consistent() && name in db
      modifies `db, `published, `history, scheduler.Repr
      ensures Consistent() && scheduler.Repr == old(scheduler.Repr)
      ensures !updateSucceeds ==> unchanged(this) && scheduler.model == old(scheduler.model)
      ensures updateSucceeds ==>
                && history == old(history) + [UpdateTimer(name, permission)]
                && scheduler.model == Next(old(scheduler.model), UpdateTimer(name, permission))
                && db == old(db)[name := old(db)[name].(permission := permission)]
                && published == old(published) + [ModeUpdate(db[name].userId, permission)]
    {
      if updateSucceeds {
        Apply(name, permission);
      }
    }

    method Start() returns (ghost order: seq<string>)
      requires Valid()
      modifies this, scheduler
      ensures Valid() && unchanged(`db) && unchanged(`sent) && unchanged(`published)
      ensures old(scheduler.Repr) <= scheduler.Repr && fresh(scheduler.Repr - old(scheduler.Repr))
      ensures Enumerates(order, old(scheduler.model).directory.Keys)
      ensures happened == old(happened) + [Other(RunAll(order))] && worlds == old(worlds) + [View()]
      ensures history == old(history) + [RunAll(order)]
      ensures scheduler.model == Next(old(scheduler.model), RunAll(order))
    {
      order := scheduler.Run();
      SchedulerStep(db, old(scheduler.model), scheduler.model, RunAll(order));
      Note(old(View()), Other(RunAll(order)));
      Log(old(scheduler.model), RunAll(order));
    }

    method BeginTurns(l: nat, now: int)
      requires Valid() && l < |scheduler.goroutines| && scheduler.goroutines[l].state == NotStarted
      modifies this, scheduler.Repr
      ensures Valid() && unchanged(`db) && unchanged(`sent) && unchanged(`published)
      ensures scheduler.Repr == old(scheduler.Repr)
      ensures happened == old(happened) + [Other(Begin(l, now))] && worlds == old(worlds) + [View()]
      ensures history == old(history) + [Begin(l, now)]
      ensures scheduler.model == Next(old(scheduler.model), Begin(l, now))
    {
      scheduler.BeginLoop(l, now);
      SchedulerStep(db, old(scheduler.model), scheduler.model, Begin(l, now));
      Note(old(View()), Other(Begin(l, now)));
      Log(old(scheduler.model), Begin(l, now));
    }

    method Shutdown()
      requires Valid()
      modifies this, scheduler
      ensures Valid() && unchanged(`db) && unchanged(`sent) && unchanged(`published)
      ensures scheduler.Repr == old(scheduler.Repr)
      ensures happened == old(happened) + [Other(Event.Shutdown)] && worlds == old(worlds) + [View()]
      ensures history == old(history) + [Event.Shutdown]
      ensures scheduler.model == Next(old(scheduler.model), Event.Shutdown)
    {
      scheduler.Cancel();
      SchedulerStep(db, old(scheduler.model), scheduler.model, Event.Shutdown);
      Note(old(View()), Other(Event.Shutdown));
      Log(old(scheduler.model), Event.Shutdown);
    }

    /** The permission decided on is on record and announced, or nothing is. */
    twostate predicate Announced(decision: Option<int>, channel: string)
      reads this
    {
      match decision
      case None => unchanged(`history) && unchanged(`published)
      case Some(p) =>
        && history == old(history) + [UpdateTimer(channel, p)]
        && channel in db && published == old(published) + [ModeUpdate(db[channel].userId, p)]
    }

    /** The permission the badges call for is set. A channel that is in the database but not registered has no schedule
        to ask, and the handler dereferences nil. */
    method FollowBadges(channel: string, badges: Badges, updateSucceeds: bool) returns (outcome: Outcome)
      requires Consistent()
      modifies `db, `published, `history, scheduler.Repr
      ensures Consistent() && scheduler.Repr == old(scheduler.Repr)
      ensures outcome == if channel !in old(db) then Ignored
                         else if channel !in old(scheduler.model).directory then NilDereference
                         else Handled
      ensures Announced(Decision(old(View()), channel, badges, updateSucceeds), channel)
      ensures View() == Happens(old(View()), BotState(channel, badges, updateSucceeds))
    {
      if channel !in db {
        BotStateStep(old(View()), View(), channel, badges, updateSucceeds);
        return Ignored;
      }
      if channel !in scheduler.channelSchedules {
        BotStateStep(old(View()), View(), channel, badges, updateSucceeds);
        return NilDereference;
      }
      var current := scheduler.channelSchedules[channel].interval;
      assert current == Interval(scheduler.model, channel);
      if badges.broadcaster && current != BOT {
        SetPermission(channel, BOT, updateSucceeds);
      } else if badges.moderator && current != MODERATOR {
        SetPermission(channel, MODERATOR, updateSucceeds);
      } else if badges.vip && current != VIP {
        SetPermission(channel, VIP, updateSucceeds);
      } else if current != READ && current != WRITE && !badges.vip && !badges.moderator && !badges.broadcaster {
        SetPermission(channel, WRITE, updateSucceeds);
      }
      BotStateStep(old(View()), View(), channel, badges, updateSucceeds);
      return Handled;
    }

    /** A user state of the bot itself. */
    method OnOwnUserState(channel: string, badges: Badges, updateSucceeds: bool) returns (outcome: Outcome)
      requires Valid()
      modifies this, scheduler.Repr
      ensures Valid() && unchanged(`sent) && scheduler.Repr == old(scheduler.Repr)
      ensures happened == old(happened) + [BotState(channel, badges, updateSucceeds)] && worlds == old(worlds) + [View()]
      ensures View() == Happens(old(View()), BotState(channel, badges, updateSucceeds))
      ensures Announced(Decision(old(View()), channel, badges, updateSucceeds), channel)
      ensures outcome == if channel !in old(db) then Ignored
                         else if channel !in old(scheduler.model).directory then NilDereference
                         else Handled
    {
      outcome := FollowBadges(channel, badges, updateSucceeds);
      Note(old(View()), BotState(channel, badges, updateSucceeds));
    }

    /** Other users' states are ignored. */
    method OnUserState(user: string, channel: string, badges: Badges, updateSucceeds: bool) returns (outcome: Outcome)
      requires Valid()
      modifies this, scheduler.Repr
      ensures Valid() && unchanged(`sent) && scheduler.Repr == old(scheduler.Repr)
      ensures user != botUsername ==> outcome == Ignored && unchanged(this) && scheduler.model == old(scheduler.model)
      ensures user == botUsername ==>
                && happened == old(happened) + [BotState(channel, badges, updateSucceeds)] && worlds == old(worlds) + [View()]
                && View() == Happens(old(View()), BotState(channel, badges, updateSucceeds))
                && Announced(Decision(old(View()), channel, badges, updateSucceeds), channel)
                && outcome == if channel !in old(db) then Ignored
                              else if channel !in old(scheduler.model).directory then NilDereference
                              else Handled
    {
      if user != botUsername {
        return Ignored;
      }
      outcome := OnOwnUserState(channel, badges, updateSucceeds);
    }

    /** The bot's other process adds a row; the statement fails if the name or the user is there already. */
    method InsertRow(channel: string, row: ChannelRow)
      requires Valid()
      modifies `db, `happened, `worlds
      ensures Valid()
      ensures happened == old(happened) + [Inserted(channel, row)] && worlds == old(worlds) + [View()]
      ensures db == Insert(old(db), channel, row)
    {
      if Insertable(db, channel, row) {
        db := db[channel := row];
      }
      assert Consistent();
      Note(old(View()), Inserted(channel, row));
    }

    method RenameRow(channel: string, newName: string)
      requires Valid()
      modifies `db, `happened, `worlds
      ensures Valid()
      ensures happened == old(happened) + [Renamed(channel, newName)] && worlds == old(worlds) + [View()]
      ensures db == Rename(old(db), channel, newName)
    {
      if channel in db && newName !in db {
        db := (db - {channel})[newName := db[channel]];
      }
      assert Consistent();
      Note(old(View()), Renamed(channel, newName));
    }

    method DeleteRow(channel: string)
      requires Valid()
      modifies `db, `happened, `worlds
      ensures Valid()
      ensures happened == old(happened) + [Deleted(channel)] && worlds == old(worlds) + [View()]
      ensures db == old(db) - {channel}
    {
      db := db - {channel};
      assert Consistent();
      Note(old(View()), Deleted(channel));
    }

    /** At every moment so far the stored permission of each registered channel was its interval, if and only if all
        that happened was harmless. */
    lemma AgreesThroughout()
      requires Valid()
      ensures View() == AfterAll(worlds[0], happened)
      ensures AlwaysAgrees(worlds[0], happened) <==> AllHarmless(worlds[0], happened)
    {
      TraceIsRun(worlds, happened);
      AgreeThroughout(worlds[0].db, happened);
    }

    lemma FromTheStart()
      requires Valid()
      ensures Snapshot(scheduler.model, lastMessage, sent)
           == Snapshot(After(Init(), history), LastAfter(map[], Dispatched(Init(), history)), Sent(Init(), history, map[]))
    {
      RecordedIsTheRun([], history);
      assert [] + history == history && [] + Sent(Init(), history, map[]) == Sent(Init(), history, map[]);
    }

    /** For a channel registered since some moment: what was sent to it since is what it held then and was asked to
        send since, one for one and in order, up to evasion, no text twice in a row, and the rest is in its queue. */
    lemma DeliveredSince(past: seq<Event>, later: seq<Event>, channel: string, i: nat)
      requires Valid() && history == past + later
      requires Home(Recorded(past).model, channel, i) && StaysRegistered(later, channel)
      ensures
        var start := Recorded(past);
        && start.sent <= sent
        && Delivers(LastText(start.last, channel), QueueOf(start.model, i) + OnChannel(Requested(later), channel),
                    OnChannel(sent[|start.sent|..], channel), QueueOf(scheduler.model, i))
    {
      var start := Recorded(past);
      RecordedIsTheRun(past, later);
      EndToEnd(start.model, later, start.last, channel, i);
      assert sent[|start.sent|..] == Sent(start.model, later, start.last);
    }

    /** At any time a schedule has sent at most one message per 50 ms of the running time of each of its goroutines. */
    lemma PacedSending(i: nat, t: int)
      requires Valid()
      ensures 50 * CountUpTo(ScheduleTimes(Init(), history, i), t)
           <= RunningTime(Init(), history, i, t, HomesOf(scheduler.model))
    {
      FromTheStart();
      ScheduleRate(Init(), history, i, t);
    }

    /** At any time, on every channel, no text was sent twice in a row. */
    lemma NoRepeatedText(channel: string)
      requires Valid()
      ensures NoRepeat("", TextsOf(OnChannel(sent, channel)))
    {
      FromTheStart();
      NeverTwiceInARow(map[], Dispatched(Init(), history), channel);
    }

    /** At any time before shutdown, once `Start` was called, later turns of one goroutine can send everything that waits
        on a schedule, be it the catch-all, a channel's or a removed channel's. */
    lemma EverythingCanBeSent(i: nat, now: int)
      requires Valid() && i < |scheduler.model.schedules| && Started(history) && !scheduler.model.cancelled
      ensures CanDrain(scheduler.model, i, now)
    {
      FromTheStart();
      EveryQueueDrains(history, i, now);
    }

    /** Nothing was sent since the shutdown. */
    lemma SilentSinceShutdown(past: seq<Event>, later: seq<Event>)
      requires Valid() && history == (past + [Event.Shutdown]) + later
      ensures sent == Recorded(past).sent
    {
      var s := Recorded(past);
      RecordedQuietly(past, Event.Shutdown, s, Next(s.model, Event.Shutdown));
      RecordedIsTheRun(past + [Event.Shutdown], later);
      ShutdownSilences(s.model, later, 0, 0);
      assert s.sent + [] == s.sent;
    }

    /** At any time every message requested was sent, up to evasion, or waits in a queue, no message more or
        less often. */
    lemma NothingLost(m: Message)
      requires Valid()
      ensures
        var dispatched := Dispatched(Init(), history);
        && multiset(Requested(history))[m] == multiset(dispatched)[m] + Waiting(scheduler.model.schedules, m)
        && |sent| == |dispatched|
        && forall k :: 0 <= k < |sent| ==> SameMessage(sent[k], dispatched[k])
    {
      FromTheStart();
      NothingLostOrDuplicated(Init(), history, m);
      RewritingIsFaithful(map[], Dispatched(Init(), history));
      assert Waiting(Init().schedules, m) == 0;
    }
  }
}
