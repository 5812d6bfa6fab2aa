/** The EventSub webhook: Twitch delivers each message at least once, a table of message ids makes the
    broker handle it at most once, and a title gate lets only changes of a title through. */
module EventSubBroker {
  import opened Common
  import opened Texts

  datatype Event =
    | ChannelFollow(payload: string)
    | StreamOnline(payload: string)
    | StreamOffline(payload: string)
    | ChannelUpdate(channel: string, title: string)

  /** `event` is the event decoded for the subscription type, or None for an unknown type or bad data. */
  datatype Notification = Notification(challenge: string, event: Option<Event>)

  datatype MessageType = NotificationMessage | RevocationMessage | OtherMessage

  /** One HTTP request, with what its environment answers: the signature check, the JSON decoder, the id table
      and Redis. */
  datatype Delivery = Delivery(
    isJson: bool,
    signed: bool,
    body: Option<Notification>,
    id: string,
    messageType: MessageType,
    storeSucceeds: bool,
    getSucceeds: bool,
    setSucceeds: bool)

  /** An HTTP status, or status 200 with the challenge as its body. */
  datatype Response = Status(code: nat) | Echo(challenge: string)

  datatype State = State(handled: set<string>, titles: map<string, string>, sent: seq<Event>)

  function Title(titles: map<string, string>, channel: string): string {
    if channel in titles then titles[channel] else ""
  }

  /** `onChannelUpdate` and the handlers that simply publish. */
  function Dispatch(s: State, event: Event, getSucceeds: bool, setSucceeds: bool): State {
    match event
    case ChannelUpdate(channel, title) =>
      if !getSucceeds || Title(s.titles, channel) == title || !setSucceeds then s
      else s.(titles := s.titles[channel := title], sent := s.sent + [event])
    case _ => s.(sent := s.sent + [event])
  }

  /** The request is a genuine message, not the handshake. */
  predicate Genuine(d: Delivery) {
    d.isJson && d.signed && d.body.Some? && d.body.value.challenge == ""
  }

  /** The message gets past the id table. */
  predicate Admitted(s: State, d: Delivery) {
    Genuine(d) && d.storeSucceeds && d.id !in s.handled
  }

  function Handle(s: State, d: Delivery): State {
    if !Admitted(s, d) then s
    else
      var t := s.(handled := s.handled + {d.id});
      if d.messageType.NotificationMessage? && d.body.value.event.Some?
      then Dispatch(t, d.body.value.event.value, d.getSucceeds, d.setSucceeds)
      else t
  }

  function HandleAll(s: State, ds: seq<Delivery>): State {
    if ds == [] then s else Handle(HandleAll(s, Front(ds)), Last(ds))
  }

  class Server {
    var handled: set<string>
    var titles: map<string, string>
    var sent: seq<Event>

    ghost function View(): State
      reads this
    {
      State(handled, titles, sent)
    }

    constructor ()
      ensures View() == State({}, map[], [])
    {
      handled, titles, sent := {}, map[], [];
    }

    method OnChannelUpdate(channel: string, title: string, getSucceeds: bool, setSucceeds: bool)
      modifies `titles, `sent
      ensures View() == Dispatch(old(View()), ChannelUpdate(channel, title), getSucceeds, setSucceeds)
    {
      if !getSucceeds {
        return;
      }
      var current := if channel in titles then titles[channel] else "";
      if current == title {
        return;
      }
      if !setSucceeds {
        return;
      }
      titles := titles[channel := title];
      sent := sent + [ChannelUpdate(channel, title)];
    }

    /** `FirstOrCreate` on the id: the number of rows it created, or an error. */
    method FirstOrCreate(id: string, storeSucceeds: bool) returns (created: Option<nat>)
      modifies `handled
      ensures created == if !storeSucceeds then None else Some(if id in old(handled) then 0 else 1)
      ensures handled == if storeSucceeds then old(handled) + {id} else old(handled)
    {
      if !storeSucceeds {
        return None;
      }
      if id in handled {
        return Some(0);
      }
      handled := handled + {id};
      return Some(1);
    }

    method EventsubRoute(d: Delivery) returns (response: Response)
      modifies this
      ensures View() == Handle(old(View()), d)
      ensures response == if !d.isJson then Status(400)
                          else if !d.signed then Status(403)
                          else if d.body.None? then Status(500)
                          else if d.body.value.challenge != "" then Echo(d.body.value.challenge)
                          else Status(204)
      ensures response != Status(204) || !d.storeSucceeds || d.id in old(handled) ==> View() == old(View())
      ensures response == Status(204) && d.storeSucceeds && d.id !in old(handled) ==>
                && handled == old(handled) + {d.id}
                && match if d.messageType.NotificationMessage? then d.body.value.event else None
                   case None => titles == old(titles) && sent == old(sent)
                   case Some(ChannelUpdate(channel, title)) =>
                     if d.getSucceeds && d.setSucceeds && title != (if channel in old(titles) then old(titles)[channel] else "")
                     then titles == old(titles)[channel := title] && sent == old(sent) + [ChannelUpdate(channel, title)]
                     else titles == old(titles) && sent == old(sent)
                   case Some(event) => titles == old(titles) && sent == old(sent) + [event]
    {
      if !d.isJson {
        return Status(400);
      }
      if !d.signed {
        return Status(403);
      }
      if d.body.None? {
        return Status(500);
      }
      if d.body.value.challenge != "" {
        return Echo(d.body.value.challenge);
      }
      var created := FirstOrCreate(d.id, d.storeSucceeds);
      if created.None? || created.value < 1 {
        return Status(204);
      }
      if d.messageType.NotificationMessage? && d.body.value.event.Some? {
        match d.body.value.event.value
        case ChannelUpdate(channel, title) =>
          OnChannelUpdate(channel, title, d.getSucceeds, d.setSucceeds);
        case event =>
          sent := sent + [event];
      }
      return Status(204);
    }
  }

  // --- At most once --------------------------------------------------------------------------

  function Ids(ds: seq<Delivery>): set<string> {
    set d | d in ds :: d.id
  }

  /** The trace without handshakes, rejected requests and every delivery but the first of each message. */
  function FirstDeliveries(ds: seq<Delivery>, handled: set<string>): seq<Delivery> {
    if ds == [] then []
    else
      var first := FirstDeliveries(Front(ds), handled);
      if Genuine(Last(ds)) && Last(ds).id !in handled + Ids(first) then first + [Last(ds)] else first
  }

  lemma HandleAllAppend(s: State, ds: seq<Delivery>, d: Delivery)
    ensures HandleAll(s, ds + [d]) == Handle(HandleAll(s, ds), d)
  {
  }

  lemma IdsAppend(ds: seq<Delivery>, d: Delivery)
    ensures Ids(ds + [d]) == Ids(ds) + {d.id}
  {
  }

  lemma HandledStep(s: State, d: Delivery)
    ensures Handle(s, d).handled == if Admitted(s, d) then s.handled + {d.id} else s.handled
    ensures !Admitted(s, d) ==> Handle(s, d) == s
  {
  }

  /** Redelivery is invisible: a trace whose ids are stored leaves the same table, the same titles and the same
      published events as the trace of first deliveries. */
  lemma {:induction false} RedeliveryIsInvisible(s: State, ds: seq<Delivery>)
    requires forall k :: 0 <= k < |ds| ==> ds[k].storeSucceeds
    ensures HandleAll(s, ds) == HandleAll(s, FirstDeliveries(ds, s.handled))
    ensures HandleAll(s, ds).handled == s.handled + Ids(FirstDeliveries(ds, s.handled))
  {
    if ds != [] {
      var first, d := FirstDeliveries(Front(ds), s.handled), Last(ds);
      RedeliveryIsInvisible(s, Front(ds));
      HandledStep(HandleAll(s, first), d);
      HandleAllAppend(s, first, d);
      IdsAppend(first, d);
    }
  }

  /** The deliveries that reached the dispatcher, whether or not other ones could be stored. */
  function Processed(s: State, ds: seq<Delivery>): seq<Delivery> {
    if ds == [] then []
    else if Admitted(HandleAll(s, Front(ds)), Last(ds)) then Processed(s, Front(ds)) + [Last(ds)]
    else Processed(s, Front(ds))
  }

  /** On every trace, with any storage failures, no message is dispatched twice and none is that had been handled
      before. */
  lemma {:induction false} AtMostOnce(s: State, ds: seq<Delivery>)
    ensures forall j, k :: 0 <= j < k < |Processed(s, ds)| ==> Processed(s, ds)[j].id != Processed(s, ds)[k].id
    ensures forall k :: 0 <= k < |Processed(s, ds)| ==> Processed(s, ds)[k].id !in s.handled
    ensures HandleAll(s, ds).handled == s.handled + Ids(Processed(s, ds))
  {
    if ds != [] {
      AtMostOnce(s, Front(ds));
      IdsAppend(Processed(s, Front(ds)), Last(ds));
      assert forall k :: 0 <= k < |Processed(s, Front(ds))| ==> Processed(s, Front(ds))[k].id in Ids(Processed(s, Front(ds)));
    }
  }

  /** The deliveries that reached the dispatcher are all that matters. */
  lemma {:induction false} OnlyProcessedMatter(s: State, ds: seq<Delivery>)
    ensures HandleAll(s, ds) == HandleAll(s, Processed(s, ds))
  {
    if ds != [] {
      OnlyProcessedMatter(s, Front(ds));
      HandleAllAppend(s, Processed(s, Front(ds)), Last(ds));
    }
  }

  // --- The plain events --------------------------------------------------------------------------

  /** The events that are no title changes, in order. */
  function Plain(events: seq<Event>): seq<Event> {
    if events == [] then []
    else Plain(Front(events)) + if Last(events).ChannelUpdate? then [] else [Last(events)]
  }

  /** Of all genuine deliveries with its id that could be stored, the delivery is the first one. */
  ghost predicate FirstStored(past: seq<Delivery>, d: Delivery, handled: set<string>) {
    && d.isJson && d.signed && d.body.Some? && d.body.value.challenge == "" && d.storeSucceeds && d.id !in handled
    && forall k :: 0 <= k < |past| && past[k].id == d.id ==>
         !(past[k].isJson && past[k].signed && past[k].body.Some? && past[k].body.value.challenge == "" && past[k].storeSucceeds)
  }

  predicate Announces(d: Delivery) {
    && d.messageType.NotificationMessage? && d.body.Some? && d.body.value.event.Some?
    && !d.body.value.event.value.ChannelUpdate?
  }

  /** The events, no title changes, of the first stored delivery of each message, in order. */
  ghost function FirstAnnounced(ds: seq<Delivery>, handled: set<string>): seq<Event> {
    if ds == [] then []
    else FirstAnnounced(Front(ds), handled)
         + if FirstStored(Front(ds), Last(ds), handled) && Announces(Last(ds)) then [Last(ds).body.value.event.value] else []
  }

  lemma PlainAppend(events: seq<Event>, event: Event)
    ensures Plain(events + [event]) == Plain(events) + if event.ChannelUpdate? then [] else [event]
  {
    FrontLastOfAppend(events, event);
  }

  /** An id is in the table if and only if it was or a genuine delivery of it could be stored. */
  lemma {:induction false} HandledIds(s: State, ds: seq<Delivery>, id: string)
    ensures id in HandleAll(s, ds).handled
       <==> id in s.handled || exists k :: 0 <= k < |ds| && ds[k].id == id && Genuine(ds[k]) && ds[k].storeSucceeds
  {
    if ds != [] {
      var front, d := Front(ds), Last(ds);
      HandledIds(s, front, id);
      HandledStep(HandleAll(s, front), d);
      assert forall k :: 0 <= k < |front| ==> ds[k] == front[k];
      assert ds[|front|] == d;
    }
  }

  lemma AdmittedIsFirst(s: State, past: seq<Delivery>, d: Delivery)
    ensures Admitted(HandleAll(s, past), d) <==> FirstStored(past, d, s.handled)
  {
    HandledIds(s, past, d.id);
  }

  lemma PlainStep(s: State, d: Delivery)
    ensures Plain(Handle(s, d).sent)
         == Plain(s.sent) + if Admitted(s, d) && Announces(d) then [d.body.value.event.value] else []
  {
    assert Plain(s.sent) + [] == Plain(s.sent);
    if d.body.Some? && d.body.value.event.Some? {
      PlainAppend(s.sent, d.body.value.event.value);
    }
  }

  /** On every trace, with any storage failures: the events published that are no title changes are exactly those of the
      first stored delivery of each message, in order. */
  lemma {:induction false} PlainEventsArePublished(s: State, ds: seq<Delivery>)
    ensures Plain(HandleAll(s, ds).sent) == Plain(s.sent) + FirstAnnounced(ds, s.handled)
  {
    if ds == [] {
      assert Plain(s.sent) + [] == Plain(s.sent);
    } else {
      PlainEventsArePublished(s, Front(ds));
      AdmittedIsFirst(s, Front(ds), Last(ds));
      PlainStep(HandleAll(s, Front(ds)), Last(ds));
      Associative(Plain(s.sent), FirstAnnounced(Front(ds), s.handled),
                  if FirstStored(Front(ds), Last(ds), s.handled) && Announces(Last(ds)) then [Last(ds).body.value.event.value] else []);
    }
  }

  // --- The title gate --------------------------------------------------------------------------

  /** The titles published for a channel, in order. */
  function TitlesSent(events: seq<Event>, channel: string): seq<string> {
    if events == [] then []
    else TitlesSent(Front(events), channel)
         + if Last(events).ChannelUpdate? && Last(events).channel == channel then [Last(events).title] else []
  }

  /** The delivery brings a title of the channel and Redis answers. */
  predicate Offers(d: Delivery, channel: string) {
    && d.messageType.NotificationMessage? && d.body.Some? && d.body.value.event.Some?
    && d.body.value.event.value.ChannelUpdate? && d.body.value.event.value.channel == channel
    && d.getSucceeds && d.setSucceeds
  }

  /** The titles of a channel that reached the gate while Redis answered, in order. */
  function TitlesOffered(ds: seq<Delivery>, channel: string): seq<string> {
    if ds == [] then []
    else TitlesOffered(Front(ds), channel) + if Offers(Last(ds), channel) then [Last(ds).body.value.event.value.title] else []
  }

  /** The titles that differ from the one just before them, `previous` standing before the first. */
  function Destutter(previous: string, titles: seq<string>): seq<string> {
    if titles == [] then []
    else Destutter(previous, Front(titles)) + if Last(titles) != LastOr(previous, Front(titles)) then [Last(titles)] else []
  }

  ghost predicate Gated(s: State, t: State, offered: seq<string>, channel: string) {
    && TitlesSent(t.sent, channel) == TitlesSent(s.sent, channel) + Destutter(Title(s.titles, channel), offered)
    && Title(t.titles, channel) == LastOr(Title(s.titles, channel), offered)
  }

  lemma TitlesSentAppend(events: seq<Event>, event: Event, channel: string)
    ensures TitlesSent(events + [event], channel)
         == if event.ChannelUpdate? && event.channel == channel then TitlesSent(events, channel) + [event.title]
            else TitlesSent(events, channel)
  {
  }

  lemma DestutterAppend(previous: string, titles: seq<string>, title: string)
    ensures Destutter(previous, titles + [title])
         == if title == LastOr(previous, titles) then Destutter(previous, titles) else Destutter(previous, titles) + [title]
  {
  }

  lemma GatedOffer(s: State, t: State, offered: seq<string>, channel: string, title: string)
    requires Gated(s, t, offered, channel)
    ensures Gated(s, Dispatch(t, ChannelUpdate(channel, title), true, true), offered + [title], channel)
  {
    DestutterAppend(Title(s.titles, channel), offered, title);
    LastOrAppend(Title(s.titles, channel), offered, title);
    if Title(t.titles, channel) != title {
      TitlesSentAppend(t.sent, ChannelUpdate(channel, title), channel);
      Associative(TitlesSent(s.sent, channel), Destutter(Title(s.titles, channel), offered), [title]);
    }
  }

  lemma GatedDispatch(s: State, t: State, offered: seq<string>, channel: string, event: Event, get: bool, set': bool)
    requires Gated(s, t, offered, channel)
    ensures
      var passes := event.ChannelUpdate? && event.channel == channel && get && set';
      Gated(s, Dispatch(t, event, get, set'), if passes then offered + [event.title] else offered, channel)
  {
    TitlesSentAppend(t.sent, event, channel);
    if event.ChannelUpdate? && event.channel == channel && get && set' {
      GatedOffer(s, t, offered, channel, event.title);
    }
  }

  lemma GatedStep(s: State, t: State, offered: seq<string>, channel: string, d: Delivery)
    requires Gated(s, t, offered, channel) && Admitted(t, d)
    ensures Gated(s, Handle(t, d), offered + if Offers(d, channel) then [d.body.value.event.value.title] else [], channel)
  {
    var t' := t.(handled := t.handled + {d.id});
    assert offered + [] == offered;
    if d.messageType.NotificationMessage? && d.body.value.event.Some? {
      GatedDispatch(s, t', offered, channel, d.body.value.event.value, d.getSucceeds, d.setSucceeds);
    }
  }

  /** The titles handed on for a channel are the titles that reached the gate with adjacent repeats collapsed,
      starting from the stored title, and the stored title is the last one that reached it. */
  lemma {:induction false} TitleGateDestutters(s: State, ds: seq<Delivery>, channel: string)
    ensures Gated(s, HandleAll(s, ds), TitlesOffered(Processed(s, ds), channel), channel)
  {
    if ds == [] {
      assert TitlesSent(s.sent, channel) + [] == TitlesSent(s.sent, channel);
    } else {
      TitleGateDestutters(s, Front(ds), channel);
      var t, d := HandleAll(s, Front(ds)), Last(ds);
      if Admitted(t, d) {
        GatedStep(s, t, TitlesOffered(Processed(s, Front(ds)), channel), channel, d);
        FrontLastOfAppend(Processed(s, Front(ds)), d);
      }
    }
  }

  /** A collapsed sequence ends where the original does and never repeats a title. */
  lemma {:induction false} DestutterNeverRepeats(previous: string, titles: seq<string>)
    ensures LastOr(previous, Destutter(previous, titles)) == LastOr(previous, titles)
    ensures NoRepeat(previous, Destutter(previous, titles))
  {
    if titles != [] {
      var front, title := Front(titles), Last(titles);
      DestutterNeverRepeats(previous, front);
      assert titles == front + [title];
      DestutterAppend(previous, front, title);
      if title != LastOr(previous, front) {
        NoRepeatAppend(previous, Destutter(previous, front), title);
        LastOrAppend(previous, Destutter(previous, front), title);
      }
    }
  }
}
