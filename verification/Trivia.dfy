/** The trivia game of a channel. Starting a round asks a web service; answers, skips, the reply and the
    timeouts of this and earlier rounds may then arrive in any order. */
module Trivia {
  import opened Common

  const ROUND_LIMIT := 60000

  /** What the controller emits, plus the skip it reports to its caller. */
  datatype Entry =
    | Ready(id: int)
    | Complete(user: string, now: int)
    | Timeout(id: int, now: int)
    | Skipped(now: int)
    | Fail

  /** `pending` is the invoker of the request under way; `timeouts` are the ids of the timeouts set and not
      fired yet. */
  datatype State = State(
    initiated: bool,
    block: bool,
    id: int,
    invoker: string,
    pending: Option<string>,
    timeouts: multiset<int>,
    log: seq<Entry>)

  datatype Event =
    | Start(invoker: string, now: int)
    | Reply(now: int)
    | ReplyError(now: int)
    | ReplyThrows(now: int)
    | Answer(user: string, similar: bool, now: int)
    | Skip(user: string, now: int)
    | Fire(id: int, now: int)

  function Init(): State {
    State(false, false, 0, "", None, multiset{}, [])
  }

  function Reset(s: State, now: int): State {
    s.(initiated := false, id := now, invoker := "")
  }

  function Next(s: State, e: Event): State {
    match e
    case Start(invoker, now) =>
      if s.block || s.initiated then s else s.(block := true, pending := Some(invoker))
    case Reply(now) =>
      if s.pending.None? then s
      else s.(pending := None, invoker := s.pending.value, initiated := true, id := now,
              timeouts := s.timeouts + multiset{now}, log := s.log + [Ready(now)], block := false)
    case ReplyError(now) =>
      if s.pending.None? then s else s.(pending := None, log := s.log + [Fail], block := false)
    case ReplyThrows(now) =>
      if s.pending.None? then s else s.(pending := None)
    case Answer(user, similar, now) =>
      if !s.initiated || !similar then s else Reset(s.(log := s.log + [Complete(user, now)]), now)
    case Skip(user, now) =>
      if s.invoker != user then s else Reset(s.(log := s.log + [Skipped(now)]), now)
    case Fire(id, now) =>
      if id !in s.timeouts then s
      else
        var t := s.(timeouts := s.timeouts - multiset{id});
        if t.initiated && t.id == id then Reset(t.(log := t.log + [Timeout(id, now)]), now) else t
  }

  function After(s: State, es: seq<Event>): State {
    if es == [] then s else Next(After(s, Front(es)), Last(es))
  }

  class TriviaController {
    var initiated: bool
    var block: bool
    var id: int
    var answer: string
    var invoker: string
    var emitted: seq<Entry>
    /** The awaited request and the timer queue belong to the runtime. */
    ghost var pending: Option<string>
    ghost var timeouts: multiset<int>

    ghost function View(): State
      reads this
    {
      State(initiated, block, id, invoker, pending, timeouts, emitted)
    }

    constructor ()
      ensures View() == Init()
    {
      initiated, block, id, answer, invoker, emitted := false, false, 0, "", "", [];
      pending, timeouts := None, multiset{};
    }

    method ResetRound(now: int)
      modifies this
      ensures View() == Reset(old(View()), now)
      ensures !initiated && invoker == "" && answer == "" && id == now
    {
      answer := "";
      initiated := false;
      invoker := "";
      id := now;
    }

    /** `start` up to the request; `awaiting` says whether one was made. */
    method StartRound(invoker: string, now: int) returns (awaiting: bool)
      modifies this
      ensures View() == Next(old(View()), Start(invoker, now))
      ensures awaiting <==> !old(block) && !old(initiated)
      ensures awaiting ==> block && pending == Some(invoker)
      ensures !awaiting ==> View() == old(View())
    {
      if block || initiated {
        return false;
      }
      block := true;
      pending := Some(invoker);
      return true;
    }

    /** The rest of `start`, with a question. */
    method Resume(invoker: string, answer: string, now: int)
      requires pending == Some(invoker)
      modifies this
      ensures View() == Next(old(View()), Reply(now))
      ensures initiated && this.invoker == invoker && this.answer == answer && id == now && !block && pending == None
      ensures emitted == old(emitted) + [Ready(now)] && timeouts == old(timeouts) + multiset{now}
    {
      pending := None;
      this.answer := answer;
      this.invoker := invoker;
      initiated := true;
      EmitReady(now);
      block := false;
    }

    method EmitReady(now: int)
      modifies `id, `timeouts, `emitted
      ensures id == now && timeouts == old(timeouts) + multiset{now} && emitted == old(emitted) + [Ready(now)]
    {
      id := now;
      timeouts := timeouts + multiset{now};
      emitted := emitted + [Ready(now)];
    }

    /** The rest of `start` when the service answers with another status. */
    method ResumeFailed(invoker: string, now: int)
      requires pending == Some(invoker)
      modifies this
      ensures View() == Next(old(View()), ReplyError(now))
      ensures emitted == old(emitted) + [Fail] && !block && pending == None && initiated == old(initiated)
    {
      pending := None;
      emitted := emitted + [Fail];
      block := false;
    }

    /** The request or the decoding of its body throws: nothing after it runs. */
    method ResumeThrown(invoker: string, now: int)
      requires pending == Some(invoker)
      modifies this
      ensures View() == Next(old(View()), ReplyThrows(now))
      ensures pending == None && block == old(block) && initiated == old(initiated) && emitted == old(emitted)
    {
      pending := None;
    }

    /** A chat message while the channel plays; `similar` is whether it is close enough to the answer. */
    method TryTrivia(user: string, similar: bool, now: int)
      modifies this
      ensures View() == Next(old(View()), Answer(user, similar, now))
      ensures old(initiated) && similar ==> !initiated && id == now && emitted == old(emitted) + [Complete(user, now)]
      ensures !(old(initiated) && similar) ==> View() == old(View())
    {
      if !initiated {
        return;
      }
      if similar {
        emitted := emitted + [Complete(user, now)];
        initiated := false;
        ResetRound(now);
      }
    }

    method TrySkip(user: string, now: int) returns (stopped: bool)
      modifies this
      ensures View() == Next(old(View()), Skip(user, now))
      ensures stopped <==> old(invoker) == user
      ensures stopped ==> !initiated && id == now && emitted == old(emitted) + [Skipped(now)]
      ensures !stopped ==> View() == old(View())
    {
      stopped := invoker == user;
      if stopped {
        emitted := emitted + [Skipped(now)];
        ResetRound(now);
      }
    }

    /** The runtime fires a timeout set earlier. */
    method EmitTimeout(id: int, now: int)
      requires id in timeouts
      modifies this
      ensures View() == Next(old(View()), Fire(id, now))
      ensures timeouts == old(timeouts) - multiset{id}
      ensures if old(initiated) && id == old(this.id)
              then !initiated && this.id == now && emitted == old(emitted) + [Timeout(id, now)]
              else initiated == old(initiated) && this.id == old(this.id) && emitted == old(emitted)
    {
      timeouts := timeouts - multiset{id};
      if initiated && id == this.id {
        emitted := emitted + [Timeout(id, now)];
        initiated := false;
        ResetRound(now);
      }
    }
  }

  // --- Rounds ----------------------------------------------------------------------------------

  predicate Ends(e: Entry) {
    e.Complete? || e.Timeout? || e.Skipped?
  }

  /** The round the log leaves open. */
  function Open(log: seq<Entry>): Option<int> {
    if log == [] then None
    else
      match Last(log)
      case Ready(id) => Some(id)
      case Fail => Open(Front(log))
      case _ => None
  }

  /** A round begins only when none is open, ends only when one is, and times out only by its own timeout. */
  predicate Bracketed(log: seq<Entry>)
  {
    log == [] ||
    (Bracketed(Front(log)) &&
     match Last(log)
     case Ready(_) => Open(Front(log)).None?
     case Timeout(id, _) => Open(Front(log)) == Some(id)
     case Fail => true
     case _ => Open(Front(log)).Some?)
  }

  ghost predicate Named(es: seq<Event>) {
    forall k :: 0 <= k < |es| ==> (es[k].Start? ==> es[k].invoker != "") && (es[k].Skip? ==> es[k].user != "")
  }

  ghost predicate Consistent(s: State) {
    && !(s.block && s.initiated)
    && (s.pending.Some? ==> s.block && s.pending.value != "")
    && (s.initiated <==> s.invoker != "")
    && Open(s.log) == (if s.initiated then Some(s.id) else None)
    && Bracketed(s.log)
    && (s.initiated ==> s.id in s.timeouts)
  }

  lemma ConsistentStep(s: State, e: Event)
    requires Consistent(s) && Named([e])
    ensures Consistent(Next(s, e))
  {
    assert [e][0] == e;
    var t := Next(s, e);
    if t.log != s.log {
      assert t.log == s.log + [Last(t.log)];
      FrontLastOfAppend(s.log, Last(t.log));
    }
  }

  /** Over every interleaving: a channel is never loading and playing at once, and the rounds are well bracketed,
      a round being open exactly while the game is on. */
  lemma {:induction false} RoundsAreBracketed(es: seq<Event>)
    requires Named(es)
    ensures Consistent(After(Init(), es))
  {
    if es != [] {
      RoundsAreBracketed(Front(es));
      ConsistentStep(After(Init(), Front(es)), Last(es));
    }
  }

  /** In a bracketed log an ending belongs to the last round begun, with no other beginning or ending in between. */
  lemma {:induction false} OpenRoundBegan(log: seq<Entry>, id: int)
    requires Bracketed(log) && Open(log) == Some(id)
    ensures exists i :: 0 <= i < |log| && log[i] == Ready(id) && forall k :: i < k < |log| ==> log[k].Fail?
  {
    if Last(log).Ready? {
      assert log[|log| - 1] == Ready(id);
    } else {
      OpenRoundBegan(Front(log), id);
      var i :| 0 <= i < |Front(log)| && Front(log)[i] == Ready(id) && forall k :: i < k < |Front(log)| ==> Front(log)[k].Fail?;
      assert log[i] == Ready(id);
      forall k | i < k < |log| ensures log[k].Fail? {
        if k < |Front(log)| {
          assert Front(log)[k].Fail?;
        }
      }
    }
  }

  lemma {:induction false} BracketedPrefix(log: seq<Entry>, n: nat)
    requires Bracketed(log) && n <= |log|
    ensures Bracketed(log[..n])
  {
    if n < |log| {
      BracketedPrefix(Front(log), n);
      assert Front(log)[..n] == log[..n];
    } else {
      assert log[..n] == log;
    }
  }

  /** Time passes between two replies with a question. */
  ghost predicate ClockAdvances(es: seq<Event>) {
    forall j, k :: 0 <= j < k < |es| && es[j].Reply? && es[k].Reply? ==> es[j].now < es[k].now
  }

  ghost predicate ReadyIncreasing(log: seq<Entry>) {
    forall i, j :: 0 <= i < j < |log| && log[i].Ready? && log[j].Ready? ==> log[i].id < log[j].id
  }

  ghost predicate ReadyIsReply(log: seq<Entry>, es: seq<Event>) {
    forall i :: 0 <= i < |log| && log[i].Ready? ==> exists k :: 0 <= k < |es| && es[k] == Reply(log[i].id)
  }

  lemma ReadyKept(log: seq<Entry>, es: seq<Event>, e: Event)
    requires ReadyIsReply(log, es)
    ensures ReadyIsReply(log, es + [e])
  {
    forall i | 0 <= i < |log| && log[i].Ready?
      ensures exists k :: 0 <= k < |es + [e]| && (es + [e])[k] == Reply(log[i].id)
    {
      var k :| 0 <= k < |es| && es[k] == Reply(log[i].id);
      assert (es + [e])[k] == Reply(log[i].id);
    }
  }

  lemma ReadyAdded(log: seq<Entry>, es: seq<Event>, e: Event, x: Entry)
    requires ReadyIsReply(log, es) && ReadyIncreasing(log) && ClockAdvances(es + [e])
    requires x.Ready? ==> e == Reply(x.id)
    ensures ReadyIsReply(log + [x], es + [e]) && ReadyIncreasing(log + [x])
  {
    ReadyKept(log, es, e);
    assert (es + [e])[|es|] == e;
    if x.Ready? {
      forall i | 0 <= i < |log| && log[i].Ready? ensures log[i].id < x.id {
        var k :| 0 <= k < |es| && es[k] == Reply(log[i].id);
        assert (es + [e])[k] == es[k];
      }
    }
  }

  lemma LogStep(s: State, e: Event)
    ensures Next(s, e).log == s.log
         || (exists x :: Next(s, e).log == s.log + [x] && (x.Ready? ==> e == Reply(x.id)))
  {
  }

  lemma ReadyStep(s: State, es: seq<Event>, e: Event)
    requires ReadyIsReply(s.log, es) && ReadyIncreasing(s.log) && ClockAdvances(es + [e])
    ensures ReadyIncreasing(Next(s, e).log) && ReadyIsReply(Next(s, e).log, es + [e])
  {
    LogStep(s, e);
    if Next(s, e).log == s.log {
      ReadyKept(s.log, es, e);
    } else {
      var x :| Next(s, e).log == s.log + [x] && (x.Ready? ==> e == Reply(x.id));
      ReadyAdded(s.log, es, e, x);
    }
  }

  lemma {:induction false} ReadyIdsIncrease(es: seq<Event>)
    requires ClockAdvances(es)
    ensures ReadyIncreasing(After(Init(), es).log) && ReadyIsReply(After(Init(), es).log, es)
  {
    if es != [] {
      ReadyIdsIncrease(Front(es));
      assert es == Front(es) + [Last(es)];
      ReadyStep(After(Init(), Front(es)), Front(es), Last(es));
    }
  }

  /** Entry `i` begins the round that entry `j` ends: nothing but failed starts lies in between. */
  ghost predicate RoundOf(log: seq<Entry>, i: nat, j: nat, id: int) {
    i < j < |log| && log[i] == Ready(id) && forall k :: i < k < j ==> log[k].Fail?
  }

  /** A timeout ends the round whose ready event carries its id. If the clock advances between ready events no
      other round has that id: a timeout left over from an earlier round ends no later one. */
  lemma TimeoutEndsItsOwnRound(es: seq<Event>, j: nat)
    requires Named(es)
    requires var log := After(Init(), es).log; j < |log| && log[j].Timeout?
    ensures
      var log := After(Init(), es).log;
      exists i :: RoundOf(log, i, j, log[j].id)
                  && (ClockAdvances(es) ==> forall i' :: 0 <= i' < |log| && log[i'] == Ready(log[j].id) ==> i' == i)
  {
    RoundsAreBracketed(es);
    var log := After(Init(), es).log;
    BracketedPrefix(log, j + 1);
    assert Front(log[..j + 1]) == log[..j] && Last(log[..j + 1]) == log[j];
    OpenRoundBegan(log[..j], log[j].id);
    var i :| 0 <= i < j && log[..j][i] == Ready(log[j].id) && forall k :: i < k < j ==> log[..j][k].Fail?;
    assert log[i] == log[..j][i];
    assert forall k :: i < k < j ==> log[k] == log[..j][k];
    assert RoundOf(log, i, j, log[j].id);
    if ClockAdvances(es) {
      ReadyIdsIncrease(es);
    }
  }

  // --- Time ------------------------------------------------------------------------------------

  /** No timeout is overdue when the event happens. */
  ghost predicate Punctual(s: State, e: Event) {
    forall id :: id in s.timeouts ==> e.now <= id + ROUND_LIMIT
  }

  ghost predicate AllPunctual(es: seq<Event>) {
    es == [] || (AllPunctual(Front(es)) && Punctual(After(Init(), Front(es)), Last(es)))
  }

  lemma {:induction false} OpenOfRound(log: seq<Entry>, i: nat)
    requires i < |log| && log[i].Ready? && forall k :: i < k < |log| ==> log[k].Fail?
    ensures Open(log) == Some(log[i].id)
  {
    if i < |log| - 1 {
      OpenOfRound(Front(log), i);
    }
  }

  /** Every ending in the log comes within the limit of the beginning of its round. */
  ghost predicate Short(log: seq<Entry>) {
    forall i, j :: 0 <= i < j < |log| && log[i].Ready? && Ends(log[j]) && RoundOf(log, i, j, log[i].id) ==>
      log[j].now <= log[i].id + ROUND_LIMIT
  }

  lemma ShortAdded(log: seq<Entry>, x: Entry)
    requires Short(log)
    requires Ends(x) && Open(log).Some? ==> x.now <= Open(log).value + ROUND_LIMIT
    ensures Short(log + [x])
  {
    var longer := log + [x];
    forall i, j | 0 <= i < j < |longer| && longer[i].Ready? && Ends(longer[j]) && RoundOf(longer, i, j, longer[i].id)
      ensures longer[j].now <= longer[i].id + ROUND_LIMIT
    {
      assert longer[i] == log[i] && forall k :: i < k < j ==> longer[k] == log[k];
      if j < |log| {
        assert longer[j] == log[j] && RoundOf(log, i, j, log[i].id);
      } else {
        OpenOfRound(log, i);
      }
    }
  }

  lemma ShortStep(s: State, e: Event)
    requires Consistent(s) && Short(s.log) && Punctual(s, e)
    ensures Short(Next(s, e).log)
  {
    match e
    case Reply(now) =>
      ShortAdded(s.log, Ready(now));
    case ReplyError(_) =>
      ShortAdded(s.log, Fail);
    case Answer(user, _, now) =>
      ShortAdded(s.log, Complete(user, now));
    case Skip(_, now) =>
      ShortAdded(s.log, Skipped(now));
    case Fire(id, now) =>
      ShortAdded(s.log, Timeout(id, now));
    case _ =>
  }

  /** With punctual timers no round outlives the limit, and none is still open when anything happens later. */
  lemma {:induction false} NoRoundOutlivesItsLimit(es: seq<Event>)
    requires Named(es) && AllPunctual(es)
    ensures Short(After(Init(), es).log)
    ensures es != [] && After(Init(), Front(es)).initiated ==> Last(es).now <= After(Init(), Front(es)).id + ROUND_LIMIT
  {
    if es != [] {
      NoRoundOutlivesItsLimit(Front(es));
      RoundsAreBracketed(Front(es));
      ShortStep(After(Init(), Front(es)), Last(es));
    }
  }

  // --- Channels that never play again -----------------------------------------------------------

  /** A request under way has thrown, in making it or in decoding its answer. */
  predicate Threw(es: seq<Event>) {
    es != [] && (Threw(Front(es)) || (Last(es).ReplyThrows? && After(Init(), Front(es)).pending.Some?))
  }

  predicate Stuck(s: State) {
    s.block && s.pending.None?
  }

  lemma StuckStep(s: State, e: Event)
    requires s.pending.Some? ==> s.block
    ensures Stuck(Next(s, e)) <==> Stuck(s) || (e.ReplyThrows? && s.pending.Some?)
    ensures Next(s, e).pending.Some? ==> Next(s, e).block
  {
  }

  /** A channel is blocked without a request under way if and only if a request of it has thrown. */
  lemma {:induction false} StuckExactlyWhen(es: seq<Event>)
    ensures Stuck(After(Init(), es)) <==> Threw(es)
    ensures After(Init(), es).pending.Some? ==> After(Init(), es).block
  {
    if es != [] {
      StuckExactlyWhen(Front(es));
      StuckStep(After(Init(), Front(es)), Last(es));
    }
  }

  /** The events begin a round. */
  ghost predicate Begins(s: State, es: seq<Event>) {
    exists k :: |s.log| <= k < |After(s, es).log| && After(s, es).log[k].Ready?
  }

  /** The service call throwing leaves the channel blocked for good: no round ever begins again. */
  lemma {:induction false} ThrownReplyBlocksForever(s: State, es: seq<Event>)
    requires Stuck(s)
    ensures Stuck(After(s, es)) && !Begins(s, es)
    ensures |s.log| <= |After(s, es).log|
  {
    if es != [] {
      ThrownReplyBlocksForever(s, Front(es));
      assert !Begins(s, Front(es));
    }
  }

  /** The events come one after the other, the first later than `now`. */
  ghost predicate Later(es: seq<Event>, now: int) {
    && (forall k :: 0 <= k < |es| ==> now < es[k].now)
    && forall j, k :: 0 <= j < k < |es| ==> es[j].now < es[k].now
  }

  /** Some later events the program can receive begin a round. */
  ghost predicate CanPlay(s: State, now: int) {
    exists es :: Named(es) && Later(es, now) && Begins(s, es)
  }

  lemma AfterOne(s: State, e: Event)
    ensures After(s, [e]) == Next(s, e)
  {
    assert Front([e]) == [];
  }

  lemma AfterAppend(s: State, es: seq<Event>, e: Event)
    ensures After(s, es + [e]) == Next(After(s, es), e)
  {
    FrontLastOfAppend(es, e);
  }

  lemma BeginsByReply(s: State, es: seq<Event>, now: int)
    requires |s.log| <= |After(s, es).log| && After(s, es).pending.Some?
    ensures Begins(s, es + [Reply(now)])
  {
    AfterAppend(s, es, Reply(now));
    var log := After(s, es + [Reply(now)]).log;
    assert log[|log| - 1].Ready?;
  }

  /** A channel that is not stuck plays again: when its request is answered, or on a new start, the round going on
      having been won. */
  lemma PlaysAgain(s: State, now: int)
    requires (s.pending.Some? ==> s.block) && !Stuck(s)
    ensures CanPlay(s, now)
  {
    if s.pending.Some? {
      BeginsByReply(s, [], now + 1);
      assert [] + [Reply(now + 1)] == [Reply(now + 1)];
      assert Later([Reply(now + 1)], now) && Named([Reply(now + 1)]);
    } else if !s.initiated {
      var start := Start("a", now + 1);
      AfterOne(s, start);
      BeginsByReply(s, [start], now + 2);
      assert Later([start] + [Reply(now + 2)], now) && Named([start] + [Reply(now + 2)]);
    } else {
      var answer, start := Answer("a", true, now + 1), Start("a", now + 2);
      AfterOne(s, answer);
      AfterAppend(s, [answer], start);
      BeginsByReply(s, [answer] + [start], now + 3);
      assert Later([answer] + [start] + [Reply(now + 3)], now) && Named([answer] + [start] + [Reply(now + 3)]);
    }
  }

  /** In every reachable state and at any time: a round can begin later, on events with non-empty names, if and only if
      no request has thrown. */
  lemma PlaysAgainExactlyWhen(es: seq<Event>, now: int)
    ensures CanPlay(After(Init(), es), now) <==> !Threw(es)
  {
    StuckExactlyWhen(es);
    var s := After(Init(), es);
    if Stuck(s) {
      forall more: seq<Event> ensures !Begins(s, more) {
        ThrownReplyBlocksForever(s, more);
      }
    } else {
      PlaysAgain(s, now);
    }
  }

  /** For instance after one start whose request throws. */
  lemma OneThrowIsEnough(now: int)
    ensures !CanPlay(After(Init(), [Start("a", 0)] + [ReplyThrows(1)]), now)
  {
    AfterOne(Init(), Start("a", 0));
    FrontLastOfAppend([Start("a", 0)], ReplyThrows(1));
    PlaysAgainExactlyWhen([Start("a", 0)] + [ReplyThrows(1)], now);
  }
}
