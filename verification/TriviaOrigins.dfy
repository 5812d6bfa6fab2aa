/** Why each entry of a trivia log is there: which event made it, in what state, and what every event does to the round. */
module TriviaOrigins {
  import opened Common
  import opened Trivia

  /** The state of a new controller after the first `k` events. */
  function At(es: seq<Event>, k: nat): State
    requires k <= |es|
  {
    After(Init(), es[..k])
  }

  lemma NextAt(es: seq<Event>, k: nat)
    requires k < |es|
    ensures At(es, k + 1) == Next(At(es, k), es[k])
  {
    assert Front(es[..k + 1]) == es[..k] && Last(es[..k + 1]) == es[k];
  }

  lemma NamedPrefix(es: seq<Event>, k: nat)
    requires Named(es) && k <= |es|
    ensures Consistent(At(es, k))
  {
    RoundsAreBracketed(es[..k]);
  }

  // --- Where an entry comes from ---------------------------------------------------------------

  /** The event, happening in the state, is what the entry reports. */
  predicate Reports(x: Entry, s: State, e: Event) {
    match x
    case Ready(id) => s.pending.Some? && e == Reply(id)
    case Complete(user, now) => s.initiated && e == Answer(user, true, now)
    case Skipped(now) => s.initiated && e == Skip(s.invoker, now)
    case Timeout(id, now) => s.initiated && s.id == id && e == Fire(id, now)
    case Fail => s.pending.Some? && e.ReplyError?
  }

  lemma EntryStep(s: State, e: Event)
    requires Consistent(s) && (e.Skip? ==> e.user != "")
    ensures Next(s, e).log == s.log || (exists x :: Next(s, e).log == s.log + [x] && Reports(x, s, e))
  {
    if e.Skip? && s.invoker == e.user {
      assert Reports(Skipped(e.now), s, e);
    }
  }

  /** Every entry of the log reports one event of the run: the answer of that user, similar enough, to the round then open;
      the skip by the one who started it; the timeout of that round; the reply to a request under way. */
  lemma {:induction false} EveryEntryReports(es: seq<Event>, j: nat)
    requires Named(es) && j < |After(Init(), es).log|
    ensures exists k :: 0 <= k < |es| && |At(es, k).log| == j && Reports(After(Init(), es).log[j], At(es, k), es[k])
  {
    if es != [] {
      var front, e := Front(es), Last(es);
      var s := After(Init(), front);
      RoundsAreBracketed(front);
      EntryStep(s, e);
      assert es[..|front|] == front;
      if j < |s.log| {
        EveryEntryReports(front, j);
        var k :| 0 <= k < |front| && |At(front, k).log| == j && Reports(s.log[j], At(front, k), front[k]);
        assert es[..k] == front[..k] && es[k] == front[k];
        assert |At(es, k).log| == j;
      } else {
        assert |At(es, |front|).log| == j;
      }
    }
  }

  // --- What an event does ----------------------------------------------------------------------

  /** While a round is on, a similar answer ends it and names its author the winner; any other answer changes nothing. */
  lemma AnswersDecide(es: seq<Event>, k: nat)
    requires k < |es| && es[k].Answer?
    ensures
      var s, t := At(es, k), At(es, k + 1);
      if s.initiated && es[k].similar
      then t.log == s.log + [Complete(es[k].user, es[k].now)] && !t.initiated && t.block == s.block && t.pending == s.pending
      else t == s
  {
    NextAt(es, k);
  }

  /** While a round is on, the one who started it skips it; anyone else's skip changes nothing. */
  lemma SkipsDecide(es: seq<Event>, k: nat)
    requires Named(es) && k < |es| && es[k].Skip?
    ensures
      var s, t := At(es, k), At(es, k + 1);
      if s.initiated && s.invoker == es[k].user
      then t.log == s.log + [Skipped(es[k].now)] && !t.initiated && t.block == s.block && t.pending == s.pending
      else t == s
  {
    NextAt(es, k);
    NamedPrefix(es, k);
  }

  /** The timeout of the round that is on ends it; one of an earlier round is only used up. */
  lemma TimeoutsDecide(es: seq<Event>, k: nat)
    requires k < |es| && es[k].Fire? && es[k].id in At(es, k).timeouts
    ensures
      var s, t := At(es, k), At(es, k + 1);
      && t.timeouts == s.timeouts - multiset{es[k].id}
      && if s.initiated && s.id == es[k].id
         then t.log == s.log + [Timeout(es[k].id, es[k].now)] && !t.initiated
         else t == s.(timeouts := t.timeouts)
  {
    NextAt(es, k);
  }

  /** A request under way ends in a round of its own, in a failure, or in silence, and only the silence keeps the channel
      blocked. */
  lemma RepliesDecide(es: seq<Event>, k: nat)
    requires k < |es| && At(es, k).pending.Some?
    ensures
      var s, t := At(es, k), At(es, k + 1);
      match es[k]
      case Reply(now) =>
        && t.log == s.log + [Ready(now)] && t.initiated && t.id == now && t.invoker == s.pending.value
        && !t.block && t.pending == None && t.timeouts == s.timeouts + multiset{now}
      case ReplyError(_) => t.log == s.log + [Fail] && t.initiated == s.initiated && !t.block && t.pending == None
      case ReplyThrows(_) => t == s.(pending := None)
      case _ => t.pending == s.pending
  {
    NextAt(es, k);
    StuckExactlyWhen(es[..k]);
  }

  /** A start makes a request in its invoker's name unless the channel is loading or playing. */
  lemma StartsDecide(es: seq<Event>, k: nat)
    requires k < |es| && es[k].Start?
    ensures
      var s, t := At(es, k), At(es, k + 1);
      t == if s.block || s.initiated then s else s.(block := true, pending := Some(es[k].invoker))
  {
    NextAt(es, k);
  }

  /** Who made the last start that was accepted. */
  function LastStarter(es: seq<Event>): Option<string> {
    if es == [] then None
    else
      var s := After(Init(), Front(es));
      if Last(es).Start? && !s.block && !s.initiated then Some(Last(es).invoker) else LastStarter(Front(es))
  }

  /** The request under way and the round that is on belong to the one whose start was accepted last. */
  lemma {:induction false} RoundsBelongToTheirStarter(es: seq<Event>)
    requires Named(es)
    ensures After(Init(), es).pending.Some? ==> After(Init(), es).pending == LastStarter(es)
    ensures After(Init(), es).initiated ==> Some(After(Init(), es).invoker) == LastStarter(es)
  {
    if es != [] {
      RoundsBelongToTheirStarter(Front(es));
      RoundsAreBracketed(Front(es));
      var e := Last(es);
      assert es[|es| - 1] == e;
    }
  }
}
