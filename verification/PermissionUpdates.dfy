/** How a user-state message of the bot moves the permission of a channel. */
module PermissionUpdates {
  import opened Common
  import opened Permissions

  datatype Badges = Badges(broadcaster: bool, moderator: bool, vip: bool)

  /** The permission the handler sets, if any, for a schedule whose interval is `current`. */
  function Decide(badges: Badges, current: int): Option<int> {
    if badges.broadcaster && current != BOT then Some(BOT)
    else if badges.moderator && current != MODERATOR then Some(MODERATOR)
    else if badges.vip && current != VIP then Some(VIP)
    else if current != READ && current != WRITE && !badges.vip && !badges.moderator && !badges.broadcaster
    then Some(WRITE)
    else None
  }

  /** The permission the badges stand for: the highest one wins, and without a badge a channel is in Write
      mode unless it was put in Read mode. */
  function Entitled(badges: Badges, current: int): int {
    if badges.broadcaster then BOT
    else if badges.moderator then MODERATOR
    else if badges.vip then VIP
    else if current == READ then READ
    else WRITE
  }

  predicate AtMostOneBadge(badges: Badges) {
    && !(badges.broadcaster && badges.moderator)
    && !(badges.broadcaster && badges.vip)
    && !(badges.moderator && badges.vip)
  }

  function Settled(badges: Badges, current: int): int {
    match Decide(badges, current)
    case Some(p) => p
    case None => current
  }

  /** The handler reaches the permission the badges stand for, except when the channel already has it and the
      message carries a second badge: then it moves away from it. */
  lemma ConvergesExactlyWhen(badges: Badges, current: int)
    ensures Settled(badges, current) == Entitled(badges, current)
       <==> (current == Entitled(badges, current) ==> AtMostOneBadge(badges))
    ensures Entitled(badges, current) == if badges.broadcaster then 4
                                         else if badges.moderator then 3
                                         else if badges.vip then 2
                                         else if current == 0 then 0
                                         else 1
  {
  }

  /** One channel: its database row, its scheduler interval and the number of updates written. */
  datatype ChannelState = ChannelState(stored: int, interval: int, writes: nat)

  datatype UserState = UserState(badges: Badges, updateSucceeds: bool)

  function Handle(s: ChannelState, m: UserState): ChannelState {
    match Decide(m.badges, s.interval)
    case None => s
    case Some(p) => if m.updateSucceeds then ChannelState(p, p, s.writes + 1) else s
  }

  function HandleAll(s: ChannelState, ms: seq<UserState>): ChannelState {
    if ms == [] then s else Handle(HandleAll(s, Front(ms)), Last(ms))
  }

  /** Whatever the messages and whichever updates fail: the row and the interval stay equal, and a channel
      that is not in Read mode never gets there. */
  lemma {:induction false} RowFollowsInterval(s: ChannelState, ms: seq<UserState>)
    ensures s.stored == s.interval ==> HandleAll(s, ms).stored == HandleAll(s, ms).interval
    ensures s.interval != READ ==> HandleAll(s, ms).interval != READ
    ensures s.interval == READ && HandleAll(s, ms).interval == READ ==> HandleAll(s, ms) == s
  {
    if ms != [] {
      RowFollowsInterval(s, Front(ms));
    }
  }

  /** After any history, a message with at most one badge whose update succeeds leaves both at that badge's
      permission. */
  lemma LastMessageDecides(s: ChannelState, ms: seq<UserState>)
    requires ms != [] && AtMostOneBadge(Last(ms).badges) && Last(ms).updateSucceeds
    ensures HandleAll(s, ms).interval == Entitled(Last(ms).badges, HandleAll(s, Front(ms)).interval)
  {
  }

  lemma HandleRepeated(s: ChannelState, m: UserState, n: nat)
    ensures HandleAll(s, Repeated(m, n + 1)) == Handle(HandleAll(s, Repeated(m, n)), m)
  {
    FrontLastOfAppend(Repeated(m, n), m);
  }

  lemma HandleStep(s: ChannelState, badges: Badges)
    ensures
      var t := Handle(s, UserState(badges, true));
      && (AtMostOneBadge(badges) ==> t.interval == Entitled(badges, s.interval))
      && (AtMostOneBadge(badges) && s.interval == Entitled(badges, s.interval) ==> t == s)
      && (!AtMostOneBadge(badges) ==> t.writes == s.writes + 1)
      && t.writes <= s.writes + 1
  {
  }

  lemma EntitledOnce(badges: Badges, current: int)
    ensures Entitled(badges, Entitled(badges, current)) == Entitled(badges, current)
  {
  }

  /** Repeating a message settles after one write if it has at most one badge; with several badges every
      repetition writes, for ever. */
  lemma {:induction false} RepeatedMessage(s: ChannelState, badges: Badges, n: nat)
    ensures
      var t := HandleAll(s, Repeated(UserState(badges, true), n));
      && (AtMostOneBadge(badges) ==> t.writes <= s.writes + 1)
      && (AtMostOneBadge(badges) && n > 0 ==> t.interval == Entitled(badges, s.interval))
      && (!AtMostOneBadge(badges) ==> t.writes == s.writes + n)
      && (n == 0 ==> t == s)
  {
    if n > 0 {
      var m := UserState(badges, true);
      RepeatedMessage(s, badges, n - 1);
      HandleRepeated(s, m, n - 1);
      HandleStep(HandleAll(s, Repeated(m, n - 1)), badges);
      EntitledOnce(badges, s.interval);
    }
  }

  /** With several badges, the permission the handler moves to from the one they stand for. */
  function Rival(badges: Badges): int {
    if badges.broadcaster && badges.moderator then MODERATOR else VIP
  }

  function Alternating(a: int, b: int, n: nat): int {
    if n % 2 == 0 then a else b
  }

  lemma RivalDiffers(badges: Badges, current: int)
    requires !AtMostOneBadge(badges)
    ensures Rival(badges) != Entitled(badges, current)
  {
  }

  lemma FlapStep(t: ChannelState, badges: Badges, top: int, n: nat)
    requires !AtMostOneBadge(badges) && top == Entitled(badges, top)
    requires t.interval == Alternating(top, Rival(badges), n)
    ensures Handle(t, UserState(badges, true)).interval == Alternating(top, Rival(badges), n + 1)
  {
    if n % 2 == 0 {
      assert (n + 1) % 2 == 1;
    } else {
      assert (n + 1) % 2 == 0;
    }
  }

  /** Repeating a message with several badges flaps for ever, with period two, between the permission they stand for
      and its rival. */
  lemma {:induction false} SeveralBadgesFlap(s: ChannelState, badges: Badges, n: nat)
    requires !AtMostOneBadge(badges) && s.interval == Entitled(badges, s.interval)
    ensures HandleAll(s, Repeated(UserState(badges, true), n)).interval == Alternating(s.interval, Rival(badges), n)
    ensures Rival(badges) != s.interval
  {
    RivalDiffers(badges, s.interval);
    if n > 0 {
      var m := UserState(badges, true);
      SeveralBadgesFlap(s, badges, n - 1);
      HandleRepeated(s, m, n - 1);
      FlapStep(HandleAll(s, Repeated(m, n - 1)), badges, s.interval, n - 1);
    }
  }
}
