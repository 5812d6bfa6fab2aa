/** Twitch drops a message equal to the previous one of its channel. Before sending, the
    Firehose changes a text that repeats the last one it sent to the channel. */
module RepeatEvasion {
  import opened Common
  import opened SchedulerModel
  import opened Texts

  function Variant(text: string): string {
    if EVASION in text then Strip(text) else text + " " + [EVASION]
  }

  /** A Go map yields the empty string for a channel that has no last message yet. */
  function LastText(last: map<string, string>, channel: string): string {
    if channel in last then last[channel] else ""
  }

  function Rewrite(last: map<string, string>, m: Message): Message {
    if LastText(last, m.channel) == m.text then m.(text := Variant(m.text)) else m
  }

  /** The last-message table after a stream of messages was rewritten and sent. */
  function LastAfter(last: map<string, string>, ms: seq<Message>): map<string, string> {
    if ms == [] then last
    else
      var l := LastAfter(last, Front(ms));
      l[Last(ms).channel := Rewrite(l, Last(ms)).text]
  }

  /** The stream of messages actually sent. */
  function RewriteAll(last: map<string, string>, ms: seq<Message>): (sent: seq<Message>)
    ensures |sent| == |ms|
  {
    if ms == [] then [] else RewriteAll(last, Front(ms)) + [Rewrite(LastAfter(last, Front(ms)), Last(ms))]
  }

  function OnChannel(ms: seq<Message>, channel: string): (r: seq<Message>)
    ensures forall k :: 0 <= k < |r| ==> r[k].channel == channel
  {
    if ms == [] then []
    else OnChannel(Front(ms), channel) + if Last(ms).channel == channel then [Last(ms)] else []
  }

  /** Evasion changes the text, and what a reader sees of it changes by at most one trailing space. */
  lemma VariantDiffers(text: string)
    ensures Variant(text) != text
    ensures Strip(Variant(text)) == Strip(text) || Strip(Variant(text)) == Strip(text) + " "
  {
    StripRemoves(text);
    if EVASION in text {
      StripRemoves(Strip(text));
    } else {
      StripOfAppend(text + " ", EVASION);
      StripOfAppend(text, ' ');
      assert Variant(text) == (text + " ") + [EVASION];
    }
  }

  /** `sent` is `asked` up to evasion characters and one trailing space. */
  predicate SameMessage(sent: Message, asked: Message) {
    && sent.channel == asked.channel
    && sent.replyTo == asked.replyTo
    && (Strip(sent.text) == Strip(asked.text) || Strip(sent.text) == Strip(asked.text) + " ")
  }

  /** What is sent, by the last text of the channel: another text is sent as it is; the same one with a space and a U+E0000
      behind it, or, if it contains any U+E0000, with all of them taken out and everything else in place. */
  lemma SentTextIs(last: map<string, string>, m: Message)
    ensures
      var sent := Rewrite(last, m).text;
      if m.text != (if m.channel in last then last[m.channel] else "") then sent == m.text
      else if '\U{E0000}' !in m.text then sent == m.text + [' ', '\U{E0000}']
      else sent == Visible(m.text) && '\U{E0000}' !in sent
  {
    StripIsVisible(m.text);
    StripRemoves(m.text);
    assert " " + [EVASION] == [' ', '\U{E0000}'];
    Associative(m.text, " ", [EVASION]);
  }

  lemma RewriteProperties(last: map<string, string>, m: Message)
    ensures Rewrite(last, m).text != LastText(last, m.channel)
    ensures SameMessage(Rewrite(last, m), m)
  {
    VariantDiffers(m.text);
  }

  function TextsOf(ms: seq<Message>): seq<string> {
    if ms == [] then [] else TextsOf(Front(ms)) + [Last(ms).text]
  }

  lemma TextsOfAppend(ms: seq<Message>, m: Message)
    ensures TextsOf(ms + [m]) == TextsOf(ms) + [m.text]
  {
    FrontLastOfAppend(ms, m);
  }

  lemma OnChannelAppend(ms: seq<Message>, m: Message, channel: string)
    ensures OnChannel(ms + [m], channel) == if m.channel == channel then OnChannel(ms, channel) + [m] else OnChannel(ms, channel)
  {
  }

  lemma RewriteAllAppend(last: map<string, string>, ms: seq<Message>, m: Message)
    ensures RewriteAll(last, ms + [m]) == RewriteAll(last, ms) + [Rewrite(LastAfter(last, ms), m)]
    ensures LastAfter(last, ms + [m]) == LastAfter(last, ms)[m.channel := Rewrite(LastAfter(last, ms), m).text]
  {
  }

  ghost predicate NeverRepeats(last: map<string, string>, ms: seq<Message>, channel: string) {
    var sent := OnChannel(RewriteAll(last, ms), channel);
    && NoRepeat(LastText(last, channel), TextsOf(sent))
    && LastText(LastAfter(last, ms), channel) == LastOr(LastText(last, channel), TextsOf(sent))
  }

  lemma NeverRepeatsAppend(last: map<string, string>, ms: seq<Message>, m: Message, channel: string)
    requires NeverRepeats(last, ms, channel)
    ensures NeverRepeats(last, ms + [m], channel)
  {
    var l := LastAfter(last, ms);
    RewriteAllAppend(last, ms, m);
    OnChannelAppend(RewriteAll(last, ms), Rewrite(l, m), channel);
    RewriteProperties(l, m);
    if m.channel == channel {
      var sent := OnChannel(RewriteAll(last, ms), channel);
      TextsOfAppend(sent, Rewrite(l, m));
      LastOrAppend(LastText(last, channel), TextsOf(sent), Rewrite(l, m).text);
      NoRepeatAppend(LastText(last, channel), TextsOf(sent), Rewrite(l, m).text);
    }
  }

  /** No message equals the one sent to its channel before it, however the channels interleave, and the table
      holds the last text of each channel. */
  lemma {:induction false} NeverTwiceInARow(last: map<string, string>, ms: seq<Message>, channel: string)
    ensures NeverRepeats(last, ms, channel)
  {
    if ms != [] {
      NeverTwiceInARow(last, Front(ms), channel);
      NeverRepeatsAppend(last, Front(ms), Last(ms), channel);
      assert ms == Front(ms) + [Last(ms)];
    }
  }

  ghost predicate Independent(last: map<string, string>, ms: seq<Message>, channel: string) {
    && OnChannel(RewriteAll(last, ms), channel) == RewriteAll(last, OnChannel(ms, channel))
    && LastText(LastAfter(last, ms), channel) == LastText(LastAfter(last, OnChannel(ms, channel)), channel)
  }

  lemma IndependentAppend(last: map<string, string>, ms: seq<Message>, m: Message, channel: string)
    requires Independent(last, ms, channel)
    ensures Independent(last, ms + [m], channel)
  {
    RewriteAllAppend(last, ms, m);
    OnChannelAppend(RewriteAll(last, ms), Rewrite(LastAfter(last, ms), m), channel);
    OnChannelAppend(ms, m, channel);
    RewriteAllAppend(last, OnChannel(ms, channel), m);
  }

  /** Channels do not influence one another: the stream of one channel is rewritten as if it were alone. */
  lemma {:induction false} ChannelsIndependent(last: map<string, string>, ms: seq<Message>, channel: string)
    ensures Independent(last, ms, channel)
  {
    if ms != [] {
      ChannelsIndependent(last, Front(ms), channel);
      IndependentAppend(last, Front(ms), Last(ms), channel);
      assert ms == Front(ms) + [Last(ms)];
    }
  }

  lemma {:induction false} FaithfulAt(last: map<string, string>, ms: seq<Message>, k: nat)
    requires k < |ms|
    ensures SameMessage(RewriteAll(last, ms)[k], ms[k])
  {
    var front, m := Front(ms), Last(ms);
    assert ms == front + [m];
    RewriteAllAppend(last, front, m);
    if k < |front| {
      FaithfulAt(last, front, k);
    } else {
      RewriteProperties(LastAfter(last, front), m);
    }
  }

  /** Rewriting keeps every message: same number, order, channels and replies, and the same text to the eye. */
  lemma RewritingIsFaithful(last: map<string, string>, ms: seq<Message>)
    ensures forall k :: 0 <= k < |ms| ==> SameMessage(RewriteAll(last, ms)[k], ms[k])
  {
    forall k | 0 <= k < |ms| ensures SameMessage(RewriteAll(last, ms)[k], ms[k]) {
      FaithfulAt(last, ms, k);
    }
  }

  function Alternate(m: Message, k: nat): Message {
    if k % 2 == 0 then m else m.(text := Variant(m.text))
  }

  function Alternating(m: Message, n: nat): (r: seq<Message>)
    ensures |r| == n
    ensures forall k :: 0 <= k < n ==> r[k] == Alternate(m, k)
  {
    if n == 0 then [] else Alternating(m, n - 1) + [Alternate(m, n - 1)]
  }

  lemma RewriteAlternates(last: map<string, string>, m: Message, k: nat)
    requires if k == 0 then LastText(last, m.channel) != m.text
             else LastText(last, m.channel) == Alternate(m, k - 1).text
    ensures Rewrite(last, m) == Alternate(m, k)
  {
  }

  lemma LastTextUpdate(last: map<string, string>, channel: string, text: string)
    ensures LastText(last[channel := text], channel) == text
  {
  }

  /** Sending one text over and over alternates between the text and its variant. */
  lemma {:induction false} RepeatsAlternate(last: map<string, string>, m: Message, n: nat)
    requires LastText(last, m.channel) != m.text
    ensures RewriteAll(last, Repeated(m, n)) == Alternating(m, n)
    ensures n > 0 ==> LastText(LastAfter(last, Repeated(m, n)), m.channel) == Alternate(m, n - 1).text
  {
    if n > 0 {
      var before := Repeated(m, n - 1);
      var l := LastAfter(last, before);
      RepeatsAlternate(last, m, n - 1);
      RewriteAlternates(l, m, n - 1);
      RewriteAllAppend(last, before, m);
      LastTextUpdate(l, m.channel, Alternate(m, n - 1).text);
    }
  }
}
