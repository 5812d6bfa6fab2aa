/** Hiding user names in a message, so that naming a user does not notify them. */
module Unping {
  import opened Common
  import opened Texts

  /** The characters of `/[@#.,:;?!.,:;\s]/`. */
  predicate IsMark(c: char) {
    c in "@#.,:;?! \t\n\r" || c in "\U{000B}\U{000C}\U{00A0}\U{1680}\U{2028}\U{2029}\U{202F}\U{205F}\U{3000}\U{FEFF}"
    || '\U{2000}' <= c <= '\U{200A}'
  }

  function Bare(word: string): string {
    if word == "" then "" else (if IsMark(word[0]) then "" else [word[0]]) + Bare(word[1..])
  }

  /** The first character of an empty string is the word undefined. */
  function UnpingUser(user: string): string {
    if user == "" then "undefined" + [EVASION] else user[..1] + [EVASION] + user[1..]
  }

  function UnpingWord(users: seq<string>, word: string, lower: string -> string): string {
    if lower(Bare(word)) in users then UnpingUser(word) else word
  }

  function UnpingWords(users: seq<string>, words: seq<string>, lower: string -> string): (r: seq<string>)
    ensures |r| == |words|
    ensures forall k :: 0 <= k < |words| ==> r[k] == UnpingWord(users, words[k], lower)
  {
    if words == [] then [] else [UnpingWord(users, words[0], lower)] + UnpingWords(users, words[1..], lower)
  }

  /** `lower` is `toLowerCase`. */
  function Unping(users: seq<string>, message: string, lower: string -> string): string {
    Join(UnpingWords(users, Split(message), lower))
  }

  lemma StripUnpingUser(user: string)
    requires user != ""
    ensures Strip(UnpingUser(user)) == Strip(user)
  {
    assert UnpingUser(user) == (user[..1] + [EVASION]) + user[1..];
    assert user == user[..1] + user[1..];
    StripConcat(user[..1] + [EVASION], user[1..]);
    StripOfAppend(user[..1], EVASION);
    StripConcat(user[..1], user[1..]);
    assert Strip(user[..1]) + "" == Strip(user[..1]);
  }

  /** A word an empty user name turns into the word undefined. */
  predicate Spoilt(users: seq<string>, word: string) {
    word == "" && "" in users
  }

  lemma StripUnpingWord(users: seq<string>, word: string, lower: string -> string)
    requires lower("") == ""
    ensures !Spoilt(users, word) ==> Strip(UnpingWord(users, word, lower)) == Strip(word)
    ensures Spoilt(users, word) ==> |Strip(UnpingWord(users, word, lower))| > |Strip(word)|
  {
    if word == "" {
      if "" in users {
        StripOfAppend("undefined", EVASION);
        StripRemoves("undefined");
      }
    } else if lower(Bare(word)) in users {
      StripUnpingUser(word);
    }
  }

  lemma StripJoined(word: string, rest: string)
    ensures Strip(word + " " + rest) == Strip(word) + " " + Strip(rest)
  {
    StripConcat(word + " ", rest);
    StripOfAppend(word, ' ');
  }

  /** Hiding names in a list of words shows nothing new, except for each spoilt word. */
  lemma {:induction false} StripUnpingWords(users: seq<string>, words: seq<string>, lower: string -> string)
    requires lower("") == ""
    ensures
      var hidden, shown := Strip(Join(UnpingWords(users, words, lower))), Strip(Join(words));
      && |hidden| >= |shown|
      && ((forall k :: 0 <= k < |words| ==> !Spoilt(users, words[k])) ==> hidden == shown)
      && ((exists k :: 0 <= k < |words| && Spoilt(users, words[k])) ==> |hidden| > |shown|)
  {
    if words != [] {
      StripUnpingWord(users, words[0], lower);
      if |words| > 1 {
        StripUnpingWords(users, words[1..], lower);
        StripJoined(words[0], Join(words[1..]));
        StripJoined(UnpingWord(users, words[0], lower), Join(UnpingWords(users, words[1..], lower)));
        assert UnpingWords(users, words, lower)[1..] == UnpingWords(users, words[1..], lower);
        assert forall k :: 0 < k < |words| ==> words[k] == words[1..][k - 1];
      }
    }
  }

  /** Hiding names is undone by deleting the evasion characters, for every message and every list of names, except
      when an empty name is in the list and an empty word in the message. */
  lemma ReversibleExactlyWhen(users: seq<string>, message: string, lower: string -> string)
    requires lower("") == ""
    ensures Strip(Unping(users, message, lower)) == Strip(message) <==> !("" in users && "" in Split(message))
    ensures EVASION !in message && "" !in users ==> Strip(Unping(users, message, lower)) == message
  {
    var words := Split(message);
    JoinSplit(message);
    StripUnpingWords(users, words, lower);
    StripRemoves(message);
    if "" in users && "" in words {
      var k :| 0 <= k < |words| && words[k] == "";
      assert Spoilt(users, words[k]);
    }
  }

  lemma UnpingWordHasNoSpace(users: seq<string>, word: string, lower: string -> string)
    requires ' ' !in word
    ensures ' ' !in UnpingWord(users, word, lower)
  {
  }

  /** The words stay words: as many as before, in their places, each as it was or with one character hidden in it. */
  lemma WordsStayWords(users: seq<string>, message: string, lower: string -> string)
    ensures Split(Unping(users, message, lower)) == UnpingWords(users, Split(message), lower)
    ensures |Split(Unping(users, message, lower))| == |Split(message)|
  {
    var words := Split(message);
    SplitHasNoSpaces(message);
    forall k | 0 <= k < |words| ensures ' ' !in UnpingWords(users, words, lower)[k] {
      UnpingWordHasNoSpace(users, words[k], lower);
    }
    SplitJoin(UnpingWords(users, words, lower));
  }

  // --- Which names are hidden --------------------------------------------------------------------

  /** The characters of Twitch user names. */
  predicate IsNameCharacter(c: char) {
    'a' <= c <= 'z' || 'A' <= c <= 'Z' || '0' <= c <= '9' || c == '_'
  }

  predicate IsName(name: string) {
    forall k :: 0 <= k < |name| ==> IsNameCharacter(name[k])
  }

  lemma NoNameIsMarked(c: char)
    requires IsNameCharacter(c)
    ensures !IsMark(c)
  {
    assert 'A' as int == 65 && 'z' as int == 122;
  }

  predicate OnlyMarks(text: string) {
    forall k :: 0 <= k < |text| ==> text[k] in "@#.,:;?!"
  }

  lemma {:induction false} BareConcat(a: string, b: string)
    ensures Bare(a + b) == Bare(a) + Bare(b)
  {
    if a == "" {
      assert a + b == b;
    } else {
      BareConcat(a[1..], b);
      assert (a + b)[1..] == a[1..] + b;
      Associative(if IsMark(a[0]) then "" else [a[0]], Bare(a[1..]), Bare(b));
    }
  }

  lemma {:induction false} BareOfMarks(text: string)
    requires OnlyMarks(text)
    ensures Bare(text) == ""
  {
    if text != "" {
      BareOfMarks(text[1..]);
    }
  }

  lemma {:induction false} BareOfName(name: string)
    requires IsName(name)
    ensures Bare(name) == name
  {
    if name != "" {
      assert IsNameCharacter(name[0]);
      NoNameIsMarked(name[0]);
      BareOfName(name[1..]);
      assert name == [name[0]] + name[1..];
    }
  }

  lemma BareOfMarked(before: string, name: string, after: string)
    requires OnlyMarks(before) && IsName(name) && OnlyMarks(after)
    ensures Bare(before + name + after) == name
  {
    BareConcat(before + name, after);
    BareConcat(before, name);
    BareOfMarks(before);
    BareOfMarks(after);
    BareOfName(name);
    assert "" + name == name && name + "" == name;
  }

  /** A word whose bare lower-case form is a user's name comes back with a U+E0000 behind its first character, and every other
      word comes back as it was. */
  lemma NamesAreHidden(users: seq<string>, message: string, lower: string -> string, k: nat)
    requires k < |Split(message)| && Split(message)[k] != ""
    ensures
      var words, word := Split(Unping(users, message, lower)), Split(message)[k];
      && |words| == |Split(message)|
      && words[k] == if lower(Bare(word)) in users then [word[0], '\U{E0000}'] + word[1..] else word
  {
    WordsStayWords(users, message, lower);
    var word := Split(message)[k];
    assert word[..1] + [EVASION] == [word[0], '\U{E0000}'];
  }

  /** In particular a name with marks around it is found. */
  lemma MarkedNamesAreHidden(users: seq<string>, message: string, lower: string -> string, k: nat, before: string, name: string,
                             after: string)
    requires k < |Split(message)| && Split(message)[k] == before + name + after && Split(message)[k] != ""
    requires OnlyMarks(before) && IsName(name) && OnlyMarks(after)
    ensures
      var words, word := Split(Unping(users, message, lower)), Split(message)[k];
      && |words| == |Split(message)|
      && words[k] == if lower(name) in users then [word[0], '\U{E0000}'] + word[1..] else word
  {
    NamesAreHidden(users, message, lower, k);
    BareOfMarked(before, name, after);
  }
}
