/** Text operations both programs use: the invisible evasion character, and splitting into words. */
module Texts {
  import opened Common

  /** U+E0000, which chat clients do not show. */
  const EVASION: char := '\U{E0000}'

  /** The text with every evasion character removed. */
  function Strip(text: string): string {
    if text == "" then ""
    else Strip(Front(text)) + if Last(text) == EVASION then "" else [Last(text)]
  }

  lemma {:induction false} StripRemoves(text: string)
    ensures EVASION !in Strip(text)
    ensures EVASION !in text <==> Strip(text) == text
  {
    if text != "" {
      StripRemoves(Front(text));
      assert text == Front(text) + [Last(text)];
    }
  }

  lemma StripOfAppend(text: string, c: char)
    ensures Strip(text + [c]) == Strip(text) + if c == EVASION then "" else [c]
  {
  }

  lemma {:induction false} StripConcat(a: string, b: string)
    ensures Strip(a + b) == Strip(a) + Strip(b)
  {
    if b == "" {
      assert a + b == a;
    } else {
      StripConcat(a, Front(b));
      StripOfAppend(a + Front(b), Last(b));
      assert a + b == (a + Front(b)) + [Last(b)];
      Associative(Strip(a), Strip(Front(b)), if Last(b) == EVASION then "" else [Last(b)]);
    }
  }

  /** The characters other than U+E0000, read from the front. */
  function Visible(text: string): string {
    if text == "" then "" else (if text[0] == '\U{E0000}' then "" else [text[0]]) + Visible(text[1..])
  }

  lemma {:induction false} StripIsVisible(text: string)
    ensures Strip(text) == Visible(text)
  {
    if text != "" {
      StripIsVisible(text[1..]);
      StripConcat([text[0]], text[1..]);
      StripOfAppend("", text[0]);
      assert [text[0]] + text[1..] == text && "" + [text[0]] == [text[0]];
    }
  }

  function Join(words: seq<string>): string {
    if words == [] then "" else if |words| == 1 then words[0] else words[0] + " " + Join(words[1..])
  }

  lemma {:induction false} JoinLast(words: seq<string>, c: char)
    requires words != []
    ensures Join(words[..|words| - 1] + [words[|words| - 1] + [c]]) == Join(words) + [c]
  {
    var longer := words[..|words| - 1] + [words[|words| - 1] + [c]];
    if |words| > 1 {
      JoinLast(words[1..], c);
      assert longer[1..] == words[1..][..|words| - 2] + [words[|words| - 1] + [c]];
    }
  }

  lemma JoinFirst(c: char, words: seq<string>)
    requires words != []
    ensures Join([[c] + words[0]] + words[1..]) == [c] + Join(words)
  {
    var longer := [[c] + words[0]] + words[1..];
    assert longer[1..] == words[1..];
    if |words| > 1 {
      assert ([c] + words[0]) + " " + Join(words[1..]) == [c] + (words[0] + " " + Join(words[1..]));
    }
  }

  /** `text.split(' ')`. */
  function Split(text: string): (words: seq<string>)
    ensures words != []
  {
    if text == "" then [""]
    else if text[0] == ' ' then [""] + Split(text[1..])
    else
      var words := Split(text[1..]);
      [[text[0]] + words[0]] + words[1..]
  }

  lemma {:induction false} JoinSplit(text: string)
    ensures Join(Split(text)) == text
  {
    if text != "" {
      var words := Split(text[1..]);
      JoinSplit(text[1..]);
      if text[0] == ' ' {
        assert ([""] + words)[1..] == words;
        assert Join([""] + words) == "" + " " + Join(words);
        assert text == " " + text[1..];
      } else {
        JoinFirst(text[0], words);
      }
    }
  }

  lemma {:induction false} SplitHasNoSpaces(text: string)
    ensures forall k :: 0 <= k < |Split(text)| ==> ' ' !in Split(text)[k]
  {
    if text != "" {
      SplitHasNoSpaces(text[1..]);
    }
  }

  lemma {:induction false} SplitOfWord(word: string, rest: string)
    requires ' ' !in word
    ensures Split(word) == [word]
    ensures Split(word + " " + rest) == [word] + Split(rest)
  {
    if word == "" {
      assert (word + " " + rest)[1..] == rest;
    } else {
      SplitOfWord(word[1..], rest);
      assert [word[0]] + word[1..] == word;
      assert (word + " " + rest)[1..] == word[1..] + " " + rest;
    }
  }

  lemma {:induction false} SplitJoin(words: seq<string>)
    requires words != [] && forall k :: 0 <= k < |words| ==> ' ' !in words[k]
    ensures Split(Join(words)) == words
  {
    if |words| == 1 {
      SplitOfWord(words[0], "");
    } else {
      SplitOfWord(words[0], Join(words[1..]));
      SplitJoin(words[1..]);
    }
  }

  /** A text is cut in one way only where characters of a kind end. */
  lemma CutOnce(a: string, x: string, b: string, y: string, kind: char -> bool)
    requires a + x == b + y
    requires (forall c :: c in a ==> kind(c)) && (forall c :: c in b ==> kind(c))
    requires (x == "" || !kind(x[0])) && (y == "" || !kind(y[0]))
    ensures a == b && x == y
  {
    var s, t := a + x, b + y;
    assert x != "" ==> s[|a|] == x[0];
    assert y != "" ==> t[|b|] == y[0];
    assert forall i :: 0 <= i < |a| ==> s[i] == a[i] && a[i] in a;
    assert forall i :: 0 <= i < |b| ==> t[i] == b[i] && b[i] in b;
    assert |a| == |b|;
    assert a == s[..|a|] && x == s[|a|..];
    assert b == t[..|b|] && y == t[|b|..];
  }

  // --- Streams of texts ------------------------------------------------------------------------

  function LastOr(previous: string, texts: seq<string>): string {
    if texts == [] then previous else Last(texts)
  }

  lemma LastOrAppend(previous: string, texts: seq<string>, text: string)
    ensures LastOr(previous, texts + [text]) == text
  {
  }

  /** No text equals the one before it, the first one not `previous`. */
  predicate NoRepeat(previous: string, texts: seq<string>) {
    && (texts != [] ==> texts[0] != previous)
    && forall k :: 0 < k < |texts| ==> texts[k] != texts[k - 1]
  }

  lemma NoRepeatAppend(previous: string, texts: seq<string>, text: string)
    requires NoRepeat(previous, texts) && text != LastOr(previous, texts)
    ensures NoRepeat(previous, texts + [text])
  {
  }

  // --- Numbers ---------------------------------------------------------------------------------

  function Decimal(n: nat): string {
    if n < 10 then ["0123456789"[n]] else Decimal(n / 10) + ["0123456789"[n % 10]]
  }

  predicate Digits(s: string) {
    forall k :: 0 <= k < |s| ==> '0' <= s[k] <= '9'
  }

  lemma {:induction false} DecimalIsDigits(n: nat)
    ensures Decimal(n) != "" && Digits(Decimal(n))
  {
    if n >= 10 {
      DecimalIsDigits(n / 10);
    }
  }

  lemma {:induction false} DecimalInjective(m: nat, n: nat)
    requires Decimal(m) == Decimal(n)
    ensures m == n
  {
    var s, t := Decimal(m), Decimal(n);
    assert s[|s| - 1] == "0123456789"[m % 10] && t[|t| - 1] == "0123456789"[n % 10];
    assert m % 10 == n % 10;
    DecimalIsDigits(m / 10);
    DecimalIsDigits(n / 10);
    if m >= 10 && n >= 10 {
      assert Decimal(m / 10) == s[..|s| - 1] == t[..|t| - 1] == Decimal(n / 10);
      DecimalInjective(m / 10, n / 10);
    }
  }
}
