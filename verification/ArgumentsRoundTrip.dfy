/** Printing a list of items in the documented syntax and parsing the result: when it comes back, and what happens
    to lines that break off. */
module ArgumentsRoundTrip {
  import opened Common
  import opened Texts
  import opened Arguments
  import opened ArgumentsAccounting
  import opened ArgumentsItems
  import opened ArgumentsDamage
  import opened ArgumentsScan

  /** The line gives back its words and its values, the last writer of a name winning. */
  predicate ComesBack(items: seq<Item>, params: seq<Param>) {
    Parse(RenderOnto(items, []), params) == Parsed(Words(items), StoreAll(Defaults(params), items))
  }

  /** Each value is read by the parameter it was written for, in order. */
  predicate ReadAsWritten(items: seq<Item>, params: seq<Param>) {
    ReadFrom(RenderOnto(items, []), 0, params) == Taken(items)
  }

  lemma {:induction false} WordsAreFree(items: seq<Item>, params: seq<Param>)
    requires AllProper(params, items)
    ensures !NamesParameter(Words(items), params)
  {
    if items != [] {
      assert Proper(params, items[0]);
      WordsAreFree(items[1..], params);
      if items[0].Word? {
        HeadTail(items[0].word, Words(items[1..]));
      }
    }
  }

  lemma ReachedComesBack(r: ParseResult, readings: seq<Consumed>, items: seq<Item>, outcome: Outcome, pre': seq<string>,
                         values': map<string, Value>, params: seq<Param>)
    requires AllProper(params, items) && outcome.Reached?
    requires Follows(r, readings, [], items, [], Defaults(params), outcome, pre', values', params)
    ensures readings == Taken(items)
    ensures r == Parsed(Words(items), StoreAll(Defaults(params), items)) <==> Cleared(outcome)
  {
    assert pre' + [] == pre' && [] + Words(items) == Words(items) && Taken(items) + [] == Taken(items);
    SelectNothing(pre', params);
    WordsAreFree(items, params);
  }

  lemma SpoiltComesBackOtherwise(items: seq<Item>, params: seq<Param>)
    requires AllProper(params, items)
    requires Spoiled(Parse(RenderOnto(items, []), params), ReadFrom(RenderOnto(items, []), 0, params), Taken(items), params)
    ensures !(ComesBack(items, params) && ReadAsWritten(items, params))
  {
    WordsAreFree(items, params);
    BeginSame(Taken(items));
  }

  lemma {:induction false} UntouchedOthers(items: seq<Item>, other: string, token: string)
    requires Untouched(items, token)
    ensures Untouched(Others(items, other), token)
  {
    if items != [] {
      UntouchedOthers(items[1..], other, token);
      if !IsFlag(items[0], other) {
        HeadTail(items[0], Others(items[1..], other));
      }
    }
  }

  lemma {:induction false} ValuesKeptOthers(items: seq<Item>, token: string)
    requires ValuesKept(items)
    ensures ValuesKept(Others(items, token))
  {
    if items != [] {
      ValuesKeptOthers(items[1..], token);
      if !IsFlag(items[0], token) {
        HeadTail(items[0], Others(items[1..], token));
        if items[0].FlagArg? {
          UntouchedOthers(items[1..], token, items[0].token);
        }
      }
    }
  }

  lemma {:induction false} KeptIsNotSpoilt(items: seq<Item>, skip: nat, skipped: seq<string>)
    requires ValuesKept(items)
    ensures Scan(items, skip, skipped) != Spoilt
    decreases |items|
  {
    if items != [] {
      var item, rest := items[0], items[1..];
      if item.FlagArg? && skip == 0 {
        ValuesKeptOthers(rest, item.token);
        KeptIsNotSpoilt(Others(rest, item.token), Count(skipped, item.token) + 1, Without(skipped, item.token));
      } else if item.Word? || item.FlagArg? || skip == 0 {
        KeptIsNotSpoilt(rest, if item.SentenceArg? then 1 else Less(skip), if item.FlagArg? then skipped + [item.token] else skipped);
      }
    }
  }

  /** For every list of items: parsing what was printed gives back exactly the words and the values, each value read by
      the parameter it was written for, if and only if the scan skips no parameter with a value, lets no flag remove a
      part of a value, and finds for every skipped flag a later copy that is not skipped. Unless a flag removes a part
      of a value, the words and values alone come back in no other case either. */
  lemma RoundTripExactlyWhen(items: seq<Item>, params: seq<Param>)
    requires AllProper(params, items)
    ensures ComesBack(items, params) && ReadAsWritten(items, params) <==> Cleared(Scan(items, 0, []))
    ensures Scan(items, 0, []) != Spoilt ==> (ComesBack(items, params) <==> Cleared(Scan(items, 0, [])))
    ensures ValuesKept(items) ==> Scan(items, 0, []) != Spoilt
  {
    var line := RenderOnto(items, []);
    var pre', tail', values' := ScansLine(items, [], params);
    match Scan(items, 0, [])
    case Reached(_, _) =>
      ReachedComesBack(Parse(line, params), ReadFrom(line, 0, params), items, Scan(items, 0, []), pre', values', params);
    case Lost => WordsAreFree(items, params);
    case Spoilt => SpoiltComesBackOtherwise(items, params);
    if ValuesKept(items) {
      KeptIsNotSpoilt(items, 0, []);
    }
  }

  lemma {:induction false} OthersNone(items: seq<Item>, token: string)
    requires !HasFlag(items, token)
    ensures Others(items, token) == items
  {
    if items != [] {
      OthersNone(items[1..], token);
    }
  }

  lemma {:induction false} ApartAppend(items: seq<Item>, tokens: seq<string>, token: string)
    requires Apart(items, tokens) && !HasFlag(items, token)
    ensures Apart(items, tokens + [token])
  {
    if items != [] {
      ApartAppend(items[1..], tokens, token);
    }
  }

  lemma {:induction false} ApartFromNone(items: seq<Item>)
    ensures Apart(items, [])
  {
    if items != [] {
      ApartFromNone(items[1..]);
    }
  }

  lemma {:induction false} ScanOfDistinct(items: seq<Item>, skip: nat, skipped: seq<string>)
    requires FlagsDistinct(items) && skip <= 1 && Apart(items, skipped)
    ensures Cleared(Scan(items, skip, skipped))
       <==> skipped == [] && Spaced(items) && ValuesKept(items) && (skip == 1 && items != [] ==> items[0].Word?)
    decreases |items|
  {
    if items != [] {
      var item, rest := items[0], items[1..];
      if item.FlagArg? {
        if skip == 1 {
          ApartAppend(rest, skipped, item.token);
          ScanOfDistinct(rest, 0, skipped + [item.token]);
        } else if Untouched(rest, item.token) {
          OthersNone(rest, item.token);
          CountAbsent(skipped, item.token);
          WithoutAbsent(skipped, item.token);
          ScanOfDistinct(rest, 1, skipped);
        }
      } else if item.Word? || skip == 0 {
        ScanOfDistinct(rest, if item.SentenceArg? then 1 else 0, skipped);
      }
    }
  }

  /** If no flag is written twice: if and only if every flag and every sentence is followed by a word or by nothing,
      and no value behind a flag contains its token. */
  lemma RoundTripWhenSpaced(items: seq<Item>, params: seq<Param>)
    requires AllProper(params, items) && FlagsDistinct(items)
    ensures ComesBack(items, params) && ReadAsWritten(items, params) <==> Spaced(items) && ValuesKept(items)
    ensures ValuesKept(items) ==> (ComesBack(items, params) <==> Spaced(items))
  {
    RoundTripExactlyWhen(items, params);
    ApartFromNone(items);
    ScanOfDistinct(items, 0, []);
  }

  // --- Lines that break off ----------------------------------------------------------------------

  lemma DanglingAt(pre: seq<string>, skip: nat, token: string, name: string, values: map<string, Value>, params: seq<Param>)
    requires Find(params, token) == Some(Param(StringArg, name))
    ensures ParseFrom(pre + [token], |pre| + skip, values, params)
         == if skip == 0 then Failed(ExpectedValue(token)) else Parsed(pre + [token], values)
  {
    if skip == 0 {
      ThrowingTurn(pre + [token], |pre|, values, params, name);
    }
  }

  /** The parse throws for want of a value if and only if the scan gets there with nothing to skip; otherwise the token
      ends up in the output. */
  predicate Dangles(r: ParseResult, readings: seq<Consumed>, items: seq<Item>, outcome: Outcome, token: string, params: seq<Param>) {
    match outcome
    case Reached(skip, _) => if skip == 0 then r == Failed(ExpectedValue(token)) else r.Parsed? && token in r.output
    case Lost => Misses(r, params)
    case Spoilt => Spoiled(r, readings, Taken(items), params)
  }

  lemma FollowedDangles(r: ParseResult, readings: seq<Consumed>, items: seq<Item>, outcome: Outcome, pre': seq<string>,
                        values': map<string, Value>, token: string, name: string, params: seq<Param>)
    requires Follows(r, readings, [], items, [token], Defaults(params), outcome, pre', values', params)
    requires Find(params, token) == Some(Param(StringArg, name))
    ensures Dangles(r, readings, items, outcome, token, params)
  {
    if outcome.Reached? {
      DanglingAt(pre', outcome.skip, token, name, values', params);
    }
  }

  lemma PrunedOne(token: string, left: seq<string>, params: seq<Param>)
    requires Pruned([token], left, params) && !IsSwitch(params, token)
    ensures left == [token]
  {
    HeadTail(token, []);
    assert left[0] == token && left[1..] == [];
    assert left == [left[0]] + left[1..];
  }

  /** A string parameter at the very end throws for want of a value if and only if it is examined; if it is skipped, it
      ends up in the output and nothing is thrown. */
  lemma DanglingParameter(items: seq<Item>, token: string, name: string, params: seq<Param>)
    requires AllProper(params, items) && Find(params, token) == Some(Param(StringArg, name))
    ensures
      var line := RenderOnto(items, [token]);
      Dangles(Parse(line, params), ReadFrom(line, 0, params), items, Scan(items, 0, []), token, params)
  {
    var line := RenderOnto(items, [token]);
    var pre', tail', values' := ScansLine(items, [token], params);
    PrunedOne(token, tail', params);
    FollowedDangles(Parse(line, params), ReadFrom(line, 0, params), items, Scan(items, 0, []), pre', values', token, name, params);
  }

  /** The words open a sentence and no word closes it. */
  predicate Unclosed(words: seq<string>) {
    words != [] && StartsQuoted(words[0]) && Unended(words, words[0][0])
  }

  lemma OpenSentenceAt(r: ParseResult, pre: seq<string>, skip: nat, token: string, name: string, words: seq<string>,
                       values: map<string, Value>, params: seq<Param>)
    requires Find(params, token) == Some(Param(StringArg, name))
    requires Unclosed(words) && r == ParseFrom(pre + ([token] + words), |pre| + skip, values, params)
    ensures if skip == 0 then r == Failed(ExpectedEndOfSentence(token)) else Misses(r, params)
  {
    var args := pre + ([token] + words);
    Middle(pre, [token], words);
    if skip == 0 {
      assert args[|pre| + 1] == words[0];
      forall i | |pre| + 1 <= i < |args| ensures !EndsIn(args[i], words[0][0]) {
        UnendedAt(words, words[0][0], i - |pre| - 1);
        assert args[i] == words[i - |pre| - 1];
      }
      ThrowingTurn(args, |pre|, values, params, name);
    } else {
      assert args[|pre|] == token;
      LeftStays(args, |pre| + skip, values, params, token);
      KeptMisses(r, token, params);
    }
  }

  /** The parse throws for want of the end of a sentence if the scan gets there with nothing to skip, and does not come
      back otherwise. */
  predicate BreaksOff(r: ParseResult, readings: seq<Consumed>, items: seq<Item>, outcome: Outcome, token: string, params: seq<Param>) {
    match outcome
    case Reached(skip, _) => if skip == 0 then r == Failed(ExpectedEndOfSentence(token)) else Misses(r, params)
    case Lost => Misses(r, params)
    case Spoilt => Spoiled(r, readings, Taken(items), params)
  }

  /** A flag's token begins with a dash, so none opens the sentence and none that is removed would have closed it. */
  lemma {:induction false} PrunedUnended(words: seq<string>, left: seq<string>, quote: char, params: seq<Param>)
    requires Pruned(words, left, params) && Unended(words, quote)
    ensures Unended(left, quote)
  {
    if words != [] {
      if left != [] && left[0] == words[0] && Pruned(words[1..], left[1..], params) {
        PrunedUnended(words[1..], left[1..], quote, params);
      } else {
        PrunedUnended(words[1..], left, quote, params);
      }
    }
  }

  lemma {:induction false} DashedName(params: seq<Param>, token: string)
    requires Find(params, token).Some?
    ensures token != "" && token[0] == '-'
  {
    if !Matches(params[0], token) {
      DashedName(params[1..], token);
    }
  }

  lemma PrunedUnclosed(token: string, words: seq<string>, left: seq<string>, params: seq<Param>)
    requires Pruned([token] + words, left, params) && !IsSwitch(params, token) && Unclosed(words)
    ensures left == [token] + left[1..] && Unclosed(left[1..])
  {
    HeadTail(token, words);
    if IsSwitch(params, words[0]) {
      DashedName(params, words[0]);
    }
    assert left[1..] != [] && left[1..][0] == words[0];
    PrunedUnended(words, left[1..], words[0][0], params);
  }

  lemma FollowedBreaksOff(r: ParseResult, readings: seq<Consumed>, items: seq<Item>, outcome: Outcome, pre': seq<string>,
                          values': map<string, Value>, token: string, name: string, left: seq<string>, params: seq<Param>)
    requires Follows(r, readings, [], items, [token] + left, Defaults(params), outcome, pre', values', params)
    requires Find(params, token) == Some(Param(StringArg, name)) && Unclosed(left)
    ensures BreaksOff(r, readings, items, outcome, token, params)
  {
    if outcome.Reached? {
      OpenSentenceAt(r, pre', outcome.skip, token, name, left, values', params);
    }
  }

  /** A sentence that is opened and never closed throws if its parameter is examined, and does not come back either if it
      is skipped. */
  lemma OpenSentence(items: seq<Item>, token: string, name: string, words: seq<string>, params: seq<Param>)
    requires AllProper(params, items)
    requires Find(params, token) == Some(Param(StringArg, name)) && Unclosed(words)
    ensures
      var line := RenderOnto(items, [token] + words);
      BreaksOff(Parse(line, params), ReadFrom(line, 0, params), items, Scan(items, 0, []), token, params)
  {
    var line := RenderOnto(items, [token] + words);
    var pre', tail', values' := ScansLine(items, [token] + words, params);
    PrunedUnclosed(token, words, tail', params);
    FollowedBreaksOff(Parse(line, params), ReadFrom(line, 0, params), items, Scan(items, 0, []), pre', values', token, name,
                      tail'[1..], params);
  }

  /** The documentation asks for no such spacing: here two flags are given, and the second one is not set but
      ends up in the output. */
  lemma SecondFlagIsLost()
    ensures
      var params := [Param(BooleanArg, "a"), Param(BooleanArg, "b")];
      Parse(["--a", "--b"], params) == Parsed(["--b"], map["a" := Switch(true), "b" := Switch(false)])
  {
  }

  function Opening(quote: char, before: seq<string>): seq<string>
    requires before != []
  {
    [[quote] + before[0]] + before[1..]
  }

  function Closing(quote: char, after: seq<string>): seq<string>
    requires after != []
  {
    after[..|after| - 1] + [after[|after| - 1] + [quote]]
  }

  lemma Inside<T>(a: seq<T>, b: seq<T>, c: seq<T>)
    requires a != [] && c != []
    ensures
      var all := a + b + c;
      all[0] == a[0] && all[|all| - 1] == c[|c| - 1] && all[1..|all| - 1] == a[1..] + (b + c[..|c| - 1])
  {
  }

  lemma RegroupAround<T>(x: seq<T>, a: seq<T>, b: seq<T>, c: seq<T>, y: seq<T>)
    ensures x + (a + (b + c)) + y == (x + a) + (b + (c + y))
  {
  }

  lemma QuotedParts(quote: char, before: seq<string>, middle: seq<string>, after: seq<string>)
    requires before != [] && after != []
    ensures Quoted(quote, before + middle + after) == Opening(quote, before) + (middle + Closing(quote, after))
  {
    Inside(before, middle, after);
    RegroupAround([[quote] + before[0]], before[1..], middle, after[..|after| - 1], [after[|after| - 1] + [quote]]);
  }

  lemma Regroup<T>(x: T, y: T, a: seq<T>, b: seq<T>)
    ensures [x] + ([y] + (a + b)) == ([x, y] + a) + b
  {
  }

  lemma WithoutBetween(a: seq<string>, token: string, b: seq<string>)
    requires token !in a && token !in b
    ensures Without(a + ([token] + b), token) == a + b
  {
    WithoutConcat(a, [token] + b, token);
    WithoutAbsent(a, token);
    WithoutAbsent(b, token);
    HeadTail(token, b);
  }

  lemma SentenceWithout(word: string, token: string, quote: char, before: seq<string>, f: string, after: seq<string>)
    requires before != [] && after != [] && f != word && f != token && f !in Quoted(quote, before + [] + after)
    ensures Without([word] + ([token] + Quoted(quote, before + [f] + after)), f)
         == [word] + ([token] + Quoted(quote, before + [] + after))
  {
    var a, b := Opening(quote, before), Closing(quote, after);
    QuotedParts(quote, before, [f], after);
    QuotedParts(quote, before, [], after);
    assert [] + b == b;
    Regroup(word, token, a, [f] + b);
    Regroup(word, token, a, b);
    WithoutBetween([word, token] + a, f, b);
  }

  lemma LineWithout(f: string, word: string, sentence: Item, before: seq<string>, after: seq<string>, rest: seq<string>)
    requires sentence.SentenceArg? && sentence.words == before + [] + after && before != [] && after != []
    requires f != word && f != sentence.token && f !in ValueTokens(sentence) && f !in rest
    ensures Without(([word] + Render(sentence.(words := before + [f] + after))) + rest, f) == [word] + (Render(sentence) + rest)
  {
    var written := [word] + Render(sentence.(words := before + [f] + after));
    SentenceWithout(word, sentence.token, sentence.quote, before, f, after);
    WithoutConcat(written, rest, f);
    WithoutAbsent(rest, f);
    Associative([word], Render(sentence), rest);
  }

  lemma FlagFirst(flag: Item, line: seq<string>, params: seq<Param>)
    requires flag.FlagArg? && Proper(params, flag)
    ensures Parse([flag.token] + line, params) == ParseFrom(Without(line, flag.token), 1, Store(Defaults(params), flag), params)
  {
    StepFlag([], flag, line, Defaults(params), params);
    assert [] + ([flag.token] + line) == [flag.token] + line;
    assert [] + Without(line, flag.token) == Without(line, flag.token);
  }

  /** Behind a flag and a word, a sentence loses the word that is the flag's token; the word behind it is skipped. */
  lemma SentenceLosesWord(flag: Item, word: string, sentence: Item, before: seq<string>, after: seq<string>,
                          rest: seq<string>, params: seq<Param>)
    requires flag.FlagArg? && Proper(params, flag) && Proper(params, Word(word)) && before != [] && after != []
    requires sentence.SentenceArg? && sentence.words == before + [] + after && Proper(params, sentence)
    requires flag.token !in ValueTokens(sentence) && flag.token !in rest
    ensures
      var written := sentence.(words := before + [flag.token] + after);
      Parse([flag.token] + (([word] + Render(written)) + rest), params)
      == ParseFrom([word] + rest, 2, Store(Store(Defaults(params), flag), sentence), params)
  {
    var line := ([word] + Render(sentence.(words := before + [flag.token] + after))) + rest;
    LineWithout(flag.token, word, sentence, before, after, rest);
    FlagFirst(flag, line, params);
    StepSentence([word], sentence, rest, Store(Defaults(params), flag), params);
  }

  lemma PlainLast(pre: seq<string>, later: Item, values: map<string, Value>, params: seq<Param>)
    requires later.PlainArg? && Proper(params, later)
    ensures ParseFrom(pre + Render(later), |pre|, values, params) == Parsed(pre, Store(values, later))
  {
    StepPlain(pre, later, [], values, params);
    assert Render(later) + [] == Render(later) && pre + [] == pre;
  }

  lemma StoredOver(values: map<string, Value>, a: Item, b: Item, later: Item)
    requires a.SentenceArg? && b.SentenceArg? && later.PlainArg? && a.name == b.name == later.name
    ensures Store(Store(values, a), later) == Store(Store(values, b), later)
  {
  }

  /** Such a line gives back its words and values only by luck: when a later value of the same name covers up what was
      read. */
  lemma SpoiltComesBackByLuck(flag: Item, word: string, sentence: Item, before: seq<string>, after: seq<string>,
                              second: string, later: Item, params: seq<Param>)
    requires flag.FlagArg? && Proper(params, flag) && Proper(params, Word(word)) && Proper(params, Word(second))
    requires sentence.SentenceArg? && sentence.words == before + [] + after && Proper(params, sentence)
    requires before != [] && after != [] && flag.token !in ValueTokens(sentence)
    requires later.PlainArg? && Proper(params, later) && later.name == sentence.name && later.value != flag.token
    ensures
      var written := sentence.(words := before + [flag.token] + after);
      Parse([flag.token] + (([word] + Render(written)) + ([second] + Render(later))), params)
      == Parsed([word] + [second], Store(Store(Store(Defaults(params), flag), written), later))
  {
    var values := Store(Store(Defaults(params), flag), sentence);
    SentenceLosesWord(flag, word, sentence, before, after, [second] + Render(later), params);
    PlainLast([word] + [second], later, values, params);
    Associative([word], [second], Render(later));
    StoredOver(Store(Defaults(params), flag), sentence, sentence.(words := before + [flag.token] + after), later);
  }

  lemma BothFlagsSet()
    ensures
      var params := [Param(BooleanArg, "a"), Param(BooleanArg, "b")];
      Parse(["--a", "--b", "--b"], params) == Parsed([], map["a" := Switch(true), "b" := Switch(true)])
  {
    var params := [Param(BooleanArg, "a"), Param(BooleanArg, "b")];
    assert params[1..] == [Param(BooleanArg, "b")] && Front(params) == [Param(BooleanArg, "a")];
    assert Defaults([Param(BooleanArg, "a")]) == map["a" := Switch(false)];
    HeadTail("--a", ["--b", "--b"]);
    HeadTail("--b", ["--b"]);
    HeadTail("--b", []);
    assert ["--a", "--b", "--b"] == ["--a"] + ["--b", "--b"] && ["--b", "--b"] == ["--b"] + ["--b"] && ["--b"] == ["--b"] + [];
    FlagTurn(["--a", "--b", "--b"], 0, ["--b", "--b"], Defaults(params), params, "a");
    FlagTurn(["--b", "--b"], 1, [], Defaults(params)["a" := Switch(true)], params, "b");
  }

  /** Repeating a flag can even mend such a line: the second copy of `--b` is examined and removes the first. */
  lemma SecondCopyMends()
    ensures
      var items := [FlagArg("--a", "a"), FlagArg("--b", "b"), FlagArg("--b", "b")];
      !Spaced(items) && Cleared(Scan(items, 0, []))
    ensures
      var params := [Param(BooleanArg, "a"), Param(BooleanArg, "b")];
      Parse(["--a", "--b", "--b"], params) == Parsed([], map["a" := Switch(true), "b" := Switch(true)])
  {
    var a, b := FlagArg("--a", "a"), FlagArg("--b", "b");
    assert [a, b, b][1..] == [b, b] && [b, b][1..] == [b] && [b][1..] == [];
    assert Others([b, b], "--a") == [b, b] && Others([b], "--b") == [];
    assert [] + ["--b"] == ["--b"] && Without(["--b"], "--b") == [];
    BothFlagsSet();
  }
}
