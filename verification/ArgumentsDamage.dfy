/** What a flag does to a value behind it that contains the flag's token: the parameter of that value reads something
    else, or the parse fails, or a parameter is left in the output. */
module ArgumentsDamage {
  import opened Common
  import opened Texts
  import opened Arguments
  import opened ArgumentsAccounting
  import opened ArgumentsItems

  /** The readings begin with the expected ones. */
  predicate Begin(expected: seq<Consumed>, readings: seq<Consumed>) {
    expected == []
    || (readings != [] && readings[0] == expected[0] && Begin(expected[1..], readings[1..]))
  }

  /** The parse did not give back the words, or the parameters did not begin by reading what they should. */
  predicate Spoiled(r: ParseResult, readings: seq<Consumed>, expected: seq<Consumed>, params: seq<Param>) {
    Misses(r, params) || !Begin(expected, readings)
  }

  lemma {:induction false} BeginLess(expected: seq<Consumed>, more: seq<Consumed>, readings: seq<Consumed>)
    requires Begin(expected + more, readings)
    ensures Begin(expected, readings)
  {
    if expected != [] {
      assert (expected + more)[1..] == expected[1..] + more;
      BeginLess(expected[1..], more, readings[1..]);
    }
  }

  lemma {:induction false} BeginSame(expected: seq<Consumed>)
    ensures Begin(expected, expected)
  {
    if expected != [] {
      BeginSame(expected[1..]);
    }
  }

  lemma SpoiledFurther(r: ParseResult, readings: seq<Consumed>, expected: seq<Consumed>, more: seq<Consumed>, params: seq<Param>)
    requires Spoiled(r, readings, expected, params)
    ensures Spoiled(r, readings, expected + more, params)
  {
    if Begin(expected + more, readings) {
      BeginLess(expected, more, readings);
    }
  }

  lemma SpoiledBehind(r: ParseResult, c: Consumed, readings: seq<Consumed>, expected: seq<Consumed>, params: seq<Param>)
    requires Spoiled(r, readings, expected, params)
    ensures Spoiled(r, [c] + readings, [c] + expected, params)
  {
    HeadTail(c, readings);
    HeadTail(c, expected);
  }

  /** The value was read from tokens among which `f` is not. */
  ghost predicate ReadWithout(c: Consumed, f: string) {
    match c
    case Flag(_, _, _) => false
    case Plain(_, _, value) => value != f
    case Sentence(_, _, words) => f !in words
  }

  /** An item whose tokens are broken up: its parameter still stands, but behind it the token `f` of its value is
      nowhere to be found. */
  ghost predicate Broken(bad: Item, rest: seq<string>, f: string, params: seq<Param>) {
    (bad.PlainArg? || bad.SentenceArg?) && Proper(params, bad) && f in ValueTokens(bad) && f !in rest
  }

  ghost predicate ReadsOtherwise(r: ParseResult, readings: seq<Consumed>, f: string) {
    r.Failed? || (readings != [] && ReadWithout(readings[0], f))
  }

  lemma ReadsPlain(args: seq<string>, idx: nat, name: string, f: string, values: map<string, Value>, params: seq<Param>)
    requires idx + 1 < |args| && Find(params, args[idx]) == Some(Param(StringArg, name)) && args[idx + 1] != f
    requires args[idx + 1] != "" && !StartsQuoted(args[idx + 1])
    ensures ReadsOtherwise(ParseFrom(args, idx, values, params), ReadFrom(args, idx, params), f)
  {
    PlainReads(args, idx, args[..idx] + args[idx + 2..], params, name);
  }

  lemma ReadsSentence(args: seq<string>, idx: nat, end: nat, name: string, f: string, values: map<string, Value>, params: seq<Param>)
    requires idx + 1 <= end < |args| && Find(params, args[idx]) == Some(Param(StringArg, name))
    requires StartsQuoted(args[idx + 1]) && FindEnd(args, idx + 1, args[idx + 1][0]) == Some(end) && f !in args[idx + 1..end + 1]
    ensures ReadsOtherwise(ParseFrom(args, idx, values, params), ReadFrom(args, idx, params), f)
  {
    SentenceReads(args, idx, end, args[..idx] + args[end + 1..], params, name);
  }

  /** A parameter behind which `f` is nowhere to be found reads something without it, if the parse goes on. */
  lemma ReadsWithout(args: seq<string>, idx: nat, name: string, f: string, values: map<string, Value>, params: seq<Param>)
    requires idx < |args| && Find(params, args[idx]) == Some(Param(StringArg, name)) && f !in args[idx + 1..]
    ensures ReadsOtherwise(ParseFrom(args, idx, values, params), ReadFrom(args, idx, params), f)
  {
    ThrowingTurn(args, idx, values, params, name);
    if idx + 1 < |args| && args[idx + 1] != "" {
      assert args[idx + 1] == args[idx + 1..][0];
      if !StartsQuoted(args[idx + 1]) {
        ReadsPlain(args, idx, name, f, values, params);
      } else if FindEnd(args, idx + 1, args[idx + 1][0]).Some? {
        var end := FindEnd(args, idx + 1, args[idx + 1][0]).value;
        assert args[idx + 1..end + 1] == args[idx + 1..][..end - idx];
        ReadsSentence(args, idx, end, name, f, values, params);
      }
    }
  }

  /** A broken item spoils the line, whether its parameter is skipped or examined. */
  lemma BrokenSpoils(args: seq<string>, idx: nat, pre: seq<string>, bad: Item, rest: seq<string>, f: string,
                     values: map<string, Value>, params: seq<Param>)
    requires Broken(bad, rest, f, params) && args == pre + ([bad.token] + rest) && idx >= |pre|
    ensures Spoiled(ParseFrom(args, idx, values, params), ReadFrom(args, idx, params), [ReadingOf(bad)], params)
  {
    Middle(pre, [bad.token], rest);
    assert args[|pre|] == [bad.token][0];
    if idx > |pre| {
      LeftStays(args, idx, values, params, bad.token);
      KeptMisses(ParseFrom(args, idx, values, params), bad.token, params);
    } else {
      ReadsWithout(args, idx, bad.name, f, values, params);
    }
  }

  lemma {:induction false} WithoutRemoves(args: seq<string>, token: string)
    ensures token !in Without(args, token)
    ensures forall t :: t !in args ==> t !in Without(args, token)
  {
    if args != [] {
      WithoutRemoves(args[1..], token);
    }
  }

  lemma RenderParts(item: Item, more: seq<string>)
    requires item.PlainArg? || item.SentenceArg?
    ensures Render(item) + more == [item.token] + (ValueTokens(item) + more)
  {
    assert Render(item) == [item.token] + ValueTokens(item);
    Associative([item.token], ValueTokens(item), more);
  }

  lemma TouchedHere(item: Item, more: seq<string>, f: string, params: seq<Param>)
    requires Proper(params, item) && IsSwitch(params, f) && f in ValueTokens(item)
    ensures Broken(item, Without(ValueTokens(item) + more, f), f, params)
    ensures Without(Render(item) + more, f) == [item.token] + Without(ValueTokens(item) + more, f)
  {
    WithoutRemoves(ValueTokens(item) + more, f);
    RenderParts(item, more);
    HeadTail(item.token, ValueTokens(item) + more);
  }

  lemma TouchedLater(item: Item, more: seq<string>, f: string, params: seq<Param>)
    requires Proper(params, item) && IsSwitch(params, f) && f !in ValueTokens(item)
    ensures Without(Render(item) + more, f) == if IsFlag(item, f) then Without(more, f) else Render(item) + Without(more, f)
  {
    WithoutConcat(Render(item), more, f);
    if IsFlag(item, f) {
      HeadTail(f, []);
    } else {
      WithoutAbsent(Render(item), f);
    }
  }

  lemma TakenFirst(item: Item, before: seq<Item>, bad: Item, behind: seq<Consumed>)
    requires bad.PlainArg? || bad.SentenceArg?
    ensures
      var here := if item.PlainArg? || item.SentenceArg? then [ReadingOf(item)] else [];
      (Taken([item] + before) + [ReadingOf(bad)]) + behind == here + ((Taken(before) + [ReadingOf(bad)]) + behind)
  {
    HeadTail(item, before);
  }

  /** The first item whose value contains the flag's token is broken up; the items before it stay what they are. */
  lemma {:induction false} FirstTouched(items: seq<Item>, tail: seq<string>, f: string, params: seq<Param>)
    returns (before: seq<Item>, bad: Item, behind: seq<Consumed>, rest: seq<string>)
    requires AllProper(params, items) && IsSwitch(params, f) && !Untouched(items, f)
    ensures |before| < |items| && AllProper(params, before) && Broken(bad, rest, f, params)
    ensures Without(RenderOnto(items, tail), f) == RenderOnto(before, [bad.token] + rest)
    ensures Taken(items) == (Taken(before) + [ReadingOf(bad)]) + behind
  {
    var item, more := items[0], RenderOnto(items[1..], tail);
    if f in ValueTokens(item) {
      before, bad, behind, rest := [], item, Taken(items[1..]), Without(ValueTokens(item) + more, f);
      TouchedHere(item, more, f, params);
    } else {
      before, bad, behind, rest := FirstTouched(items[1..], tail, f, params);
      TouchedLater(item, more, f, params);
      if !IsFlag(item, f) {
        TakenFirst(item, before, bad, behind);
        HeadTail(item, before);
        before := [item] + before;
      }
    }
  }

  /** The parser at `idx` spoils what it should read from there on. */
  ghost predicate SpoiledAt(args: seq<string>, idx: nat, values: map<string, Value>, expected: seq<Consumed>, params: seq<Param>) {
    Spoiled(ParseFrom(args, idx, values, params), ReadFrom(args, idx, params), expected, params)
  }

  lemma Carry(args: seq<string>, idx: nat, values: map<string, Value>, args': seq<string>, idx': nat, values': map<string, Value>,
              expected: seq<Consumed>, params: seq<Param>)
    requires ParseFrom(args, idx, values, params) == ParseFrom(args', idx', values', params)
    requires ReadFrom(args, idx, params) == ReadFrom(args', idx', params)
    requires SpoiledAt(args', idx', values', expected, params)
    ensures SpoiledAt(args, idx, values, expected, params)
  {
  }

  /** Whatever stands in front of a broken item, the line is spoilt: `args` is `pre` followed by the items and the broken
      one, and the parser stands at `idx`, not before the end of `pre`. */
  lemma {:induction false} Spoils(args: seq<string>, idx: nat, pre: seq<string>, items: seq<Item>, bad: Item, rest: seq<string>,
                                  f: string, values: map<string, Value>, params: seq<Param>)
    requires AllProper(params, items) && Broken(bad, rest, f, params)
    requires args == pre + RenderOnto(items, [bad.token] + rest) && idx >= |pre|
    ensures SpoiledAt(args, idx, values, Taken(items) + [ReadingOf(bad)], params)
    decreases |items|, 2
  {
    if items == [] {
      BrokenSpoils(args, idx, pre, bad, rest, f, values, params);
      assert Taken(items) + [ReadingOf(bad)] == [ReadingOf(bad)];
    } else {
      var item, more := items[0], items[1..];
      if item.Word? {
        SpoilsWord(args, idx, pre, item.word, more, bad, rest, f, values, params);
      } else if item.FlagArg? {
        if idx > |pre| {
          SpoilsBehind(args, idx, pre, item.token, more, bad, rest, f, values, params);
        } else {
          SpoilsFlag(pre, item, more, bad, rest, f, values, params);
        }
      } else if idx > |pre| {
        SkippedStays(args, idx, pre, items, [bad.token] + rest, values, params);
      } else {
        SpoilsValue(pre, item, more, bad, rest, f, values, params);
        Associative([ReadingOf(item)], Taken(more), [ReadingOf(bad)]);
      }
    }
  }

  lemma {:induction false} SpoilsBehind(args: seq<string>, idx: nat, pre: seq<string>, token: string, more: seq<Item>, bad: Item,
                                        rest: seq<string>, f: string, values: map<string, Value>, params: seq<Param>)
    requires AllProper(params, more) && Broken(bad, rest, f, params)
    requires args == pre + ([token] + RenderOnto(more, [bad.token] + rest)) && idx > |pre|
    ensures SpoiledAt(args, idx, values, Taken(more) + [ReadingOf(bad)], params)
    decreases |more| + 1, 0
  {
    Associative(pre, [token], RenderOnto(more, [bad.token] + rest));
    Spoils(args, idx, pre + [token], more, bad, rest, f, values, params);
  }

  lemma {:induction false} SpoilsWord(args: seq<string>, idx: nat, pre: seq<string>, word: string, more: seq<Item>, bad: Item,
                                      rest: seq<string>, f: string, values: map<string, Value>, params: seq<Param>)
    requires Find(params, word) == None && AllProper(params, more) && Broken(bad, rest, f, params)
    requires args == pre + ([word] + RenderOnto(more, [bad.token] + rest)) && idx >= |pre|
    ensures SpoiledAt(args, idx, values, Taken(more) + [ReadingOf(bad)], params)
    decreases |more| + 1, 1
  {
    if idx > |pre| {
      SpoilsBehind(args, idx, pre, word, more, bad, rest, f, values, params);
    } else {
      Associative(pre, [word], RenderOnto(more, [bad.token] + rest));
      Spoils(args, idx + 1, pre + [word], more, bad, rest, f, values, params);
      assert args[idx] == word;
      WordTurn(args, idx, values, params);
      WordConsumed(args, idx, params);
      Carry(args, idx, values, args, idx + 1, values, Taken(more) + [ReadingOf(bad)], params);
    }
  }

  lemma {:induction false} SpoilsValue(pre: seq<string>, item: Item, more: seq<Item>, bad: Item, rest: seq<string>,
                                       f: string, values: map<string, Value>, params: seq<Param>)
    requires Proper(params, item) && AllProper(params, more) && Broken(bad, rest, f, params)
    requires item.PlainArg? || item.SentenceArg?
    ensures SpoiledAt(pre + (Render(item) + RenderOnto(more, [bad.token] + rest)), |pre|, values,
                      [ReadingOf(item)] + (Taken(more) + [ReadingOf(bad)]), params)
    decreases |more| + 1, 0
  {
    var left, skip, values' := RenderOnto(more, [bad.token] + rest), if item.PlainArg? then 0 else 1, Store(values, item);
    if item.PlainArg? {
      StepPlain(pre, item, left, values, params);
    } else {
      StepSentence(pre, item, left, values, params);
    }
    Spoils(pre + left, |pre| + skip, pre, more, bad, rest, f, values', params);
    SpoiledBehind(ParseFrom(pre + left, |pre| + skip, values', params), ReadingOf(item),
                  ReadFrom(pre + left, |pre| + skip, params), Taken(more) + [ReadingOf(bad)], params);
  }

  lemma {:induction false} SpoilsFlag(pre: seq<string>, flag: Item, more: seq<Item>, bad: Item, rest: seq<string>, f: string,
                                      values: map<string, Value>, params: seq<Param>)
    requires Proper(params, flag) && AllProper(params, more) && Broken(bad, rest, f, params) && flag.FlagArg?
    ensures SpoiledAt(pre + (Render(flag) + RenderOnto(more, [bad.token] + rest)), |pre|, values,
                      Taken(more) + [ReadingOf(bad)], params)
    decreases |more| + 1, 0
  {
    var left, g, values' := RenderOnto(more, [bad.token] + rest), flag.token, Store(values, flag);
    StepFlag(pre, flag, left, values, params);
    WithoutShortens(pre, g);
    RemovalSpoils(Without(pre, g), |pre| + 1, more, bad, rest, f, g, values', params);
    Carry(pre + (Render(flag) + left), |pre|, values, Without(pre, g) + Without(left, g), |pre| + 1, values',
          Taken(more) + [ReadingOf(bad)], params);
  }

  lemma {:induction false} RemovalSpoils(pre: seq<string>, idx: nat, items: seq<Item>, bad: Item, rest: seq<string>,
                                         f: string, g: string, values: map<string, Value>, params: seq<Param>)
    requires AllProper(params, items) && Broken(bad, rest, f, params) && IsSwitch(params, g) && idx >= |pre|
    ensures SpoiledAt(pre + Without(RenderOnto(items, [bad.token] + rest), g), idx, values, Taken(items) + [ReadingOf(bad)], params)
    decreases |items|, 5
  {
    if Untouched(items, g) {
      UntouchedSpoils(pre, idx, items, bad, rest, f, g, values, params);
    } else {
      var args := pre + Without(RenderOnto(items, [bad.token] + rest), g);
      TouchedSpoils(pre, idx, items, [bad.token] + rest, g, values, params);
      SpoiledFurther(ParseFrom(args, idx, values, params), ReadFrom(args, idx, params), Taken(items), [ReadingOf(bad)], params);
    }
  }

  lemma {:induction false} UntouchedSpoils(pre: seq<string>, idx: nat, items: seq<Item>, bad: Item, rest: seq<string>,
                                           f: string, g: string, values: map<string, Value>, params: seq<Param>)
    requires AllProper(params, items) && Broken(bad, rest, f, params) && IsSwitch(params, g) && Untouched(items, g)
    requires idx >= |pre|
    ensures SpoiledAt(pre + Without(RenderOnto(items, [bad.token] + rest), g), idx, values, Taken(items) + [ReadingOf(bad)], params)
    decreases |items|, 4
  {
    RenderWithout(items, [bad.token] + rest, g, params);
    HeadTail(bad.token, rest);
    WithoutRemoves(rest, g);
    OthersProper(items, params, g);
    OthersTaken(items, g);
    Spoils(pre + Without(RenderOnto(items, [bad.token] + rest), g), idx, pre, Others(items, g), bad, Without(rest, g), f, values,
           params);
  }

  /** A line out of which a flag's token was removed that one of its values contains is spoilt. */
  lemma {:induction false} TouchedSpoils(pre: seq<string>, idx: nat, items: seq<Item>, tail: seq<string>, f: string,
                                         values: map<string, Value>, params: seq<Param>)
    requires AllProper(params, items) && IsSwitch(params, f) && !Untouched(items, f) && idx >= |pre|
    ensures SpoiledAt(pre + Without(RenderOnto(items, tail), f), idx, values, Taken(items), params)
    decreases |items|, 3
  {
    var before, bad, behind, rest := FirstTouched(items, tail, f, params);
    var args := pre + Without(RenderOnto(items, tail), f);
    Spoils(args, idx, pre, before, bad, rest, f, values, params);
    SpoiledFurther(ParseFrom(args, idx, values, params), ReadFrom(args, idx, params), Taken(before) + [ReadingOf(bad)], behind, params);
  }
}
