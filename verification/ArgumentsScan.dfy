/** The scan of a list of items is what the parser does with the printed line. */
module ArgumentsScan {
  import opened Common
  import opened Texts
  import opened Arguments
  import opened ArgumentsAccounting
  import opened ArgumentsItems
  import opened ArgumentsDamage

  // --- The parser scans the items ----------------------------------------------------------------

  /** The tokens that name parameters, or those that do not. */
  function Select(tokens: seq<string>, params: seq<Param>, declared: bool): seq<string> {
    if tokens == [] then []
    else if Find(params, tokens[0]).Some? == declared then [tokens[0]] + Select(tokens[1..], params, declared)
    else Select(tokens[1..], params, declared)
  }

  lemma {:induction false} SelectAppend(tokens: seq<string>, token: string, params: seq<Param>, declared: bool)
    ensures Select(tokens + [token], params, declared)
         == Select(tokens, params, declared) + if Find(params, token).Some? == declared then [token] else []
  {
    if tokens == [] {
      assert (tokens + [token])[1..] == [];
    } else {
      SelectAppend(tokens[1..], token, params, declared);
      assert (tokens + [token])[1..] == tokens[1..] + [token];
      Associative([tokens[0]], Select(tokens[1..], params, declared),
                  if Find(params, token).Some? == declared then [token] else []);
    }
  }

  lemma SelectWord(tokens: seq<string>, word: string, params: seq<Param>)
    requires Find(params, word) == None
    ensures Select(tokens + [word], params, true) == Select(tokens, params, true)
    ensures Select(tokens + [word], params, false) == Select(tokens, params, false) + [word]
  {
    SelectAppend(tokens, word, params, true);
    SelectAppend(tokens, word, params, false);
    assert Select(tokens, params, true) + [] == Select(tokens, params, true);
  }

  lemma {:induction false} SelectWithout(tokens: seq<string>, token: string, params: seq<Param>)
    requires Find(params, token).Some?
    ensures Select(Without(tokens, token), params, true) == Without(Select(tokens, params, true), token)
    ensures Select(Without(tokens, token), params, false) == Select(tokens, params, false)
    ensures Count(Select(tokens, params, true), token) == Count(tokens, token)
  {
    if tokens != [] {
      var first, rest := tokens[0], tokens[1..];
      SelectWithout(rest, token, params);
      HeadTail(first, Without(rest, token));
      HeadTail(first, Select(rest, params, true));
    }
  }

  lemma {:induction false} SelectNothing(tokens: seq<string>, params: seq<Param>)
    ensures Select(tokens, params, true) == [] ==> Select(tokens, params, false) == tokens
    ensures Select(tokens, params, true) != [] <==> NamesParameter(tokens, params)
  {
    if tokens != [] {
      SelectNothing(tokens[1..], params);
    }
  }

  /** Once a flag is set its copies store nothing new. */
  lemma {:induction false} OthersStore(values: map<string, Value>, items: seq<Item>, token: string, name: string, params: seq<Param>)
    requires AllProper(params, items) && Find(params, token) == Some(Param(BooleanArg, name))
    requires name in values && values[name] == Switch(true)
    ensures StoreAll(values, Others(items, token)) == StoreAll(values, items)
    decreases |items|
  {
    if items != [] {
      var item := items[0];
      assert Proper(params, item);
      if !item.Word? && item.name == name {
        FindByName(params, token, item.token);
        assert Store(values, item) == values;
      }
      OthersStore(Store(values, item), items[1..], token, name, params);
      if !IsFlag(item, token) {
        HeadTail(items[0], Others(items[1..], token));
      }
    }
  }

  lemma {:induction false} OthersHasFlag(items: seq<Item>, other: string, token: string)
    requires HasFlag(Others(items, other), token)
    ensures HasFlag(items, token)
  {
    if !IsFlag(items[0], other) {
      HeadTail(items[0], Others(items[1..], other));
    }
    if !IsFlag(items[0], token) {
      OthersHasFlag(items[1..], other, token);
    }
  }

  lemma SetBefore(values: map<string, Value>, item: Item, token: string, name: string, params: seq<Param>)
    requires Proper(params, item) && Find(params, token) == Some(Param(BooleanArg, name))
    ensures Store(values[name := Switch(true)], item)
         == if item.Word? || item.name != name then Store(values, item)[name := Switch(true)] else Store(values, item)
  {
    if !item.Word? && item.name == name {
      FindByName(params, token, item.token);
    }
  }

  /** A flag that a later copy sets need not have been set before. */
  lemma {:induction false} LaterCopyStores(values: map<string, Value>, items: seq<Item>, token: string, name: string, params: seq<Param>)
    requires AllProper(params, items) && Find(params, token) == Some(Param(BooleanArg, name)) && HasFlag(items, token)
    ensures StoreAll(values[name := Switch(true)], items) == StoreAll(values, items)
    decreases |items|
  {
    var item := items[0];
    assert Proper(params, item);
    SetBefore(values, item, token, name, params);
    if item.Word? || item.name != name {
      LaterCopyStores(Store(values, item), items[1..], token, name, params);
    }
  }

  /** A skipped flag that does not stay behind has a copy further on. */
  lemma {:induction false} ClearedHasCopy(items: seq<Item>, skip: nat, skipped: seq<string>, token: string)
    requires Cleared(Scan(items, skip, skipped)) && token in skipped
    ensures HasFlag(items, token)
    decreases |items|
  {
    var item, rest := items[0], items[1..];
    if skip > 0 {
      ClearedHasCopy(rest, skip - 1, if item.Word? then skipped else skipped + [item.token], token);
    } else if !item.FlagArg? {
      ClearedHasCopy(rest, if item.SentenceArg? then 1 else 0, skipped, token);
    } else if item.token != token {
      WithoutKeeps(skipped, item.token, token);
      ClearedHasCopy(Others(rest, item.token), Count(skipped, item.token) + 1, Without(skipped, item.token), token);
      OthersHasFlag(rest, item.token, token);
    }
  }

  lemma SkippedStores(values: map<string, Value>, items: seq<Item>, skip: nat, skipped: seq<string>, params: seq<Param>)
    requires AllProper(params, items) && items != [] && items[0].FlagArg? && skip > 0
    ensures Cleared(Scan(items, skip, skipped)) ==> StoreAll(values, items) == StoreAll(values, items[1..])
  {
    var item, rest := items[0], items[1..];
    assert Proper(params, item);
    if Cleared(Scan(items, skip, skipped)) {
      ClearedHasCopy(rest, skip - 1, skipped + [item.token], item.token);
      LaterCopyStores(values, rest, item.token, item.name, params);
    }
  }

  // --- The parser follows the scan ---------------------------------------------------------------

  /** `left` is `tokens`, some flags' tokens removed. */
  ghost predicate Pruned(tokens: seq<string>, left: seq<string>, params: seq<Param>) {
    if tokens == [] then left == []
    else
      || (left != [] && left[0] == tokens[0] && Pruned(tokens[1..], left[1..], params))
      || (IsSwitch(params, tokens[0]) && Pruned(tokens[1..], left, params))
  }

  lemma {:induction false} PrunedNothing(tokens: seq<string>, params: seq<Param>)
    ensures Pruned(tokens, tokens, params)
  {
    if tokens != [] {
      PrunedNothing(tokens[1..], params);
    }
  }

  lemma {:induction false} PrunedFurther(tokens: seq<string>, token: string, left: seq<string>, params: seq<Param>)
    requires IsSwitch(params, token) && Pruned(Without(tokens, token), left, params)
    ensures Pruned(tokens, left, params)
  {
    if tokens != [] {
      if tokens[0] == token {
        PrunedFurther(tokens[1..], token, left, params);
      } else {
        HeadTail(tokens[0], Without(tokens[1..], token));
        if left != [] && left[0] == tokens[0] && Pruned(Without(tokens[1..], token), left[1..], params) {
          PrunedFurther(tokens[1..], token, left[1..], params);
        } else {
          PrunedFurther(tokens[1..], token, left, params);
        }
      }
    }
  }

  /** What the scan says of the parser standing `skip` tokens behind `pre`, of its result and of what the parameters
      read. If it gets to the end of the items, it leaves `pre'` in front of what is left of the tail, every value was
      read by the parameter it was written for, and `values'` has them all unless a flag stayed behind. */
  ghost predicate Follows(r: ParseResult, readings: seq<Consumed>, pre: seq<string>, items: seq<Item>, tail: seq<string>,
                          values: map<string, Value>, outcome: Outcome, pre': seq<string>, values': map<string, Value>,
                          params: seq<Param>)
  {
    match outcome
    case Lost => Misses(r, params)
    case Spoilt => Spoiled(r, readings, Taken(items), params)
    case Reached(skip, skipped) =>
      && Select(pre', params, true) == skipped
      && Select(pre', params, false) == Select(pre, params, false) + Words(items)
      && (skipped == [] ==> values' == StoreAll(values, items))
      && r == ParseFrom(pre' + tail, |pre'| + skip, values', params)
      && readings == Taken(items) + ReadFrom(pre' + tail, |pre'| + skip, params)
  }

  ghost predicate FollowsAt(args: seq<string>, idx: nat, pre: seq<string>, items: seq<Item>, tail: seq<string>,
                            values: map<string, Value>, outcome: Outcome, pre': seq<string>, values': map<string, Value>,
                            params: seq<Param>)
  {
    Follows(ParseFrom(args, idx, values, params), ReadFrom(args, idx, params), pre, items, tail, values, outcome, pre', values',
            params)
  }

  /** What the scan says of the rest of the items it says of all of them; `read` is what the first one read. */
  lemma Onward(r: ParseResult, readings: seq<Consumed>, read: seq<Consumed>, pre1: seq<string>, items1: seq<Item>,
               values1: map<string, Value>, pre: seq<string>, items: seq<Item>, tail: seq<string>, values: map<string, Value>,
               outcome: Outcome, pre': seq<string>, values': map<string, Value>, params: seq<Param>)
    requires Follows(r, readings, pre1, items1, tail, values1, outcome, pre', values', params)
    requires Select(pre1, params, false) + Words(items1) == Select(pre, params, false) + Words(items)
    requires Cleared(outcome) ==> StoreAll(values1, items1) == StoreAll(values, items)
    requires |read| <= 1 && Taken(items) == read + Taken(items1)
    ensures Follows(r, read + readings, pre, items, tail, values, outcome, pre', values', params)
  {
    if read == [] {
      assert read + readings == readings && read + Taken(items1) == Taken(items1);
    } else {
      assert read == [read[0]];
      if outcome.Spoilt? {
        SpoiledBehind(r, read[0], readings, Taken(items1), params);
      } else if outcome.Reached? {
        Associative(read, Taken(items1), ReadFrom(pre' + tail, |pre'| + outcome.skip, params));
      }
    }
  }

  /** One turn of the parser leads on to fewer items; `read` is what it read. */
  lemma {:induction false} ScansOn(args: seq<string>, idx: nat, read: seq<Consumed>, args1: seq<string>, idx1: nat,
                                   pre1: seq<string>, items1: seq<Item>, tail: seq<string>, values1: map<string, Value>,
                                   pre: seq<string>, items: seq<Item>, values: map<string, Value>, outcome: Outcome,
                                   params: seq<Param>)
    returns (pre': seq<string>, tail': seq<string>, values': map<string, Value>)
    requires AllProper(params, items1) && args1 == pre1 + RenderOnto(items1, tail) && idx1 >= |pre1|
    requires ParseFrom(args, idx, values, params) == ParseFrom(args1, idx1, values1, params)
    requires ReadFrom(args, idx, params) == read + ReadFrom(args1, idx1, params)
    requires outcome == Scan(items1, idx1 - |pre1|, Select(pre1, params, true))
    requires Select(pre1, params, false) + Words(items1) == Select(pre, params, false) + Words(items)
    requires Cleared(outcome) ==> StoreAll(values1, items1) == StoreAll(values, items)
    requires |read| <= 1 && Taken(items) == read + Taken(items1)
    ensures FollowsAt(args, idx, pre, items, tail', values, outcome, pre', values', params)
    ensures Pruned(tail, tail', params)
    decreases |items1|, 2
  {
    pre', tail', values' := Scans(args1, idx1, pre1, items1, tail, values1, params);
    Onward(ParseFrom(args1, idx1, values1, params), ReadFrom(args1, idx1, params), read, pre1, items1, values1, pre, items, tail',
           values, outcome, pre', values', params);
  }

  lemma Nothing<T>(s: seq<T>)
    ensures [] + s == s
  {
  }

  /** What the scan makes of a word. */
  lemma AtWord(pre: seq<string>, skip: nat, items: seq<Item>, values: map<string, Value>, params: seq<Param>)
    requires AllProper(params, items) && items != [] && items[0].Word?
    ensures
      var pre1, rest := pre + [items[0].word], items[1..];
      && Scan(items, skip, Select(pre, params, true)) == Scan(rest, Less(skip), Select(pre1, params, true))
      && Select(pre1, params, false) + Words(rest) == Select(pre, params, false) + Words(items)
      && StoreAll(values, items) == StoreAll(values, rest) && Taken(items) == Taken(rest)
  {
    assert Proper(params, items[0]);
    SelectWord(pre, items[0].word, params);
    Associative(Select(pre, params, false), [items[0].word], Words(items[1..]));
  }

  lemma {:induction false} ScansWord(args: seq<string>, idx: nat, pre: seq<string>, items: seq<Item>, tail: seq<string>,
                                     values: map<string, Value>, params: seq<Param>)
    returns (pre': seq<string>, tail': seq<string>, values': map<string, Value>)
    requires AllProper(params, items) && items != [] && items[0].Word?
    requires args == pre + RenderOnto(items, tail) && idx >= |pre|
    ensures FollowsAt(args, idx, pre, items, tail', values, Scan(items, idx - |pre|, Select(pre, params, true)), pre', values', params)
    ensures Pruned(tail, tail', params)
    decreases |items|, 0
  {
    var word, rest, next := items[0].word, items[1..], if idx == |pre| then idx + 1 else idx;
    AtWord(pre, idx - |pre|, items, values, params);
    Associative(pre, [word], RenderOnto(rest, tail));
    if idx == |pre| {
      assert args[idx] == word && Proper(params, items[0]);
      WordTurn(args, idx, values, params);
      WordConsumed(args, idx, params);
    }
    Nothing(Taken(rest));
    Nothing(ReadFrom(args, next, params));
    pre', tail', values' := ScansOn(args, idx, [], args, next, pre + [word], rest, tail, values, pre, items, values,
                                    Scan(items, idx - |pre|, Select(pre, params, true)), params);
  }

  /** What the scan makes of a flag that is skipped. */
  lemma AtSkipped(pre: seq<string>, skip: nat, items: seq<Item>, values: map<string, Value>, params: seq<Param>)
    requires AllProper(params, items) && items != [] && items[0].FlagArg? && skip > 0
    ensures
      var outcome := Scan(items, skip, Select(pre, params, true));
      && outcome == Scan(items[1..], skip - 1, Select(pre + [items[0].token], params, true))
      && Select(pre + [items[0].token], params, false) == Select(pre, params, false)
      && Words(items[1..]) == Words(items) && Taken(items[1..]) == Taken(items)
      && (Cleared(outcome) ==> StoreAll(values, items[1..]) == StoreAll(values, items))
  {
    assert Proper(params, items[0]);
    SelectAppend(pre, items[0].token, params, true);
    SelectAppend(pre, items[0].token, params, false);
    assert Select(pre, params, false) + [] == Select(pre, params, false);
    SkippedStores(values, items, skip, Select(pre, params, true), params);
  }

  lemma {:induction false} ScansSkipped(args: seq<string>, idx: nat, pre: seq<string>, items: seq<Item>, tail: seq<string>,
                                        values: map<string, Value>, params: seq<Param>)
    returns (pre': seq<string>, tail': seq<string>, values': map<string, Value>)
    requires AllProper(params, items) && items != [] && items[0].FlagArg?
    requires args == pre + RenderOnto(items, tail) && idx > |pre|
    ensures FollowsAt(args, idx, pre, items, tail', values, Scan(items, idx - |pre|, Select(pre, params, true)), pre', values', params)
    ensures Pruned(tail, tail', params)
    decreases |items|, 0
  {
    var token, rest := items[0].token, items[1..];
    AtSkipped(pre, idx - |pre|, items, values, params);
    Associative(pre, [token], RenderOnto(rest, tail));
    Nothing(Taken(rest));
    Nothing(ReadFrom(args, idx, params));
    pre', tail', values' := ScansOn(args, idx, [], args, idx, pre + [token], rest, tail, values, pre, items, values,
                                    Scan(items, idx - |pre|, Select(pre, params, true)), params);
  }

  /** What stays the same when an examined flag and its copies go. */
  lemma AtFlag(pre: seq<string>, items: seq<Item>, values: map<string, Value>, params: seq<Param>)
    requires AllProper(params, items) && items != [] && items[0].FlagArg? && Untouched(items[1..], items[0].token)
    ensures
      var token, others := items[0].token, Others(items[1..], items[0].token);
      && IsSwitch(params, token)
      && Scan(items, 0, Select(pre, params, true)) == Scan(others, Count(pre, token) + 1, Select(Without(pre, token), params, true))
      && Select(Without(pre, token), params, false) == Select(pre, params, false)
      && Words(others) == Words(items) && Taken(others) == Taken(items)
      && StoreAll(Store(values, items[0]), others) == StoreAll(values, items)
  {
    var item, rest := items[0], items[1..];
    assert Proper(params, item);
    SelectWithout(pre, item.token, params);
    OthersWords(rest, item.token);
    OthersTaken(rest, item.token);
    OthersStore(Store(values, item), rest, item.token, item.name, params);
  }

  /** The turn of the parser at an examined flag: what is left of the tokens before it, of the items and of the tail. */
  lemma FlagLeaves(pre: seq<string>, items: seq<Item>, tail: seq<string>, values: map<string, Value>, params: seq<Param>)
    returns (pre1: seq<string>, others: seq<Item>, tail1: seq<string>)
    requires AllProper(params, items) && items != [] && items[0].FlagArg? && Untouched(items[1..], items[0].token)
    ensures |pre1| <= |pre| && |others| < |items| && AllProper(params, others) && Taken(others) == Taken(items)
    ensures forall t :: Pruned(tail1, t, params) ==> Pruned(tail, t, params)
    ensures Scan(items, 0, Select(pre, params, true)) == Scan(others, |pre| + 1 - |pre1|, Select(pre1, params, true))
    ensures Select(pre1, params, false) + Words(others) == Select(pre, params, false) + Words(items)
    ensures StoreAll(Store(values, items[0]), others) == StoreAll(values, items)
    ensures
      var args, left, values1 := pre + RenderOnto(items, tail), pre1 + RenderOnto(others, tail1), Store(values, items[0]);
      && ParseFrom(args, |pre|, values, params) == ParseFrom(left, |pre| + 1, values1, params)
      && ReadFrom(args, |pre|, params) == ReadFrom(left, |pre| + 1, params)
  {
    var item, rest := items[0], items[1..];
    pre1, others, tail1 := Without(pre, item.token), Others(rest, item.token), Without(tail, item.token);
    AtFlag(pre, items, values, params);
    forall t | Pruned(tail1, t, params) ensures Pruned(tail, t, params) {
      PrunedFurther(tail, item.token, t, params);
    }
    RenderWithout(rest, tail, item.token, params);
    WithoutShortens(pre, item.token);
    OthersProper(rest, params, item.token);
    StepFlag(pre, item, RenderOnto(rest, tail), values, params);
  }

  lemma {:induction false} ScansFlag(args: seq<string>, idx: nat, pre: seq<string>, items: seq<Item>, tail: seq<string>,
                                     values: map<string, Value>, params: seq<Param>)
    returns (pre': seq<string>, tail': seq<string>, values': map<string, Value>)
    requires AllProper(params, items) && items != [] && items[0].FlagArg? && Untouched(items[1..], items[0].token)
    requires args == pre + RenderOnto(items, tail) && idx == |pre|
    ensures FollowsAt(args, idx, pre, items, tail', values, Scan(items, idx - |pre|, Select(pre, params, true)), pre', values', params)
    ensures Pruned(tail, tail', params)
    decreases |items|, 0
  {
    var pre1, others, tail1 := FlagLeaves(pre, items, tail, values, params);
    var left := pre1 + RenderOnto(others, tail1);
    Nothing(Taken(others));
    Nothing(ReadFrom(left, idx + 1, params));
    pre', tail', values' := ScansOn(args, idx, [], left, idx + 1, pre1, others, tail1, Store(values, items[0]), pre, items, values,
                                    Scan(items, idx - |pre|, Select(pre, params, true)), params);
  }

  /** A flag that removes its token from a value behind it spoils the line. */
  lemma ScansTouched(args: seq<string>, idx: nat, pre: seq<string>, items: seq<Item>, tail: seq<string>,
                     values: map<string, Value>, params: seq<Param>)
    requires AllProper(params, items) && items != [] && items[0].FlagArg? && !Untouched(items[1..], items[0].token)
    requires args == pre + RenderOnto(items, tail) && idx == |pre|
    ensures SpoiledAt(args, idx, values, Taken(items), params)
  {
    var item, rest := items[0], items[1..];
    var token, values1 := item.token, Store(values, item);
    StepFlag(pre, item, RenderOnto(rest, tail), values, params);
    WithoutShortens(pre, token);
    TouchedSpoils(Without(pre, token), idx + 1, rest, tail, token, values1, params);
    Carry(args, idx, values, Without(pre, token) + Without(RenderOnto(rest, tail), token), idx + 1, values1, Taken(rest), params);
  }

  lemma {:induction false} ScansValue(args: seq<string>, idx: nat, pre: seq<string>, items: seq<Item>, tail: seq<string>,
                                      values: map<string, Value>, params: seq<Param>)
    returns (pre': seq<string>, tail': seq<string>, values': map<string, Value>)
    requires AllProper(params, items) && items != [] && (items[0].PlainArg? || items[0].SentenceArg?)
    requires args == pre + RenderOnto(items, tail) && idx == |pre|
    ensures FollowsAt(args, idx, pre, items, tail', values, Scan(items, idx - |pre|, Select(pre, params, true)), pre', values', params)
    ensures Pruned(tail, tail', params)
    decreases |items|, 0
  {
    var item, rest := items[0], items[1..];
    var left, idx1 := RenderOnto(rest, tail), if item.PlainArg? then idx else idx + 1;
    assert Proper(params, item);
    if item.PlainArg? {
      StepPlain(pre, item, left, values, params);
    } else {
      StepSentence(pre, item, left, values, params);
    }
    pre', tail', values' := ScansOn(args, idx, [ReadingOf(item)], pre + left, idx1, pre, rest, tail, Store(values, item), pre, items,
                                    values, Scan(items, idx - |pre|, Select(pre, params, true)), params);
  }

  lemma ScansNothing(args: seq<string>, idx: nat, pre: seq<string>, tail: seq<string>, values: map<string, Value>, params: seq<Param>)
    requires args == pre + tail && idx >= |pre|
    ensures FollowsAt(args, idx, pre, [], tail, values, Scan([], idx - |pre|, Select(pre, params, true)), pre, values, params)
  {
    assert Select(pre, params, false) + [] == Select(pre, params, false);
    assert [] + ReadFrom(args, idx, params) == ReadFrom(args, idx, params);
  }

  lemma ScansLost(args: seq<string>, idx: nat, pre: seq<string>, items: seq<Item>, tail: seq<string>, values: map<string, Value>,
                  params: seq<Param>)
    requires AllProper(params, items) && items != [] && (items[0].PlainArg? || items[0].SentenceArg?)
    requires args == pre + RenderOnto(items, tail) && idx > |pre|
    ensures FollowsAt(args, idx, pre, items, tail, values, Scan(items, idx - |pre|, Select(pre, params, true)), pre, values, params)
  {
    SkippedStays(args, idx, pre, items, tail, values, params);
  }

  /** `args` is `pre` followed by the items and the tail, and the parser stands at `idx`, not before the end of `pre`. */
  lemma {:induction false} Scans(args: seq<string>, idx: nat, pre: seq<string>, items: seq<Item>, tail: seq<string>,
                                 values: map<string, Value>, params: seq<Param>)
    returns (pre': seq<string>, tail': seq<string>, values': map<string, Value>)
    requires AllProper(params, items) && args == pre + RenderOnto(items, tail) && idx >= |pre|
    ensures FollowsAt(args, idx, pre, items, tail', values, Scan(items, idx - |pre|, Select(pre, params, true)), pre', values', params)
    ensures Pruned(tail, tail', params)
    decreases |items|, 1
  {
    pre', tail', values' := pre, tail, values;
    PrunedNothing(tail, params);
    if items == [] {
      ScansNothing(args, idx, pre, tail, values, params);
    } else if items[0].Word? {
      pre', tail', values' := ScansWord(args, idx, pre, items, tail, values, params);
    } else if items[0].FlagArg? {
      if idx > |pre| {
        pre', tail', values' := ScansSkipped(args, idx, pre, items, tail, values, params);
      } else if Untouched(items[1..], items[0].token) {
        pre', tail', values' := ScansFlag(args, idx, pre, items, tail, values, params);
      } else {
        ScansTouched(args, idx, pre, items, tail, values, params);
      }
    } else if idx > |pre| {
      ScansLost(args, idx, pre, items, tail, values, params);
    } else {
      pre', tail', values' := ScansValue(args, idx, pre, items, tail, values, params);
    }
  }

  /** The same from the start of the input. */
  lemma ScansLine(items: seq<Item>, tail: seq<string>, params: seq<Param>)
    returns (pre': seq<string>, tail': seq<string>, values': map<string, Value>)
    requires AllProper(params, items)
    ensures FollowsAt(RenderOnto(items, tail), 0, [], items, tail', Defaults(params), Scan(items, 0, []), pre', values', params)
    ensures Pruned(tail, tail', params)
  {
    assert [] + RenderOnto(items, tail) == RenderOnto(items, tail);
    pre', tail', values' := Scans(RenderOnto(items, tail), 0, [], items, tail, Defaults(params), params);
  }
}
