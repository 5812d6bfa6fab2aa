/** Command lines as lists of items in the documented syntax, the scan that tells which of them come back, and the
    parser's turn at each item. */
module ArgumentsItems {
  import opened Common
  import opened Texts
  import opened Arguments
  import opened ArgumentsAccounting

  /** One item of a command line. A parameter may be written in its long or its short form: `token` is the
      form used, and `name` the parameter it stands for. */
  datatype Item =
    | Word(word: string)
    | PlainArg(token: string, name: string, value: string)
    | SentenceArg(token: string, name: string, quote: char, words: seq<string>)
    | FlagArg(token: string, name: string)

  function Quoted(quote: char, words: seq<string>): (r: seq<string>)
    ensures |r| == |words|
  {
    if words == [] then []
    else if |words| == 1 then [[quote] + words[0] + [quote]]
    else [[quote] + words[0]] + words[1..|words| - 1] + [words[|words| - 1] + [quote]]
  }

  function Render(item: Item): seq<string>
  {
    match item
    case Word(word) => [word]
    case PlainArg(token, name, value) => [token, value]
    case SentenceArg(token, name, quote, words) => [token] + Quoted(quote, words)
    case FlagArg(token, name) => [token]
  }

  /** No token ends in the quote. */
  predicate Unended(tokens: seq<string>, quote: char) {
    tokens == [] || (!EndsIn(tokens[0], quote) && Unended(tokens[1..], quote))
  }

  lemma {:induction false} UnendedAt(tokens: seq<string>, quote: char, k: nat)
    requires Unended(tokens, quote) && k < |tokens|
    ensures !EndsIn(tokens[k], quote)
  {
    if k > 0 {
      UnendedAt(tokens[1..], quote, k - 1);
    }
  }

  /** The item means what its token says, and a sentence can only end at its last word. */
  predicate Proper(params: seq<Param>, item: Item) {
    match item
    case Word(word) => Find(params, word) == None
    case PlainArg(token, name, value) =>
      Find(params, token) == Some(Param(StringArg, name)) && value != "" && !StartsQuoted(value)
    case SentenceArg(token, name, quote, words) =>
      && Find(params, token) == Some(Param(StringArg, name))
      && (quote == '"' || quote == '\'') && words != []
      && Unended(Quoted(quote, words)[..|words| - 1], quote)
    case FlagArg(token, name) => Find(params, token) == Some(Param(BooleanArg, name))
  }

  predicate AllProper(params: seq<Param>, items: seq<Item>) {
    items == [] || (Proper(params, items[0]) && AllProper(params, items[1..]))
  }

  /** The tokens of the items, followed by `tail`. */
  function RenderOnto(items: seq<Item>, tail: seq<string>): seq<string>
  {
    if items == [] then tail else Render(items[0]) + RenderOnto(items[1..], tail)
  }

  function Words(items: seq<Item>): seq<string> {
    if items == [] then []
    else if items[0].Word? then [items[0].word] + Words(items[1..])
    else Words(items[1..])
  }

  function Store(values: map<string, Value>, item: Item): map<string, Value> {
    match item
    case Word(word) => values
    case PlainArg(token, name, value) => values[name := Text(value)]
    case SentenceArg(token, name, quote, words) => values[name := Text(Join(words))]
    case FlagArg(token, name) => values[name := Switch(true)]
  }

  function StoreAll(values: map<string, Value>, items: seq<Item>): map<string, Value>
    decreases |items|
  {
    if items == [] then values else StoreAll(Store(values, items[0]), items[1..])
  }

  /** What the parameter of an item should read. */
  function ReadingOf(item: Item): Consumed
    requires item.PlainArg? || item.SentenceArg?
  {
    match item
    case PlainArg(token, name, value) => Plain(token, name, value)
    case SentenceArg(token, name, quote, words) => Sentence(token, name, Quoted(quote, words))
  }

  function Taken(items: seq<Item>): seq<Consumed> {
    if items == [] then []
    else if items[0].PlainArg? || items[0].SentenceArg? then [ReadingOf(items[0])] + Taken(items[1..])
    else Taken(items[1..])
  }

  // --- Which lines come back -------------------------------------------------------------------

  function Count(args: seq<string>, token: string): nat {
    if args == [] then 0 else (if args[0] == token then 1 else 0) + Count(args[1..], token)
  }

  predicate IsFlag(item: Item, token: string) {
    item.FlagArg? && item.token == token
  }

  /** The items without the flags written as `token`. */
  function Others(items: seq<Item>, token: string): (r: seq<Item>)
    ensures |r| <= |items|
  {
    if items == [] then []
    else if IsFlag(items[0], token) then Others(items[1..], token)
    else [items[0]] + Others(items[1..], token)
  }

  /** How a line ends: a parameter with a value was skipped unexamined; or a flag removed its token from a value
      behind it; or the parser gets to the end with `skip` tokens still to skip and the flags it skipped before left
      behind. */
  datatype Outcome = Lost | Spoilt | Reached(skip: nat, skipped: seq<string>)

  function ValueTokens(item: Item): seq<string> {
    match item
    case PlainArg(_, _, value) => [value]
    case SentenceArg(_, _, quote, words) => Quoted(quote, words)
    case _ => []
  }

  predicate Untouched(items: seq<Item>, token: string) {
    items == [] || (token !in ValueTokens(items[0]) && Untouched(items[1..], token))
  }

  /** A flag and a sentence make the parser skip one token. A flag also removes its copies, those skipped before
      among them, and since the index does not move back each of these makes it skip one token more. */
  function Scan(items: seq<Item>, skip: nat, skipped: seq<string>): Outcome
    decreases |items|
  {
    if items == [] then Reached(skip, skipped)
    else if skip > 0 then
      match items[0]
      case Word(_) => Scan(items[1..], skip - 1, skipped)
      case FlagArg(token, _) => Scan(items[1..], skip - 1, skipped + [token])
      case _ => Lost
    else
      match items[0]
      case FlagArg(token, _) =>
        if !Untouched(items[1..], token) then Spoilt
        else Scan(Others(items[1..], token), Count(skipped, token) + 1, Without(skipped, token))
      case SentenceArg(_, _, _, _) => Scan(items[1..], 1, skipped)
      case _ => Scan(items[1..], 0, skipped)
  }

  predicate Cleared(o: Outcome) {
    o.Reached? && o.skipped == []
  }

  /** No value behind a flag contains the flag's token, which the flag would remove from it. */
  predicate ValuesKept(items: seq<Item>) {
    items == [] || ((items[0].FlagArg? ==> Untouched(items[1..], items[0].token)) && ValuesKept(items[1..]))
  }

  /** No flag of the items is among the tokens. */
  predicate Apart(items: seq<Item>, tokens: seq<string>) {
    items == [] || ((items[0].FlagArg? ==> items[0].token !in tokens) && Apart(items[1..], tokens))
  }

  predicate HasFlag(items: seq<Item>, token: string) {
    items != [] && (IsFlag(items[0], token) || HasFlag(items[1..], token))
  }

  predicate FlagsDistinct(items: seq<Item>) {
    items == [] || ((items[0].FlagArg? ==> !HasFlag(items[1..], items[0].token)) && FlagsDistinct(items[1..]))
  }

  predicate Skips(item: Item) {
    item.FlagArg? || item.SentenceArg?
  }

  /** Every flag and every sentence is followed by a plain word or by nothing. */
  predicate Spaced(items: seq<Item>) {
    items == [] || ((Skips(items[0]) && |items| > 1 ==> items[1].Word?) && Spaced(items[1..]))
  }

  // --- One item at a time ----------------------------------------------------------------------

  lemma Middle<T>(pre: seq<T>, mid: seq<T>, rest: seq<T>)
    ensures
      var all := pre + (mid + rest);
      && |all| == |pre| + |mid| + |rest|
      && all[..|pre|] == pre
      && all[|pre|..|pre| + |mid|] == mid
      && all[|pre| + |mid|..] == rest
      && (forall k :: 0 <= k < |mid| ==> all[|pre| + k] == mid[k])
  {
  }

  lemma StepPlain(pre: seq<string>, item: Item, rest: seq<string>, values: map<string, Value>, params: seq<Param>)
    requires item.PlainArg? && Proper(params, item)
    ensures ParseFrom(pre + (Render(item) + rest), |pre|, values, params)
         == ParseFrom(pre + rest, |pre|, Store(values, item), params)
    ensures ReadFrom(pre + (Render(item) + rest), |pre|, params) == [ReadingOf(item)] + ReadFrom(pre + rest, |pre|, params)
  {
    Middle(pre, Render(item), rest);
    PlainTurn(pre + (Render(item) + rest), |pre|, pre + rest, values, params, item.name);
    PlainReads(pre + (Render(item) + rest), |pre|, pre + rest, params, item.name);
  }

  lemma {:induction false} WithoutAbsent(args: seq<string>, token: string)
    requires token !in args
    ensures Without(args, token) == args
  {
    if args != [] {
      WithoutAbsent(args[1..], token);
    }
  }

  lemma {:induction false} WithoutConcat(a: seq<string>, b: seq<string>, token: string)
    ensures Without(a + b, token) == Without(a, token) + Without(b, token)
  {
    if a == [] {
      assert a + b == b;
    } else {
      WithoutConcat(a[1..], b, token);
      assert (a + b)[1..] == a[1..] + b;
      Associative([a[0]], Without(a[1..], token), Without(b, token));
    }
  }

  lemma {:induction false} CountConcat(a: seq<string>, b: seq<string>, token: string)
    ensures Count(a + b, token) == Count(a, token) + Count(b, token)
  {
    if a == [] {
      assert a + b == b;
    } else {
      CountConcat(a[1..], b, token);
      assert (a + b)[1..] == a[1..] + b;
    }
  }

  lemma {:induction false} CountAbsent(args: seq<string>, token: string)
    ensures Count(args, token) == 0 <==> token !in args
  {
    if args != [] {
      CountAbsent(args[1..], token);
    }
  }

  lemma {:induction false} WithoutShortens(args: seq<string>, token: string)
    ensures |Without(args, token)| + Count(args, token) == |args|
  {
    if args != [] {
      WithoutShortens(args[1..], token);
    }
  }

  lemma {:induction false} WithoutKeeps(args: seq<string>, token: string, f: string)
    requires f != token
    ensures f in Without(args, token) <==> f in args
  {
    if args != [] {
      WithoutKeeps(args[1..], token, f);
      assert args == [args[0]] + args[1..];
    }
  }

  function Less(skip: nat): nat {
    if skip > 0 then skip - 1 else 0
  }

  lemma StepFlag(pre: seq<string>, item: Item, rest: seq<string>, values: map<string, Value>, params: seq<Param>)
    requires item.FlagArg? && Proper(params, item)
    ensures ParseFrom(pre + (Render(item) + rest), |pre|, values, params)
         == ParseFrom(Without(pre, item.token) + Without(rest, item.token), |pre| + 1, Store(values, item), params)
    ensures ReadFrom(pre + (Render(item) + rest), |pre|, params)
         == ReadFrom(Without(pre, item.token) + Without(rest, item.token), |pre| + 1, params)
  {
    Middle(pre, Render(item), rest);
    WithoutConcat(pre, Render(item) + rest, item.token);
    WithoutConcat(Render(item), rest, item.token);
    assert Without(Render(item), item.token) == [];
    var left := Without(pre, item.token) + Without(rest, item.token);
    FlagTurn(pre + (Render(item) + rest), |pre|, left, values, params, item.name);
    FlagReads(pre + (Render(item) + rest), |pre|, left, params, item.name);
  }

  /** Taking the quotes off the joined tokens of a sentence gives its words. */
  lemma InnerOfQuoted(quote: char, words: seq<string>)
    requires words != []
    ensures Inner(Join(Quoted(quote, words))) == Join(words)
  {
    var prefixed := [[quote] + words[0]] + words[1..];
    assert Quoted(quote, words) == prefixed[..|prefixed| - 1] + [prefixed[|prefixed| - 1] + [quote]];
    JoinFirst(quote, words);
    JoinLast(prefixed, quote);
    assert Join(Quoted(quote, words)) == [quote] + Join(words) + [quote];
  }

  lemma SentenceEnd(args: seq<string>, idx: nat, item: Item)
    requires item.SentenceArg? && (item.quote == '"' || item.quote == '\'') && item.words != []
    requires Unended(Quoted(item.quote, item.words)[..|item.words| - 1], item.quote)
    requires idx + |item.words| < |args|
    requires args[idx + 1..idx + 1 + |item.words|] == Quoted(item.quote, item.words)
    ensures StartsQuoted(args[idx + 1]) && args[idx + 1][0] == item.quote
    ensures FindEnd(args, idx + 1, item.quote) == Some(idx + |item.words|)
  {
    var tokens := Quoted(item.quote, item.words);
    assert forall k :: 0 <= k < |tokens| ==> args[idx + 1 + k] == tokens[k];
    assert args[idx + 1] == tokens[0] && tokens[0][0] == item.quote;
    assert args[idx + |item.words|] == tokens[|tokens| - 1] && EndsIn(args[idx + |item.words|], item.quote);
    forall i | idx + 1 <= i < idx + |item.words| ensures !EndsIn(args[i], item.quote) {
      UnendedAt(tokens[..|tokens| - 1], item.quote, i - idx - 1);
      assert args[i] == tokens[i - idx - 1];
    }
  }

  lemma SentenceAt(args: seq<string>, idx: nat, left: seq<string>, item: Item, values: map<string, Value>,
                   params: seq<Param>)
    requires item.SentenceArg? && Proper(params, item)
    requires idx + |item.words| < |args| && args[idx] == item.token
    requires args[idx + 1..idx + 1 + |item.words|] == Quoted(item.quote, item.words)
    requires left == args[..idx] + args[idx + 1 + |item.words|..]
    ensures ParseFrom(args, idx, values, params) == ParseFrom(left, idx + 1, Store(values, item), params)
    ensures ReadFrom(args, idx, params) == [ReadingOf(item)] + ReadFrom(left, idx + 1, params)
  {
    SentenceEnd(args, idx, item);
    SentenceReads(args, idx, idx + |item.words|, left, params, item.name);
    SentenceTurn(args, idx, idx + |item.words|, left, values, params, item.name);
    InnerOfQuoted(item.quote, item.words);
  }

  lemma SliceTail(args: seq<string>, i: nat, token: string, tokens: seq<string>)
    requires i + 1 + |tokens| <= |args| && args[i..i + |[token] + tokens|] == [token] + tokens
    ensures args[i] == token && args[i + 1..i + 1 + |tokens|] == tokens
  {
    var slice := args[i..i + |[token] + tokens|];
    HeadTail(token, tokens);
    assert slice[0] == args[i];
    assert forall k :: 0 <= k < |tokens| ==> args[i + 1 + k] == slice[1..][k];
  }

  lemma StepSentence(pre: seq<string>, item: Item, rest: seq<string>, values: map<string, Value>, params: seq<Param>)
    requires item.SentenceArg? && Proper(params, item)
    ensures ParseFrom(pre + (Render(item) + rest), |pre|, values, params)
         == ParseFrom(pre + rest, |pre| + 1, Store(values, item), params)
    ensures ReadFrom(pre + (Render(item) + rest), |pre|, params) == [ReadingOf(item)] + ReadFrom(pre + rest, |pre| + 1, params)
  {
    var args, tokens := pre + (Render(item) + rest), Quoted(item.quote, item.words);
    Middle(pre, Render(item), rest);
    SliceTail(args, |pre|, item.token, tokens);
    SentenceAt(args, |pre|, pre + rest, item, values, params);
  }

  // --- Tokens behind the index -------------------------------------------------------------------

  /** One of the tokens names a parameter. */
  predicate NamesParameter(tokens: seq<string>, params: seq<Param>) {
    tokens != [] && (Find(params, tokens[0]).Some? || NamesParameter(tokens[1..], params))
  }

  /** Parsing did not give back the words: it failed, or left a parameter's token in the output. */
  predicate Misses(r: ParseResult, params: seq<Param>) {
    r.Failed? || NamesParameter(r.output, params)
  }

  lemma {:induction false} NamedByOne(tokens: seq<string>, f: string, params: seq<Param>)
    requires f in tokens && Find(params, f).Some?
    ensures NamesParameter(tokens, params)
  {
    if tokens[0] != f {
      NamedByOne(tokens[1..], f, params);
    }
  }

  /** `f` is behind the index and no flag, so nothing can remove it. */
  ghost predicate Left(args: seq<string>, idx: nat, f: string, params: seq<Param>) {
    !IsSwitch(params, f) && exists k :: 0 <= k < idx && k < |args| && args[k] == f
  }

  lemma LeftAfterFlag(args: seq<string>, idx: nat, f: string, params: seq<Param>)
    requires idx < |args| && IsSwitch(params, args[idx]) && Left(args, idx, f, params)
    ensures Left(Without(args, args[idx]), idx + 1, f, params)
  {
    var token, a, b := args[idx], args[..idx], args[idx..];
    assert args == a + b;
    WithoutConcat(a, b, token);
    WithoutKeeps(a, token, f);
    var k :| 0 <= k < |Without(a, token)| && Without(a, token)[k] == f;
    assert Without(args, token)[k] == f;
  }

  lemma LeftAfterCut(args: seq<string>, idx: nat, next: nat, idx': nat, f: string, params: seq<Param>)
    requires idx < next <= |args| && idx <= idx' && Left(args, idx, f, params)
    ensures Left(args[..idx] + args[next..], idx', f, params)
  {
    var k :| 0 <= k < idx && args[k] == f;
    assert (args[..idx] + args[next..])[k] == f;
  }

  predicate Keeps(r: ParseResult, f: string) {
    r.Parsed? ==> f in r.output
  }

  lemma {:induction false} LeftBehindValue(args: seq<string>, idx: nat, values: map<string, Value>, params: seq<Param>,
                                           name: string, f: string)
    requires Left(args, idx, f, params) && idx + 1 < |args| && args[idx + 1] != "" && !StartsQuoted(args[idx + 1])
    requires Find(params, args[idx]) == Some(Param(StringArg, name))
    ensures Keeps(ParseFrom(args, idx, values, params), f)
    decreases |args| - idx, 0
  {
    var left := args[..idx] + args[idx + 2..];
    LeftAfterCut(args, idx, idx + 2, idx, f, params);
    LeftStays(left, idx, values[name := Text(args[idx + 1])], params, f);
    PlainTurn(args, idx, left, values, params, name);
  }

  lemma {:induction false} LeftBehindSentence(args: seq<string>, idx: nat, end: nat, values: map<string, Value>,
                                              params: seq<Param>, name: string, f: string)
    requires Left(args, idx, f, params) && idx + 1 <= end < |args| && StartsQuoted(args[idx + 1])
    requires FindEnd(args, idx + 1, args[idx + 1][0]) == Some(end)
    requires Find(params, args[idx]) == Some(Param(StringArg, name))
    ensures Keeps(ParseFrom(args, idx, values, params), f)
    decreases |args| - idx, 0
  {
    var left := args[..idx] + args[end + 1..];
    LeftAfterCut(args, idx, end + 1, idx + 1, f, params);
    LeftStays(left, idx + 1, values[name := Text(Inner(Join(args[idx + 1..end + 1])))], params, f);
    SentenceTurn(args, idx, end, left, values, params, name);
  }

  lemma {:induction false} LeftStays(args: seq<string>, idx: nat, values: map<string, Value>, params: seq<Param>, f: string)
    requires Left(args, idx, f, params)
    ensures Keeps(ParseFrom(args, idx, values, params), f)
    decreases |args| - idx, 1
  {
    if idx < |args| {
      var arg := args[idx];
      match Find(params, arg)
      case None =>
        WordTurn(args, idx, values, params);
        LeftStays(args, idx + 1, values, params, f);
      case Some(Param(BooleanArg, name)) =>
        FlagTurn(args, idx, Without(args, arg), values, params, name);
        LeftAfterFlag(args, idx, f, params);
        LeftStays(Without(args, arg), idx + 1, values[name := Switch(true)], params, f);
      case Some(Param(StringArg, name)) =>
        ThrowingTurn(args, idx, values, params, name);
        if idx + 1 < |args| && args[idx + 1] != "" {
          if !StartsQuoted(args[idx + 1]) {
            LeftBehindValue(args, idx, values, params, name, f);
          } else if FindEnd(args, idx + 1, args[idx + 1][0]).Some? {
            LeftBehindSentence(args, idx, FindEnd(args, idx + 1, args[idx + 1][0]).value, values, params, name, f);
          }
        }
    }
  }

  lemma KeptMisses(r: ParseResult, f: string, params: seq<Param>)
    requires Keeps(r, f) && Find(params, f).Some?
    ensures Misses(r, params)
  {
    if r.Parsed? {
      NamedByOne(r.output, f, params);
    }
  }

  /** A parameter with a value that is skipped unexamined stays in the output. */
  lemma SkippedStays(args: seq<string>, idx: nat, pre: seq<string>, items: seq<Item>, tail: seq<string>,
                     values: map<string, Value>, params: seq<Param>)
    requires AllProper(params, items) && items != [] && (items[0].PlainArg? || items[0].SentenceArg?)
    requires args == pre + RenderOnto(items, tail) && idx > |pre|
    ensures Misses(ParseFrom(args, idx, values, params), params)
  {
    var f := items[0].token;
    assert Proper(params, items[0]);
    assert args[|pre|] == Render(items[0])[0] == f;
    LeftStays(args, idx, values, params, f);
    KeptMisses(ParseFrom(args, idx, values, params), f, params);
  }

  // --- What a flag removes -----------------------------------------------------------------------

  lemma {:induction false} OthersWords(items: seq<Item>, token: string)
    ensures Words(Others(items, token)) == Words(items)
  {
    if items != [] {
      OthersWords(items[1..], token);
      if !IsFlag(items[0], token) {
        HeadTail(items[0], Others(items[1..], token));
      }
    }
  }

  lemma {:induction false} OthersTaken(items: seq<Item>, token: string)
    ensures Taken(Others(items, token)) == Taken(items)
  {
    if items != [] {
      OthersTaken(items[1..], token);
      if !IsFlag(items[0], token) {
        HeadTail(items[0], Others(items[1..], token));
      }
    }
  }

  lemma {:induction false} OthersProper(items: seq<Item>, params: seq<Param>, token: string)
    requires AllProper(params, items)
    ensures AllProper(params, Others(items, token))
  {
    if items != [] {
      OthersProper(items[1..], params, token);
      if !IsFlag(items[0], token) {
        HeadTail(items[0], Others(items[1..], token));
      }
    }
  }

  /** Removing a flag's token from a printed line is removing the flag's items, and the token from what follows. */
  lemma {:induction false} RenderWithout(items: seq<Item>, tail: seq<string>, token: string, params: seq<Param>)
    requires AllProper(params, items) && Untouched(items, token) && IsSwitch(params, token)
    ensures Without(RenderOnto(items, tail), token) == RenderOnto(Others(items, token), Without(tail, token))
  {
    if items != [] {
      var item, rest := items[0], items[1..];
      assert Proper(params, item) && token !in ValueTokens(item);
      RenderWithout(rest, tail, token, params);
      WithoutConcat(Render(item), RenderOnto(rest, tail), token);
      if IsFlag(item, token) {
        HeadTail(token, []);
      } else {
        WithoutAbsent(Render(item), token);
        HeadTail(item, Others(rest, token));
      }
    }
  }
}
