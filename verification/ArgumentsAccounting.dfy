/** Where every token of the input goes. */
module ArgumentsAccounting {
  import opened Common
  import opened Texts
  import opened Arguments

  /** What one turn of the loop takes out of the token list. */
  datatype Consumed =
    | Flag(token: string, name: string, copies: nat)
    | Plain(token: string, name: string, value: string)
    | Sentence(token: string, name: string, words: seq<string>)

  /** What the loop takes out from index `idx` on. */
  function Consumptions(args: seq<string>, idx: nat, params: seq<Param>): seq<Consumed>
    decreases |args| - idx, 3
  {
    if idx >= |args| then [] else Consume(args, idx, Find(params, args[idx]), params)
  }

  function Consume(args: seq<string>, idx: nat, param: Option<Param>, params: seq<Param>): seq<Consumed>
    requires idx < |args|
    decreases |args| - idx, 2
  {
    match param
    case None => Consumptions(args, idx + 1, params)
    case Some(Param(BooleanArg, name)) => ConsumeFlag(args, idx, name, params)
    case Some(Param(StringArg, name)) => ConsumeValue(args, idx, name, params)
  }

  function ConsumeFlag(args: seq<string>, idx: nat, name: string, params: seq<Param>): seq<Consumed>
    requires idx < |args|
    decreases |args| - idx, 0
  {
    [Flag(args[idx], name, multiset(args)[args[idx]])] + Consumptions(Without(args, args[idx]), idx + 1, params)
  }

  function ConsumeValue(args: seq<string>, idx: nat, name: string, params: seq<Param>): seq<Consumed>
    requires idx < |args|
    decreases |args| - idx, 1
  {
    if idx + 1 == |args| || args[idx + 1] == "" then []
    else if StartsQuoted(args[idx + 1]) then ConsumeSentence(args, idx, name, params)
    else [Plain(args[idx], name, args[idx + 1])] + Consumptions(args[..idx] + args[idx + 2..], idx, params)
  }

  function ConsumeSentence(args: seq<string>, idx: nat, name: string, params: seq<Param>): seq<Consumed>
    requires idx + 1 < |args| && StartsQuoted(args[idx + 1])
    decreases |args| - idx, 0
  {
    match FindEnd(args, idx + 1, args[idx + 1][0])
    case None => []
    case Some(end) =>
      [Sentence(args[idx], name, args[idx + 1..end + 1])] + Consumptions(args[..idx] + args[end + 1..], idx + 1, params)
  }

  lemma WordConsumed(args: seq<string>, idx: nat, params: seq<Param>)
    requires idx < |args| && Find(params, args[idx]) == None
    ensures Consumptions(args, idx, params) == Consumptions(args, idx + 1, params)
  {
  }

  lemma FlagConsumed(args: seq<string>, idx: nat, left: seq<string>, params: seq<Param>, name: string)
    requires idx < |args| && Find(params, args[idx]) == Some(Param(BooleanArg, name)) && left == Without(args, args[idx])
    ensures Consumptions(args, idx, params)
         == [Flag(args[idx], name, multiset(args)[args[idx]])] + Consumptions(left, idx + 1, params)
  {
    assert Consumptions(args, idx, params) == ConsumeFlag(args, idx, name, params);
  }

  lemma PlainConsumed(args: seq<string>, idx: nat, left: seq<string>, params: seq<Param>, name: string)
    requires idx + 1 < |args| && args[idx + 1] != "" && !StartsQuoted(args[idx + 1])
    requires Find(params, args[idx]) == Some(Param(StringArg, name)) && left == args[..idx] + args[idx + 2..]
    ensures Consumptions(args, idx, params) == [Plain(args[idx], name, args[idx + 1])] + Consumptions(left, idx, params)
  {
    assert Consumptions(args, idx, params) == ConsumeValue(args, idx, name, params);
  }

  lemma SentenceConsumed(args: seq<string>, idx: nat, end: nat, left: seq<string>, params: seq<Param>, name: string)
    requires idx + 1 <= end < |args| && StartsQuoted(args[idx + 1])
    requires FindEnd(args, idx + 1, args[idx + 1][0]) == Some(end)
    requires Find(params, args[idx]) == Some(Param(StringArg, name)) && left == args[..idx] + args[end + 1..]
    ensures Consumptions(args, idx, params)
         == [Sentence(args[idx], name, args[idx + 1..end + 1])] + Consumptions(left, idx + 1, params)
  {
    assert Consumptions(args, idx, params) == ConsumeValue(args, idx, name, params);
    assert ConsumeValue(args, idx, name, params) == ConsumeSentence(args, idx, name, params);
  }

  /** The consumption follows the documented syntax of a declared parameter. */
  predicate Legitimate(params: seq<Param>, c: Consumed) {
    match c
    case Flag(token, name, copies) => Find(params, token) == Some(Param(BooleanArg, name)) && copies >= 1
    case Plain(token, name, value) =>
      Find(params, token) == Some(Param(StringArg, name)) && value != "" && !StartsQuoted(value)
    case Sentence(token, name, words) =>
      && Find(params, token) == Some(Param(StringArg, name))
      && words != [] && StartsQuoted(words[0])
      && EndsIn(Last(words), words[0][0])
      && forall k :: 0 <= k < |words| - 1 ==> !EndsIn(words[k], words[0][0])
  }

  /** How many copies of `w` a consumption takes. */
  function Copies(c: Consumed, w: string): nat {
    match c
    case Flag(token, name, copies) => if token == w then copies else 0
    case Plain(token, name, value) => multiset([token, value])[w]
    case Sentence(token, name, words) => multiset([token] + words)[w]
  }

  function AllCopies(cs: seq<Consumed>, w: string): nat {
    if cs == [] then 0 else Copies(cs[0], w) + AllCopies(cs[1..], w)
  }

  function Apply(values: map<string, Value>, c: Consumed): map<string, Value> {
    match c
    case Flag(token, name, copies) => values[name := Switch(true)]
    case Plain(token, name, value) => values[name := Text(value)]
    case Sentence(token, name, words) => values[name := Text(Inner(Join(words)))]
  }

  function ApplyAll(values: map<string, Value>, cs: seq<Consumed>): map<string, Value>
    decreases |cs|
  {
    if cs == [] then values else ApplyAll(Apply(values, cs[0]), cs[1..])
  }

  // --- Subsequences --------------------------------------------------------------------------

  /** `at` gives the positions in `t` of the elements of `s`, in increasing order. */
  ghost predicate Embeds<T>(s: seq<T>, t: seq<T>, at: seq<nat>) {
    && |at| == |s|
    && (forall k {:trigger at[k]} :: 0 <= k < |at| ==> at[k] < |t| && s[k] == t[at[k]])
    && (forall j, k :: 0 <= j < k < |at| ==> at[j] < at[k])
  }

  ghost predicate Subsequence<T>(s: seq<T>, t: seq<T>) {
    exists at :: Embeds(s, t, at)
  }

  lemma SubsequenceOfItself<T>(s: seq<T>)
    ensures Subsequence(s, s)
  {
    assert Embeds(s, s, seq(|s|, k requires 0 <= k => k));
  }

  lemma SubsequenceTransitive<T>(s: seq<T>, t: seq<T>, u: seq<T>)
    requires Subsequence(s, t) && Subsequence(t, u)
    ensures Subsequence(s, u)
  {
    var f :| Embeds(s, t, f);
    var g :| Embeds(t, u, g);
    assert Embeds(s, u, seq(|s|, k requires 0 <= k < |s| => g[f[k]]));
  }

  lemma CutIsSubsequence<T>(s: seq<T>, i: nat, j: nat)
    requires i <= j <= |s|
    ensures Subsequence(s[..i] + s[j..], s)
  {
    assert Embeds(s[..i] + s[j..], s, seq(i + |s| - j, k requires 0 <= k => if k < i then k else k + j - i));
  }

  lemma SubsequenceOfLonger<T>(s: seq<T>, x: T, t: seq<T>)
    requires Subsequence(s, t)
    ensures Subsequence(s, [x] + t)
  {
    var f :| Embeds(s, t, f);
    assert Embeds(s, [x] + t, seq(|f|, k requires 0 <= k < |f| => f[k] + 1));
  }

  lemma SubsequencePrepend<T>(s: seq<T>, x: T, t: seq<T>)
    requires Subsequence(s, t)
    ensures Subsequence([x] + s, [x] + t)
  {
    var f :| Embeds(s, t, f);
    assert Embeds([x] + s, [x] + t, seq(|f| + 1, k requires 0 <= k < |f| + 1 => if k == 0 then 0 else f[k - 1] + 1));
  }

  lemma {:induction false} WithoutIsSubsequence(args: seq<string>, token: string)
    ensures Subsequence(Without(args, token), args)
  {
    if args == [] {
      SubsequenceOfItself(args);
    } else {
      WithoutIsSubsequence(args[1..], token);
      SubsequenceOfLonger(Without(args[1..], token), args[0], args[1..]);
      SubsequencePrepend(Without(args[1..], token), args[0], args[1..]);
      assert args == [args[0]] + args[1..];
      assert [] + Without(args[1..], token) == Without(args[1..], token);
    }
  }

  lemma {:induction false} WithoutCounts(args: seq<string>, token: string, w: string)
    ensures multiset(Without(args, token))[w] == if w == token then 0 else multiset(args)[w]
  {
    if args != [] {
      WithoutCounts(args[1..], token, w);
      assert args == [args[0]] + args[1..];
    }
  }

  lemma CutCounts(args: seq<string>, i: nat, j: nat, w: string)
    requires i <= j <= |args|
    ensures multiset(args[..i] + args[j..])[w] + multiset(args[i..j])[w] == multiset(args)[w]
  {
    assert args == args[..i] + args[i..j] + args[j..];
  }

  // --- The accounting ------------------------------------------------------------------------

  ghost predicate Accounted(args: seq<string>, values: map<string, Value>, params: seq<Param>, cs: seq<Consumed>,
                            r: ParseResult, w: string)
  {
    r.Parsed? ==>
      && Subsequence(r.output, args)
      && multiset(args)[w] == multiset(r.output)[w] + AllCopies(cs, w)
      && r.values == ApplyAll(values, cs)
      && forall k :: 0 <= k < |cs| ==> Legitimate(params, cs[k])
  }

  lemma AccountedStep(args: seq<string>, rest: seq<string>, values: map<string, Value>, params: seq<Param>,
                      c: Consumed, cs: seq<Consumed>, r: ParseResult, w: string)
    requires Accounted(rest, Apply(values, c), params, cs, r, w)
    requires Subsequence(rest, args) && multiset(args)[w] == multiset(rest)[w] + Copies(c, w)
    requires Legitimate(params, c)
    ensures Accounted(args, values, params, [c] + cs, r, w)
  {
    if r.Parsed? {
      SubsequenceTransitive(r.output, rest, args);
    }
    assert ([c] + cs)[1..] == cs;
  }

  lemma AccountFlag(args: seq<string>, idx: nat, values: map<string, Value>, params: seq<Param>, name: string,
                    cs: seq<Consumed>, r: ParseResult, w: string)
    requires idx < |args| && Find(params, args[idx]) == Some(Param(BooleanArg, name))
    requires Accounted(Without(args, args[idx]), values[name := Switch(true)], params, cs, r, w)
    ensures Accounted(args, values, params, [Flag(args[idx], name, multiset(args)[args[idx]])] + cs, r, w)
  {
    WithoutIsSubsequence(args, args[idx]);
    WithoutCounts(args, args[idx], w);
    AccountedStep(args, Without(args, args[idx]), values, params, Flag(args[idx], name, multiset(args)[args[idx]]), cs, r, w);
  }

  lemma AccountCut(args: seq<string>, idx: nat, next: nat, values: map<string, Value>, params: seq<Param>,
                   c: Consumed, cs: seq<Consumed>, r: ParseResult, w: string)
    requires idx < next <= |args| && Legitimate(params, c)
    requires Copies(c, w) == multiset(args[idx..next])[w]
    requires Accounted(args[..idx] + args[next..], Apply(values, c), params, cs, r, w)
    ensures Accounted(args, values, params, [c] + cs, r, w)
  {
    CutIsSubsequence(args, idx, next);
    CutCounts(args, idx, next, w);
    AccountedStep(args, args[..idx] + args[next..], values, params, c, cs, r, w);
  }

  lemma SentenceIsLegitimate(args: seq<string>, idx: nat, next: nat, params: seq<Param>, name: string)
    requires idx + 1 < next <= |args| && StartsQuoted(args[idx + 1])
    requires FindEnd(args, idx + 1, args[idx + 1][0]) == Some(next - 1)
    requires Find(params, args[idx]) == Some(Param(StringArg, name))
    ensures Legitimate(params, Sentence(args[idx], name, args[idx + 1..next]))
  {
  }

  lemma SentenceCopies(args: seq<string>, idx: nat, next: nat, name: string, w: string)
    requires idx + 1 < next <= |args|
    ensures Copies(Sentence(args[idx], name, args[idx + 1..next]), w) == multiset(args[idx..next])[w]
  {
    assert args[idx..next] == [args[idx]] + args[idx + 1..next];
  }

  ghost predicate AccountedAt(args: seq<string>, idx: nat, values: map<string, Value>, params: seq<Param>, w: string) {
    Accounted(args, values, params, Consumptions(args, idx, params), ParseFrom(args, idx, values, params), w)
  }

  lemma CarryAccount(args: seq<string>, idx: nat, values: map<string, Value>, params: seq<Param>, cs: seq<Consumed>,
                     r: ParseResult, w: string)
    requires Accounted(args, values, params, cs, r, w)
    requires Consumptions(args, idx, params) == cs && ParseFrom(args, idx, values, params) == r
    ensures AccountedAt(args, idx, values, params, w)
  {
  }

  lemma SentenceReadOn(args: seq<string>, idx: nat, end: nat, rest: seq<string>, values: map<string, Value>, params: seq<Param>,
                       name: string)
    requires idx + 1 <= end < |args| && StartsQuoted(args[idx + 1]) && rest == args[..idx] + args[end + 1..]
    requires FindEnd(args, idx + 1, args[idx + 1][0]) == Some(end) && Find(params, args[idx]) == Some(Param(StringArg, name))
    ensures
      var c := Sentence(args[idx], name, args[idx + 1..end + 1]);
      && ParseFrom(args, idx, values, params) == ParseFrom(rest, idx + 1, Apply(values, c), params)
      && Consumptions(args, idx, params) == [c] + Consumptions(rest, idx + 1, params)
      && Legitimate(params, c)
  {
    SentenceTurn(args, idx, end, rest, values, params, name);
    SentenceConsumed(args, idx, end, rest, params, name);
    SentenceIsLegitimate(args, idx, end + 1, params, name);
  }

  /** A parameter reads its value and the parser goes on behind what it cut out. */
  lemma {:induction false} AccountRead(args: seq<string>, idx: nat, next: nat, rest: seq<string>, idx1: nat,
                                       values: map<string, Value>, params: seq<Param>, c: Consumed, w: string)
    requires idx < next <= |args| && rest == args[..idx] + args[next..] && |rest| - idx1 < |args| - idx
    requires Legitimate(params, c) && Copies(c, w) == multiset(args[idx..next])[w]
    requires ParseFrom(args, idx, values, params) == ParseFrom(rest, idx1, Apply(values, c), params)
    requires Consumptions(args, idx, params) == [c] + Consumptions(rest, idx1, params)
    ensures AccountedAt(args, idx, values, params, w)
    decreases |args| - idx, 0
  {
    AccountFrom(rest, idx1, Apply(values, c), params, w);
    var cs, r := Consumptions(rest, idx1, params), ParseFrom(rest, idx1, Apply(values, c), params);
    AccountCut(args, idx, next, values, params, c, cs, r, w);
    CarryAccount(args, idx, values, params, [c] + cs, r, w);
  }

  lemma {:induction false} AccountSentence(args: seq<string>, idx: nat, end: nat, values: map<string, Value>, params: seq<Param>,
                                           name: string, w: string)
    requires idx + 1 <= end < |args| && StartsQuoted(args[idx + 1])
    requires FindEnd(args, idx + 1, args[idx + 1][0]) == Some(end) && Find(params, args[idx]) == Some(Param(StringArg, name))
    ensures AccountedAt(args, idx, values, params, w)
    decreases |args| - idx, 1
  {
    var rest, c := args[..idx] + args[end + 1..], Sentence(args[idx], name, args[idx + 1..end + 1]);
    SentenceReadOn(args, idx, end, rest, values, params, name);
    SentenceCopies(args, idx, end + 1, name, w);
    AccountRead(args, idx, end + 1, rest, idx + 1, values, params, c, w);
  }

  lemma {:induction false} AccountPlain(args: seq<string>, idx: nat, values: map<string, Value>, params: seq<Param>,
                                        name: string, w: string)
    requires idx + 1 < |args| && args[idx + 1] != "" && !StartsQuoted(args[idx + 1])
    requires Find(params, args[idx]) == Some(Param(StringArg, name))
    ensures AccountedAt(args, idx, values, params, w)
    decreases |args| - idx, 1
  {
    var rest, c := args[..idx] + args[idx + 2..], Plain(args[idx], name, args[idx + 1]);
    PlainTurn(args, idx, rest, values, params, name);
    PlainConsumed(args, idx, rest, params, name);
    assert args[idx..idx + 2] == [args[idx], args[idx + 1]];
    AccountRead(args, idx, idx + 2, rest, idx, values, params, c, w);
  }

  lemma {:induction false} AccountValue(args: seq<string>, idx: nat, values: map<string, Value>, params: seq<Param>,
                                        name: string, w: string)
    requires idx < |args| && Find(params, args[idx]) == Some(Param(StringArg, name))
    ensures AccountedAt(args, idx, values, params, w)
    decreases |args| - idx, 2
  {
    ThrowingTurn(args, idx, values, params, name);
    if ParseFrom(args, idx, values, params).Parsed? {
      if StartsQuoted(args[idx + 1]) {
        AccountSentence(args, idx, FindEnd(args, idx + 1, args[idx + 1][0]).value, values, params, name, w);
      } else {
        AccountPlain(args, idx, values, params, name, w);
      }
    }
  }

  lemma {:induction false} AccountSwitch(args: seq<string>, idx: nat, values: map<string, Value>, params: seq<Param>,
                                         name: string, w: string)
    requires idx < |args| && Find(params, args[idx]) == Some(Param(BooleanArg, name))
    ensures AccountedAt(args, idx, values, params, w)
    decreases |args| - idx, 0
  {
    var rest, values1 := Without(args, args[idx]), values[name := Switch(true)];
    AccountFrom(rest, idx + 1, values1, params, w);
    var cs, r := Consumptions(rest, idx + 1, params), ParseFrom(rest, idx + 1, values1, params);
    AccountFlag(args, idx, values, params, name, cs, r, w);
    FlagTurn(args, idx, rest, values, params, name);
    FlagConsumed(args, idx, rest, params, name);
    CarryAccount(args, idx, values, params, [Flag(args[idx], name, multiset(args)[args[idx]])] + cs, r, w);
  }

  lemma {:induction false} AccountWord(args: seq<string>, idx: nat, values: map<string, Value>, params: seq<Param>, w: string)
    requires idx < |args| && Find(params, args[idx]) == None
    ensures AccountedAt(args, idx, values, params, w)
    decreases |args| - idx, 0
  {
    AccountFrom(args, idx + 1, values, params, w);
    WordTurn(args, idx, values, params);
    WordConsumed(args, idx, params);
    CarryAccount(args, idx, values, params, Consumptions(args, idx + 1, params), ParseFrom(args, idx + 1, values, params), w);
  }

  lemma AccountEnd(args: seq<string>, idx: nat, values: map<string, Value>, params: seq<Param>, w: string)
    requires idx >= |args|
    ensures AccountedAt(args, idx, values, params, w)
  {
    SubsequenceOfItself(args);
    CarryAccount(args, idx, values, params, [], Parsed(args, values), w);
  }

  lemma {:induction false} AccountFrom(args: seq<string>, idx: nat, values: map<string, Value>, params: seq<Param>, w: string)
    ensures AccountedAt(args, idx, values, params, w)
    decreases |args| - idx, 3
  {
    if idx >= |args| {
      AccountEnd(args, idx, values, params, w);
    } else {
      match Find(params, args[idx])
      case None => AccountWord(args, idx, values, params, w);
      case Some(Param(BooleanArg, name)) => AccountSwitch(args, idx, values, params, name, w);
      case Some(Param(StringArg, name)) => AccountValue(args, idx, values, params, name, w);
    }
  }

  /** For every input that parses: the output is a subsequence of the input, each token of the input is in the
      output or was consumed, as often as it occurred, every consumption is that of a declared parameter, and
      the values are the defaults overwritten by the consumptions in order. */
  lemma EveryTokenAccountedFor(args: seq<string>, params: seq<Param>)
    requires Parse(args, params).Parsed?
    ensures
      var r, cs := Parse(args, params), Consumptions(args, 0, params);
      && Subsequence(r.output, args)
      && (forall w :: multiset(args)[w] == multiset(r.output)[w] + AllCopies(cs, w))
      && (forall k :: 0 <= k < |cs| ==> Legitimate(params, cs[k]))
      && r.values == ApplyAll(Defaults(params), cs)
  {
    var r, cs := Parse(args, params), Consumptions(args, 0, params);
    forall w
      ensures multiset(args)[w] == multiset(r.output)[w] + AllCopies(cs, w)
    {
      AccountFrom(args, 0, Defaults(params), params, w);
    }
    AccountFrom(args, 0, Defaults(params), params, "");
  }

  // --- The values ------------------------------------------------------------------------------

  ghost predicate Typed(values: map<string, Value>, params: seq<Param>) {
    && (forall n :: n in values <==> exists k :: 0 <= k < |params| && params[k].name == n)
    && (forall k :: 0 <= k < |params| ==> (values[params[k].name].Text? <==> params[k].argType.StringArg?))
  }

  ghost predicate DistinctNames(params: seq<Param>) {
    forall j, k :: 0 <= j < k < |params| ==> params[j].name != params[k].name
  }

  lemma TypedAppend(values: map<string, Value>, params: seq<Param>, p: Param)
    requires Typed(values, params) && forall k :: 0 <= k < |params| ==> params[k].name != p.name
    ensures Typed(values[p.name := Default(p.argType)], params + [p])
  {
    var more := params + [p];
    assert more[|params|] == p && forall k :: 0 <= k < |params| ==> more[k] == params[k];
  }

  lemma {:induction false} DefaultsTyped(params: seq<Param>)
    requires DistinctNames(params)
    ensures Typed(Defaults(params), params)
  {
    if params != [] {
      DefaultsTyped(Front(params));
      TypedAppend(Defaults(Front(params)), Front(params), Last(params));
      assert params == Front(params) + [Last(params)];
    }
  }

  lemma {:induction false} ApplyAllTyped(values: map<string, Value>, params: seq<Param>, cs: seq<Consumed>)
    requires DistinctNames(params) && Typed(values, params)
    requires forall k :: 0 <= k < |cs| ==> Legitimate(params, cs[k])
    ensures Typed(ApplyAll(values, cs), params)
    decreases |cs|
  {
    if cs != [] {
      var p := Find(params, cs[0].token).value;
      var k :| 0 <= k < |params| && params[k] == p;
      ApplyAllTyped(Apply(values, cs[0]), params, cs[1..]);
    }
  }

  /** With distinct names the keys of the values are exactly the declared names, a boolean parameter holds a
      boolean and a string parameter a string. */
  lemma ValuesAreTyped(args: seq<string>, params: seq<Param>)
    requires DistinctNames(params) && Parse(args, params).Parsed?
    ensures Typed(Parse(args, params).values, params)
  {
    EveryTokenAccountedFor(args, params);
    DefaultsTyped(params);
    ApplyAllTyped(Defaults(params), params, Consumptions(args, 0, params));
  }

  // --- What each parameter reads -----------------------------------------------------------------

  /** The consumptions that bring a value. */
  function Readings(cs: seq<Consumed>): seq<Consumed> {
    if cs == [] then []
    else if cs[0].Flag? then Readings(cs[1..])
    else [cs[0]] + Readings(cs[1..])
  }

  function ReadFrom(args: seq<string>, idx: nat, params: seq<Param>): seq<Consumed> {
    Readings(Consumptions(args, idx, params))
  }

  lemma ReadingsFirst(c: Consumed, cs: seq<Consumed>)
    ensures Readings([c] + cs) == if c.Flag? then Readings(cs) else [c] + Readings(cs)
  {
    HeadTail(c, cs);
  }

  lemma FlagReads(args: seq<string>, idx: nat, left: seq<string>, params: seq<Param>, name: string)
    requires idx < |args| && Find(params, args[idx]) == Some(Param(BooleanArg, name)) && left == Without(args, args[idx])
    ensures ReadFrom(args, idx, params) == ReadFrom(left, idx + 1, params)
  {
    FlagConsumed(args, idx, left, params, name);
    ReadingsFirst(Flag(args[idx], name, multiset(args)[args[idx]]), Consumptions(left, idx + 1, params));
  }

  lemma PlainReads(args: seq<string>, idx: nat, left: seq<string>, params: seq<Param>, name: string)
    requires idx + 1 < |args| && args[idx + 1] != "" && !StartsQuoted(args[idx + 1])
    requires Find(params, args[idx]) == Some(Param(StringArg, name)) && left == args[..idx] + args[idx + 2..]
    ensures ReadFrom(args, idx, params) == [Plain(args[idx], name, args[idx + 1])] + ReadFrom(left, idx, params)
  {
    PlainConsumed(args, idx, left, params, name);
    ReadingsFirst(Plain(args[idx], name, args[idx + 1]), Consumptions(left, idx, params));
  }

  lemma SentenceReads(args: seq<string>, idx: nat, end: nat, left: seq<string>, params: seq<Param>, name: string)
    requires idx + 1 <= end < |args| && StartsQuoted(args[idx + 1])
    requires FindEnd(args, idx + 1, args[idx + 1][0]) == Some(end)
    requires Find(params, args[idx]) == Some(Param(StringArg, name)) && left == args[..idx] + args[end + 1..]
    ensures ReadFrom(args, idx, params)
         == [Sentence(args[idx], name, args[idx + 1..end + 1])] + ReadFrom(left, idx + 1, params)
  {
    SentenceConsumed(args, idx, end, left, params, name);
    ReadingsFirst(Sentence(args[idx], name, args[idx + 1..end + 1]), Consumptions(left, idx + 1, params));
  }
}
