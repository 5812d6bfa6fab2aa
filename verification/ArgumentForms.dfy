/** What the parser does with tokens as they are typed, stated without its own lookup: which tokens name a parameter, what
    each of them sets, and what stays. */
module ArgumentForms {
  import opened Common
  import opened Texts
  import opened Arguments

  /** Two dashes and the name, or one dash and its first character. */
  predicate Names(token: string, name: string) {
    || token == ['-', '-'] + name
    || (name != "" && token == ['-', name[0]])
    || (name == "" && token == "-undefined")
  }

  /** The token names parameter `k` and none declared before it. */
  predicate FirstNamed(params: seq<Param>, k: nat, token: string) {
    k < |params| && Names(token, params[k].name) && forall j :: 0 <= j < k ==> !Names(token, params[j].name)
  }

  predicate NamesNone(params: seq<Param>, token: string) {
    forall k :: 0 <= k < |params| ==> !Names(token, params[k].name)
  }

  lemma NamesWhenMatched(p: Param, token: string)
    ensures Matches(p, token) <==> Names(token, p.name)
  {
    assert "--" + p.name == ['-', '-'] + p.name;
    if p.name != "" {
      assert p.name[..1] == [p.name[0]];
      assert "-" + [p.name[0]] == ['-', p.name[0]];
    }
  }

  /** A token finds the first declared parameter it names. */
  lemma {:induction false} FindsFirst(params: seq<Param>, k: nat, token: string)
    requires FirstNamed(params, k, token)
    ensures Find(params, token) == Some(params[k])
  {
    NamesWhenMatched(params[0], token);
    if k > 0 {
      assert forall j :: 0 <= j < k - 1 ==> params[1..][j] == params[j + 1];
      FindsFirst(params[1..], k - 1, token);
    }
  }

  lemma {:induction false} FindsNone(params: seq<Param>, token: string)
    requires NamesNone(params, token)
    ensures Find(params, token) == None
  {
    if params != [] {
      NamesWhenMatched(params[0], token);
      assert forall k :: 0 <= k < |params| - 1 ==> params[1..][k] == params[k + 1];
      FindsNone(params[1..], token);
    }
  }

  /** The value a parameter starts with. */
  function Unset(p: Param): Value {
    match p.argType
    case StringArg => Text("")
    case BooleanArg => Switch(false)
  }

  lemma {:induction false} DefaultsUnset(params: seq<Param>, k: nat)
    requires k < |params| && forall j :: k < j < |params| ==> params[j].name != params[k].name
    ensures params[k].name in Defaults(params) && Defaults(params)[params[k].name] == Unset(params[k])
  {
    if k < |params| - 1 {
      DefaultsUnset(Front(params), k);
    }
  }

  ghost predicate AllFree(words: seq<string>, params: seq<Param>) {
    forall i :: 0 <= i < |words| ==> NamesNone(params, words[i])
  }

  lemma {:induction false} WordsPass(words: seq<string>, idx: nat, values: map<string, Value>, params: seq<Param>)
    requires AllFree(words, params)
    ensures ParseFrom(words, idx, values, params) == Parsed(words, values)
    decreases |words| - idx
  {
    if idx < |words| {
      FindsNone(params, words[idx]);
      WordTurn(words, idx, values, params);
      WordsPass(words, idx + 1, values, params);
    }
  }

  /** Tokens that name no parameter stay, all of them and in order, and every declared parameter is unset: the empty string
      or false. */
  lemma FreeTokensStay(words: seq<string>, params: seq<Param>)
    requires AllFree(words, params)
    ensures
      var r := Parse(words, params);
      && r.Parsed? && r.output == words
      && (forall n :: n in r.values <==> exists k :: 0 <= k < |params| && params[k].name == n)
      && forall k :: 0 <= k < |params| && (forall j :: k < j < |params| ==> params[j].name != params[k].name) ==>
           r.values[params[k].name] == if params[k].argType.StringArg? then Text("") else Switch(false)
  {
    WordsPass(words, 0, Defaults(params), params);
    forall k | 0 <= k < |params| && (forall j :: k < j < |params| ==> params[j].name != params[k].name)
      ensures Defaults(params)[params[k].name] == if params[k].argType.StringArg? then Text("") else Switch(false)
    {
      DefaultsUnset(params, k);
    }
  }

  /** What a line with nothing but one parameter gives: that parameter's value, the others unset. */
  ghost predicate SetsOnly(r: ParseResult, params: seq<Param>, name: string, value: Value) {
    && r.Parsed? && r.output == []
    && Parse([], params).Parsed? && r.values == Parse([], params).values[name := value]
  }

  /** A flag in its long or its short form, of whichever declared parameter the token names first, is set. */
  lemma FlagTokenSets(params: seq<Param>, k: nat, token: string)
    requires FirstNamed(params, k, token) && params[k].argType.BooleanArg?
    ensures SetsOnly(Parse([token], params), params, params[k].name, Switch(true))
  {
    FindsFirst(params, k, token);
    HeadTail(token, []);
    assert Without([token], token) == [];
    FlagTurn([token], 0, [], Defaults(params), params, params[k].name);
  }

  /** A parameter in either form reads the token behind it as its value, unless that opens a sentence. */
  lemma ValueTokenReads(params: seq<Param>, k: nat, token: string, value: string)
    requires FirstNamed(params, k, token) && params[k].argType.StringArg?
    requires value != "" && value[0] != '"' && value[0] != '\''
    ensures SetsOnly(Parse([token, value], params), params, params[k].name, Text(value))
  {
    FindsFirst(params, k, token);
    var args := [token, value];
    assert args[..0] + args[2..] == [];
    PlainTurn(args, 0, [], Defaults(params), params, params[k].name);
  }

  lemma SentenceEndsHere(args: seq<string>, quote: char)
    requires |args| == 2 && args[1] != "" && args[1][|args[1]| - 1] == quote
    ensures FindEnd(args, 1, quote) == Some(1)
  {
  }

  /** A token in quotes of either kind is read without them. */
  lemma QuotedTokenReads(params: seq<Param>, k: nat, token: string, quote: char, text: string)
    requires FirstNamed(params, k, token) && params[k].argType.StringArg?
    requires quote == '"' || quote == '\''
    ensures SetsOnly(Parse([token, [quote] + text + [quote]], params), params, params[k].name, Text(text))
  {
    FindsFirst(params, k, token);
    var sentence := [quote] + text + [quote];
    var args := [token, sentence];
    SentenceEndsHere(args, quote);
    assert args[..0] + args[2..] == [] && args[1..2] == [sentence] && sentence[1..|sentence| - 1] == text;
    SentenceTurn(args, 0, 1, [], Defaults(params), params, params[k].name);
  }

  /** A quote on its own opens and closes an empty sentence. */
  lemma LoneQuoteReads(params: seq<Param>, k: nat, token: string, quote: char)
    requires FirstNamed(params, k, token) && params[k].argType.StringArg?
    requires quote == '"' || quote == '\''
    ensures SetsOnly(Parse([token, [quote]], params), params, params[k].name, Text(""))
  {
    FindsFirst(params, k, token);
    var args := [token, [quote]];
    SentenceEndsHere(args, quote);
    assert args[..0] + args[2..] == [] && args[1..2] == [[quote]];
    SentenceTurn(args, 0, 1, [], Defaults(params), params, params[k].name);
  }

  /** Without a value behind it, it throws. */
  lemma MissingValueThrows(params: seq<Param>, k: nat, token: string)
    requires FirstNamed(params, k, token) && params[k].argType.StringArg?
    ensures Parse([token], params) == Failed(ExpectedValue(token)) && Parse([token, ""], params) == Failed(ExpectedValue(token))
  {
    FindsFirst(params, k, token);
    ThrowingTurn([token], 0, Defaults(params), params, params[k].name);
    ThrowingTurn([token, ""], 0, Defaults(params), params, params[k].name);
  }

  lemma LongFormDecides(a: string, b: string)
    ensures ['-', '-'] + a == ['-', '-'] + b ==> a == b
  {
    assert (['-', '-'] + a)[2..] == a && (['-', '-'] + b)[2..] == b;
  }

  /** Both forms of a name work, and of several names with one first letter the first declared has the short form. */
  lemma BothForms(params: seq<Param>, k: nat)
    requires k < |params| && params[k].name != ""
    requires forall j :: 0 <= j < k ==> params[j].name != params[k].name
    ensures
      var long := ['-', '-'] + params[k].name;
      (forall j :: 0 <= j < k && params[j].name != "" ==> ['-', params[j].name[0]] != long) ==> FirstNamed(params, k, long)
    ensures
      var short := ['-', params[k].name[0]];
      (forall j :: 0 <= j < k ==> (params[j].name != "" ==> params[j].name[0] != params[k].name[0]) && ['-', '-'] + params[j].name != short)
        ==> FirstNamed(params, k, short)
  {
    forall j | 0 <= j < k ensures ['-', '-'] + params[j].name != ['-', '-'] + params[k].name {
      LongFormDecides(params[j].name, params[k].name);
    }
    assert "-undefined"[1] == 'u' && |"-undefined"| == 10;
    assert (['-', '-'] + params[k].name)[1] == '-';
  }
}
