/** The command argument parser. One loop edits the token list it walks over and adjusts its own
    index; `ParseFrom` is that loop as a recursion. */
module Arguments {
  import opened Common
  import opened Texts

  datatype ArgType = StringArg | BooleanArg

  datatype Param = Param(argType: ArgType, name: string)

  datatype Value = Text(text: string) | Switch(on: bool)

  datatype Error = ExpectedValue(token: string) | ExpectedEndOfSentence(token: string)

  datatype ParseResult = Parsed(output: seq<string>, values: map<string, Value>) | Failed(error: Error)

  /** `'-' + name[0]`; the first character of an empty name is the word undefined. */
  function ShortForm(name: string): string {
    if name == "" then "-undefined" else "-" + name[..1]
  }

  predicate Matches(p: Param, token: string) {
    "--" + p.name == token || ShortForm(p.name) == token
  }

  function Find(params: seq<Param>, token: string): (r: Option<Param>)
    ensures r.Some? ==> r.value in params
  {
    if params == [] then None
    else if Matches(params[0], token) then Some(params[0])
    else Find(params[1..], token)
  }

  predicate IsSwitch(params: seq<Param>, token: string) {
    Find(params, token).Some? && Find(params, token).value.argType.BooleanArg?
  }

  function Default(argType: ArgType): Value {
    if argType.StringArg? then Text("") else Switch(false)
  }

  function Defaults(params: seq<Param>): (values: map<string, Value>)
    ensures forall n :: n in values <==> exists k :: 0 <= k < |params| && params[k].name == n
  {
    if params == [] then map[]
    else Defaults(Front(params))[Last(params).name := Default(Last(params).argType)]
  }

  /** `args.filter((a) => a !== token)`. */
  function Without(args: seq<string>, token: string): (r: seq<string>)
    ensures |r| <= |args| && (token in args ==> |r| < |args|)
  {
    if args == [] then []
    else if args[0] == token then Without(args[1..], token)
    else [args[0]] + Without(args[1..], token)
  }

  predicate StartsQuoted(token: string) {
    token != "" && (token[0] == '"' || token[0] == '\'')
  }

  predicate EndsIn(token: string, quote: char) {
    token != "" && token[|token| - 1] == quote
  }

  /** The first index from `start` on whose token ends in the quote. */
  function FindEnd(args: seq<string>, start: nat, quote: char): (r: Option<nat>)
    requires start <= |args|
    ensures r.Some? ==>
              && start <= r.value < |args| && EndsIn(args[r.value], quote)
              && forall i :: start <= i < r.value ==> !EndsIn(args[i], quote)
    ensures r.None? ==> forall i :: start <= i < |args| ==> !EndsIn(args[i], quote)
    decreases |args| - start
  {
    if start == |args| then None
    else if EndsIn(args[start], quote) then Some(start)
    else FindEnd(args, start + 1, quote)
  }

  /** `sentence.slice(1, sentence.length - 1)`, which is empty for a sentence of one character. */
  function Inner(sentence: string): string {
    if |sentence| < 2 then "" else sentence[1..|sentence| - 1]
  }

  /** The loop, standing at `idx`. */
  function ParseFrom(args: seq<string>, idx: nat, values: map<string, Value>, params: seq<Param>): ParseResult
    decreases |args| - idx, 3
  {
    if idx >= |args| then Parsed(args, values) else Examine(args, idx, Find(params, args[idx]), values, params)
  }

  function Examine(args: seq<string>, idx: nat, param: Option<Param>, values: map<string, Value>, params: seq<Param>): ParseResult
    requires idx < |args|
    decreases |args| - idx, 2
  {
    match param
    case None => ParseFrom(args, idx + 1, values, params)
    case Some(Param(BooleanArg, name)) => SetFlag(args, idx, name, values, params)
    case Some(Param(StringArg, name)) => ReadValue(args, idx, name, values, params)
  }

  function SetFlag(args: seq<string>, idx: nat, name: string, values: map<string, Value>, params: seq<Param>): ParseResult
    requires idx < |args|
    decreases |args| - idx, 0
  {
    ParseFrom(Without(args, args[idx]), idx + 1, values[name := Switch(true)], params)
  }

  function ReadValue(args: seq<string>, idx: nat, name: string, values: map<string, Value>, params: seq<Param>): ParseResult
    requires idx < |args|
    decreases |args| - idx, 1
  {
    if idx + 1 == |args| || args[idx + 1] == "" then Failed(ExpectedValue(args[idx]))
    else if StartsQuoted(args[idx + 1]) then ReadSentence(args, idx, name, values, params)
    else ParseFrom(args[..idx] + args[idx + 2..], idx, values[name := Text(args[idx + 1])], params)
  }

  function ReadSentence(args: seq<string>, idx: nat, name: string, values: map<string, Value>, params: seq<Param>): ParseResult
    requires idx + 1 < |args| && StartsQuoted(args[idx + 1])
    decreases |args| - idx, 0
  {
    match FindEnd(args, idx + 1, args[idx + 1][0])
    case None => Failed(ExpectedEndOfSentence(args[idx]))
    case Some(end) =>
      ParseFrom(args[..idx] + args[end + 1..], idx + 1, values[name := Text(Inner(Join(args[idx + 1..end + 1])))], params)
  }

  /** The parameter found is one the token names, and none is found only if the token names none. */
  lemma {:induction false} FindMatches(params: seq<Param>, token: string)
    ensures Find(params, token).Some? ==> Matches(Find(params, token).value, token)
    ensures Find(params, token).None? ==> forall p :: p in params ==> !Matches(p, token)
  {
    if params != [] {
      FindMatches(params[1..], token);
    }
  }

  /** A parameter is found by its name alone, in whichever form it is written. */
  lemma {:induction false} FindByName(params: seq<Param>, a: string, b: string)
    requires Find(params, a).Some? && Find(params, b).Some? && Find(params, a).value.name == Find(params, b).value.name
    ensures Find(params, a) == Find(params, b)
  {
    FindMatches(params, a);
    FindMatches(params, b);
    if !Matches(params[0], a) && !Matches(params[0], b) {
      FindByName(params[1..], a, b);
    }
  }

  /** One turn of the loop at a word. */
  lemma WordTurn(args: seq<string>, idx: nat, values: map<string, Value>, params: seq<Param>)
    requires idx < |args| && Find(params, args[idx]) == None
    ensures ParseFrom(args, idx, values, params) == ParseFrom(args, idx + 1, values, params)
  {
  }

  /** One turn of the loop at a flag. */
  lemma FlagTurn(args: seq<string>, idx: nat, left: seq<string>, values: map<string, Value>, params: seq<Param>, name: string)
    requires idx < |args| && Find(params, args[idx]) == Some(Param(BooleanArg, name)) && left == Without(args, args[idx])
    ensures ParseFrom(args, idx, values, params) == ParseFrom(left, idx + 1, values[name := Switch(true)], params)
  {
    assert ParseFrom(args, idx, values, params) == SetFlag(args, idx, name, values, params);
  }

  /** One turn of the loop at a parameter with a plain value. */
  lemma PlainTurn(args: seq<string>, idx: nat, left: seq<string>, values: map<string, Value>, params: seq<Param>, name: string)
    requires idx + 1 < |args| && args[idx + 1] != "" && !StartsQuoted(args[idx + 1])
    requires Find(params, args[idx]) == Some(Param(StringArg, name)) && left == args[..idx] + args[idx + 2..]
    ensures ParseFrom(args, idx, values, params) == ParseFrom(left, idx, values[name := Text(args[idx + 1])], params)
  {
    assert ParseFrom(args, idx, values, params) == ReadValue(args, idx, name, values, params);
  }

  /** One turn of the loop at a parameter with a sentence. */
  lemma SentenceTurn(args: seq<string>, idx: nat, end: nat, left: seq<string>, values: map<string, Value>,
                     params: seq<Param>, name: string)
    requires idx + 1 <= end < |args| && StartsQuoted(args[idx + 1])
    requires FindEnd(args, idx + 1, args[idx + 1][0]) == Some(end)
    requires Find(params, args[idx]) == Some(Param(StringArg, name)) && left == args[..idx] + args[end + 1..]
    ensures ParseFrom(args, idx, values, params)
         == ParseFrom(left, idx + 1, values[name := Text(Inner(Join(args[idx + 1..end + 1])))], params)
  {
    assert ParseFrom(args, idx, values, params) == ReadValue(args, idx, name, values, params);
    assert ReadValue(args, idx, name, values, params) == ReadSentence(args, idx, name, values, params);
  }

  /** The turns that throw. */
  lemma ThrowingTurn(args: seq<string>, idx: nat, values: map<string, Value>, params: seq<Param>, name: string)
    requires idx < |args| && Find(params, args[idx]) == Some(Param(StringArg, name))
    ensures idx + 1 == |args| || args[idx + 1] == "" ==> ParseFrom(args, idx, values, params) == Failed(ExpectedValue(args[idx]))
    ensures idx + 1 < |args| && StartsQuoted(args[idx + 1]) && FindEnd(args, idx + 1, args[idx + 1][0]).None? ==>
              ParseFrom(args, idx, values, params) == Failed(ExpectedEndOfSentence(args[idx]))
  {
    assert ParseFrom(args, idx, values, params) == ReadValue(args, idx, name, values, params);
    if idx + 1 < |args| && StartsQuoted(args[idx + 1]) {
      assert ReadValue(args, idx, name, values, params) == ReadSentence(args, idx, name, values, params);
    }
  }

  function Parse(args: seq<string>, params: seq<Param>): ParseResult {
    ParseFrom(args, 0, Defaults(params), params)
  }

  /** Every parameter starts with the default of its type. */
  method FillDefaults(params: seq<Param>) returns (values: map<string, Value>)
    ensures values == Defaults(params)
  {
    values := map[];
    for i := 0 to |params|
      invariant values == Defaults(params[..i])
    {
      assert Front(params[..i + 1]) == params[..i];
      values := values[params[i].name := Default(params[i].argType)];
    }
    assert params[..|params|] == params;
  }

  method ParseArguments(input: seq<string>, params: seq<Param>) returns (r: ParseResult)
    ensures r == Parse(input, params)
  {
    var values := FillDefaults(params);
    var args, idx := input, 0;
    while idx < |args|
      invariant 0 <= idx
      invariant ParseFrom(args, idx, values, params) == Parse(input, params)
      decreases |args| - idx
    {
      var arg := args[idx];
      var param := Find(params, arg);
      if param.None? {
        WordTurn(args, idx, values, params);
        idx := idx + 1;
        continue;
      }
      var name := param.value.name;
      if param.value.argType.BooleanArg? {
        FlagTurn(args, idx, Without(args, arg), values, params, name);
        values := values[name := Switch(true)];
        args := Without(args, arg);
        idx := idx + 1;
        continue;
      }
      ThrowingTurn(args, idx, values, params, name);
      if idx + 1 == |args| || args[idx + 1] == "" {
        return Failed(ExpectedValue(arg));
      }
      var value := args[idx + 1];
      if StartsQuoted(value) {
        var end := FindEnd(args, idx + 1, value[0]);
        if end.None? {
          return Failed(ExpectedEndOfSentence(arg));
        }
        var left := args[..idx] + args[end.value + 1..];
        SentenceTurn(args, idx, end.value, left, values, params, name);
        values := values[name := Text(Inner(Join(args[idx + 1..end.value + 1])))];
        args := left;
        idx := idx + 1;
        continue;
      }
      var left := args[..idx] + args[idx + 2..];
      PlainTurn(args, idx, left, values, params, name);
      values := values[name := Text(value)];
      args := left;
      if idx < |args| {
        idx := idx - 1;
      }
      idx := idx + 1;
    }
    return Parsed(args, values);
  }
}
