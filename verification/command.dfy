/** `parseCommand` and the decision step of `validateCommand`
    (FoodTruckCLI/FoodTruckPrompter.js): a command such as
    `-sortBy=starttime,-isOpen=false` becomes a map of the recognised
    options and the list of unrecognised option names. */
module CommandParser {
  import opened Optional
  import opened Strings

  const ValidCommandOptions: set<string> := {"-sortBy", "-isOpen", "-batchSize"}
  const ResultKeys: set<string> := {"sortBy", "isOpen", "batchSize"}

  /** The comma-separated tokens of a command: the whole command is trimmed
      once, the tokens themselves are not. */
  function Tokens(command: string): seq<string> {
    Split(Trim(command), ',')
  }

  /** `option.split('=')[0]`. */
  function OptionName(token: string): string {
    Split(token, '=')[0]
  }

  /** `option.split('=')[1]`: the text between the first and the second `=`,
      absent when there is no `=`. */
  function OptionValue(token: string): Option<string> {
    var parts := Split(token, '=');
    if |parts| > 1 then Some(parts[1]) else None
  }

  /** `name.replace(/-/g, '')`. */
  function ResultKey(name: string): string {
    RemoveAll(name, '-')
  }

  predicate Recognised(token: string) {
    token != "" && OptionName(token) in ValidCommandOptions
  }

  predicate Unrecognised(token: string) {
    token != "" && OptionName(token) !in ValidCommandOptions
  }

  /** The result key of each recognised option name: the name without its
      dash (`KeyOfRemovesDashes` shows this is what `ResultKey` computes). */
  function KeyOf(name: string): Option<string> {
    if name == "-sortBy" then Some("sortBy")
    else if name == "-isOpen" then Some("isOpen")
    else if name == "-batchSize" then Some("batchSize")
    else None
  }

  /** The token writes result key `k`. */
  predicate SetsKey(token: string, k: string) {
    token != "" && KeyOf(OptionName(token)) == Some(k)
  }

  /** A name that is one dash and then dash-free text loses just that dash. */
  lemma DropDash(name: string, rest: string)
    requires name == "-" + rest && '-' !in rest
    ensures ResultKey(name) == rest
  {
    assert name[1..] == rest;
  }

  /** Exactly the recognised names have a key, and it is the name with its
      dashes removed. */
  lemma KeyOfRemovesDashes(name: string)
    ensures KeyOf(name).Some? <==> name in ValidCommandOptions
    ensures name in ValidCommandOptions ==> KeyOf(name) == Some(ResultKey(name))
    ensures name in ValidCommandOptions ==> ResultKey(name) in ResultKeys
  {
    if name == "-sortBy" {
      DropDash(name, "sortBy");
    } else if name == "-isOpen" {
      DropDash(name, "isOpen");
    } else if name == "-batchSize" {
      DropDash(name, "batchSize");
    }
  }

  /** Reference reading of the invalid list: the names of the non-empty,
      unrecognised tokens, in order of appearance. */
  function InvalidNames(ts: seq<string>): seq<string>
    decreases |ts|
  {
    if |ts| == 0 then []
    else (if Unrecognised(ts[0]) then [OptionName(ts[0])] else []) + InvalidNames(ts[1..])
  }

  lemma {:induction false} InvalidNamesSnoc(ts: seq<string>, t: string)
    ensures InvalidNames(ts + [t]) ==
            InvalidNames(ts) + (if Unrecognised(t) then [OptionName(t)] else [])
    decreases |ts|
  {
    if |ts| == 0 {
      assert ts + [t] == [t];
      assert [t][1..] == [];
    } else {
      assert (ts + [t])[0] == ts[0];
      assert (ts + [t])[1..] == ts[1..] + [t];
      InvalidNamesSnoc(ts[1..], t);
    }
  }

  lemma TokenKey(t: string)
    ensures Recognised(t) ==> ResultKey(OptionName(t)) in ResultKeys
    ensures forall k :: SetsKey(t, k) <==> Recognised(t) && ResultKey(OptionName(t)) == k
  {
    KeyOfRemovesDashes(OptionName(t));
  }

  /** What the loop of `parseCommand` has built so far: the `results`
      object and the `invalidParams` array. */
  datatype Outcome = Outcome(results: map<string, Option<string>>, invalidParams: seq<string>)

  /** One pass of the loop body of `parseCommand`: an empty token is skipped,
      a recognised one writes its value under its key, any other adds its
      name to the invalid list. */
  function AddToken(acc: Outcome, t: string): Outcome {
    if t == "" then acc
    else if OptionName(t) in ValidCommandOptions then
      acc.(results := acc.results[ResultKey(OptionName(t)) := OptionValue(t)])
    else acc.(invalidParams := acc.invalidParams + [OptionName(t)])
  }

  /** Reference reading of the result map: the value of the last token that
      sets key `k`, or nothing when no token sets it. */
  function LastValue(ts: seq<string>, k: string): Option<Option<string>>
    decreases |ts|
  {
    if |ts| == 0 then None
    else if SetsKey(ts[|ts| - 1], k) then Some(OptionValue(ts[|ts| - 1]))
    else LastValue(ts[..|ts| - 1], k)
  }

  /** `m[k]`, with a missing key read as nothing. */
  function Lookup(m: map<string, Option<string>>, k: string): Option<Option<string>> {
    if k in m then Some(m[k]) else None
  }

  /** A key with a value has a token that sets it, and the value is that token's. */
  lemma {:induction false} LastSetter(ts: seq<string>, k: string) returns (i: nat)
    requires LastValue(ts, k).Some?
    ensures i < |ts| && SetsKey(ts[i], k) && LastValue(ts, k) == Some(OptionValue(ts[i]))
    decreases |ts|
  {
    if SetsKey(ts[|ts| - 1], k) {
      i := |ts| - 1;
    } else {
      var front := ts[..|ts| - 1];
      i := LastSetter(front, k);
      assert ts[i] == front[i];
    }
  }

  /** A key that some token sets has a value. */
  lemma {:induction false} SetterGivesValue(ts: seq<string>, k: string, i: nat)
    requires i < |ts| && SetsKey(ts[i], k)
    ensures LastValue(ts, k).Some?
    decreases |ts|
  {
    if !SetsKey(ts[|ts| - 1], k) {
      var front := ts[..|ts| - 1];
      assert front[i] == ts[i];
      SetterGivesValue(front, k, i);
    }
  }

  /** A key has a value exactly when some token sets it. */
  lemma LastValueExists(ts: seq<string>, k: string)
    ensures LastValue(ts, k).Some? <==> exists i :: 0 <= i < |ts| && SetsKey(ts[i], k)
  {
    if LastValue(ts, k).Some? {
      var i := LastSetter(ts, k);
    }
    if exists i :: 0 <= i < |ts| && SetsKey(ts[i], k) {
      var i :| 0 <= i < |ts| && SetsKey(ts[i], k);
      SetterGivesValue(ts, k, i);
    }
  }

  /** The value is the one carried by the last token that sets the key. */
  lemma {:induction false} LastValueIsLast(ts: seq<string>, k: string, i: nat)
    requires i < |ts| && SetsKey(ts[i], k)
    requires forall j :: i < j < |ts| ==> !SetsKey(ts[j], k)
    ensures LastValue(ts, k) == Some(OptionValue(ts[i]))
    decreases |ts|
  {
    if i < |ts| - 1 {
      var front := ts[..|ts| - 1];
      assert !SetsKey(ts[|ts| - 1], k);
      forall j | i < j < |front| ensures !SetsKey(front[j], k) {
        assert front[j] == ts[j];
      }
      LastValueIsLast(front, k, i);
    }
  }

  lemma LastValueSnoc(ts: seq<string>, t: string, k: string)
    ensures LastValue(ts + [t], k) == if SetsKey(t, k) then Some(OptionValue(t)) else LastValue(ts, k)
  {
    assert (ts + [t])[..|ts|] == ts;
  }

  /** The loop of `parseCommand` over its tokens: empty tokens are skipped,
      recognised ones write their value under their key (a later one
      overwriting an earlier one), and the rest add their name to the
      invalid list. */
  function ParseTokens(ts: seq<string>): (r: Outcome)
    ensures r.results.Keys <= ResultKeys
    ensures forall k :: Lookup(r.results, k) == LastValue(ts, k)
    ensures r.invalidParams == InvalidNames(ts)
    decreases |ts|
  {
    if |ts| == 0 then Outcome(map[], [])
    else
      var front := ts[..|ts| - 1];
      var t := ts[|ts| - 1];
      assert ts == front + [t];
      var prev := ParseTokens(front);
      InvalidNamesSnoc(front, t);
      TokenKey(t);
      forall k
        ensures LastValue(ts, k) == (if SetsKey(t, k) then Some(OptionValue(t)) else LastValue(front, k))
      {
        LastValueSnoc(front, t, k);
      }
      AddToken(prev, t)
  }

  lemma ParseTokensSnoc(ts: seq<string>, t: string)
    ensures ParseTokens(ts + [t]) == AddToken(ParseTokens(ts), t)
  {
    assert (ts + [t])[..|ts|] == ts;
  }

  datatype Parsed = Parsed(results: map<string, Option<string>>, invalidParams: seq<string>, hasError: bool)

  /** `parseCommand`: the result map holds a key exactly when some token of
      the trimmed command sets it, with the value of the last such token;
      the invalid list is the reference one, and `hasError` says whether it
      is non-empty. */
  function ParseCommand(command: string): (r: Parsed)
    ensures r.hasError <==> |r.invalidParams| > 0
    ensures r.invalidParams == InvalidNames(Tokens(command))
    ensures r.results.Keys <= ResultKeys
    ensures forall k :: Lookup(r.results, k) == LastValue(Tokens(command), k)
  {
    var p := ParseTokens(Tokens(command));
    Parsed(p.results, p.invalidParams, |p.invalidParams| > 0)
  }

  function CountNonEmpty(ts: seq<string>): nat
    decreases |ts|
  {
    if |ts| == 0 then 0 else (if ts[0] != "" then 1 else 0) + CountNonEmpty(ts[1..])
  }

  function CountRecognised(ts: seq<string>): nat
    decreases |ts|
  {
    if |ts| == 0 then 0 else (if Recognised(ts[0]) then 1 else 0) + CountRecognised(ts[1..])
  }

  /** Every non-empty token goes to exactly one side: it is recognised, or its
      name is on the invalid list; empty tokens go nowhere. */
  lemma {:induction false} TokensPartition(ts: seq<string>)
    ensures |InvalidNames(ts)| + CountRecognised(ts) == CountNonEmpty(ts)
    ensures forall n :: n in InvalidNames(ts) ==> n !in ValidCommandOptions
    decreases |ts|
  {
    if |ts| > 0 {
      TokensPartition(ts[1..]);
    }
  }

  /** A token that starts with whitespace (as one after `, ` does) is never
      recognised, and its name keeps the whitespace. */
  lemma LeadingBlankRejected(token: string)
    requires |token| > 0 && IsWhitespace(token[0])
    ensures Unrecognised(token)
    ensures |OptionName(token)| > 0 && OptionName(token)[0] == token[0]
  {
    var name := OptionName(token);
    assert name == [token[0]] + Split(token[1..], '=')[0];
    assert "-sortBy"[0] == '-' && "-isOpen"[0] == '-' && "-batchSize"[0] == '-';
    assert name[0] != '-';
  }

  /** The value is the text between the first and the second `=`. */
  lemma OptionValueBetween(name: string, value: string, rest: string)
    requires '=' !in name && '=' !in value
    requires rest == "" || rest[0] == '='
    ensures OptionName(name + "=" + value + rest) == name
    ensures OptionValue(name + "=" + value + rest) == Some(value)
  {
    var t := name + "=" + value + rest;
    assert t == name + ['='] + (value + rest);
    SplitAt(name, value + rest, '=');
    if rest == "" {
      assert value + rest == value;
      SplitWhole(value, '=');
    } else {
      assert value + rest == value + ['='] + rest[1..];
      SplitAt(value, rest[1..], '=');
    }
  }

  /** Without `=` the whole token is the name and there is no value. */
  lemma NoEqualsNoValue(token: string)
    requires '=' !in token
    ensures OptionName(token) == token && OptionValue(token) == None
  {
    SplitWhole(token, '=');
  }

  /** A `name=value` token with neither part holding `=`. */
  lemma TokenParts(t: string, name: string, value: string)
    requires t == name + "=" + value && '=' !in name && '=' !in value
    ensures OptionName(t) == name && OptionValue(t) == Some(value)
  {
    assert t == name + "=" + value + "";
    OptionValueBetween(name, value, "");
  }

  /** What `validateCommand` does next. */
  datatype Decision =
    | SearchError(invalidParams: seq<string>)
    | InitSearch(options: map<string, Option<string>>)

  /** `validateCommand`: the first `run` anywhere in the command is removed
      (and only that one), the rest is parsed, and the error path is taken
      exactly when some option name was not recognised; otherwise the search
      starts with the parsed options. */
  function ValidateCommand(command: string): (r: Decision)
    ensures var ts := Tokens(ReplaceFirst(command, "run", ""));
            && (r.SearchError? <==> |InvalidNames(ts)| > 0)
            && (r.SearchError? ==> r.invalidParams == InvalidNames(ts))
            && (r.InitSearch? ==> r.options.Keys <= ResultKeys)
            && (r.InitSearch? ==> forall k :: Lookup(r.options, k) == LastValue(ts, k))
  {
    var parseResult := ParseCommand(ReplaceFirst(command, "run", ""));
    if parseResult.hasError then SearchError(parseResult.invalidParams)
    else InitSearch(parseResult.results)
  }

  /** A leading `run` is the one removed. */
  lemma StripLeadingRun(rest: string)
    ensures ReplaceFirst("run" + rest, "run", "") == rest
  {
    var command := "run" + rest;
    assert MatchAt(command, "run", 0);
    assert command[..0] + "" + command[3..] == rest;
  }

  /** A command with one leading blank and nothing to trim at the end. */
  lemma TokensAfterBlank(body: string)
    requires |body| > 0 && !IsWhitespace(body[0]) && !IsWhitespace(body[|body| - 1])
    ensures Tokens(" " + body) == Split(body, ',')
  {
    TrimOneLeadingBlank(body);
    assert [' '] + body == " " + body;
  }

  /** Three comma-free tokens, with nothing to trim at either end of the
      command, are read back as written. */
  lemma ThreeTokens(a: string, b: string, c: string)
    requires ',' !in a && ',' !in b && ',' !in c
    requires |a| > 0 && !IsWhitespace(a[0]) && |c| > 0 && !IsWhitespace(c[|c| - 1])
    ensures Tokens(a + "," + b + "," + c) == [a, b, c]
  {
    var body := a + "," + b + "," + c;
    assert body[0] == a[0] && body[|body| - 1] == c[|c| - 1];
    TrimUnchanged(body);
    assert body == a + [','] + b + [','] + c;
    SplitThree(a, b, c, ',');
  }

  /** Two recognised tokens and then an unrecognised one: only the last is reported. */
  lemma ThreeTokensInvalid(a: string, b: string, c: string)
    requires Recognised(a) && Recognised(b) && Unrecognised(c)
    ensures InvalidNames([a, b, c]) == [OptionName(c)]
  {
    assert [a, b, c][1..] == [b, c];
    assert [b, c][1..] == [c];
    assert [c][1..] == [];
    assert InvalidNames([c]) == [OptionName(c)] + InvalidNames([]);
    assert InvalidNames([b, c]) == [] + InvalidNames([c]);
    assert InvalidNames([a, b, c]) == [] + InvalidNames([b, c]);
  }

  /** A `run` followed by tokens that carry an unrecognised name is rejected
      with exactly those names. */
  lemma RunRejectedWith(rest: string, ts: seq<string>, names: seq<string>)
    requires Tokens(rest) == ts
    requires InvalidNames(ts) == names && |names| > 0
    ensures ValidateCommand("run" + rest) == SearchError(names)
  {
    StripLeadingRun(rest);
  }

  /** `run ` and three comma-separated tokens, the first two recognised and
      the last not: only the last token's name is reported. */
  lemma RunThreeTokensRejected(a: string, b: string, c: string)
    requires ',' !in a && ',' !in b && ',' !in c
    requires |a| > 0 && !IsWhitespace(a[0]) && |c| > 0 && !IsWhitespace(c[|c| - 1])
    requires Recognised(a) && Recognised(b) && Unrecognised(c)
    ensures ValidateCommand("run " + a + "," + b + "," + c) == SearchError([OptionName(c)])
  {
    var body := a + "," + b + "," + c;
    assert "run " + a + "," + b + "," + c == "run" + (" " + body);
    assert body[0] == a[0] && body[|body| - 1] == c[|c| - 1];
    TokensAfterBlank(body);
    assert body == a + [','] + b + [','] + c;
    SplitThree(a, b, c, ',');
    ThreeTokensInvalid(a, b, c);
    RunRejectedWith(" " + body, [a, b, c], [OptionName(c)]);
  }

  /** The three tokens of the usage example can be cut apart at their commas. */
  lemma HelpExampleLayout(v1: string, v2: string, v3: string)
    requires ',' !in v1 && ',' !in v2 && ',' !in v3
    requires |v3| > 0 && !IsWhitespace(v3[|v3| - 1])
    ensures var a, b, c := "-sortBy=" + v1, "-isOpen=" + v2, "batchSize=" + v3;
            && ',' !in a && ',' !in b && ',' !in c
            && |a| > 0 && !IsWhitespace(a[0]) && |c| > 0 && !IsWhitespace(c[|c| - 1])
  {
    var a, c := "-sortBy=" + v1, "batchSize=" + v3;
    assert a[0] == '-' && c[|c| - 1] == v3[|v3| - 1];
  }

  /** The three tokens of the usage example: two recognised options and
      `batchSize`, which lacks its dash. */
  lemma HelpExampleNames(v1: string, v2: string, v3: string)
    requires '=' !in v1 && '=' !in v2 && '=' !in v3
    ensures Recognised("-sortBy=" + v1) && Recognised("-isOpen=" + v2)
    ensures Unrecognised("batchSize=" + v3) && OptionName("batchSize=" + v3) == "batchSize"
  {
    TokenParts("-sortBy=" + v1, "-sortBy", v1);
    TokenParts("-isOpen=" + v2, "-isOpen", v2);
    TokenParts("batchSize=" + v3, "batchSize", v3);
  }

  /** The usage example printed by the prompt, `run -sortBy=starttime,
      -isOpen=false,batchSize=25`, is rejected because its last option has no
      dash; so is every command of that shape, whatever its three values. */
  lemma HelpExampleRejected(v1: string, v2: string, v3: string)
    requires '=' !in v1 && '=' !in v2 && '=' !in v3
    requires ',' !in v1 && ',' !in v2 && ',' !in v3
    requires |v3| > 0 && !IsWhitespace(v3[|v3| - 1])
    ensures ValidateCommand("run " + ("-sortBy=" + v1) + "," + ("-isOpen=" + v2) + "," + ("batchSize=" + v3))
            == SearchError(["batchSize"])
  {
    HelpExampleLayout(v1, v2, v3);
    HelpExampleNames(v1, v2, v3);
    RunThreeTokensRejected("-sortBy=" + v1, "-isOpen=" + v2, "batchSize=" + v3);
  }

  lemma OneRecognised(a: string)
    requires Recognised(a)
    ensures ParseTokens([a]) == Outcome(map[KeyOf(OptionName(a)).value := OptionValue(a)], [])
  {
    KeyOfRemovesDashes(OptionName(a));
    ParseTokensSnoc([], a);
    assert [] + [a] == [a];
  }

  lemma RecognisedThenUnknown(a: string, b: string)
    requires Recognised(a) && Unrecognised(b)
    ensures ParseTokens([a, b]) == Outcome(map[KeyOf(OptionName(a)).value := OptionValue(a)], [OptionName(b)])
  {
    OneRecognised(a);
    ParseTokensSnoc([a], b);
    assert [a] + [b] == [a, b];
    assert [] + [OptionName(b)] == [OptionName(b)];
  }

  /** A recognised, an unrecognised and another recognised token: the two
      recognised values land under their keys, the middle name is reported. */
  lemma RecognisedAroundUnknown(a: string, b: string, c: string)
    requires Recognised(a) && Unrecognised(b) && Recognised(c)
    ensures ParseTokens([a, b, c]) ==
            Outcome(map[KeyOf(OptionName(a)).value := OptionValue(a)][KeyOf(OptionName(c)).value := OptionValue(c)],
                    [OptionName(b)])
  {
    RecognisedThenUnknown(a, b);
    KeyOfRemovesDashes(OptionName(c));
    ParseTokensSnoc([a, b], c);
    assert [a, b] + [c] == [a, b, c];
  }

  /** How the three tokens of `-sortBy=v1,-foo=v2,-batchSize=v3` are parsed. */
  lemma MixedOptionsParsed(v1: string, v2: string, v3: string)
    requires '=' !in v1 && '=' !in v2 && '=' !in v3
    ensures ParseTokens(["-sortBy=" + v1, "-foo=" + v2, "-batchSize=" + v3])
            == Outcome(map["sortBy" := Some(v1), "batchSize" := Some(v3)], ["-foo"])
  {
    var a, b, c := "-sortBy=" + v1, "-foo=" + v2, "-batchSize=" + v3;
    TokenParts(a, "-sortBy", v1);
    TokenParts(b, "-foo", v2);
    TokenParts(c, "-batchSize", v3);
    RecognisedAroundUnknown(a, b, c);
  }

  /** The command `-sortBy=v1,-foo=v2,-batchSize=v3`: the recognised options
      land in the map under their dash-less names, the unknown one is
      reported by its name alone, and the error flag is raised. */
  lemma MixedOptionsExample(v1: string, v2: string, v3: string)
    requires '=' !in v1 && '=' !in v2 && '=' !in v3
    requires ',' !in v1 && ',' !in v2 && ',' !in v3
    requires |v3| > 0 && !IsWhitespace(v3[|v3| - 1])
    ensures ParseCommand(("-sortBy=" + v1) + "," + ("-foo=" + v2) + "," + ("-batchSize=" + v3))
            == Parsed(map["sortBy" := Some(v1), "batchSize" := Some(v3)], ["-foo"], true)
  {
    var a, b, c := "-sortBy=" + v1, "-foo=" + v2, "-batchSize=" + v3;
    assert a[0] == '-' && c[|c| - 1] == v3[|v3| - 1];
    assert ',' !in a && ',' !in b && ',' !in c;
    ThreeTokens(a, b, c);
    MixedOptionsParsed(v1, v2, v3);
  }
}
