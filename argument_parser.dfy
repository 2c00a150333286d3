/** `_find_option` and `parse_argument_list` (widgets/command_parser.py):
    the loop that drives the lexer, looks up each flag and lets the option
    found parse its own value. */
module ArgumentParser {
  import opened Wrappers
  import opened Lexer
  import opened Options

  /** An option answers to a token when its short or long form equals it. */
  predicate Matches(o: WidgetOption, token: string) {
    o.shortForm == Some(token) || o.longForm == token
  }

  /** `_find_option`: the first option in list order that answers to the
      token, or an unknown-argument error. */
  function Find(options: seq<WidgetOption>, token: string): (r: Result<WidgetOption>)
    ensures r.Err? <==> forall o :: o in options ==> !Matches(o, token)
    ensures r.Err? ==> r.error == UnknownArgument(token)
    ensures r.Ok? ==> exists i :: (0 <= i < |options| && options[i] == r.value
      && Matches(r.value, token) && forall j :: 0 <= j < i ==> !Matches(options[j], token))
  {
    if options == [] then Err(UnknownArgument(token))
    else if Matches(options[0], token) then Ok(options[0])
    else
      var r := Find(options[1..], token);
      assert forall o :: o in options ==> o == options[0] || o in options[1..];
      if r.Ok? then
        var i :| 0 <= i < |options[1..]| && options[1..][i] == r.value
          && Matches(r.value, token) && forall j :: 0 <= j < i ==> !Matches(options[1..][j], token);
        assert options[i + 1] == r.value;
        assert forall j :: 0 <= j < i + 1 ==> !Matches(options[j], token) by {
          forall j | 0 <= j < i + 1 ensures !Matches(options[j], token) {
            if j > 0 { assert options[j] == options[1..][j - 1]; }
          }
        }
        r
      else r
  }

  /** The loop of `_find_option`. */
  method FindOption(options: seq<WidgetOption>, token: string) returns (r: Result<WidgetOption>)
    ensures r == Find(options, token)
  {
    for i := 0 to |options|
      invariant Find(options, token) == Find(options[i..], token)
    {
      if options[i].shortForm == Some(token) || options[i].longForm == token {
        return Ok(options[i]);
      }
      assert options[i..][1..] == options[i + 1..];
    }
    return Err(UnknownArgument(token));
  }

  /** One parsed flag: the option it named and its unresolved value. */
  type Pair = (WidgetOption, Raw)

  /** The `while not lexer.exhausted` loop of `parse_argument_list`, from a
      state after the first `consume`. */
  function ParseFrom(options: seq<WidgetOption>, st: LexState): (r: Result<seq<Pair>>)
    requires Ready(st)
    decreases st.Measure()
    ensures st.exhausted ==> r == Ok([])
    ensures r.Err? ==> (r.error.UnknownArgument? || r.error.UnexpectedOption?
                        || r.error == TemplateSyntaxError || r.error == IndexError)
  {
    if st.exhausted then Ok([])
    else
      var o :- Find(options, st.token.value);
      var next := st.Consumed();
      var parsed :- ParseTokens(o, next);
      var rest :- ParseFrom(options, parsed.1);
      Ok([(o, parsed.0)] + rest)
  }

  /** `parse_argument_list(option_list, arguments)`. */
  function Parse(options: seq<WidgetOption>, arguments: Arguments): Result<seq<Pair>> {
    ParseFrom(options, Start(Tokens(arguments)).Consumed())
  }

  /** The result of the remaining loop, with the pairs found so far in front. */
  function Prepend(done: seq<Pair>, r: Result<seq<Pair>>): Result<seq<Pair>> {
    if r.Ok? then Ok(done + r.value) else r
  }

  /** `parse_argument_list` as written: a lexer object, the first `consume`,
      then a loop that appends one pair per flag. */
  method ParseArgumentList(options: seq<WidgetOption>, arguments: Arguments) returns (r: Result<seq<Pair>>)
    ensures r == Parse(options, arguments)
  {
    var values: seq<Pair> := [];
    var lexer := new OptionLexer(arguments);
    lexer.Consume();
    ghost var expected := ParseFrom(options, lexer.State());
    assert expected == Parse(options, arguments);
    PrependNothing(expected);
    while !lexer.exhausted
      invariant Ready(lexer.State())
      invariant expected == Prepend(values, ParseFrom(options, lexer.State()))
      decreases lexer.State().Measure()
    {
      ghost var st := lexer.State();
      var pair := ParseStep(options, lexer);
      if pair.Err? {
        return Err(pair.error);
      }
      PrependAppend(values, [pair.value], ParseFrom(options, lexer.State()));
      values := values + [pair.value];
    }
    assert values + [] == values;
    return Ok(values);
  }

  /** One turn of the loop: the option the current token names, then its
      value read from the tokens after it. */
  method ParseStep(options: seq<WidgetOption>, lexer: OptionLexer) returns (r: Result<Pair>)
    requires Ready(lexer.State()) && !lexer.exhausted
    modifies lexer
    ensures r.Err? ==> ParseFrom(options, old(lexer.State())) == Err(r.error)
    ensures r.Ok? ==> Ready(lexer.State()) && lexer.State().Measure() < old(lexer.State()).Measure()
    ensures r.Ok? ==> ParseFrom(options, old(lexer.State())) == Prepend([r.value], ParseFrom(options, lexer.State()))
  {
    ghost var st := lexer.State();
    var o := FindOption(options, lexer.token.value);
    if o.Err? {
      return Err(o.error);
    }
    lexer.Consume();
    var raw := ParseTokensFrom(o.value, lexer);
    if raw.Err? {
      return Err(raw.error);
    }
    ParseFromStep(options, st, o.value, raw.value, lexer.State());
    return Ok((o.value, raw.value));
  }

  lemma PrependNothing(r: Result<seq<Pair>>)
    ensures Prepend([], r) == r
  {
    if r.Ok? {
      assert [] + r.value == r.value;
    }
  }

  /** One turn of the loop: a found option and its parsed value put one pair
      in front of the rest of the parse. */
  lemma ParseFromStep(options: seq<WidgetOption>, st: LexState, o: WidgetOption, raw: Raw, after: LexState)
    requires Ready(st) && !st.exhausted
    requires Find(options, st.token.value) == Ok(o)
    requires ParseTokens(o, st.Consumed()) == Ok((raw, after))
    ensures Ready(after) && after.Measure() < st.Measure()
    ensures ParseFrom(options, st) == Prepend([(o, raw)], ParseFrom(options, after))
  {
  }

  lemma PrependAppend(a: seq<Pair>, b: seq<Pair>, r: Result<seq<Pair>>)
    ensures Prepend(a, Prepend(b, r)) == Prepend(a + b, r)
  {
    if r.Ok? {
      assert a + (b + r.value) == a + b + r.value;
    }
  }

  // ---------------------------------------------------------------------
  // Properties of the parse
  // ---------------------------------------------------------------------

  /** Empty input gives no pairs, whatever the options. */
  lemma EmptyInput(options: seq<WidgetOption>, arguments: Arguments)
    requires Tokens(arguments) == []
    ensures Parse(options, arguments) == Ok([])
  {
  }

  /** Every pair names one of the options, and its value has the shape its
      option's kind parses to. */
  lemma {:induction false} PairsFit(options: seq<WidgetOption>, st: LexState)
    requires Ready(st) && ParseFrom(options, st).Ok?
    decreases st.Measure()
    ensures forall p :: p in ParseFrom(options, st).value ==> p.0 in options && Fits(p.0.kind, p.1)
  {
    if !st.exhausted {
      var o := Find(options, st.token.value).value;
      var parsed := ParseTokens(o, st.Consumed()).value;
      PairsFit(options, parsed.1);
    }
  }

  /** The tokens of a sequence that are flags, in order. */
  function FlagTokens(ts: seq<string>): (r: seq<string>)
    ensures forall t :: t in r ==> t in ts && IsFlag(t)
  {
    if ts == [] then []
    else if IsFlag(ts[0]) then [ts[0]] + FlagTokens(ts[1..])
    else FlagTokens(ts[1..])
  }

  lemma {:induction false} FlagTokensAppend(a: seq<string>, b: seq<string>)
    ensures FlagTokens(a + b) == FlagTokens(a) + FlagTokens(b)
  {
    if a == [] {
      assert a + b == b;
    } else {
      assert (a + b)[0] == a[0];
      assert (a + b)[1..] == a[1..] + b;
      FlagTokensAppend(a[1..], b);
    }
  }

  lemma {:induction false} FlagTokensNone(ts: seq<string>)
    requires forall t :: t in ts ==> !IsFlag(t)
    ensures FlagTokens(ts) == []
  {
    if ts != [] {
      assert ts[0] in ts;
      assert forall t :: t in ts[1..] ==> t in ts;
      FlagTokensNone(ts[1..]);
    }
  }

  /** Every short and long form starts with `-`. */
  predicate AllDashed(options: seq<WidgetOption>) {
    forall o :: o in options ==> IsFlag(o.longForm) && (o.shortForm.Some? ==> IsFlag(o.shortForm.value))
  }

  /** When every form is a flag, a successful parse has one pair per flag
      token of the input, in input order, repeats included: pair `i` holds
      the option `_find_option` picks for the `i`-th flag. */
  lemma {:induction false} OnePairPerFlag(options: seq<WidgetOption>, st: LexState)
    requires Ready(st) && AllDashed(options) && ParseFrom(options, st).Ok?
    decreases st.Measure()
    ensures PairsMatchFlags(options, ParseFrom(options, st).value, FlagTokens(st.Remaining()))
  {
    if !st.exhausted {
      var o := Find(options, st.token.value).value;
      var parsed := ParseTokens(o, st.Consumed()).value;
      ParseFromStep(options, st, o, parsed.0, parsed.1);
      OnePairPerFlag(options, parsed.1);
      OnePairStep(options, st, o, parsed.0, parsed.1);
    }
  }

  /** Pair `i` holds the option `_find_option` picks for flag `i`. */
  ghost predicate PairsMatchFlags(options: seq<WidgetOption>, ps: seq<Pair>, fs: seq<string>) {
    |ps| == |fs| && forall i :: 0 <= i < |ps| ==> Find(options, fs[i]) == Ok(ps[i].0)
  }

  lemma OnePairStep(options: seq<WidgetOption>, st: LexState, o: WidgetOption, raw: Raw, after: LexState)
    requires Ready(st) && !st.exhausted && AllDashed(options)
    requires Find(options, st.token.value) == Ok(o)
    requires ParseTokens(o, st.Consumed()) == Ok((raw, after))
    requires ParseFrom(options, st) == Prepend([(o, raw)], ParseFrom(options, after))
    requires ParseFrom(options, after).Ok?
    requires PairsMatchFlags(options, ParseFrom(options, after).value, FlagTokens(after.Remaining()))
    ensures PairsMatchFlags(options, ParseFrom(options, st).value, FlagTokens(st.Remaining()))
  {
    assert IsFlag(st.token.value) by { assert o in options; }
    FlagsStep(st, after);
    PairsMatchCons(options, o, raw, ParseFrom(options, after).value, st.token.value, FlagTokens(after.Remaining()));
  }

  /** The flags still to come after a flag and its values are consumed. */
  lemma FlagsStep(st: LexState, after: LexState)
    requires Ready(st) && !st.exhausted && IsFlag(st.token.value)
    requires after.Valid() && after.Primed()
    requires exists used :: (st.Consumed().Remaining() == used + after.Remaining()
      && forall u :: u in used ==> !IsFlag(u))
    ensures FlagTokens(st.Remaining()) == [st.token.value] + FlagTokens(after.Remaining())
  {
    var used :| st.Consumed().Remaining() == used + after.Remaining() && forall u :: u in used ==> !IsFlag(u);
    ConsumedRemaining(st);
    FlagsAfterOneValue(st.token.value, used, after.Remaining());
  }

  lemma PairsMatchCons(options: seq<WidgetOption>, o: WidgetOption, raw: Raw, rest: seq<Pair>, t: string, fs: seq<string>)
    requires Find(options, t) == Ok(o) && PairsMatchFlags(options, rest, fs)
    ensures PairsMatchFlags(options, [(o, raw)] + rest, [t] + fs)
  {
    var ps := [(o, raw)] + rest;
    var fs' := [t] + fs;
    forall i | 0 <= i < |ps| ensures Find(options, fs'[i]) == Ok(ps[i].0) {
      if i > 0 {
        assert fs'[i] == fs[i - 1] && ps[i] == rest[i - 1];
      }
    }
  }

  /** The flags of `[flag] + used + tail` when `used` holds no flag. */
  lemma FlagsAfterOneValue(flag: string, used: seq<string>, rem: seq<string>)
    requires IsFlag(flag) && forall u :: u in used ==> !IsFlag(u)
    ensures FlagTokens([flag] + (used + rem)) == [flag] + FlagTokens(rem)
  {
    var all := [flag] + (used + rem);
    assert all[0] == flag && all[1..] == used + rem;
    assert FlagTokens(all) == [flag] + FlagTokens(used + rem);
    FlagTokensNone(used);
    FlagTokensAppend(used, rem);
    assert [] + FlagTokens(rem) == FlagTokens(rem);
  }

  /** A flag that no option answers to aborts the whole parse, wherever it
      stands in the input. */
  lemma {:induction false} UnknownFlagAborts(options: seq<WidgetOption>, st: LexState, flag: string)
    requires Ready(st) && !st.exhausted && flag in st.Remaining() && IsFlag(flag)
    requires forall o :: o in options ==> !Matches(o, flag)
    decreases st.Measure()
    ensures ParseFrom(options, st).Err?
  {
    var t := st.token.value;
    if Find(options, t).Ok? {
      assert t != flag;
      var o := Find(options, t).value;
      var next := st.Consumed();
      ConsumedRemaining(st);
      assert st.Remaining() == [t] + next.Remaining();
      assert flag in next.Remaining();
      if ParseTokens(o, next).Ok? {
        var after := ParseTokens(o, next).value.1;
        var used :| next.Remaining() == used + after.Remaining() && forall u :: u in used ==> !IsFlag(u);
        assert flag in after.Remaining();
        UnknownFlagAborts(options, after, flag);
      }
    }
  }

  /** A two-character short flag passes through expansion unchanged. */
  lemma {:induction false} ShortFlagKept(ts: seq<string>, flag: string)
    requires flag in ts && |flag| == 2 && flag[0] == '-' && flag[1] != '-'
    ensures flag in Expanded(ts)
  {
    if ts[0] == flag {
      assert flag[1..] == [flag[1]];
      assert Flags(flag[1..])[0] == flag;
    } else {
      ShortFlagKept(ts[1..], flag);
    }
  }

  /** A lone short flag `-c` expands to itself. */
  lemma SingleShortFlag(flag: string)
    requires |flag| == 2 && flag[0] == '-' && flag[1] != '-'
    ensures ExpandToken(flag) == [flag]
  {
    assert IsShortCluster(flag);
    assert flag[1..] == [flag[1]];
    assert Flags(flag[1..])[0] == flag;
  }

  /** After the first `consume`, what remains is the whole token stream. */
  lemma StartRemaining(stream: seq<string>)
    requires stream != []
    ensures Start(stream).Consumed().Remaining() == stream
  {
  }

  /** The `-t` widget of the tag tests: an option `testing` with short form
      `-t` and a default. */
  function TestingOption(): WidgetOption {
    NewOption(PlainOption, "testing", OptionArgs(Some("-t"), None, Some(Values.Str("xxx")), None))
  }

  /** `-a` is neither the short nor the long form of that option. */
  lemma TestingIgnoresA()
    ensures !Matches(TestingOption(), "-a")
  {
    assert |TestingOption().longForm| == 9;
  }

  /** A short flag among the words that no option answers to makes the
      whole parse fail, wherever it stands. */
  lemma UnknownShortFlag(options: seq<WidgetOption>, ws: seq<string>, flag: string)
    requires flag in ws && |flag| == 2 && flag[0] == '-' && flag[1] != '-'
    requires forall o :: o in options ==> !Matches(o, flag)
    ensures Parse(options, Words(ws)).Err?
  {
    ShortFlagKept(ws, flag);
    var ts := Tokens(Words(ws));
    assert ts == Expanded(ws);
    StartRemaining(ts);
    UnknownFlagAborts(options, Start(ts).Consumed(), flag);
  }

  /** A value flag, one value the variable check passes, then a flag no
      option answers to: the parse stops with the unknown-argument error for
      that third token. */
  lemma UnknownAfterOnePair(options: seq<WidgetOption>, st: LexState, o: WidgetOption)
    requires Ready(st) && !st.exhausted && Find(options, st.token.value) == Ok(o)
    requires o.kind == PlainOption || o.kind == SelectOption
    requires !st.Consumed().exhausted
    requires !IsFlag(st.Consumed().token.value) && Values.VariableCheck(st.Consumed().token.value).Pass?
    requires !st.Consumed().Consumed().exhausted
    requires Find(options, st.Consumed().Consumed().token.value).Err?
    ensures ParseFrom(options, st) == Err(UnknownArgument(st.Consumed().Consumed().token.value))
  {
    var value := st.Consumed();
    ScalarParse(o, value);
  }

  /** A word that expansion keeps as it is: a lone short flag, or a
      non-flag that does not start with whitespace. */
  predicate KeptWord(w: string) {
    (|w| == 2 && w[0] == '-' && w[1] != '-') || (w != [] && !IsFlag(w) && !IsSpace(w[0]))
  }

  /** Words that expansion keeps pass through it unchanged, in order. */
  lemma {:induction false} KeptWords(ws: seq<string>)
    requires forall w :: w in ws ==> KeptWord(w)
    ensures Expanded(ws) == ws
  {
    if ws != [] {
      var w := ws[0];
      assert w in ws;
      if |w| == 2 && w[0] == '-' && w[1] != '-' {
        SingleShortFlag(w);
      } else {
        ExpandKeep(w);
      }
      var rest := ws[1..];
      assert ws == [w] + rest;
      assert forall u :: u in rest ==> u in ws;
      KeptWords(rest);
      ExpandedCons(w, rest);
    }
  }

  /** The words `-t "xyz" -a 1` against that widget: `-t` takes the quoted
      value, then `-a` names no option. */
  lemma BadOptionWords(ws: seq<string>)
    requires |ws| == 4 && ws[0] == "-t" && ws[1] == "\"xyz\"" && ws[2] == "-a" && ws[3] == "1"
    ensures Parse([TestingOption()], Words(ws)) == Err(UnknownArgument("-a"))
  {
    assert Tokens(Words(ws)) == ws by {
      assert KeptWord(ws[0]) && KeptWord(ws[1]) && KeptWord(ws[2]) && KeptWord(ws[3]);
      KeptWords(ws);
    }
    var st := Start(ws).Consumed();
    assert st.token == Some("-t") && st.Consumed().token == Some("\"xyz\"");
    assert st.Consumed().Consumed().token == Some("-a") && !st.Consumed().Consumed().exhausted;
    assert Values.VariableCheck("\"xyz\"").Pass? by {
      assert Values.IsQuotedLiteral("\"xyz\"");
    }
    assert Find([TestingOption()], "-t") == Ok(TestingOption()) by {
      assert TestingOption().shortForm == Some("-t");
    }
    TestingIgnoresA();
    UnknownAfterOnePair([TestingOption()], st, TestingOption());
  }

  /** `-t "xyz" -a 1` against that widget fails: `-a` names no option. */
  lemma BadOptionExample()
    ensures Parse([TestingOption()], Words(["-t", "\"xyz\"", "-a", "1"])) == Err(UnknownArgument("-a"))
  {
    BadOptionWords(["-t", "\"xyz\"", "-a", "1"]);
  }
}
