/** Typed widget options: how each kind consumes tokens from the lexer,
    resolves the parsed placeholder, and how a value mapping is validated
    (widgets/options.py). */
module Options {
  import opened Wrappers
  import opened Values
  import opened Lexer

  /** The option classes (`PlainOption` is the base class `Option`).
      `SelectOption` parses like `PlainOption`; its choices only matter for
      form rendering. `ListOption` is a `MultiOption` whose choices are None. */
  datatype Kind = PlainOption | BoolOption | SelectOption | MultiOption | ListOption

  predicate IsMultiKind(k: Kind) {
    k == MultiOption || k == ListOption
  }

  datatype WidgetOption = WidgetOption(
    name: string,
    shortForm: Option<string>,
    longForm: string,
    default: Value,
    required: bool,
    kind: Kind)

  /** The keyword arguments a caller may pass to an option class; `None`
      means "not passed". */
  datatype OptionArgs = OptionArgs(
    shortForm: Option<string>,
    longForm: Option<string>,
    default: Option<Value>,
    required: Option<bool>)

  /** `name.replace('_', '-')`. */
  function Dashed(name: string): (r: string)
    ensures |r| == |name|
    ensures forall i :: 0 <= i < |name| ==> r[i] == if name[i] == '_' then '-' else name[i]
  {
    seq(|name|, i requires 0 <= i < |name| => if name[i] == '_' then '-' else name[i])
  }

  /** `long_form or ("--%s" % name.replace('_', '-'))`: an absent or empty
      long form falls back to the name with `--` in front and `_` as `-`. */
  function LongForm(name: string, given: Option<string>): (r: string)
    ensures given.Some? && given.value != "" ==> r == given.value
    ensures (given.None? || given.value == "") ==>
      |r| == |name| + 2 && r[..2] == "--" && r[2..] == Dashed(name)
  {
    if given.Some? && given.value != "" then given.value else "--" + Dashed(name)
  }

  /** The constructor of each option class with its defaults:
      `Option` is required with default None; `BoolOption` is never required
      and defaults to False whatever it is given; `MultiOption` and
      `ListOption` default to `[]` and to not required unless told otherwise. */
  function NewOption(kind: Kind, name: string, args: OptionArgs): (o: WidgetOption)
    ensures o.name == name && o.kind == kind && o.shortForm == args.shortForm
    ensures o.longForm == LongForm(name, args.longForm)
    ensures kind == BoolOption ==> !o.required && o.default == Value.Bool(false)
    ensures (kind == PlainOption || kind == SelectOption) ==>
      o.required == args.required.GetOr(true) && o.default == args.default.GetOr(Null)
    ensures IsMultiKind(kind) ==>
      o.required == args.required.GetOr(false) && o.default == args.default.GetOr(Value.List([]))
  {
    var longForm := LongForm(name, args.longForm);
    match kind
    case BoolOption => WidgetOption(name, args.shortForm, longForm, Value.Bool(false), false, kind)
    case MultiOption => WidgetOption(name, args.shortForm, longForm, args.default.GetOr(Value.List([])), args.required.GetOr(false), kind)
    case ListOption => WidgetOption(name, args.shortForm, longForm, args.default.GetOr(Value.List([])), args.required.GetOr(false), kind)
    case _ => WidgetOption(name, args.shortForm, longForm, args.default.GetOr(Null), args.required.GetOr(true), kind)
  }

  // ---------------------------------------------------------------------
  // Parsing tokens
  // ---------------------------------------------------------------------

  /** An unresolved parsed value: one `Variable` placeholder, a concrete
      value (`True` for a boolean flag), or a list of placeholders. */
  datatype Raw = Var(text: string) | Literal(value: Value) | Vars(texts: seq<string>)

  /** A lexer state an option may be asked to parse from: valid, and past the
      first `consume`, so a token is present unless the stream was empty. */
  ghost predicate Ready(st: LexState) {
    st.Valid() && st.Primed() && (st.pos > 0 || st.stream == [])
  }

  /** `_get_var`: a flag where a value is expected is an error; otherwise the
      lexer moves on and the token becomes a placeholder, which Django may
      refuse to build. */
  function GetVar(st: LexState): (r: Result<(string, LexState)>)
    requires Ready(st) && st.token.Some?
    ensures IsFlag(st.token.value) ==> r == Err(UnexpectedOption(st.token.value))
    ensures !IsFlag(st.token.value) ==> (r.Ok? <==> VariableCheck(st.token.value).Pass?)
    ensures !IsFlag(st.token.value) && r.Err? ==> r.error == VariableCheck(st.token.value).error
    ensures r.Err? ==> r.error.UnexpectedOption? || r.error == TemplateSyntaxError || r.error == IndexError
    ensures r.Ok? ==> r.value.0 == st.token.value && r.value.1 == st.Consumed()
  {
    if IsFlag(st.token.value) then Err(UnexpectedOption(st.token.value))
    else
      match VariableCheck(st.token.value)
      case Fail(e) => Err(e)
      case Pass => Ok((st.token.value, st.Consumed()))
  }

  /** The first text of `ts` that `Variable` refuses. */
  predicate FirstRefused(ts: seq<string>, k: int) {
    && 0 <= k < |ts| && VariableCheck(ts[k]).Fail?
    && forall j :: 0 <= j < k ==> VariableCheck(ts[j]).Pass?
  }

  /** Building the placeholders of `ts` in order: the first refused text
      raises, and its error is the outcome. */
  function CheckAll(ts: seq<string>): (r: Outcome)
    ensures r.Pass? <==> forall i :: 0 <= i < |ts| ==> VariableCheck(ts[i]).Pass?
    ensures forall k :: FirstRefused(ts, k) ==> r == VariableCheck(ts[k])
    ensures r.Fail? ==> r.error == TemplateSyntaxError || r.error == IndexError
  {
    if ts == [] then Pass
    else if VariableCheck(ts[0]).Fail? then VariableCheck(ts[0])
    else
      var r := CheckAll(ts[1..]);
      assert forall k :: FirstRefused(ts, k) ==> k > 0 && FirstRefused(ts[1..], k - 1) by {
        forall k | FirstRefused(ts, k) ensures k > 0 && FirstRefused(ts[1..], k - 1) {
          forall j | 0 <= j < k - 1 ensures VariableCheck(ts[1..][j]).Pass? {
            assert ts[1..][j] == ts[j + 1];
          }
        }
      }
      assert (forall i :: 0 <= i < |ts[1..]| ==> VariableCheck(ts[1..][i]).Pass?) ==>
        forall i :: 0 <= i < |ts| ==> VariableCheck(ts[i]).Pass? by {
        if forall i :: 0 <= i < |ts[1..]| ==> VariableCheck(ts[1..][i]).Pass? {
          forall i | 0 <= i < |ts| ensures VariableCheck(ts[i]).Pass? {
            if i > 0 { assert ts[i] == ts[1..][i - 1]; }
          }
        }
      }
      r
  }

  /** `MultiOption.parse_tokens`: placeholders for every token up to the next
      flag or the end of the stream. */
  function ParseMany(st: LexState): (r: (seq<string>, LexState))
    requires Ready(st) && st.token.Some?
    decreases st.Measure()
    ensures Ready(r.1) && r.1.token.Some? && r.1.stream == st.stream
    ensures r.1.Measure() <= st.Measure()
    ensures r.1.exhausted || IsFlag(r.1.token.value)
  {
    if IsFlag(st.token.value) || st.exhausted then ([], st)
    else
      var (rest, last) := ParseMany(st.Consumed());
      ([st.token.value] + rest, last)
  }

  /** What a multi option takes is a run of non-flag tokens at the head of
      what remains, and the state it stops at holds the rest. */
  lemma {:induction false} ParseManyRemaining(st: LexState)
    requires Ready(st) && st.token.Some?
    decreases st.Measure()
    ensures st.Remaining() == ParseMany(st).0 + ParseMany(st).1.Remaining()
    ensures forall t :: t in ParseMany(st).0 ==> !IsFlag(t)
  {
    if IsFlag(st.token.value) || st.exhausted {
      assert st.Remaining() == [] + st.Remaining();
    } else {
      var next := st.Consumed();
      ParseManyRemaining(next);
      ManyUnfold(st);
      ManyStep(st, next, ParseMany(next).0, ParseMany(next).1);
    }
  }

  /** One step of `ParseMany` at a token that is not a flag. */
  lemma ManyUnfold(st: LexState)
    requires Ready(st) && st.token.Some? && !IsFlag(st.token.value) && !st.exhausted
    ensures ParseMany(st).0 == [st.token.value] + ParseMany(st.Consumed()).0
    ensures ParseMany(st).1 == ParseMany(st.Consumed()).1
  {
  }

  lemma ManyStep(st: LexState, next: LexState, rest: seq<string>, last: LexState)
    requires Ready(st) && st.token.Some? && !st.exhausted && next == st.Consumed()
    requires next.Valid() && next.Primed() && last.Valid() && last.Primed()
    requires next.Remaining() == rest + last.Remaining()
    ensures st.Remaining() == [st.token.value] + rest + last.Remaining()
  {
    ConsumedRemaining(st);
    assert [st.token.value] + (rest + last.Remaining()) == [st.token.value] + rest + last.Remaining();
  }

  /** `parse_tokens` of each option kind, from the state just after its flag. */
  function ParseTokens(o: WidgetOption, st: LexState): (r: Result<(Raw, LexState)>)
    requires Ready(st) && st.token.Some?
    ensures r.Ok? ==> Ready(r.value.1) && r.value.1.token.Some? && r.value.1.stream == st.stream
    ensures r.Ok? ==> r.value.1.Measure() <= st.Measure()
    ensures r.Ok? ==> Fits(o.kind, r.value.0)
    ensures r.Ok? ==> TakesNonFlags(st, r.value.1)
    ensures r.Err? ==> o.kind != BoolOption
    ensures r.Err? ==> r.error.UnexpectedOption? || r.error == TemplateSyntaxError || r.error == IndexError
    ensures IsMultiKind(o.kind) ==> (r.Ok? <==> CheckAll(ParseMany(st).0).Pass?)
    ensures IsMultiKind(o.kind) && r.Err? ==> r.error == CheckAll(ParseMany(st).0).error
  {
    match o.kind
    case BoolOption =>
      assert st.Remaining() == [] + st.Remaining();
      Ok((Literal(Value.Bool(true)), st))
    case MultiOption => MultiTokens(st)
    case ListOption => MultiTokens(st)
    case _ => ScalarTokens(st)
  }

  /** What remains before `st` is a run of non-flag tokens followed by what
      remains at `after`. */
  ghost predicate TakesNonFlags(st: LexState, after: LexState)
    requires st.Valid() && st.Primed() && after.Valid() && after.Primed()
  {
    exists used :: st.Remaining() == used + after.Remaining() && forall t :: t in used ==> !IsFlag(t)
  }

  /** `parse_tokens` of a plain or select option: one placeholder. */
  function ScalarTokens(st: LexState): (r: Result<(Raw, LexState)>)
    requires Ready(st) && st.token.Some?
    ensures r.Ok? ==> Ready(r.value.1) && r.value.1.token.Some? && r.value.1.stream == st.stream
    ensures r.Ok? ==> r.value.1.Measure() <= st.Measure()
    ensures r.Ok? ==> r.value.0.Var? && TakesNonFlags(st, r.value.1)
    ensures r.Err? ==> r.error.UnexpectedOption? || r.error == TemplateSyntaxError || r.error == IndexError
  {
    var (t, next) :- GetVar(st);
    if st.exhausted then
      assert st.Remaining() == [] + next.Remaining();
      Ok((Var(t), next))
    else
      ConsumedRemaining(st);
      assert st.Remaining() == [t] + next.Remaining();
      Ok((Var(t), next))
  }

  /** `MultiOption.parse_tokens`: the placeholders of the run of non-flag
      tokens, unless one of them is refused. */
  function MultiTokens(st: LexState): (r: Result<(Raw, LexState)>)
    requires Ready(st) && st.token.Some?
    ensures r.Ok? ==> Ready(r.value.1) && r.value.1.token.Some? && r.value.1.stream == st.stream
    ensures r.Ok? ==> r.value.1.Measure() <= st.Measure()
    ensures r.Ok? ==> r.value.0.Vars? && TakesNonFlags(st, r.value.1)
    ensures r.Ok? <==> CheckAll(ParseMany(st).0).Pass?
    ensures r.Err? ==> r.error == CheckAll(ParseMany(st).0).error
    ensures r.Err? ==> r.error == TemplateSyntaxError || r.error == IndexError
  {
    ParseManyRemaining(st);
    var (ts, last) := ParseMany(st);
    match CheckAll(ts)
    case Fail(e) => Err(e)
    case Pass => Ok((Vars(ts), last))
  }

  /** The shape of parsed value each kind produces. */
  predicate Fits(k: Kind, raw: Raw) {
    match k
    case BoolOption => raw == Literal(Value.Bool(true))
    case MultiOption => raw.Vars?
    case ListOption => raw.Vars?
    case _ => raw.Var?
  }

  /** A scalar option consumes exactly one non-flag token, unless Django
      refuses it as a placeholder; at a flag it fails. */
  lemma ScalarParse(o: WidgetOption, st: LexState)
    requires Ready(st) && st.token.Some? && (o.kind == PlainOption || o.kind == SelectOption)
    ensures IsFlag(st.token.value) ==> ParseTokens(o, st) == Err(UnexpectedOption(st.token.value))
    ensures !IsFlag(st.token.value) && VariableCheck(st.token.value).Fail? ==>
      ParseTokens(o, st) == Err(VariableCheck(st.token.value).error)
    ensures !IsFlag(st.token.value) && VariableCheck(st.token.value).Pass? ==>
      ParseTokens(o, st) == Ok((Var(st.token.value), st.Consumed()))
  {
  }

  /** A boolean flag consumes nothing and parses to True. */
  lemma BoolParse(o: WidgetOption, st: LexState)
    requires Ready(st) && st.token.Some? && o.kind == BoolOption
    ensures ParseTokens(o, st) == Ok((Literal(Value.Bool(true)), st))
  {
  }

  /** On `v1 v2 --other`, a multi option takes `v1 v2` and stops at
      `--other`; its value is those placeholders unless one is refused. */
  lemma MultiStopsAtFlag(o: WidgetOption, st: LexState, used: seq<string>, flag: string, rest: seq<string>)
    requires IsMultiKind(o.kind)
    requires Ready(st) && st.token.Some? && !st.exhausted
    requires st.Remaining() == used + [flag] + rest
    requires IsFlag(flag) && forall t :: t in used ==> !IsFlag(t)
    ensures ParseMany(st).0 == used
    ensures !ParseMany(st).1.exhausted && ParseMany(st).1.token == Some(flag)
    ensures ParseTokens(o, st) ==
      match CheckAll(used)
      case Fail(e) => Err(e)
      case Pass => Ok((Vars(used), ParseMany(st).1))
  {
    ManyRun(st, used, flag, rest);
  }

  /** The loop collects exactly the run of non-flag tokens before a flag. */
  lemma {:induction false} ManyRun(st: LexState, used: seq<string>, flag: string, rest: seq<string>)
    requires Ready(st) && st.token.Some? && !st.exhausted
    requires st.Remaining() == used + [flag] + rest
    requires IsFlag(flag) && forall t :: t in used ==> !IsFlag(t)
    decreases |used|
    ensures ParseMany(st).0 == used
    ensures !ParseMany(st).1.exhausted && ParseMany(st).1.token == Some(flag)
  {
    if used == [] {
      ConsumedRemaining(st);
      assert st.Remaining()[0] == flag;
    } else {
      MultiHead(st, used, flag, rest);
      var next := st.Consumed();
      assert forall t :: t in used[1..] ==> t in used;
      ManyRun(next, used[1..], flag, rest);
      ManyUnfold(st);
      assert [used[0]] + used[1..] == used;
    }
  }

  /** The head of a run of non-flag tokens is the current token, and
      consuming it leaves the rest of the run. */
  lemma MultiHead(st: LexState, used: seq<string>, flag: string, rest: seq<string>)
    requires Ready(st) && st.token.Some? && !st.exhausted
    requires st.Remaining() == used + [flag] + rest && used != []
    requires forall t :: t in used ==> !IsFlag(t)
    ensures st.token.value == used[0] && !IsFlag(st.token.value)
    ensures Ready(st.Consumed()) && st.Consumed().token.Some? && !st.Consumed().exhausted
    ensures st.Consumed().Remaining() == used[1..] + [flag] + rest
  {
    ConsumedRemaining(st);
    assert (used + [flag] + rest)[0] == used[0];
    assert used[0] in used;
    assert (used + [flag] + rest)[1..] == used[1..] + [flag] + rest;
  }

  // ---------------------------------------------------------------------
  // The same parsing, as methods on an `OptionLexer`
  // ---------------------------------------------------------------------

  ghost predicate ReadyLexer(lexer: OptionLexer)
    reads lexer
  {
    Ready(lexer.State()) && lexer.token.Some?
  }

  /** `Option._get_var` on a lexer object: at a flag the lexer is left
      alone; otherwise the token is consumed before its placeholder is
      built, so a refused placeholder leaves the lexer one token on. */
  method GetVarFrom(lexer: OptionLexer) returns (r: Result<string>)
    requires ReadyLexer(lexer)
    modifies lexer
    ensures var spec := GetVar(old(lexer.State()));
      match spec
      case Ok(p) => r == Ok(p.0) && lexer.State() == p.1
      case Err(e) =>
        && r == Err(e)
        && lexer.State() == if e.UnexpectedOption? then old(lexer.State()) else old(lexer.State()).Consumed()
  {
    if lexer.TokenIsOption() {
      return Err(UnexpectedOption(lexer.token.value));
    }
    var value := lexer.token.value;
    lexer.Consume();
    var built := VariableCheck(value);
    if built.Fail? {
      return Err(built.error);
    }
    return Ok(value);
  }

  /** The lexer after a multi option's loop met a refused text: the texts
      up to and including the first refused one are consumed, and the rest
      of the run is still ahead. */
  ghost predicate StoppedAtRefused(st: LexState, now: LexState)
    requires Ready(st) && st.token.Some? && Ready(now) && now.token.Some?
  {
    var ts := ParseMany(st).0;
    exists k :: FirstRefused(ts, k) && ts[k + 1..] == ParseMany(now).0
  }

  /** `parse_tokens` on a lexer object; the multi kinds loop. */
  method ParseTokensFrom(o: WidgetOption, lexer: OptionLexer) returns (r: Result<Raw>)
    requires ReadyLexer(lexer)
    modifies lexer
    ensures ReadyLexer(lexer)
    ensures var spec := ParseTokens(o, old(lexer.State()));
      match spec
      case Ok(p) => r == Ok(p.0) && lexer.State() == p.1
      case Err(e) =>
        && r == Err(e)
        && (e.UnexpectedOption? ==> lexer.State() == old(lexer.State()))
        && (!IsMultiKind(o.kind) && !e.UnexpectedOption? ==> lexer.State() == old(lexer.State()).Consumed())
        && (IsMultiKind(o.kind) ==> StoppedAtRefused(old(lexer.State()), lexer.State()))
  {
    match o.kind {
      case BoolOption =>
        return Ok(Literal(Value.Bool(true)));
      case MultiOption =>
        var ts := ParseManyFrom(lexer);
        if ts.Err? {
          return Err(ts.error);
        }
        return Ok(Vars(ts.value));
      case ListOption =>
        var ts := ParseManyFrom(lexer);
        if ts.Err? {
          return Err(ts.error);
        }
        return Ok(Vars(ts.value));
      case _ =>
        var v := GetVarFrom(lexer);
        if v.Err? {
          return Err(v.error);
        }
        return Ok(Var(v.value));
    }
  }

  /** The loop of `MultiOption.parse_tokens`. */
  method ParseManyFrom(lexer: OptionLexer) returns (r: Result<seq<string>>)
    requires ReadyLexer(lexer)
    modifies lexer
    ensures ReadyLexer(lexer)
    ensures var (ts, last) := ParseMany(old(lexer.State()));
      match CheckAll(ts)
      case Pass => r == Ok(ts) && lexer.State() == last
      case Fail(e) => r == Err(e) && StoppedAtRefused(old(lexer.State()), lexer.State())
  {
    var values := [];
    ghost var start := lexer.State();
    while !lexer.TokenIsOption() && !lexer.exhausted
      invariant ReadyLexer(lexer) && lexer.stream == start.stream
      invariant ParseMany(start).0 == values + ParseMany(lexer.State()).0
      invariant ParseMany(start).1 == ParseMany(lexer.State()).1
      invariant forall i :: 0 <= i < |values| ==> VariableCheck(values[i]).Pass?
      decreases lexer.State().Measure()
    {
      ghost var before := lexer.State();
      ManyUnfold(before);
      var value := GetVarFrom(lexer);
      if value.Err? {
        RefusedHere(ParseMany(start).0, values, before.token.value, ParseMany(lexer.State()).0);
        return Err(value.error);
      }
      values := values + [value.value];
    }
    assert values + [] == values;
    return Ok(values);
  }

  /** The loop stops at the first refused text. */
  lemma RefusedHere(ts: seq<string>, values: seq<string>, value: string, rest: seq<string>)
    requires ts == values + ([value] + rest)
    requires forall i :: 0 <= i < |values| ==> VariableCheck(values[i]).Pass?
    requires VariableCheck(value).Fail?
    ensures FirstRefused(ts, |values|) && ts[|values| + 1..] == rest
    ensures CheckAll(ts) == VariableCheck(value)
  {
    assert ts[|values|] == value;
    assert ts[|values| + 1..] == rest;
    assert forall j :: 0 <= j < |values| ==> ts[j] == values[j];
  }

  // ---------------------------------------------------------------------
  // Resolution and validation
  // ---------------------------------------------------------------------

  /** Every placeholder of a raw value names something the context defines. */
  predicate Resolves(ctx: Context, raw: Raw) {
    match raw
    case Var(t) => ctx.lookup(t).Some?
    case Literal(_) => true
    case Vars(ts) => forall i :: 0 <= i < |ts| ==> ctx.lookup(ts[i]).Some?
  }

  /** `[item.resolve(context) for item in value]`: the items resolved in
      order; the first one the context does not define raises. */
  function ResolveAll(ctx: Context, ts: seq<string>): (r: Result<seq<Value>>)
    ensures r.Ok? <==> forall i :: 0 <= i < |ts| ==> ctx.lookup(ts[i]).Some?
    ensures r.Ok? ==> |r.value| == |ts| && forall i :: 0 <= i < |ts| ==> Some(r.value[i]) == ctx.lookup(ts[i])
    ensures r.Err? ==> exists i :: (0 <= i < |ts| && ctx.lookup(ts[i]).None?
      && (forall j :: 0 <= j < i ==> ctx.lookup(ts[j]).Some?)
      && r.error == VariableDoesNotExist(ts[i]))
  {
    if ts == [] then Ok([])
    else
      var v :- Resolve(ctx, ts[0]);
      var rest :- ResolveAll(ctx, ts[1..]);
      Ok([v] + rest)
  }

  /** `resolve_value`: a placeholder is resolved against the context, the
      multi kinds item by item and in order; a boolean's True is kept. An
      undefined variable raises `VariableDoesNotExist`. */
  function ResolveValue(o: WidgetOption, ctx: Context, raw: Raw): (r: Result<Value>)
    requires Fits(o.kind, raw)
    ensures r.Ok? <==> Resolves(ctx, raw)
    ensures r.Err? ==> r.error.VariableDoesNotExist?
    ensures raw.Var? ==> r == Resolve(ctx, raw.text)
    ensures raw.Literal? ==> r == Ok(raw.value)
    ensures raw.Vars? && r.Ok? ==> (r.value.List? && |r.value.items| == |raw.texts|
      && forall i :: 0 <= i < |raw.texts| ==> Some(r.value.items[i]) == ctx.lookup(raw.texts[i]))
    ensures raw.Vars? && r.Err? ==> exists i :: (0 <= i < |raw.texts| && ctx.lookup(raw.texts[i]).None?
      && (forall j :: 0 <= j < i ==> ctx.lookup(raw.texts[j]).Some?)
      && r.error == VariableDoesNotExist(raw.texts[i]))
  {
    match raw
    case Var(t) => Resolve(ctx, t)
    case Literal(x) => Ok(x)
    case Vars(ts) =>
      var items :- ResolveAll(ctx, ts);
      Ok(Value.List(items))
  }

  function Names(options: seq<WidgetOption>): set<string> {
    set o | o in options :: o.name
  }

  function RequiredNames(options: seq<WidgetOption>): set<string> {
    set o | o in options && o.required :: o.name
  }

  /** The entry of one option in the processed mapping. `filter` is the
      identity for every kind modelled here. */
  function Filtered(values: map<string, Value>, o: WidgetOption): Value {
    if o.name in values then values[o.name] else o.default
  }

  /** `Values((opt.name, opt.filter(values.get(opt.name, opt.default))) for opt in options)`:
      later options win when two share a name. */
  function Build(values: map<string, Value>, options: seq<WidgetOption>): map<string, Value>
    decreases |options|
  {
    if options == [] then map[]
    else
      var n := |options| - 1;
      Build(values, options[..n])[options[n].name := Filtered(values, options[n])]
  }

  /** One entry per declared option name. */
  lemma {:induction false} BuildKeys(values: map<string, Value>, options: seq<WidgetOption>)
    decreases |options|
    ensures Build(values, options).Keys == Names(options)
  {
    if options != [] {
      var init := options[..|options| - 1];
      var o := options[|options| - 1];
      assert Names(options) == Names(init) + {o.name} by {
        assert options == init + [o];
      }
      BuildKeys(values, init);
    }
  }

  /** The entry of a name comes from the last option with that name. */
  lemma {:induction false} BuildEntry(values: map<string, Value>, options: seq<WidgetOption>, k: nat)
    requires k < |options| && LastWithName(options, k)
    decreases |options|
    ensures var b := Build(values, options);
      options[k].name in b && b[options[k].name] == Filtered(values, options[k])
  {
    var n := |options| - 1;
    var init := options[..n];
    assert Build(values, options) == Build(values, init)[options[n].name := Filtered(values, options[n])];
    if k < n {
      assert options[n].name != options[k].name;
      assert init[k] == options[k];
      assert LastWithName(init, k) by {
        forall j | k < j < n ensures init[j].name != init[k].name {
          assert init[j] == options[j];
        }
      }
      BuildEntry(values, init, k);
    }
  }

  /** Every name's entry comes from the last option with that name. */
  lemma BuildEntries(values: map<string, Value>, options: seq<WidgetOption>)
    ensures forall i :: 0 <= i < |options| && LastWithName(options, i) ==>
      options[i].name in Build(values, options)
      && Build(values, options)[options[i].name] == Filtered(values, options[i])
  {
    forall i | 0 <= i < |options| && LastWithName(options, i)
      ensures options[i].name in Build(values, options)
      ensures Build(values, options)[options[i].name] == Filtered(values, options[i])
    {
      BuildEntry(values, options, i);
    }
  }

  /** No later option shares the name of option `i`. */
  ghost predicate LastWithName(options: seq<WidgetOption>, i: int)
    requires 0 <= i < |options|
  {
    forall j :: i < j < |options| ==> options[j].name != options[i].name
  }

  /** Option names are pairwise distinct. */
  ghost predicate DistinctNames(options: seq<WidgetOption>) {
    forall i, j :: 0 <= i < j < |options| ==> options[i].name != options[j].name
  }

  /** With distinct names, option `k` is the only one with its name. */
  lemma DistinctLast(options: seq<WidgetOption>, k: nat)
    requires DistinctNames(options) && k < |options|
    ensures LastWithName(options, k)
    ensures forall o :: o in options && o.name == options[k].name ==> o == options[k]
  {
    forall o | o in options && o.name == options[k].name ensures o == options[k] {
      var j :| 0 <= j < |options| && options[j] == o;
      assert j == k;
    }
  }

  /** `process_values`: missing required names are reported first, then
      unknown names; otherwise one entry per declared option, the given value
      or the option's default. */
  function ProcessValues(values: map<string, Value>, options: seq<WidgetOption>): (r: Result<map<string, Value>>)
    ensures RequiredNames(options) - values.Keys != {} ==>
      r == Err(MissingArguments(RequiredNames(options) - values.Keys))
    ensures RequiredNames(options) <= values.Keys && values.Keys - Names(options) != {} ==>
      r == Err(UnknownArguments(values.Keys - Names(options)))
    ensures r.Ok? <==> RequiredNames(options) <= values.Keys <= Names(options)
    ensures r.Ok? ==> r.value.Keys == Names(options)
    ensures r.Ok? ==> forall i :: 0 <= i < |options| && LastWithName(options, i) ==>
      r.value[options[i].name] == (if options[i].name in values then values[options[i].name] else options[i].default)
  {
    var missing := RequiredNames(options) - values.Keys;
    EmptyDifference(RequiredNames(options), values.Keys);
    if missing != {} then Err(MissingArguments(missing))
    else
      var unknown := values.Keys - Names(options);
      EmptyDifference(values.Keys, Names(options));
      if unknown != {} then Err(UnknownArguments(unknown))
      else
        BuildKeys(values, options);
        BuildEntries(values, options);
        Ok(Build(values, options))
  }

  lemma EmptyDifference<T>(a: set<T>, b: set<T>)
    ensures a - b == {} <==> a <= b
  {
    if !(a <= b) {
      var x :| x in a && x !in b;
      assert x in a - b;
    }
  }

  /** The attribute names a `Values` instance inherits from `dict` and
      `object` under Python 2.7, or gets as an instance of a class without
      `__slots__`; ordinary attribute lookup finds these, so
      `__getattr__` never sees them. */
  const DictAttributes: set<string> := {
    "clear", "copy", "fromkeys", "get", "has_key", "items", "iteritems",
    "iterkeys", "itervalues", "keys", "pop", "popitem", "setdefault",
    "update", "values", "viewitems", "viewkeys", "viewvalues",
    "__class__", "__cmp__", "__contains__", "__delattr__", "__delitem__",
    "__dict__", "__doc__", "__eq__", "__format__", "__ge__",
    "__getattr__", "__getattribute__", "__getitem__", "__gt__", "__hash__",
    "__init__", "__iter__", "__le__", "__len__", "__lt__", "__module__",
    "__ne__", "__new__", "__reduce__", "__reduce_ex__", "__repr__",
    "__setattr__", "__setitem__", "__sizeof__", "__str__",
    "__subclasshook__", "__weakref__"
  }

  /** What `v.name` evaluates to: an entry of the dict, or the attribute of
      that name the class hierarchy provides. */
  datatype Attribute = Entry(value: Value) | Inherited(attr: string)

  /** `v.name` on a `Values` instance: a name the class hierarchy defines
      is found by ordinary lookup; any other name reaches `__getattr__`,
      which reads the same entry as `v['name']` and raises KeyError when
      the name is absent. */
  function GetAttr(v: map<string, Value>, name: string): (r: Result<Attribute>)
    ensures name in DictAttributes ==> r == Ok(Inherited(name))
    ensures name !in DictAttributes ==> (r.Ok? <==> name in v)
    ensures name !in DictAttributes && name in v ==> r == Ok(Entry(v[name]))
    ensures r.Err? ==> r.error == KeyError(name) && name !in v && name !in DictAttributes
  {
    if name in DictAttributes then Ok(Inherited(name))
    else if name in v then Ok(Entry(v[name]))
    else Err(KeyError(name))
  }

  // ---------------------------------------------------------------------
  // Reading an option from a GET query
  // ---------------------------------------------------------------------

  /** A `QueryDict`: every key maps to the list of values given for it. */
  type Query = map<string, seq<string>>

  /** `query.get(name, default)`: the last value given for the key, or the
      default when the key is absent or present with no value. */
  function QueryGet(query: Query, key: string, default: Value): (v: Value)
    ensures key !in query || query[key] == [] ==> v == default
    ensures key in query && query[key] != [] ==> v == Str(query[key][|query[key]| - 1])
  {
    if key !in query || query[key] == [] then default
    else Str(query[key][|query[key]| - 1])
  }

  /** `query.getlist(name)`: every value given, in order, or `[]`. */
  function QueryGetList(query: Query, key: string): (v: Value)
    ensures v.List?
    ensures key !in query ==> v.items == []
    ensures key in query ==> |v.items| == |query[key]|
    ensures key in query ==> forall i :: 0 <= i < |query[key]| ==> v.items[i] == Str(query[key][i])
  {
    if key !in query then Value.List([])
    else Value.List(seq(|query[key]|, i requires 0 <= i < |query[key]| => Str(query[key][i])))
  }

  /** `get_value_from_query`: a boolean reads whether its name is present; the
      multi kinds read every value; the others read one value or the default. */
  function ValueFromQuery(o: WidgetOption, query: Query): (v: Value)
    ensures o.kind == BoolOption ==> v == Value.Bool(o.name in query)
    ensures IsMultiKind(o.kind) ==> v == QueryGetList(query, o.name)
    ensures (o.kind == PlainOption || o.kind == SelectOption) ==> v == QueryGet(query, o.name, o.default)
  {
    match o.kind
    case BoolOption => Value.Bool(o.name in query)
    case MultiOption => QueryGetList(query, o.name)
    case ListOption => QueryGetList(query, o.name)
    case _ => QueryGet(query, o.name, o.default)
  }
}
