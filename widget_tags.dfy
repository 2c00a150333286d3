/** The `widget` and `box_widget` template tags
    (widgets/templatetags/widget_tags.py): checking the tag's words, taking
    off a trailing `as <uid>`, building the render node from the registry and
    the argument parser, and the resolve-then-validate step of rendering.
    The `decamel` filter and `_is_literal_string` live here too. */
module WidgetTags {
  import opened Wrappers
  import opened Values
  import opened Lexer
  import opened Options
  import opened ArgumentParser
  import opened Widgets
  import opened WidgetRegistry

  // ---------------------------------------------------------------------
  // Tag words
  // ---------------------------------------------------------------------

  /** What `widget_render_tag` hands to `WidgetRenderNode`: the class name,
      the argument words, and the text of the `as` placeholder, if any. */
  datatype TagCall = TagCall(classname: string, arguments: seq<string>, asName: Option<string>)

  /** The words `as <uid>` that a placeholder adds at the end of a tag. */
  function AsSuffix(asName: Option<string>): seq<string> {
    if asName.Some? then ["as", asName.value] else []
  }

  /** Taking off a trailing `as <uid>`: when the second-to-last word is `as`,
      the last word becomes the placeholder and both are dropped. */
  function StripAs(words: seq<string>): (r: (seq<string>, Option<string>))
    requires |words| >= 2
    ensures r.0 + AsSuffix(r.1) == words
    ensures r.1.Some? <==> words[|words| - 2] == "as"
  {
    var n := |words|;
    if words[n - 2] == "as" then
      assert words[..n - 2] + ["as", words[n - 1]] == words;
      (words[..n - 2], Some(words[n - 1]))
    else
      assert words + [] == words;
      (words, None)
  }

  /** The `as` part, if there is one, names a placeholder Django builds. */
  predicate AsNameBuilds(words: seq<string>)
    requires |words| >= 2
  {
    words[|words| - 2] != "as" || VariableCheck(words[|words| - 1]).Pass?
  }

  /** `widget_render_tag`: at least two words, the first `widget`; a
      trailing `as <uid>` becomes a placeholder and is taken off, and then the
      class name must still be there. */
  function WidgetTag(words: seq<string>): (r: Result<TagCall>)
    ensures !(|words| >= 2 && words[0] == "widget") ==> r == Err(TemplateSyntaxError)
    ensures |words| >= 2 && words[0] == "widget" && !AsNameBuilds(words) ==>
      r == Err(VariableCheck(words[|words| - 1]).error)
    ensures |words| >= 2 && words[0] == "widget" && AsNameBuilds(words) ==>
      (r == Err(IndexError) <==> |words| == 3 && words[1] == "as")
    ensures r.Err? ==> r.error == TemplateSyntaxError || r.error == IndexError
  {
    if !(|words| >= 2 && words[0] == "widget") then Err(TemplateSyntaxError)
    else
      var (args, asName) := StripAs(words);
      if asName.Some? && VariableCheck(asName.value).Fail? then Err(VariableCheck(asName.value).error)
      else if |args| < 2 then Err(IndexError)
      else Ok(TagCall(args[1], args[2..], asName))
  }

  /** The words of a `widget` tag that asks for `call`. */
  function TagWords(call: TagCall): seq<string> {
    ["widget", call.classname] + call.arguments + AsSuffix(call.asName)
  }

  /** A tag without an `as` part must not look as if it had one. */
  predicate Unambiguous(call: TagCall) {
    var plain := ["widget", call.classname] + call.arguments;
    call.asName.Some? || plain[|plain| - 2] != "as"
  }

  /** Reading the words of a call gives the call back, unless Django
      refuses its `as` name as a placeholder. */
  lemma TagWordsRead(call: TagCall)
    requires Unambiguous(call)
    ensures call.asName.Some? && VariableCheck(call.asName.value).Fail? ==>
      WidgetTag(TagWords(call)) == Err(VariableCheck(call.asName.value).error)
    ensures (call.asName.None? || VariableCheck(call.asName.value).Pass?) ==>
      WidgetTag(TagWords(call)) == Ok(call)
  {
    var plain := ["widget", call.classname] + call.arguments;
    var words := TagWords(call);
    assert words == plain + AsSuffix(call.asName);
    var n := |words|;
    if call.asName.Some? {
      assert words[n - 2] == "as";
      assert words[..n - 2] == plain;
    } else {
      assert plain + [] == plain;
    }
    assert plain[2..] == call.arguments;
  }

  /** A tag that reads successfully is exactly the words of what it read. */
  lemma TagWordsOfRead(words: seq<string>)
    requires WidgetTag(words).Ok?
    ensures TagWords(WidgetTag(words).value) == words
    ensures Unambiguous(WidgetTag(words).value)
  {
    var (args, asName) := StripAs(words);
    assert args == [args[0], args[1]] + args[2..];
    if asName.None? {
      assert args == words;
    }
  }

  /** `{% widget as x %}` passes the syntax check, builds the placeholder
      `x`, and then fails on the missing class name. */
  lemma AsWithoutClass(uid: string)
    ensures VariableCheck(uid).Fail? ==> WidgetTag(["widget", "as", uid]) == Err(VariableCheck(uid).error)
    ensures VariableCheck(uid).Pass? ==> WidgetTag(["widget", "as", uid]) == Err(IndexError)
  {
  }

  /** `{% widget app.W as _uid %}`: Django refuses `_uid` as a placeholder,
      so the tag does not compile. */
  lemma PrivateAsName()
    ensures WidgetTag(["widget", "app.W", "as", "_uid"]) == Err(TemplateSyntaxError)
  {
    assert !Translated("_uid") by { assert "_uid"[..2] == "_u"; }
  }

  /** `str.startswith` with a one-character prefix. */
  predicate StartsWith(s: string, c: char) {
    [c] <= s
  }

  /** `_is_literal_string`: the word starts with a double or single quote. */
  function IsLiteralString(s: string): (b: bool)
    ensures b <==> |s| > 0 && (s[0] == '"' || s[0] == '\'')
  {
    StartsWith(s, '"') || StartsWith(s, '\'')
  }

  /** `title[1:-1]`: the word without its first and last characters; a word
      shorter than two characters gives the empty string. */
  function Title(t: string): (r: string)
    ensures |t| >= 2 ==> [t[0]] + r + [t[|t| - 1]] == t
    ensures |t| < 2 ==> r == ""
  {
    if |t| >= 2 then
      assert [t[0]] + t[1..|t| - 1] + [t[|t| - 1]] == t;
      t[1..|t| - 1]
    else ""
  }

  /** How `BoxedWidget` keeps its template: a quoted word is kept as it is
      (quotes included), anything else becomes a `Variable` placeholder. */
  datatype TemplateRef = LiteralTemplate(word: string) | VariableTemplate(text: string)

  function TemplateOf(word: string): (r: Result<TemplateRef>)
    ensures r.Ok? && r.value.LiteralTemplate? <==> IsLiteralString(word)
    ensures r.Ok? && r.value.LiteralTemplate? ==> r.value.word == word
    ensures r.Ok? && r.value.VariableTemplate? ==> r.value.text == word
    ensures r.Err? <==> !IsLiteralString(word) && VariableCheck(word).Fail?
    ensures r.Err? ==> r.error == VariableCheck(word).error
  {
    if IsLiteralString(word) then Ok(LiteralTemplate(word))
    else
      match VariableCheck(word)
      case Fail(e) => Err(e)
      case Pass => Ok(VariableTemplate(word))
  }

  /** What `box_widget_render_tag` hands to `BoxedWidget`, with the template
      and title already as `BoxedWidget.__init__` stores them. */
  datatype BoxCall = BoxCall(template: TemplateRef, title: string, call: TagCall)

  /** Taking off `as <uid>` leaves fewer than the four words a box needs. */
  predicate ShortBox(words: seq<string>)
    requires |words| >= 4
  {
    (|words| == 4 || |words| == 5) && words[|words| - 2] == "as"
  }

  /** `box_widget_render_tag`: at least four words, the first `box_widget`;
      a trailing `as <uid>` becomes a placeholder and is taken off; template,
      title and class name must still be there; then `BoxedWidget` keeps the
      template before the inner node is built. */
  function BoxWidgetTag(words: seq<string>): (r: Result<BoxCall>)
    ensures !(|words| >= 4 && words[0] == "box_widget") ==> r == Err(TemplateSyntaxError)
    ensures |words| >= 4 && words[0] == "box_widget" && !AsNameBuilds(words) ==>
      r == Err(VariableCheck(words[|words| - 1]).error)
    ensures |words| >= 4 && words[0] == "box_widget" && AsNameBuilds(words) && ShortBox(words) ==>
      r == Err(IndexError)
    ensures |words| >= 4 && words[0] == "box_widget" && AsNameBuilds(words) && !ShortBox(words) ==>
      (r.Ok? <==> TemplateOf(words[1]).Ok?)
    ensures |words| >= 4 && words[0] == "box_widget" && AsNameBuilds(words) && !ShortBox(words) ==>
      (TemplateOf(words[1]).Err? ==> r == Err(TemplateOf(words[1]).error))
    ensures r.Ok? ==> (Ok(r.value.template) == TemplateOf(words[1]) && r.value.title == Title(words[2])
      && r.value.call.classname == words[3])
  {
    if !(|words| >= 4 && words[0] == "box_widget") then Err(TemplateSyntaxError)
    else
      var (args, asName) := StripAs(words);
      if asName.Some? && VariableCheck(asName.value).Fail? then Err(VariableCheck(asName.value).error)
      else if |args| < 4 then Err(IndexError)
      else
        var template :- TemplateOf(args[1]);
        Ok(BoxCall(template, Title(args[2]), TagCall(args[3], args[4..], asName)))
  }

  /** A box tag with a quoted title and `as uid`: unless the uid or the
      template is refused as a placeholder, the title loses exactly its
      quotes and the template is kept as `TemplateOf` reads it. */
  lemma BoxTagQuoted(template: string, title: string, classname: string, arguments: seq<string>, uid: string)
    ensures var words := ["box_widget", template, "\"" + title + "\"", classname] + arguments + ["as", uid];
      BoxWidgetTag(words) ==
        if VariableCheck(uid).Fail? then Err(VariableCheck(uid).error)
        else if TemplateOf(template).Err? then Err(TemplateOf(template).error)
        else Ok(BoxCall(TemplateOf(template).value, title, TagCall(classname, arguments, Some(uid))))
  {
    var words := ["box_widget", template, "\"" + title + "\"", classname] + arguments + ["as", uid];
    var n := |words|;
    assert words[n - 2] == "as";
    var args := words[..n - 2];
    assert args == ["box_widget", template, "\"" + title + "\"", classname] + arguments;
    assert args[4..] == arguments;
    var q := "\"" + title + "\"";
    assert q[1..|q| - 1] == title;
  }

  // ---------------------------------------------------------------------
  // decamel
  // ---------------------------------------------------------------------

  predicate IsUpper(c: char) {
    'A' <= c <= 'Z'
  }

  /** `decamel`: one space in front of every capital letter A to Z. */
  function Decamel(s: string): (r: string)
    ensures |r| > 0 ==> !IsUpper(r[0])
    ensures forall i :: 0 <= i < |r| && IsUpper(r[i]) ==> i > 0 && r[i - 1] == ' '
  {
    if s == [] then []
    else
      var rest := Decamel(s[1..]);
      var head := if IsUpper(s[0]) then [' ', s[0]] else [s[0]];
      assert forall i :: 0 <= i < |rest| ==> (head + rest)[|head| + i] == rest[i];
      head + rest
  }

  /** Undoes `decamel`: every space that stands before a capital is dropped. */
  function Undecamel(r: string): string {
    if r == [] then []
    else if |r| >= 2 && r[0] == ' ' && IsUpper(r[1]) then [r[1]] + Undecamel(r[2..])
    else [r[0]] + Undecamel(r[1..])
  }

  /** `decamel` only inserts the spaces: taking them out again gives the
      original string back. */
  lemma {:induction false} DecamelRoundTrip(s: string)
    decreases |s|
    ensures Undecamel(Decamel(s)) == s
  {
    if s != [] {
      var rest := Decamel(s[1..]);
      DecamelRoundTrip(s[1..]);
      if IsUpper(s[0]) {
        assert Decamel(s) == [' ', s[0]] + rest;
        assert Decamel(s)[2..] == rest;
      } else {
        assert Decamel(s) == [s[0]] + rest;
        assert Decamel(s)[1..] == rest;
      }
    }
  }

  /** Count of capitals A to Z. */
  function Capitals(s: string): nat {
    if s == [] then 0 else (if IsUpper(s[0]) then 1 else 0) + Capitals(s[1..])
  }

  /** One space more per capital, nothing else added or lost. */
  lemma {:induction false} DecamelLength(s: string)
    decreases |s|
    ensures |Decamel(s)| == |s| + Capitals(s)
  {
    if s != [] {
      DecamelLength(s[1..]);
    }
  }

  // ---------------------------------------------------------------------
  // The render node
  // ---------------------------------------------------------------------

  /** Every pair's value has the shape its option parses to. */
  predicate Fitting(values: seq<Pair>) {
    forall i :: 0 <= i < |values| ==> Fits(values[i].0.kind, values[i].1)
  }

  /** Every pair's placeholders resolve in the context. */
  predicate AllResolve(values: seq<Pair>, ctx: Context) {
    forall i :: 0 <= i < |values| ==> Resolves(ctx, values[i].1)
  }

  /** `dict((opt.name, opt.resolve_value(context, value)) for opt, value in
      values)`: one entry per option name, a later pair overwriting an
      earlier one; the pairs are resolved in order, and the first that does
      not resolve raises. */
  function Resolved(values: seq<Pair>, ctx: Context): Result<map<string, Value>>
    requires Fitting(values)
    decreases |values|
  {
    if values == [] then Ok(map[])
    else
      var n := |values| - 1;
      var p := values[n];
      var init := values[..n];
      assert forall i :: 0 <= i < n ==> init[i] == values[i];
      var m :- Resolved(init, ctx);
      var v :- ResolveValue(p.0, ctx, p.1);
      Ok(m[p.0.name := v])
  }

  /** The dict is built exactly when every pair resolves; otherwise the
      error is that of the first pair that does not. */
  lemma {:induction false} ResolvedFails(values: seq<Pair>, ctx: Context)
    requires Fitting(values)
    decreases |values|
    ensures Resolved(values, ctx).Ok? <==> AllResolve(values, ctx)
    ensures Resolved(values, ctx).Err? ==> exists i :: (0 <= i < |values| && !Resolves(ctx, values[i].1)
      && (forall j :: 0 <= j < i ==> Resolves(ctx, values[j].1))
      && Resolved(values, ctx).error == ResolveValue(values[i].0, ctx, values[i].1).error)
  {
    if values != [] {
      var n := |values| - 1;
      var init := values[..n];
      assert forall i :: 0 <= i < n ==> init[i] == values[i];
      ResolvedFails(init, ctx);
    }
  }

  /** Once a prefix of the pairs fails to resolve, so does the whole list,
      with the same error. */
  lemma {:induction false} ResolvedErrPrefix(values: seq<Pair>, ctx: Context, k: nat)
    requires Fitting(values) && k <= |values|
    requires Fitting(values[..k]) && Resolved(values[..k], ctx).Err?
    decreases |values| - k
    ensures Resolved(values, ctx) == Resolved(values[..k], ctx)
  {
    if k == |values| {
      assert values[..k] == values;
    } else {
      var longer := values[..k + 1];
      assert longer[..k] == values[..k];
      assert Fitting(longer);
      assert Resolved(longer, ctx) == Resolved(values[..k], ctx);
      ResolvedErrPrefix(values, ctx, k + 1);
    }
  }

  /** When the dict is built, it has an entry for exactly the names the
      pairs mention. */
  lemma {:induction false} ResolvedKeys(values: seq<Pair>, ctx: Context)
    requires Fitting(values)
    decreases |values|
    ensures Resolved(values, ctx).Ok? ==>
      Resolved(values, ctx).value.Keys == set i | 0 <= i < |values| :: values[i].0.name
  {
    if values != [] {
      var n := |values| - 1;
      var init := values[..n];
      assert forall i :: 0 <= i < n ==> init[i] == values[i];
      ResolvedKeys(init, ctx);
      assert (set i | 0 <= i < |values| :: values[i].0.name)
        == (set i | 0 <= i < n :: init[i].0.name) + {values[n].0.name};
    }
  }

  /** No later pair names the same option as pair `i`. */
  ghost predicate LastFlagFor(values: seq<Pair>, i: int)
    requires 0 <= i < |values|
  {
    forall j :: i < j < |values| ==> values[j].0.name != values[i].0.name
  }

  /** A flag given several times takes the value of its last occurrence. */
  lemma {:induction false} LaterFlagWins(values: seq<Pair>, ctx: Context, i: nat)
    requires Fitting(values) && Resolved(values, ctx).Ok?
    requires i < |values| && LastFlagFor(values, i)
    decreases |values|
    ensures var m := Resolved(values, ctx).value;
      values[i].0.name in m && ResolveValue(values[i].0, ctx, values[i].1) == Ok(m[values[i].0.name])
  {
    var n := |values| - 1;
    var init := values[..n];
    assert forall j :: 0 <= j < n ==> init[j] == values[j];
    var last := values[n];
    assert Resolved(init, ctx).Ok?;
    var m := Resolved(init, ctx).value;
    assert Resolved(values, ctx).value == m[last.0.name := ResolveValue(last.0, ctx, last.1).value];
    if i < n {
      assert last.0.name != values[i].0.name;
      LaterFlagWins(init, ctx, i);
    }
  }

  /** What `WidgetRenderNode.render` passes on to the widget's render
      wrapper: the processed options, the resolved raw values and the uid. */
  datatype Rendered = Rendered(options: map<string, Value>, raw: map<string, Value>, uid: Option<Value>)

  /** The placeholder of `as <uid>` resolved, or no uid. */
  function Uid(asName: Option<string>, ctx: Context): (r: Result<Option<Value>>)
    ensures asName.None? ==> r == Ok(None)
    ensures asName.Some? ==> (r.Ok? <==> ctx.lookup(asName.value).Some?)
    ensures asName.Some? && r.Ok? ==> r.value == ctx.lookup(asName.value)
    ensures r.Err? ==> r.error == VariableDoesNotExist(asName.value)
  {
    if asName.Some? then
      var v :- Resolve(ctx, asName.value);
      Ok(Some(v))
    else Ok(None)
  }

  /** Resolve every pair, validate the dict with `process_values`, then
      resolve the uid. */
  function Rendering(options: seq<WidgetOption>, values: seq<Pair>, asName: Option<string>, ctx: Context): Result<Rendered>
    requires Fitting(values)
  {
    var resolved :- Resolved(values, ctx);
    var processed :- ProcessValues(resolved, options);
    var uid :- Uid(asName, ctx);
    Ok(Rendered(processed, resolved, uid))
  }

  /** Pairs produced from the widget's own options can fail validation only
      for a missing required option, never for an unknown one. A variable the
      context does not define fails first; when every variable resolves, the
      render fails exactly when some required option was given no flag, and
      otherwise only for an undefined uid. */
  lemma RenderOnlyMissing(options: seq<WidgetOption>, values: seq<Pair>, asName: Option<string>, ctx: Context)
    requires Fitting(values)
    requires forall i :: 0 <= i < |values| ==> values[i].0 in options
    ensures var r := Rendering(options, values, asName, ctx);
      r.Err? ==> r.error.MissingArguments? || r.error.VariableDoesNotExist?
    ensures !AllResolve(values, ctx) ==>
      Resolved(values, ctx).Err? && Rendering(options, values, asName, ctx) == Err(Resolved(values, ctx).error)
    ensures var flagged := set i | 0 <= i < |values| :: values[i].0.name;
      AllResolve(values, ctx) && !(RequiredNames(options) <= flagged) ==>
        Rendering(options, values, asName, ctx) == Err(MissingArguments(RequiredNames(options) - flagged))
    ensures var flagged := set i | 0 <= i < |values| :: values[i].0.name;
      AllResolve(values, ctx) && RequiredNames(options) <= flagged ==>
        Rendering(options, values, asName, ctx).Ok? == (asName.None? || ctx.lookup(asName.value).Some?)
  {
    ResolvedFails(values, ctx);
    if Resolved(values, ctx).Err? {
      var i :| 0 <= i < |values| && !Resolves(ctx, values[i].1)
        && Resolved(values, ctx).error == ResolveValue(values[i].0, ctx, values[i].1).error;
    } else {
      var m := Resolved(values, ctx).value;
      ResolvedKeys(values, ctx);
      FlaggedAreOptions(options, values);
      assert m.Keys == set i | 0 <= i < |values| :: values[i].0.name;
      assert m.Keys <= Names(options);
      var processed := ProcessValues(m, options);
      assert processed.Ok? <==> RequiredNames(options) <= m.Keys;
    }
  }

  /** Every flagged name is the name of one of the options. */
  lemma FlaggedAreOptions(options: seq<WidgetOption>, values: seq<Pair>)
    requires forall i :: 0 <= i < |values| ==> values[i].0 in options
    ensures (set i | 0 <= i < |values| :: values[i].0.name) <= Names(options)
  {
    forall n | n in (set i | 0 <= i < |values| :: values[i].0.name) ensures n in Names(options) {
      var i :| 0 <= i < |values| && values[i].0.name == n;
      assert values[i].0 in options;
    }
  }

  /** A successful render holds, for every option given a flag, the value
      of its last flag. */
  lemma RenderedOptionValues(options: seq<WidgetOption>, values: seq<Pair>, asName: Option<string>, ctx: Context, k: nat, i: nat)
    requires Fitting(values)
    requires Rendering(options, values, asName, ctx).Ok?
    requires k < |options| && LastWithName(options, k)
    requires i < |values| && LastFlagFor(values, i) && values[i].0.name == options[k].name
    ensures ResolveValue(values[i].0, ctx, values[i].1)
      == Ok(Rendering(options, values, asName, ctx).value.options[options[k].name])
  {
    LaterFlagWins(values, ctx, i);
  }

  /** The generator of `render`: the dict built pair by pair, stopping at
      the first value that does not resolve. */
  method ResolvePairs(values: seq<Pair>, ctx: Context) returns (r: Result<map<string, Value>>)
    requires Fitting(values)
    ensures r == Resolved(values, ctx)
  {
    var resolved: map<string, Value> := map[];
    for i := 0 to |values|
      invariant Fitting(values[..i])
      invariant Resolved(values[..i], ctx) == Ok(resolved)
    {
      var (o, raw) := values[i];
      assert values[..i + 1][..i] == values[..i];
      var v := ResolveValue(o, ctx, raw);
      if v.Err? {
        assert Fitting(values[..i + 1]);
        ResolvedErrPrefix(values, ctx, i + 1);
        return Err(v.error);
      }
      resolved := resolved[o.name := v.value];
    }
    assert values[..|values|] == values;
    return Ok(resolved);
  }

  /** `WidgetRenderNode`: the widget class found, the parsed pairs, and the
      uid placeholder. */
  class WidgetRenderNode {
    const widget: WidgetClass
    const values: seq<Pair>
    const asName: Option<string>

    /** Pairs come from parsing against the widget's own options. */
    ghost predicate Valid() {
      Fitting(values) && forall i :: 0 <= i < |values| ==> values[i].0 in widget.options
    }

    constructor (widget: WidgetClass, values: seq<Pair>, asName: Option<string>)
      requires Fitting(values) && forall i :: 0 <= i < |values| ==> values[i].0 in widget.options
      ensures Valid() && this.widget == widget && this.values == values && this.asName == asName
    {
      this.widget := widget;
      this.values := values;
      this.asName := asName;
    }

    /** `render`: the dict of resolved values, then validated, then the uid
        resolved. */
    method Render(ctx: Context) returns (r: Result<Rendered>)
      requires Valid()
      ensures r == Rendering(widget.options, values, asName, ctx)
      ensures r.Err? ==> r.error.MissingArguments? || r.error.VariableDoesNotExist?
    {
      RenderOnlyMissing(widget.options, values, asName, ctx);
      var resolved := ResolvePairs(values, ctx);
      if resolved.Err? {
        return Err(resolved.error);
      }
      var processed := ProcessValues(resolved.value, widget.options);
      if processed.Err? {
        return Err(processed.error);
      }
      var uid := Uid(asName, ctx);
      if uid.Err? {
        return Err(uid.error);
      }
      return Ok(Rendered(processed.value, resolved.value, uid.value));
    }
  }

  /** The class `registry.find` hands back: the stored one, or whatever
      loading the name gives. */
  function Located(entries: Entries, classname: string, load: string -> Result<WidgetClass>): Result<WidgetClass> {
    if classname in entries then Ok(entries[classname]) else load(classname)
  }

  /** The registry table after `registry.find(classname)`: a known name
      changes nothing, an unknown one is added when it loads. */
  function AfterFind(entries: Entries, classname: string, load: string -> Result<WidgetClass>): Entries {
    if classname in entries then entries
    else if load(classname).Ok? then entries[classname := load(classname).value]
    else entries
  }

  /** `r` is what `WidgetRenderNode(classname, arguments, as_name)` gives
      for `call` against the table `entries`: the lookup error, else the
      parse error, else a valid node of the class found holding the parsed
      pairs and the `as` name. */
  ghost predicate NodeBuilt(r: Result<WidgetRenderNode>, entries: Entries, call: TagCall, load: string -> Result<WidgetClass>) {
    var found := Located(entries, call.classname, load);
    && (found.Err? ==> r == Err(found.error))
    && (found.Ok? ==> var parsed := Parse(found.value.options, Words(call.arguments));
          && (parsed.Err? ==> r == Err(parsed.error))
          && (parsed.Ok? ==> (r.Ok? && r.value.Valid()
                && r.value.widget == found.value && r.value.values == parsed.value
                && r.value.asName == call.asName)))
  }

  /** `WidgetRenderNode.__init__`: find the class (registering it if
      needed), then parse the argument words against its options. */
  method NewWidgetRenderNode(registry: Registry, call: TagCall, load: string -> Result<WidgetClass>)
    returns (r: Result<WidgetRenderNode>)
    modifies registry
    ensures NodeBuilt(r, old(registry.entries), call, load)
    ensures r.Ok? ==> fresh(r.value)
    ensures registry.entries == AfterFind(old(registry.entries), call.classname, load)
  {
    var cls := registry.Find(call.classname, load);
    if cls.Err? {
      return Err(cls.error);
    }
    var parsed := ParseArgumentList(cls.value.options, Words(call.arguments));
    if parsed.Err? {
      return Err(parsed.error);
    }
    PairsFit(cls.value.options, Start(Tokens(Words(call.arguments))).Consumed());
    assert forall i :: 0 <= i < |parsed.value| ==> parsed.value[i] in parsed.value;
    var node := new WidgetRenderNode(cls.value, parsed.value, call.asName);
    return Ok(node);
  }

  /** The `widget` tag from its words to its node. */
  method WidgetRenderTag(registry: Registry, words: seq<string>, load: string -> Result<WidgetClass>)
    returns (r: Result<WidgetRenderNode>)
    modifies registry
    ensures WidgetTag(words).Err? ==> r == Err(WidgetTag(words).error) && registry.entries == old(registry.entries)
    ensures WidgetTag(words).Ok? ==>
      && NodeBuilt(r, old(registry.entries), WidgetTag(words).value, load)
      && registry.entries == AfterFind(old(registry.entries), WidgetTag(words).value.classname, load)
    ensures r.Ok? ==> fresh(r.value)
    ensures r.Ok? ==> (WidgetTag(words).Ok?
      && var call := WidgetTag(words).value;
         Located(old(registry.entries), call.classname, load) == Ok(r.value.widget)
         && Parse(r.value.widget.options, Words(call.arguments)) == Ok(r.value.values)
         && r.value.asName == call.asName)
  {
    var call := WidgetTag(words);
    if call.Err? {
      return Err(call.error);
    }
    r := NewWidgetRenderNode(registry, call.value, load);
  }

  /** `BoxedWidget`: a render node with the box template and title. */
  class BoxedWidget {
    const template: TemplateRef
    const title: string
    const node: WidgetRenderNode

    constructor (template: TemplateRef, title: string, node: WidgetRenderNode)
      ensures this.template == template && this.title == title && this.node == node
    {
      this.template := template;
      this.title := title;
      this.node := node;
    }
  }

  /** The inner render node of a boxed widget, or the error. */
  function NodeOf(r: Result<BoxedWidget>): Result<WidgetRenderNode> {
    if r.Ok? then Ok(r.value.node) else Err(r.error)
  }

  /** The `box_widget` tag from its words to its node: the template and
      title are kept before the inner node is built. */
  method BoxWidgetRenderTag(registry: Registry, words: seq<string>, load: string -> Result<WidgetClass>)
    returns (r: Result<BoxedWidget>)
    modifies registry
    ensures BoxWidgetTag(words).Err? ==> r == Err(BoxWidgetTag(words).error) && registry.entries == old(registry.entries)
    ensures BoxWidgetTag(words).Ok? ==>
      && NodeBuilt(NodeOf(r), old(registry.entries), BoxWidgetTag(words).value.call, load)
      && registry.entries == AfterFind(old(registry.entries), BoxWidgetTag(words).value.call.classname, load)
    ensures r.Ok? ==> fresh(r.value) && fresh(r.value.node)
    ensures r.Ok? ==> (BoxWidgetTag(words).Ok?
      && Ok(r.value.template) == TemplateOf(words[1]) && r.value.title == Title(words[2])
      && r.value.template == BoxWidgetTag(words).value.template
      && r.value.title == BoxWidgetTag(words).value.title
      && r.value.node.asName == BoxWidgetTag(words).value.call.asName)
  {
    var box := BoxWidgetTag(words);
    if box.Err? {
      return Err(box.error);
    }
    var node := NewWidgetRenderNode(registry, box.value.call, load);
    if node.Err? {
      return Err(node.error);
    }
    var boxed := new BoxedWidget(box.value.template, box.value.title, node.value);
    return Ok(boxed);
  }
}
