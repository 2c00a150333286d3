/** Resolved option values and the template context they are resolved in. */
module Values {
  import opened Wrappers

  /** The Python values that option resolution and the query reader produce. */
  datatype Value =
    | Null
    | Bool(b: bool)
    | Int(i: int)
    | Str(s: string)
    | List(items: seq<Value>)

  /** Python truth testing of a value. */
  predicate Truthy(v: Value) {
    match v
    case Null => false
    case Bool(b) => b
    case Int(i) => i != 0
    case Str(s) => s != ""
    case List(items) => items != []
  }

  /** A template context. Resolving a `Variable` placeholder against it is
      the template engine's business, so it stays an abstract function of the
      placeholder's text; `None` is a name the context does not define, for
      which `Variable.resolve` raises `VariableDoesNotExist`. */
  datatype Context = Context(lookup: string -> Option<Value>)

  /** `Variable(text).resolve(context)`. */
  function Resolve(ctx: Context, text: string): (r: Result<Value>)
    ensures r.Ok? <==> ctx.lookup(text).Some?
    ensures r.Ok? ==> Some(r.value) == ctx.lookup(text)
    ensures r.Err? ==> r.error == VariableDoesNotExist(text)
  {
    match ctx.lookup(text)
    case Some(v) => Ok(v)
    case None => Err(VariableDoesNotExist(text))
  }

  // ---------------------------------------------------------------------
  // Building a placeholder
  // ---------------------------------------------------------------------

  /** `var.startswith('_(') and var.endswith(')')`: the translation wrapper
      `_( ... )`, which `Variable` takes off before it looks at the text. */
  predicate Translated(text: string) {
    |text| >= 3 && text[..2] == "_(" && text[|text| - 1] == ')'
  }

  /** The text `Variable` goes on to check: `var[2:-1]` inside a translation
      wrapper, the text itself otherwise. */
  function Untranslated(text: string): (v: string)
    ensures Translated(text) ==> text == "_(" + v + ")"
    ensures !Translated(text) ==> v == text
  {
    if Translated(text) then
      assert text == text[..2] + text[2..|text| - 1] + [text[|text| - 1]];
      text[2..|text| - 1]
    else text
  }

  /** `unescape_string_literal` accepts the text: its first character is a
      quote and its last is the same quote. */
  predicate IsQuotedLiteral(v: string) {
    |v| > 0 && (v[0] == '"' || v[0] == '\'') && v[|v| - 1] == v[0]
  }

  /** `var.find('._') > -1`. */
  predicate HasDotUnderscore(v: string) {
    exists i :: 0 <= i < |v| - 1 && v[i] == '.' && v[i + 1] == '_'
  }

  /** `var.split('.')`. */
  function Segments(v: string): (r: seq<string>)
    ensures |r| >= 1
  {
    if v == [] then [""]
    else
      var rest := Segments(v[1..]);
      if v[0] == '.' then [""] + rest else [[v[0]] + rest[0]] + rest[1..]
  }

  /** The names the dots separate, joined back with dots. */
  function Join(segs: seq<string>): string
    requires |segs| >= 1
  {
    if |segs| == 1 then segs[0] else segs[0] + "." + Join(segs[1..])
  }

  /** Splitting on dots loses nothing, and no segment holds a dot. */
  lemma {:induction false} SegmentsJoin(v: string)
    ensures Join(Segments(v)) == v
    ensures forall k :: 0 <= k < |Segments(v)| ==> '.' !in Segments(v)[k]
  {
    if v != [] {
      var rest := Segments(v[1..]);
      SegmentsJoin(v[1..]);
      if v[0] == '.' {
        assert Segments(v) == [""] + rest;
        assert ([""] + rest)[1..] == rest;
        assert v == "." + v[1..];
      } else {
        var segs := [[v[0]] + rest[0]] + rest[1..];
        assert Segments(v) == segs;
        if |rest| == 1 {
          assert v == [v[0]] + rest[0];
        } else {
          assert segs[1..] == rest[1..];
          assert v == [v[0]] + (rest[0] + "." + Join(rest[1..]));
        }
        forall k | 0 <= k < |segs| ensures '.' !in segs[k] {
          if k > 0 { assert segs[k] == rest[k]; }
        }
      }
    }
  }

  /** A name or attribute that starts with an underscore. */
  predicate Private(segment: string) {
    |segment| > 0 && segment[0] == '_'
  }

  /** Some segment after the first starts with an underscore. */
  predicate LaterPrivate(segs: seq<string>)
    requires |segs| >= 1
  {
    exists s :: s in segs[1..] && Private(s)
  }

  /** Some segment after the first starts with an underscore exactly when
      the text holds `._`. */
  lemma {:induction false} LaterSegmentPrivate(v: string)
    ensures LaterPrivate(Segments(v)) <==> HasDotUnderscore(v)
  {
    if v != [] {
      var tail := v[1..];
      LaterSegmentPrivate(tail);
      if v[0] == '.' {
        DotHead(v, tail, Segments(tail));
      } else {
        PlainHead(v, tail, Segments(tail));
      }
    }
  }

  /** (proof helper) The step of `LaterSegmentPrivate` at a leading dot. */
  lemma DotHead(v: string, tail: string, rest: seq<string>)
    requires v != [] && v[0] == '.' && tail == v[1..] && rest == Segments(tail)
    requires LaterPrivate(rest) <==> HasDotUnderscore(tail)
    ensures LaterPrivate(Segments(v)) <==> HasDotUnderscore(v)
  {
    assert Segments(v)[1..] == rest;
    assert (exists s :: s in rest && Private(s)) <==> Private(rest[0]) || LaterPrivate(rest) by {
      assert forall s :: s in rest <==> s == rest[0] || s in rest[1..];
    }
    assert Private(rest[0]) <==> |tail| > 0 && tail[0] == '_';
    if HasDotUnderscore(v) {
      var i :| 0 <= i < |v| - 1 && v[i] == '.' && v[i + 1] == '_';
      if i > 0 {
        assert tail[i - 1] == '.' && tail[i] == '_';
      }
    }
    if HasDotUnderscore(tail) {
      var i :| 0 <= i < |tail| - 1 && tail[i] == '.' && tail[i + 1] == '_';
      assert v[i + 1] == '.' && v[i + 2] == '_';
    }
  }

  /** (proof helper) The step of `LaterSegmentPrivate` at any other first
      character. */
  lemma PlainHead(v: string, tail: string, rest: seq<string>)
    requires v != [] && v[0] != '.' && tail == v[1..] && rest == Segments(tail)
    requires LaterPrivate(rest) <==> HasDotUnderscore(tail)
    ensures LaterPrivate(Segments(v)) <==> HasDotUnderscore(v)
  {
    assert Segments(v)[1..] == rest[1..];
    if HasDotUnderscore(v) {
      var i :| 0 <= i < |v| - 1 && v[i] == '.' && v[i + 1] == '_';
      assert tail[i - 1] == '.' && tail[i] == '_';
    }
    if HasDotUnderscore(tail) {
      var i :| 0 <= i < |tail| - 1 && tail[i] == '.' && tail[i + 1] == '_';
      assert v[i + 1] == '.' && v[i + 2] == '_';
    }
  }

  /** `var.find('._') > -1 or var[0] == '_'` says that some dotted segment
      starts with an underscore. */
  lemma UnderscoreSegment(v: string)
    requires v != []
    ensures (HasDotUnderscore(v) || v[0] == '_') <==> exists s :: s in Segments(v) && Private(s)
  {
    LaterSegmentPrivate(v);
    var segs := Segments(v);
    assert Private(segs[0]) <==> v[0] == '_';
    assert forall s :: s in segs <==> s == segs[0] || s in segs[1..];
  }

  /** Building `Variable(text)`, which Django does when the tag is compiled.
      A number never starts with `_` or holds `._`, so the attempt to read
      the text as a number changes nothing here. After the translation
      wrapper is taken off, an empty text raises `IndexError` (`var[0]`), a
      quoted literal is accepted, and a name with a dotted segment that
      starts with an underscore raises `TemplateSyntaxError`. */
  function VariableCheck(text: string): (r: Outcome)
    ensures var v := Untranslated(text);
      && (r == Fail(IndexError) <==> v == [])
      && (r == Fail(TemplateSyntaxError) <==>
            (v != [] && !IsQuotedLiteral(v) && exists s :: s in Segments(v) && Private(s)))
    ensures r.Fail? ==> r.error == IndexError || r.error == TemplateSyntaxError
  {
    var v := Untranslated(text);
    if v == [] then Fail(IndexError)
    else if IsQuotedLiteral(v) then Pass
    else
      UnderscoreSegment(v);
      if HasDotUnderscore(v) || v[0] == '_' then Fail(TemplateSyntaxError) else Pass
  }
}
