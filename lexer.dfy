/** The tokenizer of the widget tag's argument language and the cursor the
    argument-list parser drives (widgets/command_parser.py, `OptionLexer`). */
module Lexer {
  import opened Wrappers

  /** The characters Python 2's `str.strip()` removes. */
  predicate IsSpace(c: char) {
    c == ' ' || c == '\t' || c == '\n' || c == '\r' || c == '\U{000B}' || c == '\U{000C}'
  }

  ghost predicate AllSpace(s: string) {
    forall i :: 0 <= i < |s| ==> IsSpace(s[i])
  }

  function StripLeft(s: string): (r: string)
    ensures |r| <= |s| && r == s[|s| - |r|..]
    ensures r == [] || !IsSpace(r[0])
    ensures forall i :: 0 <= i < |s| - |r| ==> IsSpace(s[i])
  {
    if s != [] && IsSpace(s[0]) then StripLeft(s[1..]) else s
  }

  function StripRight(s: string): (r: string)
    ensures |r| <= |s| && r == s[..|r|]
    ensures r == [] || !IsSpace(r[|r| - 1])
    ensures forall i :: |r| <= i < |s| ==> IsSpace(s[i])
  {
    if s != [] && IsSpace(s[|s| - 1]) then StripRight(s[..|s| - 1]) else s
  }

  /** `r` is the slice of `s` starting at `k`, with only whitespace cut
      from either side. */
  ghost predicate TrimmedAt(s: string, r: string, k: int) {
    0 <= k && k + |r| <= |s| && r == s[k..k + |r|] && AllSpace(s[..k]) && AllSpace(s[k + |r|..])
  }

  /** `s.strip()`: the result is a slice of `s` with only whitespace cut
      away and no whitespace at either end; it is empty exactly when `s` is
      whitespace only. */
  function Strip(s: string): (r: string)
    ensures exists k :: TrimmedAt(s, r, k)
    ensures |r| > 0 ==> !IsSpace(r[0]) && !IsSpace(r[|r| - 1])
    ensures |r| == 0 <==> AllSpace(s)
  {
    var l := StripLeft(s);
    var r := StripRight(l);
    StripAllSpace(s, l, r);
    r
  }

  lemma StripAllSpace(s: string, l: string, r: string)
    requires l == StripLeft(s) && r == StripRight(l)
    ensures TrimmedAt(s, r, |s| - |l|)
    ensures |r| > 0 ==> !IsSpace(r[0]) && !IsSpace(r[|r| - 1])
    ensures |r| == 0 <==> AllSpace(s)
  {
    var k := |s| - |l|;
    StripSlice(s, l, r);
    if |r| == 0 {
      assert |l| == 0;
      assert AllSpace(s);
    } else {
      assert r[0] == l[0] && l[0] == s[k];
      assert !IsSpace(s[k]);
    }
  }

  /** Cutting whitespace from the front and then from the back leaves a
      slice of the original with only whitespace around it. */
  lemma StripSlice(s: string, l: string, r: string)
    requires |l| <= |s| && l == s[|s| - |l|..]
    requires forall i :: 0 <= i < |s| - |l| ==> IsSpace(s[i])
    requires |r| <= |l| && r == l[..|r|]
    requires forall i :: |r| <= i < |l| ==> IsSpace(l[i])
    ensures TrimmedAt(s, r, |s| - |l|)
  {
    var k := |s| - |l|;
    assert s[k..][..|r|] == s[k..k + |r|];
    var head := s[..k];
    assert AllSpace(head) by {
      forall i | 0 <= i < |head| ensures IsSpace(head[i]) {
        assert head[i] == s[i];
      }
    }
    var tail := s[k + |r|..];
    assert AllSpace(tail) by {
      forall i | 0 <= i < |tail| ensures IsSpace(tail[i]) {
        assert tail[i] == l[|r| + i];
      }
    }
  }

  // ---------------------------------------------------------------------
  // Splitting: re.split("( |\".*?\"|'.*?')", arguments.strip())
  // ---------------------------------------------------------------------

  /** Where the lazy `".*?"` (or `'.*?'`) that opened just before `j` closes:
      the first `q` at or after `j`, provided no newline comes first (the
      regex's `.` does not match a newline). */
  function ClosingQuote(s: string, q: char, j: nat): (r: Option<nat>)
    requires j <= |s|
    requires q != '\n'
    decreases |s| - j
    ensures r.Some? ==> j <= r.value < |s| && s[r.value] == q
    ensures r.Some? ==> forall k :: j <= k < r.value ==> s[k] != q && s[k] != '\n'
  {
    if j == |s| then None
    else if s[j] == q then Some(j)
    else if s[j] == '\n' then None
    else ClosingQuote(s, q, j + 1)
  }

  /** Length of the separator the regex matches at position `i` (a single
      space, or a whole quoted span with its quotes), or 0 when none does. */
  function SeparatorLength(s: string, i: nat): (n: nat)
    requires i < |s|
    ensures i + n <= |s|
    ensures n > 0 ==> s[i] == ' ' || s[i] == '"' || s[i] == '\''
  {
    if s[i] == ' ' then 1
    else if s[i] == '"' || s[i] == '\'' then
      match ClosingQuote(s, s[i], i + 1)
      case Some(e) => e + 1 - i
      case None => 0
    else 0
  }

  /** `re.split` with a capturing group: pieces of text and the captured
      separators alternate. Whether a separator matches at a position depends
      only on the text from there on, so the scan is written on suffixes: a
      separator at the front is cut off, otherwise the first character joins
      the first piece. */
  function ReSplit(s: string): (r: seq<string>)
    ensures |r| > 0
  {
    if s == [] then [""]
    else
      var n := SeparatorLength(s, 0);
      if n > 0 then ["", s[..n]] + ReSplit(s[n..])
      else Glue([s[0]], ReSplit(s[1..]))
  }

  function Concat(ps: seq<string>): string {
    if ps == [] then [] else ps[0] + Concat(ps[1..])
  }

  /** Glue a plain prefix onto the first piece of a split. */
  function Glue(w: string, ps: seq<string>): (r: seq<string>)
    requires |ps| > 0
    ensures |r| == |ps|
  {
    [w + ps[0]] + ps[1..]
  }

  /** A character that can never begin a separator. */
  predicate Plain(c: char) {
    c != ' ' && c != '"' && c != '\''
  }

  /** A complete quoted span: an opening quote, no newline and no quote of the
      same kind inside, and the same closing quote. */
  ghost predicate QuotedSpan(q: string) {
    && |q| >= 2
    && (q[0] == '"' || q[0] == '\'')
    && q[|q| - 1] == q[0]
    && forall k :: 0 < k < |q| - 1 ==> q[k] != q[0] && q[k] != '\n'
  }

  lemma {:induction false} ConcatAppend(a: seq<string>, b: seq<string>)
    ensures Concat(a + b) == Concat(a) + Concat(b)
  {
    if a == [] {
      assert a + b == b;
    } else {
      assert (a + b)[0] == a[0];
      assert (a + b)[1..] == a[1..] + b;
      ConcatAppend(a[1..], b);
    }
  }

  /** Splitting loses nothing: the pieces and separators concatenate back to
      the input. */
  lemma {:induction false} ReSplitLossless(s: string)
    ensures Concat(ReSplit(s)) == s
  {
    if s != [] {
      var n := SeparatorLength(s, 0);
      var rest := ReSplit(s[n..]);
      if n > 0 {
        ReSplitLossless(s[n..]);
        ConcatAppend(["", s[..n]], rest);
        assert Concat(["", s[..n]]) == s[..n];
        assert s == s[..n] + s[n..];
      } else {
        var ps := ReSplit(s[1..]);
        ReSplitLossless(s[1..]);
        assert ps == [ps[0]] + ps[1..];
        ConcatAppend([ps[0]], ps[1..]);
        ConcatAppend([[s[0]] + ps[0]], ps[1..]);
        assert s == [s[0]] + s[1..];
      }
    }
  }

  /** A single space is a separator of its own: it leaves an empty piece
      before it. */
  lemma SplitSpace(rest: string)
    ensures ReSplit(" " + rest) == ["", " "] + ReSplit(rest)
  {
    var s := " " + rest;
    assert SeparatorLength(s, 0) == 1;
    assert s[1..] == rest;
  }

  lemma {:induction false} QuoteClosesAt(s: string, q: char, j: nat, e: nat)
    requires q != '\n' && j <= e < |s| && s[e] == q
    requires forall k :: j <= k < e ==> s[k] != q && s[k] != '\n'
    decreases e - j
    ensures ClosingQuote(s, q, j) == Some(e)
  {
    if j < e {
      QuoteClosesAt(s, q, j + 1, e);
    }
  }

  /** A quoted span at the front stays one piece, quotes included, whatever
      it contains (spaces too). */
  lemma SplitQuoted(q: string, rest: string)
    requires QuotedSpan(q)
    ensures ReSplit(q + rest) == ["", q] + ReSplit(rest)
  {
    var s := q + rest;
    QuoteClosesAt(s, q[0], 1, |q| - 1);
    assert SeparatorLength(s, 0) == |q|;
    assert s[..|q|] == q;
    assert s[|q|..] == rest;
  }

  /** Text with no space and no quote joins the piece that follows it. */
  lemma {:induction false} SplitPlainWord(w: string, rest: string)
    requires forall k :: 0 <= k < |w| ==> Plain(w[k])
    ensures ReSplit(w + rest) == Glue(w, ReSplit(rest))
  {
    if w == [] {
      assert w + rest == rest;
      var r := ReSplit(rest);
      assert w + r[0] == r[0];
      assert [w + r[0]] + r[1..] == r;
    } else {
      var s := w + rest;
      assert s[0] == w[0];
      assert SeparatorLength(s, 0) == 0;
      assert s[1..] == w[1..] + rest;
      SplitPlainWord(w[1..], rest);
      var r := ReSplit(rest);
      assert ReSplit(s) == Glue([w[0]], Glue(w[1..], r));
      assert [w[0]] + (w[1..] + r[0]) == w + r[0];
    }
  }

  // ---------------------------------------------------------------------
  // Flag expansion: OptionLexer._expanded
  // ---------------------------------------------------------------------

  /** `token.startswith("-")`. */
  predicate IsFlag(t: string) {
    |t| > 0 && t[0] == '-'
  }

  /** Starts with exactly one `-`: a cluster of short flags. */
  predicate IsShortCluster(t: string) {
    IsFlag(t) && !(|t| >= 2 && t[1] == '-')
  }

  /** One `-c` token per character of `cs`, in order. */
  function Flags(cs: string): (r: seq<string>)
    ensures |r| == |cs|
    ensures forall i :: 0 <= i < |cs| ==> r[i] == ['-', cs[i]]
  {
    seq(|cs|, i requires 0 <= i < |cs| => ['-', cs[i]])
  }

  /** What one input token contributes to the expanded stream. */
  function ExpandToken(t: string): seq<string> {
    if IsShortCluster(t) then Flags(t[1..])
    else if |Strip(t)| > 0 then [t]
    else []
  }

  function Expanded(ts: seq<string>): seq<string> {
    if ts == [] then [] else ExpandToken(ts[0]) + Expanded(ts[1..])
  }

  /** The input form `OptionLexer` accepts: a string to split, or a list of
      words that is taken as already split. */
  datatype Arguments = Text(text: string) | Words(words: seq<string>)

  function Pieces(arguments: Arguments): seq<string> {
    match arguments
    case Text(s) => ReSplit(Strip(s))
    case Words(ws) => ws
  }

  /** The token stream the lexer hands out. */
  function Tokens(arguments: Arguments): seq<string> {
    Expanded(Pieces(arguments))
  }

  lemma {:induction false} ExpandedAppend(a: seq<string>, b: seq<string>)
    ensures Expanded(a + b) == Expanded(a) + Expanded(b)
  {
    if a == [] {
      assert a + b == b;
    } else {
      assert (a + b)[0] == a[0];
      assert (a + b)[1..] == a[1..] + b;
      ExpandedAppend(a[1..], b);
    }
  }

  lemma ExpandedSingle(t: string)
    ensures Expanded([t]) == ExpandToken(t)
  {
    assert [t][1..] == [];
  }

  /** The three ways a token is treated: a single-dash cluster becomes one
      `-c` per following character (so a lone `-` yields nothing), a blank
      token is dropped, and any other token, `--long` ones included, passes
      through unchanged. */
  lemma ExpandTokenCases(t: string)
    ensures IsShortCluster(t) ==>
      (|ExpandToken(t)| == |t| - 1 && forall i :: 0 <= i < |t| - 1 ==> ExpandToken(t)[i] == ['-', t[i + 1]])
    ensures t == "-" ==> ExpandToken(t) == []
    ensures !IsShortCluster(t) && AllSpace(t) ==> ExpandToken(t) == []
    ensures !IsShortCluster(t) && !AllSpace(t) ==> ExpandToken(t) == [t]
    ensures |t| >= 2 && t[..2] == "--" ==> ExpandToken(t) == [t]
  {
    if |t| >= 2 && t[..2] == "--" {
      assert t[0] == '-' && t[1] == '-';
      assert !IsSpace(t[0]);
    }
  }

  /** Every token the lexer hands out has something besides whitespace. */
  lemma {:induction false} ExpandedNonBlank(ts: seq<string>)
    ensures forall t :: t in Expanded(ts) ==> !AllSpace(t)
  {
    if ts != [] {
      ExpandedNonBlank(ts[1..]);
      var t := ts[0];
      if IsShortCluster(t) {
        forall u | u in Flags(t[1..]) ensures !AllSpace(u) {
          assert u[0] == '-';
        }
      }
    }
  }

  lemma {:induction false} ExpandedOfToken(t: string)
    ensures Expanded(ExpandToken(t)) == ExpandToken(t)
  {
    if IsShortCluster(t) {
      ExpandedFlags(t[1..]);
    } else if |Strip(t)| > 0 {
      ExpandedSingle(t);
    }
  }

  lemma {:induction false} ExpandedFlags(cs: string)
    ensures Expanded(Flags(cs)) == Flags(cs)
  {
    if cs != [] {
      var f := Flags(cs);
      assert f == [f[0]] + Flags(cs[1..]);
      ExpandedAppend([f[0]], Flags(cs[1..]));
      ExpandedFlags(cs[1..]);
      ExpandedSingle(f[0]);
      assert f[0] == ['-', cs[0]];
      if IsShortCluster(f[0]) {
        assert f[0][1..] == [cs[0]];
        assert Flags([cs[0]]) == [f[0]];
      } else {
        assert !IsSpace(f[0][0]);
      }
    }
  }

  /** Expansion is idempotent: an expanded stream expands to itself. */
  lemma {:induction false} ExpandedIdempotent(ts: seq<string>)
    ensures Expanded(Expanded(ts)) == Expanded(ts)
  {
    if ts != [] {
      ExpandedAppend(ExpandToken(ts[0]), Expanded(ts[1..]));
      ExpandedOfToken(ts[0]);
      ExpandedIdempotent(ts[1..]);
    }
  }

  /** The generator `_expanded`, run to the end. */
  method ExpandAll(tokens: seq<string>) returns (out: seq<string>)
    ensures out == Expanded(tokens)
  {
    out := [];
    for i := 0 to |tokens|
      invariant out == Expanded(tokens[..i])
    {
      var part := ExpandOne(tokens[i]);
      ExpandedPrefix(tokens, i);
      out := out + part;
    }
    assert tokens[..|tokens|] == tokens;
  }

  /** One iteration of `_expanded`: the tokens yielded for `t`. */
  method ExpandOne(t: string) returns (part: seq<string>)
    ensures part == ExpandToken(t)
  {
    part := [];
    if IsShortCluster(t) {
      var cs := t[1..];
      for j := 0 to |cs|
        invariant part == Flags(cs[..j])
      {
        FlagsSnoc(cs, j);
        part := part + [['-', cs[j]]];
      }
      assert cs[..|cs|] == cs;
    } else if |Strip(t)| > 0 {
      part := [t];
    }
  }

  lemma FlagsSnoc(cs: string, j: nat)
    requires j < |cs|
    ensures Flags(cs[..j + 1]) == Flags(cs[..j]) + [['-', cs[j]]]
  {
  }

  lemma ExpandedSnoc(ts: seq<string>, t: string)
    ensures Expanded(ts + [t]) == Expanded(ts) + ExpandToken(t)
  {
    ExpandedAppend(ts, [t]);
    ExpandedSingle(t);
  }

  lemma ExpandedPrefix(ts: seq<string>, i: nat)
    requires i < |ts|
    ensures Expanded(ts[..i + 1]) == Expanded(ts[..i]) + ExpandToken(ts[i])
  {
    assert ts[..i + 1] == ts[..i] + [ts[i]];
    ExpandedSnoc(ts[..i], ts[i]);
  }

  // ---------------------------------------------------------------------
  // The cursor
  // ---------------------------------------------------------------------

  /** The observable state of an `OptionLexer`: the expanded stream, how many
      tokens the generator has handed out, the current token and the
      exhausted flag. */
  datatype LexState = LexState(stream: seq<string>, pos: nat, token: Option<string>, exhausted: bool) {

    ghost predicate Valid() {
      && pos <= |stream|
      && token == (if pos == 0 then None else Some(stream[pos - 1]))
      && (exhausted ==> pos == |stream|)
    }

    /** At least one `consume` has happened. */
    predicate Primed() {
      exhausted || pos > 0
    }

    function Measure(): nat
      requires Valid()
    {
      |stream| - pos + if exhausted then 0 else 1
    }

    /** `consume`: the next token, or the exhausted flag with the token left
        as it was. */
    function Consumed(): (r: LexState)
      requires Valid()
      ensures r.Valid() && r.Primed() && r.stream == stream
      ensures exhausted ==> r == this
      ensures !exhausted ==> r.Measure() < Measure()
    {
      if pos < |stream| then LexState(stream, pos + 1, Some(stream[pos]), exhausted)
      else LexState(stream, pos, token, true)
    }

    /** The current token followed by those not yet handed out. */
    function Remaining(): seq<string>
      requires Valid() && Primed()
    {
      if exhausted then [] else stream[pos - 1..]
    }
  }

  function Start(stream: seq<string>): LexState {
    LexState(stream, 0, None, false)
  }

  /** Consuming past a valid primed state drops exactly the current token from
      what remains. */
  lemma ConsumedRemaining(st: LexState)
    requires st.Valid() && st.Primed() && !st.exhausted
    ensures st.Remaining() != [] && st.Remaining()[0] == st.token.value
    ensures st.Consumed().Remaining() == st.Remaining()[1..]
    ensures st.Remaining() == [st.token.value] + st.Consumed().Remaining()
  {
    var rem := st.Remaining();
    assert rem == st.stream[st.pos - 1..];
    assert rem[0] == st.stream[st.pos - 1];
    if st.pos < |st.stream| {
      assert st.Consumed().Remaining() == st.stream[st.pos..] == rem[1..];
    } else {
      assert rem == [st.stream[st.pos - 1]];
      assert st.Consumed().Remaining() == [] == rem[1..];
    }
    assert rem == [rem[0]] + rem[1..];
  }

  /** After the first consume, repeated consumes hand out the stream in order,
      then set `exhausted` and keep the last token; further consumes change
      nothing. */
  lemma {:induction false} ConsumeN(stream: seq<string>, n: nat)
    ensures Steps(Start(stream), n).Valid()
    ensures n <= |stream| ==> Steps(Start(stream), n) == LexState(stream, n, if n == 0 then None else Some(stream[n - 1]), false)
    ensures n > |stream| ==> Steps(Start(stream), n) == LexState(stream, |stream|, if |stream| == 0 then None else Some(stream[|stream| - 1]), true)
  {
    if n > 0 {
      ConsumeN(stream, n - 1);
    }
  }

  /** The state after `n` consumes. */
  function Steps(st: LexState, n: nat): (r: LexState)
    requires st.Valid()
    ensures r.Valid()
  {
    if n == 0 then st else Steps(st, n - 1).Consumed()
  }

  class OptionLexer {
    const stream: seq<string>
    var pos: nat
    var token: Option<string>
    var exhausted: bool

    function State(): LexState
      reads this
    {
      LexState(stream, pos, token, exhausted)
    }

    ghost predicate Valid()
      reads this
    {
      State().Valid()
    }

    constructor (arguments: Arguments)
      ensures Valid() && State() == Start(Tokens(arguments))
    {
      var expanded := ExpandAll(Pieces(arguments));
      stream := expanded;
      pos := 0;
      token := None;
      exhausted := false;
    }

    /** `token_is_option`: the current token starts with `-`. */
    predicate TokenIsOption()
      reads this
      requires token.Some?
    {
      IsFlag(token.value)
    }

    method Consume()
      requires Valid()
      modifies this
      ensures Valid() && State() == old(State()).Consumed()
    {
      if pos < |stream| {
        token := Some(stream[pos]);
        pos := pos + 1;
      } else {
        exhausted := true;
      }
    }
  }

  // ---------------------------------------------------------------------
  // The lexer test cases, derived from the splitting lemmas
  // ---------------------------------------------------------------------

  /** `a "b c" d` gives `a`, `"b c"`, `d`: the quoted span is one token. */
  lemma QuotedExample()
    ensures Tokens(Text("a \"b c\" d")) == ["a", "\"b c\"", "d"]
  {
    var s := "a \"b c\" d";
    var q := "\"b c\"";
    QuotedExampleStrip();
    QuotedExampleSplit();
    QuotedExampleExpand();
  }

  lemma QuotedExampleStrip()
    ensures Strip("a \"b c\" d") == "a \"b c\" d"
  {
    var s := "a \"b c\" d";
    assert !IsSpace(s[0]);
    assert StripLeft(s) == s;
    assert !IsSpace(s[|s| - 1]);
    assert StripRight(s) == s;
  }

  lemma QuotedExampleSplit()
    ensures ReSplit("a \"b c\" d") == ["a", " ", "", "\"b c\"", "", " ", "d"]
  {
    var s := "a \"b c\" d";
    var q := "\"b c\"";
    var s1 := " " + "d";
    var s2 := q + s1;
    var s3 := " " + s2;
    assert s == "a" + s3;
    SplitPlainWord("d", "");
    assert ReSplit("") == [""];
    assert "d" + "" == "d";
    assert ReSplit("d") == ["d"];
    SplitSpace("d");
    assert ReSplit(s1) == ["", " ", "d"];
    assert QuotedSpan(q);
    SplitQuoted(q, s1);
    assert ReSplit(s2) == ["", q, "", " ", "d"];
    SplitSpace(s2);
    assert ReSplit(s3) == ["", " ", "", q, "", " ", "d"];
    SplitPlainWord("a", s3);
    assert "a" + "" == "a";
  }

  lemma QuotedExampleExpand()
    ensures Expanded(["a", " ", "", "\"b c\"", "", " ", "d"]) == ["a", "\"b c\"", "d"]
  {
    var q := "\"b c\"";
    assert !IsSpace("a"[0]) && !IsSpace(q[0]) && !IsSpace("d"[0]);
    ExpandDrop(" ");
    ExpandDrop("");
    ExpandWordsAndBlanks("a", " ", "", q, "d");
  }

  /** Words that are neither blank nor flags pass through; blanks vanish. */
  lemma ExpandWordsAndBlanks(a: string, sp: string, e: string, q: string, d: string)
    requires a != [] && q != [] && d != []
    requires !IsFlag(a) && !IsFlag(q) && !IsFlag(d)
    requires !IsSpace(a[0]) && !IsSpace(q[0]) && !IsSpace(d[0])
    requires ExpandToken(sp) == [] && ExpandToken(e) == []
    ensures Expanded([a, sp, e, q, e, sp, d]) == [a, q, d]
  {
    ExpandKeep(a); ExpandKeep(q); ExpandKeep(d);
    var t6 := [d];
    ExpandedCons(d, []);
    assert [d] + [] == t6;
    var t5 := [sp] + t6;
    ExpandedCons(sp, t6);
    var t4 := [e] + t5;
    ExpandedCons(e, t5);
    var t3 := [q] + t4;
    ExpandedCons(q, t4);
    var t2 := [e] + t3;
    ExpandedCons(e, t3);
    var t1 := [sp] + t2;
    ExpandedCons(sp, t2);
    var t0 := [a] + t1;
    ExpandedCons(a, t1);
    assert t0 == [a, sp, e, q, e, sp, d];
  }

  lemma ExpandedCons(t: string, rest: seq<string>)
    ensures Expanded([t] + rest) == ExpandToken(t) + Expanded(rest)
  {
    assert ([t] + rest)[1..] == rest;
  }

  lemma ExpandKeep(t: string)
    requires t != [] && !IsFlag(t) && !IsSpace(t[0])
    ensures ExpandToken(t) == [t]
  {
    assert !AllSpace(t);
  }

  lemma ExpandDrop(t: string)
    requires forall k :: 0 <= k < |t| ==> t[k] == ' '
    ensures ExpandToken(t) == []
  {
    assert AllSpace(t);
  }

  /** `--xyz -abc` gives `--xyz -a -b -c`. */
  lemma ClusterExample()
    ensures Expanded(["--xyz", "-abc"]) == ["--xyz", "-a", "-b", "-c"]
  {
    LongThenCluster("--xyz", 'a', 'b', 'c');
  }

  /** A `--long` token followed by a three-letter cluster. */
  lemma LongThenCluster(long: string, a: char, b: char, c: char)
    requires |long| >= 2 && long[0] == '-' && long[1] == '-' && a != '-'
    ensures Expanded([long, ['-', a, b, c]]) == [long, ['-', a], ['-', b], ['-', c]]
  {
    var cluster := ['-', a, b, c];
    ExpandedCons(long, [cluster]);
    ExpandedSingle(cluster);
    ExpandTokenCases(long);
    assert long[..2] == "--";
    assert IsShortCluster(cluster);
    assert cluster[1..] == [a, b, c];
    var f := Flags([a, b, c]);
    assert f == [['-', a], ['-', b], ['-', c]];
  }
}
