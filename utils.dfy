/** The serialisers of widgets/utils.py: a widget's option values written
    back as the argument text of a `widget` tag, or as a GET query string.
    `escape`, `urllib.quote` and `str()` are parameters (`esc`, `quote`,
    `str`); the order in which a Python 2 dict hands out its entries is
    unspecified, so each result is stated for some listing of the dict's
    keys. */
module Utils {
  import opened Wrappers
  import opened Values
  import opened Options
  import opened Widgets

  // ---------------------------------------------------------------------
  // Joining and splitting
  // ---------------------------------------------------------------------

  /** `sep.join(parts)`. */
  function Join(sep: string, parts: seq<string>): (r: string)
    ensures parts != [] ==> |r| >= |parts[0]|
  {
    if parts == [] then ""
    else if |parts| == 1 then parts[0]
    else parts[0] + sep + Join(sep, parts[1..])
  }

  /** `s.split(c)`: the pieces between occurrences of `c`; never empty. */
  function Split(c: char, s: string): (r: seq<string>)
    ensures |r| > 0
  {
    if s == [] then [""]
    else
      var rest := Split(c, s[1..]);
      if s[0] == c then [""] + rest else [[s[0]] + rest[0]] + rest[1..]
  }

  lemma {:induction false} SplitNone(c: char, p: string)
    requires c !in p
    decreases |p|
    ensures Split(c, p) == [p]
  {
    if p != [] {
      SplitNone(c, p[1..]);
      assert [p[0]] + p[1..] == p;
    }
  }

  lemma {:induction false} SplitAfter(c: char, p: string, t: string)
    requires c !in p
    decreases |p|
    ensures Split(c, p + [c] + t) == [p] + Split(c, t)
  {
    if p == [] {
      assert p + [c] + t == [c] + t;
      assert ([c] + t)[1..] == t;
    } else {
      assert (p + [c] + t)[1..] == p[1..] + [c] + t;
      SplitAfter(c, p[1..], t);
      assert [p[0]] + p[1..] == p;
    }
  }

  /** Joining on a character no part contains, then splitting on it, gives
      the parts back followed by the pieces of what came after. */
  lemma {:induction false} SplitJoined(c: char, parts: seq<string>, t: string)
    requires parts != [] && forall i :: 0 <= i < |parts| ==> c !in parts[i]
    decreases |parts|
    ensures Split(c, Join([c], parts) + [c] + t) == parts + Split(c, t)
  {
    if |parts| == 1 {
      SplitAfter(c, parts[0], t);
    } else {
      var tail := parts[1..];
      var rest := Join([c], tail);
      Regroup(parts[0], [c], rest, t);
      SplitAfter(c, parts[0], rest + [c] + t);
      assert forall i :: 0 <= i < |tail| ==> tail[i] == parts[i + 1];
      SplitJoined(c, tail, t);
      ConsAppend(parts[0], tail, Split(c, t));
      assert [parts[0]] + tail == parts;
    }
  }

  lemma Regroup(p: string, sep: string, rest: string, t: string)
    ensures p + sep + rest + sep + t == p + sep + (rest + sep + t)
  {
  }

  lemma ConsAppend<T>(x: T, a: seq<T>, b: seq<T>)
    ensures [x] + (a + b) == [x] + a + b
  {
  }

  /** `s.split(c)` undoes `c.join(parts)`. */
  lemma {:induction false} JoinSplit(c: char, parts: seq<string>)
    requires parts != [] && forall i :: 0 <= i < |parts| ==> c !in parts[i]
    ensures Split(c, Join([c], parts)) == parts
  {
    if |parts| == 1 {
      SplitNone(c, parts[0]);
    } else {
      SplitJoined(c, parts[..|parts| - 1], parts[|parts| - 1]);
      JoinSnoc([c], parts[..|parts| - 1], parts[|parts| - 1]);
      assert parts[..|parts| - 1] + [parts[|parts| - 1]] == parts;
      SplitNone(c, parts[|parts| - 1]);
    }
  }

  lemma {:induction false} JoinSnoc(sep: string, parts: seq<string>, p: string)
    requires parts != []
    decreases |parts|
    ensures Join(sep, parts + [p]) == Join(sep, parts) + sep + p
  {
    if |parts| > 1 {
      assert (parts + [p])[1..] == parts[1..] + [p];
      JoinSnoc(sep, parts[1..], p);
    } else {
      assert (parts + [p])[1..] == [p];
    }
  }

  // ---------------------------------------------------------------------
  // Dicts filled from the option list
  // ---------------------------------------------------------------------

  /** A dict filled by a loop over the options, each option setting at most
      one entry and a later entry for the same key overwriting. */
  function Collect<K, V>(options: seq<WidgetOption>, f: WidgetOption -> Option<(K, V)>): map<K, V>
    decreases |options|
  {
    if options == [] then map[]
    else
      var n := |options| - 1;
      var m := Collect(options[..n], f);
      var e := f(options[n]);
      if e.Some? then m[e.value.0 := e.value.1] else m
  }

  /** The keys are those of the options that set an entry. */
  lemma {:induction false} CollectKeys<K, V>(options: seq<WidgetOption>, f: WidgetOption -> Option<(K, V)>)
    decreases |options|
    ensures Collect(options, f).Keys == set o | o in options && f(o).Some? :: f(o).value.0
  {
    if options != [] {
      var n := |options| - 1;
      assert forall x :: x in options <==> x in options[..n] || x == options[n] by {
        assert options == options[..n] + [options[n]];
      }
      CollectKeys(options[..n], f);
    }
  }

  /** The entry an option sets survives when no later option sets the same
      key. */
  lemma {:induction false} CollectEntry<K, V>(options: seq<WidgetOption>, f: WidgetOption -> Option<(K, V)>, k: nat)
    requires k < |options| && f(options[k]).Some?
    requires forall j :: k < j < |options| && f(options[j]).Some? ==> f(options[j]).value.0 != f(options[k]).value.0
    decreases |options|
    ensures var m := Collect(options, f);
      f(options[k]).value.0 in m && m[f(options[k]).value.0] == f(options[k]).value.1
  {
    var n := |options| - 1;
    if k < n {
      var init := options[..n];
      assert init[k] == options[k];
      forall j | k < j < n && f(init[j]).Some? ensures f(init[j]).value.0 != f(init[k]).value.0 {
        assert init[j] == options[j];
      }
      CollectEntry(init, f, k);
    }
  }

  // ---------------------------------------------------------------------
  // options_to_tag_string
  // ---------------------------------------------------------------------

  /** The items of a list value, each escaped and double-quoted. */
  function QuotedItems(items: seq<Value>, esc: string -> string, str: Value -> string): (r: seq<string>)
    ensures |r| == |items|
    ensures forall i :: 0 <= i < |items| ==> r[i] == "\"" + esc(str(items[i])) + "\""
  {
    seq(|items|, i requires 0 <= i < |items| => "\"" + esc(str(items[i])) + "\"")
  }

  /** The argument text of one value: a non-empty list as its quoted items
      separated by spaces, another truthy non-boolean as one quoted string,
      True as nothing at all after the flag; a falsy value is left out. */
  function TagArg(v: Value, esc: string -> string, str: Value -> string): (r: Option<string>)
    ensures r.Some? <==> Truthy(v)
    ensures r == Some("") <==> v == Value.Bool(true)
  {
    if v.List? && v.items != [] then Some(Join(" ", QuotedItems(v.items, esc, str)))
    else if !v.Bool? && Truthy(v) then Some("\"" + esc(str(v)) + "\"")
    else if Truthy(v) then Some("")
    else None
  }

  /** The entry one declared option sets in `arguments`, keyed by the
      option itself. */
  function TagPick(values: map<string, Value>, esc: string -> string, str: Value -> string, o: WidgetOption): Option<(WidgetOption, string)> {
    if o.name in values && TagArg(values[o.name], esc, str).Some? then Some((o, TagArg(values[o.name], esc, str).value))
    else None
  }

  function TagPicker(values: map<string, Value>, esc: string -> string, str: Value -> string): WidgetOption -> Option<(WidgetOption, string)> {
    o => TagPick(values, esc, str, o)
  }

  /** The `arguments` dict of `options_to_tag_string`. */
  function TagArguments(options: seq<WidgetOption>, values: map<string, Value>, esc: string -> string, str: Value -> string): map<WidgetOption, string> {
    Collect(options, TagPicker(values, esc, str))
  }

  /** An option gets an entry exactly when it is declared, has a value, and
      that value is truthy; the entry is the value's argument text. */
  lemma TagArgumentsEntries(options: seq<WidgetOption>, values: map<string, Value>, esc: string -> string, str: Value -> string)
    ensures var args := TagArguments(options, values, esc, str);
      forall o :: o in args <==> o in options && o.name in values && Truthy(values[o.name])
    ensures var args := TagArguments(options, values, esc, str);
      forall o :: o in args ==> args[o] == TagArg(values[o.name], esc, str).value
  {
    var f := TagPicker(values, esc, str);
    CollectKeys(options, f);
    var args := TagArguments(options, values, esc, str);
    forall o | o in args ensures args[o] == TagArg(values[o.name], esc, str).value {
      var k :| 0 <= k < |options| && options[k] == o;
      var j := LastIndexOf(options, o, k);
      CollectEntry(options, f, j);
    }
  }

  /** The last position of `o` in the list, at or after `k`. */
  ghost function LastIndexOf(options: seq<WidgetOption>, o: WidgetOption, k: nat): (j: nat)
    requires k < |options| && options[k] == o
    decreases |options| - k
    ensures k <= j < |options| && options[j] == o
    ensures forall i :: j < i < |options| ==> options[i] != o
  {
    if exists i :: k < i < |options| && options[i] == o then
      var i :| k < i < |options| && options[i] == o;
      var j := LastIndexOf(options, o, i);
      j
    else k
  }

  /** One rendered entry: the long flag, a space, the argument text. */
  function TagEntries(order: seq<WidgetOption>, args: map<WidgetOption, string>): (r: seq<string>)
    requires forall o :: o in order ==> o in args
    ensures |r| == |order|
    ensures forall i :: 0 <= i < |order| ==> r[i] == order[i].longForm + " " + args[order[i]]
  {
    seq(|order|, i requires 0 <= i < |order| => order[i].longForm + " " + args[order[i]])
  }

  /** One more option for a dict filled by `Collect`. */
  lemma CollectSnoc<K, V>(options: seq<WidgetOption>, f: WidgetOption -> Option<(K, V)>, i: nat)
    requires i < |options|
    ensures var m := Collect(options[..i], f);
      var e := f(options[i]);
      Collect(options[..i + 1], f) == if e.Some? then m[e.value.0 := e.value.1] else m
  {
    assert options[..i + 1][..i] == options[..i];
  }

  /** The loop of `options_to_tag_string` that fills `arguments`. */
  method FillTagArguments(options: seq<WidgetOption>, values: map<string, Value>, esc: string -> string, str: Value -> string)
    returns (arguments: map<WidgetOption, string>)
    ensures arguments == TagArguments(options, values, esc, str)
  {
    ghost var f := TagPicker(values, esc, str);
    arguments := map[];
    for i := 0 to |options|
      invariant arguments == Collect(options[..i], f)
    {
      var o := options[i];
      CollectSnoc(options, f, i);
      if o.name in values {
        var arg := values[o.name];
        if arg.List? && arg.items != [] {
          arguments := arguments[o := Join(" ", QuotedItems(arg.items, esc, str))];
        } else if !arg.Bool? && Truthy(arg) {
          arguments := arguments[o := "\"" + esc(str(arg)) + "\""];
        } else if Truthy(arg) {
          arguments := arguments[o := ""];
        }
      }
    }
    assert options[..|options|] == options;
  }

  /** The list comprehension over `arguments.items()`. */
  method TagEntriesOf(arguments: map<WidgetOption, string>) returns (parts: seq<string>, ghost order: seq<WidgetOption>)
    ensures Enumerates(order, arguments.Keys) && (forall o :: o in order ==> o in arguments)
    ensures parts == TagEntries(order, arguments)
  {
    var todo := arguments.Keys;
    order := [];
    parts := [];
    while todo != {}
      invariant forall o :: o in order ==> o in arguments
      invariant forall i, j :: 0 <= i < j < |order| ==> order[i] != order[j]
      invariant forall o :: o in arguments <==> o in todo || o in order
      invariant forall o :: o in todo ==> o !in order
      invariant parts == TagEntries(order, arguments)
      decreases |todo|
    {
      var o :| o in todo;
      parts := parts + [o.longForm + " " + arguments[o]];
      order := order + [o];
      todo := todo - {o};
    }
  }

  /** `options_to_tag_string`: fill `arguments` option by option, then join
      the entries, in the dict's order, with single spaces. */
  method OptionsToTagString(widget: WidgetClass, values: map<string, Value>, esc: string -> string, str: Value -> string)
    returns (s: string)
    ensures var args := TagArguments(widget.options, values, esc, str);
      exists order :: Enumerates(order, args.Keys) && (forall o :: o in order ==> o in args)
        && s == Join(" ", TagEntries(order, args))
  {
    var arguments := FillTagArguments(widget.options, values, esc, str);
    var parts, order := TagEntriesOf(arguments);
    s := Join(" ", parts);
  }

  // ---------------------------------------------------------------------
  // options_to_query_string
  // ---------------------------------------------------------------------

  /** The entry one option sets in `arguments`: a truthy scalar under its
      name as `str(value)`, True as the empty string. */
  function ScalarPick(values: map<string, Value>, str: Value -> string, o: WidgetOption): Option<(string, string)> {
    if o.name !in values then None
    else
      var arg := values[o.name];
      if !arg.Bool? && Truthy(arg) then
        if !arg.List? then Some((o.name, str(arg))) else None
      else if Truthy(arg) then Some((o.name, ""))
      else None
  }

  /** The entry one option sets in `list_args`: a non-empty list under its
      name. */
  function ListPick(values: map<string, Value>, o: WidgetOption): Option<(string, seq<Value>)> {
    if o.name in values && values[o.name].List? && values[o.name].items != [] then Some((o.name, values[o.name].items))
    else None
  }

  function ScalarPicker(values: map<string, Value>, str: Value -> string): WidgetOption -> Option<(string, string)> {
    o => ScalarPick(values, str, o)
  }

  function ListPicker(values: map<string, Value>): WidgetOption -> Option<(string, seq<Value>)> {
    o => ListPick(values, o)
  }

  function ScalarArgs(options: seq<WidgetOption>, values: map<string, Value>, str: Value -> string): map<string, string> {
    Collect(options, ScalarPicker(values, str))
  }

  function ListArgs(options: seq<WidgetOption>, values: map<string, Value>): map<string, seq<Value>> {
    Collect(options, ListPicker(values))
  }

  /** With distinct names, a truthy scalar value is in `arguments` under
      its option's name, True as the empty string. */
  lemma ScalarArgsEntry(options: seq<WidgetOption>, values: map<string, Value>, str: Value -> string, k: nat)
    requires DistinctNames(options) && k < |options|
    ensures var name := options[k].name;
      var scalars := ScalarArgs(options, values, str);
      && (name in scalars <==> name in values && Truthy(values[name]) && !values[name].List?)
      && (name in scalars ==> scalars[name] == if values[name] == Value.Bool(true) then "" else str(values[name]))
  {
    var o := options[k];
    DistinctLast(options, k);
    var fs := ScalarPicker(values, str);
    CollectKeys(options, fs);
    if fs(o).Some? {
      forall j | k < j < |options| && fs(options[j]).Some? ensures fs(options[j]).value.0 != fs(o).value.0 {
        assert options[j].name != o.name;
      }
      CollectEntry(options, fs, k);
    }
  }

  /** With distinct names, a non-empty list value is in `list_args` under
      its option's name; nothing else is. */
  lemma ListArgsEntry(options: seq<WidgetOption>, values: map<string, Value>, k: nat)
    requires DistinctNames(options) && k < |options|
    ensures var name := options[k].name;
      var lists := ListArgs(options, values);
      && (name in lists <==> name in values && values[name].List? && values[name].items != [])
      && (name in lists ==> lists[name] == values[name].items)
  {
    var o := options[k];
    DistinctLast(options, k);
    var fl := ListPicker(values);
    CollectKeys(options, fl);
    if fl(o).Some? {
      forall j | k < j < |options| && fl(options[j]).Some? ensures fl(options[j]).value.0 != fl(o).value.0 {
        assert options[j].name != o.name;
      }
      CollectEntry(options, fl, k);
    }
  }

  /** `name=quote(str(value))` for each scalar entry, in the given order. */
  function ScalarParts(order: seq<string>, scalars: map<string, string>, quote: string -> string): (r: seq<string>)
    requires forall k :: k in order ==> k in scalars
    ensures |r| == |order|
    ensures forall i :: 0 <= i < |order| ==> r[i] == order[i] + "=" + quote(scalars[order[i]])
  {
    seq(|order|, i requires 0 <= i < |order| => order[i] + "=" + quote(scalars[order[i]]))
  }

  /** `name=quote(str(item))` for each item of each list entry, lists in
      the given order and items in their own order. */
  function ListParts(order: seq<string>, lists: map<string, seq<Value>>, quote: string -> string, str: Value -> string): seq<string>
    requires forall k :: k in order ==> k in lists
  {
    if order == [] then []
    else
      var n := |order| - 1;
      var items := lists[order[n]];
      ListParts(order[..n], lists, quote, str)
        + seq(|items|, i requires 0 <= i < |items| => order[n] + "=" + quote(str(items[i])))
  }

  /** A single list entry gives one `name=quote(str(item))` pair per item,
      in item order. */
  lemma ListPartsSingle(name: string, lists: map<string, seq<Value>>, quote: string -> string, str: Value -> string)
    requires name in lists
    ensures var r := ListParts([name], lists, quote, str);
      && |r| == |lists[name]|
      && forall i :: 0 <= i < |r| ==> r[i] == name + "=" + quote(str(lists[name][i]))
  {
    assert [name][..0] == [];
  }

  /** The list part holds exactly one pair for every item of every list
      entry in the order. */
  lemma {:induction false} ListPartsMembers(order: seq<string>, lists: map<string, seq<Value>>, quote: string -> string, str: Value -> string)
    requires forall k :: k in order ==> k in lists
    decreases |order|
    ensures forall p :: p in ListParts(order, lists, quote, str) <==>
      exists k, j :: k in order && 0 <= j < |lists[k]| && p == k + "=" + quote(str(lists[k][j]))
  {
    if order != [] {
      var n := |order| - 1;
      var init := order[..n];
      var last := order[n];
      var items := lists[last];
      assert order == init + [last];
      assert forall x :: x in init ==> x in order;
      ListPartsMembers(init, lists, quote, str);
      var tail := seq(|items|, i requires 0 <= i < |items| => last + "=" + quote(str(items[i])));
      assert ListParts(order, lists, quote, str) == ListParts(init, lists, quote, str) + tail;
      forall p ensures p in ListParts(order, lists, quote, str) <==>
        exists k, j :: k in order && 0 <= j < |lists[k]| && p == k + "=" + quote(str(lists[k][j]))
      {
        if p in tail {
          var j :| 0 <= j < |items| && tail[j] == p;
          assert last in order && p == last + "=" + quote(str(lists[last][j]));
        }
        if exists k, j :: k in order && 0 <= j < |lists[k]| && p == k + "=" + quote(str(lists[k][j])) {
          var k, j :| k in order && 0 <= j < |lists[k]| && p == k + "=" + quote(str(lists[k][j]));
          if k == last {
            assert tail[j] == p;
          } else {
            assert k in init;
          }
        }
      }
    }
  }

  /** The two parts are always joined by one `&`, either of them possibly
      empty. */
  function QueryString(scalarParts: seq<string>, listParts: seq<string>): string {
    Join("&", scalarParts) + "&" + Join("&", listParts)
  }

  /** The loop of `options_to_query_string` that fills `arguments` and
      `list_args`. */
  method FillQueryArguments(options: seq<WidgetOption>, values: map<string, Value>, str: Value -> string)
    returns (arguments: map<string, string>, listArgs: map<string, seq<Value>>)
    ensures arguments == ScalarArgs(options, values, str)
    ensures listArgs == ListArgs(options, values)
  {
    ghost var fs := ScalarPicker(values, str);
    ghost var fl := ListPicker(values);
    arguments := map[];
    listArgs := map[];
    for i := 0 to |options|
      invariant arguments == Collect(options[..i], fs)
      invariant listArgs == Collect(options[..i], fl)
    {
      var o := options[i];
      CollectSnoc(options, fs, i);
      CollectSnoc(options, fl, i);
      if o.name in values {
        var arg := values[o.name];
        if !arg.Bool? && Truthy(arg) {
          if !arg.List? {
            arguments := arguments[o.name := str(arg)];
          } else {
            listArgs := listArgs[o.name := arg.items];
          }
        } else if Truthy(arg) {
          arguments := arguments[o.name := ""];
        }
      }
    }
    assert options[..|options|] == options;
  }

  /** `options_to_query_string`: fill both dicts option by option, then
      join each in its dict's order and put one `&` between the two. */
  method OptionsToQueryString(widget: WidgetClass, values: map<string, Value>, quote: string -> string, str: Value -> string)
    returns (s: string)
    ensures var scalars := ScalarArgs(widget.options, values, str);
      var lists := ListArgs(widget.options, values);
      exists o1, o2 :: Enumerates(o1, scalars.Keys) && Enumerates(o2, lists.Keys)
        && (forall k :: k in o1 ==> k in scalars) && (forall k :: k in o2 ==> k in lists)
        && s == QueryString(ScalarParts(o1, scalars, quote), ListParts(o2, lists, quote, str))
  {
    var arguments, listArgs := FillQueryArguments(widget.options, values, str);
    var scalarParts, o1 := ScalarEntries(arguments, quote);
    var listParts, o2 := ListEntries(listArgs, quote, str);
    s := Join("&", scalarParts) + "&" + Join("&", listParts);
  }

  /** The first comprehension: one part per entry of `arguments`. */
  method ScalarEntries(arguments: map<string, string>, quote: string -> string)
    returns (parts: seq<string>, ghost order: seq<string>)
    ensures Enumerates(order, arguments.Keys) && (forall k :: k in order ==> k in arguments)
    ensures parts == ScalarParts(order, arguments, quote)
  {
    var todo := arguments.Keys;
    order := [];
    parts := [];
    while todo != {}
      invariant forall k :: k in order ==> k in arguments
      invariant forall i, j :: 0 <= i < j < |order| ==> order[i] != order[j]
      invariant forall k :: k in arguments <==> k in todo || k in order
      invariant forall k :: k in todo ==> k !in order
      invariant parts == ScalarParts(order, arguments, quote)
      decreases |todo|
    {
      var k :| k in todo;
      parts := parts + [k + "=" + quote(arguments[k])];
      order := order + [k];
      todo := todo - {k};
    }
  }

  /** The second comprehension: one part per item of each entry of
      `list_args`. */
  method ListEntries(listArgs: map<string, seq<Value>>, quote: string -> string, str: Value -> string)
    returns (parts: seq<string>, ghost order: seq<string>)
    ensures Enumerates(order, listArgs.Keys) && (forall k :: k in order ==> k in listArgs)
    ensures parts == ListParts(order, listArgs, quote, str)
  {
    var todo := listArgs.Keys;
    order := [];
    parts := [];
    while todo != {}
      invariant forall k :: k in order ==> k in listArgs
      invariant forall i, j :: 0 <= i < j < |order| ==> order[i] != order[j]
      invariant forall k :: k in listArgs <==> k in todo || k in order
      invariant forall k :: k in todo ==> k !in order
      invariant parts == ListParts(order, listArgs, quote, str)
      decreases |todo|
    {
      var k :| k in todo;
      var vals := listArgs[k];
      for j := 0 to |vals|
        invariant parts == ListParts(order, listArgs, quote, str)
          + seq(j, i requires 0 <= i < j => k + "=" + quote(str(vals[i])))
      {
        parts := parts + [k + "=" + quote(str(vals[j]))];
      }
      assert (order + [k])[..|order|] == order;
      order := order + [k];
      todo := todo - {k};
    }
  }

  /** Splitting the query string at `&` gives the scalar parts and then the
      list parts, each side standing in as one empty piece when it has no
      parts, provided no part contains `&`. */
  lemma QueryStringSplit(scalarParts: seq<string>, listParts: seq<string>)
    requires forall i :: 0 <= i < |scalarParts| ==> '&' !in scalarParts[i]
    requires forall i :: 0 <= i < |listParts| ==> '&' !in listParts[i]
    ensures Split('&', QueryString(scalarParts, listParts))
      == (if scalarParts == [] then [""] else scalarParts) + (if listParts == [] then [""] else listParts)
  {
    var t := Join("&", listParts);
    var tail := if listParts == [] then [""] else listParts;
    if listParts == [] {
      assert Split('&', t) == [""];
    } else {
      JoinSplit('&', listParts);
    }
    if scalarParts == [] {
      assert QueryString(scalarParts, listParts) == ['&'] + t;
      assert (['&'] + t)[1..] == t;
    } else {
      assert QueryString(scalarParts, listParts) == Join(['&'], scalarParts) + ['&'] + t;
      SplitJoined('&', scalarParts, t);
    }
  }

  /** Nothing to render gives the lone separator. */
  lemma NothingToRender(widget: WidgetClass, values: map<string, Value>, str: Value -> string)
    requires forall o :: o in widget.options && o.name in values ==> !Truthy(values[o.name])
    ensures ScalarArgs(widget.options, values, str) == map[]
    ensures ListArgs(widget.options, values) == map[]
    ensures QueryString([], []) == "&"
  {
    CollectKeys(widget.options, ScalarPicker(values, str));
    CollectKeys(widget.options, ListPicker(values));
  }
}
