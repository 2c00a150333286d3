/** The pure parts of the widget views (widgets/views.py): which options a
    GET query supplies, which fall back to their defaults, and which format
    a download asks for. HTTP responses, the date-stamped file name and the
    widget's rendering are outside the model. */
module Views {
  import opened Wrappers
  import opened Values
  import opened Options

  /** `values["use:<name>"] == 'on'`: a `QueryDict` item is the last value
      given for the key (`[]` when there is none). */
  predicate UseOn(query: Query, name: string) {
    var key := "use:" + name;
    key in query && query[key] != [] && query[key][|query[key]| - 1] == "on"
  }

  /** `_valid_option`: outside the catalogue every option is read from the
      query; inside it only those switched on, the required ones and the
      booleans. */
  predicate ValidOption(o: WidgetOption, query: Query) {
    "catalogue" !in query || UseOn(query, o.name) || o.required || o.kind == BoolOption
  }

  /** Which options one of the two dict comprehensions of `_getquery_to_dict`
      keeps: the valid ones, or (for the defaults) the invalid ones whose
      default is truthy. */
  predicate Picked(o: WidgetOption, query: Query, defaults: bool) {
    if defaults then !ValidOption(o, query) && Truthy(o.default) else ValidOption(o, query)
  }

  /** The value a kept option gets in that comprehension. */
  function PickedValue(o: WidgetOption, query: Query, defaults: bool): Value {
    if defaults then o.default else ValueFromQuery(o, query)
  }

  /** `dict((opt.name, value) for opt in options if kept)`: a later option
      with the same name overwrites an earlier one. */
  function Comprehension(options: seq<WidgetOption>, query: Query, defaults: bool): map<string, Value>
    decreases |options|
  {
    if options == [] then map[]
    else
      var n := |options| - 1;
      var o := options[n];
      var r := Comprehension(options[..n], query, defaults);
      if Picked(o, query, defaults) then r[o.name := PickedValue(o, query, defaults)] else r
  }

  /** The comprehension has an entry for exactly the names of the options it
      keeps. */
  lemma {:induction false} ComprehensionKeys(options: seq<WidgetOption>, query: Query, defaults: bool)
    decreases |options|
    ensures Comprehension(options, query, defaults).Keys
      == set o | o in options && Picked(o, query, defaults) :: o.name
  {
    if options != [] {
      var n := |options| - 1;
      var init := options[..n];
      assert forall x :: x in options <==> x in init || x == options[n] by {
        assert options == init + [options[n]];
      }
      ComprehensionKeys(init, query, defaults);
    }
  }

  /** The entry of a kept option whose name no later option reuses. */
  lemma {:induction false} ComprehensionEntry(options: seq<WidgetOption>, query: Query, defaults: bool, k: nat)
    requires k < |options| && LastWithName(options, k) && Picked(options[k], query, defaults)
    decreases |options|
    ensures var c := Comprehension(options, query, defaults);
      options[k].name in c && c[options[k].name] == PickedValue(options[k], query, defaults)
  {
    var n := |options| - 1;
    var init := options[..n];
    var last := options[n];
    var r := Comprehension(init, query, defaults);
    var full := Comprehension(options, query, defaults);
    var name := options[k].name;
    ComprehensionLast(options, query, defaults);
    if k < n {
      assert last.name != name;
      assert init[k] == options[k];
      assert LastWithName(init, k) by {
        forall j | k < j < n ensures init[j].name != init[k].name {
          assert init[j] == options[j];
        }
      }
      ComprehensionEntry(init, query, defaults, k);
      assert full[name] == r[name];
    }
  }

  lemma ComprehensionLast(options: seq<WidgetOption>, query: Query, defaults: bool)
    requires options != []
    ensures var init := options[..|options| - 1];
      var last := options[|options| - 1];
      var r := Comprehension(init, query, defaults);
      Comprehension(options, query, defaults)
        == if Picked(last, query, defaults) then r[last.name := PickedValue(last, query, defaults)] else r
  {
  }

  /** `_getquery_to_dict`: the valid options read from the query, updated
      with the truthy defaults of the others. */
  function QueryToDict(options: seq<WidgetOption>, query: Query): (r: map<string, Value>)
    ensures r.Keys <= Names(options)
    ensures RequiredNames(options) <= r.Keys
    ensures forall o :: o in options && ValidOption(o, query) ==> o.name in r
  {
    var r := Comprehension(options, query, false) + Comprehension(options, query, true);
    ComprehensionKeys(options, query, false);
    ComprehensionKeys(options, query, true);
    assert RequiredNames(options) <= r.Keys by {
      forall name | name in RequiredNames(options) ensures name in r {
        var o :| o in options && o.required && o.name == name;
        assert Picked(o, query, false);
      }
    }
    r
  }

  /** With distinct names, each option is present exactly when it is valid
      or has a truthy default; a valid option holds what the query gives
      it, an invalid one its default. */
  lemma QueryEntry(options: seq<WidgetOption>, query: Query, k: nat)
    requires DistinctNames(options) && k < |options|
    ensures var o := options[k];
      var r := QueryToDict(options, query);
      && (o.name in r <==> ValidOption(o, query) || Truthy(o.default))
      && (ValidOption(o, query) ==> r[o.name] == ValueFromQuery(o, query))
      && (!ValidOption(o, query) && Truthy(o.default) ==> r[o.name] == o.default)
  {
    var o := options[k];
    DistinctLast(options, k);
    var valid := Comprehension(options, query, false);
    var defaults := Comprehension(options, query, true);
    ComprehensionKeys(options, query, false);
    ComprehensionKeys(options, query, true);
    assert o.name in valid <==> ValidOption(o, query);
    assert o.name in defaults <==> !ValidOption(o, query) && Truthy(o.default);
    if ValidOption(o, query) {
      ComprehensionEntry(options, query, false, k);
    } else if Truthy(o.default) {
      ComprehensionEntry(options, query, true, k);
    }
  }

  /** Without `catalogue` every option is read from the query. */
  lemma NoCatalogue(options: seq<WidgetOption>, query: Query, k: nat)
    requires "catalogue" !in query && k < |options| && LastWithName(options, k)
    ensures QueryToDict(options, query).Keys == Names(options)
    ensures QueryToDict(options, query)[options[k].name] == ValueFromQuery(options[k], query)
  {
    var valid := Comprehension(options, query, false);
    var defaults := Comprehension(options, query, true);
    ComprehensionKeys(options, query, false);
    ComprehensionKeys(options, query, true);
    assert defaults.Keys == {};
    assert valid.Keys == Names(options);
    assert Picked(options[k], query, false);
    ComprehensionEntry(options, query, false, k);
  }

  /** The download view's validation of what the query gives can never
      fail: every key names an option and every required option is valid,
      hence present. */
  lemma DownloadValuesValid(options: seq<WidgetOption>, query: Query)
    ensures ProcessValues(QueryToDict(options, query), options).Ok?
  {
  }

  // ---------------------------------------------------------------------
  // Download format
  // ---------------------------------------------------------------------

  /** The mimetype table of `widget_download_response`. */
  function MimetypeTable(): map<string, string> {
    map["svg" := "image/svg+xml", "png" := "image/png", "csv" := "text/csv", "html" := "text/html"]
  }

  /** `request.GET.get("as", "svg")` looked up in the table: an unknown
      format raises KeyError. */
  function Mimetype(query: Query): (r: Result<string>)
    ensures "as" !in query || query["as"] == [] ==> r == Ok("image/svg+xml")
    ensures r.Ok? <==> "as" !in query || query["as"] == [] || query["as"][|query["as"]| - 1] in MimetypeTable()
    ensures r.Ok? ==> r.value in MimetypeTable().Values
    ensures r.Err? ==> r == Err(KeyError(query["as"][|query["as"]| - 1]))
  {
    var format := QueryGet(query, "as", Str("svg"));
    if format.s in MimetypeTable() then Ok(MimetypeTable()[format.s]) else Err(KeyError(format.s))
  }

  /** Each of the four formats gets its own mimetype. */
  lemma FormatsDistinct()
    ensures forall a, b :: a in MimetypeTable() && b in MimetypeTable() && a != b ==>
      MimetypeTable()[a] != MimetypeTable()[b]
  {
  }
}
