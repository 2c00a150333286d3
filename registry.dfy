/** The widget registry (widgets/registry.py): a table from fully qualified
    class names to widget classes that only ever grows by `setdefault`,
    grouped by app on request, and filled by `autodiscover` with a rollback
    for apps whose registration fails. Importing modules and scanning
    packages are outside the model: what an import yields is a parameter. */
module WidgetRegistry {
  import opened Wrappers
  import opened Widgets

  type Entries = map<string, WidgetClass>

  // ---------------------------------------------------------------------
  // Adding entries without overwriting
  // ---------------------------------------------------------------------

  /** `d.setdefault(k, v)` for each pair in turn: a name already present
      keeps its class, and a new name takes the first class given for it. */
  function SetDefaults(m: Entries, kvs: seq<(string, WidgetClass)>): (r: Entries)
    decreases |kvs|
    ensures r.Keys == m.Keys + set p | p in kvs :: p.0
    ensures forall k :: k in m ==> r[k] == m[k]
  {
    if kvs == [] then m
    else
      var m' := if kvs[0].0 in m then m else m[kvs[0].0 := kvs[0].1];
      var r := SetDefaults(m', kvs[1..]);
      assert forall p :: p in kvs ==> p == kvs[0] || p in kvs[1..];
      r
  }

  /** A name new to the table takes the class of its first occurrence. */
  lemma {:induction false} SetDefaultsFirstWins(m: Entries, kvs: seq<(string, WidgetClass)>, i: nat)
    requires i < |kvs| && kvs[i].0 !in m
    requires forall j :: 0 <= j < i ==> kvs[j].0 != kvs[i].0
    decreases |kvs|
    ensures SetDefaults(m, kvs)[kvs[i].0] == kvs[i].1
  {
    var m' := if kvs[0].0 in m then m else m[kvs[0].0 := kvs[0].1];
    if i > 0 {
      assert kvs[1..][i - 1] == kvs[i];
      assert forall j :: 0 <= j < i - 1 ==> kvs[1..][j] == kvs[j + 1];
      SetDefaultsFirstWins(m', kvs[1..], i - 1);
    }
  }

  lemma {:induction false} SetDefaultsAppend(m: Entries, a: seq<(string, WidgetClass)>, b: seq<(string, WidgetClass)>)
    decreases |a|
    ensures SetDefaults(m, a + b) == SetDefaults(SetDefaults(m, a), b)
  {
    if a == [] {
      assert a + b == b;
    } else {
      var m' := if a[0].0 in m then m else m[a[0].0 := a[0].1];
      assert (a + b)[0] == a[0] && (a + b)[1..] == a[1..] + b;
      SetDefaultsAppend(m', a[1..], b);
    }
  }

  /** One member more for `_add_classes`: `setdefault` of its entry when it
      qualifies. */
  lemma AddClassesStep(m0: Entries, path: string, members: seq<Member>, i: nat)
    requires i < |members|
    ensures var e := SetDefaults(m0, Qualified(path, members[..i]));
      var key := path + "." + members[i].name;
      SetDefaults(m0, Qualified(path, members[..i + 1]))
        == (if members[i].qualifies && key !in e then e[key := members[i].cls] else e)
  {
    var m := members[i];
    var key := path + "." + m.name;
    var step: seq<(string, WidgetClass)> := if m.qualifies then [(key, m.cls)] else [];
    assert members[..i + 1] == members[..i] + [m];
    QualifiedSnoc(path, members[..i], m);
    SetDefaultsAppend(m0, Qualified(path, members[..i]), step);
    var e := SetDefaults(m0, Qualified(path, members[..i]));
    if m.qualifies {
      assert step[1..] == [];
      var e' := if key in e then e else e[key := m.cls];
      assert SetDefaults(e, step) == SetDefaults(e', []);
    } else {
      assert Qualified(path, members[..i]) + [] == Qualified(path, members[..i]);
    }
  }

  // ---------------------------------------------------------------------
  // Registry keys
  // ---------------------------------------------------------------------

  /** A module attribute as `inspect.getmembers` lists it: its name, whether
      it qualifies (a class defined in that very module that subclasses
      `WidgetBase`), and the class. */
  datatype Member = Member(name: string, qualifies: bool, cls: WidgetClass)

  /** `".".join([app_name, widget_noun])`, followed by `"." + modnm` when a
      non-empty module name is given. */
  function WidgetPath(app: string, noun: string, modnm: Option<string>): string {
    if modnm.Some? && modnm.value != "" then app + "." + noun + "." + modnm.value
    else app + "." + noun
  }

  /** The entries `_add_classes` offers to `setdefault`, in member order:
      `path.Name` for every qualifying member. */
  function Qualified(path: string, members: seq<Member>): (r: seq<(string, WidgetClass)>)
    ensures |r| <= |members|
    ensures forall p :: p in r ==> exists m :: m in members && m.qualifies && p == (path + "." + m.name, m.cls)
    ensures forall m :: m in members && m.qualifies ==> (path + "." + m.name, m.cls) in r
  {
    if members == [] then []
    else
      var rest := Qualified(path, members[1..]);
      assert forall m :: m in members ==> m == members[0] || m in members[1..];
      if members[0].qualifies then [(path + "." + members[0].name, members[0].cls)] + rest else rest
  }

  lemma QualifiedSnoc(path: string, members: seq<Member>, m: Member)
    ensures Qualified(path, members + [m]) == Qualified(path, members) + (if m.qualifies then [(path + "." + m.name, m.cls)] else [])
    decreases |members|
  {
    if members == [] {
      assert members + [m] == [m];
      assert [m][1..] == [];
    } else {
      assert (members + [m])[1..] == members[1..] + [m];
      QualifiedSnoc(path, members[1..], m);
    }
  }

  /** `cls.split('.')[0]`: everything before the first dot, or the whole
      name when it has none. */
  function FirstSegment(s: string): (r: string)
    ensures '.' !in r && |r| <= |s| && r == s[..|r|]
    ensures |r| < |s| ==> s[|r|] == '.'
  {
    if s == [] || s[0] == '.' then []
    else [s[0]] + FirstSegment(s[1..])
  }

  /** A name `app.rest` falls under `app` when `app` has no dot. */
  lemma {:induction false} FirstSegmentOf(app: string, rest: string)
    requires '.' !in app
    ensures FirstSegment(app + "." + rest) == app
  {
    if app != [] {
      assert (app + "." + rest)[1..] == app[1..] + "." + rest;
      assert app[0] in app;
      assert forall c :: c in app[1..] ==> c in app;
      FirstSegmentOf(app[1..], rest);
      assert [app[0]] + app[1..] == app;
    } else {
      assert app + "." + rest == ['.'] + rest;
    }
  }

  /** Every class `_add_classes` registers for an app without a dot in its
      name is grouped under that app by `widgets_by_app`. */
  lemma AddedKeyApp(app: string, noun: string, modnm: Option<string>, name: string)
    requires '.' !in app
    ensures FirstSegment(WidgetPath(app, noun, modnm) + "." + name) == app
  {
    var path := WidgetPath(app, noun, modnm);
    if modnm.Some? && modnm.value != "" {
      assert path + "." + name == app + "." + (noun + "." + modnm.value + "." + name);
      FirstSegmentOf(app, noun + "." + modnm.value + "." + name);
    } else {
      assert path + "." + name == app + "." + (noun + "." + name);
      FirstSegmentOf(app, noun + "." + name);
    }
  }

  // ---------------------------------------------------------------------
  // Grouping by app
  // ---------------------------------------------------------------------

  /** The `apps` dict `widgets_by_app` builds when the entries come out of
      the table in the given order. */
  function Grouped(m: Entries, order: seq<string>): map<string, seq<WidgetClass>>
    requires forall k :: k in order ==> k in m
    decreases |order|
  {
    if order == [] then map[]
    else
      var n := |order| - 1;
      var g := Grouped(m, order[..n]);
      var app := FirstSegment(order[n]);
      g[app := (if app in g then g[app] else []) + [m[order[n]]]]
  }

  /** The classes listed under `app`: those whose name starts with `app`, in
      iteration order. */
  function GroupOf(m: Entries, order: seq<string>, app: string): seq<WidgetClass>
    requires forall k :: k in order ==> k in m
    decreases |order|
  {
    if order == [] then []
    else
      var n := |order| - 1;
      GroupOf(m, order[..n], app) + (if FirstSegment(order[n]) == app then [m[order[n]]] else [])
  }

  /** `widgets_by_app` puts each class in exactly the group of its app:
      there is a group for an app exactly when some name starts with it, and
      the group lists the classes of precisely those names. */
  lemma {:induction false} GroupedByFirstSegment(m: Entries, order: seq<string>)
    requires forall k :: k in order ==> k in m
    decreases |order|
    ensures forall app :: app in Grouped(m, order) <==> exists k :: k in order && FirstSegment(k) == app
    ensures forall app :: app in Grouped(m, order) ==> Grouped(m, order)[app] == GroupOf(m, order, app)
  {
    if order != [] {
      var n := |order| - 1;
      var init := order[..n];
      assert forall k :: k in init ==> k in order;
      GroupedByFirstSegment(m, init);
      forall app ensures app in Grouped(m, order) <==> exists k :: k in order && FirstSegment(k) == app {
        if app in Grouped(m, init) {
          var k :| k in init && FirstSegment(k) == app;
          assert k in order;
        }
        if exists k :: k in order && FirstSegment(k) == app {
          var k :| k in order && FirstSegment(k) == app;
          if k != order[n] {
            assert k in init;
          }
        }
      }
      forall app | app in Grouped(m, order) ensures Grouped(m, order)[app] == GroupOf(m, order, app) {
        if app != FirstSegment(order[n]) {
          assert GroupOf(m, order, app) == GroupOf(m, init, app) + [];
        } else if app !in Grouped(m, init) {
          GroupOfNone(m, init, app);
        }
      }
    }
  }

  lemma {:induction false} GroupOfNone(m: Entries, order: seq<string>, app: string)
    requires forall k :: k in order ==> k in m
    requires forall k :: k in order ==> FirstSegment(k) != app
    decreases |order|
    ensures GroupOf(m, order, app) == []
  {
    if order != [] {
      var n := |order| - 1;
      assert forall k :: k in order[..n] ==> k in order;
      GroupOfNone(m, order[..n], app);
    }
  }

  /** The names in `order` that fall under `app`. */
  ghost function NamesOf(order: seq<string>, app: string): set<string> {
    set k | k in order && FirstSegment(k) == app
  }

  lemma NamesOfSnoc(init: seq<string>, k: string, app: string)
    ensures NamesOf(init + [k], app) == NamesOf(init, app) + (if FirstSegment(k) == app then {k} else {})
  {
    assert forall x :: x in init + [k] <==> x in init || x == k;
  }

  /** Each group lists exactly as many classes as there are names of that
      app. */
  lemma {:induction false} GroupOfSize(m: Entries, order: seq<string>, app: string)
    requires forall k :: k in order ==> k in m
    requires forall i, j :: 0 <= i < j < |order| ==> order[i] != order[j]
    decreases |order|
    ensures |GroupOf(m, order, app)| == |NamesOf(order, app)|
  {
    if order != [] {
      var n := |order| - 1;
      var init := order[..n];
      var last := order[n];
      assert forall k :: k in init ==> k in order;
      GroupOfSize(m, init, app);
      assert last !in init by {
        forall i | 0 <= i < n ensures init[i] != last { assert order[i] != last; }
      }
      assert order == init + [last];
      NamesOfSnoc(init, last, app);
      if FirstSegment(last) == app {
        assert last !in NamesOf(init, app);
        assert |NamesOf(order, app)| == |NamesOf(init, app)| + 1;
      }
    }
  }

  // ---------------------------------------------------------------------
  // Autodiscovery
  // ---------------------------------------------------------------------

  /** The outcome of `registry.register(app, widget_noun)` (or of
      `register_main`): the names and classes it offers to `setdefault`, in
      order, and the exception it ends with, if any. Package scanning is not
      modelled; only its effect on the table is. */
  datatype Attempt = Attempt(added: seq<(string, WidgetClass)>, failure: Option<Error>)

  /** What `autodiscover` finds in the installation: the installed apps, which
      of them import, what registering each does, which have a widgets
      submodule, and whether and how the main widgets package registers. */
  datatype Environment = Environment(
    apps: seq<string>,
    importable: set<string>,
    attempt: string -> Attempt,
    hasWidgetModule: set<string>,
    mainImportable: bool,
    mainAttempt: Attempt)

  /** The loop over installed apps: an app that does not import stops
      everything; an app whose registration raises is rolled back, and the
      error bubbles up only when the app does have a widgets module. */
  function DiscoverApps(entries: Entries, apps: seq<string>, env: Environment): (r: (Outcome, Entries))
    decreases |apps|
  {
    if apps == [] then (Pass, entries)
    else if apps[0] !in env.importable then (Fail(ImportError(apps[0])), entries)
    else
      var attempt := env.attempt(apps[0]);
      if attempt.failure.Some? then
        if apps[0] in env.hasWidgetModule then (Fail(attempt.failure.value), entries)
        else DiscoverApps(entries, apps[1..], env)
      else DiscoverApps(SetDefaults(entries, attempt.added), apps[1..], env)
  }

  /** The main widgets package, when the snapshot it restores is the table
      just before it. */
  function DiscoverMain(entries: Entries, env: Environment): Entries {
    if !env.mainImportable || env.mainAttempt.failure.Some? then entries
    else SetDefaults(entries, env.mainAttempt.added)
  }

  /** `autodiscover` with every rollback restoring the table as it was just
      before the step that failed. */
  function Discovered(entries: Entries, env: Environment): (Outcome, Entries) {
    var (o, after) := DiscoverApps(entries, env.apps, env);
    if o.Fail? then (o, after) else (Pass, DiscoverMain(after, env))
  }

  /** `autodiscover` as written: when importing the main widgets package
      fails, the `except` branch restores the snapshot left over from the
      last app, taken before that app registered, or raises NameError when
      no app ever set it. */
  function DiscoveredAsWritten(entries: Entries, env: Environment): (Outcome, Entries) {
    var (o, after) := DiscoverApps(entries, env.apps, env);
    if o.Fail? then (o, after)
    else if env.mainImportable then (Pass, DiscoverMain(after, env))
    else if env.apps == [] then (Fail(NameError), after)
    else (Pass, DiscoverApps(entries, env.apps[..|env.apps| - 1], env).1)
  }

  /** Autodiscovery never drops or replaces a class already registered. */
  lemma {:induction false} DiscoverAppsKeeps(entries: Entries, apps: seq<string>, env: Environment)
    decreases |apps|
    ensures forall k :: k in entries ==> (k in DiscoverApps(entries, apps, env).1
      && DiscoverApps(entries, apps, env).1[k] == entries[k])
  {
    if apps != [] && apps[0] in env.importable {
      var attempt := env.attempt(apps[0]);
      if attempt.failure.None? {
        DiscoverAppsKeeps(SetDefaults(entries, attempt.added), apps[1..], env);
      } else if apps[0] !in env.hasWidgetModule {
        DiscoverAppsKeeps(entries, apps[1..], env);
      }
    }
  }

  /** The names an attempt offers. */
  function Offered(attempt: Attempt): set<string> {
    set p | p in attempt.added :: p.0
  }

  /** Rollback leaves nothing of a failed registration behind: every name in
      the table afterwards was there before or was offered by an app whose
      registration went through. */
  lemma {:induction false} FailedAppsLeaveNothing(entries: Entries, apps: seq<string>, env: Environment)
    decreases |apps|
    ensures forall k :: k in DiscoverApps(entries, apps, env).1 ==>
      k in entries || exists a :: a in apps && env.attempt(a).failure.None? && k in Offered(env.attempt(a))
  {
    if apps != [] && apps[0] in env.importable {
      var attempt := env.attempt(apps[0]);
      var next := if attempt.failure.None? then SetDefaults(entries, attempt.added) else entries;
      if attempt.failure.None? || apps[0] !in env.hasWidgetModule {
        FailedAppsLeaveNothing(next, apps[1..], env);
        forall k | k in DiscoverApps(entries, apps, env).1
          ensures k in entries || exists a :: a in apps && env.attempt(a).failure.None? && k in Offered(env.attempt(a))
        {
          if k !in next {
            var a :| a in apps[1..] && env.attempt(a).failure.None? && k in Offered(env.attempt(a));
            assert a in apps;
          } else if k !in entries {
            assert k in Offered(attempt);
          }
        }
      }
    }
  }

  /** When the main widgets package imports, the code as written and the
      corrected rollback agree. */
  lemma AsWrittenAgreesWhenMainImports(entries: Entries, env: Environment)
    requires env.mainImportable
    ensures DiscoveredAsWritten(entries, env) == Discovered(entries, env)
  {
  }

  /** When it does not import, the code as written throws away what the last
      app registered. */
  lemma AsWrittenRestoresStaleSnapshot(entries: Entries, env: Environment)
    requires !env.mainImportable && env.apps != []
    requires DiscoverApps(entries, env.apps, env).0 == Pass
    ensures DiscoveredAsWritten(entries, env).1 == DiscoverApps(entries, env.apps[..|env.apps| - 1], env).1
    ensures Discovered(entries, env).1 == DiscoverApps(entries, env.apps, env).1
  {
  }

  /** `autodiscover('gidgits')` with one installed app whose `app.gidgits`
      module registers `W`, and no top-level `gidgits` package: as written,
      the table ends up empty; corrected, it holds `W`. */
  lemma StaleSnapshotExample(c: WidgetClass)
    ensures var env := Environment(["app"], {"app"}, _ => Attempt([("app.gidgits.W", c)], None), {}, false, Attempt([], None));
      && DiscoveredAsWritten(map[], env) == (Pass, map[])
      && Discovered(map[], env) == (Pass, map["app.gidgits.W" := c])
  {
    var env := Environment(["app"], {"app"}, _ => Attempt([("app.gidgits.W", c)], None), {}, false, Attempt([], None));
    var added := [("app.gidgits.W", c)];
    assert env.apps[..0] == [];
    assert env.apps[1..] == [];
    assert SetDefaults(map[], added) == SetDefaults(map["app.gidgits.W" := c], []);
  }

  /** No installed apps and no main widgets package: as written the
      `except` branch reads a variable never assigned. */
  lemma NoAppsExample(entries: Entries, env: Environment)
    requires env.apps == [] && !env.mainImportable
    ensures DiscoveredAsWritten(entries, env) == (Fail(NameError), entries)
    ensures Discovered(entries, env) == (Pass, entries)
  {
  }

  // ---------------------------------------------------------------------
  // The registry object
  // ---------------------------------------------------------------------

  class Registry {
    /** `_register`. */
    var entries: Entries

    constructor ()
      ensures entries == map[]
    {
      entries := map[];
    }

    /** `register_by_qualified_name`: nothing happens for a known name;
        otherwise the class `get_widget_class` loads is added, and a load
        error propagates with the table unchanged. */
    method RegisterByQualifiedName(name: string, load: string -> Result<WidgetClass>) returns (r: Outcome)
      modifies this
      ensures name in old(entries) ==> r == Pass && entries == old(entries)
      ensures name !in old(entries) && load(name).Ok? ==> r == Pass && entries == old(entries)[name := load(name).value]
      ensures name !in old(entries) && load(name).Err? ==> r == Fail(load(name).error) && entries == old(entries)
    {
      if name in entries {
        return Pass;
      }
      var cls := load(name);
      if cls.Err? {
        return Fail(cls.error);
      }
      entries := entries[name := cls.value];
      return Pass;
    }

    /** `_add_classes`: a module named `options` is skipped; otherwise the
        module at `app.noun[.modnm]` is imported and each qualifying member
        is offered to `setdefault` under `path.Name`. */
    method AddClasses(app: string, noun: string, modnm: Option<string>, importModule: string -> Result<seq<Member>>)
      returns (r: Outcome)
      modifies this
      ensures modnm == Some("options") ==> r == Pass && entries == old(entries)
      ensures modnm != Some("options") && importModule(WidgetPath(app, noun, modnm)).Err? ==>
        r == Fail(importModule(WidgetPath(app, noun, modnm)).error) && entries == old(entries)
      ensures modnm != Some("options") && importModule(WidgetPath(app, noun, modnm)).Ok? ==>
        r == Pass
        && entries == SetDefaults(old(entries), Qualified(WidgetPath(app, noun, modnm), importModule(WidgetPath(app, noun, modnm)).value))
    {
      if modnm == Some("options") {
        return Pass;
      }
      var path := WidgetPath(app, noun, modnm);
      var imported := importModule(path);
      if imported.Err? {
        return Fail(imported.error);
      }
      var members := imported.value;
      for i := 0 to |members|
        invariant entries == SetDefaults(old(entries), Qualified(path, members[..i]))
      {
        var m := members[i];
        AddClassesStep(old(entries), path, members, i);
        if m.qualifies {
          var key := path + "." + m.name;
          if key !in entries {
            entries := entries[key := m.cls];
          }
        }
      }
      assert members[..|members|] == members;
      return Pass;
    }

    /** `widgets_by_app`: the table's entries, in the dict's own iteration
        order, grouped under the first dotted segment of their name. */
    method WidgetsByApp() returns (apps: map<string, seq<WidgetClass>>)
      ensures exists order :: (Enumerates(order, entries.Keys) && (forall k :: k in order ==> k in entries)
        && apps == Grouped(entries, order))
    {
      apps := map[];
      var todo := entries.Keys;
      ghost var order: seq<string> := [];
      while todo != {}
        invariant forall k :: k in order ==> k in entries
        invariant forall i, j :: 0 <= i < j < |order| ==> order[i] != order[j]
        invariant forall k :: k in entries <==> k in todo || k in order
        invariant forall k :: k in todo ==> k !in order
        invariant apps == Grouped(entries, order)
        decreases |todo|
      {
        var key :| key in todo;
        var app := FirstSegment(key);
        apps := apps[app := (if app in apps then apps[app] else []) + [entries[key]]];
        todo := todo - {key};
        assert (order + [key])[..|order|] == order;
        order := order + [key];
      }
      assert Enumerates(order, entries.Keys);
    }

    /** `find`: the stored class, or else the class registered by name, which
        is then in the table; a load error propagates. */
    method Find(classname: string, load: string -> Result<WidgetClass>) returns (r: Result<WidgetClass>)
      modifies this
      ensures classname in old(entries) ==> r == Ok(old(entries)[classname]) && entries == old(entries)
      ensures classname !in old(entries) ==> (r == load(classname)
        && entries == (if r.Ok? then old(entries)[classname := r.value] else old(entries)))
      ensures r.Ok? ==> classname in entries && entries[classname] == r.value
    {
      if classname in entries {
        return Ok(entries[classname]);
      }
      var o := RegisterByQualifiedName(classname, load);
      if o.Fail? {
        return Err(o.error);
      }
      return Ok(entries[classname]);
    }

    /** `autodiscover`, with the main package's rollback restoring the table
        as it was just before that step. */
    method Autodiscover(env: Environment) returns (r: Outcome)
      modifies this
      ensures (r, entries) == Discovered(old(entries), env)
    {
      var i := 0;
      while i < |env.apps|
        invariant 0 <= i <= |env.apps|
        invariant DiscoverApps(old(entries), env.apps, env) == DiscoverApps(entries, env.apps[i..], env)
      {
        var app := env.apps[i];
        assert env.apps[i..][1..] == env.apps[i + 1..];
        if app !in env.importable {
          return Fail(ImportError(app));
        }
        var before := entries;
        var attempt := env.attempt(app);
        entries := SetDefaults(entries, attempt.added);
        if attempt.failure.Some? {
          entries := before;
          if app in env.hasWidgetModule {
            return Fail(attempt.failure.value);
          }
        }
        i := i + 1;
      }
      var before := entries;
      if !env.mainImportable {
        entries := before;
        return Pass;
      }
      entries := SetDefaults(entries, env.mainAttempt.added);
      if env.mainAttempt.failure.Some? {
        entries := before;
      }
      return Pass;
    }
  }
}
