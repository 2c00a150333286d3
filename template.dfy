/** Widget discovery over templates and media aggregation
    (widgets/template.py). A template is reduced to what the walk looks at:
    its widget nodes, the parent names of its `extends` tags (empty when the
    parent is a variable) and the names of its constant `include`s. Loading
    is a map from names to such trees; the walk carries fuel in place of
    Python's recursion limit, since nothing stops a cycle. */
module Template {
  import opened Wrappers
  import opened WidgetTags

  datatype TemplateTree = TemplateTree(
    widgets: seq<WidgetRenderNode>,
    parents: seq<string>,
    includes: seq<string>)

  type Loader = map<string, TemplateTree>

  // ---------------------------------------------------------------------
  // Discovery
  // ---------------------------------------------------------------------

  /** The parents that `extends` tags name statically; a variable parent has
      no name and is passed over. */
  function StaticParents(parents: seq<string>): (r: seq<string>)
    ensures forall n :: n in r <==> n in parents && n != ""
  {
    if parents == [] then []
    else (if parents[0] != "" then [parents[0]] else []) + StaticParents(parents[1..])
  }

  /** `_find_widget_nodes`: the template's own widget nodes, then those of
      each static parent, then those of each constant include. A name the
      loader does not know raises, and so does running out of fuel. */
  function Discover(loader: Loader, t: TemplateTree, fuel: nat): (r: Result<seq<WidgetRenderNode>>)
    decreases fuel, 0
    ensures r.Ok? ==> |r.value| >= |t.widgets| && r.value[..|t.widgets|] == t.widgets
    ensures fuel == 0 ==> r == Err(RecursionLimit)
  {
    if fuel == 0 then Err(RecursionLimit)
    else
      var up :- DiscoverNames(loader, StaticParents(t.parents), fuel - 1);
      var down :- DiscoverNames(loader, t.includes, fuel - 1);
      assert (t.widgets + up + down)[..|t.widgets|] == t.widgets;
      Ok(t.widgets + up + down)
  }

  /** The nodes found under each named template in turn. */
  function DiscoverNames(loader: Loader, names: seq<string>, fuel: nat): (r: Result<seq<WidgetRenderNode>>)
    decreases fuel, 1, |names|
    ensures names == [] ==> r == Ok([])
  {
    if names == [] then Ok([])
    else if names[0] !in loader then Err(TemplateDoesNotExist(names[0]))
    else
      var first :- Discover(loader, loader[names[0]], fuel);
      var rest :- DiscoverNames(loader, names[1..], fuel);
      Ok(first + rest)
  }

  /** More fuel changes nothing once the walk has finished. */
  lemma {:induction false} DiscoverFuel(loader: Loader, t: TemplateTree, fuel: nat)
    requires Discover(loader, t, fuel).Ok?
    decreases fuel, 0
    ensures Discover(loader, t, fuel + 1) == Discover(loader, t, fuel)
  {
    DiscoverNamesFuel(loader, StaticParents(t.parents), fuel - 1);
    DiscoverNamesFuel(loader, t.includes, fuel - 1);
  }

  lemma {:induction false} DiscoverNamesFuel(loader: Loader, names: seq<string>, fuel: nat)
    requires DiscoverNames(loader, names, fuel).Ok?
    decreases fuel, 1, |names|
    ensures DiscoverNames(loader, names, fuel + 1) == DiscoverNames(loader, names, fuel)
  {
    if names != [] {
      DiscoverFuel(loader, loader[names[0]], fuel);
      DiscoverNamesFuel(loader, names[1..], fuel);
    }
  }

  /** An `extends` whose parent is a variable is skipped without error. */
  lemma VariableParentSkipped(loader: Loader, t: TemplateTree, fuel: nat)
    ensures Discover(loader, t.(parents := t.parents + [""]), fuel) == Discover(loader, t, fuel)
  {
    StaticParentsVariable(t.parents);
  }

  lemma {:induction false} StaticParentsVariable(parents: seq<string>)
    decreases |parents|
    ensures StaticParents(parents + [""]) == StaticParents(parents)
  {
    if parents == [] {
      assert StaticParents([""]) == [] + StaticParents([]);
    } else {
      assert (parents + [""])[1..] == parents[1..] + [""];
      StaticParentsVariable(parents[1..]);
    }
  }

  /** A template that only extends one parent holds its own nodes followed
      by everything found in the parent, overridden blocks included. */
  lemma ExtendsOne(loader: Loader, t: TemplateTree, parent: string, fuel: nat)
    requires t.parents == [parent] && parent != "" && t.includes == []
    requires parent in loader && fuel > 0
    requires Discover(loader, loader[parent], fuel - 1).Ok?
    ensures Discover(loader, t, fuel) == Ok(t.widgets + Discover(loader, loader[parent], fuel - 1).value)
  {
    assert StaticParents([parent]) == [parent] + StaticParents([]);
    var found := Discover(loader, loader[parent], fuel - 1).value;
    assert DiscoverNames(loader, [parent], fuel - 1) == Ok(found + []);
    assert found + [] == found;
    assert t.widgets + found + [] == t.widgets + found;
  }

  /** A template that only includes one constant template holds its own
      nodes followed by everything found in the included one. */
  lemma IncludeOne(loader: Loader, t: TemplateTree, name: string, fuel: nat)
    requires t.parents == [] && t.includes == [name]
    requires name in loader && fuel > 0
    requires Discover(loader, loader[name], fuel - 1).Ok?
    ensures Discover(loader, t, fuel) == Ok(t.widgets + Discover(loader, loader[name], fuel - 1).value)
  {
    assert StaticParents([]) == [];
    var found := Discover(loader, loader[name], fuel - 1).value;
    assert DiscoverNames(loader, [name], fuel - 1) == Ok(found + []);
    assert found + [] == found;
    assert t.widgets + [] + found == t.widgets + found;
  }

  /** A template with no parents and no includes yields its own nodes. */
  lemma Leaf(loader: Loader, t: TemplateTree, fuel: nat)
    requires t.parents == [] && t.includes == [] && fuel > 0
    ensures Discover(loader, t, fuel) == Ok(t.widgets)
  {
    assert StaticParents([]) == [];
    assert t.widgets + [] + [] == t.widgets;
  }

  /** Three levels of `extends`: every level's nodes are found, the child's
      first and the root's last. */
  lemma ThreeLevels(a: TemplateTree, b: TemplateTree, c: TemplateTree)
    requires a.parents == [] && a.includes == []
    requires b.parents == ["A"] && b.includes == []
    requires c.parents == ["B"] && c.includes == []
    ensures Discover(map["A" := a, "B" := b], c, 3) == Ok(c.widgets + b.widgets + a.widgets)
  {
    var loader := map["A" := a, "B" := b];
    assert loader["A"] == a && loader["B"] == b;
    Leaf(loader, a, 1);
    ExtendsOne(loader, b, "A", 2);
    assert Discover(loader, b, 2) == Ok(b.widgets + a.widgets);
    ExtendsOne(loader, c, "B", 3);
    assert c.widgets + (b.widgets + a.widgets) == c.widgets + b.widgets + a.widgets;
  }

  // ---------------------------------------------------------------------
  // Reachability
  // ---------------------------------------------------------------------

  /** The templates the walk descends into from `t`: its static parents
      and its constant includes. */
  predicate ChildOf(t: TemplateTree, n: string) {
    n in StaticParents(t.parents) || n in t.includes
  }

  /** `path` names a chain of templates starting below `t`, each a parent
      or constant include of the one before. */
  ghost predicate Path(loader: Loader, t: TemplateTree, path: seq<string>)
    decreases |path|
  {
    path == [] || (ChildOf(t, path[0]) && path[0] in loader && Path(loader, loader[path[0]], path[1..]))
  }

  /** The template at the end of a chain. */
  ghost function Target(loader: Loader, t: TemplateTree, path: seq<string>): TemplateTree
    requires Path(loader, t, path)
    decreases |path|
  {
    if path == [] then t else Target(loader, loader[path[0]], path[1..])
  }

  /** `a` appears in `b` as the run starting at index `k`. */
  ghost predicate RunAt(a: seq<WidgetRenderNode>, b: seq<WidgetRenderNode>, k: int) {
    0 <= k && k + |a| <= |b| && b[k..k + |a|] == a
  }

  /** `a` appears in `b` as a contiguous run. */
  ghost predicate Occurs(a: seq<WidgetRenderNode>, b: seq<WidgetRenderNode>) {
    exists k :: RunAt(a, b, k)
  }

  lemma OccursAt(a: seq<WidgetRenderNode>, x: seq<WidgetRenderNode>, y: seq<WidgetRenderNode>)
    ensures Occurs(a, x + a + y)
  {
    assert RunAt(a, x + a + y, |x|);
  }

  lemma OccursTrans(a: seq<WidgetRenderNode>, b: seq<WidgetRenderNode>, c: seq<WidgetRenderNode>)
    requires Occurs(a, b) && Occurs(b, c)
    ensures Occurs(a, c)
  {
    var i :| RunAt(a, b, i);
    var j :| RunAt(b, c, j);
    assert c[j + i..j + i + |a|] == a by {
      forall m | 0 <= m < |a| ensures c[j + i + m] == a[m] {
        assert c[j..j + |b|][i + m] == b[i + m];
      }
    }
    assert RunAt(a, c, j + i);
  }

  /** A run in a sequence contributes its elements to the multiset. */
  lemma OccursMultiset(a: seq<WidgetRenderNode>, b: seq<WidgetRenderNode>)
    requires Occurs(a, b)
    ensures multiset(a) <= multiset(b)
  {
    var k :| RunAt(a, b, k);
    assert b == b[..k] + b[k..k + |a|] + b[k + |a|..];
  }

  /** Each name walked by `DiscoverNames` is loaded, and its nodes form a
      run of the combined result. */
  lemma {:induction false} DiscoverNamesMember(loader: Loader, names: seq<string>, fuel: nat, j: nat)
    requires DiscoverNames(loader, names, fuel).Ok? && j < |names|
    decreases j
    ensures names[j] in loader && Discover(loader, loader[names[j]], fuel).Ok?
    ensures Occurs(Discover(loader, loader[names[j]], fuel).value, DiscoverNames(loader, names, fuel).value)
  {
    var first := Discover(loader, loader[names[0]], fuel).value;
    var rest := DiscoverNames(loader, names[1..], fuel).value;
    assert DiscoverNames(loader, names, fuel).value == first + rest;
    if j == 0 {
      OccursAt(first, [], rest);
      assert [] + first + rest == first + rest;
    } else {
      DiscoverNamesMember(loader, names[1..], fuel, j - 1);
      OccursAt(rest, first, []);
      assert first + rest + [] == first + rest;
      OccursTrans(Discover(loader, loader[names[j]], fuel).value, rest, first + rest);
    }
  }

  /** A successful walk loaded every parent and include of the template, and
      everything found under each of them is a run of the result. */
  lemma DiscoverChild(loader: Loader, t: TemplateTree, fuel: nat, n: string)
    requires Discover(loader, t, fuel).Ok? && ChildOf(t, n)
    ensures fuel > 0 && n in loader && Discover(loader, loader[n], fuel - 1).Ok?
    ensures Occurs(Discover(loader, loader[n], fuel - 1).value, Discover(loader, t, fuel).value)
  {
    var ups := StaticParents(t.parents);
    var up := DiscoverNames(loader, ups, fuel - 1).value;
    var down := DiscoverNames(loader, t.includes, fuel - 1).value;
    assert Discover(loader, t, fuel).value == t.widgets + up + down;
    if n in ups {
      var j :| 0 <= j < |ups| && ups[j] == n;
      DiscoverNamesMember(loader, ups, fuel - 1, j);
      OccursAt(up, t.widgets, down);
      OccursTrans(Discover(loader, loader[n], fuel - 1).value, up, t.widgets + up + down);
    } else {
      var j :| 0 <= j < |t.includes| && t.includes[j] == n;
      DiscoverNamesMember(loader, t.includes, fuel - 1, j);
      OccursAt(down, t.widgets + up, []);
      assert t.widgets + up + down + [] == t.widgets + up + down;
      OccursTrans(Discover(loader, loader[n], fuel - 1).value, down, t.widgets + up + down);
    }
  }

  /** Every template reachable through static parents and constant includes
      is walked within the fuel, and what is found under it is a run of the
      result. */
  lemma {:induction false} DiscoverReaches(loader: Loader, t: TemplateTree, fuel: nat, path: seq<string>)
    requires Discover(loader, t, fuel).Ok? && Path(loader, t, path)
    decreases |path|
    ensures |path| <= fuel && Discover(loader, Target(loader, t, path), fuel - |path|).Ok?
    ensures Occurs(Discover(loader, Target(loader, t, path), fuel - |path|).value, Discover(loader, t, fuel).value)
  {
    if path == [] {
      var whole := Discover(loader, t, fuel).value;
      OccursAt(whole, [], []);
      assert [] + whole + [] == whole;
    } else {
      var u, tail := loader[path[0]], path[1..];
      DiscoverChild(loader, t, fuel, path[0]);
      DiscoverReaches(loader, u, fuel - 1, tail);
      ReachStep(loader, t, fuel, path, u, tail);
    }
  }

  /** One step down a chain: what is found below the first template of the
      chain is a run of what is found from `t`. */
  lemma ReachStep(loader: Loader, t: TemplateTree, fuel: nat, path: seq<string>, u: TemplateTree, tail: seq<string>)
    requires path != [] && Path(loader, t, path) && fuel > 0
    requires u == loader[path[0]] && tail == path[1..]
    requires Discover(loader, t, fuel).Ok? && Discover(loader, u, fuel - 1).Ok?
    requires Occurs(Discover(loader, u, fuel - 1).value, Discover(loader, t, fuel).value)
    requires |tail| <= fuel - 1 && Discover(loader, Target(loader, u, tail), fuel - 1 - |tail|).Ok?
    requires Occurs(Discover(loader, Target(loader, u, tail), fuel - 1 - |tail|).value, Discover(loader, u, fuel - 1).value)
    ensures |path| <= fuel && Discover(loader, Target(loader, t, path), fuel - |path|).Ok?
    ensures Occurs(Discover(loader, Target(loader, t, path), fuel - |path|).value, Discover(loader, t, fuel).value)
  {
    var below := Discover(loader, Target(loader, u, tail), fuel - 1 - |tail|).value;
    OccursTrans(below, Discover(loader, u, fuel - 1).value, Discover(loader, t, fuel).value);
  }

  /** The widget nodes of every template reachable from `t` are among those
      discovered from `t`, in their own order and with their multiplicity. */
  lemma ReachableWidgetsFound(loader: Loader, t: TemplateTree, fuel: nat, path: seq<string>)
    requires Discover(loader, t, fuel).Ok? && Path(loader, t, path)
    ensures Occurs(Target(loader, t, path).widgets, Discover(loader, t, fuel).value)
    ensures multiset(Target(loader, t, path).widgets) <= multiset(Discover(loader, t, fuel).value)
  {
    var u := Target(loader, t, path);
    var whole := Discover(loader, t, fuel).value;
    DiscoverReaches(loader, t, fuel, path);
    var found := Discover(loader, u, fuel - |path|).value;
    var rest := found[|u.widgets|..];
    assert found == u.widgets + rest by {
      assert found[..|u.widgets|] == u.widgets;
    }
    OccursAt(u.widgets, [], rest);
    assert [] + u.widgets + rest == found;
    OccursTrans(u.widgets, found, whole);
    OccursMultiset(u.widgets, whole);
  }

  /** `n` is a widget node of some template reachable from `t`. */
  ghost predicate FoundUnder(loader: Loader, t: TemplateTree, n: WidgetRenderNode) {
    exists path :: Path(loader, t, path) && n in Target(loader, t, path).widgets
  }

  /** Which of the walked templates a node found by `DiscoverNames` came
      from. */
  lemma {:induction false} DiscoverNamesSound(loader: Loader, names: seq<string>, fuel: nat, n: WidgetRenderNode)
    returns (j: nat)
    requires DiscoverNames(loader, names, fuel).Ok? && n in DiscoverNames(loader, names, fuel).value
    decreases |names|
    ensures j < |names| && names[j] in loader && Discover(loader, loader[names[j]], fuel).Ok?
    ensures n in Discover(loader, loader[names[j]], fuel).value
  {
    var first := Discover(loader, loader[names[0]], fuel).value;
    var rest := DiscoverNames(loader, names[1..], fuel).value;
    assert DiscoverNames(loader, names, fuel).value == first + rest;
    if n in first {
      j := 0;
    } else {
      var i := DiscoverNamesSound(loader, names[1..], fuel, n);
      j := i + 1;
      assert names[j] == names[1..][i];
    }
  }

  /** (proof helper) One more step in front of a chain. */
  lemma PathCons(loader: Loader, t: TemplateTree, name: string, p: seq<string>)
    requires ChildOf(t, name) && name in loader && Path(loader, loader[name], p)
    ensures Path(loader, t, [name] + p) && Target(loader, t, [name] + p) == Target(loader, loader[name], p)
  {
    assert ([name] + p)[0] == name && ([name] + p)[1..] == p;
  }

  /** Every node the walk finds is a widget node of a template reachable
      from `t` through static parents and constant includes. */
  lemma {:induction false} DiscoverSound(loader: Loader, t: TemplateTree, fuel: nat, n: WidgetRenderNode)
    requires Discover(loader, t, fuel).Ok? && n in Discover(loader, t, fuel).value
    decreases fuel
    ensures FoundUnder(loader, t, n)
  {
    var ups := StaticParents(t.parents);
    var up := DiscoverNames(loader, ups, fuel - 1).value;
    var down := DiscoverNames(loader, t.includes, fuel - 1).value;
    assert Discover(loader, t, fuel).value == t.widgets + up + down;
    if n in t.widgets {
      assert Path(loader, t, []) && Target(loader, t, []) == t;
    } else {
      var name: string;
      if n in up {
        var j := DiscoverNamesSound(loader, ups, fuel - 1, n);
        name := ups[j];
      } else {
        var j := DiscoverNamesSound(loader, t.includes, fuel - 1, n);
        name := t.includes[j];
      }
      DiscoverSound(loader, loader[name], fuel - 1, n);
      var p :| Path(loader, loader[name], p) && n in Target(loader, loader[name], p).widgets;
      PathCons(loader, t, name, p);
      assert Path(loader, t, [name] + p) && n in Target(loader, t, [name] + p).widgets;
    }
  }

  /** When the walk succeeds, it finds exactly the widget nodes of the
      templates reachable from `t`. */
  lemma DiscoverExactly(loader: Loader, t: TemplateTree, fuel: nat, n: WidgetRenderNode)
    requires Discover(loader, t, fuel).Ok?
    ensures n in Discover(loader, t, fuel).value <==> FoundUnder(loader, t, n)
  {
    if n in Discover(loader, t, fuel).value {
      DiscoverSound(loader, t, fuel, n);
    }
    if FoundUnder(loader, t, n) {
      var path :| Path(loader, t, path) && n in Target(loader, t, path).widgets;
      ReachableWidgetsFound(loader, t, fuel, path);
      assert n in multiset(Target(loader, t, path).widgets);
    }
  }

  /** The nodes of several templates, in order (the variable includes). */
  function DiscoverTrees(loader: Loader, ts: seq<TemplateTree>, fuel: nat): Result<seq<WidgetRenderNode>>
    decreases |ts|
  {
    if ts == [] then Ok([])
    else
      var first :- Discover(loader, ts[0], fuel);
      var rest :- DiscoverTrees(loader, ts[1..], fuel);
      Ok(first + rest)
  }

  /** The wrapper's node list: the main template's nodes, then those of each
      variable include in the order given, duplicates kept. */
  function AllNodes(loader: Loader, template: TemplateTree, includes: seq<TemplateTree>, fuel: nat): Result<seq<WidgetRenderNode>> {
    var main :- Discover(loader, template, fuel);
    var extra :- DiscoverTrees(loader, includes, fuel);
    Ok(main + extra)
  }

  /** The nodes found so far in front of a later result. */
  function Extend(done: seq<WidgetRenderNode>, r: Result<seq<WidgetRenderNode>>): Result<seq<WidgetRenderNode>> {
    if r.Ok? then Ok(done + r.value) else r
  }

  // ---------------------------------------------------------------------
  // Media
  // ---------------------------------------------------------------------

  predicate NoDup(s: seq<string>) {
    forall i, j :: 0 <= i < j < |s| ==> s[i] != s[j]
  }

  /** Adding asset paths one at a time, a path already present not again. */
  function AddAll(c: seq<string>, ps: seq<string>): (r: seq<string>)
    decreases |ps|
    ensures forall x :: x in r <==> x in c || x in ps
    ensures |r| >= |c| && r[..|c|] == c
    ensures NoDup(c) ==> NoDup(r)
  {
    if ps == [] then
      assert c[..|c|] == c;
      c
    else
      var c' := if ps[0] in c then c else c + [ps[0]];
      assert forall x :: x in ps <==> x == ps[0] || x in ps[1..];
      var r := AddAll(c', ps[1..]);
      assert r[..|c|] == r[..|c'|][..|c|];
      r
  }

  /** Paths already present add nothing. */
  lemma {:induction false} AddAllPresent(c: seq<string>, ps: seq<string>)
    requires forall x :: x in ps ==> x in c
    decreases |ps|
    ensures AddAll(c, ps) == c
  {
    if ps != [] {
      assert ps[0] in c;
      AddAllPresent(c, ps[1..]);
    }
  }

  /** Adding the same paths twice is the same as adding them once. */
  lemma AddAllIdempotent(c: seq<string>, ps: seq<string>)
    ensures AddAll(AddAll(c, ps), ps) == AddAll(c, ps)
  {
    AddAllPresent(AddAll(c, ps), ps);
  }

  /** New distinct paths are appended as they are, in order. */
  lemma {:induction false} AddAllFresh(c: seq<string>, ps: seq<string>)
    requires NoDup(c + ps)
    decreases |ps|
    ensures AddAll(c, ps) == c + ps
  {
    if ps != [] {
      assert (c + ps)[|c|] == ps[0];
      assert ps[0] !in c by {
        forall k | 0 <= k < |c| ensures c[k] != ps[0] {
          assert (c + ps)[k] == c[k];
        }
      }
      assert c + [ps[0]] + ps[1..] == c + ps;
      AddAllFresh(c + [ps[0]], ps[1..]);
    }
  }

  /** Adding `a` then `b` is adding `a + b`. */
  lemma {:induction false} AddAllAppend(c: seq<string>, a: seq<string>, b: seq<string>)
    decreases |a|
    ensures AddAll(AddAll(c, a), b) == AddAll(c, a + b)
  {
    if a == [] {
      assert a + b == b;
    } else {
      var c' := if a[0] in c then c else c + [a[0]];
      assert (a + b)[0] == a[0] && (a + b)[1..] == a[1..] + b;
      AddAllAppend(c', a[1..], b);
    }
  }

  /** Every node's CSS paths, node after node. */
  function Css(nodes: seq<WidgetRenderNode>): seq<string> {
    if nodes == [] then [] else nodes[0].widget.cssMedia + Css(nodes[1..])
  }

  function Js(nodes: seq<WidgetRenderNode>): seq<string> {
    if nodes == [] then [] else nodes[0].widget.jsMedia + Js(nodes[1..])
  }

  lemma {:induction false} CssSnoc(nodes: seq<WidgetRenderNode>, n: WidgetRenderNode)
    decreases |nodes|
    ensures Css(nodes + [n]) == Css(nodes) + n.widget.cssMedia
    ensures Js(nodes + [n]) == Js(nodes) + n.widget.jsMedia
  {
    if nodes == [] {
      assert [n][1..] == [];
      assert n.widget.cssMedia + [] == [] + n.widget.cssMedia;
      assert n.widget.jsMedia + [] == [] + n.widget.jsMedia;
    } else {
      assert (nodes + [n])[1..] == nodes[1..] + [n];
      CssSnoc(nodes[1..], n);
    }
  }

  /** `django.forms.Media`, reduced to its two path lists. */
  class Media {
    var css: seq<string>
    var js: seq<string>

    constructor ()
      ensures css == [] && js == []
    {
      css := [];
      js := [];
    }

    /** `add_css`: each path not yet present is appended, in order. */
    method AddCss(paths: seq<string>)
      modifies this
      ensures css == AddAll(old(css), paths) && js == old(js)
    {
      for i := 0 to |paths|
        invariant AddAll(css, paths[i..]) == AddAll(old(css), paths)
        invariant js == old(js)
      {
        assert paths[i..][1..] == paths[i + 1..];
        if paths[i] !in css {
          css := css + [paths[i]];
        }
      }
    }

    /** `add_js`: each path not yet present is appended, in order. */
    method AddJs(paths: seq<string>)
      modifies this
      ensures js == AddAll(old(js), paths) && css == old(css)
    {
      for i := 0 to |paths|
        invariant AddAll(js, paths[i..]) == AddAll(old(js), paths)
        invariant css == old(css)
      {
        assert paths[i..][1..] == paths[i + 1..];
        if paths[i] !in js {
          js := js + [paths[i]];
        }
      }
    }
  }

  /** Adding the same distinct paths twice over leaves them once each. */
  lemma AddTwice(ps: seq<string>)
    requires NoDup(ps)
    ensures AddAll([], ps + ps) == ps
  {
    assert [] + ps == ps;
    AddAllFresh([], ps);
    AddAllAppend([], ps, ps);
    AddAllPresent(ps, ps);
  }

  /** The media of a node listed twice is its media twice. */
  lemma MediaOfPair(node: WidgetRenderNode)
    ensures Css([node, node]) == node.widget.cssMedia + node.widget.cssMedia
    ensures Js([node, node]) == node.widget.jsMedia + node.widget.jsMedia
  {
    assert [node, node] == [node] + [node];
    CssSnoc([node], node);
    assert [node] == [] + [node];
    CssSnoc([], node);
    assert Css([]) == [] && Js([]) == [];
  }

  /** Two instances of a widget with three distinct CSS and three distinct JS
      paths leave three of each, in their declared order. */
  lemma TwoInstances(node: WidgetRenderNode)
    requires |node.widget.cssMedia| == 3 && NoDup(node.widget.cssMedia)
    requires |node.widget.jsMedia| == 3 && NoDup(node.widget.jsMedia)
    ensures AddAll([], Css([node, node])) == node.widget.cssMedia
    ensures AddAll([], Js([node, node])) == node.widget.jsMedia
  {
    MediaOfPair(node);
    AddTwice(node.widget.cssMedia);
    AddTwice(node.widget.jsMedia);
  }

  /** Widgets without media leave the media as they found it, both the
      stylesheets and the scripts. */
  lemma {:induction false} NoMediaNoChange(nodes: seq<WidgetRenderNode>, css: seq<string>, js: seq<string>)
    requires forall i :: 0 <= i < |nodes| ==> nodes[i].widget.cssMedia == [] && nodes[i].widget.jsMedia == []
    decreases |nodes|
    ensures Css(nodes) == [] && AddAll(css, Css(nodes)) == css
    ensures Js(nodes) == [] && AddAll(js, Js(nodes)) == js
  {
    if nodes != [] {
      assert forall i :: 0 <= i < |nodes[1..]| ==> nodes[1..][i] == nodes[i + 1];
      NoMediaNoChange(nodes[1..], css, js);
    }
  }

  // ---------------------------------------------------------------------
  // The wrapper
  // ---------------------------------------------------------------------

  /** What a template context can hold here: the `widgets` entry that the
      wrapper writes, or any other value. */
  datatype ContextEntry = WidgetsEntry(media: Media) | OtherEntry

  class RenderContext {
    var vars: map<string, ContextEntry>

    constructor ()
      ensures vars == map[]
    {
      vars := map[];
    }
  }

  class WidgetTemplateWrapper {
    const template: TemplateTree
    const widgetNodes: seq<WidgetRenderNode>
    const media: Media

    constructor (template: TemplateTree, widgetNodes: seq<WidgetRenderNode>, media: Media)
      ensures this.template == template && this.widgetNodes == widgetNodes && this.media == media
    {
      this.template := template;
      this.widgetNodes := widgetNodes;
      this.media := media;
    }

    /** `render`: the aggregated media goes into the context under
        `widgets`. Rendering the template itself is the template engine's. */
    method Render(ctx: RenderContext)
      modifies ctx
      ensures ctx.vars == old(ctx.vars)["widgets" := WidgetsEntry(media)]
    {
      ctx.vars := ctx.vars["widgets" := WidgetsEntry(media)];
    }
  }

  /** The node-collecting part of `WidgetTemplateWrapper.__init__`: the
      main template's nodes, extended by those of each variable include. */
  method CollectNodes(loader: Loader, template: TemplateTree, includes: seq<TemplateTree>, fuel: nat)
    returns (r: Result<seq<WidgetRenderNode>>)
    ensures r == AllNodes(loader, template, includes, fuel)
  {
    var main := Discover(loader, template, fuel);
    if main.Err? {
      return Err(main.error);
    }
    var nodes := main.value;
    ghost var expected := AllNodes(loader, template, includes, fuel);
    assert expected == Extend(nodes, DiscoverTrees(loader, includes[0..], fuel)) by {
      assert includes[0..] == includes;
    }
    for i := 0 to |includes|
      invariant expected == Extend(nodes, DiscoverTrees(loader, includes[i..], fuel))
    {
      assert includes[i..][1..] == includes[i + 1..];
      var found := Discover(loader, includes[i], fuel);
      if found.Err? {
        return Err(found.error);
      }
      ExtendAppend(nodes, found.value, DiscoverTrees(loader, includes[i + 1..], fuel));
      nodes := nodes + found.value;
    }
    assert nodes + [] == nodes;
    return Ok(nodes);
  }

  /** The media loop of `WidgetTemplateWrapper.__init__`: each node's CSS
      and JS, node after node. */
  method AddNodeMedia(media: Media, nodes: seq<WidgetRenderNode>)
    modifies media
    ensures media.css == AddAll(old(media.css), Css(nodes))
    ensures media.js == AddAll(old(media.js), Js(nodes))
  {
    for i := 0 to |nodes|
      invariant media.css == AddAll(old(media.css), Css(nodes[..i]))
      invariant media.js == AddAll(old(media.js), Js(nodes[..i]))
    {
      assert nodes[..i + 1] == nodes[..i] + [nodes[i]];
      CssSnoc(nodes[..i], nodes[i]);
      AddAllAppend(old(media.css), Css(nodes[..i]), nodes[i].widget.cssMedia);
      AddAllAppend(old(media.js), Js(nodes[..i]), nodes[i].widget.jsMedia);
      media.AddCss(nodes[i].widget.cssMedia);
      media.AddJs(nodes[i].widget.jsMedia);
    }
    assert nodes[..|nodes|] == nodes;
  }

  /** `WidgetTemplateWrapper.__init__`: collect the nodes of the template and
      of each variable include, then add every node's CSS and JS to the media
      given, or to a new one when none is. A failed lookup leaves the media
      untouched. */
  method NewWidgetTemplateWrapper(loader: Loader, template: TemplateTree, includes: seq<TemplateTree>,
                                  given: Media?, fuel: nat)
    returns (r: Result<WidgetTemplateWrapper>)
    modifies given
    ensures r.Ok? <==> AllNodes(loader, template, includes, fuel).Ok?
    ensures r.Err? ==> (r.error == AllNodes(loader, template, includes, fuel).error
      && (given != null ==> given.css == old(given.css) && given.js == old(given.js)))
    ensures r.Ok? ==> var nodes := AllNodes(loader, template, includes, fuel).value;
      && r.value.template == template && r.value.widgetNodes == nodes
      && (given != null ==> r.value.media == given)
      && (given == null ==> fresh(r.value.media))
      && r.value.media.css == AddAll(if given != null then old(given.css) else [], Css(nodes))
      && r.value.media.js == AddAll(if given != null then old(given.js) else [], Js(nodes))
  {
    var nodes := CollectNodes(loader, template, includes, fuel);
    if nodes.Err? {
      return Err(nodes.error);
    }
    var media: Media;
    if given != null {
      media := given;
    } else {
      media := new Media();
    }
    AddNodeMedia(media, nodes.value);
    var wrapper := new WidgetTemplateWrapper(template, nodes.value, media);
    return Ok(wrapper);
  }

  lemma ExtendAppend(a: seq<WidgetRenderNode>, b: seq<WidgetRenderNode>, r: Result<seq<WidgetRenderNode>>)
    ensures Extend(a, Extend(b, r)) == Extend(a + b, r)
  {
    if r.Ok? {
      assert a + (b + r.value) == a + b + r.value;
    }
  }
}
