/**
 * The relationship graph of one item (sphinxcontrib/traceables/graph.py): the configured node
 * styles, the style of each node, the start item's one-hop neighbourhood and the orientation of
 * its edges. The dot text itself is not modelled.
 */
module Graph {
  import opened Wrappers
  import Ordering
  import opened Infrastructure
  import opened Traceables

  // ---------------------------------------------------------------------------------------------
  // Styles

  /** A value of a graphviz attribute: text, or a number (as "textwrap" takes). */
  datatype StyleValue = Word(text: string) | Number(n: int)

  type Style = map<string, StyleValue>
  type Styles = map<string, Style>

  /** `default_graph_styles`. */
  const DefaultGraphStyles: Styles := map[
    "__default__" := map["shape" := Word("box"), "textwrap" := Number(16)],
    "__unresolved__" := map[
      "shape" := Word("box"),
      "style" := Word("filled, setlinewith(0.1)"),
      "color" := Word("gray80"),
      "fillcolor" := Word("white"),
      "fontcolor" := Word("gray30")]]

  /** The defaults updated by the configured styles: a configured entry replaces the whole default entry. */
  function MergedStyles(defaults: Styles, configured: Styles): (r: Styles)
    ensures r.Keys == defaults.Keys + configured.Keys
    ensures forall k :: k in configured ==> r[k] == configured[k]
    ensures forall k :: k in defaults && k !in configured ==> r[k] == defaults[k]
  {
    defaults + configured
  }

  /** Whatever is configured, both base styles remain available. */
  lemma BaseStylesAlwaysPresent(configured: Styles)
    ensures "__default__" in MergedStyles(DefaultGraphStyles, configured)
    ensures "__unresolved__" in MergedStyles(DefaultGraphStyles, configured)
  {
  }

  /** Configuring the defaults themselves (the configuration value's default) changes nothing. */
  lemma MergingIsIdempotent(styles: Styles)
    ensures MergedStyles(styles, styles) == styles
    ensures MergedStyles(styles, map[]) == styles
  {
  }

  /** A style value Python treats as true. */
  predicate IsSet(v: StyleValue)
  {
    match v
    case Word(s) => s != ""
    case Number(n) => n != 0
  }

  /** The style an item starts from. */
  function BaseStyleName(x: Traceable): (r: string)
    ensures r == "__unresolved__" <==> IsUnresolved(x)
    ensures r == "__default__" <==> !IsUnresolved(x)
  {
    if x.target.None? then "__unresolved__" else "__default__"
  }

  /** The item's "category" attribute when it is non-empty. */
  function Category(x: Traceable): Option<string>
  {
    if "category" in x.attributes && x.attributes["category"] != "" then Some(x.attributes["category"]) else None
  }

  /** The style a category adds: its configured entry, or nothing when it has none. */
  function CategoryStyle(styles: Styles, x: Traceable): (r: Style)
    ensures Category(x).Some? && Category(x).value in styles ==> r == styles[Category(x).value]
    ensures Category(x).None? || Category(x).value !in styles ==> r == map[]
  {
    match Category(x)
    case None => map[]
    case Some(c) => if c in styles then styles[c] else map[]
  }

  /** The base style updated by the category style, before "textwrap" is taken out. */
  function FullStyle(styles: Styles, x: Traceable): (r: Style)
    requires BaseStyleName(x) in styles
    ensures forall k :: k in r <==> k in styles[BaseStyleName(x)] || k in CategoryStyle(styles, x)
    ensures forall k :: k in r ==>
      r[k] == if k in CategoryStyle(styles, x) then CategoryStyle(styles, x)[k] else styles[BaseStyleName(x)][k]
  {
    styles[BaseStyleName(x)] + CategoryStyle(styles, x)
  }

  /** The attributes a node is drawn with. */
  function NodeStyle(styles: Styles, x: Traceable): (r: Style)
    requires BaseStyleName(x) in styles
    ensures "textwrap" !in r
    ensures forall k :: k != "textwrap" ==> (k in r <==> k in FullStyle(styles, x))
    ensures forall k :: k in r ==> r[k] == FullStyle(styles, x)[k]
  {
    FullStyle(styles, x) - {"textwrap"}
  }

  /** A node's label: the item's title, or the title to be wrapped at a width. */
  datatype Label = Plain(text: string) | Wrapped(text: string, width: nat)

  datatype DotNode = DotNode(tag: string, caption: Label, style: Style)

  datatype GraphError =
    | NoStart(tag: string)
    | Undeclared(name: string)
    | BadWrapWidth(value: StyleValue)

  /**
   * The label the "textwrap" setting gives: none or a falsy one leaves the title as is, a positive
   * number wraps it; anything else is refused by the wrapping.
   */
  function NodeLabel(styles: Styles, x: Traceable): (r: Result<Label, GraphError>)
    requires BaseStyleName(x) in styles
    ensures var full := FullStyle(styles, x);
      ("textwrap" !in full || !IsSet(full["textwrap"])) ==> r == Success(Plain(Infrastructure.Title(x)))
    ensures r.Success? && r.value.Wrapped? ==>
      r.value.text == Infrastructure.Title(x) && r.value.width > 0 &&
      FullStyle(styles, x)["textwrap"] == Number(r.value.width)
    ensures r.Failure? ==> r.error == BadWrapWidth(FullStyle(styles, x)["textwrap"])
    ensures var full := FullStyle(styles, x);
      "textwrap" in full && full["textwrap"].Number? && full["textwrap"].n > 0 ==>
        r == Success(Wrapped(Infrastructure.Title(x), full["textwrap"].n))
    ensures var full := FullStyle(styles, x);
      "textwrap" in full && IsSet(full["textwrap"]) && !(full["textwrap"].Number? && full["textwrap"].n > 0) ==>
        r == Failure(BadWrapWidth(full["textwrap"]))
  {
    var full := FullStyle(styles, x);
    if "textwrap" !in full || !IsSet(full["textwrap"]) then Success(Plain(Infrastructure.Title(x)))
    else match full["textwrap"]
      case Number(n) => if n > 0 then Success(Wrapped(Infrastructure.Title(x), n)) else Failure(BadWrapWidth(Number(n)))
      case Word(s) => Failure(BadWrapWidth(Word(s)))
  }

  /** How `add_dot_traceable` draws an item. */
  function DotNodeOf(styles: Styles, x: Traceable): (r: Result<DotNode, GraphError>)
    requires BaseStyleName(x) in styles
    ensures r.Success? <==> NodeLabel(styles, x).Success?
    ensures r.Success? ==> r.value == DotNode(x.tag, NodeLabel(styles, x).value, NodeStyle(styles, x))
  {
    var caption := NodeLabel(styles, x);
    if caption.Failure? then Failure(caption.error) else Success(DotNode(x.tag, caption.value, NodeStyle(styles, x)))
  }

  /** Without a usable category, a node is drawn in its base style alone. */
  lemma UncategorisedNodesUseTheBaseStyle(styles: Styles, x: Traceable)
    requires BaseStyleName(x) in styles
    requires Category(x).None? || Category(x).value !in styles
    ensures NodeStyle(styles, x) == styles[BaseStyleName(x)] - {"textwrap"}
  {
    assert CategoryStyle(styles, x) == map[];
    assert FullStyle(styles, x) == styles[BaseStyleName(x)];
  }

  /** With a configured category, its settings win over the base style's. */
  lemma CategoryOverridesBase(styles: Styles, x: Traceable, k: string)
    requires BaseStyleName(x) in styles
    requires Category(x).Some? && Category(x).value in styles
    requires k != "textwrap" && k in styles[Category(x).value]
    ensures k in NodeStyle(styles, x) && NodeStyle(styles, x)[k] == styles[Category(x).value][k]
  {
  }

  /** Under the default styles, a placeholder is drawn grey with its tag, a declared item boxed and wrapped at 16. */
  lemma DefaultStyleExamples(tag: string, x: Traceable)
    requires tag != ""
    requires x.target.Some? && Category(x).None?
    ensures DotNodeOf(DefaultGraphStyles, Placeholder(tag)) ==
      Success(DotNode(tag, Plain(tag), DefaultGraphStyles["__unresolved__"]))
    ensures DotNodeOf(DefaultGraphStyles, x) ==
      Success(DotNode(x.tag, Wrapped(Infrastructure.Title(x), 16), map["shape" := Word("box")]))
  {
    var p := Placeholder(tag);
    assert Category(p).None?;
    UncategorisedNodesUseTheBaseStyle(DefaultGraphStyles, p);
    assert DefaultGraphStyles["__unresolved__"] - {"textwrap"} == DefaultGraphStyles["__unresolved__"];
    UncategorisedNodesUseTheBaseStyle(DefaultGraphStyles, x);
    assert FullStyle(DefaultGraphStyles, x)["textwrap"] == Number(16);
    assert DefaultGraphStyles["__default__"] - {"textwrap"} == map["shape" := Word("box")];
  }

  // ---------------------------------------------------------------------------------------------
  // The neighbourhood

  /** An edge from the start item to a relative, with the direction sign of the relationship. */
  datatype Edge = Edge(start: string, relative: string, direction: int)

  /** The nodes (by tag) and edges of a start item's graph. */
  datatype Graph = Graph(nodes: seq<string>, edges: seq<Edge>)

  /** The start item and the tags the relationships named in `names` relate it to. */
  function Nodes(tag: string, names: seq<string>, relationships: map<string, set<string>>): set<string>
    requires forall n :: n in names ==> n in relationships
  {
    if names == [] then {tag}
    else Nodes(tag, names[..|names| - 1], relationships) + relationships[names[|names| - 1]]
  }

  /** A tag is a node exactly when it is the start item or one of the named relationships relates it. */
  lemma {:induction false} NodesHold(tag: string, names: seq<string>, relationships: map<string, set<string>>)
    requires forall n :: n in names ==> n in relationships
    ensures forall x :: x in Nodes(tag, names, relationships) <==> x == tag || exists n :: n in names && x in relationships[n]
    decreases |names|
  {
    if names != [] {
      var prefix := names[..|names| - 1];
      var last := names[|names| - 1];
      assert names == prefix + [last];
      NodesHold(tag, prefix, relationships);
      forall x | x in Nodes(tag, names, relationships) && x != tag ensures exists n :: n in names && x in relationships[n] {
        if x in relationships[last] {
          assert last in names;
        } else {
          assert x in Nodes(tag, prefix, relationships);
          var n :| n in prefix && x in relationships[n];
          assert n in names;
        }
      }
      forall x | exists n :: n in names && x in relationships[n] ensures x in Nodes(tag, names, relationships) {
        var n :| n in names && x in relationships[n];
        if n != last {
          assert n in prefix;
        }
      }
    }
  }

  /** One relationship's edges, one per relative in order. */
  function EdgeGroup(tag: string, relatives: seq<string>, direction: int): (r: seq<Edge>)
    ensures |r| == |relatives|
  {
    seq(|relatives|, j requires 0 <= j < |relatives| => Edge(tag, relatives[j], direction))
  }

  /** The edges of the relationships named in `names`, in that order. */
  function Edges(tag: string, names: seq<string>, relationships: map<string, set<string>>, directions: map<string, int>): seq<Edge>
    requires forall n :: n in names ==> n in relationships && n in directions
  {
    if names == [] then []
    else
      var last := names[|names| - 1];
      Edges(tag, names[..|names| - 1], relationships, directions) +
      EdgeGroup(tag, Ordering.SortedSet(relationships[last]), directions[last])
  }

  /** The relationship names of an item that have no direction. */
  function UndeclaredNames(relationships: map<string, set<string>>, directions: map<string, int>): set<string>
  {
    set n | n in relationships && n !in directions
  }

  /**
   * The graph of the item tagged `tag`: the item and its direct relatives, sorted by tag, and one
   * edge per (relationship, relative). An unknown start tag, or a relationship name without a
   * direction (the first in name order), is an error.
   */
  function NeighbourhoodOf(store: map<string, Traceable>, directions: map<string, int>, tag: string): (r: Result<Graph, GraphError>)
    ensures tag !in store ==> r == Failure(NoStart(tag))
    ensures r.Failure? && tag in store ==>
      var undeclared := UndeclaredNames(store[tag].relationships, directions);
      undeclared != {} && r.error == Undeclared(Ordering.Least(undeclared))
    ensures r.Success? ==> tag in store && store[tag].relationships.Keys <= directions.Keys
  {
    if tag !in store then Failure(NoStart(tag))
    else
      var relationships := store[tag].relationships;
      var undeclared := UndeclaredNames(relationships, directions);
      if undeclared != {} then Failure(Undeclared(Ordering.Least(undeclared)))
      else
        var names := Ordering.SortedSet(relationships.Keys);
        Success(Graph(Ordering.SortedSet(Nodes(tag, names, relationships)), Edges(tag, names, relationships, directions)))
  }

  /** The nodes are the start item and its direct relatives, each once, in tag order. */
  lemma NeighbourhoodNodes(store: map<string, Traceable>, directions: map<string, int>, tag: string)
    requires NeighbourhoodOf(store, directions, tag).Success?
    ensures var g := NeighbourhoodOf(store, directions, tag).value; var relationships := store[tag].relationships;
      Ordering.StrictlySorted(g.nodes) &&
      forall x :: x in g.nodes <==> x == tag || exists n :: n in relationships && x in relationships[n]
  {
    var relationships := store[tag].relationships;
    var names := Ordering.SortedSet(relationships.Keys);
    Ordering.SortedSetSorted(Nodes(tag, names, relationships));
    NodesHold(tag, names, relationships);
    forall x | (exists n :: n in relationships && x in relationships[n])
      ensures x in Nodes(tag, names, relationships)
    {
      var n :| n in relationships && x in relationships[n];
      assert n in names;
    }
  }

  /** Every edge leaves the start item towards a relative, with that relationship's direction; every pair has its edge. */
  lemma EdgesAreThePairs(tag: string, names: seq<string>, relationships: map<string, set<string>>, directions: map<string, int>)
    requires forall n :: n in names ==> n in relationships && n in directions
    ensures var edges := Edges(tag, names, relationships, directions);
      |edges| == RelativeCount(names, relationships) &&
      (forall e :: e in edges ==> e.start == tag && exists n :: n in names && e.relative in relationships[n] && e.direction == directions[n]) &&
      (forall n, x :: n in names && x in relationships[n] ==> Edge(tag, x, directions[n]) in edges)
  {
    EdgesCount(tag, names, relationships, directions);
    EdgesLeaveTheItem(tag, names, relationships, directions);
    EdgesCoverThePairs(tag, names, relationships, directions);
  }

  /** There is one edge per (relationship, relative) pair. */
  lemma {:induction false} EdgesCount(tag: string, names: seq<string>, relationships: map<string, set<string>>, directions: map<string, int>)
    requires forall n :: n in names ==> n in relationships && n in directions
    ensures |Edges(tag, names, relationships, directions)| == RelativeCount(names, relationships)
    decreases |names|
  {
    if names != [] {
      EdgesCount(tag, names[..|names| - 1], relationships, directions);
    }
  }

  /** Each edge leaves the start item towards a relative, with that relationship's direction. */
  lemma {:induction false} EdgesLeaveTheItem(tag: string, names: seq<string>, relationships: map<string, set<string>>, directions: map<string, int>)
    requires forall n :: n in names ==> n in relationships && n in directions
    ensures forall e :: e in Edges(tag, names, relationships, directions) ==>
      e.start == tag && exists n :: n in names && e.relative in relationships[n] && e.direction == directions[n]
    decreases |names|
  {
    if names != [] {
      var prefix := names[..|names| - 1];
      var last := names[|names| - 1];
      var relatives := Ordering.SortedSet(relationships[last]);
      var group := EdgeGroup(tag, relatives, directions[last]);
      EdgesLeaveTheItem(tag, prefix, relationships, directions);
      var edges := Edges(tag, names, relationships, directions);
      assert edges == Edges(tag, prefix, relationships, directions) + group;
      forall e | e in edges
        ensures e.start == tag && exists n :: n in names && e.relative in relationships[n] && e.direction == directions[n]
      {
        if e in group {
          var j :| 0 <= j < |group| && group[j] == e;
          assert e.relative in relationships[last] && last in names;
        } else {
          var n :| n in prefix && e.relative in relationships[n] && e.direction == directions[n];
          assert n in names;
        }
      }
    }
  }

  /** Every (relationship, relative) pair has its edge. */
  lemma {:induction false} EdgesCoverThePairs(tag: string, names: seq<string>, relationships: map<string, set<string>>, directions: map<string, int>)
    requires forall n :: n in names ==> n in relationships && n in directions
    ensures forall n, x :: n in names && x in relationships[n] ==> Edge(tag, x, directions[n]) in Edges(tag, names, relationships, directions)
    decreases |names|
  {
    if names != [] {
      var prefix := names[..|names| - 1];
      var last := names[|names| - 1];
      var relatives := Ordering.SortedSet(relationships[last]);
      var group := EdgeGroup(tag, relatives, directions[last]);
      EdgesCoverThePairs(tag, prefix, relationships, directions);
      var edges := Edges(tag, names, relationships, directions);
      assert edges == Edges(tag, prefix, relationships, directions) + group;
      forall n, x | n in names && x in relationships[n]
        ensures Edge(tag, x, directions[n]) in edges
      {
        if n !in prefix {
          assert n == last;
          var j :| 0 <= j < |relatives| && relatives[j] == x;
          assert group[j] == Edge(tag, x, directions[n]);
        }
      }
    }
  }

  /** Walking the names in order, the first one without a direction is the least undeclared name. */
  lemma FirstUndeclaredIsLeast(names: seq<string>, relationships: map<string, set<string>>, directions: map<string, int>, i: int)
    requires names == Ordering.SortedSet(relationships.Keys)
    requires 0 <= i < |names| && names[i] !in directions
    requires forall k :: 0 <= k < i ==> names[k] in directions
    ensures names[i] in UndeclaredNames(relationships, directions)
    ensures Ordering.Least(UndeclaredNames(relationships, directions)) == names[i]
  {
    var undeclared := UndeclaredNames(relationships, directions);
    Ordering.SortedSetSorted(relationships.Keys);
    assert names[i] in names;
    assert names[i] in undeclared;
    forall u | u in undeclared ensures Ordering.Below(names[i], u) {
      assert u in names;
      var k :| 0 <= k < |names| && names[k] == u;
      if k == i {
        Ordering.BelowReflexive(u);
      }
    }
    assert Ordering.IsLeast(names[i], undeclared);
    Ordering.LeastUnique(undeclared);
  }

  /** The walk over the start item's names stops at an undeclared one with the error `NeighbourhoodOf` gives. */
  lemma StopsAtUndeclared(store: map<string, Traceable>, directions: map<string, int>, tag: string, names: seq<string>, i: int)
    requires tag in store && names == Ordering.SortedSet(store[tag].relationships.Keys)
    requires 0 <= i < |names| && names[i] !in directions
    requires forall k :: 0 <= k < i ==> names[k] in directions
    ensures NeighbourhoodOf(store, directions, tag) == Failure(Undeclared(names[i]))
  {
    FirstUndeclaredIsLeast(names, store[tag].relationships, directions, i);
  }

  /** When every name of the start item has a direction, `NeighbourhoodOf` draws the graph the walk builds. */
  lemma DrawnWhenAllDeclared(store: map<string, Traceable>, directions: map<string, int>, tag: string, names: seq<string>)
    requires tag in store && names == Ordering.SortedSet(store[tag].relationships.Keys)
    requires forall n :: n in names ==> n in directions
    ensures forall n :: n in names ==> n in store[tag].relationships && n in directions
    ensures NeighbourhoodOf(store, directions, tag) ==
      Success(Graph(Ordering.SortedSet(Nodes(tag, names, store[tag].relationships)),
                    Edges(tag, names, store[tag].relationships, directions)))
  {
    var relationships := store[tag].relationships;
    assert UndeclaredNames(relationships, directions) == {} by {
      forall n | n in relationships ensures n in directions {
        assert n in names;
      }
    }
  }

  /** Taking one more relationship name adds its relatives to the nodes and its group to the edges. */
  lemma NeighbourhoodStep(tag: string, names: seq<string>, relationships: map<string, set<string>>, directions: map<string, int>, i: int)
    requires 0 <= i < |names|
    requires forall n :: n in names[..i + 1] ==> n in relationships && n in directions
    ensures Nodes(tag, names[..i + 1], relationships) == Nodes(tag, names[..i], relationships) + relationships[names[i]]
    ensures Edges(tag, names[..i + 1], relationships, directions) ==
      Edges(tag, names[..i], relationships, directions) +
      EdgeGroup(tag, Ordering.SortedSet(relationships[names[i]]), directions[names[i]])
  {
    assert names[..i + 1][..i] == names[..i];
    assert names[..i + 1] == names[..i] + [names[i]];
  }

  // ---------------------------------------------------------------------------------------------
  // Edge orientation

  /** `generate_dot`: an edge with a non-negative direction is drawn from the start item, otherwise towards it. */
  function Endpoints(e: Edge): (r: (string, string))
    ensures {r.0, r.1} == {e.start, e.relative}
    ensures r.0 == e.start <== e.direction >= 0
    ensures r.1 == e.start <== e.direction < 0
  {
    if e.direction >= 0 then (e.start, e.relative) else (e.relative, e.start)
  }

  /**
   * A link of a directional relationship type is drawn the same way in the graph of either of its
   * ends: from the item listing it under the primary name to the other one.
   */
  lemma DirectionalLinkDrawnAlike(types: seq<RelationshipType>, i: int, a: string, b: string)
    requires 0 <= i < |types| && types[i].directional && types[i].primary != types[i].secondary
    requires forall j :: i < j < |types| ==>
      types[j].primary !in {types[i].primary, types[i].secondary} && types[j].secondary !in {types[i].primary, types[i].secondary}
    ensures var d := Directions(types);
      types[i].primary in d && types[i].secondary in d &&
      Endpoints(Edge(a, b, d[types[i].primary])) == (a, b) &&
      Endpoints(Edge(b, a, d[types[i].secondary])) == (a, b)
  {
    DirectionOfLastDeclaration(types, i, types[i].primary);
    DirectionOfLastDeclaration(types, i, types[i].secondary);
  }

  /** A non-directional link is drawn from whichever end's graph it appears in. */
  lemma UndirectedLinkDrawnFromStart(types: seq<RelationshipType>, i: int, a: string, b: string, n: string)
    requires 0 <= i < |types| && !types[i].directional && n in {types[i].primary, types[i].secondary}
    requires forall j :: i < j < |types| ==> types[j].primary != n && types[j].secondary != n
    ensures n in Directions(types) && Endpoints(Edge(a, b, Directions(types)[n])) == (a, b)
  {
    DirectionOfLastDeclaration(types, i, n);
  }

  // ---------------------------------------------------------------------------------------------
  // The processor

  /** `GraphProcessor`: the merged style table, fixed once built. */
  class GraphProcessor {
    var graphStyles: Styles

    ghost predicate Valid()
      reads this
    {
      "__default__" in graphStyles && "__unresolved__" in graphStyles
    }

    /** The defaults, updated by the configured `traceables_graph_styles`. */
    constructor (configured: Styles)
      ensures Valid()
      ensures graphStyles == MergedStyles(DefaultGraphStyles, configured)
    {
      var styles := DefaultGraphStyles;
      styles := styles + configured;
      graphStyles := styles;
      BaseStylesAlwaysPresent(configured);
    }

    /** `add_dot_traceable` / `add_dot_node`: copy the base style, update it, pop "textwrap". */
    method AddDotTraceable(x: Traceable) returns (r: Result<DotNode, GraphError>)
      requires Valid()
      ensures r == DotNodeOf(graphStyles, x)
    {
      var style: Style;
      if x.target.None? {
        style := graphStyles["__unresolved__"];
      } else {
        style := graphStyles["__default__"];
      }
      var category := if "category" in x.attributes then x.attributes["category"] else "";
      if category != "" {
        var extra := if category in graphStyles then graphStyles[category] else map[];
        style := style + extra;
      }
      assert style == FullStyle(graphStyles, x);
      var lineWrap := if "textwrap" in style then style["textwrap"] else Number(0);
      style := style - {"textwrap"};
      var title := Infrastructure.Title(x);
      if !IsSet(lineWrap) {
        return Success(DotNode(x.tag, Plain(title), style));
      }
      match lineWrap
      case Number(n) =>
        if n > 0 {
          r := Success(DotNode(x.tag, Wrapped(title, n), style));
        } else {
          r := Failure(BadWrapWidth(lineWrap));
        }
      case Word(_) =>
        r := Failure(BadWrapWidth(lineWrap));
    }

    /** One relationship's relatives and edges, added one by one. */
    static method AddGroup(nodes: set<string>, edges: seq<Edge>, tag: string, relatives: seq<string>, direction: int)
      returns (nodes': set<string>, edges': seq<Edge>)
      ensures nodes' == nodes + set x | x in relatives
      ensures edges' == edges + EdgeGroup(tag, relatives, direction)
    {
      nodes', edges' := nodes, edges;
      for j := 0 to |relatives|
        invariant nodes' == nodes + set x | x in relatives[..j]
        invariant edges' == edges + EdgeGroup(tag, relatives, direction)[..j]
      {
        assert relatives[..j + 1] == relatives[..j] + [relatives[j]];
        nodes' := nodes' + {relatives[j]};
        edges' := edges' + [Edge(tag, relatives[j], direction)];
      }
      assert relatives[..|relatives|] == relatives;
      assert EdgeGroup(tag, relatives, direction)[..|relatives|] == EdgeGroup(tag, relatives, direction);
    }

    /** One step of the walk: the relatives and edges of the relationship `names[i]` join the graph. */
    static method WalkStep(tag: string, names: seq<string>, relationships: map<string, set<string>>, directions: map<string, int>,
                           i: nat, nodes: set<string>, edges: seq<Edge>)
      returns (nodes': set<string>, edges': seq<Edge>)
      requires i < |names|
      requires forall k :: 0 <= k <= i ==> names[k] in relationships && names[k] in directions
      requires nodes == Nodes(tag, names[..i], relationships)
      requires edges == Edges(tag, names[..i], relationships, directions)
      ensures nodes' == Nodes(tag, names[..i + 1], relationships)
      ensures edges' == Edges(tag, names[..i + 1], relationships, directions)
    {
      var relatives := Ordering.SortedSet(relationships[names[i]]);
      NeighbourhoodStep(tag, names, relationships, directions, i);
      Ordering.SortedSetElements(relationships[names[i]]);
      nodes', edges' := AddGroup(nodes, edges, tag, relatives, directions[names[i]]);
    }

    /**
     * The walk over the start item's relationships in name order: every relationship's relatives
     * and edges, or the position of the first name without a direction.
     */
    method WalkRelationships(storage: TraceablesStorage, tag: string, relationships: map<string, set<string>>)
      returns (undeclared: Option<nat>, nodes: set<string>, edges: seq<Edge>)
      requires storage.Valid()
      ensures var names := Ordering.SortedSet(relationships.Keys); var directions := storage.relationshipDirections;
        match undeclared
        case Some(i) => i < |names| && names[i] !in directions && forall k :: 0 <= k < i ==> names[k] in directions
        case None =>
          (forall n :: n in names ==> n in directions) &&
          nodes == Nodes(tag, names, relationships) && edges == Edges(tag, names, relationships, directions)
    {
      var directions := storage.relationshipDirections;
      var names := Ordering.SortedSet(relationships.Keys);
      nodes, edges := {tag}, [];
      for i := 0 to |names|
        invariant forall k :: 0 <= k < i ==> names[k] in directions
        invariant nodes == Nodes(tag, names[..i], relationships)
        invariant edges == Edges(tag, names[..i], relationships, directions)
      {
        var direction := storage.GetRelationshipDirection(names[i]);
        if direction.Failure? {
          return Some(i), nodes, edges;
        }
        nodes, edges := WalkStep(tag, names, relationships, directions, i, nodes, edges);
      }
      assert names[..|names|] == names;
      forall n | n in names ensures n in directions {
        var k :| 0 <= k < |names| && names[k] == n;
      }
      undeclared := None;
    }

    /** The neighbourhood and edges `process_doctree` collects for one graph. */
    method BuildGraph(storage: TraceablesStorage, tag: string) returns (r: Result<Graph, GraphError>)
      requires storage.Valid()
      ensures r == NeighbourhoodOf(storage.traceables, storage.relationshipDirections, tag)
    {
      var found := storage.GetTraceableByTag(tag);
      if found.Failure? {
        return Failure(NoStart(tag));
      }
      var relationships := found.value.relationships;
      var names := Ordering.SortedSet(relationships.Keys);
      var undeclared, nodes, edges := WalkRelationships(storage, tag, relationships);
      match undeclared
      case Some(i) =>
        StopsAtUndeclared(storage.traceables, storage.relationshipDirections, tag, names, i);
        r := Failure(Undeclared(names[i]));
      case None =>
        DrawnWhenAllDeclared(storage.traceables, storage.relationshipDirections, tag, names);
        r := Success(Graph(Ordering.SortedSet(nodes), edges));
    }

    /**
     * `process_doctree`: the graph nodes of a document in order. An unknown start tag is warned about
     * and returns, leaving the document's later graphs as they are; an undeclared relationship name
     * raises a `KeyError` nothing catches, which aborts the whole build. Both end the walk here.
     */
    method ProcessGraphs(storage: TraceablesStorage, starts: seq<string>) returns (graphs: seq<Graph>, stop: Option<GraphError>)
      requires storage.Valid()
      ensures |graphs| <= |starts|
      ensures forall i :: 0 <= i < |graphs| ==>
        NeighbourhoodOf(storage.traceables, storage.relationshipDirections, starts[i]) == Success(graphs[i])
      ensures stop.None? <==> |graphs| == |starts|
      ensures stop.Some? ==>
        NeighbourhoodOf(storage.traceables, storage.relationshipDirections, starts[|graphs|]) == Failure(stop.value)
    {
      graphs := [];
      for i := 0 to |starts|
        invariant |graphs| == i
        invariant forall k :: 0 <= k < i ==>
          NeighbourhoodOf(storage.traceables, storage.relationshipDirections, starts[k]) == Success(graphs[k])
      {
        var g := BuildGraph(storage, starts[i]);
        if g.Failure? {
          return graphs, Some(g.error);
        }
        ghost var before := graphs;
        graphs := graphs + [g.value];
        forall k | 0 <= k <= i
          ensures NeighbourhoodOf(storage.traceables, storage.relationshipDirections, starts[k]) == Success(graphs[k])
        {
          if k < i {
            assert graphs[k] == before[k];
          }
        }
      }
      stop := None;
    }
  }
}
