/**
 * The traceables store and the traceable item (sphinxcontrib/traceables/infrastructure.py).
 *
 * The store keeps one item per tag: a map from tag to `Traceable`, which is what the source's
 * `traceables_dict` view of its set is. An item refers to its relatives by tag.
 */
module Infrastructure {
  import opened Wrappers
  import opened Strings

  /** A configured relationship type `(primary, secondary, directional)`. */
  datatype RelationshipType = RelationshipType(primary: string, secondary: string, directional: bool)

  /** The target node a declared traceable comes from: the fields of it that the core reads. */
  datatype TargetNode = TargetNode(docname: string, refid: string, tag: string, attributes: map<string, string>)

  /**
   * A traceable item. `target` is None for a placeholder (an item only ever referenced).
   * `relationships` maps a relationship name to the tags of the related items.
   */
  datatype Traceable = Traceable(
    tag: string,
    target: Option<TargetNode>,
    attributes: map<string, string>,
    relationships: map<string, set<string>>)

  /** The exceptions the store and the item raise. */
  datatype Error =
    | InvalidConstruction           // "Must specify only one of target_node and unresolved_tag"
    | UnknownTag(tag: string)       // KeyError of the tag lookup
    | UnknownRelationship(name: string)  // KeyError of the direction lookup
    | NotSubscriptable              // TypeError of indexing a Traceable like a node

  /** The item created for a tag that is referenced but never declared. */
  function Placeholder(tag: string): Traceable
  {
    Traceable(tag, None, map[], map[])
  }

  /**
   * `Traceable(target_node, unresolved_tag)`: exactly one of the two must be given (an empty tag
   * counts as not given, as Python's truth test has it); a new item has no relationships.
   */
  function NewTraceable(target: Option<TargetNode>, unresolvedTag: string): (r: Result<Traceable, Error>)
    ensures r.Success? <==> (target.Some? <==> unresolvedTag == "")
    ensures r.Failure? ==> r.error == InvalidConstruction
    ensures r.Success? ==> r.value.relationships == map[] && r.value.target == target
    ensures r.Success? && target.Some? ==>
      r.value.tag == target.value.tag && r.value.attributes == target.value.attributes
    ensures r.Success? && target.None? ==> r.value.tag == unresolvedTag && r.value.attributes == map[]
  {
    if target.Some? && unresolvedTag == "" then
      Success(Traceable(target.value.tag, target, target.value.attributes, map[]))
    else if unresolvedTag != "" && target.None? then
      Success(Placeholder(unresolvedTag))
    else
      Failure(InvalidConstruction)
  }

  /** `is_unresolved`: the item has no target node. */
  predicate IsUnresolved(t: Traceable)
  {
    t.target.None?
  }

  /** The item carries a usable (non-empty) "title" attribute. */
  predicate HasTitle(t: Traceable)
  {
    "title" in t.attributes && t.attributes["title"] != ""
  }

  /** `title`: the "title" attribute when it is present and non-empty, the tag otherwise. */
  function Title(t: Traceable): (r: string)
    ensures HasTitle(t) ==> r == t.attributes["title"]
    ensures !HasTitle(t) ==> r == t.tag
    ensures r == "" ==> t.tag == ""
  {
    if "title" in t.attributes && t.attributes["title"] != "" then t.attributes["title"] else t.tag
  }

  lemma PlaceholderIsUntitledAndUnresolved(tag: string)
    requires tag != ""
    ensures NewTraceable(None, tag).Success?
    ensures var t := NewTraceable(None, tag).value;
      IsUnresolved(t) && !HasTitle(t) && Title(t) == tag && t == Placeholder(tag)
  {
  }

  /** Every key of the store is the tag of the item stored under it. */
  ghost predicate KeyedByTag(traceables: map<string, Traceable>)
  {
    forall k :: k in traceables ==> traceables[k].tag == k
  }

  /** The item was declared in document `docname` (a placeholder is declared nowhere). */
  predicate DeclaredIn(t: Traceable, docname: string)
  {
    t.target.Some? && t.target.value.docname == docname
  }

  // ---------------------------------------------------------------------------------------------
  // Relationship directions

  /** The names a list of relationship types declares. */
  function DeclaredNames(types: seq<RelationshipType>): set<string>
  {
    (set t | t in types :: t.primary) + (set t | t in types :: t.secondary)
  }

  /** The direction one declaration gives the name `n`: +1 primary, -1 secondary, 0 when not directional. */
  function Sign(t: RelationshipType, n: string): int
  {
    if !t.directional then 0 else if n == t.secondary then -1 else 1
  }

  /** One step of `analyze_relationship_types`. */
  function Declare(directions: map<string, int>, t: RelationshipType): map<string, int>
  {
    if t.directional then directions[t.primary := 1][t.secondary := -1]
    else directions[t.primary := 0][t.secondary := 0]
  }

  /** The direction table built from the declarations in order; a later one overwrites an earlier one. */
  function Directions(types: seq<RelationshipType>): (r: map<string, int>)
    ensures r.Keys == DeclaredNames(types)
    ensures forall n :: n in r ==> -1 <= r[n] <= 1
  {
    if types == [] then map[]
    else
      var prefix := types[..|types| - 1];
      var last := types[|types| - 1];
      assert types == prefix + [last];
      Declare(Directions(prefix), last)
  }

  /** A name gets its direction from the last declaration that mentions it. */
  lemma {:induction false} DirectionOfLastDeclaration(types: seq<RelationshipType>, i: nat, n: string)
    requires i < |types| && (n == types[i].primary || n == types[i].secondary)
    requires forall j :: i < j < |types| ==> n != types[j].primary && n != types[j].secondary
    ensures n in Directions(types) && Directions(types)[n] == Sign(types[i], n)
  {
    var prefix := types[..|types| - 1];
    if i < |types| - 1 {
      assert prefix[i] == types[i];
      DirectionOfLastDeclaration(prefix, i, n);
    }
  }

  /** The as-written purge: line 44 indexes the Traceable itself, which raises at the first item. */
  function PurgeAsWritten(traceables: map<string, Traceable>, docname: string): (r: Result<map<string, Traceable>, Error>)
    ensures r.Success? <==> traceables == map[]
    ensures r.Failure? ==> r.error == NotSubscriptable
  {
    if traceables == map[] then Success(traceables) else Failure(NotSubscriptable)
  }

  /** The intended purge: drop every item declared in `docname`; placeholders belong to no document and stay. */
  function Purged(traceables: map<string, Traceable>, docname: string): (r: map<string, Traceable>)
    ensures forall k :: k in r ==> k in traceables && !DeclaredIn(r[k], docname)
    ensures forall k :: k in traceables && !DeclaredIn(traceables[k], docname) ==> k in r && r[k] == traceables[k]
    ensures forall k :: k in traceables && IsUnresolved(traceables[k]) ==> k in r
  {
    map k | k in traceables && !DeclaredIn(traceables[k], docname) :: traceables[k]
  }

  /** On a store holding one item of document "index", the as-written purge fails; the intended one empties it. */
  lemma PurgeFinding(t: Traceable)
    requires DeclaredIn(t, "index")
    ensures PurgeAsWritten(map[t.tag := t], "index").Failure?
    ensures Purged(map[t.tag := t], "index") == map[]
  {
    var m := map[t.tag := t];
    assert t.tag in m;
    assert forall k :: k !in Purged(m, "index");
  }

  // ---------------------------------------------------------------------------------------------
  // The store

  class TraceablesStorage {
    /** The configured `traceables_relationships`. */
    var relationshipTypes: seq<RelationshipType>
    var relationshipDirections: map<string, int>
    /** The build's items, by tag. */
    var traceables: map<string, Traceable>

    ghost predicate Valid()
      reads this
    {
      relationshipDirections == Directions(relationshipTypes) && KeyedByTag(traceables)
    }

    /**
     * A store over a fresh build environment with the given relationship configuration: the
     * environment holds no item set yet, so the store starts empty.
     */
    constructor (types: seq<RelationshipType>)
      ensures Valid()
      ensures relationshipTypes == types && traceables == map[]
    {
      relationshipTypes := types;
      relationshipDirections := map[];
      traceables := map[];
      new;
      AnalyzeRelationshipTypes();
    }

    /** `analyze_relationship_types`: rebuild the direction table from the configuration. */
    method AnalyzeRelationshipTypes()
      modifies this`relationshipDirections
      ensures relationshipDirections == Directions(relationshipTypes)
    {
      var directions: map<string, int> := map[];
      for i := 0 to |relationshipTypes|
        invariant directions == Directions(relationshipTypes[..i])
      {
        var t := relationshipTypes[i];
        assert relationshipTypes[..i + 1][..i] == relationshipTypes[..i];
        if t.directional {
          directions := directions[t.primary := 1];
          directions := directions[t.secondary := -1];
        } else {
          directions := directions[t.primary := 0];
          directions := directions[t.secondary := 0];
        }
      }
      assert relationshipTypes[..|relationshipTypes|] == relationshipTypes;
      relationshipDirections := directions;
    }

    /** `get_relationship_direction`: an undeclared name is an error. */
    function GetRelationshipDirection(name: string): (r: Result<int, Error>)
      reads this
      requires Valid()
      ensures r.Success? <==> name in DeclaredNames(relationshipTypes)
      ensures r.Success? ==> -1 <= r.value <= 1 && r.value == Directions(relationshipTypes)[name]
      ensures r.Failure? ==> r.error == UnknownRelationship(name)
    {
      if name in relationshipDirections then Success(relationshipDirections[name])
      else Failure(UnknownRelationship(name))
    }

    /** `add_traceable`: the item is stored under its tag (an item with the same tag is replaced). */
    method AddTraceable(t: Traceable)
      requires Valid()
      modifies this`traceables
      ensures Valid()
      ensures traceables == old(traceables)[t.tag := t]
    {
      traceables := traceables[t.tag := t];
    }

    /** `get_traceable_by_tag`: a tag not in the store is an error. */
    function GetTraceableByTag(tag: string): (r: Result<Traceable, Error>)
      reads this
      requires Valid()
      ensures r.Success? <==> tag in traceables
      ensures r.Success? ==> r.value == traceables[tag] && r.value.tag == tag
      ensures r.Failure? ==> r.error == UnknownTag(tag)
    {
      if tag in traceables then Success(traceables[tag]) else Failure(UnknownTag(tag))
    }

    /**
     * `get_or_create_traceable_by_tag`: the stored item, or a new placeholder added to the store.
     * The empty tag cannot be made into a placeholder.
     */
    method GetOrCreateTraceableByTag(tag: string) returns (r: Result<Traceable, Error>)
      requires Valid()
      modifies this`traceables
      ensures Valid()
      ensures tag in old(traceables) ==> r == Success(old(traceables)[tag]) && traceables == old(traceables)
      ensures tag !in old(traceables) && tag != "" ==>
        r == Success(Placeholder(tag)) && traceables == old(traceables)[tag := Placeholder(tag)]
      ensures tag !in old(traceables) && tag == "" ==>
        r == Failure(InvalidConstruction) && traceables == old(traceables)
    {
      var found := GetTraceableByTag(tag);
      if found.Failure? {
        r := NewTraceable(None, tag);
        if r.Success? {
          AddTraceable(r.value);
        }
      } else {
        r := found;
      }
    }

    /** `purge`, as intended: remove, one at a time, every item declared in `docname`. */
    method Purge(docname: string)
      requires Valid()
      modifies this`traceables
      ensures Valid()
      ensures traceables == Purged(old(traceables), docname)
    {
      var candidates := traceables.Keys;
      while candidates != {}
        invariant candidates <= old(traceables).Keys
        invariant traceables == map k | k in old(traceables) && (k in candidates || !DeclaredIn(old(traceables)[k], docname)) :: old(traceables)[k]
        invariant Valid()
        decreases candidates
      {
        var tag :| tag in candidates;
        if DeclaredIn(traceables[tag], docname) {
          traceables := traceables - {tag};
        }
        candidates := candidates - {tag};
      }
    }
  }
}
