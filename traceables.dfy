/**
 * Relationship resolution, attribute field lists, cross-references and the default configuration
 * (sphinxcontrib/traceables/traceables.py).
 */
module Traceables {
  import opened Wrappers
  import Strings
  import Ordering
  import opened Infrastructure

  // ---------------------------------------------------------------------------------------------
  // The relationship index: tag -> relationship name -> related tags

  type Index = map<string, map<string, set<string>>>

  /** A link `(tag, name, relative)`: `relative` is related to `tag` under `name`. */
  type Link = (string, string, string)

  /** The links an index records. */
  function Links(index: Index): set<Link>
  {
    set a, n, b | a in index && n in index[a] && b in index[a][n] :: (a, n, b)
  }

  /** The tags that have links: the keys of the index. */
  function Sources(links: set<Link>): set<string>
  {
    set l | l in links :: l.0
  }

  /** The relationship names `tag` has links under. */
  function NamesFrom(links: set<Link>, tag: string): set<string>
  {
    set l | l in links && l.0 == tag :: l.1
  }

  /** The tags related to `tag` under `name`. */
  function Relatives(links: set<Link>, tag: string, name: string): set<string>
  {
    set l | l in links && l.0 == tag && l.1 == name :: l.2
  }

  /** The relationships of `tag` that a set of links describes. */
  function LinksFrom(links: set<Link>, tag: string): map<string, set<string>>
  {
    map n | n in NamesFrom(links, tag) :: Relatives(links, tag, n)
  }

  /** The index never holds an empty entry: entries are only created when a link is added. */
  ghost predicate NoEmptyEntries(index: Index)
  {
    forall a :: a in index ==> index[a] != map[] && forall n :: n in index[a] ==> index[a][n] != {}
  }

  /** `setdefault(a, {}).setdefault(n, set()).add(b)` on a nested dictionary. */
  function AddLink(index: Index, a: string, n: string, b: string): (r: Index)
    ensures r.Keys == index.Keys + {a}
    ensures NoEmptyEntries(index) ==> NoEmptyEntries(r)
  {
    var level1 := if a in index then index[a] else map[];
    var level2 := if n in level1 then level1[n] else {};
    index[a := level1[n := level2 + {b}]]
  }

  /** Adding to the nested dictionary adds exactly the one link. */
  lemma AddLinkLinks(index: Index, a: string, n: string, b: string)
    ensures Links(AddLink(index, a, n, b)) == Links(index) + {(a, n, b)}
  {
    var r := AddLink(index, a, n, b);
    forall l | l in Links(r) ensures l in Links(index) + {(a, n, b)} {
      var a', n', b' :| a' in r && n' in r[a'] && b' in r[a'][n'] && l == (a', n', b');
      if a' != a || n' != n || b' != b {
        assert a' in index && n' in index[a'] && b' in index[a'][n'];
      }
    }
    forall l | l in Links(index) + {(a, n, b)} ensures l in Links(r) {
      if l != (a, n, b) {
        var a', n', b' :| a' in index && n' in index[a'] && b' in index[a'][n'] && l == (a', n', b');
        assert a' in r && n' in r[a'] && b' in r[a'][n'];
      } else {
        assert a in r && n in r[a] && b in r[a][n];
      }
    }
  }

  /** `_add_relationship`: record `tag2` under `tag1`'s primary name and `tag1` under `tag2`'s secondary name. */
  function AddRelationship(index: Index, tag1: string, tag2: string, primary: string, secondary: string): (r: Index)
    ensures r.Keys == index.Keys + {tag1, tag2}
  {
    AddLink(AddLink(index, tag1, primary, tag2), tag2, secondary, tag1)
  }

  /** `_add_relationship` adds exactly the link and its mirror image. */
  lemma AddRelationshipLinks(index: Index, tag1: string, tag2: string, primary: string, secondary: string)
    ensures var r := AddRelationship(index, tag1, tag2, primary, secondary);
      Links(r) == Links(index) + {(tag1, primary, tag2), (tag2, secondary, tag1)} &&
      (NoEmptyEntries(index) ==> NoEmptyEntries(r))
  {
    AddLinkLinks(index, tag1, primary, tag2);
    AddLinkLinks(AddLink(index, tag1, primary, tag2), tag2, secondary, tag1);
  }

  // ---------------------------------------------------------------------------------------------
  // What the items declare

  /** The tags an item lists in its attribute `name`: none when the item lacks the attribute. */
  function Mentions(x: Traceable, name: string): (r: seq<string>)
    ensures forall m :: m in r ==> m != ""
  {
    if name in x.attributes then Strings.SplitCommaList(x.attributes[name]) else []
  }

  /**
   * The links one attribute listing declares. Listing `m` under the primary name relates `m` to the
   * item as primary and the item to `m` as secondary; listing it under the secondary name does the
   * opposite.
   */
  function ListingLinks(tag: string, listed: seq<string>, t: RelationshipType, asPrimary: bool): set<Link>
  {
    if asPrimary then (set m | m in listed :: (tag, t.primary, m)) + (set m | m in listed :: (m, t.secondary, tag))
    else (set m | m in listed :: (m, t.primary, tag)) + (set m | m in listed :: (tag, t.secondary, m))
  }

  /** The links one item declares for one relationship type. */
  function ItemLinks(x: Traceable, t: RelationshipType): set<Link>
  {
    ListingLinks(x.tag, Mentions(x, t.primary), t, true) + ListingLinks(x.tag, Mentions(x, t.secondary), t, false)
  }

  /** Every link the items of the store declare for the configured relationship types. */
  function Declared(store: map<string, Traceable>, types: seq<RelationshipType>): set<Link>
  {
    set i, k, l | 0 <= i < |types| && k in store && l in ItemLinks(store[k], types[i]) :: l
  }

  // ---------------------------------------------------------------------------------------------
  // The index, built the way the resolution pass builds it

  /** Adding the links of one listing, one listed tag at a time. */
  function IndexListing(index: Index, tag: string, listed: seq<string>, t: RelationshipType, asPrimary: bool): Index
    decreases |listed|
  {
    if listed == [] then index
    else
      var before := IndexListing(index, tag, listed[..|listed| - 1], t, asPrimary);
      var m := listed[|listed| - 1];
      if asPrimary then AddRelationship(before, tag, m, t.primary, t.secondary)
      else AddRelationship(before, m, tag, t.primary, t.secondary)
  }

  lemma ListingLinksAppend(tag: string, listed: seq<string>, m: string, t: RelationshipType, asPrimary: bool)
    ensures ListingLinks(tag, listed + [m], t, asPrimary) == ListingLinks(tag, listed, t, asPrimary) +
      (if asPrimary then {(tag, t.primary, m), (m, t.secondary, tag)} else {(m, t.primary, tag), (tag, t.secondary, m)})
  {
    var extended := listed + [m];
    assert forall x :: x in extended <==> x in listed || x == m;
  }

  /** One listing adds exactly the links it declares. */
  lemma {:induction false} IndexListingLinks(index: Index, tag: string, listed: seq<string>, t: RelationshipType, asPrimary: bool)
    ensures Links(IndexListing(index, tag, listed, t, asPrimary)) == Links(index) + ListingLinks(tag, listed, t, asPrimary)
    decreases |listed|
  {
    if listed != [] {
      var prefix := listed[..|listed| - 1];
      var m := listed[|listed| - 1];
      IndexListingLinks(index, tag, prefix, t, asPrimary);
      ListingLinksAppend(tag, prefix, m, t, asPrimary);
      assert listed == prefix + [m];
      var before := IndexListing(index, tag, prefix, t, asPrimary);
      if asPrimary {
        AddRelationshipLinks(before, tag, m, t.primary, t.secondary);
      } else {
        AddRelationshipLinks(before, m, tag, t.primary, t.secondary);
      }
    }
  }

  lemma {:induction false} IndexListingNoEmptyEntries(index: Index, tag: string, listed: seq<string>, t: RelationshipType, asPrimary: bool)
    requires NoEmptyEntries(index)
    ensures NoEmptyEntries(IndexListing(index, tag, listed, t, asPrimary))
    decreases |listed|
  {
    if listed != [] {
      var prefix := listed[..|listed| - 1];
      var m := listed[|listed| - 1];
      IndexListingNoEmptyEntries(index, tag, prefix, t, asPrimary);
      var before := IndexListing(index, tag, prefix, t, asPrimary);
      if asPrimary {
        AddRelationshipLinks(before, tag, m, t.primary, t.secondary);
      } else {
        AddRelationshipLinks(before, m, tag, t.primary, t.secondary);
      }
    }
  }

  /** One item's primary attribute, then its secondary attribute. */
  function IndexItem(index: Index, x: Traceable, t: RelationshipType): Index
  {
    IndexListing(IndexListing(index, x.tag, Mentions(x, t.primary), t, true), x.tag, Mentions(x, t.secondary), t, false)
  }

  /** One item adds exactly the links it declares. */
  lemma IndexItemLinks(index: Index, x: Traceable, t: RelationshipType)
    ensures var r := IndexItem(index, x, t);
      Links(r) == Links(index) + ItemLinks(x, t) && (NoEmptyEntries(index) ==> NoEmptyEntries(r))
  {
    var middle := IndexListing(index, x.tag, Mentions(x, t.primary), t, true);
    IndexListingLinks(index, x.tag, Mentions(x, t.primary), t, true);
    IndexListingLinks(middle, x.tag, Mentions(x, t.secondary), t, false);
    if NoEmptyEntries(index) {
      IndexListingNoEmptyEntries(index, x.tag, Mentions(x, t.primary), t, true);
      IndexListingNoEmptyEntries(middle, x.tag, Mentions(x, t.secondary), t, false);
    }
  }

  /** The links of the items in `tags` for one relationship type. */
  function TypeLinks(store: map<string, Traceable>, tags: seq<string>, t: RelationshipType): set<Link>
    requires forall k :: k in tags ==> k in store
  {
    set k, l | k in tags && l in ItemLinks(store[k], t) :: l
  }

  /** All items, in the order of `tags`, for one relationship type. */
  function IndexType(index: Index, store: map<string, Traceable>, tags: seq<string>, t: RelationshipType): Index
    requires forall k :: k in tags ==> k in store
    decreases |tags|
  {
    if tags == [] then index
    else IndexItem(IndexType(index, store, tags[..|tags| - 1], t), store[tags[|tags| - 1]], t)
  }

  /** One relationship type adds exactly the links the items declare for it. */
  lemma {:induction false} IndexTypeLinks(index: Index, store: map<string, Traceable>, tags: seq<string>, t: RelationshipType)
    requires forall k :: k in tags ==> k in store
    ensures var r := IndexType(index, store, tags, t);
      Links(r) == Links(index) + TypeLinks(store, tags, t) && (NoEmptyEntries(index) ==> NoEmptyEntries(r))
    decreases |tags|
  {
    if tags != [] {
      var prefix := tags[..|tags| - 1];
      var k := tags[|tags| - 1];
      assert tags == prefix + [k];
      IndexTypeLinks(index, store, prefix, t);
      IndexItemLinks(IndexType(index, store, prefix, t), store[k], t);
      TypeLinksSnoc(store, prefix, k, t);
    }
  }

  /** The links of one more item are those of the item added to the rest. */
  lemma TypeLinksSnoc(store: map<string, Traceable>, tags: seq<string>, k: string, t: RelationshipType)
    requires forall j :: j in tags ==> j in store
    requires k in store
    ensures TypeLinks(store, tags + [k], t) == TypeLinks(store, tags, t) + ItemLinks(store[k], t)
  {
    var all := tags + [k];
    forall l | l in TypeLinks(store, all, t) ensures l in TypeLinks(store, tags, t) + ItemLinks(store[k], t) {
      var j :| j in all && l in ItemLinks(store[j], t);
      if j != k {
        assert j in tags;
      }
    }
    forall l | l in TypeLinks(store, tags, t) ensures l in TypeLinks(store, all, t) {
      var j :| j in tags && l in ItemLinks(store[j], t);
      assert j in all;
    }
    assert k in all;
  }

  /** The links of the items in `tags` for every type in `types`. */
  function TypesLinks(store: map<string, Traceable>, tags: seq<string>, types: seq<RelationshipType>): set<Link>
    requires forall k :: k in tags ==> k in store
  {
    set i, k, l | 0 <= i < |types| && k in tags && l in ItemLinks(store[k], types[i]) :: l
  }

  lemma TypesLinksAppend(store: map<string, Traceable>, tags: seq<string>, types: seq<RelationshipType>, t: RelationshipType)
    requires forall k :: k in tags ==> k in store
    ensures TypesLinks(store, tags, types + [t]) == TypesLinks(store, tags, types) + TypeLinks(store, tags, t)
  {
    var extended := types + [t];
    forall l | l in TypesLinks(store, tags, extended)
      ensures l in TypesLinks(store, tags, types) + TypeLinks(store, tags, t)
    {
      var i, k :| 0 <= i < |extended| && k in tags && l in ItemLinks(store[k], extended[i]);
      if i < |types| {
        assert extended[i] == types[i];
      }
    }
    forall l | l in TypesLinks(store, tags, types) + TypeLinks(store, tags, t)
      ensures l in TypesLinks(store, tags, extended)
    {
      if l in TypeLinks(store, tags, t) {
        var k :| k in tags && l in ItemLinks(store[k], t);
        assert extended[|types|] == t;
      } else {
        var i, k :| 0 <= i < |types| && k in tags && l in ItemLinks(store[k], types[i]);
        assert extended[i] == types[i];
      }
    }
  }

  /** The whole first phase of the pass: every relationship type in turn, over every item. */
  function BuildIndex(store: map<string, Traceable>, tags: seq<string>, types: seq<RelationshipType>): Index
    requires forall k :: k in tags ==> k in store
    decreases |types|
  {
    if types == [] then map[]
    else IndexType(BuildIndex(store, tags, types[..|types| - 1]), store, tags, types[|types| - 1])
  }

  /** The first phase records exactly the links the items declare, and no empty entry. */
  lemma {:induction false} BuildIndexLinks(store: map<string, Traceable>, tags: seq<string>, types: seq<RelationshipType>)
    requires forall k :: k in tags ==> k in store
    ensures Links(BuildIndex(store, tags, types)) == TypesLinks(store, tags, types)
    ensures NoEmptyEntries(BuildIndex(store, tags, types))
    decreases |types|
  {
    if types != [] {
      var prefix := types[..|types| - 1];
      var t := types[|types| - 1];
      assert types == prefix + [t];
      BuildIndexLinks(store, tags, prefix);
      IndexTypeLinks(BuildIndex(store, tags, prefix), store, tags, t);
      TypesLinksAppend(store, tags, prefix, t);
    }
  }

  /** A store whose keys are exactly the given tags is what the pass iterates over. */
  lemma {:induction false} BuildIndexDeclared(store: map<string, Traceable>, tags: seq<string>, types: seq<RelationshipType>)
    requires forall k :: k in tags <==> k in store
    ensures Links(BuildIndex(store, tags, types)) == Declared(store, types)
    ensures NoEmptyEntries(BuildIndex(store, tags, types))
  {
    BuildIndexLinks(store, tags, types);
    assert TypesLinks(store, tags, types) == Declared(store, types);
  }

  /** An index without empty entries is determined by its links. */
  lemma IndexIsItsLinks(index: Index)
    requires NoEmptyEntries(index)
    ensures index.Keys == Sources(Links(index))
    ensures forall k :: k in index ==> index[k] == LinksFrom(Links(index), k)
  {
    var links := Links(index);
    forall k | k in index ensures k in Sources(links) {
      var n :| n in index[k];
      var b :| b in index[k][n];
      assert (k, n, b) in links;
    }
    forall k | k in index ensures index[k] == LinksFrom(links, k) {
      EntryIsItsLinks(index, k);
    }
  }

  /** One entry of an index without empty entries is the links from its key. */
  lemma EntryIsItsLinks(index: Index, k: string)
    requires NoEmptyEntries(index) && k in index
    ensures index[k] == LinksFrom(Links(index), k)
  {
    var links := Links(index);
    forall n | n in index[k] ensures n in NamesFrom(links, k) && index[k][n] == Relatives(links, k, n) {
      var b :| b in index[k][n];
      assert (k, n, b) in links;
      forall b' | b' in index[k][n] ensures b' in Relatives(links, k, n) {
        assert (k, n, b') in links;
      }
    }
  }

  // ---------------------------------------------------------------------------------------------
  // The outcome of resolution

  /** The relationships the pass gives an item: each name it has links under is overwritten with them. */
  function Relate(x: Traceable, links: set<Link>): Traceable
  {
    x.(relationships := x.relationships + LinksFrom(links, x.tag))
  }

  /**
   * The store after the resolution pass: every tag that has a declared link gets an item (a
   * placeholder when it was never declared), and every item's relationships are overwritten,
   * name by name, with the links declared for it.
   */
  function Resolved(store: map<string, Traceable>, types: seq<RelationshipType>): (r: map<string, Traceable>)
    ensures r.Keys == store.Keys + Sources(Declared(store, types))
  {
    ResolvedWith(store, Declared(store, types))
  }

  /** The resolution pass for a given set of links. */
  function ResolvedWith(store: map<string, Traceable>, links: set<Link>): (r: map<string, Traceable>)
    ensures r.Keys == store.Keys + Sources(links)
  {
    map k | k in store.Keys + Sources(links) :: Relate(if k in store then store[k] else Placeholder(k), links)
  }

  /** A declared link ends up in the relationships of the item it starts from. */
  lemma LinkIsRecorded(store: map<string, Traceable>, types: seq<RelationshipType>, a: string, n: string, b: string)
    requires KeyedByTag(store)
    requires (a, n, b) in Declared(store, types)
    ensures var r := Resolved(store, types);
      a in r && n in r[a].relationships && b in r[a].relationships[n]
  {
    var links := Declared(store, types);
    assert a in Sources(links);
    ResolvedAt(store, types, a);
    var x := if a in store then store[a] else Placeholder(a);
    assert x.tag == a;
    assert n in NamesFrom(links, a);
    assert b in Relatives(links, a, n);
    assert LinksFrom(links, a)[n] == Relatives(links, a, n);
  }

  /**
   * Symmetric closure, primary side: when item `k` lists `m` under a declared type's primary name,
   * `m` is among `k`'s relatives under that name and `k` among `m`'s relatives under the secondary name.
   */
  lemma PrimaryListingLinksBothWays(store: map<string, Traceable>, types: seq<RelationshipType>, i: int, k: string, m: string)
    requires KeyedByTag(store)
    requires 0 <= i < |types| && k in store && m in Mentions(store[k], types[i].primary)
    ensures var r := Resolved(store, types); var t := types[i];
      k in r && m in r &&
      t.primary in r[k].relationships && m in r[k].relationships[t.primary] &&
      t.secondary in r[m].relationships && k in r[m].relationships[t.secondary]
  {
    var t := types[i];
    assert (k, t.primary, m) in ItemLinks(store[k], t);
    assert (m, t.secondary, k) in ItemLinks(store[k], t);
    LinkIsRecorded(store, types, k, t.primary, m);
    LinkIsRecorded(store, types, m, t.secondary, k);
  }

  /**
   * Symmetric closure, secondary side: when item `k` lists `m` under a declared type's secondary
   * name, `k` is among `m`'s relatives under the primary name and `m` among `k`'s under the secondary.
   */
  lemma SecondaryListingLinksBothWays(store: map<string, Traceable>, types: seq<RelationshipType>, i: int, k: string, m: string)
    requires KeyedByTag(store)
    requires 0 <= i < |types| && k in store && m in Mentions(store[k], types[i].secondary)
    ensures var r := Resolved(store, types); var t := types[i];
      k in r && m in r &&
      t.primary in r[m].relationships && k in r[m].relationships[t.primary] &&
      t.secondary in r[k].relationships && m in r[k].relationships[t.secondary]
  {
    var t := types[i];
    assert (m, t.primary, k) in ItemLinks(store[k], t);
    assert (k, t.secondary, m) in ItemLinks(store[k], t);
    LinkIsRecorded(store, types, m, t.primary, k);
    LinkIsRecorded(store, types, k, t.secondary, m);
  }

  /** Every declared link has a mirror image, so every related tag is itself an item after the pass. */
  lemma DeclaredLinksAreMirrored(store: map<string, Traceable>, types: seq<RelationshipType>, a: string, n: string, b: string)
    requires (a, n, b) in Declared(store, types)
    ensures exists n' :: (b, n', a) in Declared(store, types)
  {
    var i, k :| 0 <= i < |types| && k in store && (a, n, b) in ItemLinks(store[k], types[i]);
    var t := types[i];
    if (a, n, b) in ListingLinks(store[k].tag, Mentions(store[k], t.primary), t, true) {
      if a == store[k].tag && n == t.primary {
        assert (b, t.secondary, a) in ItemLinks(store[k], t);
      } else {
        assert (b, t.primary, a) in ItemLinks(store[k], t);
      }
    } else {
      if a == store[k].tag && n == t.secondary {
        assert (b, t.primary, a) in ItemLinks(store[k], t);
      } else {
        assert (b, t.secondary, a) in ItemLinks(store[k], t);
      }
    }
  }

  /**
   * Every tag listed under a declared name exists after the pass; one that no item declares is an
   * unresolved placeholder without attributes.
   */
  lemma ListedTagsExist(store: map<string, Traceable>, types: seq<RelationshipType>, i: int, k: string, name: string, m: string)
    requires KeyedByTag(store)
    requires 0 <= i < |types| && k in store && (name == types[i].primary || name == types[i].secondary)
    requires m in Mentions(store[k], name)
    ensures var r := Resolved(store, types);
      m in r && (m !in store ==> IsUnresolved(r[m]) && r[m].attributes == map[] && r[m].tag == m)
  {
    if name == types[i].primary {
      PrimaryListingLinksBothWays(store, types, i, k, m);
    } else {
      SecondaryListingLinksBothWays(store, types, i, k, m);
    }
  }

  /**
   * The pass keeps every item with its tag, target and attributes, and leaves every relationship name
   * it has no links for as it was.
   */
  lemma UnlinkedNamesUntouched(store: map<string, Traceable>, types: seq<RelationshipType>, k: string, n: string)
    requires KeyedByTag(store)
    requires k in store && n !in NamesFrom(Declared(store, types), k)
    ensures var r := Resolved(store, types);
      k in r && r[k].tag == store[k].tag && r[k].target == store[k].target &&
      r[k].attributes == store[k].attributes &&
      (n in r[k].relationships <==> n in store[k].relationships) &&
      (n in store[k].relationships ==> r[k].relationships[n] == store[k].relationships[n])
  {
  }

  /** A relationship the pass writes holds exactly the relatives declared for it, each once. */
  lemma LinkedNamesOverwritten(store: map<string, Traceable>, types: seq<RelationshipType>, k: string, n: string)
    requires KeyedByTag(store)
    requires k in store && n in NamesFrom(Declared(store, types), k)
    ensures var r := Resolved(store, types);
      k in r && n in r[k].relationships &&
      forall b :: b in r[k].relationships[n] <==> (k, n, b) in Declared(store, types)
  {
  }

  /** The resolved item keeps the tag, target and attributes it had, or is a fresh placeholder. */
  lemma ResolvedItem(store: map<string, Traceable>, types: seq<RelationshipType>, k: string)
    requires k in Resolved(store, types)
    ensures var x := Resolved(store, types)[k];
      var base := if k in store then store[k] else Placeholder(k);
      x.tag == base.tag && x.target == base.target && x.attributes == base.attributes
  {
  }

  /** The links a resolved item declares are those of the item it came from; a placeholder declares none. */
  lemma ResolvedItemLinks(store: map<string, Traceable>, types: seq<RelationshipType>, k: string, t: RelationshipType)
    requires k in Resolved(store, types)
    ensures ItemLinks(Resolved(store, types)[k], t) == if k in store then ItemLinks(store[k], t) else {}
  {
    ResolvedItem(store, types, k);
  }

  /** The pass does not change what the items declare: placeholders declare nothing. */
  lemma {:induction false} ResolvedDeclaresTheSame(store: map<string, Traceable>, types: seq<RelationshipType>)
    ensures Declared(Resolved(store, types), types) == Declared(store, types)
  {
    var r := Resolved(store, types);
    forall l | l in Declared(r, types) ensures l in Declared(store, types) {
      var i, k :| 0 <= i < |types| && k in r && l in ItemLinks(r[k], types[i]);
      ResolvedItemLinks(store, types, k, types[i]);
    }
    forall l | l in Declared(store, types) ensures l in Declared(r, types) {
      var i, k :| 0 <= i < |types| && k in store && l in ItemLinks(store[k], types[i]);
      ResolvedItemLinks(store, types, k, types[i]);
    }
  }

  lemma RelateIdempotent(x: Traceable, links: set<Link>)
    ensures Relate(Relate(x, links), links) == Relate(x, links)
  {
    var once := x.relationships + LinksFrom(links, x.tag);
    assert once + LinksFrom(links, x.tag) == once;
  }

  lemma ResolvedAt(store: map<string, Traceable>, types: seq<RelationshipType>, k: string)
    requires k in Resolved(store, types)
    ensures Resolved(store, types)[k] == Relate(if k in store then store[k] else Placeholder(k), Declared(store, types))
  {
  }

  /** For fixed links, resolving a resolved store once more changes nothing. */
  lemma ResolvedWithIdempotent(store: map<string, Traceable>, links: set<Link>)
    ensures ResolvedWith(ResolvedWith(store, links), links) == ResolvedWith(store, links)
  {
    var r := ResolvedWith(store, links);
    var r2 := ResolvedWith(r, links);
    assert r2.Keys == r.Keys;
    forall k | k in r ensures r2[k] == r[k] {
      var base := if k in store then store[k] else Placeholder(k);
      assert r[k] == Relate(base, links);
      RelateIdempotent(base, links);
    }
  }

  /** Resolving an already resolved store changes nothing: the index is rebuilt from scratch each time. */
  lemma {:induction false} ResolvedIdempotent(store: map<string, Traceable>, types: seq<RelationshipType>)
    requires KeyedByTag(store)
    ensures Resolved(Resolved(store, types), types) == Resolved(store, types)
  {
    ResolvedDeclaresTheSame(store, types);
    ResolvedWithIdempotent(store, Declared(store, types));
  }



  // ---------------------------------------------------------------------------------------------
  // The resolution pass (`RelationshipsProcessor.process_doctree`)

  /** The tags collected so far: every index key, each either an item or a listed (non-empty) tag. */
  ghost predicate TagsCollected(store: map<string, Traceable>, relationships: Index, allTags: set<string>)
  {
    relationships.Keys <= allTags <= store.Keys + relationships.Keys &&
    forall tag :: tag in allTags && tag !in store ==> tag != ""
  }

  /** The innermost loop: one listing of one item, one listed tag at a time. */
  method AddListedTags(store: map<string, Traceable>, index: Index, tags: set<string>,
                       x: Traceable, listed: seq<string>, t: RelationshipType, asPrimary: bool)
    returns (relationships: Index, allTags: set<string>)
    requires x.tag in store && x.tag in tags && TagsCollected(store, index, tags)
    requires forall m :: m in listed ==> m != ""
    ensures relationships == IndexListing(index, x.tag, listed, t, asPrimary)
    ensures TagsCollected(store, relationships, allTags) && tags <= allTags
  {
    relationships, allTags := index, tags;
    for k := 0 to |listed|
      invariant relationships == IndexListing(index, x.tag, listed[..k], t, asPrimary)
      invariant TagsCollected(store, relationships, allTags) && tags <= allTags
    {
      assert listed[..k + 1][..k] == listed[..k];
      if asPrimary {
        relationships := AddRelationship(relationships, x.tag, listed[k], t.primary, t.secondary);
      } else {
        relationships := AddRelationship(relationships, listed[k], x.tag, t.primary, t.secondary);
      }
      assert listed[k] in listed;
      allTags := allTags + {listed[k]};
    }
    assert listed[..|listed|] == listed;
  }

  /** One item of the middle loop: the item's tag, its primary listing, then its secondary listing. */
  method AddItemLinks(store: map<string, Traceable>, index: Index, tags: set<string>, x: Traceable, t: RelationshipType)
    returns (relationships: Index, allTags: set<string>)
    requires x.tag in store && TagsCollected(store, index, tags)
    ensures relationships == IndexItem(index, x, t)
    ensures TagsCollected(store, relationships, allTags) && tags <= allTags
  {
    allTags := tags + {x.tag};
    relationships := index;
    if t.primary in x.attributes {
      relationships, allTags := AddListedTags(store, relationships, allTags, x,
                                              Strings.SplitCommaList(x.attributes[t.primary]), t, true);
    }
    if t.secondary in x.attributes {
      relationships, allTags := AddListedTags(store, relationships, allTags, x,
                                              Strings.SplitCommaList(x.attributes[t.secondary]), t, false);
    }
  }

  /** The middle loop: every item, in the order of `items`. */
  method AddTypeLinks(store: map<string, Traceable>, index: Index, tags: set<string>, items: seq<string>, t: RelationshipType)
    returns (relationships: Index, allTags: set<string>)
    requires KeyedByTag(store) && forall k :: k in items ==> k in store
    requires TagsCollected(store, index, tags)
    ensures relationships == IndexType(index, store, items, t)
    ensures TagsCollected(store, relationships, allTags) && tags <= allTags
  {
    relationships, allTags := index, tags;
    for j := 0 to |items|
      invariant relationships == IndexType(index, store, items[..j], t)
      invariant TagsCollected(store, relationships, allTags) && tags <= allTags
    {
      assert items[..j + 1][..j] == items[..j];
      relationships, allTags := AddItemLinks(store, relationships, allTags, store[items[j]], t);
    }
    assert items[..|items|] == items;
  }

  /**
   * First phase: every relationship type in turn, over every item, adds the links of the item's
   * primary and secondary attributes to a fresh index, and collects every tag seen.
   */
  method BuildRelationshipIndex(store: map<string, Traceable>, types: seq<RelationshipType>)
    returns (relationships: Index, allTags: set<string>)
    requires KeyedByTag(store)
    ensures Links(relationships) == Declared(store, types)
    ensures NoEmptyEntries(relationships)
    ensures TagsCollected(store, relationships, allTags)
  {
    var tags := Ordering.SortedSet(store.Keys);
    relationships := map[];
    allTags := {};
    for i := 0 to |types|
      invariant relationships == BuildIndex(store, tags, types[..i])
      invariant TagsCollected(store, relationships, allTags)
    {
      assert types[..i + 1][..i] == types[..i];
      relationships, allTags := AddTypeLinks(store, relationships, allTags, tags, types[i]);
    }
    assert types[..|types|] == types;
    BuildIndexDeclared(store, tags, types);
  }

  /** Second phase: a placeholder for every collected tag that has no item yet. */
  method AddPlaceholders(storage: TraceablesStorage, allTags: set<string>)
    requires storage.Valid()
    requires forall tag :: tag in allTags && tag !in storage.traceables ==> tag != ""
    modifies storage`traceables
    ensures storage.Valid()
    ensures storage.traceables == map k | k in old(storage.traceables).Keys + allTags ::
      if k in old(storage.traceables) then old(storage.traceables)[k] else Placeholder(k)
  {
    var pending := allTags;
    while pending != {}
      invariant pending <= allTags
      invariant storage.Valid()
      invariant storage.traceables == map k | k in old(storage.traceables).Keys + (allTags - pending) ::
        if k in old(storage.traceables) then old(storage.traceables)[k] else Placeholder(k)
      decreases pending
    {
      var tag :| tag in pending;
      var _ := storage.GetOrCreateTraceableByTag(tag);
      pending := pending - {tag};
    }
  }

  /** The innermost loop of the third phase: look every related tag up in the store. */
  method CollectRelatives(storage: TraceablesStorage, tags: set<string>) returns (relatives: set<string>)
    requires storage.Valid() && tags <= storage.traceables.Keys
    ensures relatives == tags
    ensures forall tag :: tag in relatives ==> tag in storage.traceables
  {
    relatives := {};
    var pending := tags;
    while pending != {}
      invariant pending <= tags && relatives == tags - pending
      decreases pending
    {
      var tag :| tag in pending;
      var relative := storage.GetTraceableByTag(tag);
      relatives := relatives + {relative.value.tag};
      pending := pending - {tag};
    }
  }

  /** The middle loop of the third phase: each indexed name is set to its (looked up) relatives. */
  method OverwriteRelationships(storage: TraceablesStorage, current: map<string, set<string>>, entry: map<string, set<string>>)
    returns (rels: map<string, set<string>>)
    requires storage.Valid()
    requires forall n :: n in entry ==> entry[n] <= storage.traceables.Keys
    ensures rels == current + entry
  {
    rels := current;
    var names := entry.Keys;
    while names != {}
      invariant names <= entry.Keys
      invariant rels == current + map n | n in entry && n !in names :: entry[n]
      decreases names
    {
      var name :| name in names;
      var relatives := CollectRelatives(storage, entry[name]);
      rels := rels[name := relatives];
      names := names - {name};
    }
    assert (map n | n in entry && n !in names :: entry[n]) == entry;
  }

  /** An item after the third phase: the names indexed under its tag overwritten. */
  function Rewritten(x: Traceable, relationships: Index): Traceable
  {
    x.(relationships := x.relationships + if x.tag in relationships then relationships[x.tag] else map[])
  }

  /** Rewriting from the index is relating by the index's links. */
  lemma RewrittenIsRelated(x: Traceable, relationships: Index)
    requires NoEmptyEntries(relationships)
    ensures Rewritten(x, relationships) == Relate(x, Links(relationships))
  {
    IndexIsItsLinks(relationships);
    if x.tag !in relationships {
      assert NamesFrom(Links(relationships), x.tag) == {};
      assert x.relationships + LinksFrom(Links(relationships), x.tag) == x.relationships;
    }
  }

  /** Extends the relationships of the item `tag1` by its index entry. */
  method RewriteItem(storage: TraceablesStorage, relationships: Index, tag1: string)
    requires storage.Valid()
    requires tag1 in relationships && tag1 in storage.traceables
    requires forall n :: n in relationships[tag1] ==> relationships[tag1][n] <= storage.traceables.Keys
    modifies storage`traceables
    ensures storage.Valid()
    ensures storage.traceables == old(storage.traceables)[tag1 := Rewritten(old(storage.traceables)[tag1], relationships)]
  {
    var traceable := storage.GetTraceableByTag(tag1).value;
    assert traceable.tag == tag1;
    var rels := OverwriteRelationships(storage, traceable.relationships, relationships[tag1]);
    storage.traceables := storage.traceables[tag1 := traceable.(relationships := rels)];
  }

  /** Third phase: overwrite, for every indexed tag, each indexed relationship with its relatives. */
  method RewriteRelationships(storage: TraceablesStorage, relationships: Index)
    requires storage.Valid()
    requires relationships.Keys <= storage.traceables.Keys
    requires forall a, n :: a in relationships && n in relationships[a] ==> relationships[a][n] <= storage.traceables.Keys
    modifies storage`traceables
    ensures storage.Valid()
    ensures storage.traceables == map k | k in old(storage.traceables) :: Rewritten(old(storage.traceables)[k], relationships)
  {
    var sources := relationships.Keys;
    while sources != {}
      invariant sources <= relationships.Keys
      invariant storage.Valid() && storage.traceables.Keys == old(storage.traceables).Keys
      invariant forall k :: k in storage.traceables ==>
        storage.traceables[k] == if k in relationships && k !in sources then Rewritten(old(storage.traceables)[k], relationships)
                                 else old(storage.traceables)[k]
      decreases sources
    {
      var tag1 :| tag1 in sources;
      RewriteItem(storage, relationships, tag1);
      sources := sources - {tag1};
    }
    RewrittenUnindexed(old(storage.traceables), relationships);
  }

  /** An item the index has no entry for is left as it is. */
  lemma RewrittenUnindexed(store: map<string, Traceable>, relationships: Index)
    requires KeyedByTag(store)
    ensures forall k :: k in store && k !in relationships ==> Rewritten(store[k], relationships) == store[k]
  {
    forall k | k in store && k !in relationships ensures Rewritten(store[k], relationships) == store[k] {
      assert store[k].relationships + map[] == store[k].relationships;
    }
  }

  /** The three phases together give the resolved store. */
  lemma PhasesResolve(store: map<string, Traceable>, types: seq<RelationshipType>, relationships: Index,
                      allTags: set<string>, placed: map<string, Traceable>, final: map<string, Traceable>)
    requires KeyedByTag(store)
    requires Links(relationships) == Declared(store, types) && NoEmptyEntries(relationships)
    requires relationships.Keys <= allTags <= store.Keys + relationships.Keys
    requires placed.Keys == store.Keys + allTags
    requires forall k :: k in placed ==> placed[k] == if k in store then store[k] else Placeholder(k)
    requires final.Keys == placed.Keys
    requires forall k :: k in final ==> final[k] == Rewritten(placed[k], relationships)
    ensures final == Resolved(store, types)
  {
    IndexIsItsLinks(relationships);
    var r := Resolved(store, types);
    assert final.Keys == r.Keys;
    forall k | k in final ensures final[k] == r[k] {
      ResolvedAt(store, types, k);
      RewrittenIsRelated(placed[k], relationships);
    }
  }

  /**
   * `process_doctree`: the whole resolution pass over the store. Afterwards the store is the resolved
   * store, whose properties are stated by the lemmas above.
   */
  method ProcessRelationships(storage: TraceablesStorage)
    requires storage.Valid()
    modifies storage`traceables
    ensures storage.Valid()
    ensures storage.traceables == Resolved(old(storage.traceables), storage.relationshipTypes)
  {
    var store := storage.traceables;
    var relationships, allTags := BuildRelationshipIndex(store, storage.relationshipTypes);
    AddPlaceholders(storage, allTags);
    ghost var placed := storage.traceables;
    forall a, n | a in relationships && n in relationships[a] ensures relationships[a][n] <= placed.Keys {
      forall b | b in relationships[a][n] ensures b in relationships {
        IndexIsItsLinks(relationships);
        assert (a, n, b) in Links(relationships);
        DeclaredLinksAreMirrored(store, storage.relationshipTypes, a, n, b);
      }
    }
    RewriteRelationships(storage, relationships);
    PhasesResolve(store, storage.relationshipTypes, relationships, allTags, placed, storage.traceables);
  }

  // ---------------------------------------------------------------------------------------------
  // Cross-references (`XrefProcessor`)

  /**
   * A cross-reference to `tag`: the referenced item, created as a placeholder when missing, and
   * whether the "no traceable with tag" warning is due (the item is unresolved).
   */
  method ResolveXref(storage: TraceablesStorage, tag: string) returns (r: Result<Traceable, Error>, warn: bool)
    requires storage.Valid()
    modifies storage`traceables
    ensures storage.Valid()
    ensures tag != "" ==> r.Success? && r.value.tag == tag && tag in storage.traceables
    ensures tag != "" ==> (warn <==> tag !in old(storage.traceables) || IsUnresolved(old(storage.traceables)[tag]))
    ensures tag in old(storage.traceables) ==> storage.traceables == old(storage.traceables)
    ensures tag !in old(storage.traceables) && tag != "" ==>
      storage.traceables == old(storage.traceables)[tag := Placeholder(tag)]
    ensures tag == "" && tag !in old(storage.traceables) ==> r.Failure? && !warn
  {
    r := storage.GetOrCreateTraceableByTag(tag);
    warn := r.Success? && IsUnresolved(r.value);
  }

  // ---------------------------------------------------------------------------------------------
  // `DefaultDict`, the directive's option table

  /** A dictionary that answers a missing key with a default value. */
  datatype DefaultDict<V> = DefaultDict(entries: map<string, V>, default: V)

  /** Lookup never fails: a missing key gives the default. */
  function Lookup<V>(d: DefaultDict<V>, key: string): (r: V)
    ensures key in d.entries ==> r == d.entries[key]
    ensures key !in d.entries ==> r == d.default
  {
    if key in d.entries then d.entries[key] else d.default
  }

  /** Python truth value: a DefaultDict is true even when it holds no entry. */
  function Truthy<V>(d: DefaultDict<V>): (r: bool)
    ensures r
  {
    true
  }

  /** The directive's option table accepts every option name and keeps the value as written. */
  const OptionSpec: DefaultDict<string -> string> := DefaultDict(map[], (value: string) => value)

  lemma OptionSpecAcceptsEveryOption(name: string, value: string)
    ensures Lookup(OptionSpec, name)(value) == value && Truthy(OptionSpec)
  {
  }

  // ---------------------------------------------------------------------------------------------
  // Default configuration

  /** `default_relationships`. */
  const DefaultRelationships: seq<RelationshipType> := [
    RelationshipType("parents", "children", true),
    RelationshipType("sibling", "sibling", false),
    RelationshipType("output", "created-in", true),
    RelationshipType("used-in", "input", true),
    RelationshipType("create", "created-by", true)
  ]

  /** The direction table of the default configuration. */
  lemma DefaultDirections()
    ensures Directions(DefaultRelationships) == map[
      "parents" := 1, "children" := -1, "sibling" := 0, "output" := 1, "created-in" := -1,
      "used-in" := 1, "input" := -1, "create" := 1, "created-by" := -1]
  {
    var types := DefaultRelationships;
    assert types[..0] == [];
    assert types[..1][..0] == types[..0];
    assert types[..2][..1] == types[..1];
    assert types[..3][..2] == types[..2];
    assert types[..4][..3] == types[..3];
    assert types[..5][..4] == types[..4];
    assert types[..5] == types;
    assert Directions(types[..1]) == map["parents" := 1, "children" := -1];
    assert Directions(types[..2]) == map["parents" := 1, "children" := -1, "sibling" := 0];
    assert Directions(types[..3]) == map["parents" := 1, "children" := -1, "sibling" := 0, "output" := 1, "created-in" := -1];
    assert Directions(types[..4]) == map["parents" := 1, "children" := -1, "sibling" := 0, "output" := 1, "created-in" := -1,
      "used-in" := 1, "input" := -1];
  }

  // ---------------------------------------------------------------------------------------------
  // The attribute field list (`AttributeListsProcessor.create_attribute_list_node`)

  /** The number of relatives over the relationships named in `names`. */
  function RelativeCount(names: seq<string>, relationships: map<string, set<string>>): nat
    requires forall n :: n in names ==> n in relationships
  {
    if names == [] then 0
    else RelativeCount(names[..|names| - 1], relationships) + |relationships[names[|names| - 1]]|
  }

  /** A field of the list: a relationship with its relatives' tags, or a plain attribute's text. */
  datatype Field = RelationshipField(name: string, relatives: seq<string>) | AttributeField(name: string, text: string)

  /** The attributes listed as plain fields: neither a relationship name nor "title". */
  function PlainAttributes(attributes: map<string, string>, relationships: map<string, set<string>>): (r: map<string, string>)
    ensures forall k :: k in r <==> k in attributes && k !in relationships && k != "title"
    ensures forall k :: k in r ==> r[k] == attributes[k]
  {
    map k | k in attributes && k !in relationships && k != "title" :: attributes[k]
  }

  /** The relationship fields, by name, each listing its relatives by tag. */
  function RelationshipFields(relationships: map<string, set<string>>): seq<Field>
  {
    var names := Ordering.SortedSet(relationships.Keys);
    seq(|names|, i requires 0 <= i < |names| => RelationshipField(names[i], Ordering.SortedSet(relationships[names[i]])))
  }

  /** The plain attribute fields, by name; the text is the value after one space. */
  function AttributeFields(plain: map<string, string>): seq<Field>
  {
    var names := Ordering.SortedSet(plain.Keys);
    seq(|names|, i requires 0 <= i < |names| => AttributeField(names[i], " " + plain[names[i]]))
  }

  /** The whole field list of an item. */
  function FieldList(attributes: map<string, string>, relationships: map<string, set<string>>): seq<Field>
  {
    RelationshipFields(relationships) + AttributeFields(PlainAttributes(attributes, relationships))
  }

  /** Fields named after a sorted listing of `keys`, one each, are in name order and name every key. */
  lemma NamedInOrder(r: seq<Field>, names: seq<string>, keys: set<string>)
    requires |r| == |names| && forall i :: 0 <= i < |r| ==> r[i].name == names[i]
    requires Ordering.StrictlySorted(names) && forall x :: x in names <==> x in keys
    ensures forall i, j :: 0 <= i < j < |r| ==> Ordering.Below(r[i].name, r[j].name) && r[i].name != r[j].name
    ensures forall name :: name in keys ==> exists i :: 0 <= i < |r| && r[i].name == name
  {
    forall name | name in keys ensures exists i :: 0 <= i < |r| && r[i].name == name {
      var i :| 0 <= i < |names| && names[i] == name;
      assert r[i].name == name;
    }
  }

  /** Relationship fields: one per name, in name order, relatives in tag order. */
  lemma RelationshipFieldsOrder(relationships: map<string, set<string>>)
    ensures var r := RelationshipFields(relationships);
      |r| == |relationships| &&
      (forall i :: 0 <= i < |r| ==>
        (r[i].RelationshipField? && r[i].name in relationships && r[i].relatives == Ordering.SortedSet(relationships[r[i].name]))) &&
      (forall i, j :: 0 <= i < j < |r| ==> Ordering.Below(r[i].name, r[j].name) && r[i].name != r[j].name) &&
      (forall name :: name in relationships ==> exists i :: 0 <= i < |r| && r[i].name == name)
  {
    var r := RelationshipFields(relationships);
    var names := Ordering.SortedSet(relationships.Keys);
    Ordering.SortedSetSorted(relationships.Keys);
    assert |names| == |relationships.Keys| == |relationships|;
    NamedInOrder(r, names, relationships.Keys);
  }


  /** Plain fields: one per plain attribute, in name order, the text being the value after a space. */
  lemma AttributeFieldsOrder(plain: map<string, string>)
    ensures var r := AttributeFields(plain);
      |r| == |plain| &&
      (forall i :: 0 <= i < |r| ==> (r[i].AttributeField? && r[i].name in plain && r[i].text == " " + plain[r[i].name])) &&
      (forall i, j :: 0 <= i < j < |r| ==> Ordering.Below(r[i].name, r[j].name) && r[i].name != r[j].name) &&
      (forall name :: name in plain ==> exists i :: 0 <= i < |r| && r[i].name == name)
  {
    var r := AttributeFields(plain);
    var names := Ordering.SortedSet(plain.Keys);
    Ordering.SortedSetSorted(plain.Keys);
    assert |names| == |plain.Keys| == |plain|;
    NamedInOrder(r, names, plain.Keys);
  }


  /** One relationship field per relationship name. */
  lemma RelationshipFieldsShape(relationships: map<string, set<string>>)
    ensures var r := RelationshipFields(relationships);
      |r| == |relationships| && forall i :: 0 <= i < |r| ==> r[i].RelationshipField?
  {
    assert |relationships.Keys| == |relationships|;
  }

  /** One plain field per plain attribute, its text the attribute's value after a space. */
  lemma AttributeFieldsShape(plain: map<string, string>)
    ensures var r := AttributeFields(plain);
      |r| == |plain| && forall i :: 0 <= i < |r| ==> r[i].AttributeField? && r[i].name in plain && r[i].text == " " + plain[r[i].name]
  {
    assert |plain.Keys| == |plain|;
  }

  /**
   * The field list: the relationship fields first, then the plain fields; no plain field is named
   * after a relationship or "title".
   */
  lemma FieldListOrder(attributes: map<string, string>, relationships: map<string, set<string>>)
    ensures var r := FieldList(attributes, relationships); var n := |relationships|;
      |r| == n + |PlainAttributes(attributes, relationships)| &&
      (forall i :: 0 <= i < n ==> r[i].RelationshipField?) &&
      (forall i :: n <= i < |r| ==>
        (r[i].AttributeField? && r[i].name in attributes && r[i].name !in relationships && r[i].name != "title" &&
         r[i].text == " " + attributes[r[i].name]))
  {
    var plain := PlainAttributes(attributes, relationships);
    RelationshipFieldsShape(relationships);
    AttributeFieldsShape(plain);
    FieldsConcat(RelationshipFields(relationships), AttributeFields(plain), plain);
  }

  /** Relationship fields followed by plain fields keep their kinds on either side of the seam. */
  lemma FieldsConcat(rel: seq<Field>, att: seq<Field>, plain: map<string, string>)
    requires forall i :: 0 <= i < |rel| ==> rel[i].RelationshipField?
    requires forall i :: 0 <= i < |att| ==> att[i].AttributeField? && att[i].name in plain && att[i].text == " " + plain[att[i].name]
    ensures var r := rel + att;
      (forall i :: 0 <= i < |rel| ==> r[i].RelationshipField?) &&
      (forall i :: |rel| <= i < |r| ==> r[i].AttributeField? && r[i].name in plain && r[i].text == " " + plain[r[i].name])
  {
    var r := rel + att;
    forall i | |rel| <= i < |r| ensures r[i].AttributeField? && r[i].name in plain && r[i].text == " " + plain[r[i].name] {
      assert r[i] == att[i - |rel|];
    }
  }


  /** The copy of the attributes without the relationship names and "title". */
  method DropNonPlainAttributes(attributes: map<string, string>, relationships: map<string, set<string>>)
    returns (plain: map<string, string>)
    ensures plain == PlainAttributes(attributes, relationships)
  {
    plain := attributes;
    var names := relationships.Keys;
    while names != {}
      invariant names <= relationships.Keys
      invariant plain == map k | k in attributes && (k in names || k !in relationships) :: attributes[k]
      decreases names
    {
      var name :| name in names;
      plain := plain - {name};
      names := names - {name};
    }
    plain := plain - {"title"};
  }

  /** The loop over the sorted relationships, one field each. */
  method EmitRelationshipFields(relationships: map<string, set<string>>) returns (fields: seq<Field>)
    ensures fields == RelationshipFields(relationships)
  {
    fields := [];
    var names := Ordering.SortedSet(relationships.Keys);
    ghost var spec := RelationshipFields(relationships);
    for i := 0 to |names|
      invariant fields == spec[..i]
    {
      assert spec[..i + 1] == spec[..i] + [spec[i]];
      fields := fields + [RelationshipField(names[i], Ordering.SortedSet(relationships[names[i]]))];
    }
    assert spec[..|names|] == spec;
  }

  /** The loop over the sorted plain attributes, one field each. */
  method EmitAttributeFields(plain: map<string, string>) returns (fields: seq<Field>)
    ensures fields == AttributeFields(plain)
  {
    fields := [];
    var names := Ordering.SortedSet(plain.Keys);
    ghost var spec := AttributeFields(plain);
    for i := 0 to |names|
      invariant fields == spec[..i]
    {
      assert spec[..i + 1] == spec[..i] + [spec[i]];
      fields := fields + [AttributeField(names[i], " " + plain[names[i]])];
    }
    assert spec[..|names|] == spec;
  }

  /**
   * `create_attribute_list_node`: look the item up, copy its attribute map and drop the relationship
   * names and "title" from the copy, then emit the relationship fields and the plain fields in order.
   */
  method AttributeListFields(storage: TraceablesStorage, tag: string, attributes: map<string, string>)
    returns (r: Result<seq<Field>, Error>)
    requires storage.Valid()
    ensures tag in storage.traceables ==> r == Success(FieldList(attributes, storage.traceables[tag].relationships))
    ensures tag !in storage.traceables ==> r == Failure(UnknownTag(tag))
  {
    var found := storage.GetTraceableByTag(tag);
    if found.Failure? {
      return Failure(found.error);
    }
    var relationships := found.value.relationships;
    var plain := DropNonPlainAttributes(attributes, relationships);

    var fields := EmitRelationshipFields(relationships);
    var plainFields := EmitAttributeFields(plain);
    fields := fields + plainFields;
    r := Success(fields);
  }
}
