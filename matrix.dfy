/**
 * The older bullet list of items (sphinxcontrib/traceables/matrix.py): the filter option and one
 * list item per selected item.
 */
module Matrix {
  import opened Wrappers
  import Ordering
  import opened Infrastructure
  import opened Listing

  /** `TraceableListDirective.run`: an absent or empty filter option is stored as None. */
  function NormalizeFilter(option: Option<string>): (r: Option<string>)
    ensures r.None? <==> option.None? || option == Some("")
    ensures r.Some? ==> r == option
  {
    match option
    case None => None
    case Some(e) => if e == "" then None else Some(e)
  }

  /** Normalising the option does not change what a list selects. */
  lemma NormalizedFilterSelectsTheSame(store: map<string, Traceable>, option: Option<string>, matches: (string, Traceable) -> bool)
    ensures Selected(store, NormalizeFilter(option), matches) == Selected(store, option, matches)
  {
  }

  /** The tags a list shows: one per selected item, in order. */
  function Listed(store: map<string, Traceable>, expression: Option<string>, matches: (string, Traceable) -> bool): (r: seq<string>)
  {
    Tags(Selected(store, expression, matches))
  }

  /** The list items of a selection: a reference per item, appended in order. */
  method ItemsOf(selected: seq<Traceable>) returns (items: seq<string>)
    ensures items == Tags(selected)
  {
    items := [];
    for i := 0 to |selected|
      invariant |items| == i
      invariant forall k :: 0 <= k < i ==> items[k] == selected[k].tag
    {
      items := items + [selected[i].tag];
    }
  }

  /** One list: the items of the selection its filter makes. */
  method ListItems(store: map<string, Traceable>, expression: Option<string>, matches: (string, Traceable) -> bool)
    returns (items: seq<string>)
    ensures items == Listed(store, expression, matches)
  {
    var selected := Selected(store, expression, matches);
    items := ItemsOf(selected);
  }

  /** The lists of a document's list nodes, one per node, in document order. */
  function Lists(store: map<string, Traceable>, filters: seq<Option<string>>, matches: (string, Traceable) -> bool): (r: seq<seq<string>>)
    ensures |r| == |filters|
  {
    seq(|filters|, i requires 0 <= i < |filters| => Listed(store, filters[i], matches))
  }

  /** The lists of the first `i + 1` nodes extend those of the first `i` by node `i`'s list. */
  lemma ListsSnoc(store: map<string, Traceable>, filters: seq<Option<string>>, matches: (string, Traceable) -> bool, i: nat)
    requires i < |filters|
    ensures Lists(store, filters[..i + 1], matches) == Lists(store, filters[..i], matches) + [Listed(store, filters[i], matches)]
  {
    var longer := Lists(store, filters[..i + 1], matches);
    var shorter := Lists(store, filters[..i], matches);
    forall k | 0 <= k < i ensures longer[k] == shorter[k] {
      assert filters[..i + 1][k] == filters[..i][k];
    }
  }

  /** `ListProcessor.process_doctree`: every list node of the document replaced by its items. */
  method ProcessLists(store: map<string, Traceable>, filters: seq<Option<string>>, matches: (string, Traceable) -> bool)
    returns (lists: seq<seq<string>>)
    ensures lists == Lists(store, filters, matches)
  {
    lists := [];
    for i := 0 to |filters|
      invariant lists == Lists(store, filters[..i], matches)
    {
      ListsSnoc(store, filters, matches, i);
      var items := ListItems(store, filters[i], matches);
      lists := lists + [items];
    }
    assert filters[..|filters|] == filters;
  }

  /** Without a filter, a list names every stored item once, in tag order. */
  lemma UnfilteredListNamesEveryItem(store: map<string, Traceable>, matches: (string, Traceable) -> bool)
    requires KeyedByTag(store)
    ensures Listed(store, None, matches) == Ordering.SortedSet(store.Keys)
  {
    ByTagTags(store);
  }

}
