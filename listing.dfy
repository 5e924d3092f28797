/**
 * Lists of items (sphinxcontrib/traceables/list.py): the attributes option, the selection of
 * items, the directive's option record and the table and bullet formatters.
 */
module Listing {
  import opened Wrappers
  import Ordering
  import opened Strings
  import opened Infrastructure
  import opened Display

  // ---------------------------------------------------------------------------------------------
  // Options

  /** `list_of_attributes`: no argument or an empty one names no attribute; otherwise the stripped, non-empty comma-separated names. */
  function ListOfAttributes(argument: Option<string>): (r: seq<string>)
    ensures argument.None? || argument == Some("") ==> r == []
    ensures argument.Some? ==> r == SplitCommaList(argument.value)
    ensures forall a :: a in r ==> a != "" && ',' !in a && Trimmed(a)
  {
    match argument
    case None => []
    case Some(s) => SplitCommaList(s)
  }

  lemma StripStatus()
    ensures Strip(" status") == "status"
  {
    var s := " status";
    assert LeadingSpace(s) == 1 + LeadingSpace("status");
    assert TrailingSpace(s) == 0;
    assert s[1..7] == "status";
  }

  lemma LeadingBlankStripped()
    ensures SplitCommaList(" status") == ["status"]
  {
    var s := " status";
    assert ',' !in s;
    assert !IsSpace(s[1]);
    StripStatus();
    SplitCommaListSingle(s);
  }

  lemma BlankDropped()
    ensures SplitCommaList(" ") == []
  {
    SplitCommaListSingle(" ");
    assert AllSpace(" ");
  }

  lemma StripOwner()
    ensures Strip("owner ") == "owner"
  {
    var s := "owner ";
    assert LeadingSpace(s) == 0;
    assert TrailingSpace(s) == 1 + TrailingSpace("owner");
    assert s[0..5] == "owner";
  }

  lemma TrailingBlankStripped()
    ensures SplitCommaList("owner ") == ["owner"]
  {
    var s := "owner ";
    assert ',' !in s;
    assert !IsSpace(s[0]);
    StripOwner();
    SplitCommaListSingle(s);
  }

  /**
   * The value " status, ,owner " (written as its pieces around the commas) reads as
   * ["status", "owner"]: the names keep their order, and blanks around and between the commas
   * are dropped.
   */
  lemma ListOfAttributesExample()
    ensures ListOfAttributes(Some(" status" + "," + (" " + "," + "owner "))) == ["status", "owner"]
  {
    LeadingBlankStripped();
    BlankDropped();
    TrailingBlankStripped();
    NameBlankName(" status", " ", "owner ", "status", "owner");
  }

  /** A name, a blank piece and a name, between two commas, read as the two names. */
  lemma NameBlankName(a: string, b: string, c: string, x: string, y: string)
    requires SplitCommaList(a) == [x] && SplitCommaList(b) == [] && SplitCommaList(c) == [y]
    ensures SplitCommaList(a + "," + (b + "," + c)) == [x, y]
  {
    SplitCommaListConcat(a, b + "," + c);
    SplitCommaListConcat(b, c);
  }

  /** A directive option's value: text, or the list `list_of_attributes` made of it. */
  datatype OptionValue = Argument(text: string) | Names(names: seq<string>)

  /** The options of the list directive. */
  const OptionNames: seq<string> := ["format", "filter", "attributes"]

  /** The key an option is stored under on the list node. */
  function NodeKey(option: string): (r: string)
    ensures |r| == |option| + 11 && r[11..] == option
  {
    "traceables-" + option
  }

  /** `TraceableListDirective.run`: each option stored under its node key, None when it was not given. */
  method CopyOptions(options: map<string, OptionValue>) returns (node: map<string, Option<OptionValue>>)
    ensures node.Keys == set o | o in OptionNames :: NodeKey(o)
    ensures forall o :: o in OptionNames ==>
      node[NodeKey(o)] == if o in options then Some(options[o]) else None
  {
    node := map[];
    for i := 0 to |OptionNames|
      invariant node.Keys == set o | o in OptionNames[..i] :: NodeKey(o)
      invariant forall o :: o in OptionNames[..i] ==>
        node[NodeKey(o)] == if o in options then Some(options[o]) else None
    {
      var option := OptionNames[i];
      assert OptionNames[..i + 1] == OptionNames[..i] + [option];
      node := node[NodeKey(option) := if option in options then Some(options[option]) else None];
    }
    assert OptionNames[..|OptionNames|] == OptionNames;
  }

  // ---------------------------------------------------------------------------------------------
  // Selection

  /** The store's items in tag order. */
  function ByTag(store: map<string, Traceable>): (r: seq<Traceable>)
    ensures |r| == |store|
  {
    var tags := Ordering.SortedSet(store.Keys);
    seq(|tags|, i requires 0 <= i < |tags| => store[tags[i]])
  }

  /** The tags of a sequence of items. */
  function Tags(xs: seq<Traceable>): (r: seq<string>)
    ensures |r| == |xs| && forall i :: 0 <= i < |xs| ==> r[i] == xs[i].tag
  {
    seq(|xs|, i requires 0 <= i < |xs| => xs[i].tag)
  }

  /** The items the filter `matches` accepts for the expression `e`, in their order. */
  function Kept(xs: seq<Traceable>, e: string, matches: (string, Traceable) -> bool): (r: seq<Traceable>)
    ensures |r| <= |xs|
  {
    if xs == [] then []
    else Kept(xs[..|xs| - 1], e, matches) + (if matches(e, xs[|xs| - 1]) then [xs[|xs| - 1]] else [])
  }

  /** The kept items are exactly the items the filter accepts. */
  lemma {:induction false} KeptExactly(xs: seq<Traceable>, e: string, matches: (string, Traceable) -> bool)
    ensures forall x :: x in Kept(xs, e, matches) <==> x in xs && matches(e, x)
    decreases |xs|
  {
    if xs != [] {
      var prefix := xs[..|xs| - 1];
      KeptExactly(prefix, e, matches);
      assert xs == prefix + [xs[|xs| - 1]];
    }
  }

  /**
   * `process_node_with_formatter`'s selection: the store's items in tag order, narrowed by the
   * filter expression when there is a non-empty one. The filter itself, `TraceablesFilter`, is the
   * parameter `matches`.
   */
  function Selected(store: map<string, Traceable>, expression: Option<string>, matches: (string, Traceable) -> bool): seq<Traceable>
  {
    var candidates := ByTag(store);
    match expression
    case None => candidates
    case Some(e) => if e == "" then candidates else Kept(candidates, e, matches)
  }

  /** Keeping some items of a strictly tag-ordered sequence keeps it strictly ordered. */
  lemma {:induction false} KeptKeepsOrder(xs: seq<Traceable>, e: string, matches: (string, Traceable) -> bool)
    requires Ordering.StrictlySorted(Tags(xs))
    ensures Ordering.StrictlySorted(Tags(Kept(xs, e, matches)))
    decreases |xs|
  {
    if xs != [] {
      var prefix := xs[..|xs| - 1];
      var last := xs[|xs| - 1];
      assert Tags(prefix) == Tags(xs)[..|xs| - 1];
      KeptKeepsOrder(prefix, e, matches);
      KeptExactly(prefix, e, matches);
      var before := Kept(prefix, e, matches);
      var r := Kept(xs, e, matches);
      if matches(e, last) {
        var ts := Tags(r);
        forall i, j | 0 <= i < j < |ts|
          ensures Ordering.Below(ts[i], ts[j]) && ts[i] != ts[j]
        {
          if j == |ts| - 1 {
            assert r[i] in before && before[i] in prefix;
            var k :| 0 <= k < |prefix| && prefix[k] == r[i];
            assert Tags(xs)[k] == ts[i] && Tags(xs)[|xs| - 1] == ts[j];
          } else {
            assert Tags(before)[i] == ts[i] && Tags(before)[j] == ts[j];
          }
        }
      }
    }
  }

  /** Listed by tag, the items of a store keyed by tag show the sorted keys. */
  lemma ByTagTags(store: map<string, Traceable>)
    requires KeyedByTag(store)
    ensures Tags(ByTag(store)) == Ordering.SortedSet(store.Keys)
  {
    var tags := Ordering.SortedSet(store.Keys);
    var ts := Tags(ByTag(store));
    forall i | 0 <= i < |tags| ensures ts[i] == tags[i] {
      assert tags[i] in store.Keys;
    }
  }

  /** The store's items listed by tag are exactly the stored items. */
  lemma ByTagHoldsTheStore(store: map<string, Traceable>)
    ensures forall x :: x in ByTag(store) <==> x in store.Values
  {
    var tags := Ordering.SortedSet(store.Keys);
    var candidates := ByTag(store);
    forall x | x in store.Values ensures x in candidates {
      var k :| k in store && store[k] == x;
      assert k in tags;
      var i :| 0 <= i < |tags| && tags[i] == k;
      assert candidates[i] == x;
    }
    forall x | x in candidates ensures x in store.Values {
      var i :| 0 <= i < |candidates| && candidates[i] == x;
      assert tags[i] in store.Keys;
    }
  }


  /**
   * The selection holds exactly the stored items the filter accepts (all of them with no filter
   * expression), each once and in tag order.
   */
  lemma SelectionIsSortedAndExact(store: map<string, Traceable>, expression: Option<string>, matches: (string, Traceable) -> bool)
    requires KeyedByTag(store)
    ensures var r := Selected(store, expression, matches);
      Ordering.StrictlySorted(Tags(r)) &&
      forall x :: x in r <==> x in store.Values && (expression.None? || expression == Some("") || matches(expression.value, x))
  {
    var candidates := ByTag(store);
    ByTagTags(store);
    Ordering.SortedSetSorted(store.Keys);
    ByTagHoldsTheStore(store);
    if expression.Some? && expression.value != "" {
      KeptKeepsOrder(candidates, expression.value, matches);
      KeptExactly(candidates, expression.value, matches);
    }
  }

  // ---------------------------------------------------------------------------------------------
  // The table formatter

  /** The table's columns: tag and title, then the requested attributes in the order given. */
  function Columns(attributes: Option<seq<string>>): (r: seq<string>)
    ensures |r| >= 2 && r[..2] == ["tag", "title"]
    ensures attributes.Some? ==> r[2..] == attributes.value
    ensures attributes.None? ==> r == ["tag", "title"]
  {
    ["tag", "title"] + match attributes case None => [] case Some(a) => a
  }

  /**
   * The cell of one column for an item: a reference for "tag", the item's title for "title", else the
   * attribute or "". The formatter tests `has_title` without calling it; a bound method is always
   * true, so the title cell is the title property, which falls back to the tag.
   */
  function CellOf(x: Traceable, column: string): (r: Cell)
    ensures column == "tag" <==> r.Reference?
    ensures r.Reference? ==> r.tag == x.tag
    ensures column == "title" ==> r == Text(if HasTitle(x) then x.attributes["title"] else x.tag)
    ensures column != "tag" && column != "title" && column !in x.attributes ==> r == Text("")
    ensures column != "tag" && column != "title" && column in x.attributes ==> r == Text(x.attributes[column])
  {
    if column == "tag" then Reference(x.tag)
    else if column == "title" then Text(Infrastructure.Title(x))
    else Text(if column in x.attributes then x.attributes[column] else "")
  }

  datatype Table = Table(header: seq<string>, rows: seq<seq<Cell>>)

  /** The header row: each column name capitalised. */
  function Header(columns: seq<string>): (r: seq<string>)
    ensures |r| == |columns|
    ensures forall i :: 0 <= i < |r| ==> r[i] == Capitalize(columns[i])
  {
    seq(|columns|, i requires 0 <= i < |columns| => Capitalize(columns[i]))
  }

  /** One item's row: a cell per column. */
  function RowOf(x: Traceable, columns: seq<string>): (r: seq<Cell>)
    ensures |r| == |columns|
    ensures forall c :: 0 <= c < |r| ==> r[c] == CellOf(x, columns[c])
  {
    seq(|columns|, c requires 0 <= c < |columns| => CellOf(x, columns[c]))
  }

  /** `TableListFormatter.format`: the header, then one row per item in the given order. */
  function TableOf(xs: seq<Traceable>, attributes: Option<seq<string>>): (r: Table)
    ensures r.header == Header(Columns(attributes))
    ensures |r.rows| == |xs|
    ensures forall i :: 0 <= i < |xs| ==> r.rows[i] == RowOf(xs[i], Columns(attributes))
  {
    var columns := Columns(attributes);
    Table(Header(columns), seq(|xs|, i requires 0 <= i < |xs| => RowOf(xs[i], columns)))
  }

  /** Every table starts with the "Tag" and "Title" headers, and each row starts with the item's reference and its title. */
  lemma TableShape(xs: seq<Traceable>, attributes: Option<seq<string>>, i: int)
    requires 0 <= i < |xs|
    ensures var t := TableOf(xs, attributes);
      t.header[..2] == ["Tag", "Title"] &&
      t.rows[i][0] == Reference(xs[i].tag) &&
      t.rows[i][1] == Text(if HasTitle(xs[i]) then xs[i].attributes["title"] else xs[i].tag) &&
      |t.rows[i]| == |t.header|
  {
    var columns := Columns(attributes);
    assert columns[0] == "tag" && columns[1] == "title";
    assert Capitalize("tag") == "Tag" by {
      assert Upper('t') == 'T' && Lower('a') == 'a' && Lower('g') == 'g';
    }
    assert Capitalize("title") == "Title" by {
      assert Upper('t') == 'T' && Lower('i') == 'i' && Lower('t') == 't' && Lower('l') == 'l' && Lower('e') == 'e';
    }
  }

  /** The cells of one row, appended column by column. */
  method FormatRow(x: Traceable, columns: seq<string>) returns (row: seq<Cell>)
    ensures row == RowOf(x, columns)
  {
    row := [];
    for c := 0 to |columns|
      invariant row == RowOf(x, columns)[..c]
    {
      var name := columns[c];
      var cell: Cell;
      if name == "tag" {
        cell := Reference(x.tag);
      } else if name == "title" {
        cell := Text(Infrastructure.Title(x));
      } else {
        cell := Text(if name in x.attributes then x.attributes[name] else "");
      }
      row := row + [cell];
    }
  }

  /** `TableListFormatter.format`, row by row and cell by cell. */
  method FormatTable(xs: seq<Traceable>, attributes: Option<seq<string>>) returns (t: Table)
    ensures t == TableOf(xs, attributes)
  {
    var additional := if attributes.Some? then attributes.value else [];
    var columns := ["tag", "title"] + additional;
    var header := [];
    for c := 0 to |columns|
      invariant header == Header(columns)[..c]
    {
      header := header + [Capitalize(columns[c])];
    }
    var rows: seq<seq<Cell>> := [];
    for i := 0 to |xs|
      invariant |rows| == i
      invariant forall k :: 0 <= k < i ==> rows[k] == RowOf(xs[k], columns)
    {
      var row := FormatRow(xs[i], columns);
      rows := rows + [row];
    }
    t := Table(header, rows);
  }

  // ---------------------------------------------------------------------------------------------
  // The bullet formatter

  /** A bullet: the item's reference, followed by the text after it. */
  datatype Bullet = Bullet(tag: string, suffix: string)

  /**
   * `BulletListFormatter.format`: one bullet per item, in the given order. The uncalled `has_title`
   * is always true, so every bullet is followed by " " and the item's title, or its tag when untitled.
   */
  function Bullets(xs: seq<Traceable>): (r: seq<Bullet>)
    ensures |r| == |xs|
    ensures forall i :: 0 <= i < |xs| ==> r[i].tag == xs[i].tag
    ensures forall i :: 0 <= i < |xs| && HasTitle(xs[i]) ==> r[i].suffix == " " + xs[i].attributes["title"]
    ensures forall i :: 0 <= i < |xs| && !HasTitle(xs[i]) ==> r[i].suffix == " " + xs[i].tag
  {
    seq(|xs|, i requires 0 <= i < |xs| => Bullet(xs[i].tag, " " + Infrastructure.Title(xs[i])))
  }
}
