/**
 * Displaying one traceable (sphinxcontrib/traceables/display.py): the formatter registry, the
 * title rule, the admonition layout and the two-column block layout.
 */
module Display {
  import opened Wrappers
  import Ordering
  import opened Infrastructure
  import opened Traceables

  /** The built-in formatters. */
  datatype Formatter = Admonition | Block

  /** The heading of a displayed item: the tag, followed by " -- " and the title when it has one. */
  datatype Heading = TagOnly(tag: string) | TagAndTitle(tag: string, title: string)

  /** `create_title_node`. */
  function TitleOf(x: Traceable): (r: Heading)
    ensures r.tag == x.tag
    ensures r.TagAndTitle? <==> HasTitle(x)
    ensures r.TagAndTitle? ==> r.title == Infrastructure.Title(x) && r.title == x.attributes["title"]
  {
    if HasTitle(x) then TagAndTitle(x.tag, Infrastructure.Title(x)) else TagOnly(x.tag)
  }

  /** A cell of the block layout: a reference to a related item, or text. */
  datatype Cell = Reference(tag: string) | Text(text: string)

  /** A body row of the block layout: the label cell (empty for a continuation row) and the content cell. */
  datatype Row = Row(heading: string, content: Cell)

  /** What a formatter produces for an item. */
  datatype Display =
    | AdmonitionDisplay(id: string, title: Heading, fields: seq<Field>)
    | BlockDisplay(title: Heading, rows: seq<Row>)

  /** The result of processing one display node. */
  datatype Outcome =
    | Replaced(display: Display)
    | UnknownFormatter(format: string, available: set<string>)

  // ---------------------------------------------------------------------------------------------
  // The block layout

  /** One relationship's rows: its relatives in order, the name labelling only the first row. */
  function GroupRows(name: string, relatives: seq<string>): (r: seq<Row>)
    ensures |r| == |relatives|
  {
    seq(|relatives|, j requires 0 <= j < |relatives| => Row(if j == 0 then " " + name else "", Reference(relatives[j])))
  }

  /** The rows of the relationships named in `names`, in that order. */
  function RelationshipRows(names: seq<string>, relationships: map<string, set<string>>): seq<Row>
    requires forall n :: n in names ==> n in relationships
  {
    if names == [] then []
    else
      var last := names[|names| - 1];
      RelationshipRows(names[..|names| - 1], relationships) + GroupRows(last, Ordering.SortedSet(relationships[last]))
  }

  /** One row per plain attribute, in name order: the name and the value, each after a space. */
  function AttributeRows(plain: map<string, string>): seq<Row>
  {
    var names := Ordering.SortedSet(plain.Keys);
    seq(|names|, i requires 0 <= i < |names| => Row(" " + names[i], Text(" " + plain[names[i]])))
  }

  /** The body of the block layout. */
  function BlockRows(x: Traceable): seq<Row>
  {
    RelationshipRows(Ordering.SortedSet(x.relationships.Keys), x.relationships) +
    AttributeRows(PlainAttributes(x.attributes, x.relationships))
  }

  /** A group starts with the labelled row and continues with unlabelled rows, one per relative. */
  lemma GroupRowsShape(name: string, relatives: seq<string>)
    ensures var r := GroupRows(name, relatives);
      (relatives != [] ==> r[0].heading == " " + name) &&
      (forall j :: 0 < j < |r| ==> r[j].heading == "") &&
      (forall j :: 0 <= j < |r| ==> r[j].content == Reference(relatives[j]))
  {
  }

  /** There is one relationship row per (relationship, relative) pair. */
  lemma {:induction false} RelationshipRowCount(names: seq<string>, relationships: map<string, set<string>>)
    requires forall n :: n in names ==> n in relationships
    ensures |RelationshipRows(names, relationships)| == RelativeCount(names, relationships)
    decreases |names|
  {
    if names != [] {
      var last := names[|names| - 1];
      RelationshipRowCount(names[..|names| - 1], relationships);
      assert |Ordering.SortedSet(relationships[last])| == |relationships[last]|;
    }
  }

  /** The labelled relationship rows are exactly the first rows of the groups, and name their relationship. */
  lemma {:induction false} RelationshipRowLabels(names: seq<string>, relationships: map<string, set<string>>, i: int)
    requires forall n :: n in names ==> n in relationships
    requires 0 <= i < |RelationshipRows(names, relationships)|
    ensures var row := RelationshipRows(names, relationships)[i];
      row.content.Reference? &&
      (row.heading != "" ==> exists n :: n in names && row.heading == " " + n)
    decreases |names|
  {
    var last := names[|names| - 1];
    var before := RelationshipRows(names[..|names| - 1], relationships);
    if i < |before| {
      RelationshipRowLabels(names[..|names| - 1], relationships, i);
      var row := before[i];
      if row.heading != "" {
        var n :| n in names[..|names| - 1] && row.heading == " " + n;
        assert n in names;
      }
    } else {
      assert RelationshipRows(names, relationships)[i] == GroupRows(last, Ordering.SortedSet(relationships[last]))[i - |before|];
    }
  }

  /** Every relationship row refers to a related item. */
  lemma RelationshipRowsAreReferences(names: seq<string>, relationships: map<string, set<string>>)
    requires forall n :: n in names ==> n in relationships
    ensures forall i :: 0 <= i < |RelationshipRows(names, relationships)| ==>
      RelationshipRows(names, relationships)[i].content.Reference?
  {
    forall i | 0 <= i < |RelationshipRows(names, relationships)|
      ensures RelationshipRows(names, relationships)[i].content.Reference?
    {
      RelationshipRowLabels(names, relationships, i);
    }
  }

  /** One attribute row per plain attribute, holding its name and value. */
  lemma AttributeRowsShape(plain: map<string, string>)
    ensures var r := AttributeRows(plain);
      |r| == |plain| &&
      forall i :: 0 <= i < |r| ==>
        r[i].content.Text? && exists a :: a in plain && r[i].heading == " " + a && r[i].content.text == " " + plain[a]
  {
    var names := Ordering.SortedSet(plain.Keys);
    assert |names| == |plain.Keys| == |plain|;
    var r := AttributeRows(plain);
    forall i | 0 <= i < |r|
      ensures r[i].content.Text? && exists a :: a in plain && r[i].heading == " " + a && r[i].content.text == " " + plain[a]
    {
      var a := names[i];
      assert r[i] == Row(" " + a, Text(" " + plain[a]));
    }
  }

  /**
   * The block body: one row per (relationship, relative), then one row per plain attribute in name
   * order, each holding the attribute's name and value.
   */
  lemma BlockRowsShape(x: Traceable)
    ensures var r := BlockRows(x); var names := Ordering.SortedSet(x.relationships.Keys);
      var plain := PlainAttributes(x.attributes, x.relationships);
      var n := RelativeCount(names, x.relationships);
      |r| == n + |plain| &&
      (forall i :: 0 <= i < n ==> r[i].content.Reference?) &&
      (forall i :: n <= i < |r| ==>
        (r[i].content.Text? && exists a :: a in plain && r[i].heading == " " + a && r[i].content.text == " " + x.attributes[a]))
  {
    var names := Ordering.SortedSet(x.relationships.Keys);
    var plain := PlainAttributes(x.attributes, x.relationships);
    var n := RelativeCount(names, x.relationships);
    RelationshipRowCount(names, x.relationships);
    AttributeRowsShape(plain);
    var r := BlockRows(x);
    forall i | 0 <= i < n ensures r[i].content.Reference? {
      BlockRowAt(x, i);
    }
    forall i | n <= i < |r|
      ensures r[i].content.Text? && exists a :: a in plain && r[i].heading == " " + a && r[i].content.text == " " + x.attributes[a]
    {
      BlockRowAt(x, i);
    }
  }

  /** Row `i` of the block body: a reference among the relationship rows, an attribute's text after them. */
  lemma BlockRowAt(x: Traceable, i: int)
    requires 0 <= i < |BlockRows(x)|
    ensures var names := Ordering.SortedSet(x.relationships.Keys);
      var plain := PlainAttributes(x.attributes, x.relationships);
      var row := BlockRows(x)[i];
      if i < |RelationshipRows(names, x.relationships)| then row.content.Reference?
      else row.content.Text? && exists a :: a in plain && row.heading == " " + a && row.content.text == " " + x.attributes[a]
  {
    var names := Ordering.SortedSet(x.relationships.Keys);
    var rows := RelationshipRows(names, x.relationships);
    var plain := PlainAttributes(x.attributes, x.relationships);
    var attributeRows := AttributeRows(plain);
    if i < |rows| {
      RelationshipRowLabels(names, x.relationships, i);
      assert BlockRows(x)[i] == rows[i];
    } else {
      AttributeRowsShape(plain);
      assert BlockRows(x)[i] == attributeRows[i - |rows|];
    }
  }

  lemma RelationshipRowsSnoc(names: seq<string>, relationships: map<string, set<string>>)
    requires names != [] && forall n :: n in names ==> n in relationships
    ensures RelationshipRows(names, relationships) ==
      RelationshipRows(names[..|names| - 1], relationships) +
      GroupRows(names[|names| - 1], Ordering.SortedSet(relationships[names[|names| - 1]]))
  {
  }

  /** The rows of one relationship, appended one by one; only the first is labelled. */
  method AppendGroup(rows: seq<Row>, name: string, relatives: seq<string>) returns (r: seq<Row>)
    ensures r == rows + GroupRows(name, relatives)
  {
    r := rows;
    var first := true;
    for j := 0 to |relatives|
      invariant r == rows + GroupRows(name, relatives)[..j]
      invariant first <==> j == 0
    {
      var heading := "";
      if first {
        heading := " " + name;
        first := false;
      }
      r := r + [Row(heading, Reference(relatives[j]))];
    }
    assert GroupRows(name, relatives)[..|relatives|] == GroupRows(name, relatives);
  }

  /** The attribute rows, appended in name order. */
  method AppendAttributeRows(rows: seq<Row>, plain: map<string, string>) returns (r: seq<Row>)
    ensures r == rows + AttributeRows(plain)
  {
    r := rows;
    var names := Ordering.SortedSet(plain.Keys);
    for i := 0 to |names|
      invariant r == rows + AttributeRows(plain)[..i]
    {
      r := r + [Row(" " + names[i], Text(" " + plain[names[i]]))];
    }
    assert AttributeRows(plain)[..|names|] == AttributeRows(plain);
  }

  /** `TraceableDisplayBlockFormatter.format`: the rows of the table body, appended one by one. */
  method BlockLayout(x: Traceable) returns (rows: seq<Row>)
    ensures rows == BlockRows(x)
  {
    var relationships := x.relationships;
    var plain := DropNonPlainAttributes(x.attributes, relationships);
    rows := [];
    var names := Ordering.SortedSet(relationships.Keys);
    assert forall n :: n in names ==> n in relationships;
    for i := 0 to |names|
      invariant rows == RelationshipRows(names[..i], relationships)
    {
      RelationshipRowsSnoc(names[..i + 1], relationships);
      assert names[..i + 1][..i] == names[..i];
      rows := AppendGroup(rows, names[i], Ordering.SortedSet(relationships[names[i]]));
    }
    assert names[..|names|] == names;
    rows := AppendAttributeRows(rows, plain);
  }

  // ---------------------------------------------------------------------------------------------
  // Formatters and the processor

  /** What a formatter makes of an item; the admonition needs the target's id, which a placeholder lacks. */
  function Format(f: Formatter, x: Traceable): (r: Result<Display, Error>)
    ensures f == Admonition ==> (r.Success? <==> !IsUnresolved(x))
    ensures f == Admonition && r.Success? ==>
      r.value == AdmonitionDisplay(x.target.value.refid, TitleOf(x), FieldList(x.attributes, x.relationships))
    ensures f == Admonition && r.Failure? ==> r.error == NotSubscriptable
    ensures f == Block ==> r == Success(BlockDisplay(TitleOf(x), BlockRows(x)))
  {
    match f
    case Admonition =>
      if x.target.None? then Failure(NotSubscriptable)
      else Success(AdmonitionDisplay(x.target.value.refid, TitleOf(x), FieldList(x.attributes, x.relationships)))
    case Block => Success(BlockDisplay(TitleOf(x), BlockRows(x)))
  }

  /** `TraceableDisplayProcessor`: the formatters, by name, shared by every display node. */
  class TraceableDisplayProcessor {
    var formatters: map<string, Formatter>

    /** The registry once the module is loaded: "admonition" and "block". */
    constructor ()
      ensures formatters == map["admonition" := Admonition, "block" := Block]
    {
      formatters := map[];
      new;
      RegisterFormatter("admonition", Admonition);
      RegisterFormatter("block", Block);
    }

    /** `register_formatter`: the name now selects `formatter`, replacing any earlier one. */
    method RegisterFormatter(name: string, formatter: Formatter)
      modifies this
      ensures formatters == old(formatters)[name := formatter]
    {
      formatters := formatters[name := formatter];
    }

    /** `formatters.get(name)`. */
    function LookupFormatter(name: string): (r: Option<Formatter>)
      reads this
      ensures r.Some? <==> name in formatters
      ensures r.Some? ==> r.value == formatters[name]
    {
      if name in formatters then Some(formatters[name]) else None
    }

    /**
     * `process_node`: the item is looked up first (an unknown tag is an error), then the formatter;
     * an unknown formatter name yields a message listing the registered names and leaves the node
     * in place.
     */
    method ProcessNode(storage: TraceablesStorage, tag: string, format: string) returns (r: Result<Outcome, Error>)
      requires storage.Valid()
      ensures tag !in storage.traceables ==> r == Failure(UnknownTag(tag))
      ensures tag in storage.traceables && format !in formatters ==>
        r == Success(UnknownFormatter(format, formatters.Keys))
      ensures tag in storage.traceables && format in formatters ==>
        var shown := Format(formatters[format], storage.traceables[tag]);
        (r.Success? <==> shown.Success?) &&
        (r.Success? ==> r.value == Replaced(shown.value)) &&
        (r.Failure? ==> r.error == shown.error)
    {
      var found := storage.GetTraceableByTag(tag);
      if found.Failure? {
        return Failure(found.error);
      }
      var formatter := LookupFormatter(format);
      if formatter.None? {
        return Success(UnknownFormatter(format, formatters.Keys));
      }
      var shown := Format(formatter.value, found.value);
      if shown.Failure? {
        return Failure(shown.error);
      }
      r := Success(Replaced(shown.value));
    }
  }

  /** After loading, "block" displays any item, and "admonition" every declared item. */
  lemma BuiltinFormatters(x: Traceable)
    ensures Format(Block, x).Success?
    ensures Format(Admonition, x).Success? <==> x.target.Some?
  {
  }
}
