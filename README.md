# sphinxcontrib-traceables in Dafny

This project models the engine behind the Sphinx extension `sphinxcontrib-traceables`. Documents declare
*traceables*: tagged items with attributes. Some attributes name relationship types such as
`parents`/`children`. The extension then does the following:

- keeps the items of a build in a store keyed by tag;
- derives a direction sign (+1, -1 or 0) for every configured relationship name;
- resolves relationship attributes into links recorded in both directions, creating placeholder items for
  tags that are referenced but never declared;
- evaluates a small filter-expression language over attribute values;
- shows items as admonitions, two-column blocks, one-hop relationship graphs, tables and bullet lists.

One Dafny module covers each source file:

| module | source |
|---|---|
| `Infrastructure` | the store class `TraceablesStorage` (a Dafny `class` over `map<string, Traceable>`) and the `Traceable` value |
| `Traceables` | relationship resolution (`RelationshipsProcessor`), the attribute field list, cross-reference placeholders, `DefaultDict` and the default configuration |
| `Filter` | the filter evaluator (`ExpressionMatcher`, `FilterVisitor`) over an already-parsed expression tree |
| `Display` | the formatter registry (a class) and the admonition and block layouts |
| `Graph` | style merging and selection, the one-hop neighbourhood, edge orientation |
| `Listing` | `list.py`: option handling, selection, and the table and bullet formatters |
| `Matrix` | `matrix.py`: filter normalisation and the bullet lists |
| `Utils` | the attribute-name check |

`Strings`, `Ordering` and `Wrappers` hold the Python string operations, the sort order and `Option`/`Result`.

Where the source changes state step by step, the model is imperative:

- the store's methods, relationship resolution, the direction table, option copying;
- the construction of rows, fields, edges and lists.

Each such method is proved equal to a specification function. The properties are proved about those
functions. The central result is `Traceables.ProcessRelationships`. After it runs, the store equals
`Resolved(old store, types)`, which is defined from the set of declared links and not from the loops. The
lemmas about `Resolved` prove symmetric closure, placeholder creation and idempotence.

Relationship sets hold the related items' tags, not object references. Python iteration over sets and
dicts has no defined order. Where the order is visible, the model iterates in sorted order. Everywhere else
the result does not depend on the order.

## Model

| member | source | states |
|---|---|---|
| Infrastructure.NewTraceable | sphinxcontrib/traceables/infrastructure.py:82-95 | A value is built exactly when one of a target node and an unresolved tag is given, otherwise construction fails. A new item has no relationships. It takes the tag and attributes from the target node, or the given tag and no attributes. |
| Infrastructure.PlaceholderIsUntitledAndUnresolved | sphinxcontrib/traceables/infrastructure.py:87-90 | A placeholder for a non-empty tag can be built, is unresolved, has no title and shows its tag as title. |
| Infrastructure.Title | sphinxcontrib/traceables/infrastructure.py:104-107 | The title is the "title" attribute when present and non-empty, otherwise the tag. |
| Infrastructure.Directions | sphinxcontrib/traceables/infrastructure.py:29-39 | The direction table has exactly the declared names as keys, each with a sign between -1 and 1. |
| Infrastructure.DirectionOfLastDeclaration | sphinxcontrib/traceables/infrastructure.py:32-39 | A name's direction comes from the last declaration that mentions it: +1 primary, -1 secondary, 0 when not directional. |
| Infrastructure.TraceablesStorage.constructor | sphinxcontrib/traceables/infrastructure.py:24-54 | A store over a fresh environment has the configured types, the matching direction table and no items. |
| Infrastructure.TraceablesStorage.AnalyzeRelationshipTypes | sphinxcontrib/traceables/infrastructure.py:29-39 | The loop builds exactly `Directions(types)`. |
| Infrastructure.TraceablesStorage.GetRelationshipDirection | sphinxcontrib/traceables/infrastructure.py:73-74 | Succeeds exactly for declared names, and then gives the direction the declarations assign the name (-1, 0 or 1). An undeclared name is an `UnknownRelationship` error. |
| Infrastructure.TraceablesStorage.AddTraceable | sphinxcontrib/traceables/infrastructure.py:47-48 | The item is stored under its tag, and nothing else changes. |
| Infrastructure.TraceablesStorage.GetTraceableByTag | sphinxcontrib/traceables/infrastructure.py:56-64 | Succeeds exactly when the tag is stored, and returns the item with that tag. Otherwise it is an `UnknownTag` error. |
| Infrastructure.TraceablesStorage.GetOrCreateTraceableByTag | sphinxcontrib/traceables/infrastructure.py:66-71 | A present tag returns its item and leaves the store unchanged. An absent non-empty tag adds exactly one placeholder and returns it. An absent empty tag fails construction and changes nothing. |
| Infrastructure.Purged | sphinxcontrib/traceables/infrastructure.py:41-45 | Every item declared in the document is dropped. Every other item, placeholders included, is kept unchanged. |
| Infrastructure.TraceablesStorage.Purge | sphinxcontrib/traceables/infrastructure.py:41-45 | Removing items one at a time over a copy of the keys leaves exactly `Purged(old store, docname)`. |
| Infrastructure.PurgeAsWritten | sphinxcontrib/traceables/infrastructure.py:43-45 | As written, purge fails on every non-empty store. |
| Infrastructure.PurgeFinding | sphinxcontrib/traceables/infrastructure.py:41-45 | A store holding one item from "index": the as-written purge fails, the intended one empties the store. |
| Strings.SplitCommaList | sphinxcontrib/traceables/infrastructure.py:130-133 | The empty string gives no tag. Every piece is non-empty, comma-free and stripped. |
| Strings.SplitCommaListSingle | sphinxcontrib/traceables/infrastructure.py:130-133 | A comma-free string gives its stripped self, or nothing when it is blank. |
| Strings.SplitCommaListConcat | sphinxcontrib/traceables/infrastructure.py:130-133 | Splitting `a + "," + b` gives the pieces of `a` followed by those of `b`, so order is kept. |
| Strings.Strip | sphinxcontrib/traceables/infrastructure.py:133 | `strip()` leaves no whitespace at either end, and is empty exactly for blank input. Whitespace is Python 2.7's unicode whitespace, no-break space included. |
| Strings.StripIsSlice | sphinxcontrib/traceables/infrastructure.py:133 | The stripped string is a contiguous slice of the input with only whitespace outside it. |
| Strings.Split | sphinxcontrib/traceables/infrastructure.py:133 | `split(",")` gives at least one piece, and no piece contains the separator. |
| Strings.JoinSplit | sphinxcontrib/traceables/infrastructure.py:133 | Joining the pieces of a split with the separator gives back the input. |
| Strings.SplitJoin | sphinxcontrib/traceables/infrastructure.py:133 | Splitting a join of separator-free pieces gives back the pieces. |
| Traceables.AddRelationship | sphinxcontrib/traceables/traceables.py:208-214 | Both tags become keys of the index. |
| Traceables.AddRelationshipLinks | sphinxcontrib/traceables/traceables.py:208-214 | Recording a relationship adds exactly the link and its mirror: (tag1, primary, tag2) and (tag2, secondary, tag1). |
| Traceables.Mentions | sphinxcontrib/traceables/traceables.py:181-193 | The tags an item lists under a relationship name are never empty. |
| Traceables.BuildIndexDeclared | sphinxcontrib/traceables/traceables.py:175-193 | The index the nested loops build over every item and type holds exactly the declared links, and no empty entry. |
| Traceables.IndexIsItsLinks | sphinxcontrib/traceables/traceables.py:200-206 | An index with no empty entry is determined by its links. Its keys are the links' sources, and each entry is the links from that key. |
| Traceables.AddListedTags | sphinxcontrib/traceables/traceables.py:183-186 | The innermost loop records one relationship per listed tag, in order, as the index function describes. It collects every listed tag. |
| Traceables.AddItemLinks | sphinxcontrib/traceables/traceables.py:180-193 | One item adds its primary listing and then its secondary listing to the index. Its tag and every listed tag are collected. |
| Traceables.AddTypeLinks | sphinxcontrib/traceables/traceables.py:179-193 | The middle loop indexes every item in turn for one relationship type. The collected tags only grow. |
| Traceables.BuildRelationshipIndex | sphinxcontrib/traceables/traceables.py:175-193 | The nested loops produce an index whose links are exactly the declared ones. `all_tags` covers every item and every listed tag. |
| Traceables.Resolved | sphinxcontrib/traceables/traceables.py:171-206 | The resolved store holds the old items plus every tag that appears in a declared link. |
| Traceables.LinkIsRecorded | sphinxcontrib/traceables/traceables.py:181-206 | Every declared link (a, n, b) ends up as b in a's relationships under n. |
| Traceables.PrimaryListingLinksBothWays | sphinxcontrib/traceables/traceables.py:181-214 | If A lists B under primary p of (p, s), then after resolution B is in A's p set and A is in B's s set. |
| Traceables.SecondaryListingLinksBothWays | sphinxcontrib/traceables/traceables.py:187-214 | If A lists B under secondary s of (p, s), then after resolution A is in B's p set and B is in A's s set. |
| Traceables.DeclaredLinksAreMirrored | sphinxcontrib/traceables/traceables.py:208-214 | Every declared link has a link back under some name (symmetric closure). |
| Traceables.ListedTagsExist | sphinxcontrib/traceables/traceables.py:176-197 | Every listed tag is in the resolved store. An undeclared one is there as a placeholder. |
| Traceables.UnlinkedNamesUntouched | sphinxcontrib/traceables/traceables.py:200-206 | A relationship name with no link from an item keeps its old entry, or stays absent. |
| Traceables.LinkedNamesOverwritten | sphinxcontrib/traceables/traceables.py:200-206 | A relationship name with links from an item is replaced by exactly the linked tags. |
| Traceables.ResolvedDeclaresTheSame | sphinxcontrib/traceables/traceables.py:171-206 | Resolution does not change the declared links. |
| Traceables.ResolvedIdempotent | sphinxcontrib/traceables/traceables.py:175-206 | Resolving an already resolved store changes nothing. |
| Traceables.AddPlaceholders | sphinxcontrib/traceables/traceables.py:195-197 | Every collected tag not already stored gets a placeholder. Stored items stay. |
| Traceables.CollectRelatives | sphinxcontrib/traceables/traceables.py:204-206 | Looking every indexed tag up collects exactly those tags, each of them stored. |
| Traceables.OverwriteRelationships | sphinxcontrib/traceables/traceables.py:202-206 | Each indexed name is set to its entry, and every other name keeps its old relatives. |
| Traceables.RewriteItem | sphinxcontrib/traceables/traceables.py:201-206 | One indexed item gets its relationships extended by its index entry. Every other item stays, and the store stays keyed by tag. |
| Traceables.RewriteRelationships | sphinxcontrib/traceables/traceables.py:199-206 | Each indexed item's named relationship sets are replaced by the index entries. Other items and names stay as they were. |
| Traceables.PhasesResolve | sphinxcontrib/traceables/traceables.py:171-206 | Indexing, placeholder creation and rewriting together produce exactly `Resolved(store, types)`. |
| Traceables.ProcessRelationships | sphinxcontrib/traceables/traceables.py:171-214 | The pass leaves the store equal to `Resolved(old store, types)`. |
| Traceables.ResolveXref | sphinxcontrib/traceables/traceables.py:269-275 | A cross-reference to an unknown tag creates its placeholder and warns. A known tag leaves the store unchanged, and warns only if the item is unresolved. |
| Traceables.Lookup | sphinxcontrib/traceables/traceables.py:43-47 | A missing key gives the default instead of failing. |
| Traceables.OptionSpecAcceptsEveryOption | sphinxcontrib/traceables/traceables.py:49-63 | The directive's option table accepts every name, keeps the value as written, and is always truthy. |
| Traceables.DefaultDirections | sphinxcontrib/traceables/traceables.py:284-290 | The direction table of the default relationship types, entry by entry. |
| Traceables.PlainAttributes | sphinxcontrib/traceables/traceables.py:231-234 | The plain attributes are exactly those that are neither a relationship name nor "title", with unchanged values. |
| Traceables.DropNonPlainAttributes | sphinxcontrib/traceables/traceables.py:231-234 | Popping the names one by one from a copy gives `PlainAttributes`. The input map is a value and stays unchanged. |
| Traceables.RelationshipFieldsOrder | sphinxcontrib/traceables/traceables.py:239-250 | One field per relationship, strictly sorted by name, each listing its relatives sorted by tag. |
| Traceables.AttributeFieldsOrder | sphinxcontrib/traceables/traceables.py:252-262 | One field per plain attribute, strictly sorted by name, with text " " + value. |
| Traceables.EmitRelationshipFields | sphinxcontrib/traceables/traceables.py:239-250 | The loop over the sorted relationships emits exactly `RelationshipFields`, one field per relationship in name order. |
| Traceables.EmitAttributeFields | sphinxcontrib/traceables/traceables.py:252-262 | The loop over the sorted plain attributes emits exactly `AttributeFields`, one field per attribute in name order. |
| Traceables.FieldListOrder | sphinxcontrib/traceables/traceables.py:236-264 | The relationship fields come first, then the attribute fields. |
| Traceables.AttributeListFields | sphinxcontrib/traceables/traceables.py:225-264 | A stored tag gives its field list. An unknown tag is an `UnknownTag` error. |
| Filter.EqualReflexive | sphinxcontrib/traceables/filter.py:85-86 | `==` holds between a value and itself. |
| Filter.EqualSymmetric | sphinxcontrib/traceables/filter.py:85-86 | `==` is symmetric. |
| Filter.FirstDifference | sphinxcontrib/traceables/filter.py:89-96 | Tuples agree up to the returned index, and differ there unless one tuple has ended. |
| Filter.Order | sphinxcontrib/traceables/filter.py:89-96 | Numbers compare as numbers and strings as strings. Tuples compare at their first differing element, or by length when one is a prefix of the other. The result fails, with `Unordered`, exactly when the operands are not of one kind (`Orderable`). |
| Filter.Member | sphinxcontrib/traceables/filter.py:97-100 | `in` tests equality with some item of a tuple, or the substring relation between strings. It fails exactly for any other container. |
| Filter.Apply | sphinxcontrib/traceables/filter.py:85-104 | A comparison gives a boolean. `==` and `!=` are equality and its negation. `in` is membership and `not in` its negation, failing with `NotAContainer` exactly when membership does. `<`, `<=`, `>`, `>=` give the ordering's result and fail with `Unordered` exactly for unorderable operands. `is` and `is not` exactly give `InvalidOperator`. |
| Filter.Eval | sphinxcontrib/traceables/filter.py:46-108 | Errors for an empty module, several expressions, an unknown identifier and any other node kind. A single-expression module and an `Expr` give their inner value. A number or string literal evaluates to itself and a name to its value. A list gives the tuple of its elements' values, failing exactly when one of them fails. An unchained comparison of two successful operands applies its operator to their values. |
| Filter.EvalList | sphinxcontrib/traceables/filter.py:71-72 | A list gives one value per element, in order, when every element evaluates. |
| Filter.ListFailsAtFirstFailingElement | sphinxcontrib/traceables/filter.py:71-72 | A failing list fails with the error of its first failing element. |
| Filter.NewMatcher | sphinxcontrib/traceables/filter.py:26-31 | An unparsable expression is an `InvalidSyntax` filter error at construction. Otherwise the matcher keeps the expression and the tree. |
| Filter.Matches | sphinxcontrib/traceables/filter.py:33-52 | Matching evaluates the single expression of the module, and rejects empty and multi-expression modules. |
| Filter.ListOfValuesInOrder | sphinxcontrib/traceables/filter.py:65-72 | A list of evaluated elements gives the tuple of their values, in order. |
| Filter.ChainedComparisonRejected | sphinxcontrib/traceables/filter.py:75-77 | A chained comparison is a filter error. |
| Filter.IdentityOperatorsRejected | sphinxcontrib/traceables/filter.py:101-104 | `is` and `is not` are rejected. |
| Filter.OperandFailureFirst | sphinxcontrib/traceables/filter.py:79-81 | A failing operand, the left one first, wins over the operator check. |
| Filter.NegatedOperators | sphinxcontrib/traceables/filter.py:85-100 | `!=` negates `==`, and `not in` negates `in`, on the same operands. |
| Filter.AtMostIsBelowOrEqual | sphinxcontrib/traceables/filter.py:89-92 | `<=` is `==` or `<`. |
| Filter.AboveIsSwappedBelow | sphinxcontrib/traceables/filter.py:89-96 | `>` and `>=` are `<` and `<=` with the operands swapped. |
| Filter.FirstDifferenceSymmetric | sphinxcontrib/traceables/filter.py:89-96 | The first difference of two tuples does not depend on their order. |
| Filter.MemberOfTupleHoldingIt | sphinxcontrib/traceables/filter.py:97-98 | A value is `in` every tuple that holds it. |
| Filter.EqualityExample | sphinxcontrib/traceables/filter.py:33-86 | `color == 'red'` matches a red item and not a blue one. |
| Filter.MembershipExample | sphinxcontrib/traceables/filter.py:71-98 | `version in [1, 2]` matches version 2, and `in []` matches nothing. |
| Utils.IsValidTraceableAttributeName | sphinxcontrib/traceables/utils.py:23-30 | An accepted name is non-empty and starts with a word character that is not a digit. |
| Utils.ValidNameIsIdentifier | sphinxcontrib/traceables/utils.py:23-30 | Accepted exactly when the name is non-empty, does not start with a digit and has only word characters. |
| Utils.NonWordCharRejected | sphinxcontrib/traceables/utils.py:23 | Any non-word character anywhere causes rejection. |
| Utils.TrailingNewlineRejected | sphinxcontrib/traceables/utils.py:23 | A trailing newline is rejected, because the pattern ends in `\Z`. |
| Utils.Examples | sphinxcontrib/traceables/utils.py:23-30 | "", "1abc" and "foo-bar" are rejected, and "_color2" is accepted. |
| Display.TitleOf | sphinxcontrib/traceables/display.py:75-87 | The heading shows the tag, plus " -- " and the title exactly when the item has a title. |
| Display.GroupRowsShape | sphinxcontrib/traceables/display.py:190-205 | Within a relationship's rows, only the first carries the name, and row j refers to the j-th relative. |
| Display.AppendGroup | sphinxcontrib/traceables/display.py:190-205 | The inner loop with the `first` flag appends exactly the rows of one relationship, only the first of them labelled. |
| Display.RelationshipRowCount | sphinxcontrib/traceables/display.py:190-205 | There is one relationship row per (relationship, relative) pair. |
| Display.RelationshipRowLabels | sphinxcontrib/traceables/display.py:190-205 | Every relationship row refers to a relative, and a labelled row names one of the relationships. |
| Display.AttributeRowsShape | sphinxcontrib/traceables/display.py:207-221 | One row per plain attribute, with " " + name and " " + value. |
| Display.AppendAttributeRows | sphinxcontrib/traceables/display.py:207-221 | The attribute loop appends exactly one row per plain attribute, in name order. |
| Display.BlockRowsShape | sphinxcontrib/traceables/display.py:182-221 | The block body has all relationship rows (references) first, then one text row per plain attribute. |
| Display.BlockLayout | sphinxcontrib/traceables/display.py:182-221 | The nested loops with the `first` flag build exactly `BlockRows`. |
| Display.Format | sphinxcontrib/traceables/display.py:92-223 | The admonition fails for a placeholder, which has no target node. Otherwise it carries the target id, the heading and the field list. The block always succeeds. |
| Display.TraceableDisplayProcessor.constructor | sphinxcontrib/traceables/display.py:152-227 | After loading, the registry holds "admonition" and "block". |
| Display.TraceableDisplayProcessor.RegisterFormatter | sphinxcontrib/traceables/display.py:37-39 | Registering sets the name's formatter, replacing any earlier one. Other names are unchanged. |
| Display.TraceableDisplayProcessor.LookupFormatter | sphinxcontrib/traceables/display.py:50 | The lookup finds exactly the registered names, with their formatters. |
| Display.TraceableDisplayProcessor.ProcessNode | sphinxcontrib/traceables/display.py:44-64 | An unknown tag fails first. An unknown format yields a message carrying the registered names, and the node is not replaced. Otherwise the node is replaced by the formatter's output. |
| Display.BuiltinFormatters | sphinxcontrib/traceables/display.py:100-227 | "block" shows every item, and "admonition" exactly the declared ones. |
| Graph.MergedStyles | sphinxcontrib/traceables/graph.py:52-53 | Configured entries replace default ones, and unmentioned default entries are kept. |
| Graph.BaseStylesAlwaysPresent | sphinxcontrib/traceables/graph.py:52-110 | Whatever is configured, both base styles exist, so the base-style lookup never fails. |
| Graph.MergingIsIdempotent | sphinxcontrib/traceables/graph.py:52-151 | Configuring the defaults themselves, or nothing, leaves the defaults. |
| Graph.BaseStyleName | sphinxcontrib/traceables/graph.py:107-110 | The base style is "__unresolved__" exactly for unresolved items, and "__default__" otherwise. |
| Graph.FullStyle | sphinxcontrib/traceables/graph.py:107-114 | Key by key, the category's setting wins over the base style's. |
| Graph.CategoryStyle | sphinxcontrib/traceables/graph.py:112-114 | An item with a non-empty category that has a configured entry gets that entry. Any other item gets the empty style. |
| Graph.NodeStyle | sphinxcontrib/traceables/graph.py:118-125 | The drawn style never has "textwrap". It has every other key of the merged style, with the merged style's value. |
| Graph.NodeLabel | sphinxcontrib/traceables/graph.py:116-122 | A missing or falsy "textwrap" leaves the title as is. A positive number `n` gives exactly the title wrapped at width `n`. Any other set value is a `BadWrapWidth` error carrying that value. |
| Graph.DotNodeOf | sphinxcontrib/traceables/graph.py:105-125 | An item is drawn exactly when its label can be made, with its tag, that label and the node style. |
| Graph.UncategorisedNodesUseTheBaseStyle | sphinxcontrib/traceables/graph.py:112-114 | With no category, or one with no configured style, the base style is used unchanged. |
| Graph.CategoryOverridesBase | sphinxcontrib/traceables/graph.py:112-114 | A configured category's settings appear in the node style. |
| Graph.DefaultStyleExamples | sphinxcontrib/traceables/graph.py:105-143 | Under the defaults, a placeholder is drawn with the unresolved style and its tag. A declared item is boxed, with its title wrapped at 16. |
| Graph.NeighbourhoodOf | sphinxcontrib/traceables/graph.py:56-75 | An unknown start tag and an undeclared relationship name (the least one) are errors. A graph exists only when every name is declared. |
| Graph.NeighbourhoodNodes | sphinxcontrib/traceables/graph.py:67-75 | The nodes are the start item and every direct relative, each once, sorted by tag. |
| Graph.EdgesAreThePairs | sphinxcontrib/traceables/graph.py:69-74 | One edge per (relationship, relative). Each edge leaves the start item with that relationship's direction, and every pair has its edge. |
| Graph.FirstUndeclaredIsLeast | sphinxcontrib/traceables/graph.py:70-71 | Walking the names in order, the first one without a direction is the least undeclared name. |
| Graph.NodesHold | sphinxcontrib/traceables/graph.py:67-73 | A tag is collected as a node exactly when it is the start item or a relative under one of the walked names. |
| Graph.StopsAtUndeclared | sphinxcontrib/traceables/graph.py:70-71 | When the walk meets a name without a direction, after only declared names, the outcome is the `Undeclared` error for that name. |
| Graph.DrawnWhenAllDeclared | sphinxcontrib/traceables/graph.py:67-75 | When every name of the start item has a direction, the graph holds the collected nodes sorted by tag and the collected edges. |
| Graph.Endpoints | sphinxcontrib/traceables/graph.py:98-101 | An edge is drawn from the start item when its direction is 0 or more, and towards it otherwise. |
| Graph.DirectionalLinkDrawnAlike | sphinxcontrib/traceables/graph.py:98-101 | A directional link is drawn the same way in the graphs of both its ends, from primary to secondary. |
| Graph.UndirectedLinkDrawnFromStart | sphinxcontrib/traceables/graph.py:98-101 | A non-directional link is drawn from whichever end's graph shows it. |
| Graph.GraphProcessor.constructor | sphinxcontrib/traceables/graph.py:50-53 | The processor's styles are the defaults merged with the configuration. |
| Graph.GraphProcessor.AddDotTraceable | sphinxcontrib/traceables/graph.py:105-125 | Copying, updating and popping a style gives exactly `DotNodeOf`. The configured table is not modified (no `modifies`). |
| Graph.GraphProcessor.AddGroup | sphinxcontrib/traceables/graph.py:72-74 | The inner loop adds every relative of one relationship as a node, and appends its edges in order. |
| Graph.GraphProcessor.WalkStep | sphinxcontrib/traceables/graph.py:70-74 | One declared relationship extends the collected nodes and edges to those of one more name. |
| Graph.GraphProcessor.WalkRelationships | sphinxcontrib/traceables/graph.py:67-74 | The walk over the names in sorted order either stops at the first name without a direction, all earlier names being declared, or collects exactly the nodes and edges of every name. |
| Graph.GraphProcessor.BuildGraph | sphinxcontrib/traceables/graph.py:56-75 | The loops collect exactly `NeighbourhoodOf` for the start tag. |
| Graph.GraphProcessor.ProcessGraphs | sphinxcontrib/traceables/graph.py:55-86 | Graphs are built in order until the first failure. An unknown start tag is warned about and ends the document's walk. An undeclared relationship name raises an uncaught `KeyError` in the source, which aborts the whole build; the model reports it and stops. |
| Listing.ListOfAttributes | sphinxcontrib/traceables/list.py:152-156 | No argument or an empty one gives []. Otherwise the result is the stripped, non-empty comma-separated names, in order. |
| Listing.ListOfAttributesExample | sphinxcontrib/traceables/list.py:152-156 | " status, ,owner " gives ["status", "owner"]. |
| Listing.CopyOptions | sphinxcontrib/traceables/list.py:175-176 | The node has exactly the keys "traceables-" + format/filter/attributes, each holding the option or None. |
| Listing.ByTag | sphinxcontrib/traceables/list.py:38-39 | Every stored item appears once, and only stored items. |
| Listing.ByTagTags | sphinxcontrib/traceables/list.py:38-39 | Sorting the items of a store keyed by tag lists exactly the sorted tags. |
| Listing.ByTagHoldsTheStore | sphinxcontrib/traceables/list.py:38-39 | The sorted items are exactly the stored items. |
| Listing.KeptExactly | sphinxcontrib/traceables/list.py:41-44 | Filtering keeps exactly the items the filter accepts. |
| Listing.KeptKeepsOrder | sphinxcontrib/traceables/list.py:41-44 | Filtering a tag-ordered sequence keeps it tag-ordered. |
| Listing.SelectionIsSortedAndExact | sphinxcontrib/traceables/list.py:38-46 | The selection holds exactly the stored items the filter accepts, or all of them with a falsy expression, once each in tag order. |
| Listing.Columns | sphinxcontrib/traceables/list.py:73-74 | The columns are "tag" and "title", then the requested attributes in order. |
| Listing.CellOf | sphinxcontrib/traceables/list.py:106-119 | The tag column holds a reference. The title column holds the item's title attribute, or its tag when it has none, because the uncalled `has_title` is always true. Another column holds the attribute, or "" when the item lacks it. |
| Listing.RowOf | sphinxcontrib/traceables/list.py:106-119 | A row has one cell per column, each the cell rule for that column. |
| Listing.Header | sphinxcontrib/traceables/list.py:90-97 | One header cell per column: the name capitalised. |
| Listing.TableOf | sphinxcontrib/traceables/list.py:72-121 | The table has the capitalised header and one row per item, in order, each with one cell per column. |
| Listing.TableShape | sphinxcontrib/traceables/list.py:73-119 | The header starts "Tag", "Title". Each row starts with the item's reference and its title (the tag for an untitled item), and is as wide as the header. |
| Listing.FormatRow | sphinxcontrib/traceables/list.py:106-119 | The cell loop builds exactly the row of the cell rules. |
| Listing.FormatTable | sphinxcontrib/traceables/list.py:72-121 | The header and row loops build exactly `TableOf`. |
| Listing.Bullets | sphinxcontrib/traceables/list.py:133-146 | One bullet per item, in order. Each has the item's reference followed by " " + its title, or " " + its tag when it has none, because the uncalled `has_title` is always true. |
| Matrix.NormalizeFilter | sphinxcontrib/traceables/matrix.py:36 | An absent or empty filter option becomes None. Anything else is kept. |
| Matrix.NormalizedFilterSelectsTheSame | sphinxcontrib/traceables/matrix.py:36-57 | Normalising the option does not change the selection. |
| Matrix.ItemsOf | sphinxcontrib/traceables/matrix.py:58-63 | The loop appends one reference per selected item, so the list names exactly the selection's tags, in order. |
| Matrix.ListItems | sphinxcontrib/traceables/matrix.py:49-63 | A list holds the items of the selection its filter option makes (all items in tag order without one). |
| Matrix.Lists | sphinxcontrib/traceables/matrix.py:52-64 | There is one list per list node. |
| Matrix.ListsSnoc | sphinxcontrib/traceables/matrix.py:52-64 | The lists of the first i + 1 nodes are those of the first i nodes followed by the list node i's own filter option selects, so the lists follow document order. |
| Matrix.ProcessLists | sphinxcontrib/traceables/matrix.py:48-64 | The loop over the list nodes replaces every node by its own list, in document order. |
| Matrix.UnfilteredListNamesEveryItem | sphinxcontrib/traceables/matrix.py:49-57 | Without a filter, a list names every stored tag once, in sorted order. |
| Ordering.SortedSet | sphinxcontrib/traceables/traceables.py:240-244 | `sorted()` of a set lists exactly the set's elements, as many as the set has. |
| Ordering.SortedSetSorted | sphinxcontrib/traceables/traceables.py:240-244 | The listing `sorted()` gives is strictly ascending: each element is below every later one, and none appears twice. |
| Ordering.SortedSetUnique | sphinxcontrib/traceables/traceables.py:240-244 | Only one strictly ascending sequence has a given set of elements. |
| Strings.Capitalize | sphinxcontrib/traceables/list.py:95 | `capitalize()` upper-cases the first character and lower-cases the rest. |
| Strings.Contains | sphinxcontrib/traceables/filter.py:97-98 | Substring `in` holds exactly when the needle occurs at some position. |

## Left out

- Docutils and Sphinx node construction are not modelled. This covers target, index, title and field nodes, `make_reference_node`/`make_refnode`/`NoUri`, warnings through `env.warn_node`, and serial numbers. The model produces the selected tags, fields and rows, and warnings become results or flags.
- `ast.parse` is a foreign call. `Filter.NewMatcher` takes the parse result: a tree, or `None` for a syntax error.
- Graphviz output (`Digraph`, `generate_dot`'s dot text) and `textwrap.wrap` are not modelled. A wrapped label is kept as the title together with its width.
- `TraceablesFilter` and `FormatProcessorBase` are used by `list.py`/`matrix.py` but not defined in the sources. The filter is the parameter `matches` and keeps items in their order. The list formatter registry is not modelled.
- `has_title` is used but not defined. It is read as a method returning `Infrastructure.HasTitle` (the "title" attribute is present and non-empty). `display.py:76` calls it. `list.py:114` and `list.py:142` test the method without calling it, which is always true, so the list formatters always show the title property (the tag for an untitled item).
- The item set lives in the build environment (`infrastructure.py:50-54`) and is shared by every store built over it. The model's store owns its items, so a store built over an environment already in use is not modelled.
- `display.py:41-42` calls `ProcessorBase.__init__` with an extra argument that `infrastructure.py:158` does not accept. The display processor is modelled as if it were constructed.
- The duplicate-tag `ValueError` that `traceables.py:148-151` expects is not modelled. `Infrastructure.TraceablesStorage.AddTraceable` replaces an item with the same tag, where Python's set would keep both and its dict lookup would pick one.
- `get_relationship_opposite`, matrix splitting, and `and`/`or` filters appear only in tests. The sources do not define them. A `BoolOp` node evaluates to `InvalidInput`.
- `Filter.Order`: numbers are integers (the tests' floats are not modelled). Python 2's arbitrary ordering between values of different kinds is an `Unordered` error instead.
- `Filter.Member`: `in` on a number or boolean container is a `NotAContainer` error (Python's TypeError).
- Attribute values are strings. A valueless directive option is modelled as the empty string; in the source it is `None` (the option spec at `traceables.py:63` returns the value docutils passes, which is `None`).
- Traceables.AttributeFields: a valueless option gives the text `" "` here, where `" " + None` at `traceables.py:259` raises TypeError in the source. The model does not capture that error.
- Traceables.AttributeListFields: same valueless-option TypeError as `Traceables.AttributeFields`, not captured.
- Display.AttributeRows: a valueless option gives `" "` here, where `" " + None` at `display.py:220` raises TypeError in the source. The model does not capture that error.
- Display.BlockRows: built from `Display.AttributeRows`, so it shares that row's uncaptured TypeError for a valueless option.
- Strings.Capitalize: the case mapping covers ASCII letters only. Python's unicode `capitalize()` maps every cased letter (`état` becomes `État`), so `Listing.Header` keeps a non-ASCII first letter as it is.
- Sets and dicts are iterated in sorted order where order is visible. This applies to the graph's relationship names, where the first undeclared name becomes the least one, and to the error message listing formatter names, which is a set.
- Admonition content moved from the directive node is not modelled, and neither are the table column widths.
- `latex_escape`, the passthrough visitors, `ProcessorManager`, the signal hooks and every `setup()` are environment plumbing.
- Concurrency does not arise: Sphinx runs these hooks sequentially.

## Findings

| source | as written | input that shows it | evidently intended | confidence | as-written member | corrected member |
|---|---|---|---|---|---|---|
| sphinxcontrib/traceables/infrastructure.py:43-45 | `purge` indexes each `Traceable` as if it were a node (`node["docname"]`). A `Traceable` is not subscriptable, so the first item raises TypeError (`Infrastructure.PurgeFinding`). | A store holding one item declared in document "index", purged for "index". | Compare the docname of the item's target node. Drop the items declared in that document and keep placeholders, which belong to no document. | not executed | Infrastructure.PurgeAsWritten | Infrastructure.TraceablesStorage.Purge |
