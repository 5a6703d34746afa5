/**
 * The table cells and section helpers shared by both documenters
 * (`_createTitleCell`, `_createDescriptionCell`, `_createModifiersCell`,
 * `_createPropertyTypeCell`, `_appendSection`, `_appendAndMergeSection`).
 */
module PageCells {
  import opened Wrappers
  import opened Nodes
  import opened Api
  import opened Utilities
  import HugoNaming
  import FlatNaming

  /** Which documenter composes the page: the nested Hugo layout or the flat one. */
  datatype Layout = Hugo | Flat

  /** A table row: one node sequence per cell. */
  type Row = seq<seq<Node>>

  /** The link text of a title cell. */
  function LinkText(layout: Layout, item: ApiItem): string {
    if layout == Hugo then GrafanaConciseSignature(item) else ConciseSignature(item)
  }

  /** The link target of a title cell: each layout's `_getUrlDestination`. */
  function LinkTarget(layout: Layout, item: ApiItem): string {
    if layout == Hugo then HugoNaming.UrlDestination(item) else FlatNaming.UrlDestination(item)
  }

  /** `_createTitleCell`. */
  function TitleCell(layout: Layout, item: ApiItem): seq<Node> {
    [Paragraph([LinkTag(Some(LinkText(layout, item)), UrlDestination(LinkTarget(layout, item)))])]
  }

  /**
   * A title cell is one paragraph holding one link. Outside constructors both layouts
   * show the same text; methods and class properties link to the same anchor, and
   * containers to the same folder, written with a trailing `/` only in the Hugo layout.
   */
  lemma TitleCellCases(item: ApiItem)
    ensures forall layout: Layout :: |TitleCell(layout, item)| == 1 && TitleCell(layout, item)[0].Paragraph?
    ensures item.kind !in {Constructor, ConstructSignature} ==> LinkText(Hugo, item) == LinkText(Flat, item)
    ensures item.kind in {Method, MethodSignature, Property} ==> TitleCell(Hugo, item) == TitleCell(Flat, item)
    ensures item.kind in {Package, TypeAlias, Enum, Variable, Function, Interface, Namespace, Class} ==>
      LinkTarget(Hugo, item) == LinkTarget(Flat, item) + "/"
  {
    GrafanaConciseSignatureIsConcise(item);
    FlatNaming.UrlDestinationAsHugo(item);
  }

  /** The `(BETA)` marker that opens the description of a beta item. */
  const BetaMarker: seq<Node> := [EmphasisSpan(true, true, [PlainText("(BETA)")]), PlainText(" ")]

  /** The summary of a documented item that has a comment; nothing otherwise. */
  function Summary(item: ApiItem): seq<Node> {
    match TsdocComment(item)
    case Some(c) => c.summary
    case None => []
  }

  /**
   * `_appendAndMergeSection`: a leading paragraph of `nodes` is merged, child by child,
   * into the section's trailing paragraph; every other node is appended as it is.
   */
  function AppendAndMerge(start: seq<Node>, nodes: seq<Node>): seq<Node> {
    if nodes == [] then start
    else if nodes[0].Paragraph? then AppendedInParagraph(start, nodes[0].children) + nodes[1..]
    else start + nodes
  }

  /**
   * Merging into an empty section reproduces the nodes, except that a leading empty
   * paragraph vanishes; merging after a paragraph puts the first paragraph's children
   * into it and leaves the paragraph count one lower than plain appending would.
   */
  lemma MergeIntoEmpty(nodes: seq<Node>)
    ensures AppendAndMerge([], nodes) ==
      if nodes != [] && nodes[0] == Paragraph([]) then nodes[1..] else nodes
  {
    if nodes != [] && nodes[0].Paragraph? && nodes[0].children != [] {
      assert [Paragraph(nodes[0].children)] + nodes[1..] == nodes;
    }
  }

  /** The children of a leading paragraph join the trailing paragraph of the section. */
  lemma MergeAfterParagraph(start: seq<Node>, nodes: seq<Node>)
    requires |start| > 0 && start[|start| - 1].Paragraph?
    requires nodes != [] && nodes[0].Paragraph? && nodes[0].children != []
    ensures |AppendAndMerge(start, nodes)| == |start| + |nodes| - 1
    ensures AppendAndMerge(start, nodes)[..|start| - 1] == start[..|start| - 1]
    ensures AppendAndMerge(start, nodes)[|start| - 1] ==
      Paragraph(start[|start| - 1].children + nodes[0].children)
    ensures AppendAndMerge(start, nodes)[|start|..] == nodes[1..]
  {
  }

  /** `_createDescriptionCell`. */
  function DescriptionCell(item: ApiItem): seq<Node> {
    var start := if item.releaseTag == Some(Beta) then AppendedInParagraph([], BetaMarker) else [];
    AppendAndMerge(start, Summary(item))
  }

  /**
   * A beta item's description opens with one paragraph that starts with the marker and
   * continues with the summary's first paragraph, if it has one; any other item's
   * description is its summary (less a leading empty paragraph).
   */
  lemma DescriptionCellCases(item: ApiItem)
    ensures item.releaseTag != Some(Beta) ==>
      DescriptionCell(item) == AppendAndMerge([], Summary(item))
    ensures item.releaseTag == Some(Beta) ==> |DescriptionCell(item)| >= 1 && DescriptionCell(item)[0].Paragraph?
    ensures item.releaseTag == Some(Beta) ==> BetaMarker <= DescriptionCell(item)[0].children
    ensures item.releaseTag == Some(Beta) && Summary(item) != [] && Summary(item)[0].Paragraph? ==>
      DescriptionCell(item) == [Paragraph(BetaMarker + Summary(item)[0].children)] + Summary(item)[1..]
    ensures item.releaseTag == Some(Beta) && (Summary(item) == [] || !Summary(item)[0].Paragraph?) ==>
      DescriptionCell(item) == [Paragraph(BetaMarker)] + Summary(item)
  {
    if item.releaseTag == Some(Beta) {
      BetaDescription(Summary(item));
    }
  }

  /** Merging a summary after the beta marker's paragraph. */
  lemma BetaDescription(s: seq<Node>)
    ensures AppendedInParagraph([], BetaMarker) == [Paragraph(BetaMarker)]
    ensures s != [] && s[0].Paragraph? ==>
      AppendAndMerge([Paragraph(BetaMarker)], s) == [Paragraph(BetaMarker + s[0].children)] + s[1..]
    ensures (s == [] || !s[0].Paragraph?) ==>
      AppendAndMerge([Paragraph(BetaMarker)], s) == [Paragraph(BetaMarker)] + s
    ensures BetaMarker <= AppendAndMerge([Paragraph(BetaMarker)], s)[0].children
  {
    if s != [] && s[0].Paragraph? && s[0].children == [] {
      assert BetaMarker + s[0].children == BetaMarker;
    }
  }

  /** `_createModifiersCell`: `static` in code for a static member, nothing otherwise. */
  function ModifiersCell(item: ApiItem): seq<Node> {
    if item.isStatic == Some(true) then AppendedInParagraph([], [CodeSpan("static")]) else []
  }

  /** `_createPropertyTypeCell`: the property's type in code, nothing for other items. */
  function PropertyTypeCell(item: ApiItem): seq<Node> {
    if item.property.Some? then AppendedInParagraph([], [CodeSpan(item.property.value.typeText)]) else []
  }

  /** The two cells are a single paragraph holding a single code span, or nothing. */
  lemma ModifierAndTypeCells(item: ApiItem)
    ensures ModifiersCell(item) != [] <==> item.isStatic == Some(true)
    ensures ModifiersCell(item) != [] ==> ModifiersCell(item) == [Paragraph([CodeSpan("static")])]
    ensures PropertyTypeCell(item) != [] <==> item.property.Some?
    ensures PropertyTypeCell(item) != [] ==>
      PropertyTypeCell(item) == [Paragraph([CodeSpan(item.property.value.typeText)])]
  {
  }

  /** `_appendSection`: every node, in order. */
  method AppendSection(output: DocSection, nodes: seq<Node>)
    modifies output
    ensures output.nodes == old(output.nodes) + nodes
  {
    ghost var start := output.nodes;
    for i := 0 to |nodes|
      invariant output.nodes == start + nodes[..i]
    {
      output.AppendNode(nodes[i]);
      assert nodes[..i + 1] == nodes[..i] + [nodes[i]];
    }
    assert nodes[..|nodes|] == nodes;
  }

  /** `_appendAndMergeSection`, with its `firstNode` flag. */
  method AppendAndMergeSection(output: DocSection, nodes: seq<Node>)
    modifies output
    ensures output.nodes == AppendAndMerge(old(output.nodes), nodes)
  {
    ghost var start := output.nodes;
    var firstNode := true;
    for i := 0 to |nodes|
      invariant firstNode <==> i == 0
      invariant i == 0 ==> output.nodes == start
      invariant i > 0 ==> output.nodes == AppendAndMerge(start, nodes[..i])
    {
      var node := nodes[i];
      if firstNode && node.Paragraph? {
        output.AppendNodesInParagraph(node.children);
        assert nodes[..1] == [node];
      } else {
        output.AppendNode(node);
        if i == 0 {
          assert nodes[..1] == [node];
        } else {
          assert nodes[..i + 1][0] == nodes[..i][0];
          assert nodes[..i + 1][1..] == nodes[..i][1..] + [node];
        }
      }
      firstNode := false;
    }
    assert nodes[..|nodes|] == nodes;
  }

  method CreateTitleCell(layout: Layout, item: ApiItem) returns (cell: seq<Node>)
    ensures cell == TitleCell(layout, item)
  {
    var linkText := if layout == Hugo then GrafanaConciseSignature(item) else ConciseSignature(item);
    var destination := if layout == Hugo then HugoNaming.UrlDestination(item) else FlatNaming.UrlDestination(item);
    cell := [Paragraph([LinkTag(Some(linkText), UrlDestination(destination))])];
  }

  method CreateDescriptionCell(item: ApiItem) returns (cell: seq<Node>)
    ensures cell == DescriptionCell(item)
  {
    var section := new DocSection();
    if item.releaseTag.Some? && item.releaseTag.value == Beta {
      section.AppendNodesInParagraph([EmphasisSpan(true, true, [PlainText("(BETA)")]), PlainText(" ")]);
    }
    var comment := TsdocComment(item);
    if comment.Some? {
      AppendAndMergeSection(section, comment.value.summary);
    }
    cell := section.nodes;
  }

  method CreateModifiersCell(item: ApiItem) returns (cell: seq<Node>)
    ensures cell == ModifiersCell(item)
  {
    var section := new DocSection();
    if item.isStatic.Some? && item.isStatic.value {
      section.AppendNodeInParagraph(CodeSpan("static"));
    }
    cell := section.nodes;
  }

  method CreatePropertyTypeCell(item: ApiItem) returns (cell: seq<Node>)
    ensures cell == PropertyTypeCell(item)
  {
    var section := new DocSection();
    if item.property.Some? {
      section.AppendNodeInParagraph(CodeSpan(item.property.value.typeText));
    }
    cell := section.nodes;
  }

  /** A table node with at least one row, and as many cells in each row as there are header titles. */
  predicate WellFormedTable(n: Node) {
    n.Table? ==> |n.rows| > 0 && forall r :: r in n.rows ==> |r| == |n.headerTitles|
  }

  /** Every table among the nodes is well formed. */
  predicate TablesWellFormed(nodes: seq<Node>) {
    forall i :: 0 <= i < |nodes| ==> WellFormedTable(nodes[i])
  }

  /** Every row has the given number of cells. */
  predicate RowsOfArity(rows: seq<Row>, n: nat) {
    forall i :: 0 <= i < |rows| ==> |rows[i]| == n
  }

  /**
   * A table with its heading, appended only when the table has a row: nothing for no
   * rows, otherwise the heading and then the table.
   */
  function TableSection(heading: Node, headerTitles: seq<string>, rows: seq<Row>): (r: seq<Node>)
    requires !heading.Table?
    ensures r == [] <==> rows == []
    ensures rows != [] ==> |r| == 2 && r[0] == heading && r[1] == Table(headerTitles, rows)
  {
    if rows == [] then [] else [heading, Table(headerTitles, rows)]
  }

  /** One `if (table.rows.length > 0)` block: the heading and the table, or nothing. */
  method WriteTableSection(output: DocSection, heading: Node, headerTitles: seq<string>, rows: seq<Row>)
    requires !heading.Table?
    modifies output
    ensures output.nodes == old(output.nodes) + TableSection(heading, headerTitles, rows)
  {
    if |rows| > 0 {
      output.AppendNode(heading);
      output.AppendNode(Table(headerTitles, rows));
    }
  }

  /** A table section whose rows all fit the header is well formed. */
  lemma TableSectionWellFormed(heading: Node, headerTitles: seq<string>, rows: seq<Row>)
    requires !heading.Table?
    requires RowsOfArity(rows, |headerTitles|)
    ensures TablesWellFormed(TableSection(heading, headerTitles, rows))
  {
  }

  /** Well-formedness of tables survives concatenation. */
  lemma WellFormedConcat(a: seq<Node>, b: seq<Node>)
    requires TablesWellFormed(a) && TablesWellFormed(b)
    ensures TablesWellFormed(a + b)
  {
    forall i | 0 <= i < |a + b|
      ensures WellFormedTable((a + b)[i])
    {
      if i >= |a| {
        assert (a + b)[i] == b[i - |a|];
      }
    }
  }

  /** Appending in two steps is appending the concatenation. */
  lemma AppendAssoc(a: seq<Node>, b: seq<Node>, c: seq<Node>)
    ensures a + b + c == a + (b + c)
  {
  }

  /** `_writeBoldText`: the same node `BoldTextAppender` appends. */
  function BoldHeading(text: string): (n: Node)
    ensures n == BoldText(text) && !n.Table?
  {
    Paragraph([EmphasisSpan(true, false, [PlainText(text)])])
  }
}
