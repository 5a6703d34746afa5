/**
 * The comment-driven sections both documenters write: remarks and numbered examples
 * (`_writeRemarksSection`), exceptions (`_writeThrowsSection`), and the parameter table
 * with the return type (`_writeParameterTables`).
 */
module PageSections {
  import opened Wrappers
  import opened Text
  import opened Nodes
  import opened Api
  import opened PageCells

  /** `StandardTags.example.tagNameWithUpperCase`. */
  const ExampleTag: string := "@EXAMPLE"
  /** `StandardTags.throws.tagNameWithUpperCase`. */
  const ThrowsTag: string := "@THROWS"

  /** The custom blocks carrying the tag, in their order (the `filter` calls). */
  function TaggedBlocks(blocks: seq<Block>, tag: string): (r: seq<Block>)
    ensures |r| <= |blocks|
    ensures forall b :: b in r ==> b in blocks && b.tagUpper == tag
    ensures forall b :: b in blocks && b.tagUpper == tag ==> b in r
  {
    if blocks == [] then []
    else
      var last := blocks[|blocks| - 1];
      TaggedBlocks(blocks[..|blocks| - 1], tag) + (if last.tagUpper == tag then [last] else [])
  }

  /** The heading of example `number` out of `count`: numbered only when there is more than one. */
  function ExampleHeading(number: nat, count: nat): string {
    if count > 1 then "Example " + NatToString(number) else "Example"
  }

  /** The headings and contents of the given example blocks, numbered from 1. */
  function ExamplesNodes(blocks: seq<Block>, count: nat): seq<Node> {
    if blocks == [] then []
    else
      ExamplesNodes(blocks[..|blocks| - 1], count)
      + [Heading(ExampleHeading(|blocks|, count), None)] + blocks[|blocks| - 1].content
  }

  /** What `_writeRemarksSection` appends. */
  function RemarksNodes(item: ApiItem): seq<Node> {
    match TsdocComment(item)
    case None => []
    case Some(c) => RemarksBlock(c) + ExamplesNodes(TaggedBlocks(c.customBlocks, ExampleTag), |TaggedBlocks(c.customBlocks, ExampleTag)|)
  }

  /** The `Remarks` heading and the `@remarks` content, when the comment has that block. */
  function RemarksBlock(c: Comment): seq<Node> {
    if c.remarks.Some? then [Heading("Remarks", None)] + c.remarks.value else []
  }

  /**
   * A single example is headed `Example`; with more, the headings are `Example 1`,
   * `Example 2`, ..., pairwise distinct.
   */
  lemma ExampleHeadingsNumbered(j: nat, k: nat, count: nat)
    ensures count == 1 ==> ExampleHeading(j, count) == "Example"
    ensures count > 1 ==> ExampleHeading(j, count) == "Example " + NatToString(j)
    ensures count > 1 && j != k ==> ExampleHeading(j, count) != ExampleHeading(k, count)
  {
    if count > 1 && j != k && ExampleHeading(j, count) == ExampleHeading(k, count) {
      var p := "Example ";
      assert (p + NatToString(j))[|p|..] == NatToString(j);
      assert (p + NatToString(k))[|p|..] == NatToString(k);
      NatToStringInjective(j, k);
    }
  }

  /**
   * The examples are written in block order: the nodes for the first `k` blocks are a
   * prefix of the nodes for all of them, and block `k` follows with its own heading.
   */
  lemma {:induction false} ExamplesInOrder(blocks: seq<Block>, count: nat, k: nat)
    requires k < |blocks|
    ensures ExamplesNodes(blocks[..k + 1], count) ==
      ExamplesNodes(blocks[..k], count) + [Heading(ExampleHeading(k + 1, count), None)] + blocks[k].content
    ensures ExamplesNodes(blocks[..k + 1], count) <= ExamplesNodes(blocks, count)
  {
    assert blocks[..k + 1][..k] == blocks[..k];
    ExamplesPrefix(blocks, count, k + 1);
  }

  lemma {:induction false} ExamplesPrefix(blocks: seq<Block>, count: nat, k: nat)
    requires k <= |blocks|
    ensures ExamplesNodes(blocks[..k], count) <= ExamplesNodes(blocks, count)
    decreases |blocks| - k
  {
    if k < |blocks| {
      ExamplesPrefix(blocks, count, k + 1);
      assert blocks[..k + 1][..k] == blocks[..k];
    } else {
      assert blocks[..k] == blocks;
    }
  }

  /** `_writeRemarksSection`, with its `exampleNumber` counter. */
  method WriteRemarksSection(output: DocSection, item: ApiItem)
    modifies output
    ensures output.nodes == old(output.nodes) + RemarksNodes(item)
  {
    var comment := TsdocComment(item);
    if comment.None? {
      return;
    }
    var c := comment.value;
    ghost var start := output.nodes;
    if c.remarks.Some? {
      output.AppendNode(Heading("Remarks", None));
      AppendSection(output, c.remarks.value);
    }
    assert output.nodes == start + RemarksBlock(c);
    var exampleBlocks := TaggedBlocks(c.customBlocks, ExampleTag);
    WriteExamples(output, exampleBlocks);
  }

  /** The loop of `_writeRemarksSection` over the example blocks. */
  method WriteExamples(output: DocSection, exampleBlocks: seq<Block>)
    modifies output
    ensures output.nodes == old(output.nodes) + ExamplesNodes(exampleBlocks, |exampleBlocks|)
  {
    ghost var start := output.nodes;
    var exampleNumber := 1;
    for i := 0 to |exampleBlocks|
      invariant exampleNumber == i + 1
      invariant output.nodes == start + ExamplesNodes(exampleBlocks[..i], |exampleBlocks|)
    {
      var heading := if |exampleBlocks| > 1 then "Example " + NatToString(exampleNumber) else "Example";
      output.AppendNode(Heading(heading, None));
      AppendSection(output, exampleBlocks[i].content);
      exampleNumber := exampleNumber + 1;
      assert exampleBlocks[..i + 1][..i] == exampleBlocks[..i];
    }
    assert exampleBlocks[..|exampleBlocks|] == exampleBlocks;
  }

  /** The contents of the blocks, one after another. */
  function Contents(blocks: seq<Block>): seq<Node> {
    if blocks == [] then [] else Contents(blocks[..|blocks| - 1]) + blocks[|blocks| - 1].content
  }

  /** What `_writeThrowsSection` appends. */
  function ThrowsNodes(item: ApiItem): seq<Node> {
    match TsdocComment(item)
    case None => []
    case Some(c) =>
      var throwsBlocks := TaggedBlocks(c.customBlocks, ThrowsTag);
      if throwsBlocks == [] then [] else [Heading("Exceptions", None)] + Contents(throwsBlocks)
  }

  /**
   * The section is written exactly when the comment has a `@throws` block, and then opens
   * with one `Exceptions` heading.
   */
  lemma ThrowsCases(item: ApiItem)
    ensures ThrowsNodes(item) != [] <==>
      TsdocComment(item).Some? && exists b :: b in TsdocComment(item).value.customBlocks && b.tagUpper == ThrowsTag
    ensures ThrowsNodes(item) != [] ==> ThrowsNodes(item)[0] == Heading("Exceptions", None)
  {
    if TsdocComment(item).Some? {
      var c := TsdocComment(item).value;
      var tb := TaggedBlocks(c.customBlocks, ThrowsTag);
      if tb != [] {
        assert tb[0] in tb;
      }
    }
  }

  /** `_writeThrowsSection`. */
  method WriteThrowsSection(output: DocSection, item: ApiItem)
    modifies output
    ensures output.nodes == old(output.nodes) + ThrowsNodes(item)
  {
    var comment := TsdocComment(item);
    if comment.None? {
      return;
    }
    var throwsBlocks := TaggedBlocks(comment.value.customBlocks, ThrowsTag);
    if |throwsBlocks| > 0 {
      output.AppendNode(Heading("Exceptions", None));
      ghost var mid := output.nodes;
      for i := 0 to |throwsBlocks|
        invariant output.nodes == mid + Contents(throwsBlocks[..i])
      {
        AppendSection(output, throwsBlocks[i].content);
        assert throwsBlocks[..i + 1][..i] == throwsBlocks[..i];
      }
      assert throwsBlocks[..|throwsBlocks|] == throwsBlocks;
    }
  }

  /** The parameters of a function-like item. */
  function Parameters(item: ApiItem): seq<Parameter> {
    if item.parameterList.Some? then item.parameterList.value.parameters else []
  }

  /** One parameter's row: its name, its type in code, and its `@param` description. */
  function ParameterRow(p: Parameter): Row {
    [[Paragraph([PlainText(p.name)])],
     [Paragraph([CodeSpan(p.typeText)])],
     if p.paramBlock.Some? then p.paramBlock.value else []]
  }

  function ParameterRows(ps: seq<Parameter>): (rows: seq<Row>)
    ensures |rows| == |ps|
    ensures forall k :: 0 <= k < |ps| ==> rows[k] == ParameterRow(ps[k])
  {
    if ps == [] then [] else ParameterRows(ps[..|ps| - 1]) + [ParameterRow(ps[|ps| - 1])]
  }

  const ParameterHeaders: seq<string> := ["Parameter", "Type", "Description"]

  /** The declared return type in code: trimmed, or `(not declared)` when only whitespace is left. */
  function ReturnTypeCode(returnType: string): string {
    if Trim(returnType) == "" then "(not declared)" else Trim(returnType)
  }

  /** The `@returns` content of a documented item. */
  function ReturnsContent(item: ApiItem): seq<Node> {
    match TsdocComment(item)
    case Some(c) => if c.returnsBlock.Some? then c.returnsBlock.value else []
    case None => []
  }

  /** The return type paragraphs and the `@returns` content, for an item that has a return type. */
  function ReturnsNodes(item: ApiItem): seq<Node> {
    if item.returnType.Some? then
      [BoldHeading("Returns:"), Paragraph([CodeSpan(ReturnTypeCode(item.returnType.value))])] + ReturnsContent(item)
    else []
  }

  /** What `_writeParameterTables` appends. */
  function ParameterNodes(item: ApiItem): seq<Node> {
    TableSection(BoldHeading("Parameters"), ParameterHeaders, ParameterRows(Parameters(item))) + ReturnsNodes(item)
  }

  /**
   * The parameter table has one three-cell row per parameter, in order, and is left out
   * for a parameterless item; the return type is shown only for items that have one, and
   * is `(not declared)` exactly when its text is blank.
   */
  lemma ParameterNodesShape(item: ApiItem)
    ensures Parameters(item) == [] && item.returnType.None? ==> ParameterNodes(item) == []
    ensures Parameters(item) != [] ==>
      ParameterNodes(item)[..2] == [BoldText("Parameters"), Table(ParameterHeaders, ParameterRows(Parameters(item)))]
    ensures TablesWellFormed(TableSection(BoldHeading("Parameters"), ParameterHeaders, ParameterRows(Parameters(item))))
  {
    var rows := ParameterRows(Parameters(item));
    assert RowsOfArity(rows, |ParameterHeaders|);
    TableSectionWellFormed(BoldHeading("Parameters"), ParameterHeaders, rows);
  }

  /** The shown return type is `(not declared)` exactly when the text is blank or trims to those very words. */
  lemma ReturnTypeCodeCases(t: string)
    ensures ReturnTypeCode(t) == "(not declared)" <==>
      (Trim(t) == "(not declared)" || forall k :: 0 <= k < |t| ==> IsWhitespace(t[k]))
    ensures ReturnTypeCode(t) != ""
  {
    TrimIsEmpty(t);
  }

  /** `_writeParameterTables`. */
  method WriteParameterTables(output: DocSection, item: ApiItem)
    modifies output
    ensures output.nodes == old(output.nodes) + ParameterNodes(item)
  {
    ghost var start := output.nodes;
    var rows := BuildParameterRows(Parameters(item));
    WriteTableSection(output, BoldHeading("Parameters"), ParameterHeaders, rows);
    ghost var table := TableSection(BoldHeading("Parameters"), ParameterHeaders, rows);
    WriteReturns(output, item);
    AppendAssoc(start, table, ReturnsNodes(item));
  }

  /** The loop of `_writeParameterTables` that builds one row per parameter. */
  method BuildParameterRows(parameters: seq<Parameter>) returns (rows: seq<Row>)
    ensures rows == ParameterRows(parameters)
  {
    rows := [];
    for i := 0 to |parameters|
      invariant rows == ParameterRows(parameters[..i])
    {
      var p := parameters[i];
      var parameterDescription := new DocSection();
      if p.paramBlock.Some? {
        AppendSection(parameterDescription, p.paramBlock.value);
      }
      assert parameterDescription.nodes == if p.paramBlock.Some? then p.paramBlock.value else [];
      rows := rows + [[[Paragraph([PlainText(p.name)])], [Paragraph([CodeSpan(p.typeText)])], parameterDescription.nodes]];
      assert parameters[..i + 1][..i] == parameters[..i];
    }
    assert parameters[..|parameters|] == parameters;
  }

  /** The return-type part of `_writeParameterTables`. */
  method WriteReturns(output: DocSection, item: ApiItem)
    modifies output
    ensures output.nodes == old(output.nodes) + ReturnsNodes(item)
  {
    if item.returnType.Some? {
      output.AppendNode(BoldHeading("Returns:"));
      output.AppendNode(Paragraph([CodeSpan(ReturnTypeCode(item.returnType.value))]));
      var comment := TsdocComment(item);
      if comment.Some? && comment.value.returnsBlock.Some? {
        AppendSection(output, comment.value.returnsBlock.value);
      }
    }
  }
}
