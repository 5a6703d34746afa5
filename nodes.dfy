/**
 * The document tree: the TSDoc node kinds the documenters build, the custom nodes of
 * the Grafana profile, and the section (`DocSection`) that pages are appended to.
 */
module Nodes {
  import opened Wrappers

  /** Where a link tag points: a literal URL, or a declaration reference resolved at emission time. */
  datatype LinkDestination =
    | UrlDestination(url: string)
    | CodeDestination(reference: string)

  datatype Node =
    | PlainText(text: string)
    | Paragraph(children: seq<Node>)
    | EmphasisSpan(bold: bool, italic: bool, children: seq<Node>)
      /** A `DocHeading`; `level` is None when the caller leaves it to the node's default. */
    | Heading(title: string, level: Option<nat>)
    | CodeSpan(code: string)
    | FencedCode(code: string, language: string)
    | LinkTag(linkText: Option<string>, destination: LinkDestination)
    | NoteBox(children: seq<Node>)
      /** A table: header titles and rows; a row is a sequence of cells, a cell a sequence of nodes. */
    | Table(headerTitles: seq<string>, rows: seq<seq<seq<Node>>>)
      /** Any other node that arrives inside a documentation comment (soft break, HTML tag, ...). */
    | OtherNode(kind: string)
      /** The Hugo front matter (`DocFrontMatter`). */
    | FrontMatter(title: string, keywords: seq<string>, draft: bool)
      /** The Grafana page meta block (`GrafanaDocPageMeta`). */
    | PageMeta(title: string, keywords: seq<string>)
      /** `GrafanaDocHeading`: a level-2 heading rendered through the standard writer. */
    | GrafanaHeading(title: string)
      /** `GrafanaDocWarning`: the warning chosen when the node was built, if any. */
    | GrafanaWarning(warning: Option<string>)
      /** `GrafanaDocPageTitle`: the page title chosen when the node was built, if any. */
    | GrafanaPageTitle(pageTitle: Option<string>)
  {
    /** Nodes that carry their own `writeTo` and are rendered by it. */
    predicate HasWriteTo() {
      FrontMatter? || PageMeta? || GrafanaHeading? || GrafanaWarning? || GrafanaPageTitle?
    }
  }

  /** A paragraph holding one bold span of plain text. */
  function BoldText(text: string): Node {
    Paragraph([EmphasisSpan(true, false, [PlainText(text)])])
  }

  /** The note box that carries a warning. */
  function WarningBox(warning: string): Node {
    NoteBox([Paragraph([PlainText(warning)])])
  }

  /**
   * The effect of TSDoc's `appendNodesInParagraph`: the nodes join the trailing
   * paragraph when the section ends with one, and a new paragraph otherwise; an empty
   * list changes nothing.
   */
  function AppendedInParagraph(nodes: seq<Node>, xs: seq<Node>): (r: seq<Node>)
  {
    if xs == [] then nodes
    else if |nodes| > 0 && nodes[|nodes| - 1].Paragraph? then
      nodes[..|nodes| - 1] + [Paragraph(nodes[|nodes| - 1].children + xs)]
    else nodes + [Paragraph(xs)]
  }

  /** Appending nodes one at a time into the trailing paragraph is appending them all at once. */
  lemma AppendedInParagraphStep(nodes: seq<Node>, xs: seq<Node>, x: Node)
    ensures AppendedInParagraph(AppendedInParagraph(nodes, xs), [x]) == AppendedInParagraph(nodes, xs + [x])
  {
    var m := AppendedInParagraph(nodes, xs);
    if xs != [] {
      assert m[|m| - 1].Paragraph?;
      if |nodes| > 0 && nodes[|nodes| - 1].Paragraph? {
        assert m[..|m| - 1] == nodes[..|nodes| - 1];
        assert nodes[|nodes| - 1].children + xs + [x] == nodes[|nodes| - 1].children + (xs + [x]);
      } else {
        assert m[..|m| - 1] == nodes;
      }
    } else {
      assert xs + [x] == [x];
    }
  }

  /** A section of the document tree whose list of nodes grows by appending. */
  class DocSection {
    var nodes: seq<Node>

    constructor ()
      ensures nodes == []
    {
      nodes := [];
    }

    method AppendNode(node: Node)
      modifies this
      ensures nodes == old(nodes) + [node]
    {
      nodes := nodes + [node];
    }

    /** TSDoc's `appendNodeInParagraph`. */
    method AppendNodeInParagraph(node: Node)
      modifies this
      ensures nodes == AppendedInParagraph(old(nodes), [node])
    {
      if |nodes| > 0 && nodes[|nodes| - 1].Paragraph? {
        var last := nodes[|nodes| - 1];
        nodes := nodes[..|nodes| - 1] + [Paragraph(last.children + [node])];
      } else {
        nodes := nodes + [Paragraph([node])];
      }
    }

    /** TSDoc's `appendNodesInParagraph`: `appendNodeInParagraph` for each node in turn. */
    method AppendNodesInParagraph(xs: seq<Node>)
      modifies this
      ensures nodes == AppendedInParagraph(old(nodes), xs)
    {
      ghost var start := nodes;
      for i := 0 to |xs|
        invariant nodes == AppendedInParagraph(start, xs[..i])
      {
        AppendNodeInParagraph(xs[i]);
        AppendedInParagraphStep(start, xs[..i], xs[i]);
        assert xs[..i + 1] == xs[..i] + [xs[i]];
      }
      assert xs[..|xs|] == xs;
    }
  }

  /** What reaches the output: literal text, or a node handed to the standard Markdown rendering. */
  datatype Emission = Text(text: string) | Delegated(node: Node)

  /** The emissions of writing each line with `writeLine`. */
  function LineEvents(lines: seq<string>): (r: seq<Emission>)
    ensures |r| == |lines| && forall i :: 0 <= i < |lines| ==> r[i] == Text(lines[i] + "\n")
  {
    seq(|lines|, i requires 0 <= i < |lines| => Text(lines[i] + "\n"))
  }

  /** The emissions of handing each node to the standard rendering. */
  function Delegations(nodes: seq<Node>): (r: seq<Emission>)
    ensures |r| == |nodes| && forall i :: 0 <= i < |nodes| ==> r[i] == Delegated(nodes[i])
  {
    seq(|nodes|, i requires 0 <= i < |nodes| => Delegated(nodes[i]))
  }

  /** The text sink of the emitter (`IndentedWriter` at indentation zero). */
  class Writer {
    var events: seq<Emission>

    constructor ()
      ensures events == []
    {
      events := [];
    }

    /** `write(s)`. */
    method Write(s: string)
      modifies this
      ensures events == old(events) + [Text(s)]
    {
      events := events + [Text(s)];
    }

    /** `writeLine(s)`: the text followed by a line break. */
    method WriteLine(s: string)
      modifies this
      ensures events == old(events) + [Text(s + "\n")]
    {
      events := events + [Text(s + "\n")];
    }

    /** The standard (inherited) rendering of a node, which this model does not expand. */
    method Delegate(node: Node)
      modifies this
      ensures events == old(events) + [Delegated(node)]
    {
      events := events + [Delegated(node)];
    }
  }

  /** The console warnings printed during emission. */
  class Log {
    var warnings: seq<string>

    constructor ()
      ensures warnings == []
    {
      warnings := [];
    }

    method Warn(message: string)
      modifies this
      ensures warnings == old(warnings) + [message]
    {
      warnings := warnings + [message];
    }
  }
}
