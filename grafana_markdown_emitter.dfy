/**
 * `GrafanaMarkdownEmitter` (markdown/GrafanaMarkdownEmitter.ts): custom nodes are rendered
 * by their own `writeTo`, and links to declarations become Hugo `relref` shortcodes.
 * The inherited rendering of every other node is a `Delegated` emission; `getEscapedText`
 * and the declaration resolver are parameters.
 */
module GrafanaMarkdownEmitter {
  import opened Wrappers
  import opened Text
  import opened Nodes
  import opened Api
  import DocFrontMatter
  import GrafanaDocPageMeta
  import GrafanaDocHeading
  import GrafanaDocWarning
  import GrafanaDocPageTitle

  /** What rendering a node emits, given whether `writeTo` receives a standard-writer callback. */
  function NodeEmission(node: Node, callback: bool): Result<seq<Emission>> {
    match node
    case FrontMatter(title, keywords, draft) => Ok(LineEvents(DocFrontMatter.Lines(title, keywords, draft)))
    case PageMeta(title, keywords) => Ok(LineEvents(GrafanaDocPageMeta.Lines(title, keywords)))
    case GrafanaHeading(title) =>
      if callback then Ok([Delegated(GrafanaDocHeading.Rendered(title))])
      else Err(GrafanaDocHeading.MissingCallback)
    case GrafanaWarning(warning) =>
      if callback || GrafanaDocWarning.Rendered(warning) == [] then Ok(Delegations(GrafanaDocWarning.Rendered(warning)))
      else Err(GrafanaDocWarning.MissingCallback)
    case GrafanaPageTitle(title) =>
      if callback || GrafanaDocPageTitle.Rendered(title) == [] then Ok(Delegations(GrafanaDocPageTitle.Rendered(title)))
      else Err(GrafanaDocPageTitle.MissingCallback)
    case _ => Ok([Delegated(node)])
  }

  /** The `writeNode` dispatch, with or without a callback passed to `writeTo`. */
  method Dispatch(node: Node, writer: Writer, callback: bool) returns (r: Outcome)
    modifies writer
    ensures r.Pass? <==> NodeEmission(node, callback).Ok?
    ensures r.Pass? ==> writer.events == old(writer.events) + NodeEmission(node, callback).value
    ensures r.Fail? ==> writer.events == old(writer.events)
  {
    if node.HasWriteTo() {
      match node {
        case FrontMatter(title, keywords, draft) =>
          DocFrontMatter.WriteTo(title, keywords, draft, writer);
          r := Pass;
        case PageMeta(title, keywords) =>
          GrafanaDocPageMeta.WriteTo(title, keywords, writer);
          r := Pass;
        case GrafanaHeading(title) =>
          r := GrafanaDocHeading.WriteTo(title, writer, callback);
        case GrafanaWarning(warning) =>
          r := GrafanaDocWarning.WriteTo(warning, writer, callback);
        case GrafanaPageTitle(title) =>
          r := GrafanaDocPageTitle.WriteTo(title, writer, callback);
      }
    } else {
      writer.Delegate(node);
      r := Pass;
    }
  }

  /** `writeNode` as written: `writeTo(writer)` is called without the standard-writer callback. */
  method WriteNode(node: Node, writer: Writer) returns (r: Outcome)
    modifies writer
    ensures r.Pass? <==> NodeEmission(node, false).Ok?
    ensures r.Pass? ==> writer.events == old(writer.events) + NodeEmission(node, false).value
    ensures r.Fail? ==> writer.events == old(writer.events)
  {
    r := Dispatch(node, writer, false);
  }

  /** `writeNode` with the evidently intended callback: the inherited rendering. */
  method WriteNodeCorrected(node: Node, writer: Writer) returns (r: Outcome)
    modifies writer
    ensures r.Pass?
    ensures writer.events == old(writer.events) + NodeEmission(node, true).value
  {
    r := Dispatch(node, writer, true);
  }

  /**
   * A node with its own `writeTo` is rendered by it alone and never handed as a whole to
   * the inherited rendering; every other node is handed to it unchanged.
   */
  lemma OwnWriteToOnly(node: Node, callback: bool)
    ensures !node.HasWriteTo() ==> NodeEmission(node, callback) == Ok([Delegated(node)])
    ensures node.HasWriteTo() && NodeEmission(node, callback).Ok? ==> Delegated(node) !in NodeEmission(node, callback).value
  {
    if node.HasWriteTo() && NodeEmission(node, callback).Ok? {
      var e := NodeEmission(node, callback).value;
      forall i | 0 <= i < |e| ensures e[i] != Delegated(node) {
        if e[i].Delegated? {
          assert e[i].node.Heading? || e[i].node.NoteBox?;
        }
      }
    }
  }

  /**
   * Without the callback, rendering fails exactly for a heading node, a warning node
   * with a non-empty warning and a page-title node with a non-empty title: every member
   * heading of the flat layout hits the TypeError.
   */
  lemma AsWrittenFailures(node: Node)
    ensures NodeEmission(node, false).Err? <==>
      || node.GrafanaHeading?
      || (node.GrafanaWarning? && GrafanaDocWarning.Rendered(node.warning) != [])
      || (node.GrafanaPageTitle? && GrafanaDocPageTitle.Rendered(node.pageTitle) != [])
  {
  }

  /** With the callback nothing fails, and wherever the code as written succeeds the output is the same. */
  lemma CorrectedAgrees(node: Node)
    ensures NodeEmission(node, true).Ok?
    ensures NodeEmission(node, false).Ok? ==> NodeEmission(node, false) == NodeEmission(node, true)
  {
  }

  /** The outcome of `resolveDeclarationReference`. */
  datatype ResolveResult =
    | Resolved(item: ApiItem)
    | Unresolved(errorMessage: Option<string>)

  /** The link text: a non-empty explicit text, otherwise the resolved item's scoped name. */
  function LinkText(linkText: Option<string>, resolved: ApiItem): string {
    var text := if linkText.Some? then linkText.value else "";
    if |text| == 0 then resolved.scopedName else text
  }

  /** The Hugo shortcode that closes a link. */
  function RelRef(filename: string): string {
    "]({{< relref \"" + filename + "\" >}})"
  }

  /** What `writeLinkTagWithCodeDestination` writes. */
  function LinkWrites(linkText: Option<string>, result: ResolveResult,
                      filenameFor: ApiItem -> Option<string>, escape: string -> string): seq<Emission>
  {
    match result
    case Unresolved(_) => []
    case Resolved(item) =>
      var filename := filenameFor(item);
      if filename.None? || filename.value == "" then []
      else
        var text := LinkText(linkText, item);
        if |text| > 0 then [Text("["), Text(escape(CollapseWhitespace(text))), Text(RelRef(filename.value))]
        else []
  }

  /** The console warnings `writeLinkTagWithCodeDestination` prints. */
  function LinkWarnings(linkText: Option<string>, reference: string, result: ResolveResult,
                        filenameFor: ApiItem -> Option<string>): seq<string>
  {
    match result
    case Unresolved(message) =>
      if message.Some? && message.value != "" then
        ["WARNING: Unable to resolve reference \"" + reference + "\": " + message.value]
      else []
    case Resolved(item) =>
      var filename := filenameFor(item);
      if filename.None? || filename.value == "" then []
      else if |LinkText(linkText, item)| > 0 then []
      else ["WARNING: Unable to determine link text"]
  }

  /**
   * `writeLinkTagWithCodeDestination`: `reference` is the code destination as TSDoc text,
   * `result` what the resolver returned for it, `filenameFor` the documenter's
   * `onGetFilenameForApiItem` and `escape` the inherited `getEscapedText`.
   */
  method WriteLinkTagWithCodeDestination(linkText: Option<string>, reference: string, result: ResolveResult,
                                         filenameFor: ApiItem -> Option<string>, escape: string -> string,
                                         writer: Writer, log: Log)
    modifies writer, log
    ensures writer.events == old(writer.events) + LinkWrites(linkText, result, filenameFor, escape)
    ensures log.warnings == old(log.warnings) + LinkWarnings(linkText, reference, result, filenameFor)
  {
    if result.Resolved? {
      var filename := filenameFor(result.item);
      if filename.Some? && filename.value != "" {
        var text := if linkText.Some? then linkText.value else "";
        if |text| == 0 {
          text := result.item.scopedName;
        }
        if |text| > 0 {
          var encoded := escape(CollapseWhitespace(text));
          writer.Write("[");
          writer.Write(encoded);
          writer.Write("]({{< relref \"" + filename.value + "\" >}})");
        } else {
          log.Warn("WARNING: Unable to determine link text");
        }
      }
    } else if result.errorMessage.Some? && result.errorMessage.value != "" {
      log.Warn("WARNING: Unable to resolve reference \"" + reference + "\": " + result.errorMessage.value);
    }
  }

  /** The concatenated text of literal emissions. */
  function WrittenText(events: seq<Emission>): string {
    if events == [] then "" else (if events[0].Text? then events[0].text else "") + WrittenText(events[1..])
  }

  /**
   * A link is written exactly when the reference resolves, the filename is non-empty and
   * there is link text; it is then `[` + escaped text + `]({{< relref "<filename>" >}})`,
   * and the escaped text is a whitespace-collapsed form of the link text with the same
   * visible characters. Otherwise nothing is written.
   */
  lemma LinkWritesShape(linkText: Option<string>, result: ResolveResult,
                        filenameFor: ApiItem -> Option<string>, escape: string -> string)
    ensures var w := LinkWrites(linkText, result, filenameFor, escape);
      w != [] <==>
        && result.Resolved?
        && filenameFor(result.item).Some? && filenameFor(result.item).value != ""
        && LinkText(linkText, result.item) != ""
    ensures var w := LinkWrites(linkText, result, filenameFor, escape);
      w != [] ==>
        var text := LinkText(linkText, result.item);
        && WrittenText(w) == "[" + escape(CollapseWhitespace(text)) + RelRef(filenameFor(result.item).value)
        && Collapsed(CollapseWhitespace(text))
        && Visible(CollapseWhitespace(text)) == Visible(text)
  {
    var w := LinkWrites(linkText, result, filenameFor, escape);
    if w != [] {
      var text := LinkText(linkText, result.item);
      CollapseShape(text);
      CollapseIsCollapsed(text);
      var a, b, c := "[", escape(CollapseWhitespace(text)), RelRef(filenameFor(result.item).value);
      assert w == [Text(a), Text(b), Text(c)];
      assert WrittenText([Text(c)]) == c + WrittenText([]);
      assert WrittenText([Text(b), Text(c)]) == b + WrittenText([Text(c)]);
      assert WrittenText(w) == a + WrittenText([Text(b), Text(c)]);
    }
  }

  /** A non-empty explicit link text is used as is; an absent or empty one falls back to the scoped name. */
  lemma LinkTextChoice(linkText: Option<string>, resolved: ApiItem)
    ensures linkText.Some? && linkText.value != "" ==> LinkText(linkText, resolved) == linkText.value
    ensures linkText.None? || linkText.value == "" ==> LinkText(linkText, resolved) == resolved.scopedName
  {
  }

  /**
   * The silent and warning-only cases: an unresolved reference or a missing filename
   * writes nothing; an unresolved reference warns exactly when it carries a message;
   * a resolved one warns only when no link text can be found; a write and a warning
   * never happen together.
   */
  lemma LinkSilentCases(linkText: Option<string>, reference: string, result: ResolveResult,
                        filenameFor: ApiItem -> Option<string>, escape: string -> string)
    ensures result.Unresolved? ==> LinkWrites(linkText, result, filenameFor, escape) == []
    ensures result.Unresolved? ==>
      (LinkWarnings(linkText, reference, result, filenameFor) != [] <==>
         result.errorMessage.Some? && result.errorMessage.value != "")
    ensures result.Resolved? && (filenameFor(result.item).None? || filenameFor(result.item).value == "") ==>
      LinkWrites(linkText, result, filenameFor, escape) == [] && LinkWarnings(linkText, reference, result, filenameFor) == []
    ensures result.Resolved? ==>
      (LinkWarnings(linkText, reference, result, filenameFor) != [] <==>
         filenameFor(result.item).Some? && filenameFor(result.item).value != ""
         && LinkText(linkText, result.item) == "")
    ensures LinkWrites(linkText, result, filenameFor, escape) == [] || LinkWarnings(linkText, reference, result, filenameFor) == []
  {
  }
}
