/**
 * `GrafanaDocWarning` (nodes/grafana/GrafanaDocWarning.ts): the warning chosen when the
 * node is built, by the same deprecated-first rule as `WarningAppender`, and rendered
 * through the standard-writer callback.
 */
module GrafanaDocWarning {
  import opened Wrappers
  import opened Nodes
  import opened Api
  import WarningAppender

  /** The constructor: the warning is fixed once, from the item. */
  function Build(item: ApiItem): (node: Node)
    ensures node.GrafanaWarning? && node.warning == WarningAppender.WarningForItem(item)
  {
    GrafanaWarning(WarningAppender.WarningForItem(item))
  }

  /** The nodes `writeTo` hands to the standard writer: a note box for a non-empty warning. */
  function Rendered(warning: Option<string>): seq<Node> {
    match warning
    case Some(w) => if w == "" then [] else [WarningBox(w)]
    case None => []
  }

  /** The error of calling a callback that was not passed. */
  const MissingCallback: string := "TypeError: stdWriter is not a function"

  /**
   * `writeTo`; `callback` says whether a standard writer was passed. Nothing is ever written
   * to the raw writer; a non-empty warning without a callback is the TypeError.
   */
  method WriteTo(warning: Option<string>, writer: Writer, callback: bool) returns (r: Outcome)
    modifies writer
    ensures r.Pass? <==> callback || Rendered(warning) == []
    ensures r.Pass? ==> writer.events == old(writer.events) + Delegations(Rendered(warning))
    ensures r.Fail? ==> writer.events == old(writer.events) && r.message == MissingCallback
  {
    if warning.None? || warning.value == "" {
      return Pass;
    }
    if !callback {
      return Fail(MissingCallback);
    }
    writer.Delegate(NoteBox([Paragraph([PlainText(warning.value)])]));
    return Pass;
  }

  /**
   * The node renders exactly the box `WarningAppender` appends for the same item: none for
   * deprecated, public and untagged items, the preview notice for alpha, beta and untagged releases.
   */
  lemma RenderedAsAppender(item: ApiItem)
    ensures Rendered(Build(item).warning) == WarningAppender.WarningNodes(item)
    ensures WarningAppender.IsDeprecated(item) ==> Rendered(Build(item).warning) == []
  {
  }
}
