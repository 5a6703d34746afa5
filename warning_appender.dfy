/** `WarningAppender` (documenters/grafana/WarningAppender.ts). */
module WarningAppender {
  import opened Wrappers
  import opened Nodes
  import opened Api

  /** The preview notice for unstable releases. */
  const Unstable: string :=
    "This API is provided as a preview for developers and may change"
    + " based on feedback that we receive.  Do not use this API in a production environment."

  /** The deprecation notice: empty. */
  const Deprecated: string := ""

  /** `isDeprecated`: a documented item whose comment has a `@deprecated` block. */
  predicate IsDeprecated(item: ApiItem) {
    TsdocComment(item).Some? && TsdocComment(item).value.deprecated
  }

  /** A release tag that calls for the preview notice: alpha, beta or none given. */
  predicate IsUnstableTag(tag: ReleaseTag) {
    tag == Alpha || tag == Beta || tag == Unspecified
  }

  /** `warningForItem`: deprecation is checked first, then the release tag. */
  function WarningForItem(item: ApiItem): Option<string> {
    if IsDeprecated(item) then Some(Deprecated)
    else if item.releaseTag.Some? && IsUnstableTag(item.releaseTag.value) then Some(Unstable)
    else None
  }

  /** The nodes `append` adds: one note box for a non-empty warning. */
  function WarningNodes(item: ApiItem): seq<Node> {
    match WarningForItem(item)
    case Some(w) => if w == "" then [] else [WarningBox(w)]
    case None => []
  }

  /** `append`. */
  method Append(output: DocSection, item: ApiItem)
    modifies output
    ensures output.nodes == old(output.nodes) + WarningNodes(item)
  {
    var warning := WarningForItem(item);
    if warning.None? || warning.value == "" {
      return;
    }
    output.AppendNode(NoteBox([Paragraph([PlainText(warning.value)])]));
  }

  /**
   * A box is appended exactly for an item that is not deprecated and carries an alpha,
   * beta or unspecified release tag, and it holds the preview notice; deprecated items,
   * public or internal items and items without a release tag get nothing.
   */
  lemma WarningNodesCases(item: ApiItem)
    ensures WarningNodes(item) != [] <==>
      !IsDeprecated(item) && item.releaseTag.Some? && IsUnstableTag(item.releaseTag.value)
    ensures WarningNodes(item) != [] ==> WarningNodes(item) == [NoteBox([Paragraph([PlainText(Unstable)])])]
    ensures IsDeprecated(item) ==> WarningForItem(item) == Some("")
  {
  }

  /** Items without a comment, and items that are not documented at all, are never deprecated. */
  lemma UndocumentedNeverDeprecated(item: ApiItem)
    requires item.doc.Undocumented? || TsdocComment(item).None?
    ensures !IsDeprecated(item)
  {
  }
}
