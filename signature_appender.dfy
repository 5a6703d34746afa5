/** `SignatureAppender` (documenters/grafana/SignatureAppender.ts). */
module SignatureAppender {
  import opened Nodes
  import opened Api

  /** The nodes `append` adds for an item. */
  function SignatureNodes(item: ApiItem): seq<Node> {
    if item.doc.Declared? && |item.doc.excerptText| > 0 then
      [BoldText("Signature"), FencedCode(item.doc.excerptWithModifiers, "typescript")]
    else []
  }

  /** `append`. */
  method Append(output: DocSection, item: ApiItem)
    modifies output
    ensures output.nodes == old(output.nodes) + SignatureNodes(item)
  {
    if !item.doc.Declared? {
      return;
    }
    if |item.doc.excerptText| <= 0 {
      return;
    }
    output.AppendNode(BoldText("Signature"));
    output.AppendNode(FencedCode(item.doc.excerptWithModifiers, "typescript"));
  }

  /**
   * Something is appended exactly for a declared item with a non-empty excerpt, and then
   * a bold `Signature` paragraph followed by TypeScript code holding the excerpt with modifiers.
   */
  lemma SignatureNodesCases(item: ApiItem)
    ensures SignatureNodes(item) != [] <==> item.doc.Declared? && item.doc.excerptText != ""
    ensures SignatureNodes(item) != [] ==>
      && |SignatureNodes(item)| == 2
      && SignatureNodes(item)[0] == BoldText("Signature")
      && SignatureNodes(item)[1].FencedCode?
      && SignatureNodes(item)[1].language == "typescript"
      && SignatureNodes(item)[1].code == item.doc.excerptWithModifiers
  {
  }
}
