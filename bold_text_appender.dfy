/** `BoldTextAppender` (documenters/grafana/BoldTextAppender.ts). */
module BoldTextAppender {
  import opened Nodes

  /** `append`: adds one paragraph holding one bold span of the text. */
  method Append(output: DocSection, text: string)
    modifies output
    ensures output.nodes == old(output.nodes) + [BoldText(text)]
  {
    output.AppendNode(BoldText(text));
  }

  /** The appended node is a paragraph with one bold, non-italic span holding exactly the text. */
  lemma BoldTextShape(text: string)
    ensures BoldText(text).Paragraph? && |BoldText(text).children| == 1
    ensures BoldText(text).children[0] == EmphasisSpan(true, false, [PlainText(text)])
  {
  }

  /** Distinct texts give distinct nodes: the text can be read back from the node. */
  lemma BoldTextInjective(a: string, b: string)
    requires BoldText(a) == BoldText(b)
    ensures a == b
  {
    assert BoldText(a).children[0].children[0].text == a;
  }
}
