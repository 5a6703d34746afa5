/** `SummaryAppender` (documenters/grafana/SummaryAppender.ts). */
module SummaryAppender {
  import opened Wrappers
  import opened Nodes
  import opened Api

  /** The nodes `append` copies: the summary of a declared item that has a comment, nothing otherwise. */
  function SummaryNodes(item: ApiItem): seq<Node> {
    if item.doc.Declared? && item.doc.comment.Some? then item.doc.comment.value.summary else []
  }

  /** `append`: copies every summary node, in order, onto the end of the section. */
  method Append(output: DocSection, item: ApiItem)
    modifies output
    ensures output.nodes == old(output.nodes) + SummaryNodes(item)
    ensures |output.nodes| == |old(output.nodes)| + |SummaryNodes(item)|
  {
    if !item.doc.Declared? {
      return;
    }
    if item.doc.comment.None? {
      return;
    }
    var summary := item.doc.comment.value.summary;
    ghost var start := output.nodes;
    for i := 0 to |summary|
      invariant output.nodes == start + summary[..i]
    {
      output.AppendNode(summary[i]);
      assert summary[..i + 1] == summary[..i] + [summary[i]];
    }
    assert summary[..|summary|] == summary;
  }

  /**
   * Only a declared item with a comment contributes, and then its whole summary: an item
   * that is merely documented, or has no comment, leaves the section unchanged.
   */
  lemma SummaryNodesCases(item: ApiItem)
    ensures !item.doc.Declared? ==> SummaryNodes(item) == []
    ensures TsdocComment(item).None? ==> SummaryNodes(item) == []
    ensures item.doc.Declared? && TsdocComment(item).Some? ==>
      SummaryNodes(item) == TsdocComment(item).value.summary
  {
  }
}
