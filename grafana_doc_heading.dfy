/**
 * `GrafanaDocHeading` (nodes/grafana/GrafanaDocHeading.ts): the member heading as a node,
 * titled by the same switch as `HeadingAppender`.
 */
module GrafanaDocHeading {
  import opened Wrappers
  import opened Nodes
  import opened Api
  import HeadingAppender

  /** The constructor: throws for the kinds the title switch does not handle. */
  function Build(item: ApiItem): Result<Node> {
    match HeadingAppender.HeadingTitle(item)
    case Ok(t) => Ok(GrafanaHeading(t))
    case Err(e) => Err(e)
  }

  /** The node `writeTo` hands to the standard writer: a level-2 heading with the title. */
  function Rendered(title: string): Node {
    Heading(title, Some(2))
  }

  const MissingCallback: string := "TypeError: standardWriter is not a function"

  /** `writeTo`; `callback` says whether a standard writer was passed. */
  method WriteTo(title: string, writer: Writer, callback: bool) returns (r: Outcome)
    modifies writer
    ensures r.Pass? <==> callback
    ensures r.Pass? ==> writer.events == old(writer.events) + [Delegated(Rendered(title))]
    ensures r.Fail? ==> writer.events == old(writer.events) && r.message == MissingCallback
  {
    if !callback {
      return Fail(MissingCallback);
    }
    writer.Delegate(Heading(title, Some(2)));
    return Pass;
  }

  /**
   * Building throws exactly where `HeadingAppender` throws, and otherwise the node renders
   * the heading `HeadingAppender` appends (for a non-empty title).
   */
  lemma BuildAsAppender(item: ApiItem)
    ensures Build(item).Err? <==> !HeadingAppender.HasHeadingTitle(item.kind)
    ensures Build(item).Ok? && Build(item).value.title != "" ==>
      HeadingAppender.HeadingNodes(item, HeadingAppender.AsWritten) == Ok([Rendered(Build(item).value.title)])
  {
  }
}
