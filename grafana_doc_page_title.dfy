/**
 * `GrafanaDocPageTitle` (nodes/grafana/GrafanaDocPageTitle.ts): the page title as a node,
 * titled by the same switch as `PageTitleAppender`.
 */
module GrafanaDocPageTitle {
  import opened Wrappers
  import opened Nodes
  import opened Api
  import PageTitleAppender

  /** The constructor: the title, if the kind has one, is fixed from the item. */
  function Build(item: ApiItem): (node: Node)
    ensures node.GrafanaPageTitle? && node.pageTitle == PageTitleAppender.PageTitle(item)
  {
    GrafanaPageTitle(PageTitleAppender.PageTitle(item))
  }

  /** The nodes `writeTo` hands to the standard writer: one level-1 heading for a non-empty title. */
  function Rendered(title: Option<string>): seq<Node> {
    match title
    case Some(t) => if t == "" then [] else [Heading(t, Some(1))]
    case None => []
  }

  const MissingCallback: string := "TypeError: standardWriter is not a function"

  /** `writeTo`; `callback` says whether a standard writer was passed. */
  method WriteTo(title: Option<string>, writer: Writer, callback: bool) returns (r: Outcome)
    modifies writer
    ensures r.Pass? <==> callback || Rendered(title) == []
    ensures r.Pass? ==> writer.events == old(writer.events) + Delegations(Rendered(title))
    ensures r.Fail? ==> writer.events == old(writer.events) && r.message == MissingCallback
  {
    if title.None? || title.value == "" {
      return Pass;
    }
    if !callback {
      return Fail(MissingCallback);
    }
    writer.Delegate(Heading(title.value, Some(1)));
    return Pass;
  }

  /** The node renders exactly the heading `PageTitleAppender` appends; member kinds render nothing. */
  lemma RenderedAsAppender(item: ApiItem)
    ensures Rendered(Build(item).pageTitle) == PageTitleAppender.PageTitleNodes(item)
    ensures Rendered(Build(item).pageTitle) == [] <==> !PageTitleAppender.HasPageTitle(item.kind)
    ensures item.kind == Model ==> Rendered(Build(item).pageTitle) == [Heading("API Reference", Some(1))]
  {
    PageTitleAppender.PageTitleCases(item);
  }
}
