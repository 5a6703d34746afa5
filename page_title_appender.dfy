/** `PageTitleAppender` (documenters/grafana/PageTitleAppender.ts): the level-1 title of a page. */
module PageTitleAppender {
  import opened Wrappers
  import opened Nodes
  import opened Api
  import HeadingAppender

  /** The kinds that own a page title. */
  predicate HasPageTitle(k: Kind) {
    k in {Class, Enum, Interface, Function, Model, Namespace, Package, TypeAlias, Variable}
  }

  /** `titleFromItem`: nothing for the kinds outside the switch. */
  function PageTitle(item: ApiItem): Option<string> {
    match item.kind
    case Class => Some(item.scopedName + " class")
    case Enum => Some(item.scopedName + " enum")
    case Interface => Some(item.scopedName + " interface")
    case Function => Some(item.scopedName + " function")
    case Model => Some("API Reference")
    case Namespace => Some(item.scopedName + " namespace")
    case Package => Some(item.displayName + " package")
    case TypeAlias => Some(item.scopedName + " type")
    case Variable => Some(item.scopedName + " variable")
    case _ => None
  }

  /** The nodes `append` adds: one level-1 heading when there is a non-empty title. */
  function PageTitleNodes(item: ApiItem): seq<Node> {
    match PageTitle(item)
    case Some(t) => if t == "" then [] else [Heading(t, Some(1))]
    case None => []
  }

  /** `append`. */
  method Append(output: DocSection, item: ApiItem)
    modifies output
    ensures output.nodes == old(output.nodes) + PageTitleNodes(item)
  {
    var title := PageTitle(item);
    if title.None? || title.value == "" {
      return;
    }
    output.AppendNode(Heading(title.value, Some(1)));
  }

  /**
   * Exactly the page-owning kinds get a title, and then exactly one level-1 heading; the
   * model is titled `API Reference` and a package by its full display name.
   */
  lemma PageTitleCases(item: ApiItem)
    ensures PageTitle(item).Some? <==> HasPageTitle(item.kind)
    ensures PageTitleNodes(item) != [] <==> HasPageTitle(item.kind)
    ensures PageTitleNodes(item) != [] ==> PageTitleNodes(item) == [Heading(PageTitle(item).value, Some(1))]
    ensures item.kind == Model ==> PageTitle(item) == Some("API Reference")
    ensures item.kind == Package ==> PageTitle(item) == Some(item.displayName + " package")
  {
  }

  /**
   * Where both switches have a case (enums, functions, namespaces, type aliases and
   * variables) the page title and the member heading title are the same text; member
   * kinds have a heading title and no page title.
   */
  lemma PageAndHeadingTitlesAgree(item: ApiItem)
    ensures HasPageTitle(item.kind) && HeadingAppender.HasHeadingTitle(item.kind) ==>
      HeadingAppender.HeadingTitle(item) == Ok(PageTitle(item).value)
    ensures item.kind in {Constructor, ConstructSignature, Method, MethodSignature, Property, PropertySignature, EnumMember} ==>
      PageTitle(item).None?
  {
  }
}
