/**
 * `HeadingAppender` (documenters/grafana/HeadingAppender.ts): the level-2 heading of a
 * member or of a page's main declaration.
 */
module HeadingAppender {
  import opened Wrappers
  import opened Nodes
  import opened Api
  import opened Utilities

  /** The kinds `_titleFromItem` has a title for. */
  predicate HasHeadingTitle(k: Kind) {
    k in {Enum, Constructor, ConstructSignature, Method, MethodSignature, Function, Namespace,
          Property, PropertySignature, TypeAlias, Variable}
  }

  /** The error thrown for a kind a switch does not handle. */
  function Unsupported(k: Kind): string {
    "Unsupported API item kind: " + KindName(k)
  }

  /** `_titleFromItem` as written: any other kind throws. */
  function HeadingTitle(item: ApiItem): Result<string> {
    match item.kind
    case Enum => Ok(item.scopedName + " enum")
    case Constructor => Ok(ConciseSignature(item))
    case ConstructSignature => Ok(ConciseSignature(item))
    case Method => Ok(item.displayName + " method")
    case MethodSignature => Ok(item.displayName + " method")
    case Function => Ok(item.scopedName + " function")
    case Namespace => Ok(item.scopedName + " namespace")
    case Property => Ok(item.displayName + " property")
    case PropertySignature => Ok(item.displayName + " property")
    case TypeAlias => Ok(item.scopedName + " type")
    case Variable => Ok(item.scopedName + " variable")
    case _ => Err(Unsupported(item.kind))
  }

  /**
   * The title with the evidently intended behaviour for the other kinds: no title, so
   * that `append` adds nothing (its `if (!title) return;` anticipates a missing title).
   */
  function CorrectedTitle(item: ApiItem): Option<string> {
    match HeadingTitle(item)
    case Ok(t) => Some(t)
    case Err(_) => None
  }

  /** How a composer treats the kinds the title switch does not handle. */
  datatype HeadingRule = AsWritten | Corrected

  /** The heading nodes for an item: nothing for an empty title, one level-2 heading otherwise. */
  function HeadingNodesFor(title: string): seq<Node> {
    if title == "" then [] else [Heading(title, Some(2))]
  }

  /** What `append` adds under a rule; an error is the exception thrown. */
  function HeadingNodes(item: ApiItem, rule: HeadingRule): Result<seq<Node>> {
    match HeadingTitle(item)
    case Ok(t) => Ok(HeadingNodesFor(t))
    case Err(e) => if rule == AsWritten then Err(e) else Ok([])
  }

  /** `append`; a failure is the exception `_titleFromItem` throws, and the section is then unchanged. */
  method Append(output: DocSection, item: ApiItem, rule: HeadingRule) returns (r: Outcome)
    modifies output
    ensures r.Pass? <==> HeadingNodes(item, rule).Ok?
    ensures r.Pass? ==> output.nodes == old(output.nodes) + HeadingNodes(item, rule).value
    ensures r.Fail? ==> output.nodes == old(output.nodes) && r.message == HeadingNodes(item, rule).message
  {
    var title := HeadingTitle(item);
    if title.Err? {
      if rule == AsWritten {
        return Fail(title.message);
      }
      return Pass;
    }
    if title.value == "" {
      return Pass;
    }
    output.AppendNode(Heading(title.value, Some(2)));
    return Pass;
  }

  /** The title throws exactly for the kinds outside the switch, with the kind's name in the message. */
  lemma HeadingTitleThrows(item: ApiItem)
    ensures HeadingTitle(item).Err? <==> !HasHeadingTitle(item.kind)
    ensures HeadingTitle(item).Err? ==> HeadingTitle(item).message == "Unsupported API item kind: " + KindName(item.kind)
  {
  }

  /** Classes, interfaces, packages and the model are among the kinds that throw. */
  lemma ContainerHeadingsThrow(item: ApiItem)
    requires item.kind in {Class, Interface, Package, Model}
    ensures HeadingNodes(item, AsWritten).Err?
    ensures HeadingNodes(item, Corrected) == Ok([])
  {
  }

  /**
   * Methods and properties are titled by display name, the named declarations by scoped
   * name, constructors by their concise signature.
   */
  lemma HeadingTitleCases(item: ApiItem)
    ensures item.kind in {Method, MethodSignature} ==> HeadingTitle(item) == Ok(item.displayName + " method")
    ensures item.kind in {Property, PropertySignature} ==> HeadingTitle(item) == Ok(item.displayName + " property")
    ensures item.kind in {Constructor, ConstructSignature} ==> HeadingTitle(item) == Ok(ConciseSignature(item))
    ensures item.kind == Enum ==> HeadingTitle(item) == Ok(item.scopedName + " enum")
    ensures item.kind == Function ==> HeadingTitle(item) == Ok(item.scopedName + " function")
    ensures item.kind == Namespace ==> HeadingTitle(item) == Ok(item.scopedName + " namespace")
    ensures item.kind == TypeAlias ==> HeadingTitle(item) == Ok(item.scopedName + " type")
    ensures item.kind == Variable ==> HeadingTitle(item) == Ok(item.scopedName + " variable")
  {
  }

  /** The corrected rule agrees with the code wherever the code does not throw, and never fails. */
  lemma CorrectedAgrees(item: ApiItem)
    ensures HeadingNodes(item, Corrected).Ok?
    ensures HeadingNodes(item, AsWritten).Ok? ==> HeadingNodes(item, Corrected) == HeadingNodes(item, AsWritten)
    ensures HeadingNodes(item, Corrected).value != [] <==> HasHeadingTitle(item.kind) && HeadingTitle(item).value != ""
  {
  }
}
