/**
 * The read-only API item the documenters consume. Everything the documenters obtain
 * from the API model library (scoped name, unscoped package name, hierarchy, associated
 * package, excerpts, the parsed documentation comment) is a field here.
 */
module Api {
  import opened Wrappers
  import opened Nodes

  /** `ApiItemKind`. */
  datatype Kind =
    | CallSignature | Class | Constructor | ConstructSignature | EntryPoint | Enum | EnumMember
    | Function | IndexSignature | Interface | Method | MethodSignature | Model | Namespace
    | Package | Property | PropertySignature | TypeAlias | Variable
      /** `ApiItemKind.None` */
    | NoKind

  /** The string value of each `ApiItemKind` member, as it appears in error messages. */
  function KindName(k: Kind): string {
    match k
    case CallSignature => "CallSignature"
    case Class => "Class"
    case Constructor => "Constructor"
    case ConstructSignature => "ConstructSignature"
    case EntryPoint => "EntryPoint"
    case Enum => "Enum"
    case EnumMember => "EnumMember"
    case Function => "Function"
    case IndexSignature => "IndexSignature"
    case Interface => "Interface"
    case Method => "Method"
    case MethodSignature => "MethodSignature"
    case Model => "Model"
    case Namespace => "Namespace"
    case Package => "Package"
    case Property => "Property"
    case PropertySignature => "PropertySignature"
    case TypeAlias => "TypeAlias"
    case Variable => "Variable"
    case NoKind => "None"
  }

  /** `ReleaseTag`; `Unspecified` is `ReleaseTag.None`, no tag given. */
  datatype ReleaseTag = Unspecified | Internal | Alpha | Beta | Public

  /** A block of the documentation comment: its tag name in upper case and its content. */
  datatype Block = Block(tagUpper: string, content: seq<Node>)

  /** The parsed TSDoc comment of an item. */
  datatype Comment = Comment(
    summary: seq<Node>,
    remarks: Option<seq<Node>>,
    customBlocks: seq<Block>,
    returnsBlock: Option<seq<Node>>,
    deprecated: bool)

  /**
   * Where an item sits among `ApiItem`, `ApiDocumentedItem` and `ApiDeclaredItem`;
   * a declared item is also a documented one. `comment` is `tsdocComment`.
   */
  datatype Doc =
    | Undocumented
    | Documented(comment: Option<Comment>)
    | Declared(comment: Option<Comment>, excerptText: string, excerptWithModifiers: string)

  /** One parameter of a function-like item. */
  datatype Parameter = Parameter(name: string, typeText: string, paramBlock: Option<seq<Node>>)

  /** The `ApiParameterListMixin` part of an item. */
  datatype ParameterList = ParameterList(overloadIndex: nat, parameters: seq<Parameter>)

  /** The `ApiPropertyItem` part of an item. */
  datatype PropertyInfo = PropertyInfo(typeText: string, isEventProperty: bool)

  /** The associated package: its `name` and its `displayName`. */
  datatype PackageRef = PackageRef(name: string, displayName: string)

  /**
   * One level of `getHierarchy()`: what the namers read of an ancestor.
   * `overloadIndex` is present exactly for `ApiParameterListMixin` items.
   */
  datatype Level = Level(kind: Kind, displayName: string, unscopedName: string, overloadIndex: Option<nat>)

  datatype ApiItem = ApiItem(
    kind: Kind,
    displayName: string,
    /** `getScopedNameWithinPackage()` */
    scopedName: string,
    /** `PackageName.getUnscopedName(displayName)` */
    unscopedName: string,
    /** `getHierarchy()`, from the model down to the item itself */
    hierarchy: seq<Level>,
    /** present for `ApiParameterListMixin` items */
    parameterList: Option<ParameterList>,
    /** present for `ApiReleaseTagMixin` items */
    releaseTag: Option<ReleaseTag>,
    doc: Doc,
    /** `getAssociatedPackage()` */
    package: Option<PackageRef>,
    /** present for `ApiStaticMixin` items */
    isStatic: Option<bool>,
    /** present for `ApiPropertyItem` items */
    property: Option<PropertyInfo>,
    /** present for `ApiReturnTypeMixin` items: the return type excerpt text */
    returnType: Option<string>,
    /** an enum member's `initializerExcerpt.text` */
    initializer: string,
    /** `members`; for a package, the members of its first entry point */
    members: seq<ApiItem>)

  /** `apiItem.tsdocComment` for a documented item, nothing otherwise. */
  function TsdocComment(item: ApiItem): Option<Comment> {
    if item.doc.Undocumented? then None else item.doc.comment
  }
}
