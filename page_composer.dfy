/**
 * The composition of a page in both documenters: `_writeApiItemContent` (the fixed order
 * of warning, heading, summary, signature, import, remarks and tables), the class and
 * interface tables that recurse into each member's own content, and `_writeApiItemPage`.
 * `Hugo` is `HugoMarkdownDocumenter`, `Flat` is `GrafanaMarkdownDocumenter`.
 */
module PageComposer {
  import opened Wrappers
  import opened Nodes
  import opened Api
  import opened HeadingAppender
  import WarningAppender
  import SummaryAppender
  import SignatureAppender
  import ImportAppender
  import PageTitleAppender
  import DocFrontMatter
  import GrafanaDocPageMeta
  import GrafanaDocPageTitle
  import GrafanaDocWarning
  import GrafanaDocHeading
  import HugoNaming
  import FlatNaming
  import opened PageCells
  import opened PageSections
  import opened PageTables

  /* ---------------------------------------------------------------------------------- */
  /* The head of the content                                                             */
  /* ---------------------------------------------------------------------------------- */

  /** The flat layout's heading node; building it throws where `GrafanaDocHeading` throws. */
  function FlatHeading(rule: HeadingRule, item: ApiItem): Result<seq<Node>> {
    match GrafanaDocHeading.Build(item)
    case Ok(n) => Ok([n])
    case Err(e) => if rule == AsWritten then Err(e) else Ok([])
  }

  /**
   * The flat layout's import block: only for a declared item, only when asked for, and
   * only when `_formatImport` has a snippet (which, when present, is never empty).
   */
  function FlatImport(item: ApiItem, appendImport: bool): seq<Node> {
    if item.doc.Declared? && appendImport && FlatNaming.FormatImport(item).Some? then
      [BoldText("Import"), FencedCode(FlatNaming.FormatImport(item).value, "typescript")]
    else []
  }

  /** The Hugo head: warning box, heading, summary, signature and, when asked for, the import block. */
  function HugoHead(rule: HeadingRule, item: ApiItem, appendImport: bool): Result<seq<Node>> {
    match HeadingNodes(item, rule)
    case Err(e) => Err(e)
    case Ok(heading) =>
      Ok(WarningAppender.WarningNodes(item) + heading + SummaryAppender.SummaryNodes(item)
         + SignatureAppender.SignatureNodes(item)
         + (if appendImport then ImportAppender.ImportNodes(item) else []))
  }

  /** What the flat layout appends for a declared item: its signature, then its import block. */
  function FlatDeclared(item: ApiItem, appendImport: bool): seq<Node> {
    SignatureAppender.SignatureNodes(item) + FlatImport(item, appendImport)
  }

  /** The flat head: warning node, heading node, summary, then the declared item's blocks. */
  function FlatHead(rule: HeadingRule, item: ApiItem, appendImport: bool): Result<seq<Node>> {
    match FlatHeading(rule, item)
    case Err(e) => Err(e)
    case Ok(heading) =>
      Ok([GrafanaDocWarning.Build(item)] + heading + Summary(item) + FlatDeclared(item, appendImport))
  }

  /** Everything `_writeApiItemContent` appends before the remarks and the tables. */
  function Head(layout: Layout, rule: HeadingRule, item: ApiItem, appendImport: bool): Result<seq<Node>> {
    if layout == Hugo then HugoHead(rule, item, appendImport) else FlatHead(rule, item, appendImport)
  }

  /** The kinds whose remarks come before their tables rather than after them. */
  predicate RemarksFirst(k: Kind) {
    k in {Class, Interface, Namespace, Package}
  }

  /** The kinds the table switch of `_writeApiItemContent` handles. */
  predicate Handled(k: Kind) {
    k in {Class, Enum, Interface, Constructor, ConstructSignature, Method, MethodSignature, Function,
          Namespace, Model, Package, Property, PropertySignature, TypeAlias, Variable}
  }

  /* ---------------------------------------------------------------------------------- */
  /* Content and tables                                                                  */
  /* ---------------------------------------------------------------------------------- */

  /**
   * What `_writeApiItemContent` appends to a section, or the exception it throws:
   * the head, then the remarks and the tables in the order the kind calls for.
   */
  function Content(layout: Layout, rule: HeadingRule, item: ApiItem, appendImport: bool): Result<seq<Node>>
    decreases item, 3
  {
    match Head(layout, rule, item, appendImport)
    case Err(e) => Err(e)
    case Ok(head) =>
      match Tables(layout, rule, item)
      case Err(e) => Err(e)
      case Ok(tables) =>
        if RemarksFirst(item.kind) then Ok(head + (RemarksNodes(item) + tables))
        else Ok(head + (tables + RemarksNodes(item)))
  }

  /** The table switch of `_writeApiItemContent`; any other kind throws. */
  function Tables(layout: Layout, rule: HeadingRule, item: ApiItem): Result<seq<Node>>
    decreases item, 2
  {
    match item.kind
    case Class => ClassTables(layout, rule, item)
    case Enum => Ok(EnumTable(item))
    case Interface => InterfaceTables(layout, rule, item)
    case Constructor => Ok(ParameterNodes(item) + ThrowsNodes(item))
    case ConstructSignature => Ok(ParameterNodes(item) + ThrowsNodes(item))
    case Method => Ok(ParameterNodes(item) + ThrowsNodes(item))
    case MethodSignature => Ok(ParameterNodes(item) + ThrowsNodes(item))
    case Function => Ok(ParameterNodes(item) + ThrowsNodes(item))
    case Namespace => Ok(PackageOrNamespaceTables(layout, item))
    case Model => Ok(ModelTable(layout, item))
    case Package => Ok(PackageOrNamespaceTables(layout, item))
    case Property => Ok([])
    case PropertySignature => Ok([])
    case TypeAlias => Ok([])
    case Variable => Ok([])
    case _ => Err(Unsupported(item.kind))
  }

  const ClassPropertyHeaders: seq<string> := ["Property", "Modifiers", "Type", "Description"]
  const ConstructorHeaders: seq<string> := ["Constructor", "Modifiers", "Description"]
  const ClassMethodHeaders: seq<string> := ["Method", "Modifiers", "Description"]
  const InterfacePropertyHeaders: seq<string> := ["Property", "Type", "Description"]
  const InterfaceMethodHeaders: seq<string> := ["Method", "Description"]

  /** Whether a member is an event property (`isEventProperty`). */
  predicate IsEvent(m: ApiItem) {
    m.property.Some? && m.property.value.isEventProperty
  }

  /** A class's constructor or method row. */
  function ClassMemberRow(layout: Layout, m: ApiItem): Row {
    [TitleCell(layout, m), ModifiersCell(m), DescriptionCell(m)]
  }

  /** A class's property or event row. */
  function ClassPropertyRow(layout: Layout, m: ApiItem): Row {
    [TitleCell(layout, m), ModifiersCell(m), PropertyTypeCell(m), DescriptionCell(m)]
  }

  /** The four tables and three sections `_writeClassTables` fills in its member loop. */
  datatype ClassParts = ClassParts(
    events: seq<Row>, constructors: seq<Row>, properties: seq<Row>, methods: seq<Row>,
    constructorsSection: seq<Node>, propertiesSection: seq<Node>, methodsSection: seq<Node>)

  /** One member of a class: its row goes to its kind's table, its content to its kind's section. */
  function ClassStep(layout: Layout, p: ClassParts, m: ApiItem, content: seq<Node>): ClassParts {
    match m.kind
    case Constructor =>
      p.(constructors := p.constructors + [ClassMemberRow(layout, m)],
         constructorsSection := p.constructorsSection + content)
    case Method =>
      p.(methods := p.methods + [ClassMemberRow(layout, m)],
         methodsSection := p.methodsSection + content)
    case Property =>
      if IsEvent(m) then
        p.(events := p.events + [ClassPropertyRow(layout, m)],
           propertiesSection := p.propertiesSection + content)
      else
        p.(properties := p.properties + [ClassPropertyRow(layout, m)],
           propertiesSection := p.propertiesSection + content)
    case _ => p
  }

  /** The class members a class page lists. */
  predicate ClassListed(k: Kind) {
    k in {Constructor, Method, Property}
  }

  /** One turn of the member loop of `_writeClassTables`; a member's content may throw. */
  function ClassMemberStep(layout: Layout, rule: HeadingRule, p: ClassParts, m: ApiItem): Result<ClassParts>
    decreases m, 4
  {
    if !ClassListed(m.kind) then Ok(p)
    else
      match Content(layout, rule, m, false)
      case Err(e) => Err(e)
      case Ok(content) => Ok(ClassStep(layout, p, m, content))
  }

  /** The member loop of `_writeClassTables` over the first `n` members. */
  function ClassFold(layout: Layout, rule: HeadingRule, item: ApiItem, n: nat): Result<ClassParts>
    requires n <= |item.members|
    decreases item, 0, n
  {
    if n == 0 then Ok(ClassParts([], [], [], [], [], [], []))
    else
      match ClassFold(layout, rule, item, n - 1)
      case Err(e) => Err(e)
      case Ok(p) => ClassMemberStep(layout, rule, p, item.members[n - 1])
  }

  /** The four guarded tables of `_writeClassTables`. */
  function ClassTableNodes(p: ClassParts): seq<Node> {
    TableSection(BoldHeading("Events"), ClassPropertyHeaders, p.events)
    + TableSection(BoldHeading("Constructors"), ConstructorHeaders, p.constructors)
    + TableSection(BoldHeading("Properties"), ClassPropertyHeaders, p.properties)
    + TableSection(BoldHeading("Methods"), ClassMethodHeaders, p.methods)
  }

  /** What `_writeClassTables` appends once its loop is done: the non-empty tables, then the sections. */
  function ClassOutput(p: ClassParts): seq<Node> {
    ClassTableNodes(p) + p.constructorsSection + p.propertiesSection + p.methodsSection
  }

  /** `_writeClassTables`. */
  function ClassTables(layout: Layout, rule: HeadingRule, item: ApiItem): Result<seq<Node>>
    decreases item, 1
  {
    match ClassFold(layout, rule, item, |item.members|)
    case Err(e) => Err(e)
    case Ok(p) => Ok(ClassOutput(p))
  }

  /** An interface's method row. */
  function InterfaceMethodRow(layout: Layout, m: ApiItem): Row {
    [TitleCell(layout, m), DescriptionCell(m)]
  }

  /** An interface's property or event row. */
  function InterfacePropertyRow(layout: Layout, m: ApiItem): Row {
    [TitleCell(layout, m), PropertyTypeCell(m), DescriptionCell(m)]
  }

  /** The three tables and two sections `_writeInterfaceTables` fills in its member loop. */
  datatype InterfaceParts = InterfaceParts(
    events: seq<Row>, properties: seq<Row>, methods: seq<Row>,
    propertiesSection: seq<Node>, methodsSection: seq<Node>)

  /** One member of an interface. */
  function InterfaceStep(layout: Layout, p: InterfaceParts, m: ApiItem, content: seq<Node>): InterfaceParts {
    match m.kind
    case ConstructSignature =>
      p.(methods := p.methods + [InterfaceMethodRow(layout, m)],
         methodsSection := p.methodsSection + content)
    case MethodSignature =>
      p.(methods := p.methods + [InterfaceMethodRow(layout, m)],
         methodsSection := p.methodsSection + content)
    case PropertySignature =>
      if IsEvent(m) then
        p.(events := p.events + [InterfacePropertyRow(layout, m)],
           propertiesSection := p.propertiesSection + content)
      else
        p.(properties := p.properties + [InterfacePropertyRow(layout, m)],
           propertiesSection := p.propertiesSection + content)
    case _ => p
  }

  /** The interface members an interface page lists. */
  predicate InterfaceListed(k: Kind) {
    k in {ConstructSignature, MethodSignature, PropertySignature}
  }

  /** One turn of the member loop of `_writeInterfaceTables`. */
  function InterfaceMemberStep(layout: Layout, rule: HeadingRule, p: InterfaceParts, m: ApiItem): Result<InterfaceParts>
    decreases m, 4
  {
    if !InterfaceListed(m.kind) then Ok(p)
    else
      match Content(layout, rule, m, false)
      case Err(e) => Err(e)
      case Ok(content) => Ok(InterfaceStep(layout, p, m, content))
  }

  /** The member loop of `_writeInterfaceTables` over the first `n` members. */
  function InterfaceFold(layout: Layout, rule: HeadingRule, item: ApiItem, n: nat): Result<InterfaceParts>
    requires n <= |item.members|
    decreases item, 0, n
  {
    if n == 0 then Ok(InterfaceParts([], [], [], [], []))
    else
      match InterfaceFold(layout, rule, item, n - 1)
      case Err(e) => Err(e)
      case Ok(p) => InterfaceMemberStep(layout, rule, p, item.members[n - 1])
  }

  /** The three guarded tables of `_writeInterfaceTables`. */
  function InterfaceTableNodes(p: InterfaceParts): seq<Node> {
    TableSection(BoldHeading("Events"), InterfacePropertyHeaders, p.events)
    + TableSection(BoldHeading("Properties"), InterfacePropertyHeaders, p.properties)
    + TableSection(BoldHeading("Methods"), InterfaceMethodHeaders, p.methods)
  }

  /** What `_writeInterfaceTables` appends once its loop is done. */
  function InterfaceOutput(p: InterfaceParts): seq<Node> {
    InterfaceTableNodes(p) + p.propertiesSection + p.methodsSection
  }

  /** `_writeInterfaceTables`. */
  function InterfaceTables(layout: Layout, rule: HeadingRule, item: ApiItem): Result<seq<Node>>
    decreases item, 1
  {
    match InterfaceFold(layout, rule, item, |item.members|)
    case Err(e) => Err(e)
    case Ok(p) => Ok(InterfaceOutput(p))
  }

  /* ---------------------------------------------------------------------------------- */
  /* Pages                                                                               */
  /* ---------------------------------------------------------------------------------- */

  /** A page: the file it is written to, relative to the output folder, and its nodes. */
  datatype Page = Page(filename: string, nodes: seq<Node>)

  /** The Hugo page: front matter, page title, then the content with the import block. */
  function HugoPage(rule: HeadingRule, item: ApiItem, draft: bool): Result<Page> {
    match Content(Hugo, rule, item, true)
    case Err(e) => Err(e)
    case Ok(c) =>
      Ok(Page(HugoNaming.Filename(item, false),
              [DocFrontMatter.Build(item, draft)] + PageTitleAppender.PageTitleNodes(item) + c))
  }

  /** The flat page: page meta, page title node, then the content without the import block. */
  function FlatPage(rule: HeadingRule, item: ApiItem): Result<Page> {
    match Content(Flat, rule, item, false)
    case Err(e) => Err(e)
    case Ok(c) =>
      Ok(Page(FlatNaming.Filename(item), [GrafanaDocPageMeta.Build(item), GrafanaDocPageTitle.Build(item)] + c))
  }

  /** `_writeApiItemPage` up to the emitter; `draft` is the Hugo documenter's setting. */
  function ComposedPage(layout: Layout, rule: HeadingRule, item: ApiItem, draft: bool): Result<Page> {
    if layout == Hugo then HugoPage(rule, item, draft) else FlatPage(rule, item)
  }

  /* ---------------------------------------------------------------------------------- */
  /* The writers                                                                         */
  /* ---------------------------------------------------------------------------------- */

  /**
   * A writer's outcome against its specification: it passes exactly when the specification
   * has a value, then having appended that value; a failure carries the thrown message.
   */
  predicate Reports(r: Outcome, spec: Result<seq<Node>>, before: seq<Node>, after: seq<Node>) {
    && (r.Pass? <==> spec.Ok?)
    && (r.Pass? ==> after == before + spec.value)
    && (r.Fail? ==> r.message == spec.message)
  }

  /** The appender calls that open `_writeApiItemContent` in the Hugo documenter. */
  method WriteHugoHead(rule: HeadingRule, output: DocSection, item: ApiItem, appendImport: bool) returns (r: Outcome)
    modifies output
    ensures Reports(r, HugoHead(rule, item, appendImport), old(output.nodes), output.nodes)
  {
    ghost var start := output.nodes;
    WarningAppender.Append(output, item);
    r := HeadingAppender.Append(output, item, rule);
    if r.Fail? {
      return;
    }
    ghost var acc := WarningAppender.WarningNodes(item) + HeadingNodes(item, rule).value;
    assert start + WarningAppender.WarningNodes(item) + HeadingNodes(item, rule).value == start + (WarningAppender.WarningNodes(item) + HeadingNodes(item, rule).value);
    SummaryAppender.Append(output, item);
    assert start + acc + SummaryAppender.SummaryNodes(item) == start + (acc + SummaryAppender.SummaryNodes(item));
    acc := acc + SummaryAppender.SummaryNodes(item);
    SignatureAppender.Append(output, item);
    assert start + acc + SignatureAppender.SignatureNodes(item) == start + (acc + SignatureAppender.SignatureNodes(item));
    acc := acc + SignatureAppender.SignatureNodes(item);
    if appendImport {
      ImportAppender.Append(output, item);
      assert start + acc + ImportAppender.ImportNodes(item) == start + (acc + ImportAppender.ImportNodes(item));
    } else {
      assert acc + [] == acc;
    }
  }

  /** The summary block of the flat head: `_appendSection` of the comment's summary section. */
  method WriteFlatSummary(output: DocSection, item: ApiItem)
    modifies output
    ensures output.nodes == old(output.nodes) + Summary(item)
  {
    var comment := TsdocComment(item);
    if comment.Some? {
      AppendSection(output, comment.value.summary);
    }
  }

  /** The import block of the flat head; `_formatImport` is consulted only when the block is asked for. */
  method WriteFlatImport(output: DocSection, item: ApiItem, appendImport: bool)
    requires item.doc.Declared?
    modifies output
    ensures output.nodes == old(output.nodes) + FlatImport(item, appendImport)
  {
    if appendImport {
      var importCode := FlatNaming.FormatImport(item);
      if importCode.Some? {
        output.AppendNode(BoldText("Import"));
        output.AppendNode(FencedCode(importCode.value, "typescript"));
      }
    }
  }

  /** The `ApiDeclaredItem` block of the flat head: the signature, then the import block. */
  method WriteFlatDeclared(output: DocSection, item: ApiItem, appendImport: bool)
    modifies output
    ensures output.nodes == old(output.nodes) + FlatDeclared(item, appendImport)
  {
    if item.doc.Declared? {
      ghost var start := output.nodes;
      if |item.doc.excerptText| > 0 {
        output.AppendNode(BoldText("Signature"));
        output.AppendNode(FencedCode(item.doc.excerptWithModifiers, "typescript"));
      }
      assert output.nodes == start + SignatureAppender.SignatureNodes(item);
      WriteFlatImport(output, item, appendImport);
      assert start + SignatureAppender.SignatureNodes(item) + FlatImport(item, appendImport) == start + (SignatureAppender.SignatureNodes(item) + FlatImport(item, appendImport));
    } else {
      assert FlatDeclared(item, appendImport) == [];
    }
  }

  /** The node appends that open `_writeApiItemContent` in the Grafana documenter. */
  method WriteFlatHead(rule: HeadingRule, output: DocSection, item: ApiItem, appendImport: bool) returns (r: Outcome)
    modifies output
    ensures Reports(r, FlatHead(rule, item, appendImport), old(output.nodes), output.nodes)
  {
    ghost var start := output.nodes;
    output.AppendNode(GrafanaDocWarning.Build(item));
    var heading := GrafanaDocHeading.Build(item);
    if heading.Err? && rule == AsWritten {
      return Fail(heading.message);
    }
    if heading.Ok? {
      output.AppendNode(heading.value);
    }
    ghost var acc := [GrafanaDocWarning.Build(item)] + FlatHeading(rule, item).value;
    assert output.nodes == start + acc;
    WriteFlatSummary(output, item);
    assert start + acc + Summary(item) == start + (acc + Summary(item));
    acc := acc + Summary(item);
    WriteFlatDeclared(output, item, appendImport);
    assert start + acc + FlatDeclared(item, appendImport) == start + (acc + FlatDeclared(item, appendImport));
    r := Pass;
  }

  /** How `Content` is made of `Head` and `Tables`. */
  lemma ContentSplits(layout: Layout, rule: HeadingRule, item: ApiItem, appendImport: bool)
    ensures Content(layout, rule, item, appendImport).Ok? <==>
      Head(layout, rule, item, appendImport).Ok? && Tables(layout, rule, item).Ok?
    ensures Content(layout, rule, item, appendImport).Ok? ==>
      Content(layout, rule, item, appendImport).value == Head(layout, rule, item, appendImport).value +
        (if RemarksFirst(item.kind) then RemarksNodes(item) + Tables(layout, rule, item).value
         else Tables(layout, rule, item).value + RemarksNodes(item))
    ensures Head(layout, rule, item, appendImport).Err? ==>
      Content(layout, rule, item, appendImport) == Err(Head(layout, rule, item, appendImport).message)
    ensures Head(layout, rule, item, appendImport).Ok? && Tables(layout, rule, item).Err? ==>
      Content(layout, rule, item, appendImport) == Err(Tables(layout, rule, item).message)
  {
  }

  /** `_writeApiItemContent`: the head, then the remarks before or after the tables. */
  method WriteApiItemContent(layout: Layout, rule: HeadingRule, output: DocSection, item: ApiItem, appendImport: bool)
    returns (r: Outcome)
    modifies output
    decreases item, 3
    ensures Reports(r, Content(layout, rule, item, appendImport), old(output.nodes), output.nodes)
  {
    ghost var start := output.nodes;
    ContentSplits(layout, rule, item, appendImport);
    if layout == Hugo {
      r := WriteHugoHead(rule, output, item, appendImport);
    } else {
      r := WriteFlatHead(rule, output, item, appendImport);
    }
    if r.Fail? {
      return;
    }
    ghost var head := Head(layout, rule, item, appendImport).value;
    ghost var afterHead := output.nodes;
    var appendRemarks := true;
    if RemarksFirst(item.kind) {
      WriteRemarksSection(output, item);
      appendRemarks := false;
    }
    r := WriteTables(layout, rule, output, item);
    if r.Fail? {
      return;
    }
    ghost var tables := Tables(layout, rule, item).value;
    if appendRemarks {
      WriteRemarksSection(output, item);
      AppendAssoc(afterHead, tables, RemarksNodes(item));
      AppendAssoc(start, head, tables + RemarksNodes(item));
    } else {
      AppendAssoc(afterHead, RemarksNodes(item), tables);
      AppendAssoc(start, head, RemarksNodes(item) + tables);
    }
  }

  /** The table switch's cases for the container kinds. */
  lemma ContainerTablesCases(layout: Layout, rule: HeadingRule, item: ApiItem)
    ensures item.kind == Class ==> Tables(layout, rule, item) == ClassTables(layout, rule, item)
    ensures item.kind == Interface ==> Tables(layout, rule, item) == InterfaceTables(layout, rule, item)
    ensures item.kind == Enum ==> Tables(layout, rule, item) == Ok(EnumTable(item))
    ensures item.kind == Model ==> Tables(layout, rule, item) == Ok(ModelTable(layout, item))
    ensures item.kind in {Namespace, Package} ==> Tables(layout, rule, item) == Ok(PackageOrNamespaceTables(layout, item))
  {
    match item.kind {
      case Class =>
      case Interface =>
      case Enum =>
      case Model =>
      case Namespace | Package =>
      case _ =>
    }
  }

  /** The table switch's other cases: parameters and throws for callables, nothing for properties and the like, an exception otherwise. */
  lemma MemberTablesCases(layout: Layout, rule: HeadingRule, item: ApiItem)
    ensures item.kind in {Constructor, ConstructSignature, Method, MethodSignature, Function} ==>
      Tables(layout, rule, item) == Ok(ParameterNodes(item) + ThrowsNodes(item))
    ensures item.kind in {Property, PropertySignature, TypeAlias, Variable} ==> Tables(layout, rule, item) == Ok([])
    ensures !Handled(item.kind) ==> Tables(layout, rule, item) == Err(Unsupported(item.kind))
  {
    match item.kind {
      case Constructor | ConstructSignature | Method | MethodSignature | Function =>
      case Property | PropertySignature | TypeAlias | Variable =>
      case _ =>
    }
  }

  /** The table switch of `_writeApiItemContent`. */
  method WriteTables(layout: Layout, rule: HeadingRule, output: DocSection, item: ApiItem) returns (r: Outcome)
    modifies output
    decreases item, 2
    ensures Reports(r, Tables(layout, rule, item), old(output.nodes), output.nodes)
  {
    r := Pass;
    ContainerTablesCases(layout, rule, item);
    MemberTablesCases(layout, rule, item);
    match item.kind {
      case Class =>
        r := WriteClassTables(layout, rule, output, item);
      case Enum =>
        WriteEnumTables(output, item);
      case Interface =>
        r := WriteInterfaceTables(layout, rule, output, item);
      case Constructor | ConstructSignature | Method | MethodSignature | Function =>
        WriteParameterTables(output, item);
        WriteThrowsSection(output, item);
        AppendAssoc(old(output.nodes), ParameterNodes(item), ThrowsNodes(item));
      case Namespace =>
        WritePackageOrNamespaceTables(layout, output, item);
      case Model =>
        WriteModelTable(layout, output, item);
      case Package =>
        WritePackageOrNamespaceTables(layout, output, item);
      case Property | PropertySignature | TypeAlias | Variable =>
        assert old(output.nodes) + [] == old(output.nodes);
      case _ =>
        r := Fail(Unsupported(item.kind));
    }
  }

  /** Once a member's content has thrown, the class loop stays at that exception. */
  lemma {:induction false} ClassFoldErrPersists(layout: Layout, rule: HeadingRule, item: ApiItem, i: nat, j: nat)
    requires i <= j <= |item.members|
    requires ClassFold(layout, rule, item, i).Err?
    ensures ClassFold(layout, rule, item, j) == ClassFold(layout, rule, item, i)
    decreases j
  {
    if i < j {
      ClassFoldErrPersists(layout, rule, item, i, j - 1);
    }
  }

  /**
   * The loop's turn for member `m` took the parts from `before` to `after`, or threw
   * what the member's content throws.
   */
  predicate ClassTurn(layout: Layout, rule: HeadingRule, m: ApiItem, before: ClassParts, o: Outcome, after: ClassParts) {
    var step := ClassMemberStep(layout, rule, before, m);
    && (o.Pass? <==> step.Ok?)
    && (o.Pass? ==> step.value == after)
    && (o.Fail? ==> o.message == step.message)
  }

  /** A constructor's or method's row, then its content into its section. */
  method WriteClassMethodMember(layout: Layout, rule: HeadingRule, m: ApiItem,
                                events: seq<Row>, constructors: seq<Row>, properties: seq<Row>, methods: seq<Row>,
                                constructorsSection: DocSection, propertiesSection: DocSection, methodsSection: DocSection)
    returns (o: Outcome, constructors': seq<Row>, methods': seq<Row>)
    requires m.kind == Constructor || m.kind == Method
    requires constructorsSection != methodsSection
    modifies constructorsSection, methodsSection
    decreases m, 4
    ensures ClassTurn(layout, rule, m,
      ClassParts(events, constructors, properties, methods,
        old(constructorsSection.nodes), propertiesSection.nodes, old(methodsSection.nodes)), o,
      ClassParts(events, constructors', properties, methods',
        constructorsSection.nodes, propertiesSection.nodes, methodsSection.nodes))
  {
    var title := CreateTitleCell(layout, m);
    var modifiers := CreateModifiersCell(m);
    var description := CreateDescriptionCell(m);
    ghost var beforeConstructors, beforeMethods := constructorsSection.nodes, methodsSection.nodes;
    constructors', methods' := constructors, methods;
    if m.kind == Constructor {
      constructors' := constructors + [[title, modifiers, description]];
      o := WriteApiItemContent(layout, rule, constructorsSection, m, false);
    } else {
      methods' := methods + [[title, modifiers, description]];
      o := WriteApiItemContent(layout, rule, methodsSection, m, false);
    }
    MethodTurn(layout, rule, m, ClassParts(events, constructors, properties, methods,
        beforeConstructors, propertiesSection.nodes, beforeMethods), o,
      ClassParts(events, constructors', properties, methods',
        constructorsSection.nodes, propertiesSection.nodes, methodsSection.nodes));
  }

  /** A constructor's or method's turn files its row and its content under its own kind. */
  lemma MethodTurn(layout: Layout, rule: HeadingRule, m: ApiItem, before: ClassParts, o: Outcome, after: ClassParts)
    requires m.kind == Constructor || m.kind == Method
    requires after.events == before.events && after.properties == before.properties
    requires after.propertiesSection == before.propertiesSection
    requires m.kind == Constructor ==>
      && after.constructors == before.constructors + [ClassMemberRow(layout, m)] && after.methods == before.methods
      && after.methodsSection == before.methodsSection
      && Reports(o, Content(layout, rule, m, false), before.constructorsSection, after.constructorsSection)
    requires m.kind == Method ==>
      && after.methods == before.methods + [ClassMemberRow(layout, m)] && after.constructors == before.constructors
      && after.constructorsSection == before.constructorsSection
      && Reports(o, Content(layout, rule, m, false), before.methodsSection, after.methodsSection)
    ensures ClassTurn(layout, rule, m, before, o, after)
  {
    var c := Content(layout, rule, m, false);
    if c.Ok? {
      assert ClassMemberStep(layout, rule, before, m) == Ok(ClassStep(layout, before, m, c.value));
    }
  }

  /** A property's row, to the events or the properties, then its content into the properties section. */
  method WriteClassPropertyMember(layout: Layout, rule: HeadingRule, m: ApiItem,
                                  events: seq<Row>, constructors: seq<Row>, properties: seq<Row>, methods: seq<Row>,
                                  constructorsSection: DocSection, propertiesSection: DocSection, methodsSection: DocSection)
    returns (o: Outcome, events': seq<Row>, properties': seq<Row>)
    requires m.kind == Property
    modifies propertiesSection
    decreases m, 4
    ensures ClassTurn(layout, rule, m,
      ClassParts(events, constructors, properties, methods,
        constructorsSection.nodes, old(propertiesSection.nodes), methodsSection.nodes), o,
      ClassParts(events', constructors, properties', methods,
        constructorsSection.nodes, propertiesSection.nodes, methodsSection.nodes))
  {
    var title := CreateTitleCell(layout, m);
    var modifiers := CreateModifiersCell(m);
    var propertyType := CreatePropertyTypeCell(m);
    var description := CreateDescriptionCell(m);
    ghost var before := propertiesSection.nodes;
    events', properties' := events, properties;
    if IsEvent(m) {
      events' := events + [[title, modifiers, propertyType, description]];
    } else {
      properties' := properties + [[title, modifiers, propertyType, description]];
    }
    o := WriteApiItemContent(layout, rule, propertiesSection, m, false);
    ghost var p := ClassParts(events, constructors, properties, methods, constructorsSection.nodes, before, methodsSection.nodes);
    ghost var p' := ClassParts(events', constructors, properties', methods,
      constructorsSection.nodes, propertiesSection.nodes, methodsSection.nodes);
    if IsEvent(m) {
      ClassEventTurn(layout, rule, m, p, o, p');
    } else {
      ClassPropertyTurn(layout, rule, m, p, o, p');
    }
  }

  /** An event's turn files its row under the events, and its content into the properties section. */
  lemma ClassEventTurn(layout: Layout, rule: HeadingRule, m: ApiItem, before: ClassParts, o: Outcome, after: ClassParts)
    requires m.kind == Property && IsEvent(m)
    requires after.constructors == before.constructors && after.methods == before.methods
    requires after.constructorsSection == before.constructorsSection && after.methodsSection == before.methodsSection
    requires after.events == before.events + [ClassPropertyRow(layout, m)] && after.properties == before.properties
    requires Reports(o, Content(layout, rule, m, false), before.propertiesSection, after.propertiesSection)
    ensures ClassTurn(layout, rule, m, before, o, after)
  {
    var c := Content(layout, rule, m, false);
    if c.Ok? {
      assert ClassStep(layout, before, m, c.value) ==
        before.(events := before.events + [ClassPropertyRow(layout, m)],
                propertiesSection := before.propertiesSection + c.value);
      assert ClassMemberStep(layout, rule, before, m) == Ok(ClassStep(layout, before, m, c.value));
    }
  }

  /** A property's turn files its row under the properties, and its content into the properties section. */
  lemma ClassPropertyTurn(layout: Layout, rule: HeadingRule, m: ApiItem, before: ClassParts, o: Outcome, after: ClassParts)
    requires m.kind == Property && !IsEvent(m)
    requires after.constructors == before.constructors && after.methods == before.methods
    requires after.constructorsSection == before.constructorsSection && after.methodsSection == before.methodsSection
    requires after.properties == before.properties + [ClassPropertyRow(layout, m)] && after.events == before.events
    requires Reports(o, Content(layout, rule, m, false), before.propertiesSection, after.propertiesSection)
    ensures ClassTurn(layout, rule, m, before, o, after)
  {
    var c := Content(layout, rule, m, false);
    if c.Ok? {
      assert ClassStep(layout, before, m, c.value) ==
        before.(properties := before.properties + [ClassPropertyRow(layout, m)],
                propertiesSection := before.propertiesSection + c.value);
      assert ClassMemberStep(layout, rule, before, m) == Ok(ClassStep(layout, before, m, c.value));
    }
  }

  /** One turn of the member loop of `_writeClassTables`: the row, then the member's content into its section. */
  method WriteClassMember(layout: Layout, rule: HeadingRule, m: ApiItem,
                          events: seq<Row>, constructors: seq<Row>, properties: seq<Row>, methods: seq<Row>,
                          constructorsSection: DocSection, propertiesSection: DocSection, methodsSection: DocSection)
    returns (o: Outcome, events': seq<Row>, constructors': seq<Row>, properties': seq<Row>, methods': seq<Row>)
    requires constructorsSection != propertiesSection && propertiesSection != methodsSection
    requires constructorsSection != methodsSection
    modifies constructorsSection, propertiesSection, methodsSection
    decreases m, 5
    ensures ClassTurn(layout, rule, m,
      ClassParts(events, constructors, properties, methods,
        old(constructorsSection.nodes), old(propertiesSection.nodes), old(methodsSection.nodes)), o,
      ClassParts(events', constructors', properties', methods',
        constructorsSection.nodes, propertiesSection.nodes, methodsSection.nodes))
  {
    o := Pass;
    events', constructors', properties', methods' := events, constructors, properties, methods;
    if m.kind == Constructor || m.kind == Method {
      o, constructors', methods' := WriteClassMethodMember(layout, rule, m, events, constructors, properties, methods,
        constructorsSection, propertiesSection, methodsSection);
    } else if m.kind == Property {
      o, events', properties' := WriteClassPropertyMember(layout, rule, m, events, constructors, properties, methods,
        constructorsSection, propertiesSection, methodsSection);
    }
  }

  /** `_writeClassTables`: the member loop, then the non-empty tables and the three sections. */
  method WriteClassTables(layout: Layout, rule: HeadingRule, output: DocSection, item: ApiItem) returns (r: Outcome)
    modifies output
    decreases item, 1
    ensures Reports(r, ClassTables(layout, rule, item), old(output.nodes), output.nodes)
  {
    var events: seq<Row> := [];
    var constructors: seq<Row> := [];
    var properties: seq<Row> := [];
    var methods: seq<Row> := [];
    var constructorsSection := new DocSection();
    var propertiesSection := new DocSection();
    var methodsSection := new DocSection();
    for i := 0 to |item.members|
      invariant output.nodes == old(output.nodes)
      invariant ClassFold(layout, rule, item, i) ==
        Ok(ClassParts(events, constructors, properties, methods,
                      constructorsSection.nodes, propertiesSection.nodes, methodsSection.nodes))
    {
      var o;
      o, events, constructors, properties, methods :=
        WriteClassMember(layout, rule, item.members[i], events, constructors, properties, methods,
                         constructorsSection, propertiesSection, methodsSection);
      if o.Fail? {
        ClassFoldErrPersists(layout, rule, item, i + 1, |item.members|);
        return o;
      }
    }
    WriteClassOutput(output, ClassParts(events, constructors, properties, methods,
                                        constructorsSection.nodes, propertiesSection.nodes, methodsSection.nodes));
    r := Pass;
  }

  /** The four guarded tables of `_writeClassTables`. */
  method WriteClassTableNodes(output: DocSection, p: ClassParts)
    modifies output
    ensures output.nodes == old(output.nodes) + ClassTableNodes(p)
  {
    ghost var start := output.nodes;
    WriteTableSection(output, BoldHeading("Events"), ClassPropertyHeaders, p.events);
    ghost var acc := TableSection(BoldHeading("Events"), ClassPropertyHeaders, p.events);
    WriteTableSection(output, BoldHeading("Constructors"), ConstructorHeaders, p.constructors);
    assert start + acc + TableSection(BoldHeading("Constructors"), ConstructorHeaders, p.constructors) == start + (acc + TableSection(BoldHeading("Constructors"), ConstructorHeaders, p.constructors));
    acc := acc + TableSection(BoldHeading("Constructors"), ConstructorHeaders, p.constructors);
    WriteTableSection(output, BoldHeading("Properties"), ClassPropertyHeaders, p.properties);
    assert start + acc + TableSection(BoldHeading("Properties"), ClassPropertyHeaders, p.properties) == start + (acc + TableSection(BoldHeading("Properties"), ClassPropertyHeaders, p.properties));
    acc := acc + TableSection(BoldHeading("Properties"), ClassPropertyHeaders, p.properties);
    WriteTableSection(output, BoldHeading("Methods"), ClassMethodHeaders, p.methods);
    assert start + acc + TableSection(BoldHeading("Methods"), ClassMethodHeaders, p.methods) == start + (acc + TableSection(BoldHeading("Methods"), ClassMethodHeaders, p.methods));
  }

  /** The tail of `_writeClassTables`: the tables, then the constructors, properties and methods sections. */
  method WriteClassOutput(output: DocSection, p: ClassParts)
    modifies output
    ensures output.nodes == old(output.nodes) + ClassOutput(p)
  {
    ghost var start := output.nodes;
    WriteClassTableNodes(output, p);
    AppendSection(output, p.constructorsSection);
    assert start + ClassTableNodes(p) + p.constructorsSection == start + (ClassTableNodes(p) + p.constructorsSection);
    AppendSection(output, p.propertiesSection);
    assert start + (ClassTableNodes(p) + p.constructorsSection) + p.propertiesSection == start + (ClassTableNodes(p) + p.constructorsSection + p.propertiesSection);
    AppendSection(output, p.methodsSection);
    assert start + (ClassTableNodes(p) + p.constructorsSection + p.propertiesSection) + p.methodsSection == start + (ClassTableNodes(p) + p.constructorsSection + p.propertiesSection + p.methodsSection);
  }

  /** Once a member's content has thrown, the interface loop stays at that exception. */
  lemma {:induction false} InterfaceFoldErrPersists(layout: Layout, rule: HeadingRule, item: ApiItem, i: nat, j: nat)
    requires i <= j <= |item.members|
    requires InterfaceFold(layout, rule, item, i).Err?
    ensures InterfaceFold(layout, rule, item, j) == InterfaceFold(layout, rule, item, i)
    decreases j
  {
    if i < j {
      InterfaceFoldErrPersists(layout, rule, item, i, j - 1);
    }
  }

  /**
   * The interface loop's turn for member `m` took the parts from `before` to `after`, or
   * threw what the member's content throws.
   */
  predicate InterfaceTurn(layout: Layout, rule: HeadingRule, m: ApiItem, before: InterfaceParts, o: Outcome, after: InterfaceParts) {
    var step := InterfaceMemberStep(layout, rule, before, m);
    && (o.Pass? <==> step.Ok?)
    && (o.Pass? ==> step.value == after)
    && (o.Fail? ==> o.message == step.message)
  }

  /** A construct or method signature's row, then its content into the methods section. */
  method WriteInterfaceMethodMember(layout: Layout, rule: HeadingRule, m: ApiItem,
                                    events: seq<Row>, properties: seq<Row>, methods: seq<Row>,
                                    propertiesSection: DocSection, methodsSection: DocSection)
    returns (o: Outcome, methods': seq<Row>)
    requires m.kind == ConstructSignature || m.kind == MethodSignature
    modifies methodsSection
    decreases m, 4
    ensures InterfaceTurn(layout, rule, m,
      InterfaceParts(events, properties, methods, propertiesSection.nodes, old(methodsSection.nodes)), o,
      InterfaceParts(events, properties, methods', propertiesSection.nodes, methodsSection.nodes))
  {
    var title := CreateTitleCell(layout, m);
    var description := CreateDescriptionCell(m);
    ghost var before := methodsSection.nodes;
    methods' := methods + [[title, description]];
    o := WriteApiItemContent(layout, rule, methodsSection, m, false);
    InterfaceMethodTurn(layout, rule, m, InterfaceParts(events, properties, methods, propertiesSection.nodes, before), o,
      InterfaceParts(events, properties, methods', propertiesSection.nodes, methodsSection.nodes));
  }

  /** A construct or method signature's turn files its row and its content under the methods. */
  lemma InterfaceMethodTurn(layout: Layout, rule: HeadingRule, m: ApiItem, before: InterfaceParts, o: Outcome, after: InterfaceParts)
    requires m.kind == ConstructSignature || m.kind == MethodSignature
    requires after.events == before.events && after.properties == before.properties
    requires after.propertiesSection == before.propertiesSection
    requires after.methods == before.methods + [InterfaceMethodRow(layout, m)]
    requires Reports(o, Content(layout, rule, m, false), before.methodsSection, after.methodsSection)
    ensures InterfaceTurn(layout, rule, m, before, o, after)
  {
    var c := Content(layout, rule, m, false);
    if c.Ok? {
      assert InterfaceMemberStep(layout, rule, before, m) == Ok(InterfaceStep(layout, before, m, c.value));
    }
  }

  /** A property signature's row, to the events or the properties, then its content into the properties section. */
  method WriteInterfacePropertyMember(layout: Layout, rule: HeadingRule, m: ApiItem,
                                      events: seq<Row>, properties: seq<Row>, methods: seq<Row>,
                                      propertiesSection: DocSection, methodsSection: DocSection)
    returns (o: Outcome, events': seq<Row>, properties': seq<Row>)
    requires m.kind == PropertySignature
    modifies propertiesSection
    decreases m, 4
    ensures InterfaceTurn(layout, rule, m,
      InterfaceParts(events, properties, methods, old(propertiesSection.nodes), methodsSection.nodes), o,
      InterfaceParts(events', properties', methods, propertiesSection.nodes, methodsSection.nodes))
  {
    var title := CreateTitleCell(layout, m);
    var propertyType := CreatePropertyTypeCell(m);
    var description := CreateDescriptionCell(m);
    ghost var before := propertiesSection.nodes;
    events', properties' := events, properties;
    if IsEvent(m) {
      events' := events + [[title, propertyType, description]];
    } else {
      properties' := properties + [[title, propertyType, description]];
    }
    o := WriteApiItemContent(layout, rule, propertiesSection, m, false);
    ghost var p := InterfaceParts(events, properties, methods, before, methodsSection.nodes);
    ghost var p' := InterfaceParts(events', properties', methods, propertiesSection.nodes, methodsSection.nodes);
    if IsEvent(m) {
      InterfaceEventTurn(layout, rule, m, p, o, p');
    } else {
      InterfacePropertyTurn(layout, rule, m, p, o, p');
    }
  }

  /** An event's turn files its row under the events, and its content into the properties section. */
  lemma InterfaceEventTurn(layout: Layout, rule: HeadingRule, m: ApiItem, before: InterfaceParts, o: Outcome, after: InterfaceParts)
    requires m.kind == PropertySignature && IsEvent(m)
    requires after.methods == before.methods && after.methodsSection == before.methodsSection
    requires after.events == before.events + [InterfacePropertyRow(layout, m)] && after.properties == before.properties
    requires Reports(o, Content(layout, rule, m, false), before.propertiesSection, after.propertiesSection)
    ensures InterfaceTurn(layout, rule, m, before, o, after)
  {
    var c := Content(layout, rule, m, false);
    if c.Ok? {
      assert InterfaceStep(layout, before, m, c.value) ==
        before.(events := before.events + [InterfacePropertyRow(layout, m)],
                propertiesSection := before.propertiesSection + c.value);
      assert InterfaceMemberStep(layout, rule, before, m) == Ok(InterfaceStep(layout, before, m, c.value));
    }
  }

  /** A property's turn files its row under the properties, and its content into the properties section. */
  lemma InterfacePropertyTurn(layout: Layout, rule: HeadingRule, m: ApiItem, before: InterfaceParts, o: Outcome, after: InterfaceParts)
    requires m.kind == PropertySignature && !IsEvent(m)
    requires after.methods == before.methods && after.methodsSection == before.methodsSection
    requires after.properties == before.properties + [InterfacePropertyRow(layout, m)] && after.events == before.events
    requires Reports(o, Content(layout, rule, m, false), before.propertiesSection, after.propertiesSection)
    ensures InterfaceTurn(layout, rule, m, before, o, after)
  {
    var c := Content(layout, rule, m, false);
    if c.Ok? {
      assert InterfaceStep(layout, before, m, c.value) ==
        before.(properties := before.properties + [InterfacePropertyRow(layout, m)],
                propertiesSection := before.propertiesSection + c.value);
      assert InterfaceMemberStep(layout, rule, before, m) == Ok(InterfaceStep(layout, before, m, c.value));
    }
  }

  /** One turn of the member loop of `_writeInterfaceTables`. */
  method WriteInterfaceMember(layout: Layout, rule: HeadingRule, m: ApiItem,
                              events: seq<Row>, properties: seq<Row>, methods: seq<Row>,
                              propertiesSection: DocSection, methodsSection: DocSection)
    returns (o: Outcome, events': seq<Row>, properties': seq<Row>, methods': seq<Row>)
    requires propertiesSection != methodsSection
    modifies propertiesSection, methodsSection
    decreases m, 5
    ensures InterfaceTurn(layout, rule, m,
      InterfaceParts(events, properties, methods, old(propertiesSection.nodes), old(methodsSection.nodes)), o,
      InterfaceParts(events', properties', methods', propertiesSection.nodes, methodsSection.nodes))
  {
    o := Pass;
    events', properties', methods' := events, properties, methods;
    if m.kind == ConstructSignature || m.kind == MethodSignature {
      o, methods' := WriteInterfaceMethodMember(layout, rule, m, events, properties, methods,
        propertiesSection, methodsSection);
    } else if m.kind == PropertySignature {
      o, events', properties' := WriteInterfacePropertyMember(layout, rule, m, events, properties, methods,
        propertiesSection, methodsSection);
    }
  }

  /** `_writeInterfaceTables`: the member loop, then the non-empty tables and the two sections. */
  method WriteInterfaceTables(layout: Layout, rule: HeadingRule, output: DocSection, item: ApiItem) returns (r: Outcome)
    modifies output
    decreases item, 1
    ensures Reports(r, InterfaceTables(layout, rule, item), old(output.nodes), output.nodes)
  {
    var events: seq<Row> := [];
    var properties: seq<Row> := [];
    var methods: seq<Row> := [];
    var propertiesSection := new DocSection();
    var methodsSection := new DocSection();
    for i := 0 to |item.members|
      invariant output.nodes == old(output.nodes)
      invariant InterfaceFold(layout, rule, item, i) ==
        Ok(InterfaceParts(events, properties, methods, propertiesSection.nodes, methodsSection.nodes))
    {
      var o;
      o, events, properties, methods :=
        WriteInterfaceMember(layout, rule, item.members[i], events, properties, methods,
                             propertiesSection, methodsSection);
      if o.Fail? {
        InterfaceFoldErrPersists(layout, rule, item, i + 1, |item.members|);
        return o;
      }
    }
    WriteInterfaceOutput(output, InterfaceParts(events, properties, methods,
                                                propertiesSection.nodes, methodsSection.nodes));
    r := Pass;
  }

  /** The three guarded tables of `_writeInterfaceTables`. */
  method WriteInterfaceTableNodes(output: DocSection, p: InterfaceParts)
    modifies output
    ensures output.nodes == old(output.nodes) + InterfaceTableNodes(p)
  {
    ghost var start := output.nodes;
    WriteTableSection(output, BoldHeading("Events"), InterfacePropertyHeaders, p.events);
    ghost var acc := TableSection(BoldHeading("Events"), InterfacePropertyHeaders, p.events);
    WriteTableSection(output, BoldHeading("Properties"), InterfacePropertyHeaders, p.properties);
    assert start + acc + TableSection(BoldHeading("Properties"), InterfacePropertyHeaders, p.properties) == start + (acc + TableSection(BoldHeading("Properties"), InterfacePropertyHeaders, p.properties));
    acc := acc + TableSection(BoldHeading("Properties"), InterfacePropertyHeaders, p.properties);
    WriteTableSection(output, BoldHeading("Methods"), InterfaceMethodHeaders, p.methods);
    assert start + acc + TableSection(BoldHeading("Methods"), InterfaceMethodHeaders, p.methods) == start + (acc + TableSection(BoldHeading("Methods"), InterfaceMethodHeaders, p.methods));
  }

  /** The tail of `_writeInterfaceTables`: the tables, then the properties and methods sections. */
  method WriteInterfaceOutput(output: DocSection, p: InterfaceParts)
    modifies output
    ensures output.nodes == old(output.nodes) + InterfaceOutput(p)
  {
    ghost var start := output.nodes;
    WriteInterfaceTableNodes(output, p);
    AppendSection(output, p.propertiesSection);
    assert start + InterfaceTableNodes(p) + p.propertiesSection == start + (InterfaceTableNodes(p) + p.propertiesSection);
    AppendSection(output, p.methodsSection);
    assert start + (InterfaceTableNodes(p) + p.propertiesSection) + p.methodsSection == start + (InterfaceTableNodes(p) + p.propertiesSection + p.methodsSection);
  }

  /** The Hugo `_writeApiItemPage` up to the emitter. */
  method WriteHugoPage(rule: HeadingRule, item: ApiItem, draft: bool) returns (r: Result<Page>)
    ensures r == HugoPage(rule, item, draft)
  {
    var output := new DocSection();
    output.AppendNode(DocFrontMatter.Build(item, draft));
    PageTitleAppender.Append(output, item);
    assert output.nodes == [DocFrontMatter.Build(item, draft)] + PageTitleAppender.PageTitleNodes(item);
    var o := WriteApiItemContent(Hugo, rule, output, item, true);
    if o.Fail? {
      return Err(o.message);
    }
    var filename := HugoNaming.GetFilenameForApiItem(item, false);
    r := Ok(Page(filename, output.nodes));
  }

  /** The Grafana `_writeApiItemPage` up to the emitter. */
  method WriteFlatPage(rule: HeadingRule, item: ApiItem) returns (r: Result<Page>)
    ensures r == FlatPage(rule, item)
  {
    var output := new DocSection();
    output.AppendNode(GrafanaDocPageMeta.Build(item));
    output.AppendNode(GrafanaDocPageTitle.Build(item));
    assert output.nodes == [GrafanaDocPageMeta.Build(item), GrafanaDocPageTitle.Build(item)];
    var o := WriteApiItemContent(Flat, rule, output, item, false);
    if o.Fail? {
      return Err(o.message);
    }
    var filename := FlatNaming.GetFilenameForApiItem(item);
    r := Ok(Page(filename, output.nodes));
  }

  /* ---------------------------------------------------------------------------------- */
  /* Properties of the composition                                                       */
  /* ---------------------------------------------------------------------------------- */

  /** The members a class or interface page lists always have content: their kinds have a heading and a table rule. */
  lemma MemberContentOk(layout: Layout, rule: HeadingRule, m: ApiItem, appendImport: bool)
    requires m.kind in {Constructor, ConstructSignature, Method, MethodSignature, Property, PropertySignature}
    ensures Content(layout, rule, m, appendImport).Ok?
  {
    HeadingTitleThrows(m);
    ContentSplits(layout, rule, m, appendImport);
  }

  /**
   * When `_writeApiItemContent` throws: as written, exactly for the kinds the heading switch
   * does not handle (classes, interfaces, packages and the model among them); with the
   * corrected heading, exactly for the kinds the table switch does not handle. Either way
   * the message names the kind.
   */
  lemma ContentOkIff(layout: Layout, rule: HeadingRule, item: ApiItem, appendImport: bool)
    ensures rule == AsWritten ==> (Content(layout, rule, item, appendImport).Ok? <==> HasHeadingTitle(item.kind))
    ensures rule == Corrected ==> (Content(layout, rule, item, appendImport).Ok? <==> Handled(item.kind))
    ensures Content(layout, rule, item, appendImport).Err? ==>
      Content(layout, rule, item, appendImport).message == Unsupported(item.kind)
  {
    HeadingTitleThrows(item);
    ContentSplits(layout, rule, item, appendImport);
    if item.kind == Class {
      ClassFoldArities(layout, rule, item, |item.members|);
    } else if item.kind == Interface {
      InterfaceFoldArities(layout, rule, item, |item.members|);
    }
  }

  /**
   * As written, every page of a class, an interface, a package or the model throws before
   * it is written, in both layouts; the model page is the first page either documenter
   * writes.
   */
  lemma AsWrittenContainersFail(layout: Layout, item: ApiItem, draft: bool)
    requires item.kind in {Class, Interface, Package, Model}
    ensures Content(layout, AsWritten, item, layout == Hugo).Err?
    ensures ComposedPage(layout, AsWritten, item, draft) == Err(Unsupported(item.kind))
  {
    ContentOkIff(layout, AsWritten, item, layout == Hugo);
  }

  /** With the corrected heading, a page is composed exactly for the kinds the table switch handles. */
  lemma CorrectedPagesOk(layout: Layout, item: ApiItem, draft: bool)
    ensures ComposedPage(layout, Corrected, item, draft).Ok? <==> Handled(item.kind)
  {
    ContentOkIff(layout, Corrected, item, layout == Hugo);
  }

  /** Wherever the code as written composes content, the corrected heading composes the same content. */
  lemma RulesAgree(layout: Layout, item: ApiItem, appendImport: bool)
    requires Content(layout, AsWritten, item, appendImport).Ok?
    ensures Content(layout, Corrected, item, appendImport) == Content(layout, AsWritten, item, appendImport)
  {
    ContentOkIff(layout, AsWritten, item, appendImport);
    HeadingAppender.CorrectedAgrees(item);
    ContentSplits(layout, AsWritten, item, appendImport);
    ContentSplits(layout, Corrected, item, appendImport);
    ContainerTablesCases(layout, AsWritten, item);
    ContainerTablesCases(layout, Corrected, item);
    MemberTablesCases(layout, AsWritten, item);
    MemberTablesCases(layout, Corrected, item);
  }

  /**
   * The content opens with the head; the remarks follow it directly for classes, interfaces,
   * namespaces and packages, and close the content for every other kind.
   */
  lemma RemarksPlacement(layout: Layout, rule: HeadingRule, item: ApiItem, appendImport: bool)
    requires Content(layout, rule, item, appendImport).Ok?
    ensures Head(layout, rule, item, appendImport).Ok?
    ensures var c := Content(layout, rule, item, appendImport).value;
      var h := Head(layout, rule, item, appendImport).value;
      var remarks := RemarksNodes(item);
      && h <= c
      && (RemarksFirst(item.kind) ==> c[|h|..|h| + |remarks|] == remarks)
      && (!RemarksFirst(item.kind) ==> c[|c| - |remarks|..] == remarks)
  {
    ContentSplits(layout, rule, item, appendImport);
    Placement(Content(layout, rule, item, appendImport).value, Head(layout, rule, item, appendImport).value,
      Tables(layout, rule, item).value, RemarksNodes(item), RemarksFirst(item.kind));
  }

  /** Where the remarks sit in a head, remarks and tables put together in either order. */
  lemma Placement(c: seq<Node>, h: seq<Node>, t: seq<Node>, remarks: seq<Node>, first: bool)
    requires c == h + (if first then remarks + t else t + remarks)
    ensures h <= c
    ensures first ==> c[|h|..|h| + |remarks|] == remarks
    ensures !first ==> c[|c| - |remarks|..] == remarks
  {
    assert c[..|h|] == h;
    if first {
      assert c[|h|..] == remarks + t;
    } else {
      assert c[|h|..] == t + remarks;
    }
  }

  /**
   * The flat import block appears exactly for a declared item with an associated package
   * when it is asked for, and is then a bold `Import` paragraph and the TypeScript snippet.
   */
  lemma FlatImportCases(item: ApiItem, appendImport: bool)
    ensures FlatImport(item, appendImport) != [] <==> appendImport && item.doc.Declared? && item.package.Some?
    ensures FlatImport(item, appendImport) != [] ==>
      FlatImport(item, appendImport) == [BoldText("Import"), FencedCode(FlatNaming.FormatImport(item).value, "typescript")]
    ensures FlatImport(item, false) == []
  {
  }

  /** No member among the first `n` has kind `k`. */
  predicate NoneOfKind(item: ApiItem, n: nat, k: Kind)
    requires n <= |item.members|
  {
    forall i :: 0 <= i < n ==> item.members[i].kind != k
  }

  /** Every row of the class tables has its header's arity. */
  predicate ClassArities(p: ClassParts) {
    && RowsOfArity(p.events, |ClassPropertyHeaders|) && RowsOfArity(p.constructors, |ConstructorHeaders|)
    && RowsOfArity(p.properties, |ClassPropertyHeaders|) && RowsOfArity(p.methods, |ClassMethodHeaders|)
  }

  /** `NoneOfKind` grows one member at a time. */
  lemma NoneOfKindNext(item: ApiItem, n: nat, k: Kind)
    requires 0 < n <= |item.members|
    ensures NoneOfKind(item, n, k) <==> NoneOfKind(item, n - 1, k) && item.members[n - 1].kind != k
  {
  }

  /** Adding a row of the right arity keeps the arity and makes the table non-empty. */
  lemma ArityAppend(rows: seq<Row>, row: Row, n: nat)
    requires RowsOfArity(rows, n) && |row| == n
    ensures RowsOfArity(rows + [row], n) && rows + [row] != []
  {
  }

  /** One class member keeps the arities of the class tables. */
  lemma ClassStepArities(layout: Layout, p: ClassParts, m: ApiItem, content: seq<Node>)
    requires ClassArities(p)
    ensures ClassArities(ClassStep(layout, p, m, content))
  {
    match m.kind
    case Constructor => ArityAppend(p.constructors, ClassMemberRow(layout, m), |ConstructorHeaders|);
    case Method => ArityAppend(p.methods, ClassMemberRow(layout, m), |ClassMethodHeaders|);
    case Property =>
      if IsEvent(m) {
        ArityAppend(p.events, ClassPropertyRow(layout, m), |ClassPropertyHeaders|);
      } else {
        ArityAppend(p.properties, ClassPropertyRow(layout, m), |ClassPropertyHeaders|);
      }
    case _ =>
  }

  /** One class member adds a row only to its own kind's table. */
  lemma ClassStepRows(layout: Layout, p: ClassParts, m: ApiItem, content: seq<Node>)
    ensures var q := ClassStep(layout, p, m, content);
      && (q.constructors == [] <==> p.constructors == [] && m.kind != Constructor)
      && (q.methods == [] <==> p.methods == [] && m.kind != Method)
      && (q.events == [] && q.properties == [] <==> p.events == [] && p.properties == [] && m.kind != Property)
  {
    var q := ClassStep(layout, p, m, content);
    match m.kind
    case Constructor => assert q.events == p.events && q.properties == p.properties && q.constructors != [];
    case Method => assert q.events == p.events && q.properties == p.properties && q.methods != [];
    case Property =>
      if IsEvent(m) {
        assert q.events != [];
      } else {
        assert q.properties != [];
      }
    case _ => assert q == p;
  }

  /** One turn of the class loop, once the loop so far has not thrown: listed members' content never throws. */
  lemma ClassFoldNext(layout: Layout, rule: HeadingRule, item: ApiItem, n: nat)
    requires 0 < n <= |item.members|
    requires ClassFold(layout, rule, item, n - 1).Ok?
    ensures ClassListed(item.members[n - 1].kind) ==> Content(layout, rule, item.members[n - 1], false).Ok?
    ensures ClassFold(layout, rule, item, n) ==
      var p := ClassFold(layout, rule, item, n - 1).value;
      var m := item.members[n - 1];
      if ClassListed(m.kind) then Ok(ClassStep(layout, p, m, Content(layout, rule, m, false).value)) else Ok(p)
  {
    var m := item.members[n - 1];
    if ClassListed(m.kind) {
      MemberContentOk(layout, rule, m, false);
    }
  }

  /** The class loop never throws, and every row it files has the arity of its table's header. */
  lemma {:induction false} ClassFoldArities(layout: Layout, rule: HeadingRule, item: ApiItem, n: nat)
    requires n <= |item.members|
    ensures ClassFold(layout, rule, item, n).Ok?
    ensures ClassArities(ClassFold(layout, rule, item, n).value)
  {
    if n > 0 {
      ClassFoldArities(layout, rule, item, n - 1);
      var p := ClassFold(layout, rule, item, n - 1).value;
      var m := item.members[n - 1];
      if ClassListed(m.kind) {
        MemberContentOk(layout, rule, m, false);
        var c := Content(layout, rule, m, false).value;
        ClassStepArities(layout, p, m, c);
        assert ClassFold(layout, rule, item, n) == Ok(ClassStep(layout, p, m, c));
      } else {
        assert ClassFold(layout, rule, item, n) == Ok(p);
      }
    }
  }

  /**
   * A class table gets a row exactly when a member of its kind is present among the first
   * `n`: constructors, methods, and properties (events or not).
   */
  lemma {:induction false} ClassFoldRows(layout: Layout, rule: HeadingRule, item: ApiItem, n: nat)
    requires n <= |item.members|
    ensures ClassFold(layout, rule, item, n).Ok?
    ensures var p := ClassFold(layout, rule, item, n).value;
      && (p.constructors == [] <==> NoneOfKind(item, n, Constructor))
      && (p.methods == [] <==> NoneOfKind(item, n, Method))
      && (p.events == [] && p.properties == [] <==> NoneOfKind(item, n, Property))
  {
    if n > 0 {
      ClassFoldRows(layout, rule, item, n - 1);
      ClassFoldNext(layout, rule, item, n);
      var m := item.members[n - 1];
      NoneOfKindNext(item, n, Constructor);
      NoneOfKindNext(item, n, Method);
      NoneOfKindNext(item, n, Property);
      if ClassListed(m.kind) {
        ClassStepRows(layout, ClassFold(layout, rule, item, n - 1).value, m, Content(layout, rule, m, false).value);
      }
    }
  }

  /** The four class tables are well formed when their rows are, and empty exactly when they are. */
  lemma ClassTableNodesShape(p: ClassParts)
    requires ClassArities(p)
    ensures TablesWellFormed(ClassTableNodes(p))
    ensures ClassTableNodes(p) == [] <==>
      p.events == [] && p.constructors == [] && p.properties == [] && p.methods == []
  {
    var a := TableSection(BoldHeading("Events"), ClassPropertyHeaders, p.events);
    var b := TableSection(BoldHeading("Constructors"), ConstructorHeaders, p.constructors);
    var c := TableSection(BoldHeading("Properties"), ClassPropertyHeaders, p.properties);
    var d := TableSection(BoldHeading("Methods"), ClassMethodHeaders, p.methods);
    TableSectionWellFormed(BoldHeading("Events"), ClassPropertyHeaders, p.events);
    TableSectionWellFormed(BoldHeading("Constructors"), ConstructorHeaders, p.constructors);
    TableSectionWellFormed(BoldHeading("Properties"), ClassPropertyHeaders, p.properties);
    TableSectionWellFormed(BoldHeading("Methods"), ClassMethodHeaders, p.methods);
    WellFormedConcat(a, b);
    WellFormedConcat(a + b, c);
    WellFormedConcat(a + b + c, d);
  }

  /** A member of any kind a class page lists is present exactly when one of the three kinds is. */
  lemma NoneClassListed(item: ApiItem)
    ensures (forall m :: m in item.members ==> !ClassListed(m.kind)) <==>
      var n := |item.members|;
      NoneOfKind(item, n, Constructor) && NoneOfKind(item, n, Method) && NoneOfKind(item, n, Property)
  {
    var n := |item.members|;
    if NoneOfKind(item, n, Constructor) && NoneOfKind(item, n, Method) && NoneOfKind(item, n, Property) {
      forall m | m in item.members ensures !ClassListed(m.kind) {
        var i :| 0 <= i < n && item.members[i] == m;
      }
    }
  }

  /** A member of any kind an interface page lists is present exactly when one of the three kinds is. */
  lemma NoneInterfaceListed(item: ApiItem)
    ensures (forall m :: m in item.members ==> !InterfaceListed(m.kind)) <==>
      var n := |item.members|;
      NoneOfKind(item, n, ConstructSignature) && NoneOfKind(item, n, MethodSignature)
      && NoneOfKind(item, n, PropertySignature)
  {
    var n := |item.members|;
    if NoneOfKind(item, n, ConstructSignature) && NoneOfKind(item, n, MethodSignature)
      && NoneOfKind(item, n, PropertySignature)
    {
      forall m | m in item.members ensures !InterfaceListed(m.kind) {
        var i :| 0 <= i < n && item.members[i] == m;
      }
    }
  }

  /** The class tables are well formed, and there is none exactly when no member is listed. */
  lemma ClassTablesShape(layout: Layout, rule: HeadingRule, item: ApiItem)
    ensures ClassTables(layout, rule, item).Ok?
    ensures var p := ClassFold(layout, rule, item, |item.members|).value;
      && ClassTables(layout, rule, item).value == ClassOutput(p)
      && TablesWellFormed(ClassTableNodes(p))
      && (ClassTableNodes(p) == [] <==> forall m :: m in item.members ==> !ClassListed(m.kind))
  {
    var n := |item.members|;
    ClassFoldArities(layout, rule, item, n);
    ClassFoldRows(layout, rule, item, n);
    ClassTableNodesShape(ClassFold(layout, rule, item, n).value);
    NoneClassListed(item);
  }

  /** Every row of the interface tables has its header's arity. */
  predicate InterfaceArities(p: InterfaceParts) {
    && RowsOfArity(p.events, |InterfacePropertyHeaders|) && RowsOfArity(p.properties, |InterfacePropertyHeaders|)
    && RowsOfArity(p.methods, |InterfaceMethodHeaders|)
  }

  /** One interface member keeps the arities of the interface tables. */
  lemma InterfaceStepArities(layout: Layout, p: InterfaceParts, m: ApiItem, content: seq<Node>)
    requires InterfaceArities(p)
    ensures InterfaceArities(InterfaceStep(layout, p, m, content))
  {
    match m.kind
    case ConstructSignature => ArityAppend(p.methods, InterfaceMethodRow(layout, m), |InterfaceMethodHeaders|);
    case MethodSignature => ArityAppend(p.methods, InterfaceMethodRow(layout, m), |InterfaceMethodHeaders|);
    case PropertySignature =>
      if IsEvent(m) {
        ArityAppend(p.events, InterfacePropertyRow(layout, m), |InterfacePropertyHeaders|);
      } else {
        ArityAppend(p.properties, InterfacePropertyRow(layout, m), |InterfacePropertyHeaders|);
      }
    case _ =>
  }

  /** One interface member adds a row only to its own kind's table. */
  lemma InterfaceStepRows(layout: Layout, p: InterfaceParts, m: ApiItem, content: seq<Node>)
    ensures var q := InterfaceStep(layout, p, m, content);
      && (q.methods == [] <==> p.methods == [] && m.kind != MethodSignature && m.kind != ConstructSignature)
      && (q.events == [] && q.properties == [] <==> p.events == [] && p.properties == [] && m.kind != PropertySignature)
  {
    var q := InterfaceStep(layout, p, m, content);
    match m.kind
    case ConstructSignature => assert q.events == p.events && q.properties == p.properties && q.methods != [];
    case MethodSignature => assert q.events == p.events && q.properties == p.properties && q.methods != [];
    case PropertySignature =>
      if IsEvent(m) {
        assert q.events != [];
      } else {
        assert q.properties != [];
      }
    case _ => assert q == p;
  }

  /** One turn of the interface loop, once the loop so far has not thrown. */
  lemma InterfaceFoldNext(layout: Layout, rule: HeadingRule, item: ApiItem, n: nat)
    requires 0 < n <= |item.members|
    requires InterfaceFold(layout, rule, item, n - 1).Ok?
    ensures InterfaceListed(item.members[n - 1].kind) ==> Content(layout, rule, item.members[n - 1], false).Ok?
    ensures InterfaceFold(layout, rule, item, n) ==
      var p := InterfaceFold(layout, rule, item, n - 1).value;
      var m := item.members[n - 1];
      if InterfaceListed(m.kind) then Ok(InterfaceStep(layout, p, m, Content(layout, rule, m, false).value)) else Ok(p)
  {
    var m := item.members[n - 1];
    if InterfaceListed(m.kind) {
      MemberContentOk(layout, rule, m, false);
    }
  }

  /** The interface loop never throws, and every row it files has the arity of its table's header. */
  lemma {:induction false} InterfaceFoldArities(layout: Layout, rule: HeadingRule, item: ApiItem, n: nat)
    requires n <= |item.members|
    ensures InterfaceFold(layout, rule, item, n).Ok?
    ensures InterfaceArities(InterfaceFold(layout, rule, item, n).value)
  {
    if n > 0 {
      InterfaceFoldArities(layout, rule, item, n - 1);
      var p := InterfaceFold(layout, rule, item, n - 1).value;
      var m := item.members[n - 1];
      if InterfaceListed(m.kind) {
        MemberContentOk(layout, rule, m, false);
        var c := Content(layout, rule, m, false).value;
        InterfaceStepArities(layout, p, m, c);
        assert InterfaceFold(layout, rule, item, n) == Ok(InterfaceStep(layout, p, m, c));
      } else {
        assert InterfaceFold(layout, rule, item, n) == Ok(p);
      }
    }
  }

  /**
   * An interface table gets a row exactly when a member of its kind is present among the
   * first `n`: method and construct signatures share the methods table.
   */
  lemma {:induction false} InterfaceFoldRows(layout: Layout, rule: HeadingRule, item: ApiItem, n: nat)
    requires n <= |item.members|
    ensures InterfaceFold(layout, rule, item, n).Ok?
    ensures var p := InterfaceFold(layout, rule, item, n).value;
      && (p.methods == [] <==> NoneOfKind(item, n, MethodSignature) && NoneOfKind(item, n, ConstructSignature))
      && (p.events == [] && p.properties == [] <==> NoneOfKind(item, n, PropertySignature))
  {
    if n > 0 {
      InterfaceFoldRows(layout, rule, item, n - 1);
      InterfaceFoldNext(layout, rule, item, n);
      var m := item.members[n - 1];
      NoneOfKindNext(item, n, MethodSignature);
      NoneOfKindNext(item, n, ConstructSignature);
      NoneOfKindNext(item, n, PropertySignature);
      if InterfaceListed(m.kind) {
        InterfaceStepRows(layout, InterfaceFold(layout, rule, item, n - 1).value, m, Content(layout, rule, m, false).value);
      }
    }
  }

  /** The three interface tables are well formed when their rows are, and empty exactly when they are. */
  lemma InterfaceTableNodesShape(p: InterfaceParts)
    requires InterfaceArities(p)
    ensures TablesWellFormed(InterfaceTableNodes(p))
    ensures InterfaceTableNodes(p) == [] <==> p.events == [] && p.properties == [] && p.methods == []
  {
    var a := TableSection(BoldHeading("Events"), InterfacePropertyHeaders, p.events);
    var b := TableSection(BoldHeading("Properties"), InterfacePropertyHeaders, p.properties);
    var c := TableSection(BoldHeading("Methods"), InterfaceMethodHeaders, p.methods);
    TableSectionWellFormed(BoldHeading("Events"), InterfacePropertyHeaders, p.events);
    TableSectionWellFormed(BoldHeading("Properties"), InterfacePropertyHeaders, p.properties);
    TableSectionWellFormed(BoldHeading("Methods"), InterfaceMethodHeaders, p.methods);
    WellFormedConcat(a, b);
    WellFormedConcat(a + b, c);
  }

  /** The interface tables are well formed, and there is none exactly when no member is listed. */
  lemma InterfaceTablesShape(layout: Layout, rule: HeadingRule, item: ApiItem)
    ensures InterfaceTables(layout, rule, item).Ok?
    ensures var p := InterfaceFold(layout, rule, item, |item.members|).value;
      && InterfaceTables(layout, rule, item).value == InterfaceOutput(p)
      && TablesWellFormed(InterfaceTableNodes(p))
      && (InterfaceTableNodes(p) == [] <==> forall m :: m in item.members ==> !InterfaceListed(m.kind))
  {
    var n := |item.members|;
    InterfaceFoldArities(layout, rule, item, n);
    InterfaceFoldRows(layout, rule, item, n);
    InterfaceTableNodesShape(InterfaceFold(layout, rule, item, n).value);
    NoneInterfaceListed(item);
  }
}

