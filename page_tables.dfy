/**
 * The tables of container pages both documenters write: the model's packages
 * (`_writeModelTable`), a package's or namespace's declarations
 * (`_writePackageOrNamespaceTables`) and an enum's members (`_writeEnumTables`).
 */
module PageTables {
  import opened Wrappers
  import opened Nodes
  import opened Api
  import opened Utilities
  import opened PageCells

  /** The header titles of each table. */
  const PackageHeaders: seq<string> := ["Package", "Description"]
  const ClassHeaders: seq<string> := ["Class", "Description"]
  const EnumerationHeaders: seq<string> := ["Enumeration", "Description"]
  const FunctionHeaders: seq<string> := ["Function", "Description"]
  const InterfaceHeaders: seq<string> := ["Interface", "Description"]
  const NamespaceHeaders: seq<string> := ["Namespace", "Description"]
  const VariableHeaders: seq<string> := ["Variable", "Description"]
  const TypeAliasHeaders: seq<string> := ["Type Alias", "Description"]
  const EnumMemberHeaders: seq<string> := ["Member", "Value", "Description"]

  /** The two-cell row of a container table: the linked title and the description. */
  function SummaryRow(layout: Layout, item: ApiItem): Row {
    [TitleCell(layout, item), DescriptionCell(item)]
  }

  /** The rows for the members of kind `k`, in member order. */
  function KindRows(layout: Layout, members: seq<ApiItem>, k: Kind): (rows: seq<Row>)
    ensures |rows| <= |members|
  {
    if members == [] then []
    else
      var last := members[|members| - 1];
      KindRows(layout, members[..|members| - 1], k) + (if last.kind == k then [SummaryRow(layout, last)] else [])
  }

  /**
   * A table of some kind is empty exactly when no member has that kind; it holds a row
   * for each such member, and every row has two cells.
   */
  lemma KindRowsCount(layout: Layout, members: seq<ApiItem>, k: Kind)
    ensures KindRows(layout, members, k) == [] <==> forall m :: m in members ==> m.kind != k
    ensures forall m :: m in members && m.kind == k ==> SummaryRow(layout, m) in KindRows(layout, members, k)
    ensures RowsOfArity(KindRows(layout, members, k), 2)
  {
    KindRowsEmpty(layout, members, k);
    KindRowsListed(layout, members, k);
    KindRowsArity(layout, members, k);
  }

  lemma {:induction false} KindRowsEmpty(layout: Layout, members: seq<ApiItem>, k: Kind)
    ensures KindRows(layout, members, k) == [] <==> forall m :: m in members ==> m.kind != k
  {
    if members != [] {
      var init := members[..|members| - 1];
      var last := members[|members| - 1];
      KindRowsEmpty(layout, init, k);
      assert members == init + [last];
    }
  }

  lemma {:induction false} KindRowsListed(layout: Layout, members: seq<ApiItem>, k: Kind)
    ensures forall m :: m in members && m.kind == k ==> SummaryRow(layout, m) in KindRows(layout, members, k)
  {
    if members != [] {
      var init := members[..|members| - 1];
      var last := members[|members| - 1];
      KindRowsListed(layout, init, k);
      assert members == init + [last];
      forall m | m in members && m.kind == k
        ensures SummaryRow(layout, m) in KindRows(layout, members, k)
      {
        if m != last {
          assert m in init;
        }
      }
    }
  }

  lemma {:induction false} KindRowsArity(layout: Layout, members: seq<ApiItem>, k: Kind)
    ensures RowsOfArity(KindRows(layout, members, k), 2)
  {
    if members != [] {
      KindRowsArity(layout, members[..|members| - 1], k);
    }
  }

  /** What `_writeModelTable` appends: the packages among the model's members. */
  function ModelTable(layout: Layout, item: ApiItem): seq<Node> {
    TableSection(Heading("Packages", Some(2)), PackageHeaders, KindRows(layout, item.members, Package))
  }

  /** `_writeModelTable`. */
  method WriteModelTable(layout: Layout, output: DocSection, item: ApiItem)
    modifies output
    ensures output.nodes == old(output.nodes) + ModelTable(layout, item)
  {
    var packages: seq<Row> := [];
    var members := item.members;
    for i := 0 to |members|
      invariant packages == KindRows(layout, members[..i], Package)
      invariant output.nodes == old(output.nodes)
    {
      var m := members[i];
      var title := CreateTitleCell(layout, m);
      var description := CreateDescriptionCell(m);
      var row := [title, description];
      if m.kind == Package {
        packages := packages + [row];
      }
      assert members[..i + 1][..i] == members[..i];
    }
    assert members[..|members|] == members;
    WriteTableSection(output, Heading("Packages", Some(2)), PackageHeaders, packages);
  }

  /** The table sections of a package or namespace, in their fixed order. */
  function ContainerTables(layout: Layout, members: seq<ApiItem>): seq<Node> {
    FirstTables(KindRows(layout, members, Class), KindRows(layout, members, Enum),
                KindRows(layout, members, Function), KindRows(layout, members, Interface))
    + LastTables(KindRows(layout, members, Namespace), KindRows(layout, members, Variable),
                 KindRows(layout, members, TypeAlias))
  }

  /** The classes, enumerations, functions and interfaces blocks. */
  function FirstTables(classes: seq<Row>, enumerations: seq<Row>, functions: seq<Row>, interfaces: seq<Row>): seq<Node> {
    TableSection(Heading("Classes", None), ClassHeaders, classes)
    + TableSection(Heading("Enumerations", None), EnumerationHeaders, enumerations)
    + TableSection(Heading("Functions", None), FunctionHeaders, functions)
    + TableSection(Heading("Interfaces", None), InterfaceHeaders, interfaces)
  }

  /** The namespaces, variables and type aliases blocks. */
  function LastTables(namespaces: seq<Row>, variables: seq<Row>, typeAliases: seq<Row>): seq<Node> {
    TableSection(Heading("Namespaces", None), NamespaceHeaders, namespaces)
    + TableSection(Heading("Variables", None), VariableHeaders, variables)
    + TableSection(Heading("Type Aliases", None), TypeAliasHeaders, typeAliases)
  }

  /** What `_writePackageOrNamespaceTables` appends; a package's members are its first entry point's. */
  function PackageOrNamespaceTables(layout: Layout, item: ApiItem): seq<Node> {
    ContainerTables(layout, item.members)
  }

  /** The kinds a package or namespace table lists. */
  predicate Listed(k: Kind) {
    k in {Class, Enum, Function, Interface, Namespace, Variable, TypeAlias}
  }

  /** The first four blocks are well formed when their rows are, and empty exactly when they are. */
  lemma FirstTablesShape(classes: seq<Row>, enumerations: seq<Row>, functions: seq<Row>, interfaces: seq<Row>)
    requires RowsOfArity(classes, 2) && RowsOfArity(enumerations, 2)
    requires RowsOfArity(functions, 2) && RowsOfArity(interfaces, 2)
    ensures TablesWellFormed(FirstTables(classes, enumerations, functions, interfaces))
    ensures FirstTables(classes, enumerations, functions, interfaces) == []
        <==> classes == [] && enumerations == [] && functions == [] && interfaces == []
  {
    var a := TableSection(Heading("Classes", None), ClassHeaders, classes);
    var b := TableSection(Heading("Enumerations", None), EnumerationHeaders, enumerations);
    var c := TableSection(Heading("Functions", None), FunctionHeaders, functions);
    var d := TableSection(Heading("Interfaces", None), InterfaceHeaders, interfaces);
    TableSectionWellFormed(Heading("Classes", None), ClassHeaders, classes);
    TableSectionWellFormed(Heading("Enumerations", None), EnumerationHeaders, enumerations);
    TableSectionWellFormed(Heading("Functions", None), FunctionHeaders, functions);
    TableSectionWellFormed(Heading("Interfaces", None), InterfaceHeaders, interfaces);
    WellFormedConcat(a, b);
    WellFormedConcat(a + b, c);
    WellFormedConcat(a + b + c, d);
  }

  /** The last three blocks are well formed when their rows are, and empty exactly when they are. */
  lemma LastTablesShape(namespaces: seq<Row>, variables: seq<Row>, typeAliases: seq<Row>)
    requires RowsOfArity(namespaces, 2) && RowsOfArity(variables, 2) && RowsOfArity(typeAliases, 2)
    ensures TablesWellFormed(LastTables(namespaces, variables, typeAliases))
    ensures LastTables(namespaces, variables, typeAliases) == []
        <==> namespaces == [] && variables == [] && typeAliases == []
  {
    var e := TableSection(Heading("Namespaces", None), NamespaceHeaders, namespaces);
    var f := TableSection(Heading("Variables", None), VariableHeaders, variables);
    var g := TableSection(Heading("Type Aliases", None), TypeAliasHeaders, typeAliases);
    TableSectionWellFormed(Heading("Namespaces", None), NamespaceHeaders, namespaces);
    TableSectionWellFormed(Heading("Variables", None), VariableHeaders, variables);
    TableSectionWellFormed(Heading("Type Aliases", None), TypeAliasHeaders, typeAliases);
    WellFormedConcat(e, f);
    WellFormedConcat(e + f, g);
  }

  /**
   * Every table a container page writes is well formed, and the container writes no
   * table at all exactly when none of its members has a listed kind.
   */
  lemma ContainerTablesShape(layout: Layout, members: seq<ApiItem>)
    ensures TablesWellFormed(ContainerTables(layout, members))
    ensures ContainerTables(layout, members) == [] <==> forall m :: m in members ==> !Listed(m.kind)
  {
    KindRowsCount(layout, members, Class);
    KindRowsCount(layout, members, Enum);
    KindRowsCount(layout, members, Function);
    KindRowsCount(layout, members, Interface);
    KindRowsCount(layout, members, Namespace);
    KindRowsCount(layout, members, Variable);
    KindRowsCount(layout, members, TypeAlias);
    var first := FirstTables(KindRows(layout, members, Class), KindRows(layout, members, Enum),
                             KindRows(layout, members, Function), KindRows(layout, members, Interface));
    var last := LastTables(KindRows(layout, members, Namespace), KindRows(layout, members, Variable),
                           KindRows(layout, members, TypeAlias));
    FirstTablesShape(KindRows(layout, members, Class), KindRows(layout, members, Enum),
                     KindRows(layout, members, Function), KindRows(layout, members, Interface));
    LastTablesShape(KindRows(layout, members, Namespace), KindRows(layout, members, Variable),
                    KindRows(layout, members, TypeAlias));
    WellFormedConcat(first, last);
  }

  /** The model page's packages table is well formed. */
  lemma ModelTableShape(layout: Layout, item: ApiItem)
    ensures TablesWellFormed(ModelTable(layout, item))
    ensures ModelTable(layout, item) == [] <==> forall m :: m in item.members ==> m.kind != Package
  {
    KindRowsCount(layout, item.members, Package);
    TableSectionWellFormed(Heading("Packages", Some(2)), PackageHeaders, KindRows(layout, item.members, Package));
  }

  /** `_writePackageOrNamespaceTables`. */
  method WritePackageOrNamespaceTables(layout: Layout, output: DocSection, item: ApiItem)
    modifies output
    ensures output.nodes == old(output.nodes) + PackageOrNamespaceTables(layout, item)
  {
    var members := item.members;
    var classes, enumerations, functions, interfaces, namespaces, variables, typeAliases :=
      BuildContainerRows(layout, members);
    ghost var start := output.nodes;
    WriteFirstSections(output, classes, enumerations, functions, interfaces);
    WriteLastSections(output, namespaces, variables, typeAliases);
    ghost var first := FirstTables(classes, enumerations, functions, interfaces);
    ghost var last := LastTables(namespaces, variables, typeAliases);
    AppendAssoc(start, first, last);
  }

  /** The classes, enumerations, functions and interfaces blocks. */
  method WriteFirstSections(output: DocSection, classes: seq<Row>, enumerations: seq<Row>, functions: seq<Row>, interfaces: seq<Row>)
    modifies output
    ensures output.nodes == old(output.nodes) + FirstTables(classes, enumerations, functions, interfaces)
  {
    WriteTableSection(output, Heading("Classes", None), ClassHeaders, classes);
    WriteTableSection(output, Heading("Enumerations", None), EnumerationHeaders, enumerations);
    WriteTableSection(output, Heading("Functions", None), FunctionHeaders, functions);
    WriteTableSection(output, Heading("Interfaces", None), InterfaceHeaders, interfaces);
  }

  /** The namespaces, variables and type aliases blocks. */
  method WriteLastSections(output: DocSection, namespaces: seq<Row>, variables: seq<Row>, typeAliases: seq<Row>)
    modifies output
    ensures output.nodes == old(output.nodes) + LastTables(namespaces, variables, typeAliases)
  {
    WriteTableSection(output, Heading("Namespaces", None), NamespaceHeaders, namespaces);
    WriteTableSection(output, Heading("Variables", None), VariableHeaders, variables);
    WriteTableSection(output, Heading("Type Aliases", None), TypeAliasHeaders, typeAliases);
  }

  /** The member loop of `_writePackageOrNamespaceTables`: one pass, each row sorted into its kind's table. */
  method BuildContainerRows(layout: Layout, members: seq<ApiItem>)
    returns (classes: seq<Row>, enumerations: seq<Row>, functions: seq<Row>, interfaces: seq<Row>,
             namespaces: seq<Row>, variables: seq<Row>, typeAliases: seq<Row>)
    ensures classes == KindRows(layout, members, Class)
    ensures enumerations == KindRows(layout, members, Enum)
    ensures functions == KindRows(layout, members, Function)
    ensures interfaces == KindRows(layout, members, Interface)
    ensures namespaces == KindRows(layout, members, Namespace)
    ensures variables == KindRows(layout, members, Variable)
    ensures typeAliases == KindRows(layout, members, TypeAlias)
  {
    classes, enumerations, functions, interfaces, namespaces, variables, typeAliases := [], [], [], [], [], [], [];
    for i := 0 to |members|
      invariant classes == KindRows(layout, members[..i], Class)
      invariant enumerations == KindRows(layout, members[..i], Enum)
      invariant functions == KindRows(layout, members[..i], Function)
      invariant interfaces == KindRows(layout, members[..i], Interface)
      invariant namespaces == KindRows(layout, members[..i], Namespace)
      invariant variables == KindRows(layout, members[..i], Variable)
      invariant typeAliases == KindRows(layout, members[..i], TypeAlias)
    {
      var m := members[i];
      var title := CreateTitleCell(layout, m);
      var description := CreateDescriptionCell(m);
      var row := [title, description];
      assert row == SummaryRow(layout, m);
      KindRowsStep(layout, members, i);
      if m.kind == Class {
        classes := classes + [row];
      } else if m.kind == Enum {
        enumerations := enumerations + [row];
      } else if m.kind == Interface {
        interfaces := interfaces + [row];
      } else if m.kind == Namespace {
        namespaces := namespaces + [row];
      } else if m.kind == Function {
        functions := functions + [row];
      } else if m.kind == TypeAlias {
        typeAliases := typeAliases + [row];
      } else if m.kind == Variable {
        variables := variables + [row];
      }
    }
    assert members[..|members|] == members;
  }

  /** One more member adds its row to its own kind's table and to no other. */
  lemma KindRowsStep(layout: Layout, members: seq<ApiItem>, i: nat)
    requires i < |members|
    ensures forall k :: (KindRows(layout, members[..i + 1], k) ==
      KindRows(layout, members[..i], k) + (if members[i].kind == k then [SummaryRow(layout, members[i])] else []))
  {
    assert members[..i + 1][..i] == members[..i];
  }

  /** The row of one enum member: its concise signature, its initializer in code, and its description. */
  function EnumRow(m: ApiItem): Row {
    [[Paragraph([PlainText(ConciseSignature(m))])], [Paragraph([CodeSpan(m.initializer)])], DescriptionCell(m)]
  }

  function EnumRows(members: seq<ApiItem>): (rows: seq<Row>)
    ensures |rows| == |members|
  {
    if members == [] then [] else EnumRows(members[..|members| - 1]) + [EnumRow(members[|members| - 1])]
  }

  /** Row `k` is member `k`'s row, and every row has three cells. */
  lemma {:induction false} EnumRowsShape(members: seq<ApiItem>)
    ensures forall k :: 0 <= k < |members| ==> EnumRows(members)[k] == EnumRow(members[k])
    ensures RowsOfArity(EnumRows(members), 3)
  {
    if members != [] {
      EnumRowsShape(members[..|members| - 1]);
    }
  }

  /** What `_writeEnumTables` appends: every member, in order, in one table. */
  function EnumTable(item: ApiItem): seq<Node> {
    TableSection(Heading("Enumeration Members", None), EnumMemberHeaders, EnumRows(item.members))
  }

  /** The enum table is left out exactly for an enum without members, and has one three-cell row per member. */
  lemma EnumTableShape(item: ApiItem)
    ensures EnumTable(item) == [] <==> item.members == []
    ensures item.members != [] ==> EnumTable(item)[1].Table? && |EnumTable(item)[1].rows| == |item.members|
    ensures TablesWellFormed(EnumTable(item))
  {
    var rows := EnumRows(item.members);
    EnumRowsShape(item.members);
    TableSectionWellFormed(Heading("Enumeration Members", None), EnumMemberHeaders, rows);
  }

  /** `_writeEnumTables`. */
  method WriteEnumTables(output: DocSection, item: ApiItem)
    modifies output
    ensures output.nodes == old(output.nodes) + EnumTable(item)
  {
    var rows: seq<Row> := [];
    var members := item.members;
    for i := 0 to |members|
      invariant rows == EnumRows(members[..i])
      invariant output.nodes == old(output.nodes)
    {
      var m := members[i];
      var description := CreateDescriptionCell(m);
      rows := rows + [[[Paragraph([PlainText(ConciseSignature(m))])], [Paragraph([CodeSpan(m.initializer)])], description]];
      assert members[..i + 1][..i] == members[..i];
    }
    assert members[..|members|] == members;
    WriteTableSection(output, Heading("Enumeration Members", None), EnumMemberHeaders, rows);
  }
}
