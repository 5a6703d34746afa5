/**
 * File names, link targets and the import snippet of the flat layout
 * (`GrafanaMarkdownDocumenter`): `index.md` pages, `/`-joined segments plus `.md`,
 * links always `./`-prefixed.
 */
module FlatNaming {
  import opened Wrappers
  import opened Text
  import opened Api
  import opened Utilities
  import HugoNaming
  import ImportAppender

  /** One iteration of the hierarchy loop. */
  function Step(baseName: string, level: Level): string {
    if level.kind == Model || level.kind == EntryPoint then baseName
    else if level.kind == Package then SafeFilename(level.unscopedName)
    else baseName + "/" + HugoNaming.QualifiedName(level)
  }

  /** The base name after the given levels. */
  function Walk(levels: seq<Level>): string {
    if levels == [] then "" else Step(Walk(levels[..|levels| - 1]), levels[|levels| - 1])
  }

  /** `_getFilenameForApiItem`. */
  function Filename(item: ApiItem): string {
    if item.kind == Model then "index.md"
    else if item.kind == Package then SafeFilename(item.unscopedName) + "/index.md"
    else Walk(item.hierarchy) + ".md"
  }

  /** `_getFilenameForApiItem`, with its loop over the hierarchy. */
  method GetFilenameForApiItem(item: ApiItem) returns (r: string)
    ensures r == Filename(item)
  {
    if item.kind == Model {
      return "index.md";
    }
    if item.kind == Package {
      var baseName := SafeFilename(item.unscopedName);
      return baseName + "/index.md";
    }
    var baseName := "";
    var levels := item.hierarchy;
    for i := 0 to |levels|
      invariant baseName == Walk(levels[..i])
    {
      var level := levels[i];
      var qualifiedName := SafeFilename(level.displayName);
      if level.overloadIndex.Some? && level.overloadIndex.value > 1 {
        qualifiedName := qualifiedName + "_" + NatToString(level.overloadIndex.value - 1);
      }
      assert qualifiedName == HugoNaming.QualifiedName(level);
      if level.kind == Model || level.kind == EntryPoint {
      } else if level.kind == Package {
        baseName := SafeFilename(level.unscopedName);
      } else {
        baseName := baseName + "/" + qualifiedName;
      }
      assert levels[..i + 1][..i] == levels[..i];
    }
    assert levels[..|levels|] == levels;
    return baseName + ".md";
  }

  /** `_getLinkFilenameForApiItem`. */
  function LinkFilename(item: ApiItem): string {
    "./" + Filename(item)
  }

  /** Every file name ends in `.md`, and every link is `./` followed by the file name. */
  lemma FilenameShape(item: ApiItem)
    ensures EndsWith(Filename(item), ".md")
    ensures StartsWith(LinkFilename(item), "./") && LinkFilename(item)[2..] == Filename(item)
    ensures item.kind == Model ==> Filename(item) == "index.md"
    ensures item.kind == Package ==> Filename(item) == SafeFilename(item.unscopedName) + "/index.md"
  {
    var f := Filename(item);
    if item.kind == Model {
      assert f == "index" + ".md";
    } else if item.kind == Package {
      assert f == SafeFilename(item.unscopedName) + "/index" + ".md";
    }
  }

  /**
   * Where no level is a method, the flat base name is the Hugo base name: the two layouts
   * differ for such items only in the Hugo layout's relative prefix.
   */
  lemma {:induction false} WalkAsHugo(levels: seq<Level>)
    requires !HugoNaming.HasMethod(levels)
    ensures Walk(levels) == HugoNaming.Walk(levels).baseName
  {
    if levels != [] {
      var init := levels[..|levels| - 1];
      forall k | 0 <= k < |init|
        ensures init[k].kind != Method
      {
        assert init[k] == levels[k];
      }
      WalkAsHugo(init);
      assert levels[|levels| - 1].kind != Method;
    }
  }

  /** The file of an item with no method level has the same name in both layouts, apart from the model and packages. */
  lemma SameFilenameAsHugo(item: ApiItem)
    requires item.kind != Model && item.kind != Package
    requires !HugoNaming.HasMethod(item.hierarchy)
    ensures Filename(item) == HugoNaming.Filename(item, false)
  {
    WalkAsHugo(item.hierarchy);
    HugoNaming.WalkShape(item.hierarchy);
  }

  /**
   * `_getUrlDestination`. The second `Method` label in the source's switch is never
   * reached; property signatures and constructors fall through to the link file name.
   */
  function UrlDestination(item: ApiItem): string {
    match item.kind
    case Method => "#" + SafeFilename(item.displayName) + "-method"
    case MethodSignature => "#" + SafeFilename(item.displayName) + "-method"
    case Package => "./" + SafeFilename(item.unscopedName)
    case Property => "#" + SafeFilename(item.displayName) + "-property"
    case TypeAlias => "./" + SafeFilename(item.displayName)
    case Enum => "./" + SafeFilename(item.displayName)
    case Variable => "./" + SafeFilename(item.displayName)
    case Function => "./" + SafeFilename(item.displayName)
    case Interface => "./" + SafeFilename(item.displayName)
    case Namespace => "./" + SafeFilename(item.displayName)
    case Class => "./" + SafeFilename(item.displayName)
    case _ => LinkFilename(item)
  }

  /**
   * Compared with the Hugo layout: methods and class properties link to the same anchors;
   * packages and containers to the same path without the trailing `/`; property
   * signatures and constructors to the link file name instead of an anchor.
   */
  lemma UrlDestinationAsHugo(item: ApiItem)
    ensures item.kind in {Method, MethodSignature, Property} ==> UrlDestination(item) == HugoNaming.UrlDestination(item)
    ensures item.kind in {Package, TypeAlias, Enum, Variable, Function, Interface, Namespace, Class} ==>
      HugoNaming.UrlDestination(item) == UrlDestination(item) + "/"
    ensures item.kind in {PropertySignature, Constructor, ConstructSignature} ==>
      UrlDestination(item) == LinkFilename(item) && StartsWith(HugoNaming.UrlDestination(item), "#")
  {
  }

  /** `_formatImport`: nothing without a package; one import line, or an import and one destructuring line. */
  function FormatImport(item: ApiItem): Option<string> {
    if item.package.None? then None
    else
      var pkg := item.package.value;
      var toImport := item.scopedName;
      if IndexOf(toImport, '.') < 0 then
        Some("import { " + ImportName(toImport) + " } from '" + pkg.displayName + "';")
      else
        var parts := Split(toImport, '.');
        Some("import { " + ImportName(parts[0]) + " } from '" + pkg.displayName + "';\nconst { "
             + ImportName(parts[1]) + " } = " + ImportName(parts[0]) + ";")
  }

  /** The two-line import of `b` out of `a`. */
  function TwoLineImport(a: string, b: string, module_: string): string {
    "import { " + ImportName(a) + " } from '" + module_ + "';\nconst { " + ImportName(b) + " } = " + ImportName(a) + ";"
  }

  /**
   * With a package, a scoped name `a.b.rest` imports exactly as `a.b` does: segments
   * beyond the second are ignored; the module string is the package's display name as is.
   */
  lemma FormatImportIgnoresDeeperSegments(item: ApiItem, a: string, b: string, rest: string)
    requires item.package.Some?
    requires '.' !in a && '.' !in b
    ensures FormatImport(item.(scopedName := a + "." + b)) == Some(TwoLineImport(a, b, item.package.value.displayName))
    ensures FormatImport(item.(scopedName := a + "." + b + "." + rest)) == Some(TwoLineImport(a, b, item.package.value.displayName))
  {
    FormatImportAfter(item, a, b);
    assert Split(b, '.') == [b];
    assert a + "." + b + "." + rest == a + "." + (b + "." + rest);
    FormatImportAfter(item, a, b + "." + rest);
    SplitAfter(b, rest);
  }

  /** A scoped name `a.t` imports the first segment of `t` out of `a`. */
  lemma FormatImportAfter(item: ApiItem, a: string, t: string)
    requires item.package.Some?
    requires '.' !in a
    ensures FormatImport(item.(scopedName := a + "." + t)) ==
      Some(TwoLineImport(a, Split(t, '.')[0], item.package.value.displayName))
  {
    SplitAfter(a, t);
  }

  /** Splitting at a first `.` that follows a prefix without one. */
  lemma SplitAfter(a: string, t: string)
    requires '.' !in a
    ensures IndexOf(a + "." + t, '.') == |a|
    ensures Split(a + "." + t, '.') == [a] + Split(t, '.')
  {
    IndexOfAfter(a, '.', t);
    var s := a + "." + t;
    assert s[..|a|] == a && s[|a| + 1..] == t;
  }

  /** Without a package there is no import; a name without `.` gives a single line. */
  lemma FormatImportCases(item: ApiItem)
    ensures FormatImport(item).None? <==> item.package.None?
    ensures item.package.Some? && '.' !in item.scopedName ==>
      FormatImport(item) == Some("import { " + ImportName(item.scopedName) + " } from '" + item.package.value.displayName + "';")
  {
  }

  /**
   * For a name without `.`, the flat layout imports from the package's display name while
   * `ImportAppender` imports from the item's own display name, sanitised.
   */
  lemma ModuleStringsDiffer(item: ApiItem)
    requires item.package.Some? && '.' !in item.scopedName
    ensures FormatImport(item) == Some("import { " + ImportName(item.scopedName) + " } from '" + item.package.value.displayName + "';")
    ensures ImportAppender.ImportFromItem(item) == Some("import { " + ImportName(item.scopedName) + " } from '" + ImportName(item.displayName) + "';")
  {
    assert Split(item.scopedName, '.') == [item.scopedName];
  }
}
