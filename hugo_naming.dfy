/**
 * File names and link targets of the nested Hugo layout (`HugoMarkdownDocumenter`):
 * `_index.md` pages, one `../` per container level, methods as in-page anchors.
 */
module HugoNaming {
  import opened Wrappers
  import opened Text
  import opened Api
  import opened Utilities

  /** The overload suffix: `_<overloadIndex - 1>` for a parameter-list level past its first overload. */
  function OverloadSuffix(overloadIndex: Option<nat>): string {
    if overloadIndex.Some? && overloadIndex.value > 1 then "_" + NatToString(overloadIndex.value - 1) else ""
  }

  /** The safe name of a hierarchy level with its overload suffix. */
  function QualifiedName(level: Level): string {
    SafeFilename(level.displayName) + OverloadSuffix(level.overloadIndex)
  }

  /** The three variables of the hierarchy loop. */
  datatype FilenameState = FilenameState(baseName: string, relativeToRoot: string, suffix: string)

  const Initial: FilenameState := FilenameState("", "", ".md")

  /** One iteration of the hierarchy loop. */
  function Step(st: FilenameState, level: Level): FilenameState {
    if level.kind == Model || level.kind == EntryPoint then st
    else if level.kind == Package then
      st.(relativeToRoot := "../" + st.relativeToRoot, baseName := SafeFilename(level.unscopedName))
    else if level.kind == Method then
      st.(baseName := st.baseName + "/#" + QualifiedName(level) + "-method", suffix := "")
    else
      st.(relativeToRoot := "../" + st.relativeToRoot, baseName := st.baseName + "/" + QualifiedName(level))
  }

  /** The loop state after the given levels. */
  function Walk(levels: seq<Level>): FilenameState {
    if levels == [] then Initial else Step(Walk(levels[..|levels| - 1]), levels[|levels| - 1])
  }

  /** `_getFilenameForApiItem(apiItem, useRel)`. */
  function Filename(item: ApiItem, useRel: bool): string {
    if item.kind == Model then "_index.md"
    else if item.kind == Package then SafeFilename(item.unscopedName) + "/_index.md"
    else
      var st := Walk(item.hierarchy);
      (if useRel then st.relativeToRoot else "") + st.baseName + st.suffix
  }

  /** `_getFilenameForApiItem`, with its loop over the hierarchy. */
  method GetFilenameForApiItem(item: ApiItem, useRel: bool) returns (r: string)
    ensures r == Filename(item, useRel)
  {
    if item.kind == Model {
      return "_index.md";
    }
    if item.kind == Package {
      var baseName := SafeFilename(item.unscopedName);
      return baseName + "/_index.md";
    }
    var baseName := "";
    var relativeToRoot := "";
    var suffix := ".md";
    var levels := item.hierarchy;
    for i := 0 to |levels|
      invariant Walk(levels[..i]) == FilenameState(baseName, relativeToRoot, suffix)
    {
      var level := levels[i];
      var qualifiedName := SafeFilename(level.displayName);
      if level.overloadIndex.Some? && level.overloadIndex.value > 1 {
        qualifiedName := qualifiedName + "_" + NatToString(level.overloadIndex.value - 1);
      }
      assert qualifiedName == QualifiedName(level);
      if level.kind == Model || level.kind == EntryPoint {
      } else if level.kind == Package {
        relativeToRoot := "../" + relativeToRoot;
        baseName := SafeFilename(level.unscopedName);
      } else if level.kind == Method {
        baseName := baseName + "/#" + qualifiedName + "-method";
        suffix := "";
      } else {
        relativeToRoot := "../" + relativeToRoot;
        baseName := baseName + "/" + qualifiedName;
      }
      assert levels[..i + 1][..i] == levels[..i];
    }
    assert levels[..|levels|] == levels;
    if useRel {
      return relativeToRoot + baseName + suffix;
    }
    return baseName + suffix;
  }

  /** A level that moves one directory down: anything but the model, an entry point or a method. */
  predicate Climbs(level: Level) {
    level.kind != Model && level.kind != EntryPoint && level.kind != Method
  }

  /** The number of levels that move one directory down. */
  function ClimbCount(levels: seq<Level>): nat {
    if levels == [] then 0
    else ClimbCount(levels[..|levels| - 1]) + (if Climbs(levels[|levels| - 1]) then 1 else 0)
  }

  /** Whether any level is a method. */
  predicate HasMethod(levels: seq<Level>) {
    exists k :: 0 <= k < |levels| && levels[k].kind == Method
  }

  /**
   * The relative prefix holds one `../` per level that is not the model, an entry point
   * or a method, and the `.md` suffix is dropped exactly when some level is a method.
   */
  lemma WalkShape(levels: seq<Level>)
    ensures Walk(levels).relativeToRoot == Repeat("../", ClimbCount(levels))
    ensures Walk(levels).suffix == if HasMethod(levels) then "" else ".md"
  {
    WalkRelative(levels);
    WalkSuffix(levels);
  }

  lemma {:induction false} WalkRelative(levels: seq<Level>)
    ensures Walk(levels).relativeToRoot == Repeat("../", ClimbCount(levels))
  {
    if levels != [] {
      WalkRelative(levels[..|levels| - 1]);
    }
  }

  lemma {:induction false} WalkSuffix(levels: seq<Level>)
    ensures Walk(levels).suffix == if HasMethod(levels) then "" else ".md"
  {
    if levels != [] {
      var init := levels[..|levels| - 1];
      WalkSuffix(init);
      var last := levels[|levels| - 1];
      if HasMethod(init) {
        var k :| 0 <= k < |init| && init[k].kind == Method;
        assert levels[k] == init[k];
      }
      if last.kind == Method {
        assert HasMethod(levels);
      } else if HasMethod(levels) {
        var k :| 0 <= k < |levels| && levels[k].kind == Method;
        assert k < |init| && init[k] == levels[k];
      }
    }
  }

  /** With `useRel`, the file name gains exactly the relative prefix; the model and packages ignore it. */
  lemma RelativeFilename(item: ApiItem)
    ensures item.kind == Model ==> Filename(item, true) == Filename(item, false) == "_index.md"
    ensures item.kind == Package ==>
      Filename(item, true) == Filename(item, false) == SafeFilename(item.unscopedName) + "/_index.md"
    ensures item.kind != Model && item.kind != Package ==>
      Filename(item, true) == Repeat("../", ClimbCount(item.hierarchy)) + Filename(item, false)
    ensures item.kind != Model && item.kind != Package ==>
      (EndsWith(Filename(item, false), ".md") || HasMethod(item.hierarchy))
  {
    if item.kind != Model && item.kind != Package {
      WalkShape(item.hierarchy);
      var st := Walk(item.hierarchy);
      assert Filename(item, false) == st.baseName + st.suffix;
    }
  }

  /** `_getLinkFilenameForApiItem`: the relative file name, `./`-prefixed unless it already climbs. */
  function LinkFilename(item: ApiItem): string {
    var fileName := Filename(item, true);
    if StartsWith(fileName, "../") then fileName else "./" + fileName
  }

  /** Every link file name starts with `../` or `./`. */
  lemma LinkFilenameIsRelative(item: ApiItem)
    ensures StartsWith(LinkFilename(item), "../") || StartsWith(LinkFilename(item), "./")
  {
  }

  /**
   * The model links to `./_index.md`. A package links to `./<safe name>/_index.md`, except
   * for the one safe name that makes the path climb by itself: `..` gives `../_index.md`.
   */
  lemma LinkFilenameOfRoots(item: ApiItem)
    ensures item.kind == Model ==> LinkFilename(item) == "./_index.md"
    ensures item.kind == Package ==>
      LinkFilename(item) ==
        if SafeFilename(item.unscopedName) == ".." then "../_index.md"
        else "./" + SafeFilename(item.unscopedName) + "/_index.md"
  {
    if item.kind == Model {
      assert Filename(item, true)[0] == '_';
    }
    if item.kind == Package {
      var s := SafeFilename(item.unscopedName);
      var f := s + "/_index.md";
      assert Filename(item, true) == f;
      SafeFilenameHasNoSeparator(item.unscopedName);
      if |s| >= 3 {
        assert f[2] == s[2] && s[2] != '/';
      } else if |s| == 2 {
        assert f[..3] == s + "/";
        if s == ".." {
          assert f == "../_index.md";
          assert StartsWith(f, "../");
        } else {
          assert f[..3][..2] == s && "../"[..2] == "..";
          assert !StartsWith(f, "../");
        }
      } else if |s| == 1 {
        assert f[1] == '/';
      } else {
        assert f[0] == '/';
      }
    }
  }

  /** Overloads of one name get distinct qualified names, and the first overload is unsuffixed. */
  lemma OverloadNamesDistinct(a: Level, b: Level)
    requires a.displayName == b.displayName
    requires a.overloadIndex.Some? && b.overloadIndex.Some?
    requires a.overloadIndex.value >= 1 && b.overloadIndex.value >= 1
    requires a.overloadIndex != b.overloadIndex
    ensures QualifiedName(a) != QualifiedName(b)
    ensures a.overloadIndex.value == 1 ==> QualifiedName(a) == SafeFilename(a.displayName)
  {
    var s := SafeFilename(a.displayName);
    var i, j := a.overloadIndex.value, b.overloadIndex.value;
    if i > 1 && j > 1 {
      var qa, qb := s + "_" + NatToString(i - 1), s + "_" + NatToString(j - 1);
      assert QualifiedName(a) == qa && QualifiedName(b) == qb;
      if qa == qb {
        assert qa[|s| + 1..] == NatToString(i - 1);
        assert qb[|s| + 1..] == NatToString(j - 1);
        NatToStringInjective(i - 1, j - 1);
      }
    } else {
      assert |QualifiedName(a)| != |QualifiedName(b)|;
    }
  }

  /** The suffix can collide with a name: `foo_1` as a first overload and `foo` as a second give the same name. */
  lemma OverloadSuffixCollision(k: Kind)
    ensures QualifiedName(Level(k, "foo_1", "foo_1", Some(1))) == QualifiedName(Level(k, "foo", "foo", Some(2)))
  {
    SafeFilenameOfSafe("foo_1");
    SafeFilenameOfSafe("foo");
    assert NatToString(1) == "1";
    assert OverloadSuffix(Some(1)) == "";
    assert OverloadSuffix(Some(2)) == "_1";
    assert "foo" + "_1" == "foo_1";
  }

  /** `_getUrlDestination`: the link target of an item's title cell. */
  function UrlDestination(item: ApiItem): string {
    match item.kind
    case Method => "#" + SafeFilename(item.displayName) + "-method"
    case MethodSignature => "#" + SafeFilename(item.displayName) + "-method"
    case Package => "./" + SafeFilename(item.unscopedName) + "/"
    case Property => "#" + SafeFilename(item.displayName) + "-property"
    case PropertySignature => "#" + SafeFilename(item.displayName) + "-property"
    case ConstructSignature => "#" + HeaderLink(GrafanaConciseSignature(item))
    case Constructor => "#" + HeaderLink(GrafanaConciseSignature(item))
    case TypeAlias => "./" + SafeFilename(item.displayName) + "/"
    case Enum => "./" + SafeFilename(item.displayName) + "/"
    case Variable => "./" + SafeFilename(item.displayName) + "/"
    case Function => "./" + SafeFilename(item.displayName) + "/"
    case Interface => "./" + SafeFilename(item.displayName) + "/"
    case Namespace => "./" + SafeFilename(item.displayName) + "/"
    case Class => "./" + SafeFilename(item.displayName) + "/"
    case _ => LinkFilename(item)
  }

  /** The kinds linked as anchors within the containing page. */
  predicate IsAnchorKind(k: Kind) {
    k in {Method, MethodSignature, Property, PropertySignature, Constructor, ConstructSignature}
  }

  /**
   * Members link to an anchor (`#...`) on their container's page; every other item links
   * to a relative path (`./...` or `../...`).
   */
  lemma UrlDestinationIsAnchorForMembers(item: ApiItem)
    ensures StartsWith(UrlDestination(item), "#") <==> IsAnchorKind(item.kind)
    ensures !IsAnchorKind(item.kind) ==>
      StartsWith(UrlDestination(item), "./") || StartsWith(UrlDestination(item), "../")
  {
    if IsAnchorKind(item.kind) {
      AnchorDestination(item);
    } else {
      RelativeDestination(item);
      assert UrlDestination(item)[0] == '.';
    }
  }

  /** A member's destination is an anchor. */
  lemma AnchorDestination(item: ApiItem)
    requires IsAnchorKind(item.kind)
    ensures StartsWith(UrlDestination(item), "#")
  {
    var u := UrlDestination(item);
    assert u == "#" + u[1..];
    assert u[..1] == "#";
  }

  /** Any other item's destination is a relative path. */
  lemma RelativeDestination(item: ApiItem)
    requires !IsAnchorKind(item.kind)
    ensures StartsWith(UrlDestination(item), "./") || StartsWith(UrlDestination(item), "../")
  {
    var u := UrlDestination(item);
    if item.kind in {Package, TypeAlias, Enum, Variable, Function, Interface, Namespace, Class} {
      assert u[..2] == "./";
    } else {
      LinkFilenameIsRelative(item);
    }
  }

  /**
   * A method's title-cell anchor agrees with the anchor its own file name ends in: when
   * the last hierarchy level is the method itself, in its first overload, the file name
   * ends with the URL destination.
   */
  lemma MethodAnchorMatchesFilename(item: ApiItem)
    requires item.kind == Method && |item.hierarchy| > 0
    requires var last := item.hierarchy[|item.hierarchy| - 1];
      last.kind == Method && last.displayName == item.displayName
      && (last.overloadIndex.None? || last.overloadIndex.value <= 1)
    ensures EndsWith(Filename(item, false), UrlDestination(item))
    ensures EndsWith(Filename(item, true), UrlDestination(item))
  {
    var levels := item.hierarchy;
    var st := Walk(levels[..|levels| - 1]);
    var tail := "#" + SafeFilename(item.displayName) + "-method";
    assert Walk(levels).baseName == st.baseName + "/" + tail;
    assert Walk(levels).suffix == "";
    assert Filename(item, false) == st.baseName + "/" + tail;
    assert Filename(item, true) == st.relativeToRoot + st.baseName + "/" + tail;
  }
  /**
   * The companion case: for a later overload (index k > 1) the file name ends in
   * `#<safe>_<k-1>-method`, so it does not end with the title cell's `#<safe>-method`
   * destination, with or without useRel.
   */
  lemma MethodOverloadAnchorMismatch(item: ApiItem)
    requires item.kind == Method && |item.hierarchy| > 0
    requires var last := item.hierarchy[|item.hierarchy| - 1];
      last.kind == Method && last.displayName == item.displayName
      && last.overloadIndex.Some? && last.overloadIndex.value > 1
    ensures var k := item.hierarchy[|item.hierarchy| - 1].overloadIndex.value;
      EndsWith(Filename(item, false), "#" + SafeFilename(item.displayName) + "_" + NatToString(k - 1) + "-method")
    ensures !EndsWith(Filename(item, false), UrlDestination(item))
    ensures !EndsWith(Filename(item, true), UrlDestination(item))
  {
    var levels := item.hierarchy;
    var k := levels[|levels| - 1].overloadIndex.value;
    var st := Walk(levels[..|levels| - 1]);
    var safe, n := SafeFilename(item.displayName), NatToString(k - 1);
    var tail := "#" + safe + "_" + n + "-method";
    assert Walk(levels).baseName == st.baseName + "/" + tail;
    assert Walk(levels).suffix == "";
    assert Filename(item, false) == (st.baseName + "/") + tail;
    assert Filename(item, true) == (st.relativeToRoot + st.baseName + "/") + tail;
    assert tail[|tail| - 7..] == "-method";
    SafeFilenameHasNoSeparator(item.displayName);
    OverloadTailMisses(st.baseName + "/", safe, n);
    OverloadTailMisses(st.relativeToRoot + st.baseName + "/", safe, n);
  }

  /** A tail `#<safe>_<digits>-method` never ends with `#<safe>-method`. */
  lemma OverloadTailMisses(pre: string, safe: string, n: string)
    requires '#' !in safe && n != []
    requires forall j :: 0 <= j < |n| ==> '0' <= n[j] <= '9'
    ensures !EndsWith(pre + ("#" + safe + "_" + n + "-method"), "#" + safe + "-method")
  {
    var tail := "#" + safe + "_" + n + "-method";
    var f := pre + tail;
    var u := "#" + safe + "-method";
    var q := |n| + 1;
    assert f[|f| - |u|] == tail[q];
    if q <= |safe| {
      assert tail[q] == safe[q - 1];
    } else if q == |safe| + 1 {
      assert tail[q] == '_';
    } else {
      assert tail[q] == n[q - |safe| - 2];
    }
    assert f[|f| - |u|..][0] != u[0];
  }
}
