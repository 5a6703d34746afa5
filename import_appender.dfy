/**
 * `ImportAppender` (documenters/grafana/ImportAppender.ts): an import snippet built from
 * the `.`-separated segments of the item's scoped name.
 */
module ImportAppender {
  import opened Wrappers
  import opened Text
  import opened Nodes
  import opened Api
  import opened Utilities

  /** `generateImport`: `import { <path> } from '<displayName>';`, both sanitised. */
  function GenerateImport(path: string, displayName: string): string {
    "import { " + ImportName(path) + " } from '" + ImportName(displayName) + "';"
  }

  /** `generateDestruct`: `const { <path> } = <displayName>;`, both sanitised. */
  function GenerateDestruct(path: string, displayName: string): string {
    "const { " + ImportName(path) + " } = " + ImportName(displayName) + ";"
  }

  /** The `map` step: the first segment is imported, each later one destructured from its predecessor. */
  function ImportLines(segments: seq<string>, displayName: string): (lines: seq<string>)
    ensures |lines| == |segments|
  {
    seq(|segments|, i requires 0 <= i < |segments| =>
      if i == 0 then GenerateImport(segments[0], displayName)
      else GenerateDestruct(segments[i], segments[i - 1]))
  }

  /** `importFromItem`: nothing without an associated package, the joined lines otherwise. */
  function ImportFromItem(item: ApiItem): Option<string> {
    if item.package.None? then None
    else Some(Join(ImportLines(Split(item.scopedName, '.'), item.displayName), "\n"))
  }

  /** The nodes `append` adds for an item. */
  function ImportNodes(item: ApiItem): seq<Node> {
    if !item.doc.Declared? then []
    else match ImportFromItem(item)
      case None => []
      case Some(code) => if code == "" then [] else [BoldText("Import"), FencedCode(code, "typescript")]
  }

  /** `append`. */
  method Append(output: DocSection, item: ApiItem)
    modifies output
    ensures output.nodes == old(output.nodes) + ImportNodes(item)
  {
    if !item.doc.Declared? {
      return;
    }
    var code := ImportFromItem(item);
    if code.None? || code.value == "" {
      return;
    }
    output.AppendNode(BoldText("Import"));
    output.AppendNode(FencedCode(code.value, "typescript"));
  }

  /** A sanitised name never holds a line break. */
  lemma ImportNameHasNoNewline(s: string)
    ensures '\n' !in ImportName(s)
  {
    ImportNameShape(s);
  }

  /** Gluing two strings without a line break gives none. */
  lemma NoNewlineConcat(a: string, b: string)
    requires '\n' !in a && '\n' !in b
    ensures '\n' !in a + b
  {
  }

  /** The import line holds no line break. */
  lemma GenerateImportHasNoNewline(path: string, displayName: string)
    ensures '\n' !in GenerateImport(path, displayName)
  {
    ImportNameHasNoNewline(path);
    ImportNameHasNoNewline(displayName);
    NoNewlineConcat("import { ", ImportName(path));
    NoNewlineConcat("import { " + ImportName(path), " } from '");
    NoNewlineConcat("import { " + ImportName(path) + " } from '", ImportName(displayName));
    NoNewlineConcat("import { " + ImportName(path) + " } from '" + ImportName(displayName), "';");
  }

  /** A destructuring line holds no line break. */
  lemma GenerateDestructHasNoNewline(path: string, displayName: string)
    ensures '\n' !in GenerateDestruct(path, displayName)
  {
    ImportNameHasNoNewline(path);
    ImportNameHasNoNewline(displayName);
    NoNewlineConcat("const { ", ImportName(path));
    NoNewlineConcat("const { " + ImportName(path), " } = ");
    NoNewlineConcat("const { " + ImportName(path) + " } = ", ImportName(displayName));
    NoNewlineConcat("const { " + ImportName(path) + " } = " + ImportName(displayName), ";");
  }

  /** No generated line holds a line break. */
  lemma ImportLinesHaveNoNewline(segments: seq<string>, displayName: string)
    ensures forall k :: 0 <= k < |segments| ==> '\n' !in ImportLines(segments, displayName)[k]
  {
    var lines := ImportLines(segments, displayName);
    forall k | 0 <= k < |segments| ensures '\n' !in lines[k] {
      if k == 0 {
        GenerateImportHasNoNewline(segments[0], displayName);
      } else {
        GenerateDestructHasNoNewline(segments[k], segments[k - 1]);
      }
    }
  }

  /**
   * With a package, the code has one line per `.`-separated segment of the scoped name:
   * line 0 imports the first segment from a module named after the item's own display
   * name, and line i > 0 destructures segment i from segment i - 1.
   */
  lemma ImportCodeLines(item: ApiItem)
    requires item.package.Some?
    ensures var segments := Split(item.scopedName, '.');
      var lines := Split(ImportFromItem(item).value, '\n');
      && |lines| == |segments|
      && lines[0] == "import { " + ImportName(segments[0]) + " } from '" + ImportName(item.displayName) + "';"
      && forall i :: 0 < i < |lines| ==>
           lines[i] == "const { " + ImportName(segments[i]) + " } = " + ImportName(segments[i - 1]) + ";"
  {
    var segments := Split(item.scopedName, '.');
    var lines := ImportLines(segments, item.displayName);
    ImportLinesHaveNoNewline(segments, item.displayName);
    JoinSplitsBack(lines, '\n');
  }

  /** A join is never shorter than its first part. */
  lemma JoinKeepsFirst(parts: seq<string>, sep: string)
    requires |parts| >= 1
    ensures |Join(parts, sep)| >= |parts[0]|
  {
  }

  /**
   * Non-declared items and items without a package leave the section unchanged;
   * otherwise exactly a bold `Import` paragraph and TypeScript code are appended.
   */
  lemma ImportNodesCases(item: ApiItem)
    ensures ImportNodes(item) != [] <==> item.doc.Declared? && item.package.Some?
    ensures ImportNodes(item) != [] ==>
      ImportNodes(item) == [BoldText("Import"), FencedCode(ImportFromItem(item).value, "typescript")]
  {
    if item.package.Some? {
      var lines := ImportLines(Split(item.scopedName, '.'), item.displayName);
      JoinKeepsFirst(lines, "\n");
      assert |lines[0]| > 0;
    }
  }
}
