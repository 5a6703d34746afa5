/** `DocFrontMatter` (nodes/grafana/DocFrontMatter.ts): the Hugo front matter of a page. */
module DocFrontMatter {
  import opened Wrappers
  import opened Text
  import opened Nodes
  import opened Api

  /** The delimiter line. */
  const Tag: string := "+++"

  /** `titleFromItem`: the model is `API Reference`, every other item its display name. */
  function Title(item: ApiItem): string {
    if item.kind == Model then "API Reference" else item.displayName
  }

  /** `keywordsFromItem`: three fixed keywords, then the associated package's name if there is one. */
  function Keywords(item: ApiItem): seq<string> {
    var keywords := ["grafana", "documentation", "sdk"];
    if item.package.Some? then keywords + [item.package.value.name] else keywords
  }

  /** The constructor: title and keywords are fixed when the node is built. */
  function Build(item: ApiItem, draft: bool): (node: Node)
    ensures node.FrontMatter? && node.title == Title(item) && node.keywords == Keywords(item) && node.draft == draft
  {
    FrontMatter(Title(item), Keywords(item), draft)
  }

  /** Each keyword in double quotes. */
  function Quoted(keywords: seq<string>): (r: seq<string>)
    ensures |r| == |keywords| && forall i :: 0 <= i < |keywords| ==> r[i] == "\"" + keywords[i] + "\""
  {
    seq(|keywords|, i requires 0 <= i < |keywords| => "\"" + keywords[i] + "\"")
  }

  /** The text between the brackets of the keywords line. */
  function KeywordList(keywords: seq<string>): string {
    Join(Quoted(keywords), ",")
  }

  /** The lines `writeTo` writes. */
  function Lines(title: string, keywords: seq<string>, draft: bool): seq<string> {
    [Tag, "title = \"" + title + "\"", "keywords = [" + KeywordList(keywords) + "]", "type = \"docs\""]
    + (if draft then ["draft = true"] else [])
    + [Tag]
  }

  /** `writeTo`: one `writeLine` per line. */
  method WriteTo(title: string, keywords: seq<string>, draft: bool, writer: Writer)
    modifies writer
    ensures writer.events == old(writer.events) + LineEvents(Lines(title, keywords, draft))
  {
    var list := KeywordList(keywords);
    writer.WriteLine(Tag);
    writer.WriteLine("title = \"" + title + "\"");
    writer.WriteLine("keywords = [" + list + "]");
    writer.WriteLine("type = \"docs\"");
    if draft {
      writer.WriteLine("draft = true");
    }
    writer.WriteLine(Tag);
  }

  /**
   * The front matter is five lines, or six with a draft line, which appears exactly when
   * the node is a draft; it opens and closes with `+++` and declares type `docs`.
   */
  lemma LinesShape(title: string, keywords: seq<string>, draft: bool)
    ensures var lines := Lines(title, keywords, draft);
      && |lines| == (if draft then 6 else 5)
      && lines[0] == Tag && lines[|lines| - 1] == Tag
      && lines[1] == "title = \"" + title + "\""
      && lines[3] == "type = \"docs\""
      && ("draft = true" in lines <==> draft)
  {
    var lines := Lines(title, keywords, draft);
    var kwLine := "keywords = [" + KeywordList(keywords) + "]";
    assert lines[1][0] == 't' && lines[2] == kwLine && kwLine[0] == 'k';
    assert "draft = true"[0] == 'd';
  }

  /** The keywords are the three fixed ones, followed by the package name exactly when a package is associated. */
  lemma KeywordsShape(item: ApiItem)
    ensures Keywords(item)[..3] == ["grafana", "documentation", "sdk"]
    ensures |Keywords(item)| == (if item.package.Some? then 4 else 3)
    ensures item.package.Some? ==> Keywords(item)[3] == item.package.value.name
  {
  }

  /**
   * When no keyword holds a comma, splitting the bracketed list at commas gives back each
   * keyword in quotes: the list is the quoted keywords joined by `,` with no spaces.
   */
  lemma KeywordListSplits(keywords: seq<string>)
    requires |keywords| >= 1
    requires forall i :: 0 <= i < |keywords| ==> ',' !in keywords[i]
    ensures Split(KeywordList(keywords), ',') == Quoted(keywords)
  {
    var q := Quoted(keywords);
    forall i | 0 <= i < |q| ensures ',' !in q[i] {
      assert q[i] == "\"" + keywords[i] + "\"";
    }
    JoinSplitsBack(q, ',');
  }
}
