/**
 * `GrafanaDocPageMeta` (nodes/grafana/GrafanaDocPageMeta.ts): the page header of the
 * flat layout. Its title and keyword rules are the same as the front matter's.
 */
module GrafanaDocPageMeta {
  import opened Nodes
  import opened Api
  import DocFrontMatter

  /** The constructor: title and keywords fixed from the item. */
  function Build(item: ApiItem): (node: Node)
    ensures node.PageMeta? && node.title == DocFrontMatter.Title(item) && node.keywords == DocFrontMatter.Keywords(item)
  {
    PageMeta(DocFrontMatter.Title(item), DocFrontMatter.Keywords(item))
  }

  /** The lines `writeTo` writes. */
  function Lines(title: string, keywords: seq<string>): seq<string> {
    [DocFrontMatter.Tag, "title = \"" + title + "\"", "keywords = [" + DocFrontMatter.KeywordList(keywords) + "]",
     "type = \"docs\"", DocFrontMatter.Tag]
  }

  /** `writeTo`: five `writeLine` calls; the standard-writer callback is not used. */
  method WriteTo(title: string, keywords: seq<string>, writer: Writer)
    modifies writer
    ensures writer.events == old(writer.events) + LineEvents(Lines(title, keywords))
  {
    var list := DocFrontMatter.KeywordList(keywords);
    writer.WriteLine(DocFrontMatter.Tag);
    writer.WriteLine("title = \"" + title + "\"");
    writer.WriteLine("keywords = [" + list + "]");
    writer.WriteLine("type = \"docs\"");
    writer.WriteLine(DocFrontMatter.Tag);
  }

  /** The page meta is exactly the five-line front matter of a page that is not a draft. */
  lemma SameAsFrontMatter(title: string, keywords: seq<string>)
    ensures Lines(title, keywords) == DocFrontMatter.Lines(title, keywords, false)
    ensures |Lines(title, keywords)| == 5
  {
  }
}
