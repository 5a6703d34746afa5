# Grafana/Hugo API documenter, modelled in Dafny

This project models the Grafana flavour of `api-documenter`. That tool turns an API model (the
items api-extractor reports: packages, classes, interfaces, methods and so on) into Markdown
pages for a Hugo documentation site. Two documenters share one set of building blocks.

- `HugoMarkdownDocumenter` writes a nested layout. Pages are `_index.md` files, links climb with
  `../`, and methods are anchors inside their class's page. Each page opens with a TOML front
  matter block.
- `GrafanaMarkdownDocumenter` writes a flat layout. Pages are `index.md` or `<segments>.md`
  files, and every link starts with `./`. Each page opens with a page-meta node and a page-title
  node. It builds its own heading and warning nodes, and these render themselves.

Both documenters compose a page as a `DocSection`, a sequence of tsdoc nodes, in fixed steps:
- **Appenders:** the bold-text, summary, signature, import, warning, heading and page-title
  appenders each decide from the item whether to append nodes, and which ones.
- **Remarks:** the remarks, examples and exceptions sections.
- **Tables:** the member tables of models, packages, namespaces, classes, interfaces and enums.
  A table and its heading appear only when the table has rows.
- **Parameters:** the parameter and return-type tables of functions and methods.

`GrafanaMarkdownEmitter` then renders the nodes. A node with its own `writeTo` renders itself;
every other node goes to the standard Markdown rendering. `{@link}` tags become Hugo `relref`
shortcodes.

Modelling choices:
- **API items:** an item is a value (`Api.ApiItem`). It carries the facts the library computes:
  hierarchy, scoped and unscoped names, release tag, excerpts, tsdoc comment and associated
  package.
- **Sections, writers and logs:** `DocSection`, the emitter's writer and the warning log are
  classes whose methods append to a sequence field.
- **Loops:** the source's loops become `for i := 0 to n` loops proved against a specification
  function: the Hugo and flat filename walks, the summary loop, the example loop and the throws
  loop, `PageCells.AppendSection` and `PageCells.AppendAndMergeSection`,
  `DocSection.AppendNodesInParagraph`, the parameter, container and enum row-building loops, and
  the class and interface member loops.
- **Layouts:** `PageCells.Layout` (Hugo | Flat) selects between the two documenters where they
  differ only in formatting.
- **Exceptions:** a thrown exception is an `Err`/`Fail` carrying the message.
- **Emission:** what the emitter writes is a sequence of `Emission` events: literal text, or a
  node handed to the standard rendering.

## Model

| member | source | states |
|---|---|---|
| Utilities.SafeFilenameShape | apps/api-documenter/src/utils/Utilities.ts:47-51 | the safe filename has the input's length, maps each character to itself lower-cased when allowed and to `_` otherwise, and contains only a–z, 0–9, `_`, `-`, `.` |
| Utilities.ReplaceBadByChar | apps/api-documenter/src/utils/Utilities.ts:11 | replacing bad characters by one character keeps length and replaces exactly the characters outside [A-Za-z0-9_.-] |
| Utilities.SafeFilenameOfSafe | apps/api-documenter/src/utils/Utilities.ts:47-51 | a name already made of allowed lower-case characters is its own safe filename |
| Utilities.SafeFilenameIdempotent | apps/api-documenter/src/utils/Utilities.ts:47-51 | sanitising a safe filename again changes nothing |
| Utilities.SafeFilenameHasNoSeparator | apps/api-documenter/src/utils/Utilities.ts:47-51 | a safe filename holds no `/`, `#` or space, so it is one path segment |
| Utilities.ImportNameShape | apps/api-documenter/src/utils/Utilities.ts:13-15 | the import name is never longer than the input, holds only allowed characters, and equals the input exactly when the input has no bad character |
| Utilities.ImportNameConcat | apps/api-documenter/src/utils/Utilities.ts:13-15 | deleting bad characters distributes over concatenation, so kept characters stay in order |
| Utilities.ReplaceBadConcat | apps/api-documenter/src/utils/Utilities.ts:11 | the bad-character replacement distributes over concatenation |
| Utilities.ImportNameIdempotent | apps/api-documenter/src/utils/Utilities.ts:13-15 | applying getImportName twice is applying it once |
| Utilities.ToLowerOfGood | apps/api-documenter/src/utils/Utilities.ts:30-32 | lower-casing a string of allowed characters gives only a–z, 0–9, `_`, `-`, `.` |
| Utilities.HeaderLinkChars | apps/api-documenter/src/utils/Utilities.ts:30-32 | a header link holds only a–z, 0–9, `_`, `-`, `.` |
| Utilities.HeaderLinkOfCall | apps/api-documenter/src/utils/Utilities.ts:30-32 | for `fn(args` with no `(` in `fn`, only that first `(` becomes `-`, and both sides are stripped and lower-cased |
| Utilities.ParameterNames | apps/api-documenter/src/utils/Utilities.ts:37-42 | lists each parameter's name, in order |
| Utilities.ConciseSignatureShape | apps/api-documenter/src/utils/Utilities.ts:37-42 | without a parameter list the signature is the display name; with one it is the display name, `(`, the names joined by `, `, then `)` |
| Utilities.GrafanaConciseSignatureIsConcise | apps/api-documenter/src/utils/Utilities.ts:17-28 | equals the concise signature, except that constructors first have bad characters stripped from their display name |
| Text.SplitJoinsBack | apps/api-documenter/src/documenters/grafana/ImportAppender.ts:42-50 | splitting at a character gives parts without it, and joining them with it restores the string |
| Text.JoinSplitsBack | apps/api-documenter/src/documenters/grafana/ImportAppender.ts:42-50 | joining at least one part, none holding the separator, and splitting again returns the parts |
| Text.CollapseShape | apps/api-documenter/src/markdown/GrafanaMarkdownEmitter.ts:48 | collapsing whitespace keeps the visible characters, never lengthens, keeps emptiness and keeps whether the text starts with whitespace |
| Text.VisibleOfDropped | apps/api-documenter/src/markdown/GrafanaMarkdownEmitter.ts:48 | dropping leading whitespace keeps the visible characters |
| Text.CollapsedCons | apps/api-documenter/src/markdown/GrafanaMarkdownEmitter.ts:48 | a collapsed text stays collapsed when a non-whitespace character is put in front |
| Text.CollapseIsCollapsed | apps/api-documenter/src/markdown/GrafanaMarkdownEmitter.ts:48 | after collapsing, every whitespace character is a single space not followed by whitespace |
| Text.CollapseOfCollapsed | apps/api-documenter/src/markdown/GrafanaMarkdownEmitter.ts:48 | collapsing an already collapsed text changes nothing |
| Text.CollapseIdempotent | apps/api-documenter/src/markdown/GrafanaMarkdownEmitter.ts:48 | collapsing twice is collapsing once |
| Text.TrimIsEmpty | apps/api-documenter/src/documenters/grafana/HugoMarkdownDocumenter.ts:673 | a trimmed text is empty exactly when the text is all whitespace |
| Text.ParseNatToString | apps/api-documenter/src/documenters/grafana/HugoMarkdownDocumenter.ts:209 | the decimal rendering of a number reads back as that number |
| Text.NatToStringInjective | apps/api-documenter/src/documenters/grafana/HugoMarkdownDocumenter.ts:849-856 | different numbers render as different decimal strings |
| Nodes.DocSection.constructor | apps/api-documenter/src/documenters/grafana/HugoMarkdownDocumenter.ts:104 | a new section holds no nodes |
| Nodes.DocSection.AppendNode | apps/api-documenter/src/documenters/grafana/BoldTextAppender.ts:14 | appends exactly the node and keeps the old nodes |
| Nodes.DocSection.AppendNodeInParagraph | apps/api-documenter/src/documenters/grafana/HugoMarkdownDocumenter.ts:782 | merges the node into a trailing paragraph, or else appends a new paragraph holding it |
| Nodes.DocSection.AppendNodesInParagraph | apps/api-documenter/src/documenters/grafana/HugoMarkdownDocumenter.ts:757 | merges the nodes, in order, into a trailing paragraph, or else into one new paragraph |
| Nodes.AppendedInParagraphStep | apps/api-documenter/src/documenters/grafana/HugoMarkdownDocumenter.ts:814 | merging nodes one at a time is the same as merging them all at once |
| Nodes.LineEvents | apps/api-documenter/src/nodes/grafana/DocFrontMatter.ts:31-38 | writing lines emits each line followed by a newline, in order |
| Nodes.Delegations | apps/api-documenter/src/markdown/GrafanaMarkdownEmitter.ts:18 | handing nodes to the standard rendering emits one event per node, in order |
| Nodes.Writer.constructor | apps/api-documenter/src/markdown/GrafanaMarkdownEmitter.ts:12 | a new writer has emitted nothing |
| Nodes.Writer.Write | apps/api-documenter/src/markdown/GrafanaMarkdownEmitter.ts:50-52 | appends exactly the text event |
| Nodes.Writer.WriteLine | apps/api-documenter/src/nodes/grafana/DocFrontMatter.ts:31 | appends exactly the text and a newline |
| Nodes.Writer.Delegate | apps/api-documenter/src/nodes/grafana/GrafanaDocHeading.ts:19-25 | appends exactly one hand-off of the node to the standard rendering |
| Nodes.Log.constructor | apps/api-documenter/src/markdown/GrafanaMarkdownEmitter.ts:54 | a new log holds no warnings |
| Nodes.Log.Warn | apps/api-documenter/src/markdown/GrafanaMarkdownEmitter.ts:54 | appends exactly the warning |
| BoldTextAppender.Append | apps/api-documenter/src/documenters/grafana/BoldTextAppender.ts:11-19 | appends exactly one bold-text node; the earlier nodes are unchanged |
| BoldTextAppender.BoldTextShape | apps/api-documenter/src/documenters/grafana/BoldTextAppender.ts:14-16 | the node is a paragraph holding one bold, non-italic span holding one plain text equal to the argument |
| BoldTextAppender.BoldTextInjective | apps/api-documenter/src/documenters/grafana/BoldTextAppender.ts:14-16 | different texts give different nodes |
| SummaryAppender.Append | apps/api-documenter/src/documenters/grafana/SummaryAppender.ts:5-17 | the loop appends exactly the summary nodes, in order, after the unchanged old nodes; the length grows by their count |
| SummaryAppender.SummaryNodesCases | apps/api-documenter/src/documenters/grafana/SummaryAppender.ts:6-16 | nothing for non-declared items or items without a comment; otherwise exactly the comment's summary nodes |
| SignatureAppender.Append | apps/api-documenter/src/documenters/grafana/SignatureAppender.ts:14-31 | appends exactly the signature nodes after the unchanged old nodes |
| SignatureAppender.SignatureNodesCases | apps/api-documenter/src/documenters/grafana/SignatureAppender.ts:15-30 | nodes are appended exactly for declared items with non-empty excerpt text: a bold `Signature` paragraph, then fenced `typescript` code |
| PageTitleAppender.Append | apps/api-documenter/src/documenters/grafana/PageTitleAppender.ts:12-24 | appends exactly the page-title nodes after the unchanged old nodes |
| PageTitleAppender.PageTitleCases | apps/api-documenter/src/documenters/grafana/PageTitleAppender.ts:15-51 | a title exists exactly for container kinds and then is one level-1 heading; the model's title is `API Reference`, a package's is its display name plus ` package` |
| PageTitleAppender.PageAndHeadingTitlesAgree | apps/api-documenter/src/documenters/grafana/PageTitleAppender.ts:30-48 | kinds with both a page title and a heading title get the same title; member kinds get no page title |
| HeadingAppender.Append | apps/api-documenter/src/documenters/grafana/HeadingAppender.ts:13-25 | passes exactly when a heading can be built, then appends exactly those nodes; on failure it leaves the section unchanged and reports the exception's message |
| HeadingAppender.HeadingTitleThrows | apps/api-documenter/src/documenters/grafana/HeadingAppender.ts:27-53 | the title throws exactly for kinds outside the switch, with `Unsupported API item kind: ` and the kind's name |
| HeadingAppender.HeadingTitleCases | apps/api-documenter/src/documenters/grafana/HeadingAppender.ts:30-49 | methods and properties use the display name, constructors the concise signature, and the other handled kinds the scoped name plus their kind word |
| HeadingAppender.ContainerHeadingsThrow | apps/api-documenter/src/documenters/grafana/HeadingAppender.ts:50-51 | for classes, interfaces, packages and the model the heading throws as written; the corrected rule appends nothing |
| HeadingAppender.CorrectedAgrees | apps/api-documenter/src/documenters/grafana/HeadingAppender.ts:27-53 | the corrected heading never throws, agrees with the original wherever that succeeds, and appends a heading exactly for a supported kind with a non-empty title |
| WarningAppender.Append | apps/api-documenter/src/documenters/grafana/WarningAppender.ts:18-32 | appends exactly the warning nodes after the unchanged old nodes |
| WarningAppender.WarningNodesCases | apps/api-documenter/src/documenters/grafana/WarningAppender.ts:5-48 | a note box is appended exactly for non-deprecated items tagged Alpha, Beta or None, and holds the unstable message; a deprecated item's warning is `''` |
| WarningAppender.UndocumentedNeverDeprecated | apps/api-documenter/src/documenters/grafana/WarningAppender.ts:50-63 | items without a tsdoc comment are never deprecated |
| ImportAppender.ImportLines | apps/api-documenter/src/documenters/grafana/ImportAppender.ts:42-50 | one line per scoped-name segment |
| ImportAppender.Append | apps/api-documenter/src/documenters/grafana/ImportAppender.ts:15-32 | appends exactly the import nodes after the unchanged old nodes |
| ImportAppender.ImportNodesCases | apps/api-documenter/src/documenters/grafana/ImportAppender.ts:15-40 | nodes are appended exactly for declared items with a package: a bold `Import` paragraph, then fenced `typescript` code |
| ImportAppender.ImportCodeLines | apps/api-documenter/src/documenters/grafana/ImportAppender.ts:42-63 | the code splits at newlines into one line per segment; line 0 imports segment 0 from the item's own sanitised display name, and line i destructures segment i from segment i-1 |
| ImportAppender.ImportLinesHaveNoNewline | apps/api-documenter/src/documenters/grafana/ImportAppender.ts:42-50 | no generated line contains a newline, so the joined code splits back into the lines |
| ImportAppender.GenerateImportHasNoNewline | apps/api-documenter/src/documenters/grafana/ImportAppender.ts:53-57 | an import line has no newline |
| ImportAppender.GenerateDestructHasNoNewline | apps/api-documenter/src/documenters/grafana/ImportAppender.ts:59-63 | a destructuring line has no newline |
| ImportAppender.ImportNameHasNoNewline | apps/api-documenter/src/documenters/grafana/ImportAppender.ts:54-55 | a sanitised import name has no newline |
| DocFrontMatter.Build | apps/api-documenter/src/nodes/grafana/DocFrontMatter.ts:17-22 | the node carries the item's title, its keywords and the draft flag |
| DocFrontMatter.Quoted | apps/api-documenter/src/nodes/grafana/DocFrontMatter.ts:29 | each keyword is wrapped in double quotes, in order |
| DocFrontMatter.WriteTo | apps/api-documenter/src/nodes/grafana/DocFrontMatter.ts:28-39 | writes exactly the front-matter lines, each followed by a newline |
| DocFrontMatter.LinesShape | apps/api-documenter/src/nodes/grafana/DocFrontMatter.ts:28-39 | 5 lines, or 6 with draft; the first and last are `+++`, then the title line and `type = "docs"`; a `draft = true` line appears exactly when draft is set |
| DocFrontMatter.KeywordsShape | apps/api-documenter/src/nodes/grafana/DocFrontMatter.ts:49-58 | keywords start with `grafana`, `documentation`, `sdk`; the package name is appended exactly when there is a package |
| DocFrontMatter.KeywordListSplits | apps/api-documenter/src/nodes/grafana/DocFrontMatter.ts:29-33 | for keywords without commas, the keyword list splits at `,` back into the quoted keywords, with no spaces added |
| GrafanaDocHeading.WriteTo | apps/api-documenter/src/nodes/grafana/GrafanaDocHeading.ts:19-25 | with the standard-writer callback it hands exactly one level-2 heading to it; without one it fails and writes nothing |
| GrafanaDocHeading.BuildAsAppender | apps/api-documenter/src/nodes/grafana/GrafanaDocHeading.ts:10-54 | building the node throws exactly where HeadingAppender throws; otherwise it renders what HeadingAppender appends |
| GrafanaDocPageMeta.Build | apps/api-documenter/src/nodes/grafana/GrafanaDocPageMeta.ts:12-49 | the node carries the front matter's title and keywords |
| GrafanaDocPageMeta.WriteTo | apps/api-documenter/src/nodes/grafana/GrafanaDocPageMeta.ts:22-30 | writes exactly the page-meta lines |
| GrafanaDocPageMeta.SameAsFrontMatter | apps/api-documenter/src/nodes/grafana/GrafanaDocPageMeta.ts:22-30 | the lines are exactly the non-draft front-matter lines: five of them |
| GrafanaDocPageTitle.Build | apps/api-documenter/src/nodes/grafana/GrafanaDocPageTitle.ts:9-56 | the node's title is PageTitleAppender's title for the item |
| GrafanaDocPageTitle.WriteTo | apps/api-documenter/src/nodes/grafana/GrafanaDocPageTitle.ts:18-28 | with no title it writes nothing; otherwise it hands one level-1 heading to the callback, failing without one |
| GrafanaDocPageTitle.RenderedAsAppender | apps/api-documenter/src/nodes/grafana/GrafanaDocPageTitle.ts:31-56 | renders exactly what PageTitleAppender appends: nothing for member kinds, and `API Reference` for the model |
| GrafanaDocWarning.Build | apps/api-documenter/src/nodes/grafana/GrafanaDocWarning.ts:15-18 | the warning is chosen once at construction by WarningAppender's deprecated-first rule |
| GrafanaDocWarning.WriteTo | apps/api-documenter/src/nodes/grafana/GrafanaDocWarning.ts:24-37 | an empty or absent warning writes nothing; otherwise it hands exactly one note box to the callback and never writes raw text |
| GrafanaDocWarning.RenderedAsAppender | apps/api-documenter/src/nodes/grafana/GrafanaDocWarning.ts:40-69 | renders exactly what WarningAppender appends; deprecated items render nothing |
| GrafanaMarkdownEmitter.Dispatch | apps/api-documenter/src/markdown/GrafanaMarkdownEmitter.ts:11-24 | passes exactly when the node's rendering succeeds, then emits it; otherwise it emits nothing |
| GrafanaMarkdownEmitter.WriteNode | apps/api-documenter/src/markdown/GrafanaMarkdownEmitter.ts:11-19 | the override as written passes no callback; it fails exactly where rendering without a callback fails |
| GrafanaMarkdownEmitter.WriteNodeCorrected | apps/api-documenter/src/markdown/GrafanaMarkdownEmitter.ts:11-19 | with the callback passed, every node renders |
| GrafanaMarkdownEmitter.OwnWriteToOnly | apps/api-documenter/src/markdown/GrafanaMarkdownEmitter.ts:14-18 | a node without writeTo goes to the standard rendering as one event; a node with writeTo is never handed there itself |
| GrafanaMarkdownEmitter.AsWrittenFailures | apps/api-documenter/src/markdown/GrafanaMarkdownEmitter.ts:15 | without a callback, rendering fails exactly for heading nodes and for warning or page-title nodes with something to show |
| GrafanaMarkdownEmitter.CorrectedAgrees | apps/api-documenter/src/markdown/GrafanaMarkdownEmitter.ts:15 | with the callback rendering never fails, and it matches the original wherever that succeeds |
| GrafanaMarkdownEmitter.WriteLinkTagWithCodeDestination | apps/api-documenter/src/markdown/GrafanaMarkdownEmitter.ts:27-65 | the writer receives exactly the link writes and the log exactly the link warnings |
| GrafanaMarkdownEmitter.LinkWritesShape | apps/api-documenter/src/markdown/GrafanaMarkdownEmitter.ts:38-52 | a link is written exactly when the reference resolves, the filename is non-empty and there is link text; the text is then `[`, the escaped whitespace-collapsed text, and the `relref` shortcode |
| GrafanaMarkdownEmitter.LinkTextChoice | apps/api-documenter/src/markdown/GrafanaMarkdownEmitter.ts:42-46 | a non-empty link text is used as is; an absent or empty one falls back to the scoped name |
| GrafanaMarkdownEmitter.LinkSilentCases | apps/api-documenter/src/markdown/GrafanaMarkdownEmitter.ts:38-64 | unresolved references and missing filenames write nothing; warnings come exactly for unresolved references that carry a message, or for an empty link text; a write and a warning never happen together |
| HugoNaming.GetFilenameForApiItem | apps/api-documenter/src/documenters/grafana/HugoMarkdownDocumenter.ts:831-881 | the hierarchy loop computes the filename walk's result |
| HugoNaming.WalkShape | apps/api-documenter/src/documenters/grafana/HugoMarkdownDocumenter.ts:847-875 | the relative prefix is one `../` per level other than Model, EntryPoint and Method; the `.md` suffix is cleared exactly when a method level occurs |
| HugoNaming.RelativeFilename | apps/api-documenter/src/documenters/grafana/HugoMarkdownDocumenter.ts:831-881 | the model is `_index.md` and a package `<safe name>/_index.md` whatever useRel is; otherwise useRel only prepends the `../` climb, and the name ends in `.md` unless a method level occurs |
| HugoNaming.LinkFilenameIsRelative | apps/api-documenter/src/documenters/grafana/HugoMarkdownDocumenter.ts:883-891 | every link filename starts with `../` or `./` |
| HugoNaming.LinkFilenameOfRoots | apps/api-documenter/src/documenters/grafana/HugoMarkdownDocumenter.ts:883-891 | the model links to `./_index.md` and a package to `./<safe name>/_index.md` (a package whose safe name is `..` to `../_index.md`) |
| HugoNaming.OverloadNamesDistinct | apps/api-documenter/src/documenters/grafana/HugoMarkdownDocumenter.ts:849-856 | different overloads of one name get different segment names, and the first overload is unsuffixed |
| HugoNaming.OverloadSuffixCollision | apps/api-documenter/src/documenters/grafana/HugoMarkdownDocumenter.ts:849-856 | a member named `foo_1` and the second overload of `foo` get the same segment name |
| HugoNaming.UrlDestinationIsAnchorForMembers | apps/api-documenter/src/documenters/grafana/HugoMarkdownDocumenter.ts:700-741 | a destination is an anchor exactly for method, property and constructor kinds; every other destination is a relative path |
| HugoNaming.AnchorDestination | apps/api-documenter/src/documenters/grafana/HugoMarkdownDocumenter.ts:700-726 | member kinds link to an anchor |
| HugoNaming.RelativeDestination | apps/api-documenter/src/documenters/grafana/HugoMarkdownDocumenter.ts:700-741 | non-member kinds link to a `./` or `../` path |
| HugoNaming.MethodAnchorMatchesFilename | apps/api-documenter/src/documenters/grafana/HugoMarkdownDocumenter.ts:700-741 | when the last hierarchy level is the method itself, in its first overload, the method's title-cell anchor is the anchor its own filename ends with, with or without useRel |
| HugoNaming.MethodOverloadAnchorMismatch | apps/api-documenter/src/documenters/grafana/HugoMarkdownDocumenter.ts:847-856 | for a later overload k > 1 the filename ends in `#<safe>_<k-1>-method`, so it never ends with the title cell's `#<safe>-method` destination, with or without useRel |
| FlatNaming.GetFilenameForApiItem | apps/api-documenter/src/documenters/GrafanaMarkdownDocumenter.ts:822-859 | the hierarchy loop computes the flat filename |
| FlatNaming.FilenameShape | apps/api-documenter/src/documenters/GrafanaMarkdownDocumenter.ts:822-863 | every filename ends in `.md`; the link is `./` plus the filename; the model is `index.md` and a package `<safe name>/index.md` |
| FlatNaming.WalkAsHugo | apps/api-documenter/src/documenters/GrafanaMarkdownDocumenter.ts:835-857 | without method levels, the flat walk builds the same base name as the Hugo walk |
| FlatNaming.SameFilenameAsHugo | apps/api-documenter/src/documenters/GrafanaMarkdownDocumenter.ts:822-859 | apart from the model, packages and method paths, both layouts name the file alike (without useRel) |
| FlatNaming.UrlDestinationAsHugo | apps/api-documenter/src/documenters/GrafanaMarkdownDocumenter.ts:698-732 | methods and properties link to the same anchors as in the Hugo layout; containers link to the same path without the trailing `/`; property signatures and constructors link to the link filename instead of an anchor |
| FlatNaming.FormatImportCases | apps/api-documenter/src/documenters/GrafanaMarkdownDocumenter.ts:870-878 | there is no import exactly when there is no package; a name without `.` gives one import line from the package's display name |
| FlatNaming.FormatImportIgnoresDeeperSegments | apps/api-documenter/src/documenters/GrafanaMarkdownDocumenter.ts:879-880 | `a.b.rest` imports exactly as `a.b` does: segments beyond the second are ignored |
| FlatNaming.FormatImportAfter | apps/api-documenter/src/documenters/GrafanaMarkdownDocumenter.ts:879-880 | `a.t` imports `a` and destructures the first segment of `t` from it |
| FlatNaming.ModuleStringsDiffer | apps/api-documenter/src/documenters/GrafanaMarkdownDocumenter.ts:870-881 | the flat import uses the package's display name as the module, while ImportAppender uses the item's own sanitised display name |
| PageCells.TitleCellCases | apps/api-documenter/src/documenters/grafana/HugoMarkdownDocumenter.ts:685-698 | a title cell is one paragraph; the layouts differ only in constructor link text and in container targets, where Hugo adds `/` |
| PageCells.MergeIntoEmpty | apps/api-documenter/src/documenters/GrafanaMarkdownDocumenter.ts:798-812 | merging into an empty section appends every node, except that a leading empty paragraph disappears |
| PageCells.MergeAfterParagraph | apps/api-documenter/src/documenters/GrafanaMarkdownDocumenter.ts:798-812 | after a trailing paragraph, a leading non-empty paragraph's children merge into it and the remaining nodes follow in order |
| PageCells.AppendSection | apps/api-documenter/src/documenters/grafana/HugoMarkdownDocumenter.ts:803-807 | appends exactly the nodes after the unchanged old nodes |
| PageCells.AppendAndMergeSection | apps/api-documenter/src/documenters/GrafanaMarkdownDocumenter.ts:798-812 | the first-node loop leaves the section exactly as merging the nodes specifies |
| PageCells.DescriptionCellCases | apps/api-documenter/src/documenters/grafana/HugoMarkdownDocumenter.ts:750-773 | non-beta items show their merged summary; a beta item's cell opens with a paragraph starting with the `(BETA)` marker, into which a leading summary paragraph merges |
| PageCells.BetaDescription | apps/api-documenter/src/documenters/grafana/HugoMarkdownDocumenter.ts:755-770 | the beta marker paragraph merges with a leading summary paragraph and precedes anything else |
| PageCells.ModifierAndTypeCells | apps/api-documenter/src/documenters/grafana/HugoMarkdownDocumenter.ts:775-801 | the modifiers cell is non-empty exactly for static items and is `static` code; the type cell is non-empty exactly for properties and holds their type |
| PageCells.CreateTitleCell | apps/api-documenter/src/documenters/grafana/HugoMarkdownDocumenter.ts:685-698 | builds the title cell the layout specifies |
| PageCells.CreateDescriptionCell | apps/api-documenter/src/documenters/grafana/HugoMarkdownDocumenter.ts:750-773 | builds the description cell |
| PageCells.CreateModifiersCell | apps/api-documenter/src/documenters/grafana/HugoMarkdownDocumenter.ts:775-787 | builds the modifiers cell |
| PageCells.CreatePropertyTypeCell | apps/api-documenter/src/documenters/grafana/HugoMarkdownDocumenter.ts:789-801 | builds the property type cell |
| PageCells.TableSection | apps/api-documenter/src/documenters/grafana/HugoMarkdownDocumenter.ts:358-390 | a table section is empty exactly when there are no rows; otherwise it is the heading and then the table |
| PageCells.WriteTableSection | apps/api-documenter/src/documenters/grafana/HugoMarkdownDocumenter.ts:358-390 | appends the heading and table only when there are rows |
| PageCells.TableSectionWellFormed | apps/api-documenter/src/documenters/grafana/HugoMarkdownDocumenter.ts:358-390 | rows with the header's arity give a well-formed table section |
| PageCells.BoldHeading | apps/api-documenter/src/documenters/grafana/HugoMarkdownDocumenter.ts:825-829 | a table heading is the bold text and is not a table |
| PageSections.TaggedBlocks | apps/api-documenter/src/documenters/grafana/HugoMarkdownDocumenter.ts:203-205 | keeps exactly the blocks with the tag |
| PageSections.ExampleHeadingsNumbered | apps/api-documenter/src/documenters/grafana/HugoMarkdownDocumenter.ts:207-216 | with one example the heading is `Example`; with several they are `Example <n>` and pairwise different |
| PageSections.ExamplesInOrder | apps/api-documenter/src/documenters/grafana/HugoMarkdownDocumenter.ts:207-216 | block k's heading and content follow those of the earlier blocks, in block order |
| PageSections.ExamplesPrefix | apps/api-documenter/src/documenters/grafana/HugoMarkdownDocumenter.ts:207-216 | the nodes of the first k blocks are a prefix of all example nodes |
| PageSections.WriteRemarksSection | apps/api-documenter/src/documenters/grafana/HugoMarkdownDocumenter.ts:191-219 | appends exactly the remarks and example nodes |
| PageSections.WriteExamples | apps/api-documenter/src/documenters/grafana/HugoMarkdownDocumenter.ts:207-216 | the numbered loop appends exactly the example nodes |
| PageSections.ThrowsCases | apps/api-documenter/src/documenters/grafana/HugoMarkdownDocumenter.ts:221-241 | the section appears exactly when the comment has a `@throws` block, and then opens with an `Exceptions` heading |
| PageSections.WriteThrowsSection | apps/api-documenter/src/documenters/grafana/HugoMarkdownDocumenter.ts:221-241 | appends exactly the exceptions nodes |
| PageSections.ParameterRows | apps/api-documenter/src/documenters/grafana/HugoMarkdownDocumenter.ts:633-654 | one row per parameter, in order |
| PageSections.ParameterNodesShape | apps/api-documenter/src/documenters/grafana/HugoMarkdownDocumenter.ts:625-683 | nothing without parameters and return type; with parameters the output opens with the `Parameters` heading and a well-formed table |
| PageSections.ReturnTypeCodeCases | apps/api-documenter/src/documenters/grafana/HugoMarkdownDocumenter.ts:673 | `(not declared)` is shown exactly for a blank return type or one that trims to those words; the shown text is never empty |
| PageSections.WriteParameterTables | apps/api-documenter/src/documenters/grafana/HugoMarkdownDocumenter.ts:625-683 | appends exactly the parameter and returns nodes |
| PageSections.BuildParameterRows | apps/api-documenter/src/documenters/grafana/HugoMarkdownDocumenter.ts:633-654 | the loop builds exactly the parameter rows |
| PageSections.WriteReturns | apps/api-documenter/src/documenters/grafana/HugoMarkdownDocumenter.ts:661-682 | appends exactly the returns nodes |
| PageTables.KindRows | apps/api-documenter/src/documenters/grafana/HugoMarkdownDocumenter.ts:314-356 | never more rows than members |
| PageTables.KindRowsCount | apps/api-documenter/src/documenters/grafana/HugoMarkdownDocumenter.ts:314-356 | a kind's rows are empty exactly when no member has that kind; every member of the kind has its summary row there; rows have two cells |
| PageTables.KindRowsEmpty | apps/api-documenter/src/documenters/grafana/HugoMarkdownDocumenter.ts:314-356 | a kind's rows are empty exactly when no member has the kind |
| PageTables.KindRowsListed | apps/api-documenter/src/documenters/grafana/HugoMarkdownDocumenter.ts:314-356 | every member of the kind gets its row |
| PageTables.KindRowsArity | apps/api-documenter/src/documenters/grafana/HugoMarkdownDocumenter.ts:314-356 | every row has two cells |
| PageTables.KindRowsStep | apps/api-documenter/src/documenters/grafana/HugoMarkdownDocumenter.ts:314-356 | one more member adds its row to its own kind's rows only |
| PageTables.WriteModelTable | apps/api-documenter/src/documenters/grafana/HugoMarkdownDocumenter.ts:246-269 | appends exactly the model's packages table section |
| PageTables.ModelTableShape | apps/api-documenter/src/documenters/grafana/HugoMarkdownDocumenter.ts:246-269 | the packages table is well formed and is left out exactly when the model has no packages |
| PageTables.BuildContainerRows | apps/api-documenter/src/documenters/grafana/HugoMarkdownDocumenter.ts:314-356 | the loop sorts each member into its kind's rows, in member order |
| PageTables.WritePackageOrNamespaceTables | apps/api-documenter/src/documenters/grafana/HugoMarkdownDocumenter.ts:274-391 | appends exactly the container tables |
| PageTables.WriteFirstSections | apps/api-documenter/src/documenters/grafana/HugoMarkdownDocumenter.ts:358-375 | appends the classes, enumerations, functions and interfaces tables, each only when it has rows |
| PageTables.WriteLastSections | apps/api-documenter/src/documenters/grafana/HugoMarkdownDocumenter.ts:377-390 | appends the namespaces, variables and type aliases tables, each only when it has rows |
| PageTables.FirstTablesShape | apps/api-documenter/src/documenters/grafana/HugoMarkdownDocumenter.ts:358-375 | the first four tables are well formed and all absent exactly when they have no rows |
| PageTables.LastTablesShape | apps/api-documenter/src/documenters/grafana/HugoMarkdownDocumenter.ts:377-390 | the last three tables are well formed and all absent exactly when they have no rows |
| PageTables.ContainerTablesShape | apps/api-documenter/src/documenters/grafana/HugoMarkdownDocumenter.ts:274-391 | container tables are well formed and absent exactly when no member has a listed kind |
| PageTables.EnumRows | apps/api-documenter/src/documenters/grafana/HugoMarkdownDocumenter.ts:506-540 | one row per enum member |
| PageTables.EnumRowsShape | apps/api-documenter/src/documenters/grafana/HugoMarkdownDocumenter.ts:506-540 | row k belongs to member k and has three cells |
| PageTables.EnumTableShape | apps/api-documenter/src/documenters/grafana/HugoMarkdownDocumenter.ts:506-540 | the enum table is absent exactly for an enum without members; otherwise it has one row per member and is well formed |
| PageTables.WriteEnumTables | apps/api-documenter/src/documenters/grafana/HugoMarkdownDocumenter.ts:506-540 | appends exactly the enum table section |
| PageComposer.WriteHugoHead | apps/api-documenter/src/documenters/grafana/HugoMarkdownDocumenter.ts:127-134 | runs the appenders in order and reports the heading's exception; on success it appends exactly the Hugo head |
| PageComposer.WriteFlatSummary | apps/api-documenter/src/documenters/GrafanaMarkdownDocumenter.ts:107-113 | appends exactly the item's summary |
| PageComposer.WriteFlatImport | apps/api-documenter/src/documenters/GrafanaMarkdownDocumenter.ts:125-134 | appends exactly the flat import nodes |
| PageComposer.WriteFlatDeclared | apps/api-documenter/src/documenters/GrafanaMarkdownDocumenter.ts:116-134 | appends the signature and import nodes of a declared item |
| PageComposer.WriteFlatHead | apps/api-documenter/src/documenters/GrafanaMarkdownDocumenter.ts:104-134 | appends the warning node, heading node, summary and signature; reports the heading node's exception |
| PageComposer.FlatImportCases | apps/api-documenter/src/documenters/GrafanaMarkdownDocumenter.ts:125-134 | the import block appears exactly when appendImport is set on a declared item with a package; with the default false it never appears |
| PageComposer.ContentSplits | apps/api-documenter/src/documenters/grafana/HugoMarkdownDocumenter.ts:126-189 | content succeeds exactly when head and tables succeed; it is the head, then remarks and tables (remarks first for containers), and otherwise reports the first exception |
| PageComposer.WriteApiItemContent | apps/api-documenter/src/documenters/grafana/HugoMarkdownDocumenter.ts:126-189 | appends exactly the content, or reports its exception |
| PageComposer.MemberTablesCases | apps/api-documenter/src/documenters/grafana/HugoMarkdownDocumenter.ts:158-183 | callable kinds get parameter tables, property-like kinds nothing, and any other kind throws `Unsupported API item kind` |
| PageComposer.WriteTables | apps/api-documenter/src/documenters/grafana/HugoMarkdownDocumenter.ts:148-184 | appends exactly the kind's tables, or reports the unsupported kind |
| PageComposer.MethodTurn | apps/api-documenter/src/documenters/grafana/HugoMarkdownDocumenter.ts:427-450 | a constructor or method row goes to its own table, with its content to the matching section |
| PageComposer.ClassEventTurn | apps/api-documenter/src/documenters/grafana/HugoMarkdownDocumenter.ts:451-474 | an event property goes to the events table |
| PageComposer.ClassPropertyTurn | apps/api-documenter/src/documenters/grafana/HugoMarkdownDocumenter.ts:451-474 | any other property goes to the properties table |
| PageComposer.WriteClassMethodMember | apps/api-documenter/src/documenters/grafana/HugoMarkdownDocumenter.ts:427-450 | one loop turn for a constructor or method |
| PageComposer.WriteClassPropertyMember | apps/api-documenter/src/documenters/grafana/HugoMarkdownDocumenter.ts:451-474 | one loop turn for a property |
| PageComposer.WriteClassMember | apps/api-documenter/src/documenters/grafana/HugoMarkdownDocumenter.ts:425-476 | one loop turn: exactly the fold step for the member |
| PageComposer.WriteClassTables | apps/api-documenter/src/documenters/grafana/HugoMarkdownDocumenter.ts:396-501 | the member loop produces exactly the class tables and sections |
| PageComposer.WriteClassTableNodes | apps/api-documenter/src/documenters/grafana/HugoMarkdownDocumenter.ts:478-496 | appends the events, constructors, properties and methods tables, each only when it has rows |
| PageComposer.WriteClassOutput | apps/api-documenter/src/documenters/grafana/HugoMarkdownDocumenter.ts:478-500 | appends the tables, then the member sections |
| PageComposer.ClassFoldErrPersists | apps/api-documenter/src/documenters/grafana/HugoMarkdownDocumenter.ts:425-476 | once a member turn throws, the rest of the loop keeps that exception |
| PageComposer.ClassFoldNext | apps/api-documenter/src/documenters/grafana/HugoMarkdownDocumenter.ts:425-476 | a listed member always has content, and the fold adds exactly its step |
| PageComposer.ClassFoldArities | apps/api-documenter/src/documenters/grafana/HugoMarkdownDocumenter.ts:425-476 | the loop never throws, and every row has its header's arity |
| PageComposer.ClassFoldRows | apps/api-documenter/src/documenters/grafana/HugoMarkdownDocumenter.ts:425-476 | the constructors, methods and property tables are empty exactly when no member has that kind |
| PageComposer.ClassTableNodesShape | apps/api-documenter/src/documenters/grafana/HugoMarkdownDocumenter.ts:478-496 | the class tables are well formed and all absent exactly when every table is empty |
| PageComposer.NoneClassListed | apps/api-documenter/src/documenters/grafana/HugoMarkdownDocumenter.ts:425-476 | no member is listed exactly when there is no constructor, method or property |
| PageComposer.ClassTablesShape | apps/api-documenter/src/documenters/grafana/HugoMarkdownDocumenter.ts:396-501 | class tables never throw; they are well formed and absent exactly when no member is a constructor, method or property |
| PageComposer.InterfaceMethodTurn | apps/api-documenter/src/documenters/grafana/HugoMarkdownDocumenter.ts:566-577 | a construct or method signature goes to the methods table |
| PageComposer.InterfaceEventTurn | apps/api-documenter/src/documenters/grafana/HugoMarkdownDocumenter.ts:578-599 | an event property signature goes to the events table |
| PageComposer.InterfacePropertyTurn | apps/api-documenter/src/documenters/grafana/HugoMarkdownDocumenter.ts:578-599 | any other property signature goes to the properties table |
| PageComposer.WriteInterfaceMethodMember | apps/api-documenter/src/documenters/grafana/HugoMarkdownDocumenter.ts:566-577 | one loop turn for a construct or method signature |
| PageComposer.WriteInterfacePropertyMember | apps/api-documenter/src/documenters/grafana/HugoMarkdownDocumenter.ts:578-599 | one loop turn for a property signature |
| PageComposer.WriteInterfaceMember | apps/api-documenter/src/documenters/grafana/HugoMarkdownDocumenter.ts:564-601 | one loop turn: exactly the fold step for the member |
| PageComposer.WriteInterfaceTables | apps/api-documenter/src/documenters/grafana/HugoMarkdownDocumenter.ts:545-620 | the member loop produces exactly the interface tables and sections |
| PageComposer.WriteInterfaceTableNodes | apps/api-documenter/src/documenters/grafana/HugoMarkdownDocumenter.ts:603-616 | appends the events, properties and methods tables, each only when it has rows |
| PageComposer.WriteInterfaceOutput | apps/api-documenter/src/documenters/grafana/HugoMarkdownDocumenter.ts:603-619 | appends the tables, then the member sections |
| PageComposer.InterfaceFoldErrPersists | apps/api-documenter/src/documenters/grafana/HugoMarkdownDocumenter.ts:564-601 | once a member turn throws, the rest of the loop keeps that exception |
| PageComposer.InterfaceFoldNext | apps/api-documenter/src/documenters/grafana/HugoMarkdownDocumenter.ts:564-601 | a listed member always has content, and the fold adds exactly its step |
| PageComposer.InterfaceFoldArities | apps/api-documenter/src/documenters/grafana/HugoMarkdownDocumenter.ts:564-601 | the loop never throws, and every row has its header's arity |
| PageComposer.InterfaceFoldRows | apps/api-documenter/src/documenters/grafana/HugoMarkdownDocumenter.ts:564-601 | the methods table is empty exactly when there is no construct or method signature, and the property tables exactly when there is no property signature |
| PageComposer.InterfaceTableNodesShape | apps/api-documenter/src/documenters/grafana/HugoMarkdownDocumenter.ts:603-616 | the interface tables are well formed and absent exactly when every table is empty |
| PageComposer.NoneInterfaceListed | apps/api-documenter/src/documenters/grafana/HugoMarkdownDocumenter.ts:564-601 | no member is listed exactly when there is no construct, method or property signature |
| PageComposer.InterfaceTablesShape | apps/api-documenter/src/documenters/grafana/HugoMarkdownDocumenter.ts:545-620 | interface tables never throw; they are well formed and absent exactly when no member is a construct, method or property signature |
| PageComposer.WriteHugoPage | apps/api-documenter/src/documenters/grafana/HugoMarkdownDocumenter.ts:100-124 | builds the front matter, page title and content (with the import block) into the page for the item's file |
| PageComposer.WriteFlatPage | apps/api-documenter/src/documenters/GrafanaMarkdownDocumenter.ts:77-100 | builds the page meta, page title and content (without the import block) into the page for the item's file |
| PageComposer.MemberContentOk | apps/api-documenter/src/documenters/grafana/HugoMarkdownDocumenter.ts:425-476 | the members a class or interface lists always have content |
| PageComposer.ContentOkIff | apps/api-documenter/src/documenters/grafana/HugoMarkdownDocumenter.ts:126-189 | as written, content throws exactly for kinds without a heading title; with the corrected heading, exactly for kinds the table switch does not handle; the message names the kind |
| PageComposer.AsWrittenContainersFail | apps/api-documenter/src/documenters/grafana/HugoMarkdownDocumenter.ts:128 | as written, class, interface, package and model pages throw `Unsupported API item kind` in both layouts |
| PageComposer.CorrectedPagesOk | apps/api-documenter/src/documenters/GrafanaMarkdownDocumenter.ts:105 | with the corrected heading, a page is composed exactly for the kinds the table switch handles |
| PageComposer.RulesAgree | apps/api-documenter/src/documenters/grafana/HugoMarkdownDocumenter.ts:126-189 | wherever the code as written composes content, the corrected heading composes the same content |
| PageComposer.RemarksPlacement | apps/api-documenter/src/documenters/grafana/HugoMarkdownDocumenter.ts:136-188 | content opens with the head; remarks follow it directly for classes, interfaces, namespaces and packages, and close the content for other kinds |
| PageEmission.EmitAllErr | apps/api-documenter/src/markdown/GrafanaMarkdownEmitter.ts:11-19 | one node that fails to render makes the whole page fail |
| PageEmission.EmitAllCorrected | apps/api-documenter/src/markdown/GrafanaMarkdownEmitter.ts:11-19 | with the callback a page always renders, and it matches the original wherever that renders |
| PageEmission.EmitAllConcat | apps/api-documenter/src/markdown/GrafanaMarkdownEmitter.ts:11-19 | rendering two runs of nodes writes the first run's output, then the second's |
| PageEmission.EmitPlain | apps/api-documenter/src/markdown/GrafanaMarkdownEmitter.ts:18 | nodes without writeTo are each handed to the standard rendering, in order |
| PageEmission.EmitOne | apps/api-documenter/src/markdown/GrafanaMarkdownEmitter.ts:11-19 | a one-node run renders as that node |
| PageEmission.FlatHeadOpening | apps/api-documenter/src/documenters/GrafanaMarkdownDocumenter.ts:104-105 | for a kind with a heading title the flat head opens with the warning node, then the heading node |
| PageEmission.FlatPageOpening | apps/api-documenter/src/documenters/GrafanaMarkdownDocumenter.ts:77-100 | a flat page is the page meta, the page title, then the head |
| PageEmission.FlatPagesFailToEmit | apps/api-documenter/src/markdown/GrafanaMarkdownEmitter.ts:15 | every composed flat page fails to render without the callback, because of its heading node |
| PageEmission.FlatHeadPieces | apps/api-documenter/src/documenters/GrafanaMarkdownDocumenter.ts:104-134 | a declared item's flat head is the warning node, the heading node, the summary and the signature |
| PageEmission.HugoHeadPieces | apps/api-documenter/src/documenters/grafana/HugoMarkdownDocumenter.ts:127-134 | the Hugo head is the warning box, the heading, the summary and the signature |
| PageEmission.OpeningEmission | apps/api-documenter/src/nodes/grafana/GrafanaDocWarning.ts:24-37 | with the callback, the warning and heading nodes write what the appenders' nodes would |
| PageEmission.HeadsAgree | apps/api-documenter/src/documenters/GrafanaMarkdownDocumenter.ts:102-134 | with the callback, a declared item's flat head renders exactly as the standard rendering of the Hugo head (imports left out of both) |

## Left out

- **I/O:** file writing, deleting the old output folder, `path.join`, CRLF conversion and
  console logging of progress are left out. A page is its filename plus its node sequence, and
  warnings are entries appended to a log.
- **Child pages:** the recursive `_writeApiItemPage` calls inside the table loops write child
  pages. The model builds the rows, tables and sections of the page at hand but does not write
  those children. The member sections of classes and interfaces hold each member's content, as
  the source appends it.
- **Standard rendering:** the base Markdown emitter's rendering of standard nodes (tables, code,
  emphasis) is not shown. A standard node's output is the event `Delegated(node)`, and the
  standard writer a node's `writeTo` calls is that same hand-off.
- **Library calls as inputs:** `getEscapedText` is a function parameter, and
  `resolveDeclarationReference` is a parameter result (resolved item or error message). The
  filename callback `onGetFilenameForApiItem` is a function parameter.
- **Library facts as fields:** `getHierarchy`, `getScopedNameWithinPackage`,
  `PackageName.getUnscopedName`, the excerpts and the tsdoc comment are fields of `ApiItem`.
  A package's members are taken as the members of its first entry point.
- **tsdoc section behaviour:** the tsdoc source is not part of this model.
  `DocSection.appendNodeInParagraph` and `appendNodesInParagraph` are modelled from their
  documented behaviour: merge into a trailing paragraph, or else start a new one.
- **Heading level:** `DocHeading`'s default level is not part of this model. A heading without an
  explicit level has level `None`.
- **Parameter lists:** an item without a parameter list is treated as having no parameters.
- **Lower-casing:** the lower-casing inside `getSafeFilenameForName` and `getHeaderLinkForName`
  is ASCII only. The names it applies to have already been stripped to ASCII.
- Utilities.SafeFilename, Utilities.HeaderLink, Utilities.SafeFilenameShape,
  Utilities.HeaderLinkChars and the `Text` string functions: a character is a Unicode scalar
  value, not a UTF-16 code unit. JavaScript's regular expressions without the `u` flag see an
  astral character as two code units, so for "a😀" the source's safe filename is "a__" while
  the model's is "a_"; lengths and replacements differ for such names. The model's
  lower-casing is also locale-independent, whereas `toLocaleLowerCase` in
  `getHeaderLinkForName` (Utilities.ts:31) maps "I" to dotless "ı" under a Turkish or Azeri
  locale, which lies outside the character set `HeaderLinkChars` proves.
- **Command line:** choosing a documenter from command-line flags is left out; each documenter
  is modelled directly.

## Findings

| source | as written | input that shows it | evidently intended | confidence | as-written member | corrected member |
|---|---|---|---|---|---|---|
| apps/api-documenter/src/documenters/grafana/HeadingAppender.ts:27-53 | `_titleFromItem` throws `Unsupported API item kind` for Class, Interface, Package and Model. Both documenters call it for every page: `HugoMarkdownDocumenter.ts:128` and, through GrafanaDocHeading, `GrafanaMarkdownDocumenter.ts:105`. | the model itself, the first page either documenter writes; likewise any class, interface or package | container pages get no member heading (their page title already names them) and are composed normally | high, not executed | PageComposer.AsWrittenContainersFail, HeadingAppender.ContainerHeadingsThrow | PageComposer.CorrectedPagesOk, PageComposer.RulesAgree, HeadingAppender.CorrectedAgrees |
| apps/api-documenter/src/markdown/GrafanaMarkdownEmitter.ts:15 | `writeNode` calls `docNode.writeTo(writer)` without the standard-writer callback, which GrafanaDocHeading, GrafanaDocWarning and GrafanaDocPageTitle call to render their nodes. The code type-checks only in a transpile-only build: GrafanaDocNode.ts:10 declares `writeTo(writer)` with no callback, and GrafanaDocNode.ts exports no `StandardWriter`, which GrafanaDocHeading.ts:1 imports | any flat page, for example a function's page: its heading node calls the missing callback | the override passes a callback that renders the node through the standard writer | high, not executed | PageEmission.FlatPagesFailToEmit, GrafanaMarkdownEmitter.AsWrittenFailures | GrafanaMarkdownEmitter.WriteNodeCorrected, PageEmission.EmitAllCorrected |
