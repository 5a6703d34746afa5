/**
 * Emitting a composed page (`this._markdownEmitter.emit(stringBuilder, output, ...)` in both
 * documenters): the emitter writes the page's nodes in order, and the first node whose
 * rendering throws ends the emission with that exception.
 */
module PageEmission {
  import opened Wrappers
  import opened Nodes
  import opened Api
  import opened HeadingAppender
  import GrafanaMarkdownEmitter
  import GrafanaDocHeading
  import GrafanaDocWarning
  import GrafanaDocPageMeta
  import GrafanaDocPageTitle
  import opened PageSections
  import SummaryAppender
  import SignatureAppender
  import WarningAppender
  import opened PageCells
  import opened PageComposer

  /** What emitting `nodes` writes, or the exception of the first node that throws. */
  function EmitAll(nodes: seq<Node>, callback: bool): Result<seq<Emission>> {
    if nodes == [] then Ok([])
    else
      match GrafanaMarkdownEmitter.NodeEmission(nodes[0], callback)
      case Err(e) => Err(e)
      case Ok(first) =>
        match EmitAll(nodes[1..], callback)
        case Err(e) => Err(e)
        case Ok(rest) => Ok(first + rest)
  }

  /** One node that throws makes the whole emission throw. */
  lemma {:induction false} EmitAllErr(nodes: seq<Node>, callback: bool, i: nat)
    requires i < |nodes|
    requires GrafanaMarkdownEmitter.NodeEmission(nodes[i], callback).Err?
    ensures EmitAll(nodes, callback).Err?
  {
    if i > 0 {
      EmitAllErr(nodes[1..], callback, i - 1);
    }
  }

  /**
   * With the standard-writer callback every page emits, and wherever the emission as
   * written succeeds it writes the same.
   */
  lemma {:induction false} EmitAllCorrected(nodes: seq<Node>)
    ensures EmitAll(nodes, true).Ok?
    ensures EmitAll(nodes, false).Ok? ==> EmitAll(nodes, false) == EmitAll(nodes, true)
  {
    if nodes != [] {
      GrafanaMarkdownEmitter.CorrectedAgrees(nodes[0]);
      EmitAllCorrected(nodes[1..]);
    }
  }

  /** Emitting two runs of nodes one after the other is emitting their concatenation. */
  lemma {:induction false} EmitAllConcat(a: seq<Node>, b: seq<Node>, callback: bool)
    requires EmitAll(a, callback).Ok? && EmitAll(b, callback).Ok?
    ensures EmitAll(a + b, callback) == Ok(EmitAll(a, callback).value + EmitAll(b, callback).value)
  {
    if a == [] {
      assert a + b == b;
      assert EmitAll(a, callback).value + EmitAll(b, callback).value == EmitAll(b, callback).value;
    } else {
      EmitAllFirst(a, callback);
      EmitAllConcat(a[1..], b, callback);
      assert (a + b)[0] == a[0];
      assert (a + b)[1..] == a[1..] + b;
      EmitAllFirst(a + b, callback);
      var first := GrafanaMarkdownEmitter.NodeEmission(a[0], callback).value;
      var restA := EmitAll(a[1..], callback).value;
      var restB := EmitAll(b, callback).value;
      assert first + (restA + restB) == (first + restA) + restB;
    }
  }

  /** A non-empty run emits when its first node and the rest do, and writes the first node's events first. */
  lemma EmitAllFirst(nodes: seq<Node>, callback: bool)
    requires nodes != []
    ensures EmitAll(nodes, callback).Ok? <==>
      GrafanaMarkdownEmitter.NodeEmission(nodes[0], callback).Ok? && EmitAll(nodes[1..], callback).Ok?
    ensures EmitAll(nodes, callback).Ok? ==>
      EmitAll(nodes, callback).value ==
        GrafanaMarkdownEmitter.NodeEmission(nodes[0], callback).value + EmitAll(nodes[1..], callback).value
  {
  }

  /** Nodes without a `writeTo` of their own are all handed to the standard rendering. */
  lemma {:induction false} EmitPlain(nodes: seq<Node>, callback: bool)
    requires forall i :: 0 <= i < |nodes| ==> !nodes[i].HasWriteTo()
    ensures EmitAll(nodes, callback) == Ok(Delegations(nodes))
  {
    if nodes != [] {
      GrafanaMarkdownEmitter.OwnWriteToOnly(nodes[0], callback);
      EmitPlain(nodes[1..], callback);
      assert Delegations(nodes) == [Delegated(nodes[0])] + Delegations(nodes[1..]);
    }
  }

  /** Emitting a single node is emitting that node. */
  lemma EmitOne(n: Node, callback: bool)
    ensures EmitAll([n], callback) == GrafanaMarkdownEmitter.NodeEmission(n, callback)
  {
    assert [n][1..] == [];
    match GrafanaMarkdownEmitter.NodeEmission(n, callback)
    case Err(_) =>
    case Ok(first) => assert first + [] == first;
  }

  /** The flat head opens with the warning node and then the heading node, whenever the item has a heading title. */
  lemma FlatHeadOpening(rule: HeadingRule, item: ApiItem)
    requires HasHeadingTitle(item.kind)
    ensures FlatHead(rule, item, false).Ok?
    ensures var h := FlatHead(rule, item, false).value;
      |h| >= 2 && h[0] == GrafanaDocWarning.Build(item) && h[1].GrafanaHeading?
  {
    GrafanaDocHeading.BuildAsAppender(item);
  }

  /** The flat page opens with the page meta, the page title and then the head. */
  lemma FlatPageOpening(rule: HeadingRule, item: ApiItem)
    requires FlatPage(rule, item).Ok?
    ensures FlatHead(rule, item, false).Ok?
    ensures var nodes := FlatPage(rule, item).value.nodes;
      var h := FlatHead(rule, item, false).value;
      |nodes| >= 2 + |h| && nodes[2..2 + |h|] == h
  {
    FlatPageNodes(rule, item);
    assert Head(Flat, rule, item, false) == FlatHead(rule, item, false);
    RemarksPlacement(Flat, rule, item, false);
    var pre := [GrafanaDocPageMeta.Build(item), GrafanaDocPageTitle.Build(item)];
    PrefixShift(pre, Content(Flat, rule, item, false).value, FlatHead(rule, item, false).value);
  }

  /** A flat page is the page meta and the page title, then the content. */
  lemma FlatPageNodes(rule: HeadingRule, item: ApiItem)
    requires FlatPage(rule, item).Ok?
    ensures Content(Flat, rule, item, false).Ok?
    ensures FlatPage(rule, item).value.nodes ==
      [GrafanaDocPageMeta.Build(item), GrafanaDocPageTitle.Build(item)] + Content(Flat, rule, item, false).value
  {
  }

  /** A prefix of `c` sits right after `pre` in `pre + c`. */
  lemma PrefixShift(pre: seq<Node>, c: seq<Node>, h: seq<Node>)
    requires h <= c
    ensures |pre + c| >= |pre| + |h| && (pre + c)[|pre|..|pre| + |h|] == h
  {
    assert (pre + c)[|pre|..] == c;
  }

  /**
   * As written, every flat page that is composed at all throws when it is emitted: its
   * heading node's `writeTo` calls the standard writer nobody passed. The same holds with
   * the corrected heading for every kind that has a heading title.
   */
  lemma FlatPagesFailToEmit(rule: HeadingRule, item: ApiItem)
    requires FlatPage(rule, item).Ok?
    requires rule == AsWritten || HasHeadingTitle(item.kind)
    ensures EmitAll(FlatPage(rule, item).value.nodes, false).Err?
  {
    if rule == AsWritten {
      GrafanaDocHeading.BuildAsAppender(item);
    }
    FlatPageOpening(rule, item);
    FlatHeadOpening(rule, item);
    var nodes := FlatPage(rule, item).value.nodes;
    var h := FlatHead(rule, item, false).value;
    assert nodes[3] == nodes[2..2 + |h|][1];
    GrafanaMarkdownEmitter.AsWrittenFailures(nodes[3]);
    EmitAllErr(nodes, false, 3);
  }

  /** The nodes a tsdoc comment holds are standard nodes, rendered by the standard writer. */
  predicate PlainNodes(nodes: seq<Node>) {
    forall i :: 0 <= i < |nodes| ==> !nodes[i].HasWriteTo()
  }

  /** Delegating a concatenation delegates each part. */
  lemma DelegationsConcat(a: seq<Node>, b: seq<Node>)
    ensures Delegations(a + b) == Delegations(a) + Delegations(b)
  {
  }

  /** The flat head of a declared item with a heading title, piece by piece. */
  lemma FlatHeadPieces(rule: HeadingRule, item: ApiItem)
    requires item.doc.Declared? && HeadingTitle(item).Ok?
    ensures FlatHead(rule, item, false) ==
      Ok([GrafanaDocWarning.Build(item)] + [GrafanaHeading(HeadingTitle(item).value)]
         + SummaryAppender.SummaryNodes(item) + SignatureAppender.SignatureNodes(item))
  {
    assert Summary(item) == SummaryAppender.SummaryNodes(item);
    assert FlatImport(item, false) == [];
    assert FlatDeclared(item, false) == SignatureAppender.SignatureNodes(item);
    assert FlatHeading(rule, item) == Ok([GrafanaHeading(HeadingTitle(item).value)]);
  }

  /** The Hugo head of an item with a non-empty heading title, piece by piece. */
  lemma HugoHeadPieces(rule: HeadingRule, item: ApiItem)
    requires HeadingTitle(item).Ok? && HeadingTitle(item).value != ""
    ensures HugoHead(rule, item, false) ==
      Ok(WarningAppender.WarningNodes(item) + [GrafanaDocHeading.Rendered(HeadingTitle(item).value)]
         + SummaryAppender.SummaryNodes(item) + SignatureAppender.SignatureNodes(item))
  {
    var all := WarningAppender.WarningNodes(item) + [GrafanaDocHeading.Rendered(HeadingTitle(item).value)]
      + SummaryAppender.SummaryNodes(item) + SignatureAppender.SignatureNodes(item);
    assert HeadingNodes(item, rule) == Ok([GrafanaDocHeading.Rendered(HeadingTitle(item).value)]);
    assert all + [] == all;
  }

  /** The warning and heading nodes, emitted with the callback, write what their standard counterparts do. */
  lemma OpeningEmission(item: ApiItem, title: string)
    ensures EmitAll([GrafanaDocWarning.Build(item)], true) == Ok(Delegations(WarningAppender.WarningNodes(item)))
    ensures EmitAll([GrafanaHeading(title)], true) == Ok(Delegations([GrafanaDocHeading.Rendered(title)]))
  {
    GrafanaDocWarning.RenderedAsAppender(item);
    EmitOne(GrafanaDocWarning.Build(item), true);
    EmitOne(GrafanaHeading(title), true);
    assert Delegations([GrafanaDocHeading.Rendered(title)]) == [Delegated(GrafanaDocHeading.Rendered(title))];
  }

  /**
   * Both layouts render the same head: for a declared item with a non-empty heading title
   * and a plain summary, the flat head, once emitted with the callback, writes exactly what
   * the standard rendering of the Hugo head writes (the import block left out of both).
   */
  lemma HeadsAgree(rule: HeadingRule, item: ApiItem)
    requires item.doc.Declared?
    requires HeadingTitle(item).Ok? && HeadingTitle(item).value != ""
    requires PlainNodes(SummaryAppender.SummaryNodes(item))
    ensures FlatHead(rule, item, false).Ok? && HugoHead(rule, item, false).Ok?
    ensures EmitAll(FlatHead(rule, item, false).value, true) == Ok(Delegations(HugoHead(rule, item, false).value))
  {
    FlatHeadPieces(rule, item);
    HugoHeadPieces(rule, item);
    var title := HeadingTitle(item).value;
    var w := GrafanaDocWarning.Build(item);
    var t := GrafanaHeading(title);
    var warning := WarningAppender.WarningNodes(item);
    var heading := [GrafanaDocHeading.Rendered(title)];
    var summary := SummaryAppender.SummaryNodes(item);
    var signature := SignatureAppender.SignatureNodes(item);
    OpeningEmission(item, title);
    EmitPlain(summary, true);
    EmitPlain(signature, true);
    EmitAllConcat([w], [t], true);
    EmitAllConcat([w] + [t], summary, true);
    EmitAllConcat([w] + [t] + summary, signature, true);
    DelegationsConcat(warning, heading);
    DelegationsConcat(warning + heading, summary);
    DelegationsConcat(warning + heading + summary, signature);
  }
}
