/** What is probed: the blocks and the show rules of a tree, with the spans of their
    entries, and where the calls stand in the text. */
module CoverageProbes {
  import opened Options
  import opened Sequences
  import opened CoverageModel
  import Decimal

  /** The entries of a block around those inside it: the spans of its first and its last
      child, detached if there is none; a single child counts as the first. */
  function BlockEntries(block: Node, inside: seq<Meta>): seq<Meta> {
    var nodes := if block.Inner? then block.children else [];
    var first := if |nodes| >= 1 then nodes[0].span else DETACHED;
    var last := if |nodes| >= 2 then nodes[|nodes| - 1].span else DETACHED;
    [Meta(first, OpenBrace)] + inside + [Meta(last, CloseBrace)]
  }

  /** The node with other children. */
  function With(node: Node, children: seq<Node>): Node
    requires node.Inner?
  {
    Inner(node.kind, node.span, children)
  }

  /** Whether the child is a body of a loop, a conditional or a closure. */
  predicate IsBody(kind: Kind, child: Node) {
    match kind
    case WhileLoop(body) => child.span == body || child.span == DETACHED
    case ForLoop(body) => child.span == body || child.span == DETACHED
    case Closure(body) => child.span == body || child.span == DETACHED
    case Conditional(ifBody, elseBody) =>
      || child.span == ifBody
      || child.span == (if elseBody.Some? then elseBody.value else DETACHED)
    case _ => false
  }

  // --------------------------------------------------------------------- entries

  lemma BlockIsProbed(node: Node)
    ensures Metas(EmitBlock(node)) == BlockEntries(node, Metas(EmitPlain(node)))
  {
    var open, close := Probe(Meta(First(node), OpenBrace)), Probe(Meta(Last(node), CloseBrace));
    MetasAround([Added("{\n"), open], EmitPlain(node), [Added("\n"), close, Added("}")]);
    hide Metas, EmitPlain;
    MetasTwo(Added("{\n"), open);
    MetasOne(Added("{\n"));
    MetasOne(open);
    MetasThree(Added("\n"), close, Added("}"));
    MetasOne(Added("\n"));
    MetasOne(close);
    MetasOne(Added("}"));
  }

  /** A code block has an entry at its start and one at its end, around those of its
      children in order. */
  lemma CodeBlockIsProbed(node: Node)
    requires node.Inner? && node.kind.CodeBlock?
    ensures Metas(Emit(node)) == BlockEntries(node, Metas(EmitAll(node.children)))
  {
    BlockIsProbed(node);
  }

  /** A body of a loop, conditional or closure is probed like a code block, whatever it is;
      every other child has its own entries. */
  lemma BodyIsProbed(node: Node, k: nat)
    requires node.Inner? && k < |node.children|
    requires node.kind.WhileLoop? || node.kind.ForLoop? || node.kind.Conditional? || node.kind.Closure?
    ensures var child := node.children[k];
      Metas(Emit(node)) == Metas(Emit(With(node, node.children[..k])))
        + (if IsBody(node.kind, child) then BlockEntries(child, Metas(EmitPlain(child))) else Metas(Emit(child)))
        + Metas(Emit(With(node, node.children[k + 1..])))
  {
    var nodes, child := node.children, node.children[k];
    var (body, other) := Bodies(node.kind);
    EmitsBodies(node, nodes);
    EmitsBodies(node, nodes[..k]);
    EmitsBodies(node, nodes[k + 1..]);
    hide Emit, EmitBodies, EmitBlock, EmitPlain, Metas;
    BodiesAround(nodes, k, body, other);
    var pieces := if child.span == body || child.span == other then EmitBlock(child) else Emit(child);
    MetasAround(EmitBodies(nodes[..k], body, other), pieces, EmitBodies(nodes[k + 1..], body, other));
    BlockIsProbed(child);
  }

  /** The spans of the bodies. */
  function Bodies(kind: Kind): (Span, Span)
    requires kind.WhileLoop? || kind.ForLoop? || kind.Conditional? || kind.Closure?
  {
    match kind
    case WhileLoop(body) => (body, DETACHED)
    case ForLoop(body) => (body, DETACHED)
    case Closure(body) => (body, DETACHED)
    case Conditional(ifBody, elseBody) => (ifBody, if elseBody.Some? then elseBody.value else DETACHED)
  }

  lemma EmitsBodies(node: Node, children: seq<Node>)
    requires node.Inner?
    requires node.kind.WhileLoop? || node.kind.ForLoop? || node.kind.Conditional? || node.kind.Closure?
    ensures Emit(With(node, children)) == EmitBodies(children, Bodies(node.kind).0, Bodies(node.kind).1)
    ensures With(node, node.children) == node
  {
  }

  lemma {:induction false} BodiesConcat(a: seq<Node>, b: seq<Node>, body: Span, other: Span)
    ensures EmitBodies(a + b, body, other) == EmitBodies(a, body, other) + EmitBodies(b, body, other)
  {
    if b == [] {
      assert a + b == a;
    } else {
      BodiesConcat(a, b[..|b| - 1], body, other);
      DropLast(a, b);
    }
  }

  lemma BodiesAround(nodes: seq<Node>, k: nat, body: Span, other: Span)
    requires k < |nodes|
    ensures var child := nodes[k];
      EmitBodies(nodes, body, other) == EmitBodies(nodes[..k], body, other)
        + (if child.span == body || child.span == other then EmitBlock(child) else Emit(child))
        + EmitBodies(nodes[k + 1..], body, other)
  {
    hide EmitBlock, Emit;
    CutAround(nodes, k);
    BodiesOne(nodes[k], body, other);
    hide EmitBodies;
    BodiesConcat(nodes[..k] + [nodes[k]], nodes[k + 1..], body, other);
    BodiesConcat(nodes[..k], [nodes[k]], body, other);
  }

  lemma BodiesOne(child: Node, body: Span, other: Span)
    ensures EmitBodies([child], body, other) ==
      if child.span == body || child.span == other then EmitBlock(child) else Emit(child)
  {
    hide EmitBlock, Emit;
    assert [child][..0] == [] && EmitBodies([], body, other) == [];
  }

  /** The transform of a show rule has one entry with its own span, in front of its inner
      entries if it is a set rule and behind them otherwise. */
  lemma ShowIsProbed(node: Node, k: nat)
    requires node.Inner? && node.kind.ShowRule? && k < |node.children|
    ensures var child := node.children[k];
      Metas(Emit(node)) == Metas(Emit(With(node, node.children[..k])))
        + (if child.span != node.kind.transform then Metas(Emit(child))
           else if node.kind.isSet then [Meta(child.span, Show)] + Metas(Emit(child))
           else Metas(Emit(child)) + [Meta(child.span, Show)])
        + Metas(Emit(With(node, node.children[k + 1..])))
  {
    var nodes, child, transform, isSet := node.children, node.children[k], node.kind.transform, node.kind.isSet;
    EmitsShow(node, nodes);
    EmitsShow(node, nodes[..k]);
    EmitsShow(node, nodes[k + 1..]);
    hide Emit, EmitShow, EmitTransform, Metas;
    ShowAround(nodes, k, transform, isSet);
    var pieces := if child.span == transform then EmitTransform(child, isSet) else Emit(child);
    MetasAround(EmitShow(nodes[..k], transform, isSet), pieces, EmitShow(nodes[k + 1..], transform, isSet));
    TransformIsProbed(child, isSet);
  }

  lemma EmitsShow(node: Node, children: seq<Node>)
    requires node.Inner? && node.kind.ShowRule?
    ensures Emit(With(node, children)) == EmitShow(children, node.kind.transform, node.kind.isSet)
    ensures With(node, node.children) == node
  {
  }

  lemma {:induction false} ShowConcat(a: seq<Node>, b: seq<Node>, transform: Span, isSet: bool)
    ensures EmitShow(a + b, transform, isSet) == EmitShow(a, transform, isSet) + EmitShow(b, transform, isSet)
  {
    hide EmitTransform, Emit;
    if b == [] {
      assert a + b == a;
    } else {
      ShowConcat(a, b[..|b| - 1], transform, isSet);
      DropLast(a, b);
    }
  }

  lemma ShowAround(nodes: seq<Node>, k: nat, transform: Span, isSet: bool)
    requires k < |nodes|
    ensures var child := nodes[k];
      EmitShow(nodes, transform, isSet) == EmitShow(nodes[..k], transform, isSet)
        + (if child.span == transform then EmitTransform(child, isSet) else Emit(child))
        + EmitShow(nodes[k + 1..], transform, isSet)
  {
    hide EmitTransform, Emit;
    CutAround(nodes, k);
    ShowOne(nodes[k], transform, isSet);
    hide EmitShow;
    ShowConcat(nodes[..k] + [nodes[k]], nodes[k + 1..], transform, isSet);
    ShowConcat(nodes[..k], [nodes[k]], transform, isSet);
  }

  lemma ShowOne(child: Node, transform: Span, isSet: bool)
    ensures EmitShow([child], transform, isSet) ==
      if child.span == transform then EmitTransform(child, isSet) else Emit(child)
  {
    hide EmitTransform, Emit;
    assert [child][..0] == [] && EmitShow([], transform, isSet) == [];
  }

  lemma TransformIsProbed(child: Node, isSet: bool)
    ensures Metas(EmitTransform(child, isSet)) ==
      if isSet then [Meta(child.span, Show)] + Metas(Emit(child)) else Metas(Emit(child)) + [Meta(child.span, Show)]
  {
    var probe := Probe(Meta(child.span, Show));
    hide Metas, Emit;
    MetasOne(probe);
    if isSet {
      MetasAround([Added(SHOW_SET_OPEN), probe], Emit(child), [Added(SHOW_SET_CLOSE)]);
      MetasTwo(Added(SHOW_SET_OPEN), probe);
      MetasOne(Added(SHOW_SET_OPEN));
      MetasOne(Added(SHOW_SET_CLOSE));
    } else {
      MetasAround([Added(SHOW_OPEN)], Emit(child), [Added(SHOW_MIDDLE), probe, Added(SHOW_CLOSE)]);
      MetasThree(Added(SHOW_MIDDLE), probe, Added(SHOW_CLOSE));
      MetasOne(Added(SHOW_OPEN));
      MetasOne(Added(SHOW_MIDDLE));
      MetasOne(Added(SHOW_CLOSE));
    }
  }

  lemma {:induction false} AllConcat(a: seq<Node>, b: seq<Node>)
    ensures EmitAll(a + b) == EmitAll(a) + EmitAll(b)
  {
    hide Emit;
    if b == [] {
      assert a + b == a;
    } else {
      AllConcat(a, b[..|b| - 1]);
      DropLast(a, b);
    }
  }

  /** Everything else has the entries of its children, in order; a contextual expression
      has those of its body. */
  lemma OthersPassOn(node: Node, k: nat)
    requires node.Inner? && node.kind.Other? && k < |node.children|
    ensures Metas(Emit(node)) ==
      Metas(EmitAll(node.children[..k])) + Metas(Emit(node.children[k])) + Metas(EmitAll(node.children[k + 1..]))
  {
    AllAround(node.children, k);
  }

  lemma AllAround(nodes: seq<Node>, k: nat)
    requires k < |nodes|
    ensures Metas(EmitAll(nodes)) ==
      Metas(EmitAll(nodes[..k])) + Metas(Emit(nodes[k])) + Metas(EmitAll(nodes[k + 1..]))
  {
    hide Emit;
    CutAround(nodes, k);
    AllOne(nodes[k]);
    hide EmitAll, Metas;
    AllConcat(nodes[..k] + [nodes[k]], nodes[k + 1..]);
    AllConcat(nodes[..k], [nodes[k]]);
    MetasAround(EmitAll(nodes[..k]), Emit(nodes[k]), EmitAll(nodes[k + 1..]));
  }

  lemma AllOne(node: Node)
    ensures EmitAll([node]) == Emit(node)
  {
    hide Emit;
    assert [node][..0] == [] && EmitAll([]) == [];
  }

  lemma ContextualPassesOn(node: Node)
    requires node.Inner? && node.kind.Contextual? && node.kind.child < |node.children|
    ensures Metas(Emit(node)) == Metas(Emit(node.children[node.kind.child]))
  {
    EmitContextual(node);
    hide Emit, Metas;
    MetasAround([Added("context (")], EmitInside(node), [Added(")")]);
    MetasOne(Added("context ("));
    MetasOne(Added(")"));
    assert [] + Metas(EmitInside(node)) + [] == Metas(EmitInside(node));
  }

  // ------------------------------------------------------------------------ text

  lemma RenderAround(a: seq<Piece>, b: seq<Piece>, c: seq<Piece>, n: nat)
    ensures Render(a + b + c, n) ==
      Render(a, n) + Render(b, n + |Metas(a)|) + Render(c, n + |Metas(a)| + |Metas(b)|)
  {
    hide Render, Metas;
    RenderConcat(a + b, c, n);
    RenderConcat(a, b, n);
    MetasConcat(a, b);
  }

  lemma RenderOne(p: Piece, n: nat)
    ensures Render([p], n) == PieceText(p, n)
  {
    hide PieceText;
    assert [p][..0] == [] && |Metas([])| == 0;
  }

  lemma RenderTwo(p: Piece, q: Piece, n: nat)
    ensures Render([p, q], n) == PieceText(p, n) + PieceText(q, n + |Metas([p])|)
  {
    hide PieceText, Render;
    RenderOne(p, n);
    assert [p, q] == [p] + [q];
    RenderPush([p], q, n);
  }

  /** The call that a probe is in the text. */
  function Call(k: nat): string {
    "__cov_pc(" + Decimal.Print(k) + ");\n"
  }

  lemma CloseText(meta: Meta, n: nat)
    ensures Render([Added("\n"), Probe(meta), Added("}")], n) == "\n" + Call(n) + "}"
  {
    hide Metas, Render;
    var start := [Added("\n"), Probe(meta)];
    assert [Added("\n"), Probe(meta), Added("}")] == start + [Added("}")];
    RenderTwo(Added("\n"), Probe(meta), n);
    MetasOne(Added("\n"));
    RenderPush(start, Added("}"), n);
  }

  lemma CodeBlockPieces(node: Node)
    requires node.Inner? && node.kind.CodeBlock?
    ensures Emit(node) ==
      [Added("{\n"), Probe(Meta(First(node), OpenBrace))] + EmitAll(node.children)
        + [Added("\n"), Probe(Meta(Last(node), CloseBrace)), Added("}")]
  {
    hide EmitAll, First, Last;
    assert EmitPlain(node) == EmitAll(node.children);
    assert Emit(node) == EmitBlock(node);
  }

  /** The text of a code block: its braces, and inside them its own text between a call of
      its first probe and one of its last, numbered around the probes in between. */
  lemma CodeBlockText(node: Node, n: nat)
    requires node.Inner? && node.kind.CodeBlock?
    ensures var inside := EmitAll(node.children);
      Render(Emit(node), n) ==
        ("{\n" + Call(n)) + Render(inside, n + 1) + ("\n" + Call(n + 1 + |Metas(inside)|) + "}")
  {
    hide Emit, EmitAll, Render, Metas, Call, First, Last;
    var first, last := Meta(First(node), OpenBrace), Meta(Last(node), CloseBrace);
    var inside := EmitAll(node.children);
    CodeBlockPieces(node);
    WrappedOpen("{\n", first, n);
    CloseText(last, n + 1 + |Metas(inside)|);
    RenderAround([Added("{\n"), Probe(first)], inside, [Added("\n"), Probe(last), Added("}")], n);
  }

  /** The text of a wrapped set rule: a function that calls the probe, applies the rule and
      passes its argument on. */
  lemma ShowSetText(child: Node, n: nat)
    ensures Render(EmitTransform(child, true), n) ==
      ("__it => {" + Call(n)) + Render(Emit(child), n + 1) + "\n__it; }\n"
  {
    var pieces := [Added(SHOW_SET_OPEN), Probe(Meta(child.span, Show))];
    hide Emit, Render, Metas, Call;
    RenderAround(pieces, Emit(child), [Added(SHOW_SET_CLOSE)], n);
    WrappedOpen(SHOW_SET_OPEN, Meta(child.span, Show), n);
    AddedText(SHOW_SET_CLOSE, n + 1 + |Metas(Emit(child))|);
  }

  lemma WrappedOpen(text: string, meta: Meta, n: nat)
    ensures var pieces := [Added(text), Probe(meta)];
      Render(pieces, n) == text + Call(n) && |Metas(pieces)| == 1
  {
    hide Metas;
    RenderTwo(Added(text), Probe(meta), n);
    MetasTwo(Added(text), Probe(meta));
    MetasOne(Added(text));
    MetasOne(Probe(meta));
  }

  lemma AddedText(text: string, n: nat)
    ensures Render([Added(text)], n) == text && |Metas([Added(text)])| == 0
  {
    RenderOne(Added(text), n);
    MetasOne(Added(text));
  }

  /** The text of another wrapped transform: it is bound to a name once, and a function
      calls the probe and then applies it, or puts it in place if it is no function. */
  lemma ShowTransformText(child: Node, n: nat)
    ensures Render(EmitTransform(child, false), n) ==
      "{\nlet __cov_show_body = " + Render(Emit(child), n)
        + ("\n__it => {" + Call(n + |Metas(Emit(child))|) + SHOW_CLOSE)
    ensures SHOW_CLOSE ==
      "if type(__cov_show_body) == function { __cov_show_body(__it); } else { __cov_show_body } } }\n"
  {
    var meta := Meta(child.span, Show);
    hide Emit, Render, Metas, Call;
    RenderAround([Added(SHOW_OPEN)], Emit(child), [Added(SHOW_MIDDLE), Probe(meta), Added(SHOW_CLOSE)], n);
    AddedText(SHOW_OPEN, n);
    var k := n + |Metas(Emit(child))|;
    WrappedOpen(SHOW_MIDDLE, meta, k);
    var open, close := [Added(SHOW_MIDDLE), Probe(meta)], [Added(SHOW_CLOSE)];
    assert [Added(SHOW_MIDDLE), Probe(meta), Added(SHOW_CLOSE)] == open + close;
    RenderConcat(open, close, k);
    AddedText(SHOW_CLOSE, k + 1);
  }
}
