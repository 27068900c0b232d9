/** Coverage instrumentation of a syntax tree, as a list of emitted pieces: source text,
    added text and probes that are not numbered yet. Numbering them is a second pass here;
    the worker in Coverage does both at once. */
module CoverageModel {
  import opened Options
  import opened Sequences
  import Decimal

  /** A location in the source; the detached one belongs to no node of a parsed file. */
  type Span = nat

  const DETACHED: Span := 0

  /** What the instrumentation needs to know of a node: the spans of its bodies or of its
      transform, or which child is the body of a contextual expression. */
  datatype Kind =
    | CodeBlock
    | WhileLoop(body: Span)
    | ForLoop(body: Span)
    | Conditional(ifBody: Span, elseBody: Option<Span>)
    | Closure(body: Span)
    | ShowRule(transform: Span, isSet: bool)
    | Contextual(child: nat)
    | Other

  datatype Node = Leaf(span: Span, text: string) | Inner(kind: Kind, span: Span, children: seq<Node>)

  datatype ProbeKind = OpenBrace | CloseBrace | Show

  datatype Meta = Meta(span: Span, kind: ProbeKind)

  datatype Piece = Source(text: string) | Added(text: string) | Probe(meta: Meta)

  // ------------------------------------------------------------------- emission

  function Children(node: Node): seq<Node> {
    if node.Inner? then node.children else []
  }

  function First(node: Node): Span {
    if Children(node) == [] then DETACHED else Children(node)[0].span
  }

  /** The span of the last child; a single child counts as the first only. */
  function Last(node: Node): Span {
    var n := |Children(node)|;
    if n < 2 then DETACHED else Children(node)[n - 1].span
  }

  function Emit(node: Node): seq<Piece>
    decreases node, 3
  {
    if node.Leaf? then EmitPlain(node)
    else
      match node.kind
      case CodeBlock => EmitBlock(node)
      case WhileLoop(body) => EmitBodies(node.children, body, DETACHED)
      case ForLoop(body) => EmitBodies(node.children, body, DETACHED)
      case Conditional(ifBody, elseBody) => EmitBodies(node.children, ifBody, SpanOr(elseBody))
      case Closure(body) => EmitBodies(node.children, body, DETACHED)
      case ShowRule(transform, isSet) => EmitShow(node.children, transform, isSet)
      case Contextual(i) =>
        [Added("context (")] + (if i < |node.children| then Emit(node.children[i]) else []) + [Added(")")]
      case Other => EmitPlain(node)
  }

  function SpanOr(span: Option<Span>): Span {
    if span.Some? then span.value else DETACHED
  }

  /** The text of a leaf, or the children visited one by one. */
  function EmitPlain(node: Node): seq<Piece>
    decreases node, 1
  {
    match node
    case Leaf(_, text) => if text == "" then [] else [Source(text)]
    case Inner(_, _, children) => EmitAll(children)
  }

  function EmitAll(nodes: seq<Node>): seq<Piece>
    decreases nodes, 0
  {
    if nodes == [] then [] else EmitAll(nodes[..|nodes| - 1]) + Emit(nodes[|nodes| - 1])
  }

  /** A block between two probes in braces of its own. */
  function EmitBlock(node: Node): seq<Piece>
    decreases node, 2
  {
    [Added("{\n"), Probe(Meta(First(node), OpenBrace))] + EmitPlain(node)
      + [Added("\n"), Probe(Meta(Last(node), CloseBrace)), Added("}")]
  }

  function EmitBodies(nodes: seq<Node>, body: Span, other: Span): seq<Piece>
    decreases nodes, 0
  {
    if nodes == [] then []
    else
      var rest, child := EmitBodies(nodes[..|nodes| - 1], body, other), nodes[|nodes| - 1];
      rest + if child.span == body || child.span == other then EmitBlock(child) else Emit(child)
  }

  const SHOW_SET_OPEN := "__it => {"
  const SHOW_SET_CLOSE := "\n__it; }\n"
  const SHOW_OPEN := "{\nlet __cov_show_body = "
  const SHOW_MIDDLE := "\n__it => {"
  const SHOW_CLOSE :=
    "if type(__cov_show_body) == function { __cov_show_body(__it); } else { __cov_show_body } } }\n"

  function EmitTransform(node: Node, isSet: bool): seq<Piece>
    decreases node, 4
  {
    var probe := Probe(Meta(node.span, Show));
    if isSet then [Added(SHOW_SET_OPEN), probe] + Emit(node) + [Added(SHOW_SET_CLOSE)]
    else [Added(SHOW_OPEN)] + Emit(node) + [Added(SHOW_MIDDLE), probe, Added(SHOW_CLOSE)]
  }

  function EmitShow(nodes: seq<Node>, transform: Span, isSet: bool): seq<Piece>
    decreases nodes, 0
  {
    if nodes == [] then []
    else
      var rest, child := EmitShow(nodes[..|nodes| - 1], transform, isSet), nodes[|nodes| - 1];
      rest + if child.span == transform then EmitTransform(child, isSet) else Emit(child)
  }

  // ------------------------------------------------------------------ numbering

  function ProbeText(k: nat): string {
    "__cov_pc(" + Decimal.Print(k) + ");\n"
  }

  /** The probes of the pieces, in order: probe k reports through entry k. */
  function Metas(pieces: seq<Piece>): seq<Meta> {
    if pieces == [] then []
    else
      var rest, last := Metas(pieces[..|pieces| - 1]), pieces[|pieces| - 1];
      if last.Probe? then rest + [last.meta] else rest
  }

  /** The instrumented text, with the probes numbered from n on. */
  function Render(pieces: seq<Piece>, n: nat): string {
    if pieces == [] then ""
    else
      var rest, last := pieces[..|pieces| - 1], pieces[|pieces| - 1];
      Render(rest, n) + PieceText(last, n + |Metas(rest)|)
  }

  function PieceText(p: Piece, k: nat): string {
    if p.Probe? then ProbeText(k) else p.text
  }

  lemma RenderPush(pieces: seq<Piece>, p: Piece, n: nat)
    ensures Render(pieces + [p], n) == Render(pieces, n) + PieceText(p, n + |Metas(pieces)|)
  {
    assert (pieces + [p])[..|pieces|] == pieces;
  }

  lemma {:induction false} MetasConcat(a: seq<Piece>, b: seq<Piece>)
    ensures Metas(a + b) == Metas(a) + Metas(b)
  {
    if b == [] {
      assert a + b == a;
    } else {
      MetasConcat(a, b[..|b| - 1]);
      DropLast(a, b);
    }
  }

  lemma {:induction false} RenderConcat(a: seq<Piece>, b: seq<Piece>, n: nat)
    ensures Render(a + b, n) == Render(a, n) + Render(b, n + |Metas(a)|)
    decreases |b|, 0
  {
    hide PieceText;
    if b == [] {
      assert a + b == a;
    } else {
      RenderStep(a, b[..|b| - 1], b[|b| - 1], n);
      LastApart(a, b);
      LastApart([], b);
      assert [] + b == b && [] + b[..|b| - 1] == b[..|b| - 1];
    }
  }

  lemma {:induction false} RenderStep(a: seq<Piece>, b: seq<Piece>, p: Piece, n: nat)
    ensures Render((a + b) + [p], n) == Render(a, n) + Render(b + [p], n + |Metas(a)|)
    decreases |b|, 1
  {
    hide Render, PieceText, Metas;
    var m := n + |Metas(a)|;
    RenderConcat(a, b, n);
    MetasConcat(a, b);
    RenderPush(a + b, p, n);
    RenderPush(b, p, m);
    Associate(Render(a, n), Render(b, m), PieceText(p, m + |Metas(b)|));
  }

  /** The indices passed to the probes, in the order of the text. */
  function Indices(pieces: seq<Piece>, n: nat): seq<nat> {
    if pieces == [] then []
    else
      var rest, last := pieces[..|pieces| - 1], pieces[|pieces| - 1];
      Indices(rest, n) + if last.Probe? then [n + |Metas(rest)|] else []
  }

  /** The probes of an instrumented file pass 0, 1, .. up to the number of its entries. */
  lemma {:induction false} IndicesCount(pieces: seq<Piece>)
    ensures Indices(pieces, 0) == seq(|Metas(pieces)|, i => i)
  {
    if pieces != [] {
      IndicesCount(pieces[..|pieces| - 1]);
    }
  }

  lemma CutAround<T>(s: seq<T>, i: nat)
    requires i < |s|
    ensures s == s[..i] + [s[i]] + s[i + 1..]
  {
  }

  /** A probe of the pieces in the text: what stands there is the call of the probe with the
      number of the probes before it, and the entry of that number is its own. */
  lemma ProbeIsNumbered(pieces: seq<Piece>, i: nat)
    requires i < |pieces| && pieces[i].Probe?
    ensures var k := |Metas(pieces[..i])|;
      && k < |Metas(pieces)| && Metas(pieces)[k] == pieces[i].meta
      && k < |Indices(pieces, 0)| && Indices(pieces, 0)[k] == k
      && Render(pieces, 0) == Render(pieces[..i], 0) + ProbeText(k) + Render(pieces[i + 1..], k + 1)
  {
    hide Metas, Render, Indices;
    var a, p, b := pieces[..i], [pieces[i]], pieces[i + 1..];
    CutAround(pieces, i);
    OneProbe(pieces[i], |Metas(a)|);
    MetasConcat(a + p, b);
    MetasConcat(a, p);
    RenderConcat(a + p, b, 0);
    RenderConcat(a, p, 0);
    IndicesCount(pieces);
  }

  lemma OneProbe(p: Piece, n: nat)
    requires p.Probe?
    ensures Metas([p]) == [p.meta] && Render([p], n) == ProbeText(n)
  {
    RenderPush([], p, n);
    assert [] + [p] == [p] && [p][..0] == [];
  }

  /** Every entry has its probe. */
  lemma {:induction false} EntryHasProbe(pieces: seq<Piece>, k: nat) returns (i: nat)
    requires k < |Metas(pieces)|
    ensures i < |pieces| && pieces[i].Probe? && |Metas(pieces[..i])| == k
  {
    var n := |pieces| - 1;
    if k < |Metas(pieces[..n])| {
      i := EntryHasProbe(pieces[..n], k);
      assert pieces[..n][..i] == pieces[..i];
    } else {
      i := n;
    }
  }

  // -------------------------------------------------------------------- erasure

  /** The source text left when everything added is deleted. */
  function Erase(pieces: seq<Piece>): seq<string> {
    if pieces == [] then []
    else
      var rest, last := Erase(pieces[..|pieces| - 1]), pieces[|pieces| - 1];
      if last.Source? then rest + [last.text] else rest
  }

  /** The texts of a tree, in order. */
  function Leaves(node: Node): seq<string>
    decreases node, 1
  {
    match node
    case Leaf(_, text) => if text == "" then [] else [text]
    case Inner(_, _, children) => LeavesAll(children)
  }

  function LeavesAll(nodes: seq<Node>): seq<string>
    decreases nodes, 0
  {
    if nodes == [] then [] else LeavesAll(nodes[..|nodes| - 1]) + Leaves(nodes[|nodes| - 1])
  }

  /** No contextual expression loses text: only the body of one is visited, unless it
      stands where a block is expected and is visited child by child. */
  ghost predicate Lossless(node: Node)
    decreases node, 2
  {
    if node.Leaf? then true
    else
      match node.kind
      case CodeBlock => LosslessAll(node.children)
      case WhileLoop(body) => LosslessBodies(node.children, body, DETACHED)
      case ForLoop(body) => LosslessBodies(node.children, body, DETACHED)
      case Conditional(ifBody, elseBody) => LosslessBodies(node.children, ifBody, SpanOr(elseBody))
      case Closure(body) => LosslessBodies(node.children, body, DETACHED)
      case ShowRule(_, _) => LosslessAll(node.children)
      case Contextual(i) =>
        if i < |node.children| then
          && LeavesAll(node.children[..i]) == [] && LeavesAll(node.children[i + 1..]) == []
          && Lossless(node.children[i])
        else LeavesAll(node.children) == []
      case Other => LosslessAll(node.children)
  }

  ghost predicate LosslessPlain(node: Node)
    decreases node, 1
  {
    node.Inner? ==> LosslessAll(node.children)
  }

  ghost predicate LosslessAll(nodes: seq<Node>)
    decreases nodes, 0
  {
    nodes != [] ==> LosslessAll(nodes[..|nodes| - 1]) && Lossless(nodes[|nodes| - 1])
  }

  ghost predicate LosslessBodies(nodes: seq<Node>, body: Span, other: Span)
    decreases nodes, 0
  {
    nodes != [] ==>
      var child := nodes[|nodes| - 1];
      && LosslessBodies(nodes[..|nodes| - 1], body, other)
      && if child.span == body || child.span == other then LosslessPlain(child) else Lossless(child)
  }

  /** What erasure leaves of the emission for some texts: all of them, or fewer. */
  ghost predicate Erases(pieces: seq<Piece>, texts: seq<string>, lossless: bool) {
    if lossless then Erase(pieces) == texts else |Erase(pieces)| < |texts|
  }

  lemma {:induction false} EraseConcat(a: seq<Piece>, b: seq<Piece>)
    ensures Erase(a + b) == Erase(a) + Erase(b)
  {
    if b == [] {
      assert a + b == a;
    } else {
      EraseConcat(a, b[..|b| - 1]);
      DropLast(a, b);
    }
  }

  lemma {:induction false} EraseAdded(pieces: seq<Piece>)
    requires forall i :: 0 <= i < |pieces| ==> !pieces[i].Source?
    ensures Erase(pieces) == []
  {
    if pieces != [] {
      EraseAdded(pieces[..|pieces| - 1]);
    }
  }

  /** Added pieces around others do not change what erasure leaves. */
  lemma EraseAround(a: seq<Piece>, b: seq<Piece>, c: seq<Piece>)
    requires forall i :: 0 <= i < |a| ==> !a[i].Source?
    requires forall i :: 0 <= i < |c| ==> !c[i].Source?
    ensures Erase(a + b + c) == Erase(b)
  {
    EraseConcat(a + b, c);
    EraseConcat(a, b);
    EraseAdded(a);
    EraseAdded(c);
  }

  lemma {:induction false} LeavesConcat(a: seq<Node>, b: seq<Node>)
    ensures LeavesAll(a + b) == LeavesAll(a) + LeavesAll(b)
  {
    hide Leaves;
    if b == [] {
      assert a + b == a;
    } else {
      LeavesConcat(a, b[..|b| - 1]);
      DropLast(a, b);
      Associate(LeavesAll(a), LeavesAll(b[..|b| - 1]), Leaves(b[|b| - 1]));
    }
  }

  /** Erasing what was added gives back the texts of the tree, in order, exactly when no
      contextual expression loses text; else some are missing. */
  lemma {:induction false} EraseEmit(node: Node)
    ensures Erases(Emit(node), Leaves(node), Lossless(node))
    decreases node, 3
  {
    if node.Inner? {
      match node.kind {
        case CodeBlock => EraseBlock(node);
        case WhileLoop(body) => EraseBodies(node.children, body, DETACHED);
        case ForLoop(body) => EraseBodies(node.children, body, DETACHED);
        case Conditional(ifBody, elseBody) => EraseBodies(node.children, ifBody, SpanOr(elseBody));
        case Closure(body) => EraseBodies(node.children, body, DETACHED);
        case ShowRule(transform, isSet) => EraseShow(node.children, transform, isSet);
        case Contextual(i) => EraseContextual(node);
        case Other => EraseAll(node.children);
      }
    }
  }

  /** What is emitted between the parentheses of a contextual expression. */
  function EmitInside(node: Node): seq<Piece>
    requires node.Inner? && node.kind.Contextual?
  {
    if node.kind.child < |node.children| then Emit(node.children[node.kind.child]) else []
  }

  lemma EmitContextual(node: Node)
    requires node.Inner? && node.kind.Contextual?
    ensures Emit(node) == [Added("context (")] + EmitInside(node) + [Added(")")]
  {
  }

  lemma {:induction false} EraseContextual(node: Node)
    requires node.Inner? && node.kind.Contextual?
    ensures Erases(Emit(node), Leaves(node), Lossless(node))
    decreases node, 2
  {
    var i, nodes := node.kind.child, node.children;
    if i < |nodes| {
      EraseEmit(nodes[i]);
      EraseAround([Added("context (")], Emit(nodes[i]), [Added(")")]);
      LeavesAround(nodes, i);
    } else {
      EraseAround([Added("context (")], [], [Added(")")]);
    }
  }

  lemma LeavesAround(nodes: seq<Node>, i: nat)
    requires i < |nodes|
    ensures LeavesAll(nodes) == LeavesAll(nodes[..i]) + Leaves(nodes[i]) + LeavesAll(nodes[i + 1..])
  {
    hide LeavesAll, Leaves;
    var a, p, b := nodes[..i], [nodes[i]], nodes[i + 1..];
    CutAround(nodes, i);
    LeavesConcat(a + p, b);
    LeavesConcat(a, p);
    LeavesOne(nodes[i]);
  }

  lemma LeavesOne(node: Node)
    ensures LeavesAll([node]) == Leaves(node)
  {
    assert [node][..0] == [];
  }

  lemma {:induction false} EraseAll(nodes: seq<Node>)
    ensures Erases(EmitAll(nodes), LeavesAll(nodes), LosslessAll(nodes))
    decreases nodes, 0
  {
    if nodes != [] {
      var k := |nodes| - 1;
      EraseAll(nodes[..k]);
      EraseEmit(nodes[k]);
      EraseConcat(EmitAll(nodes[..k]), Emit(nodes[k]));
    }
  }

  lemma {:induction false} EraseBlock(node: Node)
    ensures Erases(EmitBlock(node), Leaves(node), LosslessPlain(node))
    decreases node, 2
  {
    EraseAround([Added("{\n"), Probe(Meta(First(node), OpenBrace))], EmitPlain(node),
                [Added("\n"), Probe(Meta(Last(node), CloseBrace)), Added("}")]);
    if node.Inner? {
      EraseAll(node.children);
    }
  }

  lemma {:induction false} EraseBodies(nodes: seq<Node>, body: Span, other: Span)
    ensures Erases(EmitBodies(nodes, body, other), LeavesAll(nodes), LosslessBodies(nodes, body, other))
    decreases nodes, 0
  {
    if nodes != [] {
      var k := |nodes| - 1;
      EraseBodies(nodes[..k], body, other);
      EraseBlock(nodes[k]);
      EraseEmit(nodes[k]);
      EraseConcat(EmitBodies(nodes[..k], body, other), EmitBlock(nodes[k]));
      EraseConcat(EmitBodies(nodes[..k], body, other), Emit(nodes[k]));
    }
  }

  lemma {:induction false} EraseShow(nodes: seq<Node>, transform: Span, isSet: bool)
    ensures Erases(EmitShow(nodes, transform, isSet), LeavesAll(nodes), LosslessAll(nodes))
    decreases nodes, 0
  {
    if nodes != [] {
      var k := |nodes| - 1;
      EraseShow(nodes[..k], transform, isSet);
      EraseEmit(nodes[k]);
      EraseTransform(nodes[k], isSet);
      EraseConcat(EmitShow(nodes[..k], transform, isSet), EmitTransform(nodes[k], isSet));
      EraseConcat(EmitShow(nodes[..k], transform, isSet), Emit(nodes[k]));
    }
  }

  lemma EraseTransform(node: Node, isSet: bool)
    ensures Erase(EmitTransform(node, isSet)) == Erase(Emit(node))
  {
    var probe := Probe(Meta(node.span, Show));
    EraseAround([Added(SHOW_SET_OPEN), probe], Emit(node), [Added(SHOW_SET_CLOSE)]);
    EraseAround([Added(SHOW_OPEN)], Emit(node), [Added(SHOW_MIDDLE), probe, Added(SHOW_CLOSE)]);
  }

  // --------------------------------------------------------------------- balance

  function Net(metas: seq<Meta>): int {
    if metas == [] then 0
    else
      Net(metas[..|metas| - 1])
        + match metas[|metas| - 1].kind case OpenBrace => 1 case CloseBrace => -1 case Show => 0
  }

  /** Opening and closing probes pair up. */
  ghost predicate Balanced(metas: seq<Meta>) {
    Net(metas) == 0 && forall k :: 0 <= k <= |metas| ==> Net(metas[..k]) >= 0
  }

  lemma {:induction false} NetConcat(a: seq<Meta>, b: seq<Meta>)
    ensures Net(a + b) == Net(a) + Net(b)
  {
    if b == [] {
      assert a + b == a;
    } else {
      NetConcat(a, b[..|b| - 1]);
      DropLast(a, b);
    }
  }

  lemma BalancedConcat(a: seq<Meta>, b: seq<Meta>)
    requires Balanced(a) && Balanced(b)
    ensures Balanced(a + b)
  {
    NetConcat(a, b);
    forall k | 0 <= k <= |a + b| ensures Net((a + b)[..k]) >= 0 {
      if k <= |a| {
        assert (a + b)[..k] == a[..k];
      } else {
        assert (a + b)[..k] == a + b[..k - |a|];
        NetConcat(a, b[..k - |a|]);
      }
    }
  }

  lemma BalancedWrap(open: Meta, a: seq<Meta>, close: Meta)
    requires open.kind == OpenBrace && close.kind == CloseBrace && Balanced(a)
    ensures Balanced([open] + a + [close])
  {
    var all := [open] + a + [close];
    NetConcat([open] + a, [close]);
    NetConcat([open], a);
    assert Net([open]) == 1 && Net([close]) == -1;
    forall k | 0 <= k <= |all| ensures Net(all[..k]) >= 0 {
      if k == 0 {
      } else if k <= |a| + 1 {
        assert all[..k] == [open] + a[..k - 1];
        NetConcat([open], a[..k - 1]);
      } else {
        assert all[..k] == all;
      }
    }
  }

  lemma BalancedNone()
    ensures Balanced([])
  {
  }

  lemma BalancedShow(m: Meta)
    requires m.kind == Show
    ensures Balanced([m])
  {
    assert [m][..0] == [] && [m][..1] == [m];
  }

  lemma {:induction false} MetasNone(pieces: seq<Piece>)
    requires forall i :: 0 <= i < |pieces| ==> !pieces[i].Probe?
    ensures Metas(pieces) == []
  {
    if pieces != [] {
      MetasNone(pieces[..|pieces| - 1]);
    }
  }

  /** The opening and closing entries of any instrumented tree form a balanced word. */
  lemma {:induction false} EmitBalanced(node: Node)
    ensures Balanced(Metas(Emit(node)))
    decreases node, 3
  {
    hide Balanced, Metas;
    if node.Leaf? {
      EmitPlainBalanced(node);
    } else {
      match node.kind {
        case CodeBlock => EmitBlockBalanced(node);
        case WhileLoop(body) => EmitBodiesBalanced(node.children, body, DETACHED);
        case ForLoop(body) => EmitBodiesBalanced(node.children, body, DETACHED);
        case Conditional(ifBody, elseBody) => EmitBodiesBalanced(node.children, ifBody, SpanOr(elseBody));
        case Closure(body) => EmitBodiesBalanced(node.children, body, DETACHED);
        case ShowRule(transform, isSet) => EmitShowBalanced(node.children, transform, isSet);
        case Contextual(_) => ContextualBalanced(node);
        case Other => EmitPlainBalanced(node);
      }
    }
  }

  lemma {:induction false} ContextualBalanced(node: Node)
    requires node.Inner? && node.kind.Contextual?
    ensures Balanced(Metas(Emit(node)))
    decreases node, 2
  {
    hide Balanced, Metas, Emit;
    var i := node.kind.child;
    if i < |node.children| {
      EmitBalanced(node.children[i]);
    } else {
      NoMetas();
      BalancedNone();
    }
    EmitContextual(node);
    MetasAround([Added("context (")], EmitInside(node), [Added(")")]);
    MetasOne(Added("context ("));
    MetasOne(Added(")"));
    assert Metas(Emit(node)) == Metas(EmitInside(node));
  }

  lemma NoMetas()
    ensures Metas([]) == []
  {
  }

  lemma MetasOne(p: Piece)
    ensures Metas([p]) == if p.Probe? then [p.meta] else []
  {
    assert [p][..0] == [];
  }

  lemma MetasTwo(p: Piece, q: Piece)
    ensures Metas([p, q]) == Metas([p]) + Metas([q])
  {
    assert [p, q] == [p] + [q];
    MetasConcat([p], [q]);
  }

  lemma MetasThree(p: Piece, q: Piece, r: Piece)
    ensures Metas([p, q, r]) == Metas([p]) + Metas([q]) + Metas([r])
  {
    assert [p, q, r] == [p] + [q] + [r];
    MetasAround([p], [q], [r]);
  }

  lemma MetasAround(a: seq<Piece>, b: seq<Piece>, c: seq<Piece>)
    ensures Metas(a + b + c) == Metas(a) + Metas(b) + Metas(c)
  {
    MetasConcat(a + b, c);
    MetasConcat(a, b);
  }

  lemma {:induction false} EmitPlainBalanced(node: Node)
    ensures Balanced(Metas(EmitPlain(node)))
    decreases node, 1
  {
    BalancedNone();
    if node.Inner? {
      EmitAllBalanced(node.children);
    } else {
      MetasNone(EmitPlain(node));
    }
  }

  lemma {:induction false} EmitAllBalanced(nodes: seq<Node>)
    ensures Balanced(Metas(EmitAll(nodes)))
    decreases nodes, 0
  {
    BalancedNone();
    if nodes != [] {
      var k := |nodes| - 1;
      EmitAllBalanced(nodes[..k]);
      EmitBalanced(nodes[k]);
      MetasConcat(EmitAll(nodes[..k]), Emit(nodes[k]));
      BalancedConcat(Metas(EmitAll(nodes[..k])), Metas(Emit(nodes[k])));
    }
  }

  lemma {:induction false} EmitBlockBalanced(node: Node)
    ensures Balanced(Metas(EmitBlock(node)))
    decreases node, 2
  {
    hide Balanced;
    var open, close := Meta(First(node), OpenBrace), Meta(Last(node), CloseBrace);
    EmitPlainBalanced(node);
    BalancedWrap(open, Metas(EmitPlain(node)), close);
    MetasAround([Added("{\n"), Probe(open)], EmitPlain(node), [Added("\n"), Probe(close), Added("}")]);
    MetasTwo(Added("{\n"), Probe(open));
    MetasThree(Added("\n"), Probe(close), Added("}"));
    MetasOne(Added("{\n"));
    MetasOne(Probe(open));
    MetasOne(Added("\n"));
    MetasOne(Probe(close));
    MetasOne(Added("}"));
  }

  lemma {:induction false} EmitBodiesBalanced(nodes: seq<Node>, body: Span, other: Span)
    ensures Balanced(Metas(EmitBodies(nodes, body, other)))
    decreases nodes, 0
  {
    BalancedNone();
    if nodes != [] {
      var k := |nodes| - 1;
      EmitBodiesBalanced(nodes[..k], body, other);
      EmitBalanced(nodes[k]);
      EmitBlockBalanced(nodes[k]);
      var rest := EmitBodies(nodes[..k], body, other);
      MetasConcat(rest, EmitBlock(nodes[k]));
      MetasConcat(rest, Emit(nodes[k]));
      BalancedConcat(Metas(rest), Metas(EmitBlock(nodes[k])));
      BalancedConcat(Metas(rest), Metas(Emit(nodes[k])));
    }
  }

  lemma {:induction false} EmitShowBalanced(nodes: seq<Node>, transform: Span, isSet: bool)
    ensures Balanced(Metas(EmitShow(nodes, transform, isSet)))
    decreases nodes, 0
  {
    BalancedNone();
    if nodes != [] {
      var k := |nodes| - 1;
      EmitShowBalanced(nodes[..k], transform, isSet);
      EmitBalanced(nodes[k]);
      EmitTransformBalanced(nodes[k], isSet);
      var rest := EmitShow(nodes[..k], transform, isSet);
      MetasConcat(rest, EmitTransform(nodes[k], isSet));
      MetasConcat(rest, Emit(nodes[k]));
      BalancedConcat(Metas(rest), Metas(EmitTransform(nodes[k], isSet)));
      BalancedConcat(Metas(rest), Metas(Emit(nodes[k])));
    }
  }

  lemma MetasShow(a: string, inside: seq<Piece>, b: string, c: string, m: Meta)
    ensures Metas([Added(a), Probe(m)] + inside + [Added(b)]) == [m] + Metas(inside)
    ensures Metas([Added(a)] + inside + [Added(b), Probe(m), Added(c)]) == Metas(inside) + [m]
  {
    hide Metas;
    MetasAround([Added(a), Probe(m)], inside, [Added(b)]);
    MetasAround([Added(a)], inside, [Added(b), Probe(m), Added(c)]);
    MetasTwo(Added(a), Probe(m));
    MetasThree(Added(b), Probe(m), Added(c));
    MetasOne(Probe(m));
    MetasOne(Added(a));
    MetasOne(Added(b));
    MetasOne(Added(c));
    assert [] + [m] == [m] && [] + Metas(inside) == Metas(inside) && [] + [m] + [] == [m];
    assert [m] + Metas(inside) + [] == [m] + Metas(inside);
  }

  lemma EmitTransformBalanced(node: Node, isSet: bool)
    requires Balanced(Metas(Emit(node)))
    ensures Balanced(Metas(EmitTransform(node, isSet)))
  {
    var m := Meta(node.span, Show);
    BalancedShow(m);
    BalancedConcat([m], Metas(Emit(node)));
    BalancedConcat(Metas(Emit(node)), [m]);
    MetasShow(SHOW_SET_OPEN, Emit(node), SHOW_SET_CLOSE, "", m);
    MetasShow(SHOW_OPEN, Emit(node), SHOW_MIDDLE, SHOW_CLOSE, m);
  }
}
