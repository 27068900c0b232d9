/** The coverage instrumentation worker and the coverage map, proved against the pieces of
    CoverageModel. */
module Coverage {
  import opened Options
  import opened Sequences
  import opened CoverageModel
  import Decimal

  datatype Output = Output(meta: seq<Meta>, text: string)

  /** The pieces were appended: their text, and the entries of their probes. */
  ghost predicate Wrote(before: Output, after: Output, pieces: seq<Piece>) {
    && after.text == before.text + Render(pieces, |before.meta|)
    && after.meta == before.meta + Metas(pieces)
  }

  lemma WroteNone(o: Output)
    ensures Wrote(o, o, [])
  {
  }

  lemma WroteFirst(o: Output, pieces: seq<Piece>)
    requires Wrote(Output([], ""), o, pieces)
    ensures o == Output(Metas(pieces), Render(pieces, 0))
  {
    assert [] + Metas(pieces) == Metas(pieces) && "" + Render(pieces, 0) == Render(pieces, 0);
  }

  lemma WroteThen(o0: Output, o1: Output, o2: Output, a: seq<Piece>, b: seq<Piece>)
    requires Wrote(o0, o1, a) && Wrote(o1, o2, b)
    ensures Wrote(o0, o2, a + b)
  {
    RenderConcat(a, b, |o0.meta|);
    MetasConcat(a, b);
    Associate(o0.text, Render(a, |o0.meta|), Render(b, |o1.meta|));
    Associate(o0.meta, Metas(a), Metas(b));
  }

  class InstrumentWorker {
    var meta: seq<Meta>
    var instrumented: string

    ghost function Now(): Output
      reads this
    {
      Output(meta, instrumented)
    }

    constructor ()
      ensures meta == [] && instrumented == ""
    {
      meta, instrumented := [], "";
    }

    method PushStr(text: string, ghost piece: Piece)
      requires piece == Added(text) || piece == Source(text)
      modifies this
      ensures Wrote(old(Now()), Now(), [piece])
    {
      assert [piece][..0] == [];
      instrumented := instrumented + text;
    }

    method MakeCov(span: Span, kind: ProbeKind)
      modifies this
      ensures Wrote(old(Now()), Now(), [Probe(Meta(span, kind))])
    {
      var it := |meta|;
      assert [Probe(Meta(span, kind))][..0] == [];
      meta := meta + [Meta(span, kind)];
      instrumented := instrumented + "__cov_pc(";
      instrumented := instrumented + Decimal.Print(it);
      instrumented := instrumented + ");\n";
      assert instrumented == old(instrumented) + ProbeText(it);
    }

    method VisitNode(node: Node)
      modifies this
      ensures Wrote(old(Now()), Now(), Emit(node))
      decreases node, 3
    {
      hide Wrote, EmitPlain, EmitBlock, EmitBodies, EmitShow;
      if node.Leaf? {
        VisitNodeFallback(node);
        return;
      }
      match node.kind {
        case CodeBlock => InstrumentBlock(node);
        case WhileLoop(body) => InstrumentBlockChild(node.children, body, DETACHED);
        case ForLoop(body) => InstrumentBlockChild(node.children, body, DETACHED);
        case Conditional(ifBody, elseBody) =>
          InstrumentBlockChild(node.children, ifBody, if elseBody.Some? then elseBody.value else DETACHED);
        case Closure(body) => InstrumentBlockChild(node.children, body, DETACHED);
        case ShowRule(transform, isSet) => VisitShowRule(node.children, transform, isSet);
        case Contextual(i) => VisitContextual(node, i);
        case Other => VisitNodeFallback(node);
      }
    }

    method VisitNodeFallback(node: Node)
      modifies this
      ensures Wrote(old(Now()), Now(), EmitPlain(node))
      decreases node, 1
    {
      WroteNone(Now());
      match node {
        case Leaf(_, text) =>
          if text != "" {
            PushStr(text, Source(text));
          }
        case Inner(_, _, children) => VisitChildren(children);
      }
    }

    method VisitChildren(nodes: seq<Node>)
      modifies this
      ensures Wrote(old(Now()), Now(), EmitAll(nodes))
      decreases nodes, 0
    {
      hide Wrote, Emit;
      ghost var o := Now();
      WroteNone(o);
      for i := 0 to |nodes|
        invariant Wrote(o, Now(), EmitAll(nodes[..i]))
      {
        ghost var o1 := Now();
        VisitNode(nodes[i]);
        WroteThen(o, o1, Now(), EmitAll(nodes[..i]), Emit(nodes[i]));
        assert nodes[..i + 1][..i] == nodes[..i];
      }
      assert nodes[..|nodes|] == nodes;
    }

    method VisitContextual(node: Node, i: nat)
      requires node.Inner? && node.kind == Contextual(i)
      modifies this
      ensures Wrote(old(Now()), Now(), Emit(node))
      decreases node, 2
    {
      EmitContextual(node);
      hide Wrote, Emit;
      ghost var o, open, close := Now(), Added("context ("), Added(")");
      PushStr("context (", open);
      ghost var o1, inside := Now(), EmitInside(node);
      WroteNone(o1);
      if i < |node.children| {
        VisitNode(node.children[i]);
      }
      WroteThen(o, o1, Now(), [open], inside);
      ghost var o2 := Now();
      PushStr(")", close);
      WroteThen(o, o2, Now(), [open] + inside, [close]);
    }

    /** The children of a construct, those with the spans of its bodies as blocks. */
    method InstrumentBlockChild(container: seq<Node>, b1: Span, b2: Span)
      modifies this
      ensures Wrote(old(Now()), Now(), EmitBodies(container, b1, b2))
      decreases container, 0
    {
      hide Wrote, Emit, EmitBlock;
      ghost var o := Now();
      WroteNone(o);
      for i := 0 to |container|
        invariant Wrote(o, Now(), EmitBodies(container[..i], b1, b2))
      {
        var child := container[i];
        ghost var o1, pieces := Now(), Emit(child);
        if b1 == child.span || b2 == child.span {
          InstrumentBlock(child);
          pieces := EmitBlock(child);
        } else {
          VisitNode(child);
        }
        WroteThen(o, o1, Now(), EmitBodies(container[..i], b1, b2), pieces);
        assert container[..i + 1][..i] == container[..i];
      }
      assert container[..|container|] == container;
    }

    /** A block in braces of its own, between two probes. */
    method InstrumentBlock(child: Node)
      modifies this
      ensures Wrote(old(Now()), Now(), EmitBlock(child))
      decreases child, 2
    {
      var children := if child.Inner? then child.children else [];
      var first := if children == [] then DETACHED else children[0].span;
      var last := if |children| < 2 then DETACHED else children[|children| - 1].span;
      ghost var o, opening := Now(), [Added("{\n"), Probe(Meta(first, OpenBrace))];
      OpenBlock(first);
      ghost var o1 := Now();
      VisitNodeFallback(child);
      WroteThen(o, o1, Now(), opening, EmitPlain(child));
      ghost var o2 := Now();
      CloseBlock(last);
      WroteThen(o, o2, Now(), opening + EmitPlain(child),
                [Added("\n"), Probe(Meta(last, CloseBrace)), Added("}")]);
    }

    method OpenBlock(first: Span)
      modifies this
      ensures Wrote(old(Now()), Now(), [Added("{\n"), Probe(Meta(first, OpenBrace))])
    {
      ghost var o, open, probe := Now(), Added("{\n"), Probe(Meta(first, OpenBrace));
      PushStr("{\n", open);
      ghost var o1 := Now();
      MakeCov(first, OpenBrace);
      WroteThen(o, o1, Now(), [open], [probe]);
      assert [open] + [probe] == [open, probe];
    }

    method CloseBlock(last: Span)
      modifies this
      ensures Wrote(old(Now()), Now(), [Added("\n"), Probe(Meta(last, CloseBrace)), Added("}")])
    {
      ghost var o, line, probe, close := Now(), Added("\n"), Probe(Meta(last, CloseBrace)), Added("}");
      PushStr("\n", line);
      ghost var o1 := Now();
      MakeCov(last, CloseBrace);
      WroteThen(o, o1, Now(), [line], [probe]);
      ghost var o2 := Now();
      PushStr("}", close);
      WroteThen(o, o2, Now(), [line] + [probe], [close]);
      assert [line] + [probe] + [close] == [line, probe, close];
    }

    method VisitShowRule(nodes: seq<Node>, transform: Span, isSet: bool)
      modifies this
      ensures Wrote(old(Now()), Now(), EmitShow(nodes, transform, isSet))
      decreases nodes, 0
    {
      hide Wrote, Emit, EmitTransform;
      ghost var o := Now();
      WroteNone(o);
      for i := 0 to |nodes|
        invariant Wrote(o, Now(), EmitShow(nodes[..i], transform, isSet))
      {
        var child := nodes[i];
        ghost var o1, pieces := Now(), Emit(child);
        if transform == child.span {
          if isSet {
            InstrumentShowSet(child);
          } else {
            InstrumentShowTransform(child);
          }
          pieces := EmitTransform(child, isSet);
        } else {
          VisitNode(child);
        }
        WroteThen(o, o1, Now(), EmitShow(nodes[..i], transform, isSet), pieces);
        assert nodes[..i + 1][..i] == nodes[..i];
      }
      assert nodes[..|nodes|] == nodes;
    }

    method InstrumentShowSet(child: Node)
      modifies this
      ensures Wrote(old(Now()), Now(), EmitTransform(child, true))
      decreases child, 4
    {
      hide Wrote, Emit;
      ghost var o, probe := Now(), Probe(Meta(child.span, Show));
      PushStr(SHOW_SET_OPEN, Added(SHOW_SET_OPEN));
      ghost var o1 := Now();
      MakeCov(child.span, Show);
      WroteThen(o, o1, Now(), [Added(SHOW_SET_OPEN)], [probe]);
      ghost var o2 := Now();
      VisitNode(child);
      WroteThen(o, o2, Now(), [Added(SHOW_SET_OPEN)] + [probe], Emit(child));
      ghost var o3 := Now();
      PushStr(SHOW_SET_CLOSE, Added(SHOW_SET_CLOSE));
      WroteThen(o, o3, Now(), [Added(SHOW_SET_OPEN)] + [probe] + Emit(child), [Added(SHOW_SET_CLOSE)]);
      assert [Added(SHOW_SET_OPEN)] + [probe] == [Added(SHOW_SET_OPEN), probe];
    }

    method InstrumentShowTransform(child: Node)
      modifies this
      ensures Wrote(old(Now()), Now(), EmitTransform(child, false))
      decreases child, 4
    {
      hide Wrote, Emit;
      ghost var o, probe := Now(), Probe(Meta(child.span, Show));
      PushStr(SHOW_OPEN, Added(SHOW_OPEN));
      ghost var o1 := Now();
      VisitNode(child);
      WroteThen(o, o1, Now(), [Added(SHOW_OPEN)], Emit(child));
      ghost var o2, inside := Now(), [Added(SHOW_OPEN)] + Emit(child);
      PushStr(SHOW_MIDDLE, Added(SHOW_MIDDLE));
      WroteThen(o, o2, Now(), inside, [Added(SHOW_MIDDLE)]);
      ghost var o3 := Now();
      MakeCov(child.span, Show);
      WroteThen(o, o3, Now(), inside + [Added(SHOW_MIDDLE)], [probe]);
      ghost var o4 := Now();
      PushStr(SHOW_CLOSE, Added(SHOW_CLOSE));
      WroteThen(o, o4, Now(), inside + [Added(SHOW_MIDDLE)] + [probe], [Added(SHOW_CLOSE)]);
      assert inside + [Added(SHOW_MIDDLE)] + [probe] + [Added(SHOW_CLOSE)] == EmitTransform(child, false);
    }
  }

  type FileId = nat

  /** A hit counter is a byte and does not wrap around. */
  newtype Count = c: int | 0 <= c < 256

  function Bump(c: Count): (r: Count)
    ensures r as int == Least(c as int + 1)
  {
    if c == 255 then c else c + 1
  }

  function Least(n: int): int {
    if n < 255 then n else 255
  }

  /** How often probe k of file f was called in an execution. */
  function Times(calls: seq<(FileId, nat)>, f: FileId, k: nat): nat {
    if calls == [] then 0
    else Times(calls[..|calls| - 1], f, k) + if calls[|calls| - 1] == (f, k) then 1 else 0
  }

  ghost predicate InRange(counts: map<FileId, seq<Count>>, calls: seq<(FileId, nat)>) {
    forall i :: 0 <= i < |calls| ==> calls[i].0 in counts && calls[i].1 < |counts[calls[i].0]|
  }

  function BumpAt(counts: map<FileId, seq<Count>>, f: FileId, k: nat): map<FileId, seq<Count>>
    requires f in counts && k < |counts[f]|
  {
    counts[f := counts[f][k := Bump(counts[f][k])]]
  }

  /** What a run of calls makes of the counters: the number of calls of each probe is added
      to its counter, which stops at 255. */
  ghost predicate Counted(counts: map<FileId, seq<Count>>, after: map<FileId, seq<Count>>,
                          calls: seq<(FileId, nat)>) {
    && after.Keys == counts.Keys
    && (forall f :: f in counts ==> |after[f]| == |counts[f]|)
    && forall f, k: nat :: f in counts && k < |counts[f]| ==>
         after[f][k] as int == Least(counts[f][k] as int + Times(calls, f, k))
  }

  lemma CountedNone(counts: map<FileId, seq<Count>>)
    ensures Counted(counts, counts, [])
  {
  }

  lemma CountedPush(counts: map<FileId, seq<Count>>, after: map<FileId, seq<Count>>,
                    calls: seq<(FileId, nat)>, f: FileId, k: nat)
    requires Counted(counts, after, calls) && f in counts && k < |counts[f]|
    ensures f in after && k < |after[f]|
    ensures Counted(counts, BumpAt(after, f, k), calls + [(f, k)])
  {
    assert (calls + [(f, k)])[..|calls|] == calls;
  }

  /** What happened to a map: registrations of files and calls of their probes. */
  datatype Event = Registered(file: FileId) | Called(file: FileId)

  /** The file of the last call. */
  function LastCalled(history: seq<Event>): Option<FileId> {
    if history == [] then None
    else
      var last := history[|history| - 1];
      if last.Called? then Some(last.file) else LastCalled(history[..|history| - 1])
  }

  /** Whether the region kept aside is out of date: a registration of its file makes it so,
      a call of another file replaces it, a call of the same file changes nothing. */
  predicate IsStale(history: seq<Event>) {
    if history == [] then false
    else
      var rest, last := history[..|history| - 1], history[|history| - 1];
      if last.Registered? then LastCalled(rest) == Some(last.file) || IsStale(rest)
      else LastCalled(rest) == Some(last.file) && IsStale(rest)
  }

  /** The file called last was registered again after a call of it, and no other file was
      called since that call. */
  ghost predicate Outdated(history: seq<Event>) {
    exists i, j :: 0 <= i < j < |history| && OutdatedBy(history, i, j)
  }

  ghost predicate OutdatedBy(history: seq<Event>, i: nat, j: nat)
    requires i < j < |history|
  {
    && history[i].Called? && history[j] == Registered(history[i].file)
    && forall k :: i < k < |history| && history[k].Called? ==> history[k].file == history[i].file
  }

  lemma {:induction false} LastCalledIs(history: seq<Event>, i: nat)
    requires i < |history| && history[i].Called?
    requires forall k :: i < k < |history| && history[k].Called? ==> history[k].file == history[i].file
    ensures LastCalled(history) == Some(history[i].file)
  {
    if i < |history| - 1 {
      LastCalledIs(history[..|history| - 1], i);
    }
  }

  lemma {:induction false} LastCallAt(history: seq<Event>) returns (i: nat)
    requires LastCalled(history).Some?
    ensures i < |history| && history[i] == Called(LastCalled(history).value)
    ensures forall k :: i < k < |history| ==> history[k].Registered?
  {
    var n := |history| - 1;
    if history[n].Called? {
      i := n;
    } else {
      i := LastCallAt(history[..n]);
    }
  }

  /** A call of the file called last leaves things as they are, one of another file makes
      them new. */
  lemma OutdatedCall(history: seq<Event>, f: FileId)
    ensures LastCalled(history + [Called(f)]) == Some(f)
    ensures Outdated(history + [Called(f)]) <==> Outdated(history) && LastCalled(history) == Some(f)
  {
    var after := history + [Called(f)];
    assert after[..|history|] == history;
    if i, j :| 0 <= i < j < |history| && OutdatedBy(history, i, j) {
      LastCalledIs(history, i);
      assert history[i].file == f ==> OutdatedBy(after, i, j);
    }
    if i, j :| 0 <= i < j < |after| && OutdatedBy(after, i, j) {
      assert after[|history|].file == f;
      assert forall k :: i < k < |history| ==> history[k] == after[k];
      assert OutdatedBy(history, i, j);
      LastCalledIs(history, i);
    }
  }

  /** A registration of the file called last makes it out of date. */
  lemma OutdatedRegister(history: seq<Event>, f: FileId)
    ensures LastCalled(history + [Registered(f)]) == LastCalled(history)
    ensures Outdated(history + [Registered(f)]) <==> Outdated(history) || LastCalled(history) == Some(f)
  {
    var after := history + [Registered(f)];
    assert after[..|history|] == history;
    if i, j :| 0 <= i < j < |history| && OutdatedBy(history, i, j) {
      assert OutdatedBy(after, i, j);
    }
    if LastCalled(history) == Some(f) {
      var i := LastCallAt(history);
      assert OutdatedBy(after, i, |history|);
    }
    if i, j :| 0 <= i < j < |after| && OutdatedBy(after, i, j) {
      assert forall k :: i < k < |history| ==> history[k] == after[k];
      LastCalledIs(history, i);
      assert j < |history| ==> OutdatedBy(history, i, j);
    }
  }

  lemma {:induction false} IsStaleIff(history: seq<Event>)
    ensures IsStale(history) <==> Outdated(history)
  {
    if history != [] {
      var n := |history| - 1;
      IsStaleIff(history[..n]);
      assert history == history[..n] + [history[n]];
      if history[n].Called? {
        OutdatedCall(history[..n], history[n].file);
      } else {
        OutdatedRegister(history[..n], history[n].file);
      }
    }
  }

  lemma StalePush(history: seq<Event>, e: Event)
    ensures LastCalled(history + [e]) == if e.Called? then Some(e.file) else LastCalled(history)
    ensures IsStale(history + [e]) ==
      if e.Called? then LastCalled(history) == Some(e.file) && IsStale(history)
      else LastCalled(history) == Some(e.file) || IsStale(history)
  {
    assert (history + [e])[..|history|] == history;
  }

  /** The counters of all instrumented files, with the region hit last kept aside. */
  class CoverageMap {
    var lastHit: Option<(FileId, array<Count>)>
    var regions: map<FileId, array<Count>>
    /** All registrations and calls so far. */
    ghost var history: seq<Event>

    constructor ()
      ensures Valid() && Traced() && regions == map[] && history == []
    {
      lastHit, regions, history := None, map[], [];
    }

    /** The region kept aside is that of the file called last, and it is the registered one
        unless the history made it out of date. */
    ghost predicate Traced()
      reads this
    {
      && LastCalled(history) == (if lastHit.Some? then Some(lastHit.value.0) else None)
      && (lastHit.Some? ==>
            && lastHit.value.0 in regions
            && (regions[lastHit.value.0] == lastHit.value.1 <==> !IsStale(history)))
    }

    /** The region kept aside is the registered one, and files do not share regions. */
    ghost predicate Valid()
      reads this
    {
      && (lastHit.Some? ==> lastHit.value.0 in regions && regions[lastHit.value.0] == lastHit.value.1)
      && forall f, g :: f in regions && g in regions && f != g ==> regions[f] != regions[g]
    }

    predicate Cached(f: FileId)
      reads this
    {
      lastHit.Some? && lastHit.value.0 == f
    }

    /** The region a hit of the file goes to. */
    function Target(f: FileId): array<Count>
      requires Cached(f) || f in regions
      reads this
    {
      if Cached(f) then lastHit.value.1 else regions[f]
    }

    /** After any registrations and calls, a call of a registered file misses its registered
        region iff the file is the one called last and was registered again after a call,
        with no call of another file since. */
    lemma StaleIff(f: FileId)
      requires Traced() && f in regions
      ensures Target(f) != regions[f] <==> LastCalled(history) == Some(f) && Outdated(history)
    {
      IsStaleIff(history);
    }

    lemma NotCached(f: FileId)
      requires Valid() && f !in regions
      ensures !Cached(f)
    {
    }

    /** The probe function. Calls without a file are ignored; an index out of range would
        be a panic. */
    method CovPc(file: Option<FileId>, pc: nat)
      requires file.Some? ==> Cached(file.value) || file.value in regions
      requires file.Some? ==> pc < Target(file.value).Length
      modifies `lastHit, `history, if file.Some? then {Target(file.value)} else {}
      ensures file.None? ==> lastHit == old(lastHit) && history == old(history)
      ensures file.Some? ==> history == old(history) + [Called(file.value)]
      ensures old(Traced()) ==> Traced()
      ensures file.Some? ==> lastHit == Some((file.value, old(Target(file.value))))
      ensures file.Some? ==>
        var region := old(Target(file.value)); region[..] == old(region[..])[pc := Bump(old(region[pc]))]
    {
      if file.None? {
        return;
      }
      hide IsStale, LastCalled;
      StalePush(history, Called(file.value));
      history := history + [Called(file.value)];
      if lastHit.Some? && lastHit.value.0 == file.value {
        var hits := lastHit.value.1;
        hits[pc] := Bump(hits[pc]);
        return;
      }
      var region := regions[file.value];
      region[pc] := Bump(region[pc]);
      lastHit := Some((file.value, region));
    }

    /** Registers a file with all counters at zero. A file hit last must not be registered
        again: the cache would keep its old region. */
    method Insert(f: FileId, n: nat)
      modifies `regions, `history
      ensures history == old(history) + [Registered(f)] && (old(Traced()) ==> Traced())
      ensures f in regions && fresh(regions[f]) && regions == old(regions)[f := regions[f]]
      ensures regions[f].Length == n && forall k :: 0 <= k < n ==> regions[f][k] == 0
      ensures old(Valid()) ==> (Valid() <==> !Cached(f))
    {
      hide IsStale, LastCalled;
      var hits := new Count[n](_ => 0);
      regions := regions[f := hits];
      StalePush(history, Registered(f));
      history := history + [Registered(f)];
    }

    ghost function Lengths(): map<FileId, nat>
      reads this
    {
      map f | f in regions :: regions[f].Length
    }

    ghost function Counts(): map<FileId, seq<Count>>
      reads this, regions.Values
    {
      map f | f in regions :: regions[f][..]
    }

    /** A call of a probe of a registered file. */
    method Hit(f: FileId, k: nat)
      requires Valid() && f in regions && k < regions[f].Length
      modifies `lastHit, `history, regions.Values
      ensures Valid() && Counts() == BumpAt(old(Counts()), f, k)
      ensures history == old(history) + [Called(f)] && (old(Traced()) ==> Traced())
    {
      assert regions[f] in regions.Values;
      CovPc(Some(f), k);
      assert forall g :: g in regions && g != f ==> regions[g] != regions[f];
    }

    /** An execution of instrumented text calls its probes in some order. Every counter
        ends up with the number of calls of its probe, up to 255, whatever the order and
        whichever calls take the region kept aside. */
    method Execute(calls: seq<(FileId, nat)>)
      requires Valid() && InRange(Counts(), calls)
      modifies `lastHit, `history, regions.Values
      ensures Valid() && Counted(old(Counts()), Counts(), calls)
      ensures old(Traced()) ==> Traced()
    {
      hide Counted, BumpAt, Traced;
      ghost var start := Counts();
      CountedNone(start);
      for i := 0 to |calls|
        invariant Valid() && Counted(start, Counts(), calls[..i])
        invariant old(Traced()) ==> Traced()
      {
        assert calls[i].0 in start && calls[i].1 < |start[calls[i].0]|;
        CountedPush(start, Counts(), calls[..i], calls[i].0, calls[i].1);
        Hit(calls[i].0, calls[i].1);
        assert calls[..i + 1] == calls[..i] + [calls[i]];
      }
      assert calls[..|calls|] == calls;
    }
  }

  /** Every instrumented file has its text, its entries and a counter for each probe in its
      text; files that cannot be read have none. */
  ghost predicate FilesOk(base: map<FileId, Node>, instrumented: map<FileId, Option<string>>,
                          metas: map<FileId, seq<Meta>>, lengths: map<FileId, nat>) {
    && metas.Keys == lengths.Keys && metas.Keys <= base.Keys * instrumented.Keys
    && (forall f :: f in instrumented ==> if f in base then f in metas else instrumented[f] == None)
    && (forall f :: f in metas ==> metas[f] == Metas(Emit(base[f])))
    && (forall f :: f in metas ==> instrumented[f] == Some(Render(Emit(base[f]), 0)))
    && (forall f :: f in metas ==> lengths[f] == |metas[f]|)
  }

  lemma NotAddedYet(base: map<FileId, Node>, instrumented: map<FileId, Option<string>>,
                    metas: map<FileId, seq<Meta>>, lengths: map<FileId, nat>, id: FileId)
    requires FilesOk(base, instrumented, metas, lengths) && id !in instrumented
    ensures id !in lengths
  {
  }

  lemma FilesOkAdd(base: map<FileId, Node>, instrumented: map<FileId, Option<string>>,
                   metas: map<FileId, seq<Meta>>, lengths: map<FileId, nat>, id: FileId)
    requires FilesOk(base, instrumented, metas, lengths) && id in base && id !in instrumented
    ensures var entries := Metas(Emit(base[id]));
      FilesOk(base, instrumented[id := Some(Render(Emit(base[id]), 0))], metas[id := entries], lengths[id := |entries|])
  {
    hide Emit, Render, Metas;
  }

  /** Instruments each file once, when it is first asked for, and remembers the answer. */
  class InstrumentWorld {
    /** The files that can be read. */
    const base: map<FileId, Node>
    var instrumented: map<FileId, Option<string>>
    var metas: map<FileId, seq<Meta>>
    const coverage: CoverageMap

    constructor (base: map<FileId, Node>)
      ensures Valid() && this.base == base && fresh(coverage) && instrumented == map[]
    {
      this.base := base;
      instrumented, metas := map[], map[];
      coverage := new CoverageMap();
    }

    ghost predicate Valid()
      reads this, coverage
    {
      coverage.Valid() && coverage.Traced() && FilesOk(base, instrumented, metas, coverage.Lengths())
    }

    /** Instruments a file and registers its counters, all at zero. */
    method Instrument(id: FileId) returns (text: string)
      requires id in base
      modifies `metas, coverage`regions, coverage`history
      ensures text == Render(Emit(base[id]), 0) && metas == old(metas)[id := Metas(Emit(base[id]))]
      ensures id in coverage.regions && fresh(coverage.regions[id])
      ensures coverage.regions == old(coverage.regions)[id := coverage.regions[id]]
      ensures coverage.regions[id].Length == |metas[id]|
      ensures forall k :: 0 <= k < |metas[id]| ==> coverage.regions[id][k] == 0
      ensures old(coverage.Valid()) ==> (coverage.Valid() <==> !coverage.Cached(id))
      ensures old(coverage.Traced()) ==> coverage.Traced()
    {
      hide Emit, Render, Metas;
      var worker := new InstrumentWorker();
      worker.VisitNode(base[id]);
      WroteFirst(worker.Now(), Emit(base[id]));
      text := worker.instrumented;
      metas := metas[id := worker.meta];
      coverage.Insert(id, |worker.meta|);
    }

    /** The first request for a file that can be read. */
    method Add(id: FileId) returns (text: string)
      requires Valid() && id in base && id !in instrumented
      modifies this, coverage
      ensures Valid() && text == Render(Emit(base[id]), 0)
      ensures forall f :: f in old(coverage.regions) ==>
        f in coverage.regions && coverage.regions[f] == old(coverage.regions)[f]
    {
      hide FilesOk, CoverageMap.Valid;
      NotAddedYet(base, instrumented, metas, coverage.Lengths(), id);
      coverage.NotCached(id);
      text := Instrument(id);
      assert coverage.Lengths() == old(coverage.Lengths())[id := |metas[id]|];
      FilesOkAdd(base, instrumented, old(metas), old(coverage.Lengths()), id);
      instrumented := instrumented[id := Some(text)];
    }

    method Source(id: FileId) returns (text: Option<string>)
      requires Valid()
      modifies this, coverage
      ensures Valid()
      ensures text == if id in base then Some(Render(Emit(base[id]), 0)) else None
      ensures forall f :: f in old(coverage.regions) ==>
        f in coverage.regions && coverage.regions[f] == old(coverage.regions)[f]
    {
      hide Emit, Render, Metas, CoverageMap.Valid;
      if id in instrumented {
        return instrumented[id];
      }
      if id in base {
        var rendered := Add(id);
        return Some(rendered);
      }
      text := None;
      instrumented := instrumented[id := None];
    }
  }

  /** Every probe in the text of an instrumented file passes an index that has a counter:
      that of its own entry. */
  lemma ProbesInRange(world: InstrumentWorld, f: FileId, i: nat)
    requires world.Valid() && f in world.metas
    requires i < |Emit(world.base[f])| && Emit(world.base[f])[i].Probe?
    ensures f in world.coverage.regions && f in world.instrumented && world.instrumented[f].Some?
    ensures var pieces := Emit(world.base[f]);
      var k := |Metas(pieces[..i])|;
      && k < world.coverage.regions[f].Length && world.metas[f][k] == pieces[i].meta
      && world.instrumented[f].value ==
           Render(pieces[..i], 0) + ProbeText(k) + Render(pieces[i + 1..], k + 1)
  {
    assert f in world.coverage.Lengths();
    ProbeIsNumbered(Emit(world.base[f]), i);
  }
}
