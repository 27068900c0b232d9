/** What a visit reaches, from the syntax tree alone: the linter visits a statement, or hands
    a function to the late pass, exactly when a path of parts leads there. */
module LintPaths {
  import opened Options
  import opened LintModel

  /** Where a part stands in its expression. */
  datatype Place =
    | Item(index: nat) | Callee | Arg(index: nat) | Param(index: nat) | Body | Init | Pattern | Assigned
    | Guard | Target | Selector | Transform | Condition | IfBody | ElseBody | Iterable | Result

  function Nth(es: seq<Expr>, i: nat): Option<Expr> {
    if i < |es| then Some(es[i]) else None
  }

  /** The part of an expression at a place. */
  function Part(e: Expr, at: Place): Option<Expr> {
    match e
    case Value => None
    case Group(items) => if at.Item? then Nth(items, at.index) else None
    case FuncCall(callee, args) =>
      if at.Callee? then Some(callee) else if at.Arg? then Nth(args, at.index) else None
    case Closure(_, params, body) =>
      if at.Body? then Some(body) else if at.Param? then Nth(params, at.index) else None
    case LetBinding(init) => if at.Init? then init else None
    case DestructAssignment(pattern, value) =>
      if at.Pattern? then Some(pattern) else if at.Assigned? then Some(value) else None
    case SetRule(guard, args, target) =>
      if at.Guard? then guard
      else if at.Arg? then Nth(args, at.index)
      else if at.Target? then Some(target) else None
    case ShowRule(selector, transform) =>
      if at.Selector? then selector else if at.Transform? then Some(transform) else None
    case Contextual(_, body) => if at.Body? then Some(body) else None
    case Conditional(condition, ifBody, elseBody) =>
      if at.Condition? then Some(condition)
      else if at.IfBody? then Some(ifBody)
      else if at.ElseBody? then elseBody else None
    case WhileLoop(_, condition, body) =>
      if at.Condition? then Some(condition) else if at.Body? then Some(body) else None
    case ForLoop(_, pattern, iterable, body) =>
      if at.Pattern? then Some(pattern)
      else if at.Iterable? then Some(iterable)
      else if at.Body? then Some(body) else None
    case LoopBreak(_) => None
    case LoopContinue(_) => None
    case FuncReturn(_, result) => if at.Result? then result else None
  }

  /** The frame the parts of an expression stand in. */
  function Around(e: Expr): seq<Frame> {
    match e
    case Closure(span, _, _) => [InFunc(span, false)]
    case Contextual(span, _) => [InFunc(span, true)]
    case WhileLoop(span, _, _) => [InLoop(span)]
    case ForLoop(span, _, _, _) => [InLoop(span)]
    case _ => []
  }

  /** The path leads from e, in the given frames, to the target in its frames. It goes
      through every part but the result of a return and the patterns of a for loop and an
      assignment. */
  ghost predicate Leads(e: Expr, stack: seq<Frame>, path: seq<Place>, target: Expr, inner: seq<Frame>)
    decreases |path|
  {
    if path == [] then target == e && inner == stack
    else
      && !path[0].Pattern? && !path[0].Result? && Part(e, path[0]).Some?
      && Leads(Part(e, path[0]).value, stack + Around(e), path[1..], target, inner)
  }

  ghost predicate Holds(e: Expr, stack: seq<Frame>, target: Expr, inner: seq<Frame>) {
    exists path :: Leads(e, stack, path, target, inner)
  }

  /** The expression is a statement that a visit reaches with these frames. */
  predicate Is(e: Expr, stack: seq<Frame>, v: Visit) {
    && v.stack == stack
    && match e
       case LoopBreak(span) => v.what == Break && v.span == span
       case LoopContinue(span) => v.what == Continue && v.span == span
       case FuncReturn(span, result) => v.what == Return(result.Some?) && v.span == span
       case _ => false
  }

  /** The visit reaches one of the parts of e. */
  ghost predicate InPart(e: Expr, stack: seq<Frame>, v: Visit, at: Place) {
    && !at.Pattern? && !at.Result? && Part(e, at).Some?
    && v in Visits(Part(e, at).value, stack + Around(e))
  }

  lemma {:induction false} VisitsAllIff(es: seq<Expr>, stack: seq<Frame>, v: Visit)
    ensures v in VisitsAll(es, stack) <==> exists i :: 0 <= i < |es| && v in Visits(es[i], stack)
  {
    hide Visits;
    if es != [] {
      var n := |es| - 1;
      VisitsAllIff(es[..n], stack, v);
      assert v in VisitsAll(es, stack) <==> v in VisitsAll(es[..n], stack) || v in Visits(es[n], stack);
      assert forall i :: 0 <= i < n ==> es[..n][i] == es[i];
    }
  }

  /** A part in a list. */
  lemma ListPart(es: seq<Expr>, stack: seq<Frame>, v: Visit) returns (i: nat)
    requires v in VisitsAll(es, stack)
    ensures i < |es| && v in Visits(es[i], stack)
  {
    VisitsAllIff(es, stack, v);
    i :| 0 <= i < |es| && v in Visits(es[i], stack);
  }

  /** What is visited is the statement itself or in a part. */
  lemma VisitedPart(e: Expr, stack: seq<Frame>, v: Visit) returns (at: Place)
    requires v in Visits(e, stack) && !Is(e, stack, v)
    ensures InPart(e, stack, v, at)
  {
    assert stack + [] == stack;
    match e
    case Value =>
    case Group(items) =>
      var i := ListPart(items, stack, v);
      at := Item(i);
    case FuncCall(callee, args) =>
      if v in Visits(callee, stack) {
        at := Callee;
      } else {
        var i := ListPart(args, stack, v);
        at := Arg(i);
      }
    case Closure(span, params, body) =>
      if v in Visits(body, stack + [InFunc(span, false)]) {
        at := Body;
      } else {
        var i := ListPart(params, stack + [InFunc(span, false)], v);
        at := Param(i);
      }
    case LetBinding(init) => at := Init;
    case DestructAssignment(_, value) => at := Assigned;
    case SetRule(guard, args, target) =>
      if v in Visits(target, stack) {
        at := Target;
      } else if v in VisitsAll(args, stack) {
        var i := ListPart(args, stack, v);
        at := Arg(i);
      } else {
        at := Guard;
      }
    case ShowRule(selector, transform) => at := if v in Visits(transform, stack) then Transform else Selector;
    case Contextual(span, body) => at := Body;
    case Conditional(condition, ifBody, elseBody) =>
      at := if v in Visits(condition, stack) then Condition
            else if v in Visits(ifBody, stack) then IfBody else ElseBody;
    case WhileLoop(span, condition, body) =>
      at := if v in Visits(body, stack + [InLoop(span)]) then Body else Condition;
    case ForLoop(span, _, iterable, body) =>
      at := if v in Visits(body, stack + [InLoop(span)]) then Body else Iterable;
    case LoopBreak(_) =>
    case LoopContinue(_) =>
    case FuncReturn(_, _) =>
  }

  lemma InList(es: seq<Expr>, i: nat, stack: seq<Frame>, v: Visit)
    requires i < |es| && v in Visits(es[i], stack)
    ensures v in VisitsAll(es, stack)
  {
    VisitsAllIff(es, stack, v);
  }

  /** What is in a part is visited. */
  lemma PartVisited(e: Expr, stack: seq<Frame>, v: Visit, at: Place)
    requires InPart(e, stack, v, at)
    ensures v in Visits(e, stack)
  {
    assert stack + [] == stack;
    match e
    case Group(items) => InList(items, at.index, stack, v);
    case FuncCall(callee, args) =>
      if at.Arg? {
        InList(args, at.index, stack, v);
      }
    case Closure(span, params, body) =>
      if at.Param? {
        InList(params, at.index, stack + [InFunc(span, false)], v);
      }
    case SetRule(guard, args, target) =>
      if at.Arg? {
        InList(args, at.index, stack, v);
      }
    case _ =>
  }

  lemma PartIsSmaller(e: Expr, at: Place)
    ensures Part(e, at).Some? ==> Part(e, at).value < e
  {
  }

  /** The traversal is complete: a statement is visited with these frames iff a path leads
      to it through them. */
  lemma {:induction false} VisitedIff(e: Expr, stack: seq<Frame>, v: Visit)
    ensures v in Visits(e, stack) <==> exists target :: Holds(e, stack, target, v.stack) && Is(target, v.stack, v)
    decreases e
  {
    if v in Visits(e, stack) {
      if Is(e, stack, v) {
        assert Leads(e, stack, [], e, stack);
        assert Holds(e, stack, e, v.stack);
      } else {
        var at := VisitedPart(e, stack, v);
        PartIsSmaller(e, at);
        VisitedIff(Part(e, at).value, stack + Around(e), v);
        var target :| Holds(Part(e, at).value, stack + Around(e), target, v.stack) && Is(target, v.stack, v);
        HoldsByPart(e, stack, at, target, v.stack);
      }
    }
    if target :| Holds(e, stack, target, v.stack) && Is(target, v.stack, v) {
      var path :| Leads(e, stack, path, target, v.stack);
      PathVisits(e, stack, path, target, v);
    }
  }

  lemma HoldsByPart(e: Expr, stack: seq<Frame>, at: Place, target: Expr, inner: seq<Frame>)
    requires !at.Pattern? && !at.Result? && Part(e, at).Some?
    requires Holds(Part(e, at).value, stack + Around(e), target, inner)
    ensures Holds(e, stack, target, inner)
  {
    hide Part, Around;
    var path :| Leads(Part(e, at).value, stack + Around(e), path, target, inner);
    assert ([at] + path)[1..] == path;
    assert Leads(e, stack, [at] + path, target, inner);
  }

  lemma {:induction false} PathVisits(e: Expr, stack: seq<Frame>, path: seq<Place>, target: Expr, v: Visit)
    requires Leads(e, stack, path, target, v.stack) && Is(target, v.stack, v)
    ensures v in Visits(e, stack)
    decreases |path|
  {
    if path == [] {
      IsVisited(e, stack, v);
    } else {
      hide Part, Around, Is;
      PathVisits(Part(e, path[0]).value, stack + Around(e), path[1..], target, v);
      PartVisited(e, stack, v, path[0]);
    }
  }

  lemma IsVisited(e: Expr, stack: seq<Frame>, v: Visit)
    requires Is(e, stack, v)
    ensures v in Visits(e, stack)
  {
  }

  // --------------------------------------------------------------- the late pass

  /** The record the late pass gets of a function. */
  predicate IsLate(e: Expr, stack: seq<Frame>, l: Late) {
    && (e.Closure? || e.Contextual?)
    && l == LateOf(InFunc(e.span, e.Contextual?), Visits(e, stack), |stack| + 1)
  }

  ghost predicate LateInPart(e: Expr, stack: seq<Frame>, l: Late, at: Place) {
    && !at.Pattern? && !at.Result? && Part(e, at).Some?
    && l in LatePasses(Part(e, at).value, stack + Around(e))
  }

  lemma {:induction false} LateAllIff(es: seq<Expr>, stack: seq<Frame>, l: Late)
    ensures l in LatePassesAll(es, stack) <==> exists i :: 0 <= i < |es| && l in LatePasses(es[i], stack)
  {
    hide LatePasses;
    if es != [] {
      var n := |es| - 1;
      LateAllIff(es[..n], stack, l);
      assert l in LatePassesAll(es, stack) <==> l in LatePassesAll(es[..n], stack) || l in LatePasses(es[n], stack);
      assert forall i :: 0 <= i < n ==> es[..n][i] == es[i];
    }
  }

  lemma LateListPart(es: seq<Expr>, stack: seq<Frame>, l: Late) returns (i: nat)
    requires l in LatePassesAll(es, stack)
    ensures i < |es| && l in LatePasses(es[i], stack)
  {
    LateAllIff(es, stack, l);
    i :| 0 <= i < |es| && l in LatePasses(es[i], stack);
  }

  lemma LatePart(e: Expr, stack: seq<Frame>, l: Late) returns (at: Place)
    requires l in LatePasses(e, stack) && !IsLate(e, stack, l)
    ensures LateInPart(e, stack, l, at)
  {
    hide Visits, LateOf, LatePassesAll;
    assert stack + [] == stack;
    match e
    case Value =>
    case Group(items) =>
      var i := LateListPart(items, stack, l);
      at := Item(i);
    case FuncCall(callee, args) =>
      if l in LatePasses(callee, stack) {
        at := Callee;
      } else {
        var i := LateListPart(args, stack, l);
        at := Arg(i);
      }
    case Closure(span, params, body) =>
      if l in LatePasses(body, stack + [InFunc(span, false)]) {
        at := Body;
      } else {
        var i := LateListPart(params, stack + [InFunc(span, false)], l);
        at := Param(i);
      }
    case LetBinding(init) => at := Init;
    case DestructAssignment(_, value) => at := Assigned;
    case SetRule(guard, args, target) =>
      if l in LatePasses(target, stack) {
        at := Target;
      } else if l in LatePassesAll(args, stack) {
        var i := LateListPart(args, stack, l);
        at := Arg(i);
      } else {
        at := Guard;
      }
    case ShowRule(selector, transform) => at := if l in LatePasses(transform, stack) then Transform else Selector;
    case Contextual(span, body) => at := Body;
    case Conditional(condition, ifBody, elseBody) =>
      at := if l in LatePasses(condition, stack) then Condition
            else if l in LatePasses(ifBody, stack) then IfBody else ElseBody;
    case WhileLoop(span, condition, body) =>
      at := if l in LatePasses(body, stack + [InLoop(span)]) then Body else Condition;
    case ForLoop(span, _, iterable, body) =>
      at := if l in LatePasses(body, stack + [InLoop(span)]) then Body else Iterable;
    case LoopBreak(_) =>
    case LoopContinue(_) =>
    case FuncReturn(_, _) =>
  }

  lemma LateInList(es: seq<Expr>, i: nat, stack: seq<Frame>, l: Late)
    requires i < |es| && l in LatePasses(es[i], stack)
    ensures l in LatePassesAll(es, stack)
  {
    LateAllIff(es, stack, l);
  }

  lemma PartIsLate(e: Expr, stack: seq<Frame>, l: Late, at: Place)
    requires LateInPart(e, stack, l, at)
    ensures l in LatePasses(e, stack)
  {
    hide Visits, LateOf;
    assert stack + [] == stack;
    match e
    case Group(items) => LateInList(items, at.index, stack, l);
    case FuncCall(callee, args) =>
      if at.Arg? {
        LateInList(args, at.index, stack, l);
      }
    case Closure(span, params, body) =>
      if at.Param? {
        LateInList(params, at.index, stack + [InFunc(span, false)], l);
      }
    case SetRule(guard, args, target) =>
      if at.Arg? {
        LateInList(args, at.index, stack, l);
      }
    case _ =>
  }

  lemma OwnLate(e: Expr, stack: seq<Frame>, l: Late)
    requires IsLate(e, stack, l)
    ensures l in LatePasses(e, stack)
  {
    hide Visits, LateOf;
    assert |stack + [InFunc(e.span, e.Contextual?)]| == |stack| + 1;
  }

  /** A function is handed to the late pass iff a path leads to it. */
  lemma {:induction false} LateIff(e: Expr, stack: seq<Frame>, l: Late)
    ensures l in LatePasses(e, stack) <==>
      exists target, inner :: Holds(e, stack, target, inner) && IsLate(target, inner, l)
    decreases e
  {
    hide IsLate;
    if l in LatePasses(e, stack) {
      if IsLate(e, stack, l) {
        assert Leads(e, stack, [], e, stack);
        assert Holds(e, stack, e, stack);
      } else {
        var at := LatePart(e, stack, l);
        PartIsSmaller(e, at);
        LateIff(Part(e, at).value, stack + Around(e), l);
        var target, inner :|
          Holds(Part(e, at).value, stack + Around(e), target, inner) && IsLate(target, inner, l);
        HoldsByPart(e, stack, at, target, inner);
      }
    }
    if target, inner :| Holds(e, stack, target, inner) && IsLate(target, inner, l) {
      var path :| Leads(e, stack, path, target, inner);
      PathIsLate(e, stack, path, target, inner, l);
    }
  }

  lemma {:induction false} PathIsLate(e: Expr, stack: seq<Frame>, path: seq<Place>, target: Expr, inner: seq<Frame>,
                                      l: Late)
    requires Leads(e, stack, path, target, inner) && IsLate(target, inner, l)
    ensures l in LatePasses(e, stack)
    decreases |path|
  {
    hide Part, Around, IsLate;
    if path == [] {
      OwnLate(e, stack, l);
    } else {
      PathIsLate(Part(e, path[0]).value, stack + Around(e), path[1..], target, inner, l);
      PartIsLate(e, stack, l, path[0]);
    }
  }

  // ----------------------------------------------------------------- whole files

  /** A path leads from one of the expressions of a file to the target. */
  ghost predicate InFile(es: seq<Expr>, target: Expr, inner: seq<Frame>) {
    exists i :: 0 <= i < |es| && Holds(es[i], [], target, inner)
  }

  /** The function directly inside a loop that cuts a statement off from it. */
  function Cut(stack: seq<Frame>): Option<(Span, Span)> {
    var n := |stack|;
    if n >= 2 && stack[n - 2].InLoop? then Some((stack[n - 2].span, stack[n - 1].span)) else None
  }

  /** Which statements are reported, and with what: a break or continue outside all frames
      or directly inside a function, a return outside all functions. */
  ghost predicate Deserves(target: Expr, stack: seq<Frame>, d: Diagnostic) {
    match target
    case LoopBreak(span) =>
      (stack == [] || stack[|stack| - 1].InFunc?) && d == NonLoop(span, Break, Cut(stack))
    case LoopContinue(span) =>
      (stack == [] || stack[|stack| - 1].InFunc?) && d == NonLoop(span, Continue, Cut(stack))
    case FuncReturn(span, _) =>
      (forall i :: 0 <= i < |stack| ==> stack[i].InLoop?) && d == NonFunction(span)
    case _ => false
  }

  lemma JudgeIff(target: Expr, v: Visit, d: Diagnostic)
    requires Is(target, v.stack, v)
    ensures Judge(v) == Some(d) <==> Deserves(target, v.stack, d)
  {
  }

  lemma DeservesIs(target: Expr, stack: seq<Frame>, d: Diagnostic) returns (v: Visit)
    requires Deserves(target, stack, d)
    ensures v.stack == stack && Is(target, stack, v)
  {
    match target
    case LoopBreak(span) => v := Visit(Break, span, stack);
    case LoopContinue(span) => v := Visit(Continue, span, stack);
    case FuncReturn(span, result) => v := Visit(Return(result.Some?), span, stack);
  }

  /** Nothing else is reported about a file, and nothing is missed. */
  lemma DiagnosticIff(es: seq<Expr>, d: Diagnostic)
    ensures d in Judged(VisitsAll(es, [])) <==>
      exists target, stack :: InFile(es, target, stack) && Deserves(target, stack, d)
  {
    hide Visits, VisitsAll, Judge, Deserves, Is, Holds;
    ReportedIff(VisitsAll(es, []), d);
    if d in Judged(VisitsAll(es, [])) {
      var v :| v in VisitsAll(es, []) && Judge(v) == Some(d);
      var i := ListPart(es, [], v);
      VisitedIff(es[i], [], v);
      var target :| Holds(es[i], [], target, v.stack) && Is(target, v.stack, v);
      JudgeIff(target, v, d);
      assert InFile(es, target, v.stack);
    }
    if target, stack :| InFile(es, target, stack) && Deserves(target, stack, d) {
      var i :| 0 <= i < |es| && Holds(es[i], [], target, stack);
      var v := DeservesIs(target, stack, d);
      VisitedIff(es[i], [], v);
      InList(es, i, [], v);
      JudgeIff(target, v, d);
    }
  }

  /** Exactly the functions in the file are handed to the late pass. */
  lemma LatePassesIff(es: seq<Expr>, l: Late)
    ensures l in LatePassesAll(es, []) <==>
      exists target, stack :: InFile(es, target, stack) && IsLate(target, stack, l)
  {
    hide LatePasses, LatePassesAll, IsLate, Holds;
    if l in LatePassesAll(es, []) {
      var i := LateListPart(es, [], l);
      LateIff(es[i], [], l);
      var target, stack :| Holds(es[i], [], target, stack) && IsLate(target, stack, l);
      assert InFile(es, target, stack);
    }
    if target, stack :| InFile(es, target, stack) && IsLate(target, stack, l) {
      var i :| 0 <= i < |es| && Holds(es[i], [], target, stack);
      LateIff(es[i], [], l);
      LateInList(es, i, [], l);
    }
  }

  // ------------------------------------------------------ what is recorded there

  /** Return i is the last one of the function at the position among the visits. */
  ghost predicate LastOwned(visits: seq<Visit>, i: nat, position: nat) {
    && i < |visits| && OwnedBy(visits[i], position)
    && forall j :: i < j < |visits| ==> !OwnedBy(visits[j], position)
  }

  /** The record says whether the last own return has a result. */
  lemma {:induction false} LastReturnIs(visits: seq<Visit>, stack: seq<Frame>, f: Frame, i: nat)
    requires f.InFunc? && Within(visits, stack + [f]) && LastOwned(visits, i, |stack|)
    ensures LastReturn(visits, |stack| + 1) == Some(visits[i].what.value)
  {
    var n := |visits| - 1;
    var v := visits[n];
    assert forall u :: u in visits[..n] ==> u in visits;
    assert v in visits && v.stack[|stack|] == (stack + [f])[|stack|] == f;
    var d := FuncDepth(v.stack);
    assert d >= |stack| + 1;
    assert v.what.Return? ==> (d == |stack| + 1 <==> OwnedBy(v, |stack|));
    if i < n {
      LastReturnIs(visits[..n], stack, f, i);
    }
  }

  /** A return with nothing but loops between it and the function at the position. */
  ghost predicate ReturnsFrom(target: Expr, stack: seq<Frame>, position: nat) {
    target.FuncReturn? && |stack| > position && forall i :: position < i < |stack| ==> stack[i].InLoop?
  }

  /** What the late pass is told of a function: that it has a return iff a path through no
      other function leads to one, and of the last one visited whether it has a result. */
  lemma LateSays(e: Expr, stack: seq<Frame>, l: Late)
    requires IsLate(e, stack, l)
    ensures l.span == e.span && l.isContextual == e.Contextual?
    ensures l.hasReturn <==>
      exists target, inner :: Holds(e, stack, target, inner) && ReturnsFrom(target, inner, |stack|)
    ensures forall i :: 0 <= i < |Visits(e, stack)| && LastOwned(Visits(e, stack), i, |stack|) ==>
      l.value == Visits(e, stack)[i].what.value
  {
    var visits, f := Visits(e, stack), InFunc(e.span, e.Contextual?);
    FunctionWithin(e, stack);
    hide Visits, Holds;
    LastReturnIff(visits, stack, f);
    if l.hasReturn {
      var v :| v in visits && OwnedBy(v, |stack|);
      VisitedIff(e, stack, v);
      var target :| Holds(e, stack, target, v.stack) && Is(target, v.stack, v);
      assert ReturnsFrom(target, v.stack, |stack|);
    }
    if target, inner :| Holds(e, stack, target, inner) && ReturnsFrom(target, inner, |stack|) {
      var v := Visit(Return(target.result.Some?), target.span, inner);
      assert Is(target, inner, v);
      VisitedIff(e, stack, v);
      assert OwnedBy(v, |stack|);
    }
    forall i | 0 <= i < |visits| && LastOwned(visits, i, |stack|) ensures l.value == visits[i].what.value {
      LastReturnIs(visits, stack, f, i);
    }
  }
}
