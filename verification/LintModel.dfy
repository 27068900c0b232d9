/** The statements that depend on the enclosing loop or function: which of them the linter
    visits, in which context, and what is to be reported about each. */
module LintModel {
  import opened Options

  type Span = nat

  /** Expressions by what a visit does with them. A group stands for the expressions whose
      sub-expressions are visited in order: parenthesized expressions, code and content
      blocks, markup and math, arrays, dictionaries, equations, unary, binary and field
      access expressions. */
  datatype Expr =
    | Value
    | Group(items: seq<Expr>)
    | FuncCall(callee: Expr, args: seq<Expr>)
    | Closure(span: Span, params: seq<Expr>, body: Expr)
    | LetBinding(init: Option<Expr>)
    | DestructAssignment(pattern: Expr, value: Expr)
    | SetRule(guard: Option<Expr>, args: seq<Expr>, target: Expr)
    | ShowRule(selector: Option<Expr>, transform: Expr)
    | Contextual(span: Span, body: Expr)
    | Conditional(condition: Expr, ifBody: Expr, elseBody: Option<Expr>)
    | WhileLoop(span: Span, condition: Expr, body: Expr)
    | ForLoop(span: Span, pattern: Expr, iterable: Expr, body: Expr)
    | LoopBreak(span: Span)
    | LoopContinue(span: Span)
    | FuncReturn(span: Span, result: Option<Expr>)

  /** An enclosing loop or function; closures and contextual expressions are functions. */
  datatype Frame = InLoop(span: Span) | InFunc(span: Span, isContextual: bool)

  datatype Statement = Break | Continue | Return(value: bool)

  /** A visited statement with its enclosing frames, the nearest last. */
  datatype Visit = Visit(what: Statement, span: Span, stack: seq<Frame>)

  // ------------------------------------------------------------------ reference

  /** All statements a visit of the expression reaches, in order, in the frames given.
      The result of a return and the pattern of a for loop or an assignment are not
      visited. */
  function Visits(e: Expr, stack: seq<Frame>): seq<Visit>
    decreases e, 1
  {
    match e
    case Value => []
    case Group(items) => VisitsAll(items, stack)
    case FuncCall(callee, args) => VisitsAll(args, stack) + Visits(callee, stack)
    case Closure(span, params, body) =>
      VisitsAll(params, stack + [InFunc(span, false)]) + Visits(body, stack + [InFunc(span, false)])
    case LetBinding(init) => VisitsOption(init, stack)
    case DestructAssignment(_, value) => Visits(value, stack)
    case SetRule(guard, args, target) =>
      VisitsOption(guard, stack) + VisitsAll(args, stack) + Visits(target, stack)
    case ShowRule(selector, transform) => VisitsOption(selector, stack) + Visits(transform, stack)
    case Contextual(span, body) => Visits(body, stack + [InFunc(span, true)])
    case Conditional(condition, ifBody, elseBody) =>
      Visits(condition, stack) + Visits(ifBody, stack) + VisitsOption(elseBody, stack)
    case WhileLoop(span, condition, body) =>
      Visits(condition, stack + [InLoop(span)]) + Visits(body, stack + [InLoop(span)])
    case ForLoop(span, _, iterable, body) =>
      Visits(iterable, stack + [InLoop(span)]) + Visits(body, stack + [InLoop(span)])
    case LoopBreak(span) => [Visit(Break, span, stack)]
    case LoopContinue(span) => [Visit(Continue, span, stack)]
    case FuncReturn(span, result) => [Visit(Return(result.Some?), span, stack)]
  }

  function VisitsOption(e: Option<Expr>, stack: seq<Frame>): seq<Visit>
    decreases e, 0
  {
    if e.Some? then Visits(e.value, stack) else []
  }

  function VisitsAll(es: seq<Expr>, stack: seq<Frame>): seq<Visit>
    decreases es, 0
  {
    if es == [] then []
    else VisitsAll(es[..|es| - 1], stack) + Visits(es[|es| - 1], stack)
  }

  // ------------------------------------------------------------------- judgement

  datatype Diagnostic =
    | NonLoop(span: Span, what: Statement, trace: Option<(Span, Span)>)
    | NonFunction(span: Span)

  predicate InSomeFunction(stack: seq<Frame>) {
    exists i :: 0 <= i < |stack| && stack[i].InFunc?
  }

  /** What is to be reported about a statement, from its frames alone: a break or continue
      whose nearest frame is not a loop, and a return outside all functions. If a function
      directly inside a loop cuts the statement off, the report says which. */
  function Judge(v: Visit): Option<Diagnostic> {
    var n := |v.stack|;
    if v.what.Return? then
      (if InSomeFunction(v.stack) then None else Some(NonFunction(v.span)))
    else if n > 0 && v.stack[n - 1].InLoop? then None
    else
      var trace :=
        if n > 1 && v.stack[n - 2].InLoop? then Some((v.stack[n - 2].span, v.stack[n - 1].span)) else None;
      Some(NonLoop(v.span, v.what, trace))
  }

  function Judged(visits: seq<Visit>): seq<Diagnostic> {
    if visits == [] then []
    else
      var rest, d := Judged(visits[..|visits| - 1]), Judge(visits[|visits| - 1]);
      if d.Some? then rest + [d.value] else rest
  }

  // --------------------------------------------------------------- the late pass

  /** The late pass over a function looks at it only if it has a return; value says
      whether its last return has a result. */
  datatype Late = Late(span: Span, isContextual: bool, hasReturn: bool, value: bool)

  /** How many frames there are down to the nearest function. */
  function FuncDepth(stack: seq<Frame>): (d: nat)
    ensures d <= |stack|
    ensures d > 0 ==> stack[d - 1].InFunc?
    ensures forall i :: d <= i < |stack| ==> stack[i].InLoop?
  {
    if stack == [] then 0
    else if stack[|stack| - 1].InFunc? then |stack|
    else FuncDepth(stack[..|stack| - 1])
  }

  /** The last return among the visits that belongs to the function at the depth. */
  function LastReturn(visits: seq<Visit>, depth: nat): Option<bool> {
    if visits == [] then None
    else
      var v := visits[|visits| - 1];
      if v.what.Return? && FuncDepth(v.stack) == depth then Some(v.what.value)
      else LastReturn(visits[..|visits| - 1], depth)
  }

  function LateOf(frame: Frame, visits: seq<Visit>, depth: nat): Late
    requires frame.InFunc?
  {
    var last := LastReturn(visits, depth);
    Late(frame.span, frame.isContextual, last.Some?, last == Some(true))
  }

  /** The late passes below an expression: inner functions before outer ones. */
  function LatePasses(e: Expr, stack: seq<Frame>): seq<Late>
    decreases e, 1
  {
    match e
    case Value => []
    case Group(items) => LatePassesAll(items, stack)
    case FuncCall(callee, args) => LatePassesAll(args, stack) + LatePasses(callee, stack)
    case Closure(span, params, body) =>
      var inner := stack + [InFunc(span, false)];
      LatePassesAll(params, inner) + LatePasses(body, inner)
        + [LateOf(InFunc(span, false), Visits(e, stack), |inner|)]
    case LetBinding(init) => LatePassesOption(init, stack)
    case DestructAssignment(_, value) => LatePasses(value, stack)
    case SetRule(guard, args, target) =>
      LatePassesOption(guard, stack) + LatePassesAll(args, stack) + LatePasses(target, stack)
    case ShowRule(selector, transform) => LatePassesOption(selector, stack) + LatePasses(transform, stack)
    case Contextual(span, body) =>
      var inner := stack + [InFunc(span, true)];
      LatePasses(body, inner) + [LateOf(InFunc(span, true), Visits(e, stack), |inner|)]
    case Conditional(condition, ifBody, elseBody) =>
      LatePasses(condition, stack) + LatePasses(ifBody, stack) + LatePassesOption(elseBody, stack)
    case WhileLoop(span, condition, body) =>
      LatePasses(condition, stack + [InLoop(span)]) + LatePasses(body, stack + [InLoop(span)])
    case ForLoop(span, _, iterable, body) =>
      LatePasses(iterable, stack + [InLoop(span)]) + LatePasses(body, stack + [InLoop(span)])
    case LoopBreak(_) => []
    case LoopContinue(_) => []
    case FuncReturn(_, _) => []
  }

  function LatePassesOption(e: Option<Expr>, stack: seq<Frame>): seq<Late>
    decreases e, 0
  {
    if e.Some? then LatePasses(e.value, stack) else []
  }

  function LatePassesAll(es: seq<Expr>, stack: seq<Frame>): seq<Late>
    decreases es, 0
  {
    if es == [] then []
    else LatePassesAll(es[..|es| - 1], stack) + LatePasses(es[|es| - 1], stack)
  }

  // ------------------------------------------------------ the linter's own account

  datatype LoopInfo = LoopInfo(span: Span, hasBreak: bool, hasContinue: bool)

  datatype FuncInfo = FuncInfo(
    span: Span, isContextual: bool, hasReturn: bool, hasReturnValue: bool, parentLoop: Option<LoopInfo>)

  /** What the linter carries through its visit. */
  datatype Account = Account(
    diag: seq<Diagnostic>, late: seq<Late>, loopInfo: Option<LoopInfo>, funcInfo: Option<FuncInfo>)

  /** The linter's context agrees with the frames. */
  predicate Agrees(s: Account, stack: seq<Frame>) {
    var n, d := |stack|, FuncDepth(stack);
    && (s.loopInfo.Some? <==> n > 0 && stack[n - 1].InLoop?)
    && (s.loopInfo.Some? ==> s.loopInfo.value.span == stack[n - 1].span)
    && (s.funcInfo.Some? <==> d > 0)
    && (s.funcInfo.Some? ==>
          var info := s.funcInfo.value;
          && info.span == stack[d - 1].span && info.isContextual == stack[d - 1].isContextual
          && (info.parentLoop.Some? <==> d > 1 && stack[d - 2].InLoop?)
          && (info.parentLoop.Some? ==> info.parentLoop.value.span == stack[d - 2].span))
  }

  ghost predicate Reaches(visits: seq<Visit>, what: Statement, stack: seq<Frame>) {
    exists v :: v in visits && v.what == what && v.stack == stack
  }

  /** The enclosing loop remembers the breaks and continues it is the nearest frame of. */
  ghost function MarkLoop(info: Option<LoopInfo>, visits: seq<Visit>, stack: seq<Frame>): Option<LoopInfo> {
    if info.None? then None
    else Some(info.value.(
      hasBreak := info.value.hasBreak || Reaches(visits, Break, stack),
      hasContinue := info.value.hasContinue || Reaches(visits, Continue, stack)))
  }

  /** The enclosing function remembers that it has a return, and what the last one is. */
  function MarkFunc(info: Option<FuncInfo>, visits: seq<Visit>, depth: nat): Option<FuncInfo> {
    var last := LastReturn(visits, depth);
    if info.None? || last.None? then info
    else Some(info.value.(hasReturn := true, hasReturnValue := last.value))
  }

  /** What a visit changes, in terms of the statements and functions it reached. */
  ghost predicate Effect(s: Account, s': Account, visits: seq<Visit>, late: seq<Late>, stack: seq<Frame>) {
    && s'.diag == s.diag + Judged(visits)
    && s'.late == s.late + late
    && s'.loopInfo == MarkLoop(s.loopInfo, visits, stack)
    && s'.funcInfo == MarkFunc(s.funcInfo, visits, FuncDepth(stack))
  }

  // ---------------------------------------------------------------------- lemmas

  lemma {:induction false} JudgedConcat(a: seq<Visit>, b: seq<Visit>)
    ensures Judged(a + b) == Judged(a) + Judged(b)
  {
    if b == [] {
      assert a + b == a;
    } else {
      var n := |b| - 1;
      JudgedConcat(a, b[..n]);
      assert (a + b)[..|a + b| - 1] == a + b[..n];
    }
  }

  lemma {:induction false} LastReturnConcat(a: seq<Visit>, b: seq<Visit>, depth: nat)
    ensures LastReturn(a + b, depth) ==
      if LastReturn(b, depth).Some? then LastReturn(b, depth) else LastReturn(a, depth)
  {
    if b == [] {
      assert a + b == a;
    } else {
      var n := |b| - 1;
      LastReturnConcat(a, b[..n], depth);
      assert (a + b)[..|a + b| - 1] == a + b[..n];
    }
  }

  function ReturnOf(v: Visit, depth: nat): Option<bool> {
    if v.what.Return? && FuncDepth(v.stack) == depth then Some(v.what.value) else None
  }

  lemma OneVisit(v: Visit)
    ensures Judged([v]) == if Judge(v).Some? then [Judge(v).value] else []
    ensures forall what, stack :: Reaches([v], what, stack) <==> v.what == what && v.stack == stack
    ensures forall d: nat :: LastReturn([v], d) == ReturnOf(v, d)
  {
    assert v in [v];
  }

  lemma EffectNone(s: Account, stack: seq<Frame>)
    ensures Effect(s, s, [], [], stack)
  {
  }

  lemma EffectThen(s: Account, s1: Account, s2: Account, visits1: seq<Visit>, visits2: seq<Visit>,
                   late1: seq<Late>, late2: seq<Late>, stack: seq<Frame>)
    requires Effect(s, s1, visits1, late1, stack) && Effect(s1, s2, visits2, late2, stack)
    ensures Effect(s, s2, visits1 + visits2, late1 + late2, stack)
  {
    JudgedConcat(visits1, visits2);
    LastReturnConcat(visits1, visits2, FuncDepth(stack));
    forall what: Statement
      ensures Reaches(visits1 + visits2, what, stack) <==>
        Reaches(visits1, what, stack) || Reaches(visits2, what, stack)
    {
    }
  }

  lemma EffectAgrees(s: Account, s': Account, visits: seq<Visit>, late: seq<Late>, stack: seq<Frame>)
    requires Agrees(s, stack) && Effect(s, s', visits, late, stack)
    ensures Agrees(s', stack)
  {
  }

  /** Every visit below an expression happens inside the frames of the expression. */
  ghost predicate Within(visits: seq<Visit>, stack: seq<Frame>) {
    forall v :: v in visits ==> stack <= v.stack
  }

  lemma {:induction false} VisitsWithin(e: Expr, stack: seq<Frame>)
    ensures Within(Visits(e, stack), stack)
    decreases e, 1
  {
    match e
    case Value =>
    case Group(items) => VisitsAllWithin(items, stack);
    case FuncCall(callee, args) =>
      VisitsAllWithin(args, stack);
      VisitsWithin(callee, stack);
    case Closure(span, params, body) =>
      VisitsAllWithin(params, stack + [InFunc(span, false)]);
      VisitsWithin(body, stack + [InFunc(span, false)]);
    case LetBinding(init) => VisitsOptionWithin(init, stack);
    case DestructAssignment(_, value) => VisitsWithin(value, stack);
    case SetRule(guard, args, target) =>
      VisitsOptionWithin(guard, stack);
      VisitsAllWithin(args, stack);
      VisitsWithin(target, stack);
    case ShowRule(selector, transform) =>
      VisitsOptionWithin(selector, stack);
      VisitsWithin(transform, stack);
    case Contextual(span, body) => VisitsWithin(body, stack + [InFunc(span, true)]);
    case Conditional(condition, ifBody, elseBody) =>
      VisitsWithin(condition, stack);
      VisitsWithin(ifBody, stack);
      VisitsOptionWithin(elseBody, stack);
    case WhileLoop(span, condition, body) =>
      VisitsWithin(condition, stack + [InLoop(span)]);
      VisitsWithin(body, stack + [InLoop(span)]);
    case ForLoop(span, _, iterable, body) =>
      VisitsWithin(iterable, stack + [InLoop(span)]);
      VisitsWithin(body, stack + [InLoop(span)]);
    case _ =>
  }

  lemma {:induction false} VisitsOptionWithin(e: Option<Expr>, stack: seq<Frame>)
    ensures Within(VisitsOption(e, stack), stack)
    decreases e, 0
  {
    if e.Some? {
      VisitsWithin(e.value, stack);
    }
  }

  lemma {:induction false} VisitsAllWithin(es: seq<Expr>, stack: seq<Frame>)
    ensures Within(VisitsAll(es, stack), stack)
    decreases es, 0
  {
    if es != [] {
      VisitsAllWithin(es[..|es| - 1], stack);
      VisitsWithin(es[|es| - 1], stack);
    }
  }

  lemma {:induction false} NoReturnOf(visits: seq<Visit>, stack: seq<Frame>, f: Frame)
    requires Within(visits, stack + [f]) && f.InFunc?
    ensures LastReturn(visits, FuncDepth(stack)).None?
  {
    if visits != [] {
      var n := |visits| - 1;
      assert visits[n] in visits && forall v :: v in visits[..n] ==> v in visits;
      NoReturnOf(visits[..n], stack, f);
      var inner := visits[n].stack;
      assert inner[|stack|] == (stack + [f])[|stack|] == f;
    }
  }

  /** Around a loop: its own account is thrown away, the returns in it count outside. */
  lemma AroundLoop(s: Account, s': Account, span: Span, visits: seq<Visit>, late: seq<Late>, stack: seq<Frame>)
    requires Within(visits, stack + [InLoop(span)])
    requires Effect(s.(loopInfo := Some(LoopInfo(span, false, false))), s', visits, late, stack + [InLoop(span)])
    ensures Effect(s, s'.(loopInfo := s.loopInfo), visits, late, stack)
  {
    var inner := stack + [InLoop(span)];
    assert inner[..|inner| - 1] == stack;
    forall what: Statement ensures !Reaches(visits, what, stack) {
    }
  }

  /** Around a function: nothing in it counts outside, and its late pass knows its own
      returns only. */
  lemma AroundFunc(s: Account, s': Account, f: Frame, visits: seq<Visit>, late: seq<Late>, stack: seq<Frame>)
    requires f.InFunc? && Within(visits, stack + [f])
    requires Effect(
      s.(loopInfo := None, funcInfo := Some(FuncInfo(f.span, f.isContextual, false, false, s.loopInfo))),
      s', visits, late, stack + [f])
    ensures s'.funcInfo.Some? && s'.funcInfo.value.parentLoop == s.loopInfo
    ensures var info := s'.funcInfo.value;
      Late(f.span, f.isContextual, info.hasReturn, info.hasReturnValue) == LateOf(f, visits, |stack| + 1)
    ensures var pass := LateOf(f, visits, |stack| + 1);
      Effect(s, s'.(late := s'.late + [pass], loopInfo := s.loopInfo, funcInfo := s.funcInfo),
             visits, late + [pass], stack)
  {
    var inner := stack + [f];
    assert FuncDepth(inner) == |inner|;
    NoReturnOf(visits, stack, f);
    forall what: Statement ensures !Reaches(visits, what, stack) {
    }
  }

  // ------------------------------------------------------------- what it amounts to

  /** A diagnostic is reported exactly for a visited statement that deserves it. */
  lemma {:induction false} ReportedIff(visits: seq<Visit>, d: Diagnostic)
    ensures d in Judged(visits) <==> exists v :: v in visits && Judge(v) == Some(d)
  {
    if visits != [] {
      var n := |visits| - 1;
      ReportedIff(visits[..n], d);
      assert visits == visits[..n] + [visits[n]];
    }
  }

  /** A function has a return, as the late pass sees it, exactly when a visited return is
      not nested in an inner closure or contextual expression. */
  ghost predicate OwnedBy(v: Visit, position: nat) {
    && v.what.Return? && position < |v.stack|
    && forall i :: position < i < |v.stack| ==> v.stack[i].InLoop?
  }

  lemma {:induction false} LastReturnIff(visits: seq<Visit>, stack: seq<Frame>, f: Frame)
    requires f.InFunc? && Within(visits, stack + [f])
    ensures LastReturn(visits, |stack| + 1).Some? <==> exists v :: v in visits && OwnedBy(v, |stack|)
  {
    if visits != [] {
      var n := |visits| - 1;
      var v := visits[n];
      assert visits == visits[..n] + [v];
      assert forall u :: u in visits[..n] ==> u in visits;
      LastReturnIff(visits[..n], stack, f);
      assert v in visits && v.stack[|stack|] == (stack + [f])[|stack|] == f;
      var d := FuncDepth(v.stack);
      assert d >= |stack| + 1;
      assert v.what.Return? ==> (d == |stack| + 1 <==> OwnedBy(v, |stack|));
    }
  }

  lemma FunctionWithin(e: Expr, stack: seq<Frame>)
    requires e.Closure? || e.Contextual?
    ensures Within(Visits(e, stack), stack + [InFunc(e.span, e.Contextual?)])
  {
    var f := InFunc(e.span, e.Contextual?);
    if e.Closure? {
      VisitsAllWithin(e.params, stack + [f]);
    }
    VisitsWithin(e.body, stack + [f]);
  }

  lemma LatePassIff(e: Expr, stack: seq<Frame>)
    requires e.Closure? || e.Contextual?
    ensures LatePasses(e, stack) != []
    ensures var pass := LatePasses(e, stack)[|LatePasses(e, stack)| - 1];
      && pass.span == e.span && pass.isContextual == e.Contextual?
      && (pass.hasReturn <==> exists v :: v in Visits(e, stack) && OwnedBy(v, |stack|))
  {
    hide Visits;
    var f := InFunc(e.span, e.Contextual?);
    FunctionWithin(e, stack);
    LastReturnIff(Visits(e, stack), stack, f);
    LastPass(e, stack);
  }

  lemma LastPass(e: Expr, stack: seq<Frame>)
    requires e.Closure? || e.Contextual?
    ensures var late := LatePasses(e, stack);
      late != [] && late[|late| - 1] == LateOf(InFunc(e.span, e.Contextual?), Visits(e, stack), |stack| + 1)
  {
    hide Visits, LateOf;
  }
}
