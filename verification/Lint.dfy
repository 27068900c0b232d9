/** The linter's visit of a syntax tree: one mutable context, saved and restored around
    loops and functions, proved against the frame-by-frame reference of LintModel. */
module Lint {
  import opened Options
  import opened LintModel
  import LintPaths

  class Linter {
    var diag: seq<Diagnostic>
    /** One record for every function handed to the late pass. */
    var late: seq<Late>
    var loopInfo: Option<LoopInfo>
    var funcInfo: Option<FuncInfo>

    function Now(): Account
      reads this
    {
      Account(diag, late, loopInfo, funcInfo)
    }

    constructor ()
      ensures Now() == Account([], [], None, None)
    {
      diag, late, loopInfo, funcInfo := [], [], None, None;
    }

    /** Lints a file: the judged statements are reported in order, and they are those a path
        leads to; the functions handed to the late pass are those a path leads to. */
    method LintAll(es: seq<Expr>)
      requires Now() == Account([], [], None, None)
      modifies this
      ensures diag == Judged(VisitsAll(es, []))
      ensures late == LatePassesAll(es, [])
      ensures loopInfo == None && funcInfo == None
      ensures forall d :: d in diag <==>
        exists target, stack :: LintPaths.InFile(es, target, stack) && LintPaths.Deserves(target, stack, d)
      ensures forall l :: l in late <==>
        exists target, stack :: LintPaths.InFile(es, target, stack) && LintPaths.IsLate(target, stack, l)
    {
      Exprs(es, []);
      forall d ensures d in diag <==>
        exists target, stack :: LintPaths.InFile(es, target, stack) && LintPaths.Deserves(target, stack, d)
      {
        LintPaths.DiagnosticIff(es, d);
      }
      forall l ensures l in late <==>
        exists target, stack :: LintPaths.InFile(es, target, stack) && LintPaths.IsLate(target, stack, l)
      {
        LintPaths.LatePassesIff(es, l);
      }
      assert LastReturn(VisitsAll(es, []), 0).None? || funcInfo.None?;
    }

    method Exprs(es: seq<Expr>, ghost stack: seq<Frame>)
      requires Agrees(Now(), stack)
      modifies this
      ensures Effect(old(Now()), Now(), VisitsAll(es, stack), LatePassesAll(es, stack), stack)
      ensures Agrees(Now(), stack)
      decreases es, 0
    {
      ghost var s := Now();
      EffectNone(s, stack);
      for i := 0 to |es|
        invariant Effect(s, Now(), VisitsAll(es[..i], stack), LatePassesAll(es[..i], stack), stack)
        invariant Agrees(Now(), stack)
      {
        ghost var s1 := Now();
        Expr(es[i], stack);
        EffectThen(s, s1, Now(), VisitsAll(es[..i], stack), Visits(es[i], stack),
                   LatePassesAll(es[..i], stack), LatePasses(es[i], stack), stack);
        assert es[..i + 1][..i] == es[..i];
      }
      assert es[..|es|] == es;
    }

    method MaybeExpr(e: Option<Expr>, ghost stack: seq<Frame>)
      requires Agrees(Now(), stack)
      modifies this
      ensures Effect(old(Now()), Now(), VisitsOption(e, stack), LatePassesOption(e, stack), stack)
      ensures Agrees(Now(), stack)
      decreases e, 0
    {
      EffectNone(Now(), stack);
      if e.Some? {
        Expr(e.value, stack);
      }
    }

    method Expr(e: Expr, ghost stack: seq<Frame>)
      requires Agrees(Now(), stack)
      modifies this
      ensures Effect(old(Now()), Now(), Visits(e, stack), LatePasses(e, stack), stack)
      ensures Agrees(Now(), stack)
      decreases e, 2
    {
      match e {
        case Value => EffectNone(Now(), stack);
        case Group(items) => Exprs(items, stack);
        case FuncCall(callee, args) => VisitFuncCall(callee, args, stack);
        case Closure(span, params, body) => VisitClosure(span, params, body, stack);
        case LetBinding(init) => MaybeExpr(init, stack);
        case DestructAssignment(_, value) => Expr(value, stack);
        case SetRule(guard, args, target) => VisitSet(guard, args, target, stack);
        case ShowRule(selector, transform) => VisitShow(selector, transform, stack);
        case Contextual(span, body) => VisitContextual(span, body, stack);
        case Conditional(condition, ifBody, elseBody) => VisitConditional(condition, ifBody, elseBody, stack);
        case WhileLoop(span, condition, body) => VisitLoop(e, span, condition, body, stack);
        case ForLoop(span, _, iterable, body) => VisitLoop(e, span, iterable, body, stack);
        case LoopBreak(span) => VisitBreak(span, stack);
        case LoopContinue(span) => VisitContinue(span, stack);
        case FuncReturn(span, result) => VisitReturn(span, result, stack);
      }
    }

    /** A break or continue outside a loop; the trace names the loop around the function. */
    method BadBranch(span: Span, what: Statement)
      modifies `diag
      ensures diag == old(diag) + [NonLoop(span, what,
        if funcInfo.Some? && funcInfo.value.parentLoop.Some?
        then Some((funcInfo.value.parentLoop.value.span, funcInfo.value.span)) else None)]
    {
      var trace := None;
      if funcInfo.Some? && funcInfo.value.parentLoop.Some? {
        trace := Some((funcInfo.value.parentLoop.value.span, funcInfo.value.span));
      }
      diag := diag + [NonLoop(span, what, trace)];
    }

    method VisitBreak(span: Span, ghost stack: seq<Frame>)
      requires Agrees(Now(), stack)
      modifies this
      ensures Effect(old(Now()), Now(), [Visit(Break, span, stack)], [], stack) && Agrees(Now(), stack)
    {
      if loopInfo.Some? {
        loopInfo := Some(loopInfo.value.(hasBreak := true));
      } else {
        BadBranch(span, Break);
      }
      OneVisit(Visit(Break, span, stack));
    }

    method VisitContinue(span: Span, ghost stack: seq<Frame>)
      requires Agrees(Now(), stack)
      modifies this
      ensures Effect(old(Now()), Now(), [Visit(Continue, span, stack)], [], stack) && Agrees(Now(), stack)
    {
      if loopInfo.Some? {
        loopInfo := Some(loopInfo.value.(hasContinue := true));
      } else {
        BadBranch(span, Continue);
      }
      OneVisit(Visit(Continue, span, stack));
    }

    /** The result of a return is not visited. */
    method VisitReturn(span: Span, result: Option<LintModel.Expr>, ghost stack: seq<Frame>)
      requires Agrees(Now(), stack)
      modifies this
      ensures Effect(old(Now()), Now(), [Visit(Return(result.Some?), span, stack)], [], stack)
      ensures Agrees(Now(), stack)
    {
      if funcInfo.Some? {
        funcInfo := Some(funcInfo.value.(hasReturn := true, hasReturnValue := result.Some?));
      } else {
        diag := diag + [NonFunction(span)];
      }
    }

    method VisitFuncCall(callee: LintModel.Expr, args: seq<LintModel.Expr>, ghost stack: seq<Frame>)
      requires Agrees(Now(), stack)
      modifies this
      ensures Effect(old(Now()), Now(), VisitsAll(args, stack) + Visits(callee, stack),
                     LatePassesAll(args, stack) + LatePasses(callee, stack), stack)
      ensures Agrees(Now(), stack)
      decreases FuncCall(callee, args), 1
    {
      ghost var s := Now();
      Exprs(args, stack);
      ghost var s1 := Now();
      Expr(callee, stack);
      EffectThen(s, s1, Now(), VisitsAll(args, stack), Visits(callee, stack),
                 LatePassesAll(args, stack), LatePasses(callee, stack), stack);
    }

    method VisitShow(selector: Option<LintModel.Expr>, transform: LintModel.Expr, ghost stack: seq<Frame>)
      requires Agrees(Now(), stack)
      modifies this
      ensures Effect(old(Now()), Now(), VisitsOption(selector, stack) + Visits(transform, stack),
                     LatePassesOption(selector, stack) + LatePasses(transform, stack), stack)
      ensures Agrees(Now(), stack)
      decreases ShowRule(selector, transform), 1
    {
      ghost var s := Now();
      MaybeExpr(selector, stack);
      ghost var s1 := Now();
      Expr(transform, stack);
      EffectThen(s, s1, Now(), VisitsOption(selector, stack), Visits(transform, stack),
                 LatePassesOption(selector, stack), LatePasses(transform, stack), stack);
    }

    method VisitSet(guard: Option<LintModel.Expr>, args: seq<LintModel.Expr>, target: LintModel.Expr,
                    ghost stack: seq<Frame>)
      requires Agrees(Now(), stack)
      modifies this
      ensures Effect(old(Now()), Now(),
                     VisitsOption(guard, stack) + VisitsAll(args, stack) + Visits(target, stack),
                     LatePassesOption(guard, stack) + LatePassesAll(args, stack) + LatePasses(target, stack), stack)
      ensures Agrees(Now(), stack)
      decreases SetRule(guard, args, target), 1
    {
      ghost var s := Now();
      MaybeExpr(guard, stack);
      ghost var s1 := Now();
      Exprs(args, stack);
      ghost var s2 := Now();
      EffectThen(s, s1, s2, VisitsOption(guard, stack), VisitsAll(args, stack),
                 LatePassesOption(guard, stack), LatePassesAll(args, stack), stack);
      Expr(target, stack);
      EffectThen(s, s2, Now(), VisitsOption(guard, stack) + VisitsAll(args, stack), Visits(target, stack),
                 LatePassesOption(guard, stack) + LatePassesAll(args, stack), LatePasses(target, stack), stack);
    }

    method VisitConditional(condition: LintModel.Expr, ifBody: LintModel.Expr, elseBody: Option<LintModel.Expr>,
                            ghost stack: seq<Frame>)
      requires Agrees(Now(), stack)
      modifies this
      ensures Effect(old(Now()), Now(),
                     Visits(condition, stack) + Visits(ifBody, stack) + VisitsOption(elseBody, stack),
                     LatePasses(condition, stack) + LatePasses(ifBody, stack) + LatePassesOption(elseBody, stack),
                     stack)
      ensures Agrees(Now(), stack)
      decreases Conditional(condition, ifBody, elseBody), 1
    {
      ghost var s := Now();
      Expr(condition, stack);
      ghost var s1 := Now();
      Expr(ifBody, stack);
      ghost var s2 := Now();
      EffectThen(s, s1, s2, Visits(condition, stack), Visits(ifBody, stack),
                 LatePasses(condition, stack), LatePasses(ifBody, stack), stack);
      MaybeExpr(elseBody, stack);
      EffectThen(s, s2, Now(), Visits(condition, stack) + Visits(ifBody, stack), VisitsOption(elseBody, stack),
                 LatePasses(condition, stack) + LatePasses(ifBody, stack), LatePassesOption(elseBody, stack), stack);
    }

    /** A while or for loop: the head and the body run in the loop's own context. */
    method VisitLoop(ghost e: LintModel.Expr, span: Span, head: LintModel.Expr, body: LintModel.Expr,
                     ghost stack: seq<Frame>)
      requires head < e && body < e
      requires Agrees(Now(), stack)
      modifies this
      ensures var inner := stack + [InLoop(span)];
        Effect(old(Now()), Now(), Visits(head, inner) + Visits(body, inner),
               LatePasses(head, inner) + LatePasses(body, inner), stack)
      ensures Agrees(Now(), stack)
      decreases e, 1
    {
      ghost var s, inner := Now(), stack + [InLoop(span)];
      assert inner[..|inner| - 1] == stack;
      var saved := loopInfo;
      loopInfo := Some(LoopInfo(span, false, false));
      ghost var s1 := Now();
      Expr(head, inner);
      ghost var s2 := Now();
      Expr(body, inner);
      EffectThen(s1, s2, Now(), Visits(head, inner), Visits(body, inner),
                 LatePasses(head, inner), LatePasses(body, inner), inner);
      VisitsWithin(head, inner);
      VisitsWithin(body, inner);
      AroundLoop(s, Now(), span, Visits(head, inner) + Visits(body, inner),
                 LatePasses(head, inner) + LatePasses(body, inner), stack);
      loopInfo := saved;
      EffectAgrees(s, Now(), Visits(head, inner) + Visits(body, inner),
                   LatePasses(head, inner) + LatePasses(body, inner), stack);
    }

    /** Enters a function: a fresh account that remembers the loop around it. */
    method EnterFunc(span: Span, isContextual: bool, ghost stack: seq<Frame>) returns (saved: Option<FuncInfo>)
      requires Agrees(Now(), stack)
      modifies `loopInfo, `funcInfo
      ensures saved == old(funcInfo) && loopInfo == None
      ensures funcInfo == Some(FuncInfo(span, isContextual, false, false, old(loopInfo)))
      ensures Agrees(Now(), stack + [InFunc(span, isContextual)])
    {
      saved := funcInfo;
      funcInfo := Some(FuncInfo(span, false, false, false, loopInfo));
      loopInfo := None;
      if isContextual {
        funcInfo := Some(funcInfo.value.(isContextual := true));
      }
      ghost var inner := stack + [InFunc(span, isContextual)];
      assert FuncDepth(inner) == |inner|;
    }

    /** Hands the function to the late pass, then leaves it. */
    method LeaveFunc(saved: Option<FuncInfo>)
      requires funcInfo.Some?
      modifies this
      ensures diag == old(diag) && funcInfo == saved && loopInfo == old(funcInfo).value.parentLoop
      ensures var info := old(funcInfo).value;
        late == old(late) + [Late(info.span, info.isContextual, info.hasReturn, info.hasReturnValue)]
    {
      var info := funcInfo.value;
      late := late + [Late(info.span, info.isContextual, info.hasReturn, info.hasReturnValue)];
      loopInfo := info.parentLoop;
      funcInfo := saved;
    }

    method VisitContextual(span: Span, body: LintModel.Expr, ghost stack: seq<Frame>)
      requires Agrees(Now(), stack)
      modifies this
      ensures Effect(old(Now()), Now(), Visits(Contextual(span, body), stack),
                     LatePasses(Contextual(span, body), stack), stack)
      ensures Agrees(Now(), stack)
      decreases Contextual(span, body), 1
    {
      ghost var s, f := Now(), InFunc(span, true);
      var saved := EnterFunc(span, true, stack);
      Expr(body, stack + [f]);
      VisitsWithin(body, stack + [f]);
      AroundFunc(s, Now(), f, Visits(body, stack + [f]), LatePasses(body, stack + [f]), stack);
      LeaveFunc(saved);
      EffectAgrees(s, Now(), Visits(Contextual(span, body), stack), LatePasses(Contextual(span, body), stack), stack);
    }

    method VisitClosure(span: Span, params: seq<LintModel.Expr>, body: LintModel.Expr, ghost stack: seq<Frame>)
      requires Agrees(Now(), stack)
      modifies this
      ensures Effect(old(Now()), Now(), Visits(Closure(span, params, body), stack),
                     LatePasses(Closure(span, params, body), stack), stack)
      ensures Agrees(Now(), stack)
      decreases Closure(span, params, body), 1
    {
      ghost var s, f := Now(), InFunc(span, false);
      ghost var inner := stack + [f];
      var saved := EnterFunc(span, false, stack);
      ghost var s1 := Now();
      Exprs(params, inner);
      ghost var s2 := Now();
      Expr(body, inner);
      EffectThen(s1, s2, Now(), VisitsAll(params, inner), Visits(body, inner),
                 LatePassesAll(params, inner), LatePasses(body, inner), inner);
      VisitsAllWithin(params, inner);
      VisitsWithin(body, inner);
      AroundFunc(s, Now(), f, VisitsAll(params, inner) + Visits(body, inner),
                 LatePassesAll(params, inner) + LatePasses(body, inner), stack);
      LeaveFunc(saved);
      EffectAgrees(s, Now(), Visits(Closure(span, params, body), stack),
                   LatePasses(Closure(span, params, body), stack), stack);
    }
  }
}
