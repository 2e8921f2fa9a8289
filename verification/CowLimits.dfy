/** A run that a budget did not cut short does not depend on that budget. */
module CowLimits {
  import opened Wrappers
  import opened CowAst
  import opened CowInterp
  import opened CowBudget

  /** The run ended without a step or depth breach, and fits under the limits `lim`. */
  ghost predicate Fits<W>(lim: Limits, out: Outcome, st: State<W>) {
    && out != Limit(Steps) && out != Limit(Depth)
    && st.steps <= lim.maxSteps
    && st.meter.peakDepth <= lim.maxCallDepth
  }

  lemma {:induction false} ExprSame<W>(c: Config<W>, lim: Limits, e: Expr, st: State<W>, fr: nat)
    requires Ready(c, st)
    requires var r := EvalExpr(c, e, st, fr); Fits(lim, r.out, r.st)
    ensures EvalExpr(c.(limits := lim), e, st, fr) == EvalExpr(c, e, st, fr)
    decreases c.limits.maxCallDepth - st.depth, e, 1
  {
    hide EvalCall, EvalMemberAssign, EvalBinary, ExecBody;
    ExprSpends(c, e, st, fr);
    var s := Charge(st, fr + 1);
    match e
    case Assign(_, rhs) => ExprSpends(c, rhs, s, fr + 1); ExprSame(c, lim, rhs, s, fr + 1);
    case Member(obj, _) => ExprSpends(c, obj, s, fr + 1); ExprSame(c, lim, obj, s, fr + 1);
    case Unary(_, x) => ExprSpends(c, x, s, fr + 1); ExprSame(c, lim, x, s, fr + 1);
    case Call(_, _) => CallSame(c, lim, e, s, fr + 1);
    case MemberAssign(_, _, _) => MemberAssignSame(c, lim, e, s, fr + 1);
    case Binary(_, _, _) => BinarySame(c, lim, e, s, fr + 1);
    case _ =>
  }

  lemma {:induction false} CallSame<W>(c: Config<W>, lim: Limits, e: Expr, st: State<W>, fr: nat)
    requires Ready(c, st) && e.Call?
    requires var r := EvalCall(c, e, st, fr); Fits(lim, r.out, r.st)
    ensures EvalCall(c.(limits := lim), e, st, fr) == EvalCall(c, e, st, fr)
    decreases c.limits.maxCallDepth - st.depth, e, 0
  {
    ArgsSpend(c, e.args, st, fr);
    var a := EvalArgs(c, e.args, st, fr);
    var fn := FindFn(c.prog.functions, e.callee);
    if a.out.Normal? && e.callee !in c.host.builtins && fn.Some? {
      var st1 := EnterCall(a.st, fn.value, a.vals);
      BodySpends(c, fn.value.body, st1, fr);
      BodySame(c, lim, fn.value.body, st1, fr);
    }
    ArgsSame(c, lim, e.args, st, fr);
  }

  lemma {:induction false} MemberAssignSame<W>(c: Config<W>, lim: Limits, e: Expr, st: State<W>, fr: nat)
    requires Ready(c, st) && e.MemberAssign?
    requires var r := EvalMemberAssign(c, e, st, fr); Fits(lim, r.out, r.st)
    ensures EvalMemberAssign(c.(limits := lim), e, st, fr) == EvalMemberAssign(c, e, st, fr)
    decreases c.limits.maxCallDepth - st.depth, e, 0
  {
    ExprSpends(c, e.owner, st, fr);
    var t := EvalExpr(c, e.owner, st, fr);
    if t.out.Normal? {
      ExprSpends(c, e.rhs, t.st, fr);
      ExprSame(c, lim, e.rhs, t.st, fr);
    }
    ExprSame(c, lim, e.owner, st, fr);
  }

  lemma {:induction false} BinarySame<W>(c: Config<W>, lim: Limits, e: Expr, st: State<W>, fr: nat)
    requires Ready(c, st) && e.Binary?
    requires var r := EvalBinary(c, e, st, fr); Fits(lim, r.out, r.st)
    ensures EvalBinary(c.(limits := lim), e, st, fr) == EvalBinary(c, e, st, fr)
    decreases c.limits.maxCallDepth - st.depth, e, 0
  {
    ExprSpends(c, e.left, st, fr);
    var l := EvalExpr(c, e.left, st, fr);
    if l.out.Normal? && !ShortCut(c.host.arith, e.bop, l.out.v) {
      ExprSpends(c, e.right, l.st, fr);
      ExprSame(c, lim, e.right, l.st, fr);
    }
    ExprSame(c, lim, e.left, st, fr);
  }

  lemma {:induction false} ArgsSame<W>(c: Config<W>, lim: Limits, es: seq<Expr>, st: State<W>, fr: nat)
    requires Ready(c, st)
    requires var r := EvalArgs(c, es, st, fr); Fits(lim, r.out, r.st)
    ensures EvalArgs(c.(limits := lim), es, st, fr) == EvalArgs(c, es, st, fr)
    decreases c.limits.maxCallDepth - st.depth, es, 0
  {
    if es != [] {
      ExprSpends(c, es[0], st, fr);
      var h := EvalExpr(c, es[0], st, fr);
      if h.out.Normal? {
        ArgsSpend(c, es[1..], h.st, fr);
        ArgsSame(c, lim, es[1..], h.st, fr);
      }
      ExprSame(c, lim, es[0], st, fr);
    }
  }

  lemma {:induction false} StmtSame<W>(c: Config<W>, lim: Limits, s: Stmt, st: State<W>, fr: nat)
    requires Ready(c, st)
    requires var r := ExecStmt(c, s, st, fr); Fits(lim, r.out, r.st)
    ensures ExecStmt(c.(limits := lim), s, st, fr) == ExecStmt(c, s, st, fr)
    decreases c.limits.maxCallDepth - st.depth, s, LOOP_CAP + 2
  {
    hide EvalExpr, ExecBody, ExecLoop;
    StmtSpends(c, s, st, fr);
    var st1 := Charge(st, fr + 1);
    match s
    case ExprStmt(e) => ExprSpends(c, e, st1, fr + 1); ExprSame(c, lim, e, st1, fr + 1);
    case Let(_, e) => ExprSpends(c, e, st1, fr + 1); ExprSame(c, lim, e, st1, fr + 1);
    case Block(body) => BodySpends(c, body, Push(st1), fr + 1); BodySame(c, lim, body, Push(st1), fr + 1);
    case If(_, _, _) => IfSame(c, lim, s, st, fr);
    case While(_, _) => LoopSpends(c, s, 0, st1, fr + 1); LoopSame(c, lim, s, 0, st1, fr + 1);
    case Return(None) =>
    case Return(Some(e)) => ExprSpends(c, e, st1, fr + 1); ExprSame(c, lim, e, st1, fr + 1);
  }

  lemma {:induction false} IfSame<W>(c: Config<W>, lim: Limits, s: Stmt, st: State<W>, fr: nat)
    requires Ready(c, st) && s.If?
    requires var r := ExecStmt(c, s, st, fr); Fits(lim, r.out, r.st)
    ensures ExecStmt(c.(limits := lim), s, st, fr) == ExecStmt(c, s, st, fr)
    decreases c.limits.maxCallDepth - st.depth, s, LOOP_CAP + 1
  {
    var st1 := Charge(st, fr + 1);
    ExprSpends(c, s.cond, st1, fr + 1);
    var r := EvalExpr(c, s.cond, st1, fr + 1);
    if r.out.Normal? {
      var body := if Truthy(c.host.arith, r.out.v) then s.body else s.elseBody;
      BodySpends(c, body, Push(r.st), fr + 1);
      if body != [] || Truthy(c.host.arith, r.out.v) { BodySame(c, lim, body, Push(r.st), fr + 1); }
    }
    ExprSame(c, lim, s.cond, st1, fr + 1);
  }

  lemma {:induction false} LoopSame<W>(c: Config<W>, lim: Limits, s: Stmt, safety: nat, st: State<W>, fr: nat)
    requires Ready(c, st) && s.While? && safety <= LOOP_CAP
    requires var r := ExecLoop(c, s, safety, st, fr); Fits(lim, r.out, r.st)
    ensures ExecLoop(c.(limits := lim), s, safety, st, fr) == ExecLoop(c, s, safety, st, fr)
    decreases c.limits.maxCallDepth - st.depth, s, LOOP_CAP - safety
  {
    ExprSpends(c, s.cond, st, fr);
    var g := EvalExpr(c, s.cond, st, fr);
    if g.out.Normal? && Truthy(c.host.arith, g.out.v) {
      BodySpends(c, s.body, Turn(g.st), fr);
      var b := Pop(ExecBody(c, s.body, Turn(g.st), fr));
      if b.out.Normal? && safety + 1 <= LOOP_CAP {
        LoopSpends(c, s, safety + 1, b.st, fr);
        LoopSame(c, lim, s, safety + 1, b.st, fr);
      }
      BodySame(c, lim, s.body, Turn(g.st), fr);
    }
    ExprSame(c, lim, s.cond, st, fr);
  }

  lemma {:induction false} BodySame<W>(c: Config<W>, lim: Limits, body: seq<Stmt>, st: State<W>, fr: nat)
    requires Ready(c, st)
    requires var r := ExecBody(c, body, st, fr); Fits(lim, r.out, r.st)
    ensures ExecBody(c.(limits := lim), body, st, fr) == ExecBody(c, body, st, fr)
    decreases c.limits.maxCallDepth - st.depth, body, 0
  {
    if body != [] {
      StmtSpends(c, body[0], st, fr);
      var h := ExecStmt(c, body[0], st, fr);
      if h.out.Normal? {
        BodySpends(c, body[1..], h.st, fr);
        BodySame(c, lim, body[1..], h.st, fr);
      }
      StmtSame(c, lim, body[0], st, fr);
    }
  }
}
