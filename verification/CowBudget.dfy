/** What the budgets guarantee: halting, accounting, and independence from limits that did not trip. */
module CowBudget {
  import opened Wrappers
  import opened CowAst
  import opened CowInterp

  /** What a stretch of execution may do to the books. At the all-ones limit the step counter
      wraps before the test can succeed: the step budget never trips, and steps say nothing. */
  ghost predicate Spent<W>(lim: Limits, st: State<W>, out: Outcome, st': State<W>) {
    && st.meter.peakDepth <= st'.meter.peakDepth <= Max(st.meter.peakDepth, lim.maxCallDepth)
    && st'.meter.trips == st.meter.trips + (if out.Limit? then 1 else 0)
    && if lim.Bounded() then StepsSpent(lim, st, out, st') else out != Limit(Steps)
  }

  ghost predicate StepsSpent<W>(lim: Limits, st: State<W>, out: Outcome, st': State<W>) {
    var spent := st'.steps - st.steps;
    && 0 <= spent
    && (if out == Limit(Steps) then st'.steps == lim.maxSteps + 1 else st'.steps <= lim.maxSteps)
    && 0 <= st'.meter.calls - st.meter.calls <= spent
    && 0 <= st'.meter.turns - st.meter.turns <= spent
  }

  /** An expression pays one step more than its loop iterations, and never returns from a function. */
  ghost predicate ExprSpent<W>(lim: Limits, st: State<W>, r: Res<W>) {
    && Spent(lim, st, r.out, r.st) && !r.out.Returned?
    && (lim.Bounded() ==> r.st.meter.turns - st.meter.turns < r.st.steps - st.steps)
  }

  ghost predicate Sound<W>(c: Config<W>, st: State<W>) {
    st.env != [] && c.limits.Valid() && (c.limits.Bounded() ==> st.steps <= c.limits.maxSteps)
  }

  ghost predicate Ready<W>(c: Config<W>, st: State<W>) {
    Sound(c, st) && c.limits.Bounded()
  }

  lemma {:induction false} ExprSpends<W>(c: Config<W>, e: Expr, st: State<W>, fr: nat)
    requires Sound(c, st)
    ensures ExprSpent(c.limits, st, EvalExpr(c, e, st, fr))
    decreases c.limits.maxCallDepth - st.depth, e, 1
  {
    hide EvalCall, EvalMemberAssign, EvalBinary, ExecBody;
    var s := Charge(st, fr + 1);
    if s.steps <= c.limits.maxSteps {
      match e
      case Assign(_, rhs) => ExprSpends(c, rhs, s, fr + 1);
      case Member(obj, _) => ExprSpends(c, obj, s, fr + 1);
      case Unary(_, x) => ExprSpends(c, x, s, fr + 1);
      case Call(_, _) => CallSpends(c, e, st, fr + 1);
      case MemberAssign(_, _, _) => MemberAssignSpends(c, e, s, fr + 1);
      case Binary(_, _, _) => BinarySpends(c, e, s, fr + 1);
      case _ =>
    }
  }

  /** The charge for the call expression itself pays for entering the callee. */
  lemma {:induction false} CallSpends<W>(c: Config<W>, e: Expr, st: State<W>, fr: nat)
    requires Sound(c, st) && e.Call? && Bump(st.steps) <= c.limits.maxSteps
    ensures ExprSpent(c.limits, st, EvalCall(c, e, Charge(st, fr), fr))
    decreases c.limits.maxCallDepth - st.depth, e, 0
  {
    var s := Charge(st, fr);
    ArgsSpend(c, e.args, s, fr);
    var a := EvalArgs(c, e.args, s, fr);
    if a.out.Normal? && e.callee !in c.host.builtins {
      var fn := FindFn(c.prog.functions, e.callee);
      if fn.Some? && a.st.depth + 1 <= c.limits.maxCallDepth {
        BodySpends(c, fn.value.body, EnterCall(a.st, fn.value, a.vals), fr);
      }
    }
  }

  lemma {:induction false} MemberAssignSpends<W>(c: Config<W>, e: Expr, st: State<W>, fr: nat)
    requires Sound(c, st) && e.MemberAssign?
    ensures ExprSpent(c.limits, st, EvalMemberAssign(c, e, st, fr))
    decreases c.limits.maxCallDepth - st.depth, e, 0
  {
    ExprSpends(c, e.owner, st, fr);
    var t := EvalExpr(c, e.owner, st, fr);
    if t.out.Normal? { ExprSpends(c, e.rhs, t.st, fr); }
  }

  lemma {:induction false} BinarySpends<W>(c: Config<W>, e: Expr, st: State<W>, fr: nat)
    requires Sound(c, st) && e.Binary?
    ensures ExprSpent(c.limits, st, EvalBinary(c, e, st, fr))
    decreases c.limits.maxCallDepth - st.depth, e, 0
  {
    ExprSpends(c, e.left, st, fr);
    var l := EvalExpr(c, e.left, st, fr);
    if l.out.Normal? { ExprSpends(c, e.right, l.st, fr); }
  }

  lemma {:induction false} ArgsSpend<W>(c: Config<W>, es: seq<Expr>, st: State<W>, fr: nat)
    requires Sound(c, st)
    ensures var r := EvalArgs(c, es, st, fr);
            Spent(c.limits, st, r.out, r.st) && !r.out.Returned? && (r.out.Normal? ==> |r.vals| == |es|)
    decreases c.limits.maxCallDepth - st.depth, es, 0
  {
    if es != [] {
      ExprSpends(c, es[0], st, fr);
      var h := EvalExpr(c, es[0], st, fr);
      if h.out.Normal? { ArgsSpend(c, es[1..], h.st, fr); }
    }
  }

  lemma {:induction false} StmtSpends<W>(c: Config<W>, s: Stmt, st: State<W>, fr: nat)
    requires Sound(c, st)
    ensures var r := ExecStmt(c, s, st, fr);
            Spent(c.limits, st, r.out, r.st) && (c.limits.Bounded() ==> st.steps < r.st.steps)
    decreases c.limits.maxCallDepth - st.depth, s, LOOP_CAP + 2
  {
    hide EvalExpr, ExecBody, ExecLoop;
    var st1 := Charge(st, fr + 1);
    if st1.steps <= c.limits.maxSteps {
      match s
      case ExprStmt(e) => ExprSpends(c, e, st1, fr + 1);
      case Let(_, e) => ExprSpends(c, e, st1, fr + 1);
      case Block(body) => BodySpends(c, body, Push(st1), fr + 1);
      case If(_, _, _) => IfSpends(c, s, st, fr);
      case While(_, _) => LoopSpends(c, s, 0, st1, fr + 1);
      case Return(None) =>
      case Return(Some(e)) => ExprSpends(c, e, st1, fr + 1);
    }
  }

  lemma {:induction false} IfSpends<W>(c: Config<W>, s: Stmt, st: State<W>, fr: nat)
    requires Sound(c, st) && s.If? && Bump(st.steps) <= c.limits.maxSteps
    ensures var r := ExecStmt(c, s, st, fr);
            Spent(c.limits, st, r.out, r.st) && (c.limits.Bounded() ==> st.steps < r.st.steps)
    decreases c.limits.maxCallDepth - st.depth, s, LOOP_CAP + 1
  {
    var st1 := Charge(st, fr + 1);
    ExprSpends(c, s.cond, st1, fr + 1);
    var r := EvalExpr(c, s.cond, st1, fr + 1);
    if r.out.Normal? {
      BodySpends(c, if Truthy(c.host.arith, r.out.v) then s.body else s.elseBody, Push(r.st), fr + 1);
    }
  }

  lemma {:induction false} LoopSpends<W>(c: Config<W>, s: Stmt, safety: nat, st: State<W>, fr: nat)
    requires Sound(c, st) && s.While? && safety <= LOOP_CAP
    ensures var r := ExecLoop(c, s, safety, st, fr);
            Spent(c.limits, st, r.out, r.st) && (c.limits.Bounded() ==> st.steps < r.st.steps)
    decreases c.limits.maxCallDepth - st.depth, s, LOOP_CAP - safety
  {
    ExprSpends(c, s.cond, st, fr);
    var g := EvalExpr(c, s.cond, st, fr);
    if g.out.Normal? && Truthy(c.host.arith, g.out.v) {
      BodySpends(c, s.body, Turn(g.st), fr);
      var b := Pop(ExecBody(c, s.body, Turn(g.st), fr));
      if b.out.Normal? && safety + 1 <= LOOP_CAP { LoopSpends(c, s, safety + 1, b.st, fr); }
    }
  }

  lemma {:induction false} BodySpends<W>(c: Config<W>, body: seq<Stmt>, st: State<W>, fr: nat)
    requires Sound(c, st)
    ensures var r := ExecBody(c, body, st, fr);
            Spent(c.limits, st, r.out, r.st)
    decreases c.limits.maxCallDepth - st.depth, body, 0
  {
    if body != [] {
      StmtSpends(c, body[0], st, fr);
      var h := ExecStmt(c, body[0], st, fr);
      if h.out.Normal? { BodySpends(c, body[1..], h.st, fr); }
    }
  }
}
