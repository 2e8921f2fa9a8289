/** The native recursion of the interpreter is bounded by the call-depth limit. */
module CowFrames {
  import opened Wrappers
  import opened CowAst
  import opened CowInterp

  function ExprHeight(e: Expr): nat {
    1 + match e
        case Call(_, args) => ArgsHeight(args)
        case Unary(_, x) => ExprHeight(x)
        case Binary(_, l, r) => Max(ExprHeight(l), ExprHeight(r))
        case Assign(_, r) => ExprHeight(r)
        case Member(o, _) => ExprHeight(o)
        case MemberAssign(o, _, r) => Max(ExprHeight(o), ExprHeight(r))
        case _ => 0
  }

  function ArgsHeight(es: seq<Expr>): nat {
    if es == [] then 0 else Max(ExprHeight(es[0]), ArgsHeight(es[1..]))
  }

  function StmtHeight(s: Stmt): nat {
    1 + match s
        case ExprStmt(e) => ExprHeight(e)
        case Let(_, e) => ExprHeight(e)
        case Block(body) => BodyHeight(body)
        case If(cond, body, elseBody) => Max(ExprHeight(cond), Max(BodyHeight(body), BodyHeight(elseBody)))
        case While(cond, body) => Max(ExprHeight(cond), BodyHeight(body))
        case Return(Some(e)) => ExprHeight(e)
        case Return(None) => 0
  }

  function BodyHeight(body: seq<Stmt>): nat {
    if body == [] then 0 else Max(StmtHeight(body[0]), BodyHeight(body[1..]))
  }

  /** The tallest body among the declarations. */
  function TallestBody(fns: seq<FnDecl>): nat {
    if fns == [] then 0 else Max(BodyHeight(fns[0].body), TallestBody(fns[1..]))
  }

  lemma {:induction false} TallestBounds(fns: seq<FnDecl>, fn: FnDecl)
    requires fn in fns
    ensures BodyHeight(fn.body) <= TallestBody(fns)
  {
    if fns[0] != fn { TallestBounds(fns[1..], fn); }
  }

  /** Activations still allowed: those of the code at hand, and one tallest body per unused call level. */
  function Room(lim: Limits, depth: int, tallest: nat): nat
  {
    if depth < lim.maxCallDepth then (lim.maxCallDepth - depth) * tallest else 0
  }

  lemma RoomStep(lim: Limits, depth: int, tallest: nat)
    requires depth + 1 <= lim.maxCallDepth
    ensures Room(lim, depth, tallest) == tallest + Room(lim, depth + 1, tallest)
  {
    var n := lim.maxCallDepth - depth;
    assert n * tallest == tallest + (n - 1) * tallest;
  }

  ghost predicate Within<W>(c: Config<W>, tall: nat, st: State<W>, fr: nat, height: nat, st': State<W>) {
    st'.meter.peakFrames <= Max(st.meter.peakFrames, fr + height + Room(c.limits, st.depth, tall))
  }

  ghost predicate Tall<W>(c: Config<W>, tall: nat) {
    TallestBody(c.prog.functions) <= tall
  }

  lemma {:induction false} ExprFrames<W>(c: Config<W>, tall: nat, e: Expr, st: State<W>, fr: nat)
    requires st.env != [] && Tall(c, tall)
    ensures Within(c, tall, st, fr, ExprHeight(e), EvalExpr(c, e, st, fr).st)
    decreases c.limits.maxCallDepth - st.depth, e, 1
  {
    hide EvalCall, EvalMemberAssign, EvalBinary, ExecBody, Room;
    var s := Charge(st, fr + 1);
    if s.steps <= c.limits.maxSteps {
      match e
      case Assign(_, _) => OperandFrames(c, tall, e, st, fr);
      case Member(_, _) => OperandFrames(c, tall, e, st, fr);
      case Unary(_, _) => OperandFrames(c, tall, e, st, fr);
      case Call(_, _) => CallFrames(c, tall, e, s, fr + 1);
      case MemberAssign(_, _, _) => MemberAssignFrames(c, tall, e, s, fr + 1);
      case Binary(_, _, _) => BinaryFrames(c, tall, e, s, fr + 1);
      case _ =>
    }
  }

  /** Expressions of one operand. */
  lemma {:induction false} OperandFrames<W>(c: Config<W>, tall: nat, e: Expr, st: State<W>, fr: nat)
    requires st.env != [] && Tall(c, tall) && (e.Assign? || e.Member? || e.Unary?)
    ensures Within(c, tall, st, fr, ExprHeight(e), EvalExpr(c, e, st, fr).st)
    decreases c.limits.maxCallDepth - st.depth, e, 0
  {
    hide EvalCall, EvalMemberAssign, EvalBinary, ExecBody, Room;
    var s := Charge(st, fr + 1);
    if s.steps <= c.limits.maxSteps {
      ExprFrames(c, tall, if e.Assign? then e.rhs else if e.Member? then e.owner else e.operand, s, fr + 1);
    }
  }

  lemma {:induction false} CallFrames<W>(c: Config<W>, tall: nat, e: Expr, st: State<W>, fr: nat)
    requires st.env != [] && Tall(c, tall) && e.Call?
    ensures Within(c, tall, st, fr, ArgsHeight(e.args), EvalCall(c, e, st, fr).st)
    decreases c.limits.maxCallDepth - st.depth, e, 0
  {
    ArgsFrames(c, tall, e.args, st, fr);
    var a := EvalArgs(c, e.args, st, fr);
    if a.out.Normal? && e.callee !in c.host.builtins {
      var fn := FindFn(c.prog.functions, e.callee);
      if fn.Some? && a.st.depth + 1 <= c.limits.maxCallDepth {
        TallestBounds(c.prog.functions, fn.value);
        RoomStep(c.limits, a.st.depth, tall);
        BodyFrames(c, tall, fn.value.body, EnterCall(a.st, fn.value, a.vals), fr);
      }
    }
  }

  lemma {:induction false} MemberAssignFrames<W>(c: Config<W>, tall: nat, e: Expr, st: State<W>, fr: nat)
    requires st.env != [] && Tall(c, tall) && e.MemberAssign?
    ensures Within(c, tall, st, fr, Max(ExprHeight(e.owner), ExprHeight(e.rhs)), EvalMemberAssign(c, e, st, fr).st)
    decreases c.limits.maxCallDepth - st.depth, e, 0
  {
    ExprFrames(c, tall, e.owner, st, fr);
    var t := EvalExpr(c, e.owner, st, fr);
    if t.out.Normal? { ExprFrames(c, tall, e.rhs, t.st, fr); }
  }

  lemma {:induction false} BinaryFrames<W>(c: Config<W>, tall: nat, e: Expr, st: State<W>, fr: nat)
    requires st.env != [] && Tall(c, tall) && e.Binary?
    ensures Within(c, tall, st, fr, Max(ExprHeight(e.left), ExprHeight(e.right)), EvalBinary(c, e, st, fr).st)
    decreases c.limits.maxCallDepth - st.depth, e, 0
  {
    ExprFrames(c, tall, e.left, st, fr);
    var l := EvalExpr(c, e.left, st, fr);
    if l.out.Normal? { ExprFrames(c, tall, e.right, l.st, fr); }
  }

  lemma {:induction false} ArgsFrames<W>(c: Config<W>, tall: nat, es: seq<Expr>, st: State<W>, fr: nat)
    requires st.env != [] && Tall(c, tall)
    ensures Within(c, tall, st, fr, ArgsHeight(es), EvalArgs(c, es, st, fr).st)
    decreases c.limits.maxCallDepth - st.depth, es, 0
  {
    if es != [] {
      ExprFrames(c, tall, es[0], st, fr);
      var h := EvalExpr(c, es[0], st, fr);
      if h.out.Normal? { ArgsFrames(c, tall, es[1..], h.st, fr); }
    }
  }

  lemma {:induction false} StmtFrames<W>(c: Config<W>, tall: nat, s: Stmt, st: State<W>, fr: nat)
    requires st.env != [] && Tall(c, tall)
    ensures Within(c, tall, st, fr, StmtHeight(s), ExecStmt(c, s, st, fr).st)
    decreases c.limits.maxCallDepth - st.depth, s, LOOP_CAP + 2
  {
    hide EvalExpr, ExecBody, ExecLoop;
    var st1 := Charge(st, fr + 1);
    if st1.steps <= c.limits.maxSteps {
      match s
      case ExprStmt(e) => ExprFrames(c, tall, e, st1, fr + 1);
      case Let(_, e) => ExprFrames(c, tall, e, st1, fr + 1);
      case Block(body) => BodyFrames(c, tall, body, Push(st1), fr + 1);
      case If(_, _, _) => IfFrames(c, tall, s, st, fr);
      case While(_, _) => LoopFrames(c, tall, s, 0, st1, fr + 1);
      case Return(None) =>
      case Return(Some(e)) => ExprFrames(c, tall, e, st1, fr + 1);
    }
  }

  lemma {:induction false} IfFrames<W>(c: Config<W>, tall: nat, s: Stmt, st: State<W>, fr: nat)
    requires st.env != [] && Tall(c, tall) && s.If? && Bump(st.steps) <= c.limits.maxSteps
    ensures Within(c, tall, st, fr, StmtHeight(s), ExecStmt(c, s, st, fr).st)
    decreases c.limits.maxCallDepth - st.depth, s, LOOP_CAP + 1
  {
    var st1 := Charge(st, fr + 1);
    ExprFrames(c, tall, s.cond, st1, fr + 1);
    var r := EvalExpr(c, s.cond, st1, fr + 1);
    if r.out.Normal? {
      BodyFrames(c, tall, if Truthy(c.host.arith, r.out.v) then s.body else s.elseBody, Push(r.st), fr + 1);
    }
  }

  lemma {:induction false} LoopFrames<W>(c: Config<W>, tall: nat, s: Stmt, safety: nat, st: State<W>, fr: nat)
    requires st.env != [] && Tall(c, tall) && s.While? && safety <= LOOP_CAP
    ensures Within(c, tall, st, fr, Max(ExprHeight(s.cond), BodyHeight(s.body)), ExecLoop(c, s, safety, st, fr).st)
    decreases c.limits.maxCallDepth - st.depth, s, LOOP_CAP - safety
  {
    ExprFrames(c, tall, s.cond, st, fr);
    var g := EvalExpr(c, s.cond, st, fr);
    if g.out.Normal? && Truthy(c.host.arith, g.out.v) {
      BodyFrames(c, tall, s.body, Turn(g.st), fr);
      var b := Pop(ExecBody(c, s.body, Turn(g.st), fr));
      if b.out.Normal? && safety + 1 <= LOOP_CAP { LoopFrames(c, tall, s, safety + 1, b.st, fr); }
    }
  }

  lemma {:induction false} BodyFrames<W>(c: Config<W>, tall: nat, body: seq<Stmt>, st: State<W>, fr: nat)
    requires st.env != [] && Tall(c, tall)
    ensures Within(c, tall, st, fr, BodyHeight(body), ExecBody(c, body, st, fr).st)
    decreases c.limits.maxCallDepth - st.depth, body, 0
  {
    if body != [] {
      StmtFrames(c, tall, body[0], st, fr);
      var h := ExecStmt(c, body[0], st, fr);
      if h.out.Normal? { BodyFrames(c, tall, body[1..], h.st, fr); }
    }
  }
}
