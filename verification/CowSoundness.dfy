/** Every evaluation that no limit stops has a derivation: the evaluator does only what programs mean. */
module CowSoundness {
  import opened Wrappers
  import opened CowAst
  import opened CowInterp
  import opened CowMeaning
  import opened CowValues

  function Bare<W>(st: State<W>): Store<W> { Store(st.env, st.world) }

  function ExprEnd(out: Outcome): End {
    if out.Normal? then Val(out.v) else Failed
  }

  function StmtEnd(out: Outcome): End {
    match out
    case Normal(_) => Done
    case Returned(v) => Ret(v)
    case _ => Failed
  }

  // ----- return leaves statements only -----

  lemma {:induction false} ExprReturnsNothing<W>(c: Config<W>, e: Expr, st: State<W>, fr: nat)
    requires st.env != []
    ensures !EvalExpr(c, e, st, fr).out.Returned?
    decreases e
  {
    hide ExecBody;
    var s := Charge(st, fr + 1);
    if s.steps <= c.limits.maxSteps {
      match e
      case Assign(_, rhs) => ExprReturnsNothing(c, rhs, s, fr + 1);
      case Member(x, _) => ExprReturnsNothing(c, x, s, fr + 1);
      case Unary(_, x) => ExprReturnsNothing(c, x, s, fr + 1);
      case Call(_, args) => ArgsReturnNothing(c, args, s, fr + 1);
      case MemberAssign(x, _, rhs) =>
        ExprReturnsNothing(c, x, s, fr + 1);
        ExprReturnsNothing(c, rhs, EvalExpr(c, x, s, fr + 1).st, fr + 1);
      case Binary(_, l, r) =>
        ExprReturnsNothing(c, l, s, fr + 1);
        ExprReturnsNothing(c, r, EvalExpr(c, l, s, fr + 1).st, fr + 1);
      case _ =>
    }
  }

  lemma {:induction false} ArgsReturnNothing<W>(c: Config<W>, es: seq<Expr>, st: State<W>, fr: nat)
    requires st.env != []
    ensures !EvalArgs(c, es, st, fr).out.Returned?
    decreases es
  {
    if es != [] {
      ExprReturnsNothing(c, es[0], st, fr);
      ArgsReturnNothing(c, es[1..], EvalExpr(c, es[0], st, fr).st, fr);
    }
  }

  // ----- building derivations -----

  lemma Axiom<W>(prog: Program, host: Host<W>, f: Fact<W>) returns (p: Proof<W>)
    requires Follows(prog, host, f, [])
    ensures p.fact == f && Proves(prog, host, p)
  {
    hide Follows;
    p := Proof(f, []);
    assert Facts<W>([]) == [];
  }

  lemma From<W>(prog: Program, host: Host<W>, f: Fact<W>, a: Proof<W>) returns (p: Proof<W>)
    requires Proves(prog, host, a) && Follows(prog, host, f, [a.fact])
    ensures p.fact == f && Proves(prog, host, p)
  {
    hide Follows;
    p := Proof(f, [a]);
    assert Facts([a]) == [a.fact];
  }

  lemma From2<W>(prog: Program, host: Host<W>, f: Fact<W>, a: Proof<W>, b: Proof<W>) returns (p: Proof<W>)
    requires Proves(prog, host, a) && Proves(prog, host, b) && Follows(prog, host, f, [a.fact, b.fact])
    ensures p.fact == f && Proves(prog, host, p)
  {
    hide Follows;
    p := Proof(f, [a, b]);
    assert Facts([a, b]) == [a.fact, b.fact];
  }

  lemma From3<W>(prog: Program, host: Host<W>, f: Fact<W>, a: Proof<W>, b: Proof<W>, d: Proof<W>)
    returns (p: Proof<W>)
    requires Proves(prog, host, a) && Proves(prog, host, b) && Proves(prog, host, d)
    requires Follows(prog, host, f, [a.fact, b.fact, d.fact])
    ensures p.fact == f && Proves(prog, host, p)
  {
    hide Follows;
    p := Proof(f, [a, b, d]);
    assert Facts([a, b, d]) == [a.fact, b.fact, d.fact];
  }

  // ----- what the evaluator computed, as facts -----

  function ExprFact<W>(c: Config<W>, e: Expr, st: State<W>, fr: nat): Fact<W>
    requires st.env != []
  {
    var r := EvalExpr(c, e, st, fr);
    Expression(e, Bare(st), ExprEnd(r.out), Bare(r.st))
  }

  function StmtFact<W>(c: Config<W>, s: Stmt, st: State<W>, fr: nat): Fact<W>
    requires st.env != []
  {
    var r := ExecStmt(c, s, st, fr);
    Statement(s, Bare(st), StmtEnd(r.out), Bare(r.st))
  }

  function LoopFact<W>(c: Config<W>, s: Stmt, safety: nat, st: State<W>, fr: nat): Fact<W>
    requires st.env != [] && s.While? && safety <= LOOP_CAP
  {
    var r := ExecLoop(c, s, safety, st, fr);
    Iteration(s.cond, s.body, Bare(st), StmtEnd(r.out), Bare(r.st))
  }

  function BodyFact<W>(c: Config<W>, body: seq<Stmt>, st: State<W>, fr: nat): Fact<W>
    requires st.env != []
  {
    var r := ExecBody(c, body, st, fr);
    Body(body, Bare(st), StmtEnd(r.out), Bare(r.st))
  }

  // ----- the evaluator's steps -----

  lemma {:induction false} ExprSound<W>(c: Config<W>, e: Expr, st: State<W>, fr: nat) returns (p: Proof<W>)
    requires st.env != [] && !EvalExpr(c, e, st, fr).out.Limit?
    ensures Proves(c.prog, c.host, p) && p.fact == ExprFact(c, e, st, fr)
    decreases c.limits.maxCallDepth - st.depth, e, 1
  {
    hide EvalAssign, EvalCall, EvalMember, EvalBinary, EvalMemberAssign, Lookup, Reads, Prefixes, UnaryOp, Proves;
    hide CallRule, MemberRule, BinaryRule;
    var s, f := Charge(st, fr + 1), ExprFact(c, e, st, fr);
    match e
    case Ident(x) =>
      ReadMeans(s.env, x, f.o);
      p := Axiom(c.prog, c.host, f);
    case Unary(op, x) =>
      var a := ExprSound(c, x, s, fr + 1);
      ExprReturnsNothing(c, x, s, fr + 1);
      if a.fact.o.Val? { PrefixMeans(c.host.arith, op, a.fact.o.v, f.o); }
      p := From(c.prog, c.host, f, a);
    case Assign(_, _) => p := AssignSound(c, e, s, fr + 1);
    case Member(_, _) => p := MemberSound(c, e, s, fr + 1);
    case Call(_, _) => p := CallSound(c, e, s, fr + 1);
    case MemberAssign(_, _, _) => p := MemberAssignSound(c, e, s, fr + 1);
    case Binary(_, _, _) => p := BinarySound(c, e, s, fr + 1);
    case _ => p := Axiom(c.prog, c.host, f);
  }

  lemma {:induction false} AssignSound<W>(c: Config<W>, e: Expr, st: State<W>, fr: nat) returns (p: Proof<W>)
    requires st.env != [] && e.Assign? && !EvalAssign(c, e, st, fr).out.Limit?
    ensures Proves(c.prog, c.host, p)
    ensures var r := EvalAssign(c, e, st, fr); p.fact == Expression(e, Bare(st), ExprEnd(r.out), Bare(r.st))
    decreases c.limits.maxCallDepth - st.depth, e, 0
  {
    hide EvalExpr, AssignOrDefine, Writes, Proves;
    var a := ExprSound(c, e.rhs, st, fr);
    var r, q := EvalAssign(c, e, st, fr), EvalExpr(c, e.rhs, st, fr);
    ExprReturnsNothing(c, e.rhs, st, fr);
    if q.out.Normal? { WriteMeans(q.st.env, e.target, q.out.v, r.st.env); }
    p := From(c.prog, c.host, Expression(e, Bare(st), ExprEnd(r.out), Bare(r.st)), a);
  }

  lemma {:induction false} MemberSound<W>(c: Config<W>, e: Expr, st: State<W>, fr: nat) returns (p: Proof<W>)
    requires st.env != [] && e.Member? && !EvalMember(c, e, st, fr).out.Limit?
    ensures Proves(c.prog, c.host, p)
    ensures var r := EvalMember(c, e, st, fr); p.fact == Expression(e, Bare(st), ExprEnd(r.out), Bare(r.st))
    decreases c.limits.maxCallDepth - st.depth, e, 0
  {
    hide EvalExpr, Proves;
    var a := ExprSound(c, e.owner, st, fr);
    var r := EvalMember(c, e, st, fr);
    ExprReturnsNothing(c, e.owner, st, fr);
    p := From(c.prog, c.host, Expression(e, Bare(st), ExprEnd(r.out), Bare(r.st)), a);
  }

  lemma {:induction false} MemberAssignSound<W>(c: Config<W>, e: Expr, st: State<W>, fr: nat) returns (p: Proof<W>)
    requires st.env != [] && e.MemberAssign? && !EvalMemberAssign(c, e, st, fr).out.Limit?
    ensures Proves(c.prog, c.host, p)
    ensures var r := EvalMemberAssign(c, e, st, fr); p.fact == Expression(e, Bare(st), ExprEnd(r.out), Bare(r.st))
    decreases c.limits.maxCallDepth - st.depth, e, 0
  {
    hide EvalExpr, Proves;
    var a := ExprSound(c, e.owner, st, fr);
    var t, r := EvalExpr(c, e.owner, st, fr), EvalMemberAssign(c, e, st, fr);
    var f := Expression(e, Bare(st), ExprEnd(r.out), Bare(r.st));
    ExprReturnsNothing(c, e.owner, st, fr);
    if t.out.Normal? {
      var b := ExprSound(c, e.rhs, t.st, fr);
      ExprReturnsNothing(c, e.rhs, t.st, fr);
      p := From2(c.prog, c.host, f, a, b);
    } else {
      p := From(c.prog, c.host, f, a);
    }
  }

  lemma {:induction false} BinarySound<W>(c: Config<W>, e: Expr, st: State<W>, fr: nat) returns (p: Proof<W>)
    requires st.env != [] && e.Binary? && !EvalBinary(c, e, st, fr).out.Limit?
    ensures Proves(c.prog, c.host, p)
    ensures var r := EvalBinary(c, e, st, fr); p.fact == Expression(e, Bare(st), ExprEnd(r.out), Bare(r.st))
    decreases c.limits.maxCallDepth - st.depth, e, 0
  {
    hide EvalExpr, Truthy, IsTrue, BinaryOp, Operates, Proves;
    var a := ExprSound(c, e.left, st, fr);
    var l, r := EvalExpr(c, e.left, st, fr), EvalBinary(c, e, st, fr);
    var f := Expression(e, Bare(st), ExprEnd(r.out), Bare(r.st));
    ExprReturnsNothing(c, e.left, st, fr);
    if l.out.Normal? { TruthMeans(c.host.arith, l.out.v); }
    if l.out.Normal? && !ShortCut(c.host.arith, e.bop, l.out.v) {
      var b := ExprSound(c, e.right, l.st, fr);
      ExprReturnsNothing(c, e.right, l.st, fr);
      if b.fact.o.Val? && e.bop != And && e.bop != Or {
        OperatorMeans(c.host.arith, e.bop, l.out.v, b.fact.o.v, f.o);
      }
      p := From2(c.prog, c.host, f, a, b);
    } else {
      p := From(c.prog, c.host, f, a);
    }
  }

  lemma {:induction false} CallSound<W>(c: Config<W>, e: Expr, st: State<W>, fr: nat) returns (p: Proof<W>)
    requires st.env != [] && e.Call? && !EvalCall(c, e, st, fr).out.Limit?
    ensures Proves(c.prog, c.host, p)
    ensures var r := EvalCall(c, e, st, fr); p.fact == Expression(e, Bare(st), ExprEnd(r.out), Bare(r.st))
    decreases c.limits.maxCallDepth - st.depth, e, 0
  {
    hide EvalArgs, ExecBody, FindFn, Declares, Undeclared, Proves;
    var a := ArgsSound(c, e.args, st, fr);
    var g, r := EvalArgs(c, e.args, st, fr), EvalCall(c, e, st, fr);
    var f := Expression(e, Bare(st), ExprEnd(r.out), Bare(r.st));
    ArgsReturnNothing(c, e.args, st, fr);
    FindMeans(c.prog.functions, e.callee);
    var fn := FindFn(c.prog.functions, e.callee);
    if g.out.Normal? && e.callee !in c.host.builtins && fn.Some? {
      var b := BodySound(c, fn.value.body, EnterCall(g.st, fn.value, g.vals), fr);
      CallFollows(c, e, st, fr, fn.value, a.fact, b.fact);
      p := From2(c.prog, c.host, f, a, b);
    } else {
      p := From(c.prog, c.host, f, a);
    }
  }

  lemma CallFollows<W>(c: Config<W>, e: Expr, st: State<W>, fr: nat, fn: FnDecl, a: Fact<W>, b: Fact<W>)
    requires st.env != [] && e.Call? && !EvalCall(c, e, st, fr).out.Limit?
    requires e.callee !in c.host.builtins && Declares(c.prog.functions, e.callee, fn)
    requires FindFn(c.prog.functions, e.callee) == Some(fn) && !Undeclared(c.prog.functions, e.callee)
    requires var g := EvalArgs(c, e.args, st, fr);
             && g.out.Normal? && a == Arguments(e.args, Bare(st), true, g.vals, Bare(g.st))
             && b == BodyFact(c, fn.body, EnterCall(g.st, fn, g.vals), fr)
    ensures var r := EvalCall(c, e, st, fr);
            CallRule(c.prog, c.host, e.callee, e.args, Bare(st), ExprEnd(r.out), Bare(r.st), [a, b])
  {
    hide EvalArgs, ExecBody, FindFn, Declares, Undeclared, ParamFrame, Binds;
    var g, r := EvalArgs(c, e.args, st, fr), EvalCall(c, e, st, fr);
    var frame := ParamFrame(fn.params, g.vals, |fn.params|);
    BindMeans(fn.params, g.vals, frame);
    var inner := ExecBody(c, fn.body, EnterCall(g.st, fn, g.vals), fr);
    var env := g.st.env;
    assert env[..|env| - 1] + [inner.st.env[1]] == env[|env| - 1 := inner.st.env[1]];
    assert b.s == Store([frame, a.s'.env[|a.s'.env| - 1]], a.s'.world);
  }

  lemma {:induction false} ArgsSound<W>(c: Config<W>, es: seq<Expr>, st: State<W>, fr: nat) returns (p: Proof<W>)
    requires st.env != [] && !EvalArgs(c, es, st, fr).out.Limit?
    ensures Proves(c.prog, c.host, p)
    ensures var r := EvalArgs(c, es, st, fr);
            && p.fact.Arguments? && p.fact.es == es && p.fact.s == Bare(st) && p.fact.s' == Bare(r.st)
            && p.fact.ok == r.out.Normal? && (r.out.Normal? ==> p.fact.vals == r.vals)
    decreases c.limits.maxCallDepth - st.depth, es, 0
  {
    hide EvalExpr, Proves;
    var r := EvalArgs(c, es, st, fr);
    var f := Arguments(es, Bare(st), r.out.Normal?, r.vals, Bare(r.st));
    if es == [] {
      p := Axiom(c.prog, c.host, f);
    } else {
      var a := ExprSound(c, es[0], st, fr);
      var h := EvalExpr(c, es[0], st, fr);
      if h.out.Normal? {
        var b := ArgsSound(c, es[1..], h.st, fr);
        p := From2(c.prog, c.host, f, a, b);
      } else {
        p := From(c.prog, c.host, f, a);
      }
    }
  }

  lemma {:induction false} StmtSound<W>(c: Config<W>, s: Stmt, st: State<W>, fr: nat) returns (p: Proof<W>)
    requires st.env != [] && !ExecStmt(c, s, st, fr).out.Limit?
    ensures Proves(c.prog, c.host, p) && p.fact == StmtFact(c, s, st, fr)
    decreases c.limits.maxCallDepth - st.depth, s, LOOP_CAP + 2
  {
    hide EvalExpr, ExecBody, ExecLoop, Proves, Truthy, IsTrue;
    var st1, f := Charge(st, fr + 1), StmtFact(c, s, st, fr);
    match s
    case ExprStmt(e) =>
      var a := ExprSound(c, e, st1, fr + 1);
      ExprReturnsNothing(c, e, st1, fr + 1);
      p := From(c.prog, c.host, f, a);
    case Let(_, e) =>
      var a := ExprSound(c, e, st1, fr + 1);
      ExprReturnsNothing(c, e, st1, fr + 1);
      p := From(c.prog, c.host, f, a);
    case Block(body) =>
      var a := BodySound(c, body, Push(st1), fr + 1);
      p := From(c.prog, c.host, f, a);
    case If(_, _, _) => p := IfSound(c, s, st, fr);
    case While(_, _) =>
      var a := LoopSound(c, s, 0, st1, fr + 1);
      p := From(c.prog, c.host, f, a);
    case Return(None) => p := Axiom(c.prog, c.host, f);
    case Return(Some(e)) =>
      var a := ExprSound(c, e, st1, fr + 1);
      ExprReturnsNothing(c, e, st1, fr + 1);
      p := From(c.prog, c.host, f, a);
  }

  lemma {:induction false} IfSound<W>(c: Config<W>, s: Stmt, st: State<W>, fr: nat) returns (p: Proof<W>)
    requires st.env != [] && s.If? && !ExecStmt(c, s, st, fr).out.Limit?
    ensures Proves(c.prog, c.host, p) && p.fact == StmtFact(c, s, st, fr)
    decreases c.limits.maxCallDepth - st.depth, s, LOOP_CAP + 1
  {
    hide EvalExpr, ExecBody, ExecLoop, Proves, Truthy, IsTrue;
    var st1, f := Charge(st, fr + 1), StmtFact(c, s, st, fr);
    var a := ExprSound(c, s.cond, st1, fr + 1);
    ExprReturnsNothing(c, s.cond, st1, fr + 1);
    var g := EvalExpr(c, s.cond, st1, fr + 1);
    if g.out.Normal? {
      TruthMeans(c.host.arith, g.out.v);
      var branch := if Truthy(c.host.arith, g.out.v) then s.body else s.elseBody;
      if Truthy(c.host.arith, g.out.v) || s.elseBody != [] {
        var b := BodySound(c, branch, Push(g.st), fr + 1);
        p := From2(c.prog, c.host, f, a, b);
      } else {
        p := From(c.prog, c.host, f, a);
      }
    } else {
      p := From(c.prog, c.host, f, a);
    }
  }

  lemma {:induction false} LoopSound<W>(c: Config<W>, s: Stmt, safety: nat, st: State<W>, fr: nat)
    returns (p: Proof<W>)
    requires st.env != [] && s.While? && safety <= LOOP_CAP && !ExecLoop(c, s, safety, st, fr).out.Limit?
    ensures Proves(c.prog, c.host, p) && p.fact == LoopFact(c, s, safety, st, fr)
    decreases c.limits.maxCallDepth - st.depth, s, LOOP_CAP - safety
  {
    hide EvalExpr, ExecBody, Proves, Truthy, IsTrue;
    var f := LoopFact(c, s, safety, st, fr);
    var a := ExprSound(c, s.cond, st, fr);
    ExprReturnsNothing(c, s.cond, st, fr);
    var g := EvalExpr(c, s.cond, st, fr);
    if !g.out.Normal? {
      p := From(c.prog, c.host, f, a);
    } else {
      TruthMeans(c.host.arith, g.out.v);
      if !Truthy(c.host.arith, g.out.v) {
        p := From(c.prog, c.host, f, a);
      } else {
        var inner := BodySound(c, s.body, Turn(g.st), fr);
        var b := Pop(ExecBody(c, s.body, Turn(g.st), fr));
        if b.out.Normal? {
          var rest := LoopSound(c, s, safety + 1, b.st, fr);
          p := From3(c.prog, c.host, f, a, inner, rest);
        } else {
          p := From2(c.prog, c.host, f, a, inner);
        }
      }
    }
  }

  lemma {:induction false} BodySound<W>(c: Config<W>, body: seq<Stmt>, st: State<W>, fr: nat) returns (p: Proof<W>)
    requires st.env != [] && !ExecBody(c, body, st, fr).out.Limit?
    ensures Proves(c.prog, c.host, p) && p.fact == BodyFact(c, body, st, fr)
    decreases c.limits.maxCallDepth - st.depth, body, 0
  {
    hide ExecStmt, Proves;
    var f := BodyFact(c, body, st, fr);
    if body == [] {
      p := Axiom(c.prog, c.host, f);
    } else {
      var a := StmtSound(c, body[0], st, fr);
      var h := ExecStmt(c, body[0], st, fr);
      if h.out.Normal? {
        var b := BodySound(c, body[1..], h.st, fr);
        p := From2(c.prog, c.host, f, a, b);
      } else {
        p := From(c.prog, c.host, f, a);
      }
    }
  }
}
