/** Scoping: which environments a piece of code can touch. */
module CowScope {
  import opened Wrappers
  import opened CowAst
  import opened CowInterp

  /** The innermost frame may gain names; every enclosing frame keeps exactly its own. */
  ghost predicate Scoped(env: seq<Frame>, env': seq<Frame>) {
    && |env| == |env'| > 0
    && env[0].Keys <= env'[0].Keys
    && forall i {:trigger env[i]} {:trigger env'[i]} :: 1 <= i < |env| ==> env'[i].Keys == env[i].Keys
  }

  lemma {:induction false} AssignKeepsKeys(env: seq<Frame>, x: string, v: Value)
    requires AssignExisting(env, x, v).Some?
    ensures var env' := AssignExisting(env, x, v).value;
            |env'| == |env| && forall i {:trigger env'[i]} :: 0 <= i < |env| ==> env'[i].Keys == env[i].Keys
  {
    if x !in env[0] {
      AssignKeepsKeys(env[1..], x, v);
      var env' := AssignExisting(env, x, v).value;
      forall i | 0 <= i < |env| ensures env'[i].Keys == env[i].Keys {
        if i > 0 { assert env'[i] == AssignExisting(env[1..], x, v).value[i - 1]; }
      }
    }
  }

  /** Assignment writes the nearest binding, or a new one in the innermost frame: afterwards
      the name reads the new value and every other name reads what it did. */
  lemma {:induction false} AssignMeaning(env: seq<Frame>, x: string, v: Value, y: string)
    requires env != []
    ensures Lookup(AssignOrDefine(env, x, v), y) == (if y == x then Some(v) else Lookup(env, y))
    ensures AssignExisting(env, x, v).Some? <==> Lookup(env, x).Some?
  {
    if x !in env[0] && |env| > 1 {
      AssignMeaning(env[1..], x, v, y);
      if AssignExisting(env[1..], x, v).Some? {
        assert AssignOrDefine(env, x, v)[1..] == AssignOrDefine(env[1..], x, v);
      } else {
        AssignMissing(env[1..], x, v);
        assert AssignOrDefine(env, x, v)[1..] == env[1..];
      }
    } else {
      assert x !in env[0] ==> env[1..] == [] && AssignExisting(env[1..], x, v).None?;
      assert AssignOrDefine(env, x, v)[1..] == env[1..];
    }
  }

  lemma {:induction false} AssignMissing(env: seq<Frame>, x: string, v: Value)
    requires AssignExisting(env, x, v).None?
    ensures Lookup(env, x).None?
  {
    if env != [] { AssignMissing(env[1..], x, v); }
  }

  lemma AssignScoped(env: seq<Frame>, x: string, v: Value)
    requires env != []
    ensures Scoped(env, AssignOrDefine(env, x, v))
  {
    if AssignExisting(env, x, v).Some? { AssignKeepsKeys(env, x, v); }
  }

  lemma LeaveScoped<W>(caller: seq<Frame>, r: Res<W>, callee: seq<Frame>)
    requires caller != [] && |callee| == 2 && callee[1] == caller[|caller| - 1] && Scoped(callee, r.st.env)
    ensures Scoped(caller, LeaveCall(caller, r).st.env)
    ensures LeaveCall(caller, r).st.env[..|caller| - 1] == caller[..|caller| - 1]
  {
    assert callee[1].Keys == r.st.env[1].Keys;
  }

  lemma PopScoped<W>(env: seq<Frame>, r: Res<W>)
    requires env != [] && Scoped([map[]] + env, r.st.env)
    ensures Scoped(env, Pop(r).st.env)
    ensures forall i :: 0 <= i < |env| ==> Pop(r).st.env[i].Keys == env[i].Keys
  {
    forall i | 0 <= i < |env| ensures Pop(r).st.env[i].Keys == env[i].Keys {
      assert Pop(r).st.env[i] == r.st.env[i + 1];
      assert ([map[]] + env)[i + 1] == env[i];
    }
  }

  lemma {:induction false} ExprScoped<W>(c: Config<W>, e: Expr, st: State<W>, fr: nat)
    requires st.env != []
    ensures Scoped(st.env, EvalExpr(c, e, st, fr).st.env)
    decreases c.limits.maxCallDepth - st.depth, e, 1
  {
    hide EvalCall, EvalMemberAssign, EvalBinary, ExecBody;
    var s := Charge(st, fr + 1);
    if s.steps <= c.limits.maxSteps {
      match e
      case Assign(x, rhs) =>
        ExprScoped(c, rhs, s, fr + 1);
        var r := EvalExpr(c, rhs, s, fr + 1);
        if r.out.Normal? { AssignScoped(r.st.env, x, r.out.v); }
      case Member(obj, _) => ExprScoped(c, obj, s, fr + 1);
      case Unary(_, x) => ExprScoped(c, x, s, fr + 1);
      case Call(_, _) => CallScoped(c, e, s, fr + 1);
      case MemberAssign(_, _, _) => MemberAssignScoped(c, e, s, fr + 1);
      case Binary(_, _, _) => BinaryScoped(c, e, s, fr + 1);
      case _ =>
    }
  }

  lemma {:induction false} CallScoped<W>(c: Config<W>, e: Expr, st: State<W>, fr: nat)
    requires st.env != [] && e.Call?
    ensures Scoped(st.env, EvalCall(c, e, st, fr).st.env)
    decreases c.limits.maxCallDepth - st.depth, e, 0
  {
    ArgsScoped(c, e.args, st, fr);
    var a := EvalArgs(c, e.args, st, fr);
    if a.out.Normal? && e.callee !in c.host.builtins {
      var fn := FindFn(c.prog.functions, e.callee);
      if fn.Some? && a.st.depth + 1 <= c.limits.maxCallDepth {
        var st1 := EnterCall(a.st, fn.value, a.vals);
        BodyScoped(c, fn.value.body, st1, fr);
        LeaveScoped(a.st.env, ExecBody(c, fn.value.body, st1, fr), st1.env);
      }
    }
  }

  lemma {:induction false} MemberAssignScoped<W>(c: Config<W>, e: Expr, st: State<W>, fr: nat)
    requires st.env != [] && e.MemberAssign?
    ensures Scoped(st.env, EvalMemberAssign(c, e, st, fr).st.env)
    decreases c.limits.maxCallDepth - st.depth, e, 0
  {
    ExprScoped(c, e.owner, st, fr);
    var t := EvalExpr(c, e.owner, st, fr);
    if t.out.Normal? { ExprScoped(c, e.rhs, t.st, fr); }
  }

  lemma {:induction false} BinaryScoped<W>(c: Config<W>, e: Expr, st: State<W>, fr: nat)
    requires st.env != [] && e.Binary?
    ensures Scoped(st.env, EvalBinary(c, e, st, fr).st.env)
    decreases c.limits.maxCallDepth - st.depth, e, 0
  {
    ExprScoped(c, e.left, st, fr);
    var l := EvalExpr(c, e.left, st, fr);
    if l.out.Normal? { ExprScoped(c, e.right, l.st, fr); }
  }

  lemma {:induction false} ArgsScoped<W>(c: Config<W>, es: seq<Expr>, st: State<W>, fr: nat)
    requires st.env != []
    ensures Scoped(st.env, EvalArgs(c, es, st, fr).st.env)
    decreases c.limits.maxCallDepth - st.depth, es, 0
  {
    if es != [] {
      ExprScoped(c, es[0], st, fr);
      var h := EvalExpr(c, es[0], st, fr);
      if h.out.Normal? { ArgsScoped(c, es[1..], h.st, fr); }
    }
  }

  lemma {:induction false} StmtScoped<W>(c: Config<W>, s: Stmt, st: State<W>, fr: nat)
    requires st.env != []
    ensures Scoped(st.env, ExecStmt(c, s, st, fr).st.env)
    decreases c.limits.maxCallDepth - st.depth, s, LOOP_CAP + 2
  {
    hide EvalExpr, ExecBody, ExecLoop;
    var st1 := Charge(st, fr + 1);
    if st1.steps <= c.limits.maxSteps {
      match s
      case ExprStmt(e) => ExprScoped(c, e, st1, fr + 1);
      case Let(_, e) => ExprScoped(c, e, st1, fr + 1);
      case Block(body) => InnerScoped(c, body, Push(st1), st1.env, fr + 1);
      case If(cond, body, elseBody) =>
        ExprScoped(c, cond, st1, fr + 1);
        var r := EvalExpr(c, cond, st1, fr + 1);
        if r.out.Normal? {
          InnerScoped(c, if Truthy(c.host.arith, r.out.v) then body else elseBody, Push(r.st), r.st.env, fr + 1);
        }
      case While(_, _) => LoopScoped(c, s, 0, st1, fr + 1);
      case Return(None) =>
      case Return(Some(e)) => ExprScoped(c, e, st1, fr + 1);
    }
  }

  /** The statements of a nested block leave the names of every enclosing frame as they are. */
  lemma {:induction false} InnerScoped<W>(c: Config<W>, body: seq<Stmt>, inner: State<W>, env: seq<Frame>, fr: nat)
    requires env != [] && inner.env == [map[]] + env
    ensures var env' := Pop(ExecBody(c, body, inner, fr)).st.env;
            Scoped(env, env') && forall i :: 0 <= i < |env| ==> env'[i].Keys == env[i].Keys
    decreases c.limits.maxCallDepth - inner.depth, body, 1
  {
    BodyScoped(c, body, inner, fr);
    PopScoped(env, ExecBody(c, body, inner, fr));
  }

  lemma {:induction false} LoopScoped<W>(c: Config<W>, s: Stmt, safety: nat, st: State<W>, fr: nat)
    requires st.env != [] && s.While? && safety <= LOOP_CAP
    ensures Scoped(st.env, ExecLoop(c, s, safety, st, fr).st.env)
    decreases c.limits.maxCallDepth - st.depth, s, LOOP_CAP - safety
  {
    ExprScoped(c, s.cond, st, fr);
    var g := EvalExpr(c, s.cond, st, fr);
    if g.out.Normal? && Truthy(c.host.arith, g.out.v) {
      InnerScoped(c, s.body, Turn(g.st), g.st.env, fr);
      var b := Pop(ExecBody(c, s.body, Turn(g.st), fr));
      if b.out.Normal? && safety + 1 <= LOOP_CAP { LoopScoped(c, s, safety + 1, b.st, fr); }
    }
  }

  lemma {:induction false} BodyScoped<W>(c: Config<W>, body: seq<Stmt>, st: State<W>, fr: nat)
    requires st.env != []
    ensures Scoped(st.env, ExecBody(c, body, st, fr).st.env)
    decreases c.limits.maxCallDepth - st.depth, body, 0
  {
    if body != [] {
      StmtScoped(c, body[0], st, fr);
      var h := ExecStmt(c, body[0], st, fr);
      if h.out.Normal? { BodyScoped(c, body[1..], h.st, fr); }
    }
  }
}
