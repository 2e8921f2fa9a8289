/** The other half: what a derivation says is what the evaluator computes, unless a limit stops it.
    Together: programs mean exactly what the evaluator does with them. */
module CowCompleteness {
  import opened Wrappers
  import opened CowAst
  import opened CowInterp
  import opened CowMeaning
  import opened CowValues
  import opened CowSoundness

  lemma Premises<W>(prog: Program, host: Host<W>, p: Proof<W>) returns (ps: seq<Fact<W>>)
    requires Proves(prog, host, p)
    ensures |ps| == |p.premises| && Follows(prog, host, p.fact, ps)
    ensures forall i :: 0 <= i < |ps| ==> ps[i] == p.premises[i].fact && Proves(prog, host, p.premises[i])
  {
    hide Follows;
    ps := Facts(p.premises);
  }

  // ----- expressions -----

  lemma {:induction false} ExprComplete<W>(c: Config<W>, p: Proof<W>, st: State<W>, fr: nat)
    requires st.env != [] && Proves(c.prog, c.host, p) && p.fact.Expression? && p.fact.s == Bare(st)
    ensures EvalExpr(c, p.fact.e, st, fr).out.Limit? || p.fact == ExprFact(c, p.fact.e, st, fr)
    decreases p, 1
  {
    hide EvalAssign, EvalCall, EvalMember, EvalBinary, EvalMemberAssign, Lookup, Reads, Prefixes, UnaryOp, Proves;
    hide CallRule, MemberRule, BinaryRule;
    var e, f, s := p.fact.e, p.fact, Charge(st, fr + 1);
    if s.steps <= c.limits.maxSteps {
      var ps := Premises(c.prog, c.host, p);
      match e
      case Ident(x) => ReadMeans(s.env, x, f.o);
      case Unary(op, x) =>
        ExprComplete(c, p.premises[0], s, fr + 1);
        if ps[0].o.Val? { PrefixMeans(c.host.arith, op, ps[0].o.v, f.o); }
      case Assign(_, _) => AssignComplete(c, p, s, fr + 1);
      case Member(_, _) => MemberComplete(c, p, s, fr + 1);
      case Call(_, _) => CallComplete(c, p, s, fr + 1);
      case MemberAssign(_, _, _) => MemberAssignComplete(c, p, s, fr + 1);
      case Binary(_, _, _) => BinaryComplete(c, p, s, fr + 1);
      case _ =>
    }
  }

  /** The fact says what the evaluator's result says. */
  ghost predicate Matches<W>(f: Fact<W>, r: Res<W>)
    requires f.Expression?
  {
    r.out.Limit? || (f.o == ExprEnd(r.out) && f.s' == Bare(r.st))
  }

  lemma {:induction false} AssignComplete<W>(c: Config<W>, p: Proof<W>, st: State<W>, fr: nat)
    requires st.env != [] && Proves(c.prog, c.host, p) && p.fact.Expression? && p.fact.s == Bare(st)
    requires p.fact.e.Assign?
    ensures Matches(p.fact, EvalAssign(c, p.fact.e, st, fr))
    decreases p, 0
  {
    hide EvalExpr, AssignOrDefine, Writes, Proves;
    var f := p.fact;
    var ps := Premises(c.prog, c.host, p);
    ExprComplete(c, p.premises[0], st, fr);
    ExprReturnsNothing(c, f.e.rhs, st, fr);
    var q := EvalExpr(c, f.e.rhs, st, fr);
    if q.out.Normal? { WriteMeans(q.st.env, f.e.target, q.out.v, f.s'.env); }
  }

  lemma {:induction false} MemberComplete<W>(c: Config<W>, p: Proof<W>, st: State<W>, fr: nat)
    requires st.env != [] && Proves(c.prog, c.host, p) && p.fact.Expression? && p.fact.s == Bare(st)
    requires p.fact.e.Member?
    ensures Matches(p.fact, EvalMember(c, p.fact.e, st, fr))
    decreases p, 0
  {
    hide EvalExpr, Proves;
    var ps := Premises(c.prog, c.host, p);
    ExprComplete(c, p.premises[0], st, fr);
  }

  lemma {:induction false} MemberAssignComplete<W>(c: Config<W>, p: Proof<W>, st: State<W>, fr: nat)
    requires st.env != [] && Proves(c.prog, c.host, p) && p.fact.Expression? && p.fact.s == Bare(st)
    requires p.fact.e.MemberAssign?
    ensures Matches(p.fact, EvalMemberAssign(c, p.fact.e, st, fr))
    decreases p, 0
  {
    hide EvalExpr, Proves;
    var ps := Premises(c.prog, c.host, p);
    ExprComplete(c, p.premises[0], st, fr);
    var t := EvalExpr(c, p.fact.e.owner, st, fr);
    if t.out.Normal? { ExprComplete(c, p.premises[1], t.st, fr); }
  }

  lemma {:induction false} BinaryComplete<W>(c: Config<W>, p: Proof<W>, st: State<W>, fr: nat)
    requires st.env != [] && Proves(c.prog, c.host, p) && p.fact.Expression? && p.fact.s == Bare(st)
    requires p.fact.e.Binary?
    ensures Matches(p.fact, EvalBinary(c, p.fact.e, st, fr))
    decreases p, 0
  {
    hide EvalExpr, Truthy, IsTrue, BinaryOp, Operates, Proves;
    var e := p.fact.e;
    var ps := Premises(c.prog, c.host, p);
    ExprComplete(c, p.premises[0], st, fr);
    var l := EvalExpr(c, e.left, st, fr);
    if l.out.Normal? {
      TruthMeans(c.host.arith, l.out.v);
      if !ShortCut(c.host.arith, e.bop, l.out.v) {
        ExprComplete(c, p.premises[1], l.st, fr);
        var r := EvalExpr(c, e.right, l.st, fr);
        if r.out.Normal? && e.bop != And && e.bop != Or {
          OperatorMeans(c.host.arith, e.bop, l.out.v, r.out.v, p.fact.o);
        }
      }
    }
  }

  lemma {:induction false} CallComplete<W>(c: Config<W>, p: Proof<W>, st: State<W>, fr: nat)
    requires st.env != [] && Proves(c.prog, c.host, p) && p.fact.Expression? && p.fact.s == Bare(st)
    requires p.fact.e.Call?
    ensures Matches(p.fact, EvalCall(c, p.fact.e, st, fr))
    decreases p, 0
  {
    hide EvalArgs, ExecBody, FindFn, Declares, Undeclared, Binds, ParamFrame, Proves;
    var e := p.fact.e;
    var ps := Premises(c.prog, c.host, p);
    ArgsComplete(c, p.premises[0], st, fr);
    FindMeans(c.prog.functions, e.callee);
    var g := EvalArgs(c, e.args, st, fr);
    if g.out.Normal? && e.callee !in c.host.builtins {
      var found := FindFn(c.prog.functions, e.callee);
      if found.Some? && g.st.depth + 1 <= c.limits.maxCallDepth {
        var fn, frame := found.value, ParamFrame(found.value.params, g.vals, |found.value.params|);
        forall other | Binds(fn.params, g.vals, other) ensures other == frame { BindMeans(fn.params, g.vals, other); }
        var inner := EnterCall(g.st, fn, g.vals);
        assert ps[1].ss == fn.body && ps[1].s == Bare(inner);
        BodyComplete(c, p.premises[1], inner, fr);
        var r, env := ExecBody(c, fn.body, inner, fr), g.st.env;
        assert env[..|env| - 1] + [r.st.env[1]] == env[|env| - 1 := r.st.env[1]];
      }
    }
  }

  lemma {:induction false} ArgsComplete<W>(c: Config<W>, p: Proof<W>, st: State<W>, fr: nat)
    requires st.env != [] && Proves(c.prog, c.host, p) && p.fact.Arguments? && p.fact.s == Bare(st)
    ensures var r := EvalArgs(c, p.fact.es, st, fr);
            r.out.Limit? || (p.fact.s' == Bare(r.st) && p.fact.ok == r.out.Normal?
                             && (p.fact.ok ==> p.fact.vals == r.vals))
    decreases p, 1
  {
    hide EvalExpr, Proves;
    var es := p.fact.es;
    var ps := Premises(c.prog, c.host, p);
    if es != [] {
      ExprComplete(c, p.premises[0], st, fr);
      var h := EvalExpr(c, es[0], st, fr);
      if h.out.Normal? { ArgsComplete(c, p.premises[1], h.st, fr); }
    }
  }

  // ----- statements -----

  lemma {:induction false} StmtComplete<W>(c: Config<W>, p: Proof<W>, st: State<W>, fr: nat)
    requires st.env != [] && Proves(c.prog, c.host, p) && p.fact.Statement? && p.fact.s == Bare(st)
    ensures ExecStmt(c, p.fact.st, st, fr).out.Limit? || p.fact == StmtFact(c, p.fact.st, st, fr)
    decreases p, 1
  {
    hide EvalExpr, ExecBody, ExecLoop, Proves, Truthy, IsTrue;
    var s, st1 := p.fact.st, Charge(st, fr + 1);
    var ps := Premises(c.prog, c.host, p);
    if st1.steps <= c.limits.maxSteps {
      match s
      case ExprStmt(e) =>
        ExprComplete(c, p.premises[0], st1, fr + 1);
        ExprReturnsNothing(c, e, st1, fr + 1);
      case Let(_, e) =>
        ExprComplete(c, p.premises[0], st1, fr + 1);
        ExprReturnsNothing(c, e, st1, fr + 1);
      case Block(body) => BodyComplete(c, p.premises[0], Push(st1), fr + 1);
      case If(_, _, _) => IfComplete(c, p, st, fr);
      case While(_, _) => LoopComplete(c, p.premises[0], s, 0, st1, fr + 1);
      case Return(None) =>
      case Return(Some(e)) =>
        ExprComplete(c, p.premises[0], st1, fr + 1);
        ExprReturnsNothing(c, e, st1, fr + 1);
    }
  }

  lemma {:induction false} IfComplete<W>(c: Config<W>, p: Proof<W>, st: State<W>, fr: nat)
    requires st.env != [] && Proves(c.prog, c.host, p) && p.fact.Statement? && p.fact.s == Bare(st)
    requires p.fact.st.If?
    ensures ExecStmt(c, p.fact.st, st, fr).out.Limit? || p.fact == StmtFact(c, p.fact.st, st, fr)
    decreases p, 0
  {
    hide EvalExpr, ExecBody, ExecLoop, Proves, Truthy, IsTrue;
    var s, st1 := p.fact.st, Charge(st, fr + 1);
    var ps := Premises(c.prog, c.host, p);
    if st1.steps <= c.limits.maxSteps {
      ExprComplete(c, p.premises[0], st1, fr + 1);
      ExprReturnsNothing(c, s.cond, st1, fr + 1);
      var g := EvalExpr(c, s.cond, st1, fr + 1);
      if g.out.Normal? {
        TruthMeans(c.host.arith, g.out.v);
        if Truthy(c.host.arith, g.out.v) || s.elseBody != [] {
          BodyComplete(c, p.premises[1], Push(g.st), fr + 1);
        }
      }
    }
  }

  lemma {:induction false} LoopComplete<W>(c: Config<W>, p: Proof<W>, s: Stmt, safety: nat, st: State<W>, fr: nat)
    requires st.env != [] && Proves(c.prog, c.host, p) && p.fact.Iteration? && p.fact.s == Bare(st)
    requires s.While? && p.fact.cond == s.cond && p.fact.body == s.body && safety <= LOOP_CAP
    ensures ExecLoop(c, s, safety, st, fr).out.Limit? || p.fact == LoopFact(c, s, safety, st, fr)
    decreases p, 1
  {
    hide EvalExpr, ExecBody, Proves, Truthy, IsTrue;
    var ps := Premises(c.prog, c.host, p);
    ExprComplete(c, p.premises[0], st, fr);
    ExprReturnsNothing(c, s.cond, st, fr);
    var g := EvalExpr(c, s.cond, st, fr);
    if g.out.Normal? {
      TruthMeans(c.host.arith, g.out.v);
      if Truthy(c.host.arith, g.out.v) {
        BodyComplete(c, p.premises[1], Turn(g.st), fr);
        var b := Pop(ExecBody(c, s.body, Turn(g.st), fr));
        if b.out.Normal? && safety + 1 <= LOOP_CAP { LoopComplete(c, p.premises[2], s, safety + 1, b.st, fr); }
      }
    }
  }

  lemma {:induction false} BodyComplete<W>(c: Config<W>, p: Proof<W>, st: State<W>, fr: nat)
    requires st.env != [] && Proves(c.prog, c.host, p) && p.fact.Body? && p.fact.s == Bare(st)
    ensures ExecBody(c, p.fact.ss, st, fr).out.Limit? || p.fact == BodyFact(c, p.fact.ss, st, fr)
    decreases p, 1
  {
    hide ExecStmt, Proves;
    var ss := p.fact.ss;
    var ps := Premises(c.prog, c.host, p);
    if ss != [] {
      StmtComplete(c, p.premises[0], st, fr);
      var h := ExecStmt(c, ss[0], st, fr);
      if h.out.Normal? { BodyComplete(c, p.premises[1], h.st, fr); }
    }
  }
  // ----- what programs mean -----

  /** An expression evaluated without a limit tripping comes to `o` and leaves `s'` exactly when that
      can be derived from the rules. */
  lemma ExprMeaning<W(!new)>(c: Config<W>, e: Expr, st: State<W>, fr: nat, o: End, s': Store<W>)
    requires st.env != [] && !EvalExpr(c, e, st, fr).out.Limit?
    ensures var r := EvalExpr(c, e, st, fr);
            Means(c.prog, c.host, Expression(e, Store(st.env, st.world), o, s'))
            <==> (o == (if r.out.Normal? then Val(r.out.v) else Failed) && s' == Store(r.st.env, r.st.world))
  {
    hide EvalExpr, Proves;
    var f := Expression(e, Bare(st), o, s');
    if Means(c.prog, c.host, f) {
      var p: Proof<W> :| Proves(c.prog, c.host, p) && p.fact == f;
      ExprComplete(c, p, st, fr);
    }
    var own := ExprSound(c, e, st, fr);
    assert Means(c.prog, c.host, own.fact);
  }

  /** The same for a statement: it is done, or it has returned, or it has failed. */
  lemma StmtMeaning<W(!new)>(c: Config<W>, s: Stmt, st: State<W>, fr: nat, o: End, s': Store<W>)
    requires st.env != [] && !ExecStmt(c, s, st, fr).out.Limit?
    ensures var r := ExecStmt(c, s, st, fr);
            Means(c.prog, c.host, Statement(s, Store(st.env, st.world), o, s'))
            <==> (&& s' == Store(r.st.env, r.st.world)
                  && o == match r.out
                          case Normal(_) => Done
                          case Returned(v) => Ret(v)
                          case _ => Failed)
  {
    hide ExecStmt, Proves;
    var f := Statement(s, Bare(st), o, s');
    if Means(c.prog, c.host, f) {
      var p: Proof<W> :| Proves(c.prog, c.host, p) && p.fact == f;
      StmtComplete(c, p, st, fr);
    }
    var own := StmtSound(c, s, st, fr);
    assert Means(c.prog, c.host, own.fact);
  }

  lemma BodyMeaning<W(!new)>(c: Config<W>, body: seq<Stmt>, st: State<W>, fr: nat, o: End, s': Store<W>)
    requires st.env != [] && !ExecBody(c, body, st, fr).out.Limit?
    ensures var f := Body(body, Bare(st), o, s'); Means(c.prog, c.host, f) <==> f == BodyFact(c, body, st, fr)
  {
    hide ExecBody, Proves;
    var f := Body(body, Bare(st), o, s');
    if Means(c.prog, c.host, f) {
      var p: Proof<W> :| Proves(c.prog, c.host, p) && p.fact == f;
      BodyComplete(c, p, st, fr);
    }
    var own := BodySound(c, body, st, fr);
    assert Means(c.prog, c.host, own.fact);
  }

  /** Where the body of an event begins, in a frame of its own above the globals. */
  function Entered<W>(event: FnDecl, args: seq<Value>, globals: Frame, world: W): State<W> {
    EnterCall(Fresh(globals, world), event, args)
  }

  lemma EventRunsBody<W>(c: Config<W>, event: FnDecl, args: seq<Value>, globals: Frame, world: W)
    requires !RunEvent(c, event, args, globals, world).out.Limit?
    ensures var r, inner := RunEvent(c, event, args, globals, world),
                            ExecBody(c, event.body, Entered(event, args, globals, world), 0);
            && !inner.out.Limit? && ExprEnd(r.out) == CallEnd(StmtEnd(inner.out))
            && Bare(inner.st) == Store([inner.st.env[0], r.st.env[0]], r.st.world)
  {
    hide ExecBody, ParamFrame;
  }

  lemma EventHasMeaning<W(!new)>(c: Config<W>, event: FnDecl, args: seq<Value>, globals: Frame, world: W)
    requires !RunEvent(c, event, args, globals, world).out.Limit?
    ensures var r := RunEvent(c, event, args, globals, world);
            EventMeans(c.prog, c.host, event, args, globals, world, ExprEnd(r.out), r.st.env[0], r.st.world)
  {
    hide Means, CallEnd, StmtEnd, ExprEnd;
    EventRunsBody(c, event, args, globals, world);
    var st, r := Entered(event, args, globals, world), RunEvent(c, event, args, globals, world);
    var frame := ParamFrame(event.params, args, |event.params|);
    assert Bare(st) == Store([frame, globals], world);
    BindMeans(event.params, args, frame);
    hide ParamFrame, Binds, RunEvent, Entered;
    var inner := ExecBody(c, event.body, st, 0);
    BodyMeaning(c, event.body, st, 0, StmtEnd(inner.out), Bare(inner.st));
    hide ExecBody;
    assert Means(c.prog, c.host, Body(event.body, Store([frame, globals], world), StmtEnd(inner.out),
                                      Store([inner.st.env[0], r.st.env[0]], r.st.world)));
  }

  lemma EventMeansNoMore<W(!new)>(c: Config<W>, event: FnDecl, args: seq<Value>, globals: Frame, world: W, o: End,
      globals': Frame, world': W)
    requires !RunEvent(c, event, args, globals, world).out.Limit?
    requires EventMeans(c.prog, c.host, event, args, globals, world, o, globals', world')
    ensures var r := RunEvent(c, event, args, globals, world);
            o == ExprEnd(r.out) && globals' == r.st.env[0] && world' == r.st.world
  {
    hide Means, CallEnd, StmtEnd, ExprEnd, ExecBody, RunEvent;
    EventRunsBody(c, event, args, globals, world);
    var st := Entered(event, args, globals, world);
    var frame, locals, end :| Binds(event.params, args, frame) && o == CallEnd(end)
      && Means(c.prog, c.host,
               Body(event.body, Store([frame, globals], world), end, Store([locals, globals'], world')));
    BindMeans(event.params, args, frame);
    assert Bare(st) == Store([frame, globals], world);
    hide ParamFrame, Binds, Entered, EventMeans;
    BodyMeaning(c, event.body, st, 0, end, Store([locals, globals'], world'));
    var inner := ExecBody(c, event.body, st, 0);
    assert Store([locals, globals'], world') == Bare(inner.st);
    assert globals' == [locals, globals'][1] == inner.st.env[1];
  }

  /** A whole event call, stopped by no limit: its value or failure, the globals and the world after it
      are those that can be derived, and no others. */
  lemma EventMeaning<W(!new)>(c: Config<W>, event: FnDecl, args: seq<Value>, globals: Frame, world: W, o: End,
      globals': Frame, world': W)
    requires !RunEvent(c, event, args, globals, world).out.Limit?
    ensures var r := RunEvent(c, event, args, globals, world);
            EventMeans(c.prog, c.host, event, args, globals, world, o, globals', world')
            <==> (&& o == (if r.out.Normal? then Val(r.out.v) else Failed)
                  && globals' == r.st.env[0] && world' == r.st.world)
  {
    hide EventMeans, RunEvent;
    EventHasMeaning(c, event, args, globals, world);
    if EventMeans(c.prog, c.host, event, args, globals, world, o, globals', world') {
      EventMeansNoMore(c, event, args, globals, world, o, globals', world');
    }
  }

  // ----- how long a loop may run -----

  /** The state after `turns` complete turns of a loop, if it has that many. */
  function AfterTurns<W>(c: Config<W>, s: Stmt, st: State<W>, fr: nat, turns: nat): (r: Option<State<W>>)
    requires st.env != [] && s.While?
    ensures r.Some? ==> r.value.env != []
  {
    if turns == 0 then Some(st)
    else
      match AfterTurns(c, s, st, fr, turns - 1)
      case None => None
      case Some(mid) =>
        var g := EvalExpr(c, s.cond, mid, fr);
        if !g.out.Normal? || !Truthy(c.host.arith, g.out.v) then None
        else
          var b := Pop(ExecBody(c, s.body, Turn(g.st), fr));
          if b.out.Normal? then Some(b.st) else None
  }

  lemma {:induction false} LoopGoesOn<W>(c: Config<W>, s: Stmt, st: State<W>, fr: nat, turns: nat)
    requires st.env != [] && s.While? && turns <= LOOP_CAP && AfterTurns(c, s, st, fr, turns).Some?
    ensures ExecLoop(c, s, 0, st, fr) == ExecLoop(c, s, turns, AfterTurns(c, s, st, fr, turns).value, fr)
    decreases turns
  {
    hide EvalExpr, ExecBody, Truthy;
    if turns > 0 { LoopGoesOn(c, s, st, fr, turns - 1); }
  }

  /** A loop that has completed a million turns and one is stopped there. */
  lemma LoopIsCapped<W>(c: Config<W>, s: Stmt, st: State<W>, fr: nat)
    requires st.env != [] && s.While? && AfterTurns(c, s, st, fr, 1_000_001).Some?
    ensures ExecLoop(c, s, 0, st, fr).out == Limit(Loop)
    ensures Bare(ExecLoop(c, s, 0, st, fr).st) == Bare(AfterTurns(c, s, st, fr, 1_000_001).value)
  {
    hide EvalExpr, ExecBody, Truthy;
    LoopGoesOn(c, s, st, fr, 1_000_000);
  }
}
