/** The interpreter as it runs: environments linked by parent pointers and updated in
    place, and counters that every call charges. Each method computes what the evaluator
    of `CowInterp` says, on the environments reachable from the caller's. */
module CowMachine {
  import opened Wrappers
  import opened CowAst
  import S = CowInterp

  class Env {
    var vars: S.Frame
    const parent: Env?

    constructor (parent: Env?)
      ensures vars == map[] && this.parent == parent
    {
      vars := map[];
      this.parent := parent;
    }

    /** Writes to this environment, whether or not it binds the name. */
    method Define(name: string, v: Value, ghost chain: seq<Env>)
      requires Chain(this, chain)
      modifies this
      ensures vars == old(vars)[name := v]
      ensures Frames(chain) == S.Define(old(Frames(chain)), name, v)
    {
      vars := vars[name := v];
    }

    method Find(name: string, ghost chain: seq<Env>) returns (r: Option<Value>)
      requires Chain(this, chain)
      ensures r == S.Lookup(Frames(chain), name)
      decreases |chain|
    {
      if name in vars { return Some(vars[name]); }
      if parent == null {
        LastInChain(chain);
        return None;
      }
      TailChain(chain);
      r := parent.Find(name, chain[1..]);
    }

    method Assign(name: string, v: Value, ghost chain: seq<Env>) returns (ok: bool)
      requires Chain(this, chain)
      modifies chain
      ensures var env := S.AssignExisting(old(Frames(chain)), name, v);
              ok == env.Some? && Frames(chain) == (if ok then env.value else old(Frames(chain)))
      decreases |chain|
    {
      hide Frames;
      if name in vars {
        vars := vars[name := v];
        assert Frames(chain) == [vars] + old(Frames(chain))[1..];
        return true;
      }
      if parent == null {
        LastInChain(chain);
        return false;
      }
      ghost var rest := chain[1..];
      TailChain(chain);
      ghost var before := Frames(rest);
      ok := parent.Assign(name, v, rest);
      TailChain(chain);
      assert old(Frames(chain))[1..] == before;
    }

    method AssignOrDefine(name: string, v: Value, ghost chain: seq<Env>)
      requires Chain(this, chain)
      modifies chain
      ensures Frames(chain) == S.AssignOrDefine(old(Frames(chain)), name, v)
    {
      var done := Assign(name, v, chain);
      if !done { Define(name, v, chain); }
    }
  }

  /** `chain` lists the environments from `env` out to the globals. */
  ghost predicate Chain(env: Env, chain: seq<Env>) {
    && chain != [] && chain[0] == env
    && (forall i {:trigger chain[i].parent} :: 0 <= i < |chain| ==>
          chain[i].parent == if i + 1 < |chain| then chain[i + 1] else null)
    && (forall i, j :: 0 <= i < j < |chain| ==> chain[i] != chain[j])
  }

  ghost function Frames(chain: seq<Env>): (f: seq<S.Frame>)
    reads chain
    ensures |f| == |chain|
    ensures forall i :: 0 <= i < |chain| ==> f[i] == chain[i].vars
  {
    if chain == [] then [] else [chain[0].vars] + Frames(chain[1..])
  }

  lemma LastInChain(chain: seq<Env>)
    requires |chain| > 0 && Chain(chain[0], chain) && chain[0].parent == null
    ensures |chain| == 1 && Frames(chain) == [chain[0].vars]
  {
  }

  lemma TailChain(chain: seq<Env>)
    requires |chain| > 0 && Chain(chain[0], chain) && chain[0].parent != null
    ensures |chain| > 1 && chain[0].parent == chain[1] && Chain(chain[1], chain[1..]) && chain[0] !in chain[1..]
    ensures Frames(chain) == [chain[0].vars] + Frames(chain[1..])
  {
  }

  /** When only the globals of a chain have changed. */
  twostate lemma OnlyGlobalsChanged(chain: seq<Env>)
    requires chain != []
    requires forall i :: 0 <= i < |chain| - 1 ==> chain[i].vars == old(chain[i].vars)
    ensures Frames(chain) == old(Frames(chain))[..|chain| - 1] + [chain[|chain| - 1].vars]
  {
    hide Frames;
    forall i | 0 <= i < |chain| - 1 ensures Frames(chain)[i] == old(Frames(chain))[i] {
      assert chain[i].vars == old(chain[i].vars);
    }
  }

  class Interpreter<W(!new)> {
    const cfg: S.Config<W>
    const globals: Env
    var steps: nat
    var depth: int
    var world: W
    ghost var meter: S.Meter

    ghost function Now(chain: seq<Env>): S.State<W>
      reads this, chain
    {
      S.State(Frames(chain), steps, depth, world, meter)
    }

    ghost predicate Scope(env: Env, chain: seq<Env>) {
      Chain(env, chain) && chain[|chain| - 1] == globals
    }

    constructor (cfg: S.Config<W>, world: W)
      ensures fresh(globals) && globals.parent == null
      ensures this.cfg == cfg && Now([globals]) == S.Fresh(map[], world)
    {
      this.cfg := cfg;
      this.world := world;
      globals := new Env(null);
      steps, depth := 0, 0;
      meter := S.Meter(0, 0, 0, 0, 0);
      new;
      assert Frames([globals]) == [map[]];
    }

    method BeginBudget()
      modifies this
      ensures Now([globals]) == S.Fresh(old(globals.vars), old(world))
    {
      steps, depth := 0, 0;
      meter := S.Meter(0, 0, 0, 0, 0);
      assert Frames([globals]) == [globals.vars];
    }

    method Charge(ghost chain: seq<Env>, ghost fr: nat) returns (ok: bool)
      requires chain != []
      modifies this
      ensures var s := S.Charge(old(Now(chain)), fr + 1);
              && ok == (s.steps <= cfg.limits.maxSteps)
              && Now(chain) == if ok then s else S.Trip(S.Steps, s).st
    {
      steps := if steps + 1 >= S.STEP_MODULUS then 0 else steps + 1;
      meter := meter.(peakFrames := S.Max(meter.peakFrames, fr + 1));
      ok := steps <= cfg.limits.maxSteps;
      if !ok { meter := meter.(trips := meter.trips + 1); }
    }

    method BindParams(fn: FnDecl, args: seq<Value>) returns (local: Env)
      requires globals.parent == null
      ensures fresh(local) && local.parent == globals
      ensures local.vars == S.ParamFrame(fn.params, args, |fn.params|)
    {
      local := new Env(globals);
      var i := 0;
      while i < |fn.params|
        invariant 0 <= i <= |fn.params|
        invariant local.vars == S.ParamFrame(fn.params, args, i)
        modifies local
      {
        local.Define(fn.params[i], if i < |args| then args[i] else Null, [local, globals]);
        i := i + 1;
      }
    }

    method ExecFunction(fn: FnDecl, args: seq<Value>, ghost chain: seq<Env>, ghost fr: nat, ghost site: Expr)
      returns (out: S.Outcome)
      requires chain != [] && Scope(chain[0], chain)
      modifies this, globals
      ensures S.Res(out, Now(chain)) == S.ExecFunction(cfg, fn, args, old(Now(chain)), fr)
      decreases cfg.limits.maxCallDepth - depth, site, 0
    {
      hide Frames, S.ExecBody;
      ghost var caller := Now(chain);
      // DepthGuard: the increment is undone before the throw.
      if depth + 1 > cfg.limits.maxCallDepth {
        meter := meter.(trips := meter.trips + 1);
        return S.Limit(S.Depth);
      }
      depth := depth + 1;
      meter := meter.(peakDepth := S.Max(meter.peakDepth, depth), calls := meter.calls + 1);
      var local := BindParams(fn, args);
      ghost var inner := [local, globals];
      assert Frames(inner) == [local.vars, globals.vars];
      assert Now(inner) == S.EnterCall(caller, fn, args);
      assert forall i :: 0 <= i < |chain| - 1 ==> chain[i] != globals && chain[i] != local;
      ghost var r := S.ExecBody(cfg, fn.body, Now(inner), fr);
      out := ExecBody(fn.body, local, inner, fr);
      OnlyGlobalsChanged(chain);
      assert Frames(inner)[1] == globals.vars;
      depth := depth - 1;
      assert Now(chain) == S.LeaveCall(caller.env, r).st;
      match out {
        case Returned(v) => out := S.Normal(v);
        case Normal(_) => out := S.Normal(Null);
        case _ =>
      }
      assert out == S.LeaveCall(caller.env, r).out;
    }

    method ExecCall(name: string, args: seq<Value>, ghost chain: seq<Env>, ghost fr: nat, ghost site: Expr)
      returns (out: S.Outcome)
      requires chain != [] && Scope(chain[0], chain)
      modifies this, globals
      ensures var st := old(Now(chain));
              var fn := S.FindFn(cfg.prog.functions, name);
              S.Res(out, Now(chain)) ==
              if name in cfg.host.builtins then S.FromExt(st, cfg.host.call(st.world, name, args))
              else if fn.None? then S.Res(S.RuntimeError, st)
              else S.ExecFunction(cfg, fn.value, args, st, fr)
      decreases cfg.limits.maxCallDepth - depth, site, 1
    {
      hide Frames, S.ExecFunction;
      if name in cfg.host.builtins {
        var x := cfg.host.call(world, name, args);
        world := x.world;
        return if x.result.Some? then S.Normal(x.result.value) else S.RuntimeError;
      }
      var fn := S.FindFn(cfg.prog.functions, name);
      if fn.None? { return S.RuntimeError; }
      out := ExecFunction(fn.value, args, chain, fr, site);
    }

    method ExecBody(body: seq<Stmt>, env: Env, ghost chain: seq<Env>, ghost fr: nat) returns (out: S.Outcome)
      requires Scope(env, chain)
      modifies this, chain
      ensures S.Res(out, Now(chain)) == S.ExecBody(cfg, body, old(Now(chain)), fr)
      decreases cfg.limits.maxCallDepth - depth, body, 0
    {
      hide Frames, S.ExecStmt;
      var i := 0;
      while i < |body|
        invariant 0 <= i <= |body|
        invariant depth == old(depth)
        invariant S.ExecBody(cfg, body, old(Now(chain)), fr) == S.ExecBody(cfg, body[i..], Now(chain), fr)
      {
        assert body[i..][0] == body[i] && body[i..][1..] == body[i + 1..];
        out := ExecStmt(body[i], env, chain, fr);
        if !out.Normal? { return; }
        i := i + 1;
      }
      out := S.Normal(Null);
    }

    /** Runs a nested block in an environment of its own. */
    method ExecInner(body: seq<Stmt>, env: Env, ghost chain: seq<Env>, ghost fr: nat) returns (out: S.Outcome)
      requires Scope(env, chain)
      modifies this, chain
      ensures S.Res(out, Now(chain)) == S.Pop(S.ExecBody(cfg, body, S.Push(old(Now(chain))), fr))
      decreases cfg.limits.maxCallDepth - depth, body, 1
    {
      hide S.ExecBody;
      var inner := new Env(env);
      ghost var extended := [inner] + chain;
      assert Frames(extended) == [map[]] + Frames(chain);
      out := ExecBody(body, inner, extended, fr);
      assert Frames(extended)[1..] == Frames(chain) by {
        assert forall i :: 0 <= i < |chain| ==> extended[i + 1] == chain[i];
      }
    }

    method ExecStmt(s: Stmt, env: Env, ghost chain: seq<Env>, ghost fr: nat) returns (out: S.Outcome)
      requires Scope(env, chain)
      modifies this, chain
      ensures S.Res(out, Now(chain)) == S.ExecStmt(cfg, s, old(Now(chain)), fr)
      decreases cfg.limits.maxCallDepth - depth, s, 1
    {
      hide Frames, S.EvalExpr, S.ExecBody, S.ExecLoop;
      var ok := Charge(chain, fr);
      if !ok { return S.Limit(S.Steps); }
      match s
      case ExprStmt(e) =>
        out := EvalExpr(e, env, chain, fr + 1);
      case Let(x, e) =>
        out := EvalExpr(e, env, chain, fr + 1);
        if out.Normal? {
          env.Define(x, out.v, chain);
          out := S.Normal(Null);
        }
      case Block(body) =>
        out := ExecInner(body, env, chain, fr + 1);
      case If(cond, body, elseBody) =>
        out := EvalExpr(cond, env, chain, fr + 1);
        if out.Normal? {
          if Truthy(cfg.host.arith, out.v) {
            out := ExecInner(body, env, chain, fr + 1);
          } else if elseBody != [] {
            out := ExecInner(elseBody, env, chain, fr + 1);
          } else {
            out := S.Normal(Null);
          }
        }
      case While(_, _) =>
        out := ExecWhile(s, env, chain, fr + 1);
      case Return(None) =>
        out := S.Returned(Null);
      case Return(Some(e)) =>
        out := EvalExpr(e, env, chain, fr + 1);
        if out.Normal? { out := S.Returned(out.v); }
    }

    method ExecWhile(s: Stmt, env: Env, ghost chain: seq<Env>, ghost fr: nat) returns (out: S.Outcome)
      requires Scope(env, chain) && s.While?
      modifies this, chain
      ensures S.Res(out, Now(chain)) == S.ExecLoop(cfg, s, 0, old(Now(chain)), fr)
      decreases cfg.limits.maxCallDepth - depth, s, 0
    {
      hide Frames, S.EvalExpr, S.ExecBody;
      var safety := 0;
      while true
        invariant 0 <= safety <= S.LOOP_CAP
        invariant depth == old(depth)
        invariant S.ExecLoop(cfg, s, 0, old(Now(chain)), fr) == S.ExecLoop(cfg, s, safety, Now(chain), fr)
        decreases S.LOOP_CAP - safety
      {
        out := EvalExpr(s.cond, env, chain, fr);
        if !out.Normal? { return; }
        if !Truthy(cfg.host.arith, out.v) { return S.Normal(Null); }
        ghost var g := Now(chain);
        meter := meter.(turns := meter.turns + 1);
        assert S.Push(Now(chain)) == S.Turn(g);
        out := ExecInner(s.body, env, chain, fr);
        if !out.Normal? { return; }
        if safety + 1 > S.LOOP_CAP {
          meter := meter.(trips := meter.trips + 1);
          return S.Limit(S.Loop);
        }
        safety := safety + 1;
      }
    }

    method EvalArgs(es: seq<Expr>, env: Env, ghost chain: seq<Env>, ghost fr: nat)
      returns (out: S.Outcome, vals: seq<Value>)
      requires Scope(env, chain)
      modifies this, chain
      ensures S.ArgsRes(out, vals, Now(chain)) == S.EvalArgs(cfg, es, old(Now(chain)), fr)
      decreases cfg.limits.maxCallDepth - depth, es, 0
    {
      hide Frames, S.EvalExpr;
      vals := [];
      var i := 0;
      ghost var whole := S.EvalArgs(cfg, es, Now(chain), fr);
      while i < |es|
        invariant 0 <= i <= |es|
        invariant depth == old(depth)
        invariant var rest := S.EvalArgs(cfg, es[i..], Now(chain), fr);
                  whole == S.ArgsRes(rest.out, vals + rest.vals, rest.st)
      {
        assert es[i..][0] == es[i] && es[i..][1..] == es[i + 1..];
        ghost var sofar := vals;
        ghost var rest := S.EvalArgs(cfg, es[i..], Now(chain), fr);
        out := EvalExpr(es[i], env, chain, fr);
        if !out.Normal? { return; }
        vals := vals + [out.v];
        assert vals + S.EvalArgs(cfg, es[i + 1..], Now(chain), fr).vals == sofar + rest.vals;
        i := i + 1;
      }
      out := S.Normal(Null);
    }

    method EvalExpr(e: Expr, env: Env, ghost chain: seq<Env>, ghost fr: nat) returns (out: S.Outcome)
      requires Scope(env, chain)
      modifies this, chain
      ensures S.Res(out, Now(chain)) == S.EvalExpr(cfg, e, old(Now(chain)), fr)
      decreases cfg.limits.maxCallDepth - depth, e, 3
    {
      hide Frames, S.EvalAssign, S.EvalCall, S.EvalMember, S.EvalMemberAssign, S.EvalBinary, S.ExecBody, S.EvalArgs;
      var ok := Charge(chain, fr);
      if !ok { return S.Limit(S.Steps); }
      match e
      case NumberLit(n) => out := S.Normal(Number(n));
      case StringLit(t) => out := S.Normal(Str(t));
      case BoolLit(b) => out := S.Normal(Bool(b));
      case NullLit => out := S.Normal(Null);
      case Ident(x) =>
        var v := env.Find(x, chain);
        out := if v.Some? then S.Normal(v.value) else S.RuntimeError;
      case Unary(op, x) =>
        out := EvalExpr(x, env, chain, fr + 1);
        if out.Normal? { out := S.Normal(UnaryOp(cfg.host.arith, op, out.v)); }
      case Assign(_, _) => out := EvalAssign(e, env, chain, fr + 1);
      case Call(_, _) => out := EvalCall(e, env, chain, fr + 1);
      case Member(_, _) => out := EvalMember(e, env, chain, fr + 1);
      case MemberAssign(_, _, _) => out := EvalMemberAssign(e, env, chain, fr + 1);
      case Binary(_, _, _) => out := EvalBinary(e, env, chain, fr + 1);
    }

    method EvalAssign(e: Expr, env: Env, ghost chain: seq<Env>, ghost fr: nat) returns (out: S.Outcome)
      requires Scope(env, chain) && e.Assign?
      modifies this, chain
      ensures S.Res(out, Now(chain)) == S.EvalAssign(cfg, e, old(Now(chain)), fr)
      decreases cfg.limits.maxCallDepth - depth, e, 2
    {
      hide Frames, S.EvalExpr;
      out := EvalExpr(e.rhs, env, chain, fr);
      if out.Normal? { env.AssignOrDefine(e.target, out.v, chain); }
    }

    method EvalCall(e: Expr, env: Env, ghost chain: seq<Env>, ghost fr: nat) returns (out: S.Outcome)
      requires Scope(env, chain) && e.Call?
      modifies this, chain
      ensures S.Res(out, Now(chain)) == S.EvalCall(cfg, e, old(Now(chain)), fr)
      decreases cfg.limits.maxCallDepth - depth, e, 2
    {
      hide Frames, S.EvalArgs, S.ExecBody;
      var vals;
      out, vals := EvalArgs(e.args, env, chain, fr);
      if out.Normal? { out := ExecCall(e.callee, vals, chain, fr, e); }
    }

    method EvalMember(e: Expr, env: Env, ghost chain: seq<Env>, ghost fr: nat) returns (out: S.Outcome)
      requires Scope(env, chain) && e.Member?
      modifies this, chain
      ensures S.Res(out, Now(chain)) == S.EvalMember(cfg, e, old(Now(chain)), fr)
      decreases cfg.limits.maxCallDepth - depth, e, 2
    {
      hide Frames, S.EvalExpr;
      out := EvalExpr(e.owner, env, chain, fr);
      if !out.Normal? { return; }
      if cfg.host.propGet.None? { return S.RuntimeError; }
      var x := cfg.host.propGet.value(world, out.v, e.prop);
      world := x.world;
      out := if x.result.Some? then S.Normal(x.result.value) else S.RuntimeError;
    }

    method EvalMemberAssign(e: Expr, env: Env, ghost chain: seq<Env>, ghost fr: nat) returns (out: S.Outcome)
      requires Scope(env, chain) && e.MemberAssign?
      modifies this, chain
      ensures S.Res(out, Now(chain)) == S.EvalMemberAssign(cfg, e, old(Now(chain)), fr)
      decreases cfg.limits.maxCallDepth - depth, e, 2
    {
      hide Frames, S.EvalExpr;
      out := EvalExpr(e.owner, env, chain, fr);
      if !out.Normal? { return; }
      var target := out.v;
      out := EvalExpr(e.rhs, env, chain, fr);
      if !out.Normal? { return; }
      if cfg.host.propSet.None? { return S.RuntimeError; }
      var x := cfg.host.propSet.value(world, target, e.prop, out.v);
      world := x.world;
      if x.result.None? { out := S.RuntimeError; }
    }

    method EvalBinary(e: Expr, env: Env, ghost chain: seq<Env>, ghost fr: nat) returns (out: S.Outcome)
      requires Scope(env, chain) && e.Binary?
      modifies this, chain
      ensures S.Res(out, Now(chain)) == S.EvalBinary(cfg, e, old(Now(chain)), fr)
      decreases cfg.limits.maxCallDepth - depth, e, 2
    {
      hide Frames, S.EvalExpr;
      out := EvalExpr(e.left, env, chain, fr);
      if !out.Normal? || S.ShortCut(cfg.host.arith, e.bop, out.v) { return; }
      var l := out.v;
      out := EvalExpr(e.right, env, chain, fr);
      if !out.Normal? || e.bop == And || e.bop == Or { return; }
      var v := BinaryOp(cfg.host.arith, e.bop, l, out.v);
      out := if v.Some? then S.Normal(v.value) else S.RuntimeError;
    }
  }

  /** What `compile` and `callEvent` report; ReturnException escapes `compile` uncaught. */
  datatype Report = Done | LimitError(breach: S.Breach) | OrdinaryError | Escaped

  function ReportOf(out: S.Outcome): Report {
    match out
    case Normal(_) => Done
    case Limit(b) => LimitError(b)
    case RuntimeError => OrdinaryError
    case Returned(_) => Escaped
  }

  /** A script bound to its host. Its limits are those it was created with. */
  class Script<W(!new)> {
    const impl: Interpreter<W>
    var lastLimit: bool

    ghost predicate Valid() { impl.globals.parent == null }

    constructor (cfg: S.Config<W>, world: W)
      ensures Valid() && fresh(impl) && fresh(impl.globals) && !lastLimit
      ensures impl.cfg == cfg && impl.Now([impl.globals]) == S.Fresh(map[], world)
    {
      impl := new Interpreter(cfg, world);
      lastLimit := false;
    }

    /** The top-level statements, run on the globals themselves. */
    method RunTopLevel() returns (r: Report)
      requires Valid()
      modifies this, impl, impl.globals
      ensures var run := S.ExecBody(impl.cfg, impl.cfg.prog.topLevel,
                                    S.Fresh(old(impl.globals.vars), old(impl.world)), 0);
              impl.Now([impl.globals]) == run.st && r == ReportOf(run.out) && lastLimit == run.out.Limit?
    {
      hide S.ExecBody;
      impl.BeginBudget();
      var out := impl.ExecBody(impl.cfg.prog.topLevel, impl.globals, [impl.globals], 0);
      lastLimit := out.Limit?;
      r := ReportOf(out);
    }

    /** Runs the named handler; without one, nothing happens and `lastLimit` keeps its value. */
    method CallEvent(name: string, args: seq<Value>) returns (r: Report)
      requires Valid()
      modifies this, impl, impl.globals
      ensures match S.FindFn(impl.cfg.prog.events, name)
              case None => r == Done && unchanged(this) && unchanged(impl) && unchanged(impl.globals)
              case Some(fn) =>
                var run := S.RunEvent(impl.cfg, fn, args, old(impl.globals.vars), old(impl.world));
                impl.Now([impl.globals]) == run.st && r == ReportOf(run.out) && lastLimit == run.out.Limit?
    {
      hide S.ExecBody;
      var e := S.FindFn(impl.cfg.prog.events, name);
      if e.None? { return Done; }
      lastLimit := false;
      impl.BeginBudget();
      var out := impl.ExecFunction(e.value, args, [impl.globals], 0, NullLit);
      if out.Limit? { lastLimit := true; }
      r := ReportOf(out);
    }
  }
}
