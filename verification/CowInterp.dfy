/** The meaning of CowScript: a big-step evaluator with the interpreter's budgets. */
module CowInterp {
  import opened Wrappers
  import opened CowAst

  type Frame = map<string, Value>

  /** What a builtin or a property accessor did: the world it left behind and
      its value, or None when it threw an ordinary runtime error. */
  datatype Ext<W> = Ext(world: W, result: Option<Value>)

  /** The host the script is bound to: a deterministic function of the world. */
  datatype Host<!W> = Host(
    arith: Arith,
    builtins: set<string>,
    call: (W, string, seq<Value>) -> Ext<W>,
    propGet: Option<(W, Value, string) -> Ext<W>>,
    propSet: Option<(W, Value, string, Value) -> Ext<W>>)

  const STEP_MODULUS: nat := 0x1_0000_0000_0000_0000
  const LOOP_CAP: nat := 1_000_000

  /** `maxSteps` is an unsigned 64-bit integer. */
  datatype Limits = Limits(maxSteps: nat, maxCallDepth: int) {
    predicate Valid() { maxSteps < STEP_MODULUS }
    /** The step counter cannot wrap below the limit. */
    predicate Bounded() { maxSteps < STEP_MODULUS - 1 }
  }

  datatype Config<!W> = Config(prog: Program, host: Host<W>, limits: Limits)

  datatype Breach = Steps | Depth | Loop

  datatype Outcome = Normal(v: Value) | Returned(v: Value) | RuntimeError | Limit(breach: Breach)

  /** Measurements the code does not keep: the largest call depth and the largest
      number of execStmt/evalExpr activations reached, the LimitExceeded exceptions
      thrown, the user calls entered and the loop iterations begun. */
  datatype Meter = Meter(peakDepth: int, peakFrames: nat, trips: nat, calls: nat, turns: nat)

  /** `env` is the chain of environments, innermost first, globals last. */
  datatype State<W> = State(env: seq<Frame>, steps: nat, depth: int, world: W, meter: Meter)

  datatype Res<W> = Res(out: Outcome, st: State<W>)

  datatype ArgsRes<W> = ArgsRes(out: Outcome, vals: seq<Value>, st: State<W>)

  function Max(a: int, b: int): int { if a < b then b else a }

  // ----- environments -----

  function Lookup(env: seq<Frame>, name: string): Option<Value> {
    if env == [] then None
    else if name in env[0] then Some(env[0][name])
    else Lookup(env[1..], name)
  }

  /** The chain after writing to the nearest frame that binds the name, or None. */
  function AssignExisting(env: seq<Frame>, name: string, v: Value): (r: Option<seq<Frame>>)
    ensures r.Some? ==> |r.value| == |env|
  {
    if env == [] then None
    else if name in env[0] then Some([env[0][name := v]] + env[1..])
    else match AssignExisting(env[1..], name, v)
         case None => None
         case Some(rest) => Some([env[0]] + rest)
  }

  function Define(env: seq<Frame>, name: string, v: Value): (r: seq<Frame>)
    requires env != []
    ensures |r| == |env|
  {
    [env[0][name := v]] + env[1..]
  }

  function AssignOrDefine(env: seq<Frame>, name: string, v: Value): (r: seq<Frame>)
    requires env != []
    ensures |r| == |env|
  {
    match AssignExisting(env, name, v)
    case Some(e) => e
    case None => Define(env, name, v)
  }

  /** The parameter frame of a call: missing arguments are null. */
  function ParamFrame(params: seq<string>, args: seq<Value>, i: nat): Frame
    requires i <= |params|
    decreases i
  {
    if i == 0 then map[]
    else ParamFrame(params, args, i - 1)[params[i - 1] := if i - 1 < |args| then args[i - 1] else Null]
  }

  function FindFn(fns: seq<FnDecl>, name: string): (r: Option<FnDecl>)
    ensures r.Some? ==> r.value in fns && r.value.name == name
  {
    if fns == [] then None
    else if fns[0].name == name then Some(fns[0])
    else FindFn(fns[1..], name)
  }

  // ----- budgets -----

  function Bump(steps: nat): nat {
    if steps + 1 >= STEP_MODULUS then 0 else steps + 1
  }

  /** Enters one execStmt/evalExpr activation, the `frames`-th on the native stack, and charges it. */
  function Charge<W>(st: State<W>, frames: nat): State<W> {
    st.(steps := Bump(st.steps), meter := st.meter.(peakFrames := Max(st.meter.peakFrames, frames)))
  }

  function Trip<W>(b: Breach, st: State<W>): Res<W> {
    Res(Limit(b), st.(meter := st.meter.(trips := st.meter.trips + 1)))
  }

  /** The state in which a callee starts: its own frame, then the globals. */
  function EnterCall<W>(st: State<W>, fn: FnDecl, args: seq<Value>): State<W>
    requires st.env != []
  {
    st.(env := [ParamFrame(fn.params, args, |fn.params|), st.env[|st.env| - 1]],
        depth := st.depth + 1,
        meter := st.meter.(peakDepth := Max(st.meter.peakDepth, st.depth + 1), calls := st.meter.calls + 1))
  }

  /** The caller's view once the callee is done: ReturnException is caught here
      and nowhere else, and the guard gives the depth back. */
  function LeaveCall<W>(caller: seq<Frame>, r: Res<W>): Res<W>
    requires caller != [] && |r.st.env| == 2
  {
    var out := match r.out
      case Returned(v) => Normal(v)
      case Normal(_) => Normal(Null)
      case other => other;
    Res(out, r.st.(env := caller[..|caller| - 1] + [r.st.env[1]], depth := r.st.depth - 1))
  }

  function Push<W>(st: State<W>): State<W> { st.(env := [map[]] + st.env) }

  /** Entry to the body of one more loop iteration. */
  function Turn<W>(st: State<W>): State<W> {
    Push(st.(meter := st.meter.(turns := st.meter.turns + 1)))
  }

  function Pop<W>(r: Res<W>): Res<W>
    requires r.st.env != []
  {
    r.(st := r.st.(env := r.st.env[1..]))
  }

  function FromExt<W>(st: State<W>, x: Ext<W>): Res<W> {
    Res(if x.result.Some? then Normal(x.result.value) else RuntimeError, st.(world := x.world))
  }

  /** `and` stops at a false left side, `or` at a true one. */
  predicate ShortCut(a: Arith, op: BinOp, left: Value) {
    (op == And && !Truthy(a, left)) || (op == Or && Truthy(a, left))
  }

  // ----- the evaluator -----

  ghost predicate Framed<W>(st: State<W>, st': State<W>) {
    |st'.env| == |st.env| && st'.depth == st.depth
  }

  function EvalExpr<W>(c: Config<W>, e: Expr, st: State<W>, fr: nat): (r: Res<W>)
    requires st.env != []
    ensures Framed(st, r.st)
    decreases c.limits.maxCallDepth - st.depth, e, 1
  {
    var s := Charge(st, fr + 1);
    if s.steps > c.limits.maxSteps then Trip(Steps, s)
    else
      match e
      case NumberLit(n) => Res(Normal(Number(n)), s)
      case StringLit(t) => Res(Normal(Str(t)), s)
      case BoolLit(b) => Res(Normal(Bool(b)), s)
      case NullLit => Res(Normal(Null), s)
      case Ident(x) =>
        (match Lookup(s.env, x)
         case Some(v) => Res(Normal(v), s)
         case None => Res(RuntimeError, s))
      case Assign(_, _) => EvalAssign(c, e, s, fr + 1)
      case Call(_, _) => EvalCall(c, e, s, fr + 1)
      case Member(_, _) => EvalMember(c, e, s, fr + 1)
      case MemberAssign(_, _, _) => EvalMemberAssign(c, e, s, fr + 1)
      case Unary(op, x) =>
        var r := EvalExpr(c, x, s, fr + 1);
        if !r.out.Normal? then r
        else Res(Normal(UnaryOp(c.host.arith, op, r.out.v)), r.st)
      case Binary(_, _, _) => EvalBinary(c, e, s, fr + 1)
  }

  function EvalAssign<W>(c: Config<W>, e: Expr, st: State<W>, fr: nat): (r: Res<W>)
    requires st.env != [] && e.Assign?
    ensures Framed(st, r.st)
    decreases c.limits.maxCallDepth - st.depth, e, 0
  {
    var r := EvalExpr(c, e.rhs, st, fr);
    if !r.out.Normal? then r
    else Res(r.out, r.st.(env := AssignOrDefine(r.st.env, e.target, r.out.v)))
  }

  /** Arguments left to right, then the builtin of that name, else the user function. */
  function EvalCall<W>(c: Config<W>, e: Expr, st: State<W>, fr: nat): (r: Res<W>)
    requires st.env != [] && e.Call?
    ensures Framed(st, r.st)
    decreases c.limits.maxCallDepth - st.depth, e, 0
  {
    var a := EvalArgs(c, e.args, st, fr);
    if !a.out.Normal? then Res(a.out, a.st)
    else if e.callee in c.host.builtins then FromExt(a.st, c.host.call(a.st.world, e.callee, a.vals))
    else
      match FindFn(c.prog.functions, e.callee)
      case None => Res(RuntimeError, a.st)
      case Some(fn) =>
        if a.st.depth + 1 > c.limits.maxCallDepth then Trip(Depth, a.st)
        else LeaveCall(a.st.env, ExecBody(c, fn.body, EnterCall(a.st, fn, a.vals), fr))
  }

  function EvalMember<W>(c: Config<W>, e: Expr, st: State<W>, fr: nat): (r: Res<W>)
    requires st.env != [] && e.Member?
    ensures Framed(st, r.st)
    decreases c.limits.maxCallDepth - st.depth, e, 0
  {
    var r := EvalExpr(c, e.owner, st, fr);
    if !r.out.Normal? then r
    else if c.host.propGet.None? then Res(RuntimeError, r.st)
    else FromExt(r.st, c.host.propGet.value(r.st.world, r.out.v, e.prop))
  }

  /** Target, then value, then the property write. */
  function EvalMemberAssign<W>(c: Config<W>, e: Expr, st: State<W>, fr: nat): (r: Res<W>)
    requires st.env != [] && e.MemberAssign?
    ensures Framed(st, r.st)
    decreases c.limits.maxCallDepth - st.depth, e, 0
  {
    var t := EvalExpr(c, e.owner, st, fr);
    if !t.out.Normal? then t
    else
      var r := EvalExpr(c, e.rhs, t.st, fr);
      if !r.out.Normal? then r
      else if c.host.propSet.None? then Res(RuntimeError, r.st)
      else
        var x := c.host.propSet.value(r.st.world, t.out.v, e.prop, r.out.v);
        Res(if x.result.Some? then r.out else RuntimeError, r.st.(world := x.world))
  }

  function EvalBinary<W>(c: Config<W>, e: Expr, st: State<W>, fr: nat): (r: Res<W>)
    requires st.env != [] && e.Binary?
    ensures Framed(st, r.st)
    decreases c.limits.maxCallDepth - st.depth, e, 0
  {
    var l := EvalExpr(c, e.left, st, fr);
    if !l.out.Normal? || ShortCut(c.host.arith, e.bop, l.out.v) then l
    else
      var r := EvalExpr(c, e.right, l.st, fr);
      if !r.out.Normal? || e.bop == And || e.bop == Or then r
      else
        match BinaryOp(c.host.arith, e.bop, l.out.v, r.out.v)
        case Some(v) => Res(Normal(v), r.st)
        case None => Res(RuntimeError, r.st)
  }

  function EvalArgs<W>(c: Config<W>, es: seq<Expr>, st: State<W>, fr: nat): (r: ArgsRes<W>)
    requires st.env != []
    ensures Framed(st, r.st)
    decreases c.limits.maxCallDepth - st.depth, es, 0
  {
    if es == [] then ArgsRes(Normal(Null), [], st)
    else
      var h := EvalExpr(c, es[0], st, fr);
      if !h.out.Normal? then ArgsRes(h.out, [], h.st)
      else
        var t := EvalArgs(c, es[1..], h.st, fr);
        ArgsRes(t.out, [h.out.v] + t.vals, t.st)
  }

  function ExecStmt<W>(c: Config<W>, s: Stmt, st: State<W>, fr: nat): (r: Res<W>)
    requires st.env != []
    ensures Framed(st, r.st)
    decreases c.limits.maxCallDepth - st.depth, s, LOOP_CAP + 1
  {
    var st1 := Charge(st, fr + 1);
    if st1.steps > c.limits.maxSteps then Trip(Steps, st1)
    else
      match s
      case ExprStmt(e) => EvalExpr(c, e, st1, fr + 1)
      case Let(x, e) =>
        var r := EvalExpr(c, e, st1, fr + 1);
        if !r.out.Normal? then r
        else Res(Normal(Null), r.st.(env := Define(r.st.env, x, r.out.v)))
      case Block(body) => Pop(ExecBody(c, body, Push(st1), fr + 1))
      case If(cond, body, elseBody) =>
        var r := EvalExpr(c, cond, st1, fr + 1);
        if !r.out.Normal? then r
        else if Truthy(c.host.arith, r.out.v) then Pop(ExecBody(c, body, Push(r.st), fr + 1))
        else if elseBody != [] then Pop(ExecBody(c, elseBody, Push(r.st), fr + 1))
        else Res(Normal(Null), r.st)
      case While(_, _) => ExecLoop(c, s, 0, st1, fr + 1)
      case Return(None) => Res(Returned(Null), st1)
      case Return(Some(e)) =>
        var r := EvalExpr(c, e, st1, fr + 1);
        if !r.out.Normal? then r else Res(Returned(r.out.v), r.st)
  }

  /** The iterations of a while statement after `safety` of them have completed. */
  function ExecLoop<W>(c: Config<W>, s: Stmt, safety: nat, st: State<W>, fr: nat): (r: Res<W>)
    requires st.env != [] && s.While? && safety <= LOOP_CAP
    ensures Framed(st, r.st)
    decreases c.limits.maxCallDepth - st.depth, s, LOOP_CAP - safety
  {
    var g := EvalExpr(c, s.cond, st, fr);
    if !g.out.Normal? then g
    else if !Truthy(c.host.arith, g.out.v) then Res(Normal(Null), g.st)
    else
      var b := Pop(ExecBody(c, s.body, Turn(g.st), fr));
      if !b.out.Normal? then b
      else if safety + 1 > LOOP_CAP then Trip(Loop, b.st)
      else ExecLoop(c, s, safety + 1, b.st, fr)
  }

  function ExecBody<W>(c: Config<W>, body: seq<Stmt>, st: State<W>, fr: nat): (r: Res<W>)
    requires st.env != []
    ensures Framed(st, r.st)
    decreases c.limits.maxCallDepth - st.depth, body, 0
  {
    if body == [] then Res(Normal(Null), st)
    else
      var h := ExecStmt(c, body[0], st, fr);
      if !h.out.Normal? then h else ExecBody(c, body[1..], h.st, fr)
  }

  // ----- event calls -----

  /** Runs a function on a fresh frame above the globals. `EvalCall`
      does the same for the callee it finds. */
  function ExecFunction<W>(c: Config<W>, fn: FnDecl, args: seq<Value>, st: State<W>, fr: nat): (r: Res<W>)
    requires st.env != []
    ensures Framed(st, r.st)
  {
    if st.depth + 1 > c.limits.maxCallDepth then Trip(Depth, st)
    else LeaveCall(st.env, ExecBody(c, fn.body, EnterCall(st, fn, args), fr))
  }

  /** A fresh budget over the globals. */
  function Fresh<W>(globals: Frame, world: W): State<W> {
    State([globals], 0, 0, world, Meter(0, 0, 0, 0, 0))
  }

  /** One event call from outside the interpreter. */
  function RunEvent<W>(c: Config<W>, event: FnDecl, args: seq<Value>, globals: Frame, world: W): (r: Res<W>)
    ensures |r.st.env| == 1 && r.st.depth == 0
  {
    ExecFunction(c, event, args, Fresh(globals, world), 0)
  }
}
