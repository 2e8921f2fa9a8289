/** What CowScript programs mean, without budgets: rules that say which facts about expressions,
    statements and loops follow from which, and derivations built from them. */
module CowMeaning {
  import opened Wrappers
  import opened CowAst
  import opened CowInterp

  // ----- values -----

  /** What counts as true: not null, not false, not zero, not the empty string, not a null handle. */
  ghost predicate IsTrue(a: Arith, v: Value) {
    || v == Bool(true)
    || (v.Number? && !a.isZero(v.num))
    || (v.Str? && |v.str| > 0)
    || (v.Handle? && v.ptr != 0)
  }

  /** `n` is the number a value stands for in arithmetic. */
  ghost predicate CountsAs(a: Arith, v: Value, n: Double) {
    && (v.Number? ==> n == v.num)
    && (v == Bool(true) ==> n == a.one)
    && (v == Bool(false) || v.Null? || v.Handle? ==> n == a.zero)
    && (v.Str? ==> n == a.ofString(v.str))
  }

  ghost predicate ReadsAs(a: Arith, v: Value, t: string) {
    && (v.Null? ==> t == "null")
    && (v == Bool(true) ==> t == "true")
    && (v == Bool(false) ==> t == "false")
    && (v.Str? ==> t == v.str)
    && (v.Number? ==> t == a.format(v.num))
    && (v.Handle? ==> t == "<" + v.kind + ">")
  }

  /** Null equals null alone; a handle the same handle alone; with a string, texts are compared;
      otherwise numbers are. */
  ghost predicate AreEqual(a: Arith, l: Value, r: Value) {
    || (l.Null? && r.Null?)
    || (l.Handle? && r.Handle? && l.kind == r.kind && l.ptr == r.ptr)
    || (!l.Null? && !r.Null? && !l.Handle? && !r.Handle?
        && if l.Str? || r.Str? then exists t :: ReadsAs(a, l, t) && ReadsAs(a, r, t)
           else exists m, n :: CountsAs(a, l, m) && CountsAs(a, r, n) && a.eq(m, n))
  }

  /** What an expression or a statement came to. */
  datatype End = Val(v: Value) | Done | Ret(v: Value) | Failed

  /** An operator other than `and` and `or` on two values. */
  ghost predicate Operates(a: Arith, op: BinOp, l: Value, r: Value, o: End) {
    exists m, n :: CountsAs(a, l, m) && CountsAs(a, r, n) &&
      match op
      case Plus =>
        if l.Str? || r.Str? then exists s, t :: ReadsAs(a, l, s) && ReadsAs(a, r, t) && o == Val(Str(s + t))
        else o == Val(Number(a.add(m, n)))
      case Minus => o == Val(Number(a.sub(m, n)))
      case Star => o == Val(Number(a.mul(m, n)))
      case Slash => o == if a.isZero(n) then Failed else Val(Number(a.div(m, n)))
      case Percent => o == if a.isZero(n) then Failed else Val(Number(a.fmod(m, n)))
      case EqEq => o == Val(Bool(AreEqual(a, l, r)))
      case BangEq => o == Val(Bool(!AreEqual(a, l, r)))
      case Lt => o == Val(Bool(a.lt(m, n)))
      case Le => o == Val(Bool(a.le(m, n)))
      case Gt => o == Val(Bool(a.lt(n, m)))
      case Ge => o == Val(Bool(a.le(n, m)))
      case _ => false
  }

  ghost predicate Prefixes(a: Arith, op: UnOp, v: Value, o: End) {
    match op
    case Neg => exists n :: CountsAs(a, v, n) && o == Val(Number(a.neg(n)))
    case Not => o == Val(Bool(!IsTrue(a, v)))
  }

  // ----- variables -----

  /** Frame `i` is the nearest of the chain to bind the name. */
  ghost predicate Nearest(env: seq<Frame>, x: string, i: nat) {
    i < |env| && x in env[i] && forall j :: 0 <= j < i ==> x !in env[j]
  }

  ghost predicate Unbound(env: seq<Frame>, x: string) {
    forall i :: 0 <= i < |env| ==> x !in env[i]
  }

  ghost predicate Reads(env: seq<Frame>, x: string, o: End) {
    if Unbound(env, x) then o == Failed
    else exists i: nat :: Nearest(env, x, i) && o == Val(env[i][x])
  }

  /** An assignment writes the nearest binding, or makes one in the innermost frame. */
  ghost predicate Writes(env: seq<Frame>, x: string, v: Value, env': seq<Frame>) {
    if Unbound(env, x) then env != [] && env' == env[0 := env[0][x := v]]
    else exists i: nat :: Nearest(env, x, i) && env' == env[i := env[i][x := v]]
  }

  /** The frame a call begins with: each parameter has its argument, or null where there is none;
      of parameters with the same name the last counts. */
  ghost predicate Binds(params: seq<string>, args: seq<Value>, frame: Frame) {
    && (forall x :: x in frame <==> x in params)
    && forall i :: 0 <= i < |params| && (forall j :: i < j < |params| ==> params[j] != params[i]) ==>
         params[i] in frame && frame[params[i]] == if i < |args| then args[i] else Null
  }

  /** The first function of that name. */
  ghost predicate Declares(fns: seq<FnDecl>, name: string, fn: FnDecl) {
    exists i :: 0 <= i < |fns| && fns[i] == fn && fn.name == name && forall j :: 0 <= j < i ==> fns[j].name != name
  }

  ghost predicate Undeclared(fns: seq<FnDecl>, name: string) {
    forall i :: 0 <= i < |fns| ==> fns[i].name != name
  }

  // ----- facts -----

  /** The part of a state that programs can see. */
  datatype Store<W> = Store(env: seq<Frame>, world: W)

  datatype Fact<W> =
    | Expression(e: Expr, s: Store<W>, o: End, s': Store<W>)
    | Arguments(es: seq<Expr>, s: Store<W>, ok: bool, vals: seq<Value>, s': Store<W>)
    | Statement(st: Stmt, s: Store<W>, o: End, s': Store<W>)
    | Iteration(cond: Expr, body: seq<Stmt>, s: Store<W>, o: End, s': Store<W>)
    | Body(ss: seq<Stmt>, s: Store<W>, o: End, s': Store<W>)

  function Inner<W>(s: Store<W>): Store<W> { s.(env := [map[]] + s.env) }

  /** A fact about a body run in an environment of its own, inside `s`, that leaves `s'` behind. */
  ghost predicate Nested<W>(f: Fact<W>, body: seq<Stmt>, s: Store<W>, o: End, s': Store<W>) {
    f.Body? && f.ss == body && f.s == Inner(s) && f.o == o && f.s'.env != []
    && s' == f.s'.(env := f.s'.env[1..])
  }

  function FromHost(r: Option<Value>): End {
    if r.Some? then Val(r.value) else Failed
  }

  /** A call comes to what its body returned, or to null. */
  function CallEnd(o: End): End {
    match o
    case Done => Val(Null)
    case Ret(v) => Val(v)
    case _ => Failed
  }

  // ----- rules -----

  /** The expression `e` takes `s` to `s'` with outcome `o` because of the premises. */
  ghost predicate ExprRule<W>(prog: Program, host: Host<W>, e: Expr, s: Store<W>, o: End, s': Store<W>,
      ps: seq<Fact<W>>)
  {
    match e
    case NumberLit(n) => ps == [] && s' == s && o == Val(Number(n))
    case StringLit(t) => ps == [] && s' == s && o == Val(Str(t))
    case BoolLit(b) => ps == [] && s' == s && o == Val(Bool(b))
    case NullLit => ps == [] && s' == s && o == Val(Null)
    case Ident(x) => ps == [] && s' == s && Reads(s.env, x, o)
    case Assign(x, rhs) =>
      |ps| == 1 && ps[0].Expression? && ps[0].e == rhs && ps[0].s == s && ps[0].o == o
      && if o.Val? then s'.world == ps[0].s'.world && Writes(ps[0].s'.env, x, o.v, s'.env) else s' == ps[0].s'
    case Call(f, args) => CallRule(prog, host, f, args, s, o, s', ps)
    case Member(x, p) =>
      |ps| == 1 && ps[0].Expression? && ps[0].e == x && ps[0].s == s
      && if !ps[0].o.Val? || host.propGet.None? then o == Failed && s' == ps[0].s'
         else
           var got := host.propGet.value(ps[0].s'.world, ps[0].o.v, p);
           o == FromHost(got.result) && s' == ps[0].s'.(world := got.world)
    case MemberAssign(x, p, rhs) => MemberRule(host, x, p, rhs, s, o, s', ps)
    case Unary(op, x) =>
      |ps| == 1 && ps[0].Expression? && ps[0].e == x && ps[0].s == s && s' == ps[0].s'
      && if ps[0].o.Val? then Prefixes(host.arith, op, ps[0].o.v, o) else o == Failed
    case Binary(op, l, r) => BinaryRule(host, op, l, r, s, o, s', ps)
  }

  /** Arguments first; then the builtin of that name, or else the first function of that name, on a
      frame of its own above the globals. */
  ghost predicate CallRule<W>(prog: Program, host: Host<W>, f: string, args: seq<Expr>, s: Store<W>, o: End,
      s': Store<W>, ps: seq<Fact<W>>)
  {
    && |ps| >= 1 && ps[0].Arguments? && ps[0].es == args && ps[0].s == s
    && var mid := ps[0].s';
    if !ps[0].ok then |ps| == 1 && o == Failed && s' == mid
    else if f in host.builtins then
      var got := host.call(mid.world, f, ps[0].vals);
      |ps| == 1 && o == FromHost(got.result) && s' == mid.(world := got.world)
    else if Undeclared(prog.functions, f) then |ps| == 1 && o == Failed && s' == mid
    else
      && |ps| == 2 && ps[1].Body? && mid.env != [] && |ps[1].s'.env| == 2
      && (exists fn, frame :: Declares(prog.functions, f, fn) && Binds(fn.params, ps[0].vals, frame)
            && ps[1].ss == fn.body && ps[1].s == Store([frame, mid.env[|mid.env| - 1]], mid.world))
      && o == CallEnd(ps[1].o)
      && s' == Store(mid.env[|mid.env| - 1 := ps[1].s'.env[1]], ps[1].s'.world)
  }

  ghost predicate MemberRule<W>(host: Host<W>, x: Expr, p: string, rhs: Expr, s: Store<W>, o: End, s': Store<W>,
      ps: seq<Fact<W>>)
  {
    && |ps| >= 1 && ps[0].Expression? && ps[0].e == x && ps[0].s == s
    && if !ps[0].o.Val? then |ps| == 1 && o == Failed && s' == ps[0].s'
       else
         && |ps| == 2 && ps[1].Expression? && ps[1].e == rhs && ps[1].s == ps[0].s'
         && if !ps[1].o.Val? || host.propSet.None? then o == Failed && s' == ps[1].s'
            else
              var set_ := host.propSet.value(ps[1].s'.world, ps[0].o.v, p, ps[1].o.v);
              o == (if set_.result.Some? then ps[1].o else Failed) && s' == ps[1].s'.(world := set_.world)
  }

  /** `and` is its left side if that is not true, `or` if it is, and otherwise their right side. */
  ghost predicate BinaryRule<W>(host: Host<W>, op: BinOp, l: Expr, r: Expr, s: Store<W>, o: End, s': Store<W>,
      ps: seq<Fact<W>>)
  {
    && |ps| >= 1 && ps[0].Expression? && ps[0].e == l && ps[0].s == s
    && if !ps[0].o.Val? then |ps| == 1 && o == Failed && s' == ps[0].s'
       else if (op == And && !IsTrue(host.arith, ps[0].o.v)) || (op == Or && IsTrue(host.arith, ps[0].o.v)) then
         |ps| == 1 && o == ps[0].o && s' == ps[0].s'
       else
         && |ps| == 2 && ps[1].Expression? && ps[1].e == r && ps[1].s == ps[0].s' && s' == ps[1].s'
         && if !ps[1].o.Val? || op == And || op == Or then o == ps[1].o
            else Operates(host.arith, op, ps[0].o.v, ps[1].o.v, o)
  }

  ghost predicate ArgsRule<W>(es: seq<Expr>, s: Store<W>, ok: bool, vals: seq<Value>, s': Store<W>, ps: seq<Fact<W>>) {
    if es == [] then ps == [] && ok && vals == [] && s' == s
    else
      && |ps| >= 1 && ps[0].Expression? && ps[0].e == es[0] && ps[0].s == s
      && if !ps[0].o.Val? then |ps| == 1 && !ok && s' == ps[0].s'
         else
           && |ps| == 2 && ps[1].Arguments? && ps[1].es == es[1..] && ps[1].s == ps[0].s'
           && ok == ps[1].ok && s' == ps[1].s' && (ok ==> vals == [ps[0].o.v] + ps[1].vals)
  }

  ghost predicate StmtRule<W>(arith: Arith, st: Stmt, s: Store<W>, o: End, s': Store<W>, ps: seq<Fact<W>>) {
    match st
    case ExprStmt(e) =>
      |ps| == 1 && ps[0].Expression? && ps[0].e == e && ps[0].s == s && s' == ps[0].s'
      && o == if ps[0].o.Val? then Done else Failed
    case Let(x, e) =>
      |ps| == 1 && ps[0].Expression? && ps[0].e == e && ps[0].s == s
      && if !ps[0].o.Val? then o == Failed && s' == ps[0].s'
         else
           && o == Done && ps[0].s'.env != []
           && s' == ps[0].s'.(env := ps[0].s'.env[0 := ps[0].s'.env[0][x := ps[0].o.v]])
    case If(cond, body, elseBody) =>
      && |ps| >= 1 && ps[0].Expression? && ps[0].e == cond && ps[0].s == s
      && if !ps[0].o.Val? then |ps| == 1 && o == Failed && s' == ps[0].s'
         else if IsTrue(arith, ps[0].o.v) then |ps| == 2 && Nested(ps[1], body, ps[0].s', o, s')
         else if elseBody == [] then |ps| == 1 && o == Done && s' == ps[0].s'
         else |ps| == 2 && Nested(ps[1], elseBody, ps[0].s', o, s')
    case While(cond, body) =>
      |ps| == 1 && ps[0] == Iteration(cond, body, s, o, s')
    case Return(None) => ps == [] && o == Ret(Null) && s' == s
    case Return(Some(e)) =>
      |ps| == 1 && ps[0].Expression? && ps[0].e == e && ps[0].s == s && s' == ps[0].s'
      && o == if ps[0].o.Val? then Ret(ps[0].o.v) else Failed
    case Block(body) => |ps| == 1 && Nested(ps[0], body, s, o, s')
  }

  /** A loop stops when its condition is not true, and otherwise runs its body and begins again. */
  ghost predicate LoopRule<W>(arith: Arith, cond: Expr, body: seq<Stmt>, s: Store<W>, o: End, s': Store<W>,
      ps: seq<Fact<W>>)
  {
    && |ps| >= 1 && ps[0].Expression? && ps[0].e == cond && ps[0].s == s
    && if !ps[0].o.Val? then |ps| == 1 && o == Failed && s' == ps[0].s'
       else if !IsTrue(arith, ps[0].o.v) then |ps| == 1 && o == Done && s' == ps[0].s'
       else
         && |ps| >= 2 && ps[1].Body? && ps[1].s'.env != []
         && var after := ps[1].s'.(env := ps[1].s'.env[1..]);
         && Nested(ps[1], body, ps[0].s', ps[1].o, after)
         && if ps[1].o != Done then |ps| == 2 && o == ps[1].o && s' == after
            else |ps| == 3 && ps[2] == Iteration(cond, body, after, o, s')
  }

  ghost predicate BodyRule<W>(ss: seq<Stmt>, s: Store<W>, o: End, s': Store<W>, ps: seq<Fact<W>>) {
    if ss == [] then ps == [] && o == Done && s' == s
    else
      && |ps| >= 1 && ps[0].Statement? && ps[0].st == ss[0] && ps[0].s == s
      && if ps[0].o != Done then |ps| == 1 && o == ps[0].o && s' == ps[0].s'
         else |ps| == 2 && ps[1] == Body(ss[1..], ps[0].s', o, s')
  }

  /** The fact follows from the premises by one of the rules. */
  ghost predicate Follows<W>(prog: Program, host: Host<W>, f: Fact<W>, ps: seq<Fact<W>>) {
    match f
    case Expression(e, s, o, s') => ExprRule(prog, host, e, s, o, s', ps)
    case Arguments(es, s, ok, vals, s') => ArgsRule(es, s, ok, vals, s', ps)
    case Statement(st, s, o, s') => StmtRule(host.arith, st, s, o, s', ps)
    case Iteration(cond, body, s, o, s') => LoopRule(host.arith, cond, body, s, o, s', ps)
    case Body(ss, s, o, s') => BodyRule(ss, s, o, s', ps)
  }

  /** A derivation: a fact and derivations of its premises. */
  datatype Proof<W> = Proof(fact: Fact<W>, premises: seq<Proof<W>>)

  ghost function Facts<W>(ps: seq<Proof<W>>): seq<Fact<W>> {
    seq(|ps|, i requires 0 <= i < |ps| => ps[i].fact)
  }

  ghost predicate Proves<W>(prog: Program, host: Host<W>, p: Proof<W>) {
    && Follows(prog, host, p.fact, Facts(p.premises))
    && forall i :: 0 <= i < |p.premises| ==> Proves(prog, host, p.premises[i])
  }
  /** The fact has a derivation. */
  ghost predicate Means<W(!new)>(prog: Program, host: Host<W>, f: Fact<W>) {
    exists p: Proof<W> :: Proves(prog, host, p) && p.fact == f
  }

  /** The event, called on the globals and the world, comes to `o` and leaves those of `s'`. */
  ghost predicate EventMeans<W(!new)>(prog: Program, host: Host<W>, event: FnDecl, args: seq<Value>, globals: Frame,
      world: W, o: End, globals': Frame, world': W)
  {
    exists frame, locals, end ::
      && Binds(event.params, args, frame) && o == CallEnd(end)
      && Means(prog, host, Body(event.body, Store([frame, globals], world), end, Store([locals, globals'], world')))
  }
}
