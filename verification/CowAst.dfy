/** Values and syntax trees of the CowScript language. */
module CowAst {
  import opened Wrappers

  /** The bit pattern of an IEEE-754 double. What the bits mean is left to `Arith`. */
  type Double = bv64

  datatype Value =
    | Null
    | Number(num: Double)
    | Bool(boolean: bool)
    | Str(str: string)
    | Handle(kind: string, ptr: nat)

  /** The double operations of the host machine, as parameters: every result below
      holds whatever they compute, rounding and NaN included. */
  datatype Arith = Arith(
    isZero: Double -> bool,
    neg: Double -> Double,
    add: (Double, Double) -> Double,
    sub: (Double, Double) -> Double,
    mul: (Double, Double) -> Double,
    div: (Double, Double) -> Double,
    fmod: (Double, Double) -> Double,
    eq: (Double, Double) -> bool,
    lt: (Double, Double) -> bool,
    le: (Double, Double) -> bool,
    zero: Double,
    one: Double,
    ofString: string -> Double,  // std::stod, or 0.0 where it throws
    format: Double -> string)    // "%lld" or "%g"

  datatype UnOp = Neg | Not

  datatype BinOp = Or | And | EqEq | BangEq | Lt | Le | Gt | Ge | Plus | Minus | Star | Slash | Percent

  datatype Expr =
    | NumberLit(num: Double)
    | StringLit(text: string)
    | BoolLit(boolean: bool)
    | NullLit
    | Ident(name: string)
    | Call(callee: string, args: seq<Expr>)
    | Unary(uop: UnOp, operand: Expr)
    | Binary(bop: BinOp, left: Expr, right: Expr)
    | Assign(target: string, rhs: Expr)
    | Member(owner: Expr, prop: string)
    | MemberAssign(owner: Expr, prop: string, rhs: Expr)

  datatype Stmt =
    | ExprStmt(expr: Expr)
    | Let(name: string, expr: Expr)
    | If(cond: Expr, body: seq<Stmt>, elseBody: seq<Stmt>)
    | While(cond: Expr, body: seq<Stmt>)
    | Return(value: Option<Expr>)
    | Block(body: seq<Stmt>)

  datatype FnDecl = FnDecl(name: string, params: seq<string>, body: seq<Stmt>)

  datatype Program = Program(functions: seq<FnDecl>, events: seq<FnDecl>, topLevel: seq<Stmt>)

  function Truthy(a: Arith, v: Value): bool {
    match v
    case Null => false
    case Bool(b) => b
    case Number(n) => !a.isZero(n)
    case Str(s) => s != ""
    case Handle(_, p) => p != 0
  }

  function ToNumber(a: Arith, v: Value): Double {
    match v
    case Number(n) => n
    case Bool(b) => if b then a.one else a.zero
    case Null => a.zero
    case Str(s) => a.ofString(s)
    case Handle(_, _) => a.zero
  }

  function ToText(a: Arith, v: Value): string {
    match v
    case Null => "null"
    case Bool(b) => if b then "true" else "false"
    case Str(s) => s
    case Number(n) => a.format(n)
    case Handle(k, _) => "<" + k + ">"
  }

  function UnaryOp(a: Arith, op: UnOp, v: Value): Value {
    match op
    case Neg => Number(a.neg(ToNumber(a, v)))
    case Not => Bool(!Truthy(a, v))
  }

  function Equal(a: Arith, l: Value, r: Value): bool {
    if l.Null? || r.Null? then l.Null? && r.Null?
    else if l.Handle? || r.Handle? then l.Handle? && r.Handle? && l.ptr == r.ptr && l.kind == r.kind
    else if l.Str? || r.Str? then ToText(a, l) == ToText(a, r)
    else a.eq(ToNumber(a, l), ToNumber(a, r))
  }

  /** The strict binary operators; None is a division or modulo by zero. */
  function BinaryOp(a: Arith, op: BinOp, l: Value, r: Value): Option<Value>
    requires op != And && op != Or
  {
    var x, y := ToNumber(a, l), ToNumber(a, r);
    match op
    case Plus => if l.Str? || r.Str? then Some(Str(ToText(a, l) + ToText(a, r))) else Some(Number(a.add(x, y)))
    case Minus => Some(Number(a.sub(x, y)))
    case Star => Some(Number(a.mul(x, y)))
    case Slash => if a.isZero(y) then None else Some(Number(a.div(x, y)))
    case Percent => if a.isZero(y) then None else Some(Number(a.fmod(x, y)))
    case EqEq => Some(Bool(Equal(a, l, r)))
    case BangEq => Some(Bool(!Equal(a, l, r)))
    case Lt => Some(Bool(a.lt(x, y)))
    case Le => Some(Bool(a.le(x, y)))
    case Gt => Some(Bool(a.lt(y, x)))
    case Ge => Some(Bool(a.le(y, x)))
  }
}
