/** The CowScript grammar twice over: the recursive-descent parser as a function on tokens,
    and the printer that specifies it. */
module CowGrammar {
  import opened Wrappers
  import opened CowAst

  datatype Token =
    | TNumber(num: Double) | TString(text: string) | TIdent(name: string)
    | TLet | TIf | TElse | TWhile | TFn | TReturn | TOn | TTrue | TFalse | TNull | TAnd | TOr | TNot
    | TPlus | TMinus | TStar | TSlash | TPercent
    | TEq | TEqEq | TBangEq | TLt | TLe | TGt | TGe
    | TLParen | TRParen | TLBrace | TRBrace | TComma | TSemi | TDot
    | TEnd

  /** The value parsed and the tokens left over, or a syntax error. */
  datatype Parsed<+T> = Ok(value: T, rest: seq<Token>) | Fail {
    predicate IsFailure() { Fail? }
    function PropagateFailure<U>(): Parsed<U> requires Fail? { Fail }
    function Extract(): (T, seq<Token>) requires Ok? { (value, rest) }
  }

  function Head(toks: seq<Token>): Token {
    if toks == [] then TEnd else toks[0]
  }

  // ----- precedence levels -----
  // 0 assignment, 1 or, 2 and, 3 equality, 4 relation, 5 sum, 6 product,
  // 7 unary, 8 call and member chains, 9 primary

  type Level = k: nat | k <= 9

  function OpLevel(op: BinOp): (k: nat)
    ensures 1 <= k <= 6
  {
    match op
    case Or => 1
    case And => 2
    case EqEq => 3
    case BangEq => 3
    case Lt => 4
    case Le => 4
    case Gt => 4
    case Ge => 4
    case Plus => 5
    case Minus => 5
    case Star => 6
    case Slash => 6
    case Percent => 6
  }

  function OpToken(op: BinOp): Token {
    match op
    case Or => TOr
    case And => TAnd
    case EqEq => TEqEq
    case BangEq => TBangEq
    case Lt => TLt
    case Le => TLe
    case Gt => TGt
    case Ge => TGe
    case Plus => TPlus
    case Minus => TMinus
    case Star => TStar
    case Slash => TSlash
    case Percent => TPercent
  }

  function OpOf(t: Token): (r: Option<BinOp>)
    ensures r.Some? ==> OpToken(r.value) == t
  {
    match t
    case TOr => Some(Or)
    case TAnd => Some(And)
    case TEqEq => Some(EqEq)
    case TBangEq => Some(BangEq)
    case TLt => Some(Lt)
    case TLe => Some(Le)
    case TGt => Some(Gt)
    case TGe => Some(Ge)
    case TPlus => Some(Plus)
    case TMinus => Some(Minus)
    case TStar => Some(Star)
    case TSlash => Some(Slash)
    case TPercent => Some(Percent)
    case _ => None
  }

  /** The operator the loop of level `k` accepts on token `t`. */
  function OpAt(k: Level, t: Token): Option<BinOp> {
    var op := OpOf(t);
    if op.Some? && OpLevel(op.value) == k then op else None
  }

  // ----- parser -----

  function Expect(toks: seq<Token>, t: Token): (r: Parsed<()>)
    requires t != TEnd
    ensures r.Ok? <==> Head(toks) == t
    ensures r.Ok? ==> toks != [] && r.rest == toks[1..]
  {
    if Head(toks) == t then Ok((), toks[1..]) else Fail
  }

  /** Skips an optional token. */
  function Skip(toks: seq<Token>, t: Token): (r: seq<Token>)
    requires t != TEnd
    ensures |r| <= |toks|
  {
    if Head(toks) == t then toks[1..] else toks
  }

  function ParseAt(k: Level, toks: seq<Token>): (r: Parsed<Expr>)
    ensures r.Ok? ==> |r.rest| < |toks|
    decreases |toks|, 20 - k
  {
    if k == 0 then
      var (lhs, t1) :- ParseAt(1, toks);
      if Head(t1) != TEq then Ok(lhs, t1)
      else
        var (rhs, t2) :- ParseAt(0, t1[1..]);
        if lhs.Ident? then Ok(Assign(lhs.name, rhs), t2)
        else if lhs.Member? then Ok(MemberAssign(lhs.owner, lhs.prop, rhs), t2)
        else Fail
    else if k <= 6 then
      var (lhs, t1) :- ParseAt(k + 1, toks);
      ParseTail(k, lhs, t1)
    else if k == 7 then
      if Head(toks) == TMinus || Head(toks) == TNot then
        var (x, t1) :- ParseAt(7, toks[1..]);
        Ok(Unary(if Head(toks) == TMinus then Neg else Not, x), t1)
      else ParseAt(8, toks)
    else if k == 8 then
      var (lhs, t1) :- ParseAt(9, toks);
      ParsePostfix(lhs, t1)
    else
      match Head(toks)
      case TNumber(n) => Ok(NumberLit(n), toks[1..])
      case TString(s) => Ok(StringLit(s), toks[1..])
      case TTrue => Ok(BoolLit(true), toks[1..])
      case TFalse => Ok(BoolLit(false), toks[1..])
      case TNull => Ok(NullLit, toks[1..])
      case TIdent(x) => Ok(Ident(x), toks[1..])
      case TLParen =>
        var (e, t1) :- ParseAt(0, toks[1..]);
        var (_, t2) :- Expect(t1, TRParen);
        Ok(e, t2)
      case _ => Fail
  }

  /** The left-associative loop of a binary level. */
  function ParseTail(k: Level, lhs: Expr, toks: seq<Token>): (r: Parsed<Expr>)
    requires 1 <= k <= 6
    ensures r.Ok? ==> |r.rest| <= |toks|
    decreases |toks|, 0
  {
    match OpAt(k, Head(toks))
    case None => Ok(lhs, toks)
    case Some(op) =>
      var (rhs, t1) :- ParseAt(k + 1, toks[1..]);
      ParseTail(k, Binary(op, lhs, rhs), t1)
  }

  /** The loop over calls and member accesses; only a bare identifier can be called. */
  function ParsePostfix(lhs: Expr, toks: seq<Token>): (r: Parsed<Expr>)
    ensures r.Ok? ==> |r.rest| <= |toks|
    decreases |toks|, 0
  {
    if Head(toks) == TLParen then
      if !lhs.Ident? then Fail
      else if Head(toks[1..]) == TRParen then ParsePostfix(Call(lhs.name, []), toks[2..])
      else
        var (args, t1) :- ParseArgs(toks[1..]);
        var (_, t2) :- Expect(t1, TRParen);
        ParsePostfix(Call(lhs.name, args), t2)
    else if Head(toks) == TDot then
      if !Head(toks[1..]).TIdent? then Fail
      else ParsePostfix(Member(lhs, toks[1].name), toks[2..])
    else Ok(lhs, toks)
  }

  function ParseArgs(toks: seq<Token>): (r: Parsed<seq<Expr>>)
    ensures r.Ok? ==> |r.rest| < |toks| && r.value != []
    decreases |toks|, 30
  {
    var (e, t1) :- ParseAt(0, toks);
    if Head(t1) != TComma then Ok([e], t1)
    else
      var (es, t2) :- ParseArgs(t1[1..]);
      Ok([e] + es, t2)
  }

  function ParseStmt(toks: seq<Token>): (r: Parsed<Stmt>)
    ensures r.Ok? ==> |r.rest| < |toks|
    decreases |toks|, 40
  {
    if Head(toks) == TLet then
      if !Head(toks[1..]).TIdent? then Fail
      else
        var (_, t1) :- Expect(toks[2..], TEq);
        var (e, t2) :- ParseAt(0, t1);
        Ok(Let(toks[1].name, e), Skip(t2, TSemi))
    else if Head(toks) == TIf then
      ParseIf(toks)
    else if Head(toks) == TWhile then
      var (h, t1) :- ParseHeader(toks[1..]);
      Ok(While(h.cond, h.body), t1)
    else if Head(toks) == TReturn then
      var t1 := toks[1..];
      if Head(t1) == TSemi || Head(t1) == TRBrace || Head(t1) == TEnd then Ok(Return(None), Skip(t1, TSemi))
      else
        var (e, t2) :- ParseAt(0, t1);
        Ok(Return(Some(e)), Skip(t2, TSemi))
    else
      var (e, t1) :- ParseAt(0, toks);
      Ok(ExprStmt(e), Skip(t1, TSemi))
  }

  function ParseIf(toks: seq<Token>): (r: Parsed<Stmt>)
    requires Head(toks) == TIf
    ensures r.Ok? ==> |r.rest| < |toks|
    decreases |toks|, 39
  {
    var (h, t1) :- ParseHeader(toks[1..]);
    if Head(t1) != TElse then Ok(If(h.cond, h.body, []), t1)
    else if Head(t1[1..]) == TIf then
      var (h2, t2) :- ParseHeader(t1[2..]);
      if Head(t2) != TElse then Ok(If(h.cond, h.body, [If(h2.cond, h2.body, [])]), t2)
      else
        var (els, t3) :- ParseBraced(t2[1..]);
        Ok(If(h.cond, h.body, [If(h2.cond, h2.body, els)]), t3)
    else
      var (els, t2) :- ParseBraced(t1[1..]);
      Ok(If(h.cond, h.body, els), t2)
  }

  datatype Header = Header(cond: Expr, body: seq<Stmt>)

  /** `( cond ) { body }` */
  function ParseHeader(toks: seq<Token>): (r: Parsed<Header>)
    ensures r.Ok? ==> |r.rest| < |toks|
    decreases |toks|, 39
  {
    var (_, t1) :- Expect(toks, TLParen);
    var (cond, t2) :- ParseAt(0, t1);
    var (_, t3) :- Expect(t2, TRParen);
    var (body, t4) :- ParseBraced(t3);
    Ok(Header(cond, body), t4)
  }

  /** `{ body }` */
  function ParseBraced(toks: seq<Token>): (r: Parsed<seq<Stmt>>)
    ensures r.Ok? ==> |r.rest| < |toks|
    decreases |toks|, 38
  {
    var (_, t1) :- Expect(toks, TLBrace);
    ParseBlock(t1)
  }

  /** The statements up to and including the closing brace. */
  function ParseBlock(toks: seq<Token>): (r: Parsed<seq<Stmt>>)
    ensures r.Ok? ==> |r.rest| < |toks|
    decreases |toks|, 41
  {
    if Head(toks) == TRBrace then Ok([], toks[1..])
    else if Head(toks) == TEnd then Fail
    else
      var (s, t1) :- ParseStmt(toks);
      var (ss, t2) :- ParseBlock(t1);
      Ok([s] + ss, t2)
  }

  function ParseParams(toks: seq<Token>): (r: Parsed<seq<string>>)
    ensures r.Ok? ==> |r.rest| < |toks| && r.value != []
    decreases |toks|
  {
    if !Head(toks).TIdent? then Fail
    else if Head(toks[1..]) != TComma then Ok([toks[0].name], toks[1..])
    else
      var (ps, t1) :- ParseParams(toks[2..]);
      Ok([toks[0].name] + ps, t1)
  }

  /** A function or event declaration, its keyword already consumed. */
  function ParseParamList(toks: seq<Token>): (r: Parsed<seq<string>>)
    ensures r.Ok? ==> |r.rest| < |toks|
  {
    var (_, t1) :- Expect(toks, TLParen);
    var (params, t2) :- (if Head(t1) == TRParen then Ok([], t1) else ParseParams(t1));
    var (_, t3) :- Expect(t2, TRParen);
    Ok(params, t3)
  }

  function ParseFnLike(toks: seq<Token>): (r: Parsed<FnDecl>)
    ensures r.Ok? ==> |r.rest| < |toks|
  {
    if !Head(toks).TIdent? then Fail
    else
      var (params, t3) :- ParseParamList(toks[1..]);
      var (body, t4) :- ParseBraced(t3);
      Ok(FnDecl(toks[0].name, params, body), t4)
  }

  function ParseProgram(toks: seq<Token>, p: Program): (r: Option<Program>)
    decreases |toks|
  {
    if Head(toks) == TEnd then Some(p)
    else if Head(toks) == TFn then
      match ParseFnLike(toks[1..])
      case Fail => None
      case Ok(f, rest) => ParseProgram(rest, p.(functions := p.functions + [f]))
    else if Head(toks) == TOn then
      match ParseFnLike(toks[1..])
      case Fail => None
      case Ok(f, rest) => ParseProgram(rest, p.(events := p.events + [f]))
    else
      match ParseStmt(toks)
      case Fail => None
      case Ok(s, rest) => ParseProgram(rest, p.(topLevel := p.topLevel + [s]))
  }

  const EMPTY: Program := Program([], [], [])

  // ----- printer -----

  function ExprLevel(e: Expr): Level {
    match e
    case Assign(_, _) => 0
    case MemberAssign(_, _, _) => 0
    case Binary(op, _, _) => OpLevel(op)
    case Unary(_, _) => 7
    case Call(_, _) => 8
    case Member(_, _) => 8
    case _ => 9
  }

  /** An expression where the grammar expects level `k`: parenthesised only if it binds less tightly. */
  function RenderAt(e: Expr, k: Level): seq<Token>
    decreases e, 1
  {
    if ExprLevel(e) < k then [TLParen] + Render(e) + [TRParen] else Render(e)
  }

  function Render(e: Expr): seq<Token>
    decreases e, 0
  {
    match e
    case NumberLit(n) => [TNumber(n)]
    case StringLit(s) => [TString(s)]
    case BoolLit(b) => [if b then TTrue else TFalse]
    case NullLit => [TNull]
    case Ident(x) => [TIdent(x)]
    case Call(f, args) => [TIdent(f), TLParen] + RenderArgs(args) + [TRParen]
    case Unary(op, x) => [if op == Neg then TMinus else TNot] + RenderAt(x, 7)
    case Binary(op, l, r) => RenderAt(l, OpLevel(op)) + [OpToken(op)] + RenderAt(r, OpLevel(op) + 1)
    case Assign(x, rhs) => [TIdent(x), TEq] + RenderAt(rhs, 0)
    case Member(o, p) => RenderAt(o, 8) + [TDot, TIdent(p)]
    case MemberAssign(o, p, rhs) => RenderAt(o, 8) + [TDot, TIdent(p), TEq] + RenderAt(rhs, 0)
  }

  function RenderArgs(args: seq<Expr>): seq<Token>
    decreases args, 0
  {
    if args == [] then []
    else if |args| == 1 then RenderAt(args[0], 0)
    else RenderAt(args[0], 0) + [TComma] + RenderArgs(args[1..])
  }

  function RenderStmt(s: Stmt): seq<Token>
    decreases s, 0
  {
    match s
    case ExprStmt(e) => RenderAt(e, 0) + [TSemi]
    case Let(x, e) => [TLet, TIdent(x), TEq] + (RenderAt(e, 0) + [TSemi])
    case If(c, body, els) =>
      [TIf] + (RenderHeader(c, body) + if els == [] then [] else [TElse] + RenderBraced(els))
    case While(c, body) => [TWhile] + RenderHeader(c, body)
    case Return(None) => [TReturn, TSemi]
    case Return(Some(e)) => [TReturn] + (RenderAt(e, 0) + [TSemi])
    case Block(_) => []  // no syntax
  }

  function RenderHeader(c: Expr, body: seq<Stmt>): seq<Token>
    decreases body, 2
  {
    [TLParen] + (RenderAt(c, 0) + ([TRParen] + RenderBraced(body)))
  }

  function RenderBraced(body: seq<Stmt>): seq<Token>
    decreases body, 1
  {
    [TLBrace] + (RenderStmts(body) + [TRBrace])
  }

  function RenderStmts(ss: seq<Stmt>): seq<Token>
    decreases ss, 0
  {
    if ss == [] then [] else RenderStmt(ss[0]) + RenderStmts(ss[1..])
  }

  function RenderParams(ps: seq<string>): seq<Token> {
    if ps == [] then []
    else if |ps| == 1 then [TIdent(ps[0])]
    else [TIdent(ps[0]), TComma] + RenderParams(ps[1..])
  }

  function RenderFnLike(f: FnDecl): seq<Token> {
    [TIdent(f.name), TLParen] + (RenderParams(f.params) + ([TRParen] + RenderBraced(f.body)))
  }

  function RenderFns(keyword: Token, fs: seq<FnDecl>): seq<Token> {
    if fs == [] then [] else [keyword] + (RenderFnLike(fs[0]) + RenderFns(keyword, fs[1..]))
  }

  function RenderProgram(p: Program): seq<Token> {
    RenderFns(TFn, p.functions) + (RenderFns(TOn, p.events) + RenderStmts(p.topLevel))
  }
}
