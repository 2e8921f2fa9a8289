/** The recursive-descent parser as it runs: a cursor over the token stream, advanced in
    place, and one loop per left-associative level. Each method computes what the grammar
    of `CowGrammar` says. */
module CowParser {
  import opened Wrappers
  import opened CowAst
  import G = CowGrammar

  /** A method that returned `r` and left the tokens `rest` did what `p` says; None is the thrown error. */
  ghost predicate Agrees<T>(p: G.Parsed<T>, r: Option<T>, rest: seq<G.Token>) {
    match p
    case Ok(v, t) => r == Some(v) && rest == t
    case Fail => r == None
  }

  /** What a list parser that has already collected `sofar` will produce. */
  ghost function Extend<T>(sofar: seq<T>, p: G.Parsed<seq<T>>): G.Parsed<seq<T>> {
    match p
    case Ok(v, t) => G.Ok(sofar + v, t)
    case Fail => G.Fail
  }

  lemma ExtendNothing<T>(p: G.Parsed<seq<T>>)
    ensures Extend([], p) == p
  {
    if p.Ok? { assert [] + p.value == p.value; }
  }

  lemma ExtendOne<T>(sofar: seq<T>, x: T, p: G.Parsed<seq<T>>)
    ensures Extend(sofar + [x], p) == Extend(sofar, Extend([x], p))
  {
    if p.Ok? { assert sofar + [x] + p.value == sofar + ([x] + p.value); }
  }

  lemma BinaryUnfolds(k: G.Level, toks: seq<G.Token>)
    requires 1 <= k <= 6
    ensures G.ParseAt(k, toks) ==
            match G.ParseAt(k + 1, toks) case Ok(lhs, t) => G.ParseTail(k, lhs, t) case Fail => G.Fail
  {
    hide G.ParseTail;
  }

  lemma TailUnfolds(k: G.Level, lhs: Expr, toks: seq<G.Token>)
    requires 1 <= k <= 6
    ensures var op := G.OpAt(k, G.Head(toks));
            G.ParseTail(k, lhs, toks) ==
            if op.None? then G.Ok(lhs, toks)
            else match G.ParseAt(k + 1, toks[1..])
                 case Ok(rhs, t) => G.ParseTail(k, Binary(op.value, lhs, rhs), t)
                 case Fail => G.Fail
  {
    hide G.ParseAt;
  }

  lemma CallUnfolds(toks: seq<G.Token>)
    ensures G.ParseAt(8, toks) ==
            match G.ParseAt(9, toks) case Ok(lhs, t) => G.ParsePostfix(lhs, t) case Fail => G.Fail
  {
    hide G.ParsePostfix;
  }

  class Parser {
    const toks: seq<G.Token>
    var pos: nat

    constructor (toks: seq<G.Token>)
      ensures this.toks == toks && pos == 0
    {
      this.toks := toks;
      pos := 0;
    }

    ghost predicate Valid() reads this { pos <= |toks| }

    /** The tokens from the current one on; past the last, the lexer keeps answering End. */
    ghost function Rest(): (r: seq<G.Token>)
      requires Valid()
      reads this
    {
      toks[pos..]
    }

    function Cur(): (t: G.Token)
      requires Valid()
      reads this
      ensures t == G.Head(Rest())
    {
      if pos < |toks| then toks[pos] else G.TEnd
    }

    method Advance()
      requires Valid()
      modifies this
      ensures Valid() && pos >= old(pos)
      ensures Rest() == if old(Rest()) == [] then [] else old(Rest())[1..]
    {
      if pos < |toks| { pos := pos + 1; }
    }

    method Match(t: G.Token) returns (b: bool)
      requires Valid() && t != G.TEnd
      modifies this
      ensures Valid() && pos >= old(pos) && b == (G.Head(old(Rest())) == t)
      ensures Rest() == G.Skip(old(Rest()), t)
    {
      b := Cur() == t;
      if b { Advance(); }
    }

    method Expect(t: G.Token) returns (r: Option<()>)
      requires Valid() && t != G.TEnd
      modifies this
      ensures Valid() && pos >= old(pos) && (r.Some? ==> pos > old(pos))
      ensures Agrees(G.Expect(old(Rest()), t), r, Rest())
    {
      if Cur() != t { return None; }
      Advance();
      r := Some(());
    }

    method ParseExpr() returns (r: Option<Expr>)
      requires Valid()
      modifies this
      ensures Valid() && pos >= old(pos)
      ensures Agrees(G.ParseAt(0, old(Rest())), r, Rest())
      decreases |toks| - pos, 20
    {
      hide G.ParseTail, G.ParsePostfix;
      r := ParseBinary(1);
      if r.None? || Cur() != G.TEq { return; }
      var lhs := r.value;
      Advance();
      r := ParseExpr();
      if r.None? { return; }
      if lhs.Ident? { return Some(Assign(lhs.name, r.value)); }
      if lhs.Member? { return Some(MemberAssign(lhs.owner, lhs.prop, r.value)); }
      r := None;
    }

    /** parseOr, parseAnd, parseEq, parseRel, parseAdd and parseMul: the same loop over the operators of level `k`. */
    method ParseBinary(k: G.Level) returns (r: Option<Expr>)
      requires Valid() && 1 <= k <= 6
      modifies this
      ensures Valid() && pos >= old(pos) && (r.Some? ==> pos > old(pos))
      ensures Agrees(G.ParseAt(k, old(Rest())), r, Rest())
      decreases |toks| - pos, 20 - k
    {
      hide G.ParseAt, G.ParseTail;
      BinaryUnfolds(k, Rest());
      if k == 6 { r := ParseUnary(); } else { r := ParseBinary(k + 1); }
      if r.None? { return; }
      var lhs := r.value;
      ghost var whole := G.ParseTail(k, lhs, Rest());
      while G.OpAt(k, Cur()).Some?
        invariant Valid() && pos > old(pos)
        invariant whole == G.ParseTail(k, lhs, Rest())
        decreases |toks| - pos
      {
        var op := G.OpAt(k, Cur()).value;
        TailUnfolds(k, lhs, Rest());
        Advance();
        if k == 6 { r := ParseUnary(); } else { r := ParseBinary(k + 1); }
        if r.None? { return; }
        lhs := Binary(op, lhs, r.value);
      }
      TailUnfolds(k, lhs, Rest());
      r := Some(lhs);
    }

    method ParseUnary() returns (r: Option<Expr>)
      requires Valid()
      modifies this
      ensures Valid() && pos >= old(pos) && (r.Some? ==> pos > old(pos))
      ensures Agrees(G.ParseAt(7, old(Rest())), r, Rest())
      decreases |toks| - pos, 13
    {
      hide G.ParseTail, G.ParsePostfix;
      if Cur() == G.TMinus || Cur() == G.TNot {
        var op := if Cur() == G.TMinus then Neg else Not;
        Advance();
        r := ParseUnary();
        if r.Some? { r := Some(Unary(op, r.value)); }
      } else {
        r := ParseCall();
      }
    }

    method ParseCall() returns (r: Option<Expr>)
      requires Valid()
      modifies this
      ensures Valid() && pos >= old(pos) && (r.Some? ==> pos > old(pos))
      ensures Agrees(G.ParseAt(8, old(Rest())), r, Rest())
      decreases |toks| - pos, 12
    {
      hide G.ParseAt, G.ParseArgs;
      CallUnfolds(Rest());
      r := ParsePrimary();
      if r.None? { return; }
      var lhs := r.value;
      ghost var whole := G.ParsePostfix(lhs, Rest());
      while Cur() == G.TLParen || Cur() == G.TDot
        invariant Valid() && pos > old(pos)
        invariant whole == G.ParsePostfix(lhs, Rest())
        decreases |toks| - pos
      {
        if Cur() == G.TLParen {
          if !lhs.Ident? { return None; }
          Advance();
          var args := [];
          if Cur() != G.TRParen {
            var a := ParseArgs();
            if a.None? { return None; }
            args := a.value;
          }
          var ok := Expect(G.TRParen);
          if ok.None? { return None; }
          lhs := Call(lhs.name, args);
        } else {
          Advance();
          if !Cur().TIdent? { return None; }
          lhs := Member(lhs, Cur().name);
          Advance();
        }
      }
      r := Some(lhs);
    }

    method ParseArgs() returns (r: Option<seq<Expr>>)
      requires Valid()
      modifies this
      ensures Valid() && pos >= old(pos)
      ensures Agrees(G.ParseArgs(old(Rest())), r, Rest())
      decreases |toks| - pos, 30
    {
      hide G.ParseAt;
      var args := [];
      ExtendNothing(G.ParseArgs(Rest()));
      while true
        invariant Valid() && pos >= old(pos)
        invariant G.ParseArgs(old(Rest())) == Extend(args, G.ParseArgs(Rest()))
        decreases |toks| - pos
      {
        ghost var sofar := args;
        var e := ParseExpr();
        if e.None? { return None; }
        args := args + [e.value];
        var more := Match(G.TComma);
        if !more { break; }
        ExtendOne(sofar, e.value, G.ParseArgs(Rest()));
      }
      r := Some(args);
    }

    method ParsePrimary() returns (r: Option<Expr>)
      requires Valid()
      modifies this
      ensures Valid() && pos >= old(pos) && (r.Some? ==> pos > old(pos))
      ensures Agrees(G.ParseAt(9, old(Rest())), r, Rest())
      decreases |toks| - pos, 11
    {
      hide G.ParseTail, G.ParsePostfix;
      match Cur()
      case TNumber(n) => Advance(); r := Some(NumberLit(n));
      case TString(s) => Advance(); r := Some(StringLit(s));
      case TTrue => Advance(); r := Some(BoolLit(true));
      case TFalse => Advance(); r := Some(BoolLit(false));
      case TNull => Advance(); r := Some(NullLit);
      case TIdent(x) => Advance(); r := Some(Ident(x));
      case TLParen => r := ParseParens();
      case _ => r := None;
    }

    method ParseParens() returns (r: Option<Expr>)
      requires Valid() && Cur() == G.TLParen
      modifies this
      ensures Valid() && pos >= old(pos) && (r.Some? ==> pos > old(pos))
      ensures Agrees(G.ParseAt(9, old(Rest())), r, Rest())
      decreases |toks| - pos, 10
    {
      ParensAt(Rest());
      hide G.ParseAt;
      Advance();
      r := ParseExpr();
      if r.None? { return; }
      var ok := Expect(G.TRParen);
      if ok.None? { r := None; }
    }

    static lemma ParensAt(toks: seq<G.Token>)
      requires G.Head(toks) == G.TLParen
      ensures G.ParseAt(9, toks) ==
              match G.ParseAt(0, toks[1..])
              case Fail => G.Fail
              case Ok(e, t1) => (match G.Expect(t1, G.TRParen) case Fail => G.Fail case Ok(_, t2) => G.Ok(e, t2))
    {
      hide G.ParseTail, G.ParsePostfix;
    }

    method ParseStatement() returns (r: Option<Stmt>)
      requires Valid()
      modifies this
      ensures Valid() && pos >= old(pos)
      ensures Agrees(G.ParseStmt(old(Rest())), r, Rest())
      decreases |toks| - pos, 40
    {
      hide G.ParseAt, G.ParseHeader, G.ParseIf;
      if Cur() == G.TLet {
        r := ParseLet();
      } else if Cur() == G.TIf {
        r := ParseIf();
      } else if Cur() == G.TWhile {
        Advance();
        var h := ParseHeader();
        if h.None? { return None; }
        r := Some(While(h.value.cond, h.value.body));
      } else if Cur() == G.TReturn {
        r := ParseReturn();
      } else {
        var e := ParseExpr();
        if e.None? { return None; }
        var _ := Match(G.TSemi);
        r := Some(ExprStmt(e.value));
      }
    }

    method ParseLet() returns (r: Option<Stmt>)
      requires Valid() && Cur() == G.TLet
      modifies this
      ensures Valid() && pos >= old(pos)
      ensures Agrees(G.ParseStmt(old(Rest())), r, Rest())
      decreases |toks| - pos, 39
    {
      hide G.ParseAt, G.ParseHeader, G.ParseIf;
      Advance();
      if !Cur().TIdent? { return None; }
      var name := Cur().name;
      Advance();
      var ok := Expect(G.TEq);
      if ok.None? { return None; }
      var e := ParseExpr();
      if e.None? { return None; }
      var _ := Match(G.TSemi);
      r := Some(Let(name, e.value));
    }

    method ParseReturn() returns (r: Option<Stmt>)
      requires Valid() && Cur() == G.TReturn
      modifies this
      ensures Valid() && pos >= old(pos)
      ensures Agrees(G.ParseStmt(old(Rest())), r, Rest())
      decreases |toks| - pos, 39
    {
      hide G.ParseAt, G.ParseHeader, G.ParseIf;
      Advance();
      var value := None;
      if Cur() != G.TSemi && Cur() != G.TRBrace && Cur() != G.TEnd {
        value := ParseExpr();
        if value.None? { return None; }
      }
      var _ := Match(G.TSemi);
      r := Some(Return(value));
    }

    method ParseIf() returns (r: Option<Stmt>)
      requires Valid() && Cur() == G.TIf
      modifies this
      ensures Valid() && pos >= old(pos)
      ensures Agrees(G.ParseIf(old(Rest())), r, Rest())
      decreases |toks| - pos, 39
    {
      hide G.ParseAt, G.ParseHeader, G.ParseBraced;
      Advance();
      var h := ParseHeader();
      if h.None? { return None; }
      var elseBody := [];
      var hasElse := Match(G.TElse);
      if hasElse {
        var chained := Match(G.TIf);
        if chained {
          var h2 := ParseHeader();
          if h2.None? { return None; }
          var innerElse := [];
          var hasElse2 := Match(G.TElse);
          if hasElse2 {
            var b := ParseBraced();
            if b.None? { return None; }
            innerElse := b.value;
          }
          elseBody := [If(h2.value.cond, h2.value.body, innerElse)];
        } else {
          var b := ParseBraced();
          if b.None? { return None; }
          elseBody := b.value;
        }
      }
      r := Some(If(h.value.cond, h.value.body, elseBody));
    }

    method ParseHeader() returns (r: Option<G.Header>)
      requires Valid()
      modifies this
      ensures Valid() && pos >= old(pos)
      ensures Agrees(G.ParseHeader(old(Rest())), r, Rest())
      decreases |toks| - pos, 39
    {
      hide G.ParseAt, G.ParseBraced;
      var ok := Expect(G.TLParen);
      if ok.None? { return None; }
      var c := ParseExpr();
      if c.None? { return None; }
      ok := Expect(G.TRParen);
      if ok.None? { return None; }
      var body := ParseBraced();
      if body.None? { return None; }
      r := Some(G.Header(c.value, body.value));
    }

    method ParseBraced() returns (r: Option<seq<Stmt>>)
      requires Valid()
      modifies this
      ensures Valid() && pos >= old(pos)
      ensures Agrees(G.ParseBraced(old(Rest())), r, Rest())
      decreases |toks| - pos, 38
    {
      hide G.ParseBlock;
      var ok := Expect(G.TLBrace);
      if ok.None? { return None; }
      r := ParseBlock();
    }

    method ParseBlock() returns (r: Option<seq<Stmt>>)
      requires Valid()
      modifies this
      ensures Valid() && pos >= old(pos)
      ensures Agrees(G.ParseBlock(old(Rest())), r, Rest())
      decreases |toks| - pos, 41
    {
      hide G.ParseStmt;
      var body := [];
      ExtendNothing(G.ParseBlock(Rest()));
      while Cur() != G.TRBrace && Cur() != G.TEnd
        invariant Valid() && pos >= old(pos)
        invariant G.ParseBlock(old(Rest())) == Extend(body, G.ParseBlock(Rest()))
        decreases |toks| - pos
      {
        ghost var sofar := body;
        var s := ParseStatement();
        if s.None? { return None; }
        body := body + [s.value];
        ExtendOne(sofar, s.value, G.ParseBlock(Rest()));
      }
      var ok := Expect(G.TRBrace);
      if ok.None? { return None; }
      assert body + [] == body;
      r := Some(body);
    }

    method ParseParams() returns (r: Option<seq<string>>)
      requires Valid()
      modifies this
      ensures Valid() && pos >= old(pos)
      ensures Agrees(G.ParseParams(old(Rest())), r, Rest())
    {
      var params := [];
      ExtendNothing(G.ParseParams(Rest()));
      while true
        invariant Valid() && pos >= old(pos)
        invariant G.ParseParams(old(Rest())) == Extend(params, G.ParseParams(Rest()))
        decreases |toks| - pos
      {
        ghost var sofar := params;
        if !Cur().TIdent? { return None; }
        var p := Cur().name;
        params := params + [p];
        Advance();
        var more := Match(G.TComma);
        if !more { break; }
        ExtendOne(sofar, p, G.ParseParams(Rest()));
      }
      r := Some(params);
    }

    method ParseParamList() returns (r: Option<seq<string>>)
      requires Valid()
      modifies this
      ensures Valid() && pos >= old(pos)
      ensures Agrees(G.ParseParamList(old(Rest())), r, Rest())
    {
      hide G.ParseParams;
      var ok := Expect(G.TLParen);
      if ok.None? { return None; }
      r := Some([]);
      if Cur() != G.TRParen {
        r := ParseParams();
        if r.None? { return None; }
      }
      ok := Expect(G.TRParen);
      if ok.None? { return None; }
    }

    method ParseFnLike() returns (r: Option<FnDecl>)
      requires Valid()
      modifies this
      ensures Valid() && pos >= old(pos)
      ensures Agrees(G.ParseFnLike(old(Rest())), r, Rest())
    {
      hide G.ParseBraced, G.ParseParamList;
      if !Cur().TIdent? { return None; }
      var name := Cur().name;
      Advance();
      var params := ParseParamList();
      if params.None? { return None; }
      var body := ParseBraced();
      if body.None? { return None; }
      r := Some(FnDecl(name, params.value, body.value));
    }

    method ParseProgram() returns (r: Option<Program>)
      requires Valid()
      modifies this
      ensures r == G.ParseProgram(old(Rest()), G.EMPTY)
    {
      hide G.ParseStmt, G.ParseFnLike;
      var p := G.EMPTY;
      while Cur() != G.TEnd
        invariant Valid()
        invariant G.ParseProgram(old(Rest()), G.EMPTY) == G.ParseProgram(Rest(), p)
        decreases |toks| - pos
      {
        if Cur() == G.TFn || Cur() == G.TOn {
          var isFn := Cur() == G.TFn;
          Advance();
          var f := ParseFnLike();
          if f.None? { return None; }
          p := if isFn then p.(functions := p.functions + [f.value]) else p.(events := p.events + [f.value]);
        } else {
          var s := ParseStatement();
          if s.None? { return None; }
          p := p.(topLevel := p.topLevel + [s.value]);
        }
      }
      r := Some(p);
    }
  }
}
