/** The round trip for statements and whole programs. */
module CowStmtRoundTrip {
  import opened Wrappers
  import opened CowAst
  import opened CowGrammar
  import opened CowRoundTrip

  // ----- the trees the parser builds: everything but a bare block -----

  predicate Shaped(s: Stmt) {
    match s
    case Block(_) => false
    case If(_, body, els) => AllShaped(body) && AllShaped(els)
    case While(_, body) => AllShaped(body)
    case _ => true
  }

  predicate AllShaped(ss: seq<Stmt>) {
    ss == [] || (Shaped(ss[0]) && AllShaped(ss[1..]))
  }

  predicate FnsShaped(fs: seq<FnDecl>) {
    forall i :: 0 <= i < |fs| ==> AllShaped(fs[i].body)
  }

  predicate ProgramShaped(p: Program) {
    FnsShaped(p.functions) && FnsShaped(p.events) && AllShaped(p.topLevel)
  }

  // ----- one step of the parser at a time -----

  predicate StartsStmt(t: Token) {
    Starts(t) || t == TLet || t == TIf || t == TWhile || t == TReturn
  }

  lemma StmtStart(s: Stmt)
    requires Shaped(s)
    ensures RenderStmt(s) != [] && StartsStmt(RenderStmt(s)[0])
  {
    hide RenderAt;
    if s.ExprStmt? { FirstToken(s.expr, 0); }
  }

  lemma StmtExpr(toks: seq<Token>, e: Expr, rest: seq<Token>)
    requires Starts(Head(toks)) && ParseAt(0, toks) == Ok(e, [TSemi] + rest)
    ensures ParseStmt(toks) == Ok(ExprStmt(e), rest)
  {
    hide ParseAt, ParseIf, ParseHeader;
    assert ([TSemi] + rest)[1..] == rest;
  }

  lemma StmtLet(x: string, right: seq<Token>, e: Expr, rest: seq<Token>)
    requires ParseAt(0, right) == Ok(e, [TSemi] + rest)
    ensures ParseStmt([TLet, TIdent(x), TEq] + right) == Ok(Let(x, e), rest)
  {
    hide ParseAt;
    var toks := [TLet, TIdent(x), TEq] + right;
    assert toks[1..] == [TIdent(x), TEq] + right && toks[2..] == [TEq] + right && ([TEq] + right)[1..] == right;
    assert ([TSemi] + rest)[1..] == rest;
  }

  lemma StmtReturn(right: seq<Token>, e: Expr, rest: seq<Token>)
    requires Starts(Head(right)) && ParseAt(0, right) == Ok(e, [TSemi] + rest)
    ensures ParseStmt([TReturn] + right) == Ok(Return(Some(e)), rest)
  {
    hide ParseAt;
    assert ([TReturn] + right)[1..] == right;
    assert ([TSemi] + rest)[1..] == rest;
  }

  lemma StmtReturnNothing(rest: seq<Token>)
    ensures ParseStmt([TReturn, TSemi] + rest) == Ok(Return(None), rest)
  {
    hide ParseAt;
    var toks := [TReturn, TSemi] + rest;
    assert toks[1..] == [TSemi] + rest && toks[1..][1..] == rest;
  }

  lemma StmtWhile(right: seq<Token>, h: Header, rest: seq<Token>)
    requires ParseHeader(right) == Ok(h, rest)
    ensures ParseStmt([TWhile] + right) == Ok(While(h.cond, h.body), rest)
  {
    hide ParseAt, ParseHeader;
    assert ([TWhile] + right)[1..] == right;
  }

  lemma StmtIf(right: seq<Token>, h: Header, rest: seq<Token>)
    requires ParseHeader(right) == Ok(h, rest) && Head(rest) != TElse
    ensures ParseStmt([TIf] + right) == Ok(If(h.cond, h.body, []), rest)
  {
    hide ParseAt, ParseHeader;
    assert ([TIf] + right)[1..] == right;
  }

  lemma StmtIfElse(right: seq<Token>, h: Header, els: seq<Token>, body: seq<Stmt>, rest: seq<Token>)
    requires ParseHeader(right) == Ok(h, [TElse] + els)
    requires Head(els) == TLBrace && ParseBraced(els) == Ok(body, rest)
    ensures ParseStmt([TIf] + right) == Ok(If(h.cond, h.body, body), rest)
  {
    hide ParseAt, ParseHeader, ParseBraced;
    assert ([TIf] + right)[1..] == right && ([TElse] + els)[1..] == els;
  }

  lemma BracedStep(inner: seq<Token>, body: seq<Stmt>, rest: seq<Token>)
    requires ParseBlock(inner) == Ok(body, rest)
    ensures ParseBraced([TLBrace] + inner) == Ok(body, rest)
  {
    hide ParseBlock;
    assert ([TLBrace] + inner)[1..] == inner;
  }

  lemma HeaderStep(inner: seq<Token>, cond: Expr, braced: seq<Token>, body: seq<Stmt>, rest: seq<Token>)
    requires ParseAt(0, inner) == Ok(cond, [TRParen] + braced) && ParseBraced(braced) == Ok(body, rest)
    ensures ParseHeader([TLParen] + inner) == Ok(Header(cond, body), rest)
  {
    hide ParseAt, ParseBraced;
    assert ([TLParen] + inner)[1..] == inner && ([TRParen] + braced)[1..] == braced;
  }

  lemma BlockStep(toks: seq<Token>, s: Stmt, more: seq<Token>, ss: seq<Stmt>, rest: seq<Token>)
    requires StartsStmt(Head(toks)) && ParseStmt(toks) == Ok(s, more) && ParseBlock(more) == Ok(ss, rest)
    ensures ParseBlock(toks) == Ok([s] + ss, rest)
  {
    hide ParseStmt;
  }

  lemma BlockEnd(rest: seq<Token>)
    ensures ParseBlock([TRBrace] + rest) == Ok([], rest)
  {
    hide ParseStmt;
    assert ([TRBrace] + rest)[1..] == rest;
  }

  // ----- the induction -----

  /** An `if` without `else` must not be followed by an `else`. */
  predicate EndsCleanly(s: Stmt, t: Token) {
    s.If? && s.elseBody == [] ==> t != TElse
  }

  lemma {:induction false} StmtRoundTrip(s: Stmt, rest: seq<Token>)
    requires Shaped(s) && EndsCleanly(s, Head(rest))
    ensures ParseStmt(RenderStmt(s) + rest) == Ok(s, rest)
    decreases s, 3
  {
    hide ParseStmt, ParseHeader, RenderHeader;
    match s
    case If(_, _, _) => IfRoundTrip(s, rest);
    case While(c, body) =>
      HeaderRoundTrip(c, body, rest);
      StmtWhile(RenderHeader(c, body) + rest, Header(c, body), rest);
      assert RenderStmt(s) + rest == [TWhile] + (RenderHeader(c, body) + rest);
    case Return(None) => StmtReturnNothing(rest);
    case _ => SimpleRoundTrip(s, rest);
  }

  lemma SimpleRoundTrip(s: Stmt, rest: seq<Token>)
    requires s.ExprStmt? || s.Let? || (s.Return? && s.value.Some?)
    ensures ParseStmt(RenderStmt(s) + rest) == Ok(s, rest)
  {
    hide ParseAt, ParseStmt, RenderAt;
    var semi := [TSemi] + rest;
    var e := if s.Return? then s.value.value else s.expr;
    var toks := RenderAt(e, 0) + semi;
    RoundTrip(e, 0, semi);
    FirstToken(e, 0);
    match s
    case ExprStmt(_) =>
      StmtExpr(toks, e, rest);
      assert RenderStmt(s) + rest == toks;
    case Let(x, _) =>
      StmtLet(x, toks, e, rest);
      Regroup([TLet, TIdent(x), TEq], RenderAt(e, 0), [TSemi], rest);
    case Return(_) =>
      StmtReturn(toks, e, rest);
      Regroup([TReturn], RenderAt(e, 0), [TSemi], rest);
  }

  lemma {:induction false} IfRoundTrip(s: Stmt, rest: seq<Token>)
    requires s.If? && AllShaped(s.body) && AllShaped(s.elseBody) && EndsCleanly(s, Head(rest))
    ensures ParseStmt(RenderStmt(s) + rest) == Ok(s, rest)
    decreases s, 0
  {
    hide ParseStmt, ParseHeader, ParseBraced, RenderHeader, RenderBraced;
    var h := RenderHeader(s.cond, s.body);
    if s.elseBody == [] {
      HeaderRoundTrip(s.cond, s.body, rest);
      StmtIf(h + rest, Header(s.cond, s.body), rest);
      assert RenderStmt(s) + rest == [TIf] + (h + rest);
    } else {
      var els := RenderBraced(s.elseBody) + rest;
      HeaderRoundTrip(s.cond, s.body, [TElse] + els);
      BracedRoundTrip(s.elseBody, rest);
      BracedStart(s.elseBody);
      StmtIfElse(h + ([TElse] + els), Header(s.cond, s.body), els, s.elseBody, rest);
      assert RenderStmt(s) + rest == [TIf] + (h + ([TElse] + els));
    }
  }

  lemma BracedStart(body: seq<Stmt>)
    ensures RenderBraced(body) != [] && RenderBraced(body)[0] == TLBrace
  {
  }

  lemma {:induction false} HeaderRoundTrip(c: Expr, body: seq<Stmt>, rest: seq<Token>)
    requires AllShaped(body)
    ensures ParseHeader(RenderHeader(c, body) + rest) == Ok(Header(c, body), rest)
    decreases body, 2
  {
    hide ParseAt, ParseHeader, ParseBraced, RenderAt, RenderBraced;
    var braced := RenderBraced(body) + rest;
    var inner := RenderAt(c, 0) + ([TRParen] + braced);
    RoundTrip(c, 0, [TRParen] + braced);
    BracedRoundTrip(body, rest);
    HeaderStep(inner, c, braced, body, rest);
    Regroup([TLParen], RenderAt(c, 0), [TRParen] + RenderBraced(body), rest);
    assert ([TRParen] + RenderBraced(body)) + rest == [TRParen] + braced;
  }

  lemma {:induction false} BracedRoundTrip(body: seq<Stmt>, rest: seq<Token>)
    requires AllShaped(body)
    ensures ParseBraced(RenderBraced(body) + rest) == Ok(body, rest)
    decreases body, 1
  {
    hide ParseBraced, ParseBlock, RenderStmts;
    var inner := RenderStmts(body) + ([TRBrace] + rest);
    BlockRoundTrip(body, rest);
    BracedStep(inner, body, rest);
    assert RenderBraced(body) + rest == [TLBrace] + inner;
  }

  lemma {:induction false} BlockRoundTrip(ss: seq<Stmt>, rest: seq<Token>)
    requires AllShaped(ss)
    ensures ParseBlock(RenderStmts(ss) + ([TRBrace] + rest)) == Ok(ss, rest)
    decreases ss, 0
  {
    hide ParseStmt, ParseBlock, RenderStmt;
    var after := [TRBrace] + rest;
    if ss == [] {
      BlockEnd(rest);
      assert RenderStmts(ss) + after == after;
    } else {
      var more := RenderStmts(ss[1..]) + after;
      if |ss| > 1 { StmtStart(ss[1]); }
      StmtStart(ss[0]);
      StmtRoundTrip(ss[0], more);
      BlockRoundTrip(ss[1..], rest);
      assert RenderStmts(ss) + after == RenderStmt(ss[0]) + more;
      BlockStep(RenderStmts(ss) + after, ss[0], more, ss[1..], rest);
      assert [ss[0]] + ss[1..] == ss;
    }
  }

  // ----- declarations and programs -----

  lemma {:induction false} ParamsRoundTrip(ps: seq<string>, rest: seq<Token>)
    requires ps != []
    ensures ParseParams(RenderParams(ps) + ([TRParen] + rest)) == Ok(ps, [TRParen] + rest)
    ensures Head(RenderParams(ps) + ([TRParen] + rest)).TIdent?
  {
    hide ParseParams;
    var after := [TRParen] + rest;
    var toks := RenderParams(ps) + after;
    if |ps| == 1 {
      assert toks == [TIdent(ps[0])] + after;
      ParamsLast(ps[0], after);
      assert [ps[0]] == ps;
    } else {
      var more := RenderParams(ps[1..]) + after;
      ParamsRoundTrip(ps[1..], rest);
      assert toks == [TIdent(ps[0]), TComma] + more;
      ParamsStep(ps[0], more, ps[1..], after);
      assert [ps[0]] + ps[1..] == ps;
    }
  }

  lemma ParamsLast(p: string, rest: seq<Token>)
    requires Head(rest) != TComma
    ensures ParseParams([TIdent(p)] + rest) == Ok([p], rest)
  {
    assert ([TIdent(p)] + rest)[1..] == rest;
  }

  lemma ParamsStep(p: string, more: seq<Token>, ps: seq<string>, rest: seq<Token>)
    requires ParseParams(more) == Ok(ps, rest)
    ensures ParseParams([TIdent(p), TComma] + more) == Ok([p] + ps, rest)
  {
    var toks := [TIdent(p), TComma] + more;
    assert toks[1..] == [TComma] + more && toks[2..] == more;
  }

  lemma FnLikeRoundTrip(f: FnDecl, rest: seq<Token>)
    requires AllShaped(f.body)
    ensures ParseFnLike(RenderFnLike(f) + rest) == Ok(f, rest)
  {
    hide ParseBraced, ParseParams, RenderBraced, RenderParams;
    var braced := RenderBraced(f.body) + rest;
    var after := [TRParen] + braced;
    var t1 := RenderParams(f.params) + after;
    var toks := RenderFnLike(f) + rest;
    assert toks == [TIdent(f.name)] + ([TLParen] + t1);
    assert toks[1..] == [TLParen] + t1 && ([TLParen] + t1)[1..] == t1 && after[1..] == braced;
    BracedRoundTrip(f.body, rest);
    if f.params == [] {
      NoParams();
      assert t1 == after;
    } else {
      ParamsRoundTrip(f.params, braced);
    }
  }

  lemma NoParams()
    ensures RenderParams([]) == []
  {
  }

  /** The program with more declarations introduced by the keyword. */
  function AddFns(keyword: Token, p: Program, fs: seq<FnDecl>): Program {
    if keyword == TFn then p.(functions := p.functions + fs) else p.(events := p.events + fs)
  }

  lemma FnStep(keyword: Token, body: seq<Token>, f: FnDecl, more: seq<Token>, p: Program)
    requires (keyword == TFn || keyword == TOn) && ParseFnLike(body) == Ok(f, more)
    ensures ParseProgram([keyword] + body, p) == ParseProgram(more, AddFns(keyword, p, [f]))
  {
    hide ParseFnLike;
    assert ([keyword] + body)[1..] == body;
  }

  lemma {:induction false} FnsRoundTrip(keyword: Token, fs: seq<FnDecl>, rest: seq<Token>, p: Program)
    requires (keyword == TFn || keyword == TOn) && FnsShaped(fs)
    ensures ParseProgram(RenderFns(keyword, fs) + rest, p) == ParseProgram(rest, AddFns(keyword, p, fs))
  {
    hide ParseProgram, RenderFnLike;
    if fs == [] {
      assert RenderFns(keyword, fs) + rest == rest;
      assert p.functions + fs == p.functions && p.events + fs == p.events;
    } else {
      var more := RenderFns(keyword, fs[1..]) + rest;
      FnLikeRoundTrip(fs[0], more);
      FnStep(keyword, RenderFnLike(fs[0]) + more, fs[0], more, p);
      Regroup([keyword], RenderFnLike(fs[0]), RenderFns(keyword, fs[1..]), rest);
      FnsRoundTrip(keyword, fs[1..], rest, AddFns(keyword, p, [fs[0]]));
      AddFnsTwice(keyword, p, fs);
    }
  }

  lemma AddFnsTwice(keyword: Token, p: Program, fs: seq<FnDecl>)
    requires fs != []
    ensures AddFns(keyword, AddFns(keyword, p, [fs[0]]), fs[1..]) == AddFns(keyword, p, fs)
  {
    assert p.functions + [fs[0]] + fs[1..] == p.functions + fs;
    assert p.events + [fs[0]] + fs[1..] == p.events + fs;
  }

  lemma TopStep(toks: seq<Token>, s: Stmt, more: seq<Token>, p: Program)
    requires StartsStmt(Head(toks)) && ParseStmt(toks) == Ok(s, more)
    ensures ParseProgram(toks, p) == ParseProgram(more, p.(topLevel := p.topLevel + [s]))
  {
    hide ParseStmt;
  }

  lemma {:induction false} TopLevelRoundTrip(ss: seq<Stmt>, p: Program)
    requires AllShaped(ss)
    ensures ParseProgram(RenderStmts(ss), p) == Some(p.(topLevel := p.topLevel + ss))
  {
    hide ParseProgram, ParseStmt, RenderStmts, Shaped;
    if ss == [] {
      TopEnd(p);
      assert p.topLevel + ss == p.topLevel;
    } else {
      TopHead(ss);
      TopStep(RenderStmts(ss), ss[0], RenderStmts(ss[1..]), p);
      TopLevelRoundTrip(ss[1..], p.(topLevel := p.topLevel + [ss[0]]));
      assert p.topLevel + [ss[0]] + ss[1..] == p.topLevel + ss;
    }
  }

  lemma TopEnd(p: Program)
    ensures ParseProgram(RenderStmts([]), p) == Some(p)
  {
  }

  lemma TopHead(ss: seq<Stmt>)
    requires AllShaped(ss) && ss != []
    ensures AllShaped(ss[1..]) && StartsStmt(Head(RenderStmts(ss)))
    ensures ParseStmt(RenderStmts(ss)) == Ok(ss[0], RenderStmts(ss[1..]))
  {
    hide ParseStmt, RenderStmt;
    if |ss| > 1 { StmtStart(ss[1]); }
    StmtStart(ss[0]);
    StmtRoundTrip(ss[0], RenderStmts(ss[1..]));
  }

  /** Parsing the printed form of a program gives the program back. */
  lemma ProgramRoundTrip(p: Program)
    requires ProgramShaped(p)
    ensures ParseProgram(RenderProgram(p), EMPTY) == Some(p)
  {
    hide ParseProgram, RenderFns, RenderStmts;
    var p1 := Program([] + p.functions, [], []);
    var p2 := Program(p1.functions, [] + p.events, []);
    FnsRoundTrip(TFn, p.functions, RenderFns(TOn, p.events) + RenderStmts(p.topLevel), EMPTY);
    FnsRoundTrip(TOn, p.events, RenderStmts(p.topLevel), p1);
    TopLevelRoundTrip(p.topLevel, p2);
    assert [] + p.functions == p.functions && [] + p.events == p.events && [] + p.topLevel == p.topLevel;
  }

  // ----- the parser builds nothing else -----

  lemma {:induction false} StmtParsesShaped(toks: seq<Token>)
    ensures ParseStmt(toks).Ok? ==> Shaped(ParseStmt(toks).value)
    decreases |toks|, 40
  {
    hide ParseAt, ParseHeader, ParseIf;
    if Head(toks) == TIf {
      IfParsesShaped(toks);
    } else if toks != [] {
      HeaderParsesShaped(toks[1..]);
    }
  }

  lemma {:induction false} IfParsesShaped(toks: seq<Token>)
    requires Head(toks) == TIf
    ensures ParseIf(toks).Ok? ==> Shaped(ParseIf(toks).value)
    decreases |toks|, 39
  {
    hide ParseAt, ParseHeader, ParseBraced;
    HeaderParsesShaped(toks[1..]);
    var h := ParseHeader(toks[1..]);
    if h.Ok? && Head(h.rest) == TElse {
      BracedParsesShaped(h.rest[1..]);
      if Head(h.rest[1..]) == TIf {
        HeaderParsesShaped(h.rest[2..]);
        var h2 := ParseHeader(h.rest[2..]);
        if h2.Ok? {
          OneShaped(If(h2.value.cond, h2.value.body, []));
          if Head(h2.rest) == TElse {
            BracedParsesShaped(h2.rest[1..]);
            var els := ParseBraced(h2.rest[1..]);
            if els.Ok? { OneShaped(If(h2.value.cond, h2.value.body, els.value)); }
          }
        }
      }
    }
  }

  lemma OneShaped(s: Stmt)
    requires Shaped(s)
    ensures AllShaped([s])
  {
  }

  lemma {:induction false} HeaderParsesShaped(toks: seq<Token>)
    ensures ParseHeader(toks).Ok? ==> AllShaped(ParseHeader(toks).value.body)
    decreases |toks|, 39
  {
    hide ParseAt, ParseBraced;
    var t1 := Expect(toks, TLParen);
    if t1.Ok? {
      var c := ParseAt(0, t1.rest);
      if c.Ok? {
        var t3 := Expect(c.rest, TRParen);
        if t3.Ok? { BracedParsesShaped(t3.rest); }
      }
    }
  }

  lemma {:induction false} BracedParsesShaped(toks: seq<Token>)
    ensures ParseBraced(toks).Ok? ==> AllShaped(ParseBraced(toks).value)
    decreases |toks|, 38
  {
    hide ParseBlock;
    if toks != [] { BlockParsesShaped(toks[1..]); }
  }

  lemma {:induction false} BlockParsesShaped(toks: seq<Token>)
    ensures ParseBlock(toks).Ok? ==> AllShaped(ParseBlock(toks).value)
    decreases |toks|, 41
  {
    hide ParseStmt;
    if toks != [] {
      StmtParsesShaped(toks);
      var s := ParseStmt(toks);
      if s.Ok? { BlockParsesShaped(s.rest); }
    }
  }

  lemma {:induction false} AppendShaped(ss: seq<Stmt>, s: Stmt)
    requires AllShaped(ss) && Shaped(s)
    ensures AllShaped(ss + [s])
  {
    if ss != [] {
      AppendShaped(ss[1..], s);
      assert (ss + [s])[1..] == ss[1..] + [s];
    }
  }

  lemma {:induction false} ProgramParsesShaped(toks: seq<Token>, p: Program)
    requires ProgramShaped(p)
    ensures var q := ParseProgram(toks, p); q.Some? ==> ProgramShaped(q.value)
    decreases |toks|
  {
    hide ParseStmt, ParseFnLike;
    if Head(toks) == TFn || Head(toks) == TOn {
      FnLikeParsesShaped(toks[1..]);
      var f := ParseFnLike(toks[1..]);
      if f.Ok? && Head(toks) == TFn {
        ProgramParsesShaped(f.rest, p.(functions := p.functions + [f.value]));
      } else if f.Ok? {
        ProgramParsesShaped(f.rest, p.(events := p.events + [f.value]));
      }
    } else if Head(toks) != TEnd {
      StmtParsesShaped(toks);
      var s := ParseStmt(toks);
      if s.Ok? {
        AppendShaped(p.topLevel, s.value);
        ProgramParsesShaped(s.rest, p.(topLevel := p.topLevel + [s.value]));
      }
    }
  }

  lemma FnLikeParsesShaped(toks: seq<Token>)
    ensures var f := ParseFnLike(toks); f.Ok? ==> AllShaped(f.value.body)
  {
    hide ParseBraced, ParseParams;
    if Head(toks).TIdent? {
      var t1 := Expect(toks[1..], TLParen);
      if t1.Ok? {
        var t2 := if Head(t1.rest) == TRParen then Ok([], t1.rest) else ParseParams(t1.rest);
        if t2.Ok? {
          var t3 := Expect(t2.rest, TRParen);
          if t3.Ok? { BracedParsesShaped(t3.rest); }
        }
      }
    }
  }

  /** The programs the parser can produce are exactly those without a bare block, and each
      of them is produced by its own rendering. */
  lemma ParserImage(p: Program)
    ensures (exists toks :: ParseProgram(toks, EMPTY) == Some(p)) <==> ProgramShaped(p)
  {
    if ProgramShaped(p) { ProgramRoundTrip(p); }
    forall toks | ParseProgram(toks, EMPTY) == Some(p) ensures ProgramShaped(p) {
      ProgramParsesShaped(toks, EMPTY);
    }
  }

  // ----- else if -----

  lemma ChainStep(right: seq<Token>, h: Header, chain: seq<Token>, h2: Header, after: seq<Token>)
    requires ParseHeader(right) == Ok(h, [TElse, TIf] + chain) && ParseHeader(chain) == Ok(h2, after)
    ensures Head(after) != TElse ==>
            ParseStmt([TIf] + right) == Ok(If(h.cond, h.body, [If(h2.cond, h2.body, [])]), after)
    ensures Head(after) == TElse && Head(after[1..]) != TLBrace ==> ParseStmt([TIf] + right) == Fail
  {
    hide ParseAt, ParseHeader, ParseBlock;
    assert ([TIf] + right)[1..] == right;
    var tail := [TElse, TIf] + chain;
    assert tail[1..] == [TIf] + chain && tail[2..] == chain;
    if Head(after) == TElse && Head(after[1..]) != TLBrace {
      assert ParseBraced(after[1..]) == Fail;
      assert ParseIf([TIf] + right) == Fail;
    }
  }

  /** `else if` is read as an `else` block holding that one `if`; a second `else if` on the same chain is an error. */
  lemma ElseIf(c1: Expr, b1: seq<Stmt>, c2: Expr, b2: seq<Stmt>, after: seq<Token>)
    requires AllShaped(b1) && AllShaped(b2)
    ensures var toks := [TIf] + (RenderHeader(c1, b1) + ([TElse, TIf] + (RenderHeader(c2, b2) + after)));
            && (Head(after) != TElse ==> ParseStmt(toks) == Ok(If(c1, b1, [If(c2, b2, [])]), after))
            && (Head(after) == TElse && Head(after[1..]) == TIf ==> ParseStmt(toks) == Fail)
  {
    hide ParseStmt, ParseHeader, RenderHeader;
    var chain := RenderHeader(c2, b2) + after;
    HeaderRoundTrip(c2, b2, after);
    HeaderRoundTrip(c1, b1, [TElse, TIf] + chain);
    ChainStep(RenderHeader(c1, b1) + ([TElse, TIf] + chain), Header(c1, b1), chain, Header(c2, b2), after);
  }
}
