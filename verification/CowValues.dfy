/** The evaluator's helpers compute what the rules of `CowMeaning` say of values and variables. */
module CowValues {
  import opened Wrappers
  import opened CowAst
  import opened CowInterp
  import opened CowMeaning

  // ----- values -----

  lemma TruthMeans(a: Arith, v: Value)
    ensures Truthy(a, v) <==> IsTrue(a, v)
  {
  }

  lemma NumberMeans(a: Arith, v: Value, n: Double)
    ensures CountsAs(a, v, n) <==> n == ToNumber(a, v)
  {
  }

  lemma TextMeans(a: Arith, v: Value, t: string)
    ensures ReadsAs(a, v, t) <==> t == ToText(a, v)
  {
  }

  lemma EqualMeans(a: Arith, l: Value, r: Value)
    ensures Equal(a, l, r) <==> AreEqual(a, l, r)
  {
    hide CountsAs, ReadsAs, ToNumber, ToText;
    NumberMeans(a, l, ToNumber(a, l));
    NumberMeans(a, r, ToNumber(a, r));
    TextMeans(a, l, ToText(a, l));
    TextMeans(a, r, ToText(a, r));
    forall m, n | CountsAs(a, l, m) && CountsAs(a, r, n) ensures m == ToNumber(a, l) && n == ToNumber(a, r) {
      NumberMeans(a, l, m);
      NumberMeans(a, r, n);
    }
    forall t | ReadsAs(a, l, t) && ReadsAs(a, r, t) ensures t == ToText(a, l) == ToText(a, r) {
      TextMeans(a, l, t);
      TextMeans(a, r, t);
    }
  }

  lemma OperatorMeans(a: Arith, op: BinOp, l: Value, r: Value, o: End)
    requires op != And && op != Or
    ensures Operates(a, op, l, r, o) <==> o == FromHost(BinaryOp(a, op, l, r))
  {
    hide CountsAs, ReadsAs, ToNumber, ToText, AreEqual, Equal;
    EqualMeans(a, l, r);
    NumberMeans(a, l, ToNumber(a, l));
    NumberMeans(a, r, ToNumber(a, r));
    TextMeans(a, l, ToText(a, l));
    TextMeans(a, r, ToText(a, r));
    forall m, n | CountsAs(a, l, m) && CountsAs(a, r, n) ensures m == ToNumber(a, l) && n == ToNumber(a, r) {
      NumberMeans(a, l, m);
      NumberMeans(a, r, n);
    }
    forall s, t | ReadsAs(a, l, s) && ReadsAs(a, r, t) ensures s == ToText(a, l) && t == ToText(a, r) {
      TextMeans(a, l, s);
      TextMeans(a, r, t);
    }
  }

  lemma PrefixMeans(a: Arith, op: UnOp, v: Value, o: End)
    ensures Prefixes(a, op, v, o) <==> o == Val(UnaryOp(a, op, v))
  {
    TruthMeans(a, v);
    NumberMeans(a, v, ToNumber(a, v));
    forall n | CountsAs(a, v, n) ensures n == ToNumber(a, v) { NumberMeans(a, v, n); }
    hide CountsAs, ToNumber, Truthy, IsTrue;
  }

  // ----- variables -----

  lemma {:induction false} LookupMeans(env: seq<Frame>, x: string)
    ensures Lookup(env, x).None? <==> Unbound(env, x)
    ensures forall i: nat :: Nearest(env, x, i) ==> Lookup(env, x) == Some(env[i][x])
    ensures Lookup(env, x).Some? ==> exists i: nat :: Nearest(env, x, i)
  {
    if env != [] && x !in env[0] {
      LookupMeans(env[1..], x);
      forall i: nat | Nearest(env, x, i) ensures Lookup(env, x) == Some(env[i][x]) {
        assert i > 0 && Nearest(env[1..], x, i - 1);
      }
      if Lookup(env, x).Some? {
        var i: nat :| Nearest(env[1..], x, i);
        assert Nearest(env, x, i + 1);
      } else {
        forall i | 0 <= i < |env| ensures x !in env[i] { assert i > 0 ==> env[i] == env[1..][i - 1]; }
      }
    } else if env != [] {
      assert Nearest(env, x, 0);
    }
  }

  lemma ReadMeans(env: seq<Frame>, x: string, o: End)
    ensures Reads(env, x, o) <==> o == FromHost(Lookup(env, x))
  {
    LookupMeans(env, x);
    hide Lookup, Nearest, Unbound;
  }

  lemma {:induction false} AssignMeans(env: seq<Frame>, x: string, v: Value)
    ensures AssignExisting(env, x, v).None? <==> Unbound(env, x)
    ensures forall i: nat :: Nearest(env, x, i) ==> AssignExisting(env, x, v) == Some(env[i := env[i][x := v]])
    ensures AssignExisting(env, x, v).Some? ==> exists i: nat :: Nearest(env, x, i)
  {
    if env != [] && x !in env[0] {
      AssignMeans(env[1..], x, v);
      forall i: nat | Nearest(env, x, i) ensures AssignExisting(env, x, v) == Some(env[i := env[i][x := v]]) {
        assert i > 0 && Nearest(env[1..], x, i - 1);
        assert [env[0]] + env[1..][i - 1 := env[i][x := v]] == env[i := env[i][x := v]];
      }
      if AssignExisting(env, x, v).Some? {
        var i: nat :| Nearest(env[1..], x, i);
        assert Nearest(env, x, i + 1);
      } else {
        forall i | 0 <= i < |env| ensures x !in env[i] { assert i > 0 ==> env[i] == env[1..][i - 1]; }
      }
    } else if env != [] {
      assert Nearest(env, x, 0);
      assert [env[0][x := v]] + env[1..] == env[0 := env[0][x := v]];
    }
  }

  lemma WriteMeans(env: seq<Frame>, x: string, v: Value, env': seq<Frame>)
    requires env != []
    ensures Writes(env, x, v, env') <==> env' == AssignOrDefine(env, x, v)
  {
    AssignMeans(env, x, v);
    hide AssignExisting, Nearest, Unbound;
    assert Define(env, x, v) == env[0 := env[0][x := v]];
  }

  lemma BindOneMore(before: seq<string>, x: string, args: seq<Value>, frame: Frame, v: Value)
    requires Binds(before, args, frame) && v == if |before| < |args| then args[|before|] else Null
    ensures Binds(before + [x], args, frame[x := v])
  {
    var params, n := before + [x], |before|;
    assert forall y :: y in frame <==> y in before;
    forall k | 0 <= k < n + 1 && (forall j :: k < j < n + 1 ==> params[j] != params[k])
      ensures params[k] in frame[x := v] && frame[x := v][params[k]] == if k < |args| then args[k] else Null
    {
      if k < n {
        assert params[n] != params[k];
        assert forall j :: k < j < n ==> before[j] == params[j];
        assert before[k] in frame && frame[before[k]] == if k < |args| then args[k] else Null;
      }
    }
  }

  lemma NothingBinds(args: seq<Value>)
    ensures Binds([], args, map[])
  {
  }

  lemma {:induction false} ParamsBind(params: seq<string>, args: seq<Value>, i: nat)
    requires i <= |params|
    ensures Binds(params[..i], args, ParamFrame(params, args, i))
    decreases i
  {
    hide Binds;
    if i == 0 {
      NothingBinds(args);
      assert params[..0] == [];
    } else {
      ParamsBind(params, args, i - 1);
      var before, v := params[..i - 1], if i - 1 < |args| then args[i - 1] else Null;
      var frame := ParamFrame(params, args, i - 1);
      assert ParamFrame(params, args, i) == frame[params[i - 1] := v];
      hide ParamFrame;
      BindOneMore(before, params[i - 1], args, frame, v);
      assert params[..i] == before + [params[i - 1]];
    }
  }

  lemma BindMeans(params: seq<string>, args: seq<Value>, frame: Frame)
    ensures Binds(params, args, frame) <==> frame == ParamFrame(params, args, |params|)
  {
    ParamsBind(params, args, |params|);
    assert params[..|params|] == params;
    var own := ParamFrame(params, args, |params|);
    if Binds(params, args, frame) {
      forall x | x in frame ensures x in own && frame[x] == own[x] {
        LastOf(params, x);
      }
      assert frame == own;
    }
  }

  lemma {:induction false} LastOf(params: seq<string>, x: string)
    requires x in params
    ensures exists i :: 0 <= i < |params| && params[i] == x && forall j :: i < j < |params| ==> params[j] != params[i]
    decreases |params|
  {
    var last := |params| - 1;
    if params[last] != x {
      LastOf(params[..last], x);
      var i :| 0 <= i < last && params[..last][i] == x
               && forall j :: i < j < last ==> params[..last][j] != params[..last][i];
      assert params[i] == x;
      forall j | i < j < |params| ensures params[j] != params[i] {
        assert j < last ==> params[..last][j] != params[..last][i];
      }
    }
  }

  lemma DeclaresLater(fns: seq<FnDecl>, name: string, fn: FnDecl)
    requires fns != [] && fns[0].name != name
    ensures Declares(fns, name, fn) <==> Declares(fns[1..], name, fn)
  {
    if Declares(fns, name, fn) {
      var i :| 0 <= i < |fns| && fns[i] == fn && fn.name == name && forall j :: 0 <= j < i ==> fns[j].name != name;
      assert fns[1..][i - 1] == fn;
    }
    if Declares(fns[1..], name, fn) {
      var i :| 0 <= i < |fns[1..]| && fns[1..][i] == fn && fn.name == name
               && forall j :: 0 <= j < i ==> fns[1..][j].name != name;
      assert fns[i + 1] == fn;
      forall j | 0 <= j < i + 1 ensures fns[j].name != name { assert j > 0 ==> fns[j] == fns[1..][j - 1]; }
    }
  }

  lemma UndeclaredLater(fns: seq<FnDecl>, name: string)
    requires fns != [] && fns[0].name != name
    ensures Undeclared(fns, name) <==> Undeclared(fns[1..], name)
  {
    if Undeclared(fns[1..], name) {
      forall i | 0 <= i < |fns| ensures fns[i].name != name { assert i > 0 ==> fns[i] == fns[1..][i - 1]; }
    }
  }

  lemma {:induction false} FindMeans(fns: seq<FnDecl>, name: string)
    ensures FindFn(fns, name).None? <==> Undeclared(fns, name)
    ensures forall fn :: Declares(fns, name, fn) <==> FindFn(fns, name) == Some(fn)
  {
    if fns != [] && fns[0].name != name {
      FindMeans(fns[1..], name);
      UndeclaredLater(fns, name);
      forall fn ensures Declares(fns, name, fn) <==> Declares(fns[1..], name, fn) { DeclaresLater(fns, name, fn); }
      hide Declares, Undeclared;
    } else if fns != [] {
      assert Declares(fns, name, fns[0]);
    }
  }
}
