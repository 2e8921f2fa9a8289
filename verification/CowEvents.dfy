/** The guarantees of one event call, for every program, host and world. */
module CowEvents {
  import opened Wrappers
  import opened CowAst
  import opened CowInterp
  import opened CowBudget
  import opened CowLimits
  import opened CowScope
  import opened CowFrames

  /** Halting and accounting. The evaluator is a total function; of the charges it makes, at most
      `maxSteps` succeed, every loop iteration and every user call has one of its own, and a
      LimitExceeded thrown anywhere is the outcome of the whole call. Only at the all-ones limit
      does the counter wrap first, and then the step budget never trips. */
  lemma EventAccounts<W>(c: Config<W>, event: FnDecl, args: seq<Value>, globals: Frame, world: W)
    requires c.limits.Valid()
    ensures var r := RunEvent(c, event, args, globals, world);
            && (if c.limits.Bounded() then
                  && (r.out == Limit(Steps) <==> c.limits.maxSteps < r.st.steps)
                  && r.st.steps <= c.limits.maxSteps + 1
                  && r.st.meter.calls <= r.st.steps + 1
                  && r.st.meter.turns <= r.st.steps
                else r.out != Limit(Steps))
            && r.st.meter.trips == (if r.out.Limit? then 1 else 0)
            && r.st.meter.peakDepth <= Max(0, c.limits.maxCallDepth)
            && !r.out.Returned?
  {
    var st := Fresh(globals, world);
    if 1 <= c.limits.maxCallDepth {
      BodySpends(c, event.body, EnterCall(st, event, args), 0);
    }
  }

  /** A run under other limits is the same run exactly when it stays within them. */
  lemma LimitsMatterOnlyWhenReached<W>(c: Config<W>, lim: Limits, event: FnDecl, args: seq<Value>,
      globals: Frame, world: W)
    requires c.limits.Bounded() && lim.Valid()
    requires var out := RunEvent(c, event, args, globals, world).out; out != Limit(Steps) && out != Limit(Depth)
    ensures var r := RunEvent(c, event, args, globals, world);
            RunEvent(c.(limits := lim), event, args, globals, world) == r
            <==> (r.st.steps <= lim.maxSteps && r.st.meter.peakDepth <= lim.maxCallDepth)
  {
    var r := RunEvent(c, event, args, globals, world);
    var st := Fresh(globals, world);
    var st1 := EnterCall(st, event, args);
    BodySpends(c, event.body, st1, 0);
    if r.st.steps <= lim.maxSteps && r.st.meter.peakDepth <= lim.maxCallDepth {
      BodySame(c, lim, event.body, st1, 0);
    }
    if RunEvent(c.(limits := lim), event, args, globals, world) == r {
      BodySpends(c.(limits := lim), event.body, st1, 0);
    }
  }

  /** Raising the limits never changes a run that did not trip them. */
  lemma RaisingLimitsIsInvisible<W>(c: Config<W>, lim: Limits, event: FnDecl, args: seq<Value>, globals: Frame,
      world: W)
    requires c.limits.Bounded() && lim.Valid()
    requires c.limits.maxSteps <= lim.maxSteps && c.limits.maxCallDepth <= lim.maxCallDepth
    requires var out := RunEvent(c, event, args, globals, world).out; out != Limit(Steps) && out != Limit(Depth)
    ensures RunEvent(c.(limits := lim), event, args, globals, world) == RunEvent(c, event, args, globals, world)
  {
    EventAccounts(c, event, args, globals, world);
    LimitsMatterOnlyWhenReached(c, lim, event, args, globals, world);
  }

  /** Native recursion: at most `maxCallDepth` bodies, each as tall as the tallest, are open at once. */
  lemma NativeRecursionIsBounded<W>(c: Config<W>, event: FnDecl, args: seq<Value>, globals: Frame, world: W)
    requires event in c.prog.events
    ensures var tall := Max(TallestBody(c.prog.functions), TallestBody(c.prog.events));
            RunEvent(c, event, args, globals, world).st.meter.peakFrames <= Max(0, c.limits.maxCallDepth) * tall
  {
    var tall := Max(TallestBody(c.prog.functions), TallestBody(c.prog.events));
    var st := Fresh(globals, world);
    if 1 <= c.limits.maxCallDepth {
      TallestBounds(c.prog.events, event);
      RoomStep(c.limits, 0, tall);
      BodyFrames(c, tall, event.body, EnterCall(st, event, args), 0);
    }
  }

  /** No event call adds or removes a global variable. */
  lemma GlobalsKeepTheirNames<W>(c: Config<W>, event: FnDecl, args: seq<Value>, globals: Frame, world: W)
    ensures RunEvent(c, event, args, globals, world).st.env[0].Keys == globals.Keys
  {
    var st := Fresh(globals, world);
    if 1 <= c.limits.maxCallDepth {
      var st1 := EnterCall(st, event, args);
      BodyScoped(c, event.body, st1, 0);
      assert st1.env[1].Keys == globals.Keys;
    }
  }

  /** Once its arguments are evaluated, a call changes no binding in any local frame of its caller. */
  lemma CallsKeepCallerLocals<W>(c: Config<W>, e: Expr, st: State<W>, fr: nat)
    requires st.env != [] && e.Call?
    ensures var a := EvalArgs(c, e.args, st, fr).st;
            var r := EvalCall(c, e, st, fr).st;
            r.env[..|st.env| - 1] == a.env[..|st.env| - 1] && r.env[|st.env| - 1].Keys == a.env[|st.env| - 1].Keys
  {
    var a := EvalArgs(c, e.args, st, fr);
    if a.out.Normal? && e.callee !in c.host.builtins {
      var fn := FindFn(c.prog.functions, e.callee);
      if fn.Some? && a.st.depth + 1 <= c.limits.maxCallDepth {
        var st1 := EnterCall(a.st, fn.value, a.vals);
        BodyScoped(c, fn.value.body, st1, fr);
        LeaveScoped(a.st.env, ExecBody(c, fn.value.body, st1, fr), st1.env);
        assert st1.env[1].Keys == ExecBody(c, fn.value.body, st1, fr).st.env[1].Keys;
      }
    }
  }

  /** A body that does nothing but spend two steps a statement. */
  function Pauses(n: nat): seq<Stmt> {
    if n == 0 then [] else [ExprStmt(NullLit)] + Pauses(n - 1)
  }

  lemma {:induction false} PausesTrip<W>(c: Config<W>, n: nat, st: State<W>, fr: nat)
    requires Ready(c, st) && c.limits.maxSteps < st.steps + 2 * n
    ensures ExecBody(c, Pauses(n), st, fr).out == Limit(Steps)
    decreases n
  {
    StmtSpends(c, ExprStmt(NullLit), st, fr);
    var h := ExecStmt(c, ExprStmt(NullLit), st, fr);
    assert Pauses(n)[0] == ExprStmt(NullLit) && Pauses(n)[1..] == Pauses(n - 1);
    if h.out.Normal? {
      assert h.st.steps == st.steps + 2;
      PausesTrip(c, n - 1, h.st, fr);
    }
  }

  /** The step budget can stop an event if and only if it is below the all-ones value, where the
      64-bit counter wraps before the test can succeed, and the event may be entered at all. */
  lemma StepBudgetStopsSome<W>(c: Config<W>, globals: Frame, world: W)
    requires c.limits.Valid()
    ensures (exists event, args :: RunEvent(c, event, args, globals, world).out == Limit(Steps))
            <==> 1 <= c.limits.maxCallDepth && c.limits.maxSteps < STEP_MODULUS - 1
  {
    if 1 <= c.limits.maxCallDepth && c.limits.maxSteps < STEP_MODULUS - 1 {
      var event := FnDecl("pause", [], Pauses(c.limits.maxSteps + 1));
      PausesTrip(c, c.limits.maxSteps + 1, EnterCall(Fresh(globals, world), event, []), 0);
      assert RunEvent(c, event, [], globals, world).out == Limit(Steps);
    }
    forall event, args | RunEvent(c, event, args, globals, world).out == Limit(Steps)
      ensures 1 <= c.limits.maxCallDepth && c.limits.maxSteps < STEP_MODULUS - 1
    {
      EventAccounts(c, event, args, globals, world);
    }
  }
}
