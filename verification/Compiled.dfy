/** From acceptance to the machine: what semantic analysis promises of a function holds of its code. */
module Compiled {
  import opened Ast
  import opened Wrappers
  import opened Values
  import opened Graph
  import opened Source
  import opened Control
  import opened Sema
  import opened Walks
  import opened Supported
  import opened Soundness
  import opened Lower
  import opened LowerExprs
  import opened LowerAccepts
  import opened LowerTheorems

  // ---------------------------------------------------------------------------
  // Accepted switches have their wildcard last
  // ---------------------------------------------------------------------------

  lemma {:induction false} AcceptedSupported(t: Tables, ret: Type, depth: nat, env: Scoped, s: Stmt)
    requires CheckInner(t, ret, depth, env, s).Walk?
    ensures Control.Supported(s)
    decreases s, 1
  {
    hide CheckedType, IterType, CheckStmts, CheckArms;
    match s
    case If(_, thn, els) =>
      var env1 := CheckBlock(t, ret, depth, env, thn).env;
      AcceptedStmtsSupported(t, ret, depth, OpenScope(env), thn.stmts);
      if els.Some? {
        AcceptedStmtsSupported(t, ret, depth, OpenScope(env1), els.value.stmts);
      }
    case While(_, body) => AcceptedStmtsSupported(t, ret, depth + 1, OpenScope(env), body.stmts);
    case For(variable, iter, body) =>
      var inner := DeclareIn(OpenScope(env), variable, IterType(t, env.scopes, iter).value).env;
      AcceptedStmtsSupported(t, ret, depth + 1, inner, body.stmts);
    case Switch(scrutinee, arms) =>
      var ty := CheckedType(t, env.scopes, scrutinee).value;
      AcceptedArmsSupported(t, ret, depth, env, t.enums[ty.name], arms);
    case _ =>
  }

  lemma {:induction false} AcceptedStmtsSupported(t: Tables, ret: Type, depth: nat, env: Scoped, ss: seq<Stmt>)
    requires CheckStmts(t, ret, depth, env, ss).Walk?
    ensures StmtsSupported(ss)
    decreases ss, 0
  {
    hide CheckInner, Control.Supported;
    if ss != [] {
      AcceptedSupported(t, ret, depth, env, ss[0]);
      AcceptedStmtsSupported(t, ret, depth, CheckStmt(t, ret, depth, env, ss[0]).env, ss[1..]);
    }
  }

  lemma {:induction false} AcceptedArmsSupported(
    t: Tables, ret: Type, depth: nat, env: Scoped, variants: seq<EnumVariant>, arms: seq<Arm>)
    requires CheckArms(t, ret, depth, env, variants, arms).Walk?
    ensures ArmsSupported(arms)
    decreases arms, 0
  {
    if arms != [] {
      AcceptedArmSupported(t, ret, depth, env, variants, arms[0]);
      AcceptedArmsSupported(t, ret, depth, CheckArm(t, ret, depth, env, variants, arms[0]).env, variants, arms[1..]);
      hide CheckArm, ArmSupported;
    }
  }

  lemma {:induction false} AcceptedArmSupported(
    t: Tables, ret: Type, depth: nat, env: Scoped, variants: seq<EnumVariant>, arm: Arm)
    requires CheckArm(t, ret, depth, env, variants, arm).Walk?
    ensures ArmSupported(arm)
    decreases arm, 0
  {
    hide CheckStmts, StmtsSupported;
    var binding := Binding(variants, arm.pattern).value;
    var inner := if binding.None? then OpenScope(env) else DeclareIn(OpenScope(env), binding.value.name, binding.value.ty).env;
    AcceptedStmtsSupported(t, ret, depth, inner, arm.body.stmts);
  }

  // ---------------------------------------------------------------------------
  // Runs of the code
  // ---------------------------------------------------------------------------

  /** A function with its caller: arguments and statics of the declared types. */
  ghost predicate Called(cx: Context, t: Tables, fn: Function, values: map<string, Value>, args: seq<Value>) {
    |args| == |fn.proto.params|
    && Describes(cx, t) && RepliesTyped(cx) && SupportedFunction(cx, t, fn) && FrameTyped(t.enums, GlobalScope(t), values)
    && forall i | 0 <= i < |args| :: WellTyped(t.enums, args[i], fn.proto.params[i].ty)
  }

  lemma CalledIsSupported(cx: Context, t: Tables, fn: Function)
    requires Describes(cx, t) && SupportedFunction(cx, t, fn)
    ensures StmtsSupported(fn.body.stmts) && VariantsDistinct(cx.enums)
  {
    hide CheckStmts, DeclareAllIn, Declares, VisitsSupported, StmtsSupported;
    var env := DeclareAllIn(Scoped([map[]], 0), ParamNames(fn.proto.params), ParamTypes(fn.proto.params)).env;
    AcceptedStmtsSupported(t, fn.proto.ret, 0, env, fn.body.stmts);
  }

  /** An accepted function without narrowing conversions is compiled, and its code is safe: at whatever step
      it is looked at, it has not reached the trap of a switch, and it has gone wrong only if the function
      meets arithmetic that has no result. If it has halted, then with nothing from a function that returns
      void, and else with a value of its return type, and with statics of their types. */
  lemma CompiledRunsWell(
    cx: Context, t: Tables, statics: seq<Static>, fn: Function, values: map<string, Value>, args: seq<Value>, slots: Slots,
    n: nat)
    requires Called(cx, t, fn, values, args) && StaticsDeclared(t, statics)
    requires StaticsHeld(Globals(statics), values, slots) && NoneNarrows(t, fn.proto.ret, CheckFunction(t, fn).visits)
    ensures LowerFunction(cx, statics, fn).Ok?
    ensures
      var at := Steps(cx, LowerFunction(cx, statics, fn).code.blocks, n, Start(args, slots));
      && at != Trapped && (at == Stuck ==> RunBody(cx, SameRound, fn, n, values, args) == InError(Arithmetic))
      && (at.Halted? ==>
            (at.result.None? <==> fn.proto.ret == Void)
            && (at.result.Some? ==> WellTyped(t.enums, at.result.value, fn.proto.ret))
            && exists after :: FrameTyped(t.enums, GlobalScope(t), after) && StaticsHeld(Globals(statics), after, at.slots))
  {
    hide Steps, LowerFunction, StaticsHeld, RunBody, NoneNarrows, VisitsSupported, CheckFunction, StaticsDeclared, RepliesTyped,
      FrameTyped, WellTyped, StmtsSupported, VariantsDistinct, Describes;
    LoweredUnlessNarrowing(cx, t, statics, fn);
    CalledIsSupported(cx, t, fn);
    AcceptedRunsWell(World(cx, t, SameRound, fn.proto.ret), fn, n, values, args);
    var g := LowerFunction(cx, statics, fn).code.blocks;
    var at := Steps(cx, g, n, Start(args, slots));
    if !at.At? {
      var m, end := FunctionRuns(cx, statics, fn, n, values, args, slots);
      if m >= n {
        StepsAdd(cx, g, n, m - n, Start(args, slots));
        EndIsFinal(cx, g, m - n, at);
      } else {
        SameEnd(cx, g, Start(args, slots), m, n);
      }
    }
  }
}
