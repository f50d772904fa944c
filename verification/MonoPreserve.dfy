/** Monomorphisation preserves meaning: on every machine, from every state and with every amount
    of fuel, a function of the generic program and the function of the same name in the output
    run alike. */
module MonoPreserve {
  import opened Ast
  import opened Wrappers
  import opened Names
  import opened Mono
  import opened MonoFlat
  import opened MonoSound
  import opened Meaning
  import opened MonoShapes

  // ---------------------------------------------------------------------------
  // Corresponding contexts
  // ---------------------------------------------------------------------------

  ghost predicate SourceOk<V, S>(c: Context<V, S>) {
    Compiled(c.program) && ClosedSubst(c.program, c.subst)
  }

  /** The context of the corresponding plain code. */
  ghost function Target<V, S>(c: Context<V, S>): Context<V, S>
    requires SourceOk(c)
  {
    Context(Output(c.program), c.machine, map[])
  }

  ghost function Tpl<V, S>(c: Context<V, S>): Templates {
    TemplatesOf(c.program)
  }

  ghost function Sigma<V, S>(c: Context<V, S>): Substitution {
    FlatSubst(c.subst)
  }

  ghost predicate TypesOk<V, S>(c: Context<V, S>, ts: seq<Type>)
    requires SourceOk(c)
  {
    AllTidyTypes(ts) && Covers(c.program, TypesInsts(Sigma(c), ts))
  }

  ghost predicate ExprOk<V, S>(c: Context<V, S>, e: Expr)
    requires SourceOk(c)
  {
    TidyExpr(e) && WellApplied(Tpl(c), e) && Covers(c.program, ExprInsts(Tpl(c), Sigma(c), e))
  }

  ghost predicate ExprsOk<V, S>(c: Context<V, S>, es: seq<Expr>)
    requires SourceOk(c)
  {
    AllTidyExprs(es) && AllWellApplied(Tpl(c), es) && Covers(c.program, ExprsInsts(Tpl(c), Sigma(c), es))
  }

  ghost predicate StmtOk<V, S>(c: Context<V, S>, s: Stmt)
    requires SourceOk(c)
  {
    TidyStmt(s) && WellAppliedStmt(Tpl(c), s) && Covers(c.program, StmtInsts(Tpl(c), Sigma(c), s))
  }

  ghost predicate StmtsOk<V, S>(c: Context<V, S>, ss: seq<Stmt>)
    requires SourceOk(c)
  {
    TidyStmts(ss) && WellAppliedStmts(Tpl(c), ss) && Covers(c.program, StmtsInsts(Tpl(c), Sigma(c), ss))
  }

  ghost predicate BlocksOk<V, S>(c: Context<V, S>, bs: seq<Block>)
    requires SourceOk(c)
  {
    TidyBlocks(bs) && WellAppliedBlocks(Tpl(c), bs) && Covers(c.program, BlocksInsts(Tpl(c), Sigma(c), bs))
  }

  ghost function FlatE<V, S>(c: Context<V, S>, e: Expr): Expr {
    FlatExpr(Tpl(c), Sigma(c), e)
  }

  ghost function FlatEs<V, S>(c: Context<V, S>, es: seq<Expr>): (r: seq<Expr>)
    ensures |r| == |es|
  {
    FlatExprs(Tpl(c), Sigma(c), es)
  }

  lemma OperandsOk<V, S>(c: Context<V, S>, e: Expr)
    requires SourceOk(c) && ExprOk(c, e)
    ensures ExprsOk(c, Operands(e)) && TypesOk(c, TypesIn(e))
    ensures TidyHead(e) && WellAppliedHead(Tpl(c), e)
    ensures Covers(c.program, HeadInsts(Tpl(c), e, FlatTypes(Sigma(c), TypesIn(e))))
    ensures e.MethodCall? && !ConstructsInstance(Tpl(c), e.receiver) ==> ExprOk(c, e.receiver)
    ensures e.MethodCall? && e.receiver.Var? ==> !Reserved(e.receiver.name)
  {
    var tpl, sigma := Tpl(c), Sigma(c);
    var parts := ExprsInsts(tpl, sigma, Operands(e)) + TypesInsts(sigma, TypesIn(e));
    assert ExprInsts(tpl, sigma, e) == parts + NodeInsts(tpl, sigma, e);
    CoversUnion(c, parts, NodeInsts(tpl, sigma, e));
    CoversUnion(c, ExprsInsts(tpl, sigma, Operands(e)), TypesInsts(sigma, TypesIn(e)));
    CoversUnion(c, HeadInsts(tpl, e, FlatTypes(sigma, TypesIn(e))),
                if e.MethodCall? && !ConstructsInstance(tpl, e.receiver) then ExprInsts(tpl, sigma, e.receiver) else {});
  }

  lemma CoversUnion<V, S>(c: Context<V, S>, a: set<Instance>, b: set<Instance>)
    requires SourceOk(c)
    ensures Covers(c.program, a + b) <==> Covers(c.program, a) && Covers(c.program, b)
  {
    hide Compiled, Good, ArgsOk, Registered;
    assert forall i | i in a :: i in a + b;
    assert forall i | i in b :: i in a + b;
  }

  lemma FirstExprOk<V, S>(c: Context<V, S>, es: seq<Expr>)
    requires SourceOk(c) && ExprsOk(c, es) && es != []
    ensures ExprOk(c, es[0]) && ExprsOk(c, es[1..])
    ensures FlatEs(c, es)[0] == FlatE(c, es[0]) && FlatEs(c, es)[1..] == FlatEs(c, es[1..])
  {}

  lemma OneExprOk<V, S>(c: Context<V, S>, e: Expr)
    requires SourceOk(c)
    ensures ExprsOk(c, [e]) <==> ExprOk(c, e)
    ensures FlatEs(c, [e]) == [FlatE(c, e)]
  {
    hide Compiled, ClosedSubst, TidyExpr, WellApplied, FlatExpr, ExprInsts;
    assert [e][1..] == [];
    assert AllTidyExprs([e]) <==> TidyExpr(e);
    assert AllWellApplied(Tpl(c), [e]) <==> WellApplied(Tpl(c), e);
    assert ExprsInsts(Tpl(c), Sigma(c), [e]) == ExprInsts(Tpl(c), Sigma(c), e) + {};
  }

  lemma TwoExprsOk<V, S>(c: Context<V, S>, a: Expr, b: Expr)
    requires SourceOk(c) && ExprsOk(c, [a, b])
    ensures ExprOk(c, a) && ExprOk(c, b)
    ensures FlatEs(c, [a, b]) == [FlatE(c, a), FlatE(c, b)]
  {
    assert [a, b][1..] == [b];
    FirstExprOk(c, [a, b]);
    OneExprOk(c, b);
    assert FlatEs(c, [a, b]) == [FlatEs(c, [a, b])[0]] + FlatEs(c, [a, b])[1..];
  }

  // ---------------------------------------------------------------------------
  // Shapes in corresponding contexts
  // ---------------------------------------------------------------------------

  lemma SameShapeOf<V, S>(c: Context<V, S>, t: Type, fuel: nat)
    requires SourceOk(c) && TypesOk(c, [t])
    ensures ShapeOf(c, t, fuel) == ShapeOf(Target(c), FlatType(Sigma(c), t), fuel)
  {
    assert TypesInsts(Sigma(c), [t]) == TypeInsts(Sigma(c), t) + {};
    SameShapeUnder(c.program, c.subst, t, fuel);
  }

  lemma SameShapesOf<V, S>(c: Context<V, S>, ts: seq<Type>, fuel: nat)
    requires SourceOk(c) && TypesOk(c, ts)
    ensures ShapesOf(c, ts, fuel) == ShapesOf(Target(c), FlatTypes(Sigma(c), ts), fuel)
  {
    SameShapesUnder(c.program, c.subst, ts, fuel);
  }

  /** A plain name means the same type before and after. */
  lemma SamePlainShape<V, S>(c: Context<V, S>, name: string, fuel: nat)
    requires SourceOk(c) && !Reserved(name)
    ensures NamedShape(c, name, [], fuel) == NamedShape(Target(c), name, [], fuel)
  {
    SamePlainName(c.program, name, fuel);
  }

  lemma SameInstanceShape<V, S>(c: Context<V, S>, name: string, typeArgs: seq<Type>, fuel: nat)
    requires SourceOk(c) && TypesOk(c, typeArgs) && AllTupleFree(typeArgs)
    requires Covers(c.program, {TypeInst(name, FlatTypes(Sigma(c), typeArgs))})
    ensures NamedShape(c, name, typeArgs, fuel)
            == NamedShape(Target(c), Mangle(name, FlatTypes(Sigma(c), typeArgs)), [], fuel)
  {
    SubstituteClosedAll(c.program, c.subst, typeArgs);
    SubstituteThenFlattenAll(c.subst, typeArgs);
    SameInstanceName(c.program, name, SubstituteAll(c.subst, typeArgs), fuel);
  }

  // ---------------------------------------------------------------------------
  // Functions in corresponding contexts
  // ---------------------------------------------------------------------------

  /** `f`, run in context `c`, and its plain counterpart `g`. */
  ghost predicate Corresponds<V, S>(c: Context<V, S>, f: Function, g: Function)
    requires SourceOk(c)
  {
    && TypesOk(c, SignatureTypes(f.proto)) && StmtsOk(c, f.body.stmts)
    && g.proto.params == WithParamTypes(f.proto.params, FlatTypes(Sigma(c), ParamTypes(f.proto.params)))
    && g.proto.ret == FlatType(Sigma(c), f.proto.ret)
    && g.body.stmts == FlatStmts(Tpl(c), Sigma(c), f.body.stmts)
    && g.proto.typeParams == []
  }

  lemma {:induction false} FlatTypesAppend(subst: Substitution, ts: seq<Type>, t: Type)
    ensures FlatTypes(subst, ts + [t]) == FlatTypes(subst, ts) + [FlatType(subst, t)]
    ensures TypesInsts(subst, ts + [t]) == TypesInsts(subst, ts) + TypeInsts(subst, t)
    ensures AllTidyTypes(ts + [t]) <==> AllTidyTypes(ts) && TidyType(t)
    decreases |ts|
  {
    if ts == [] {
      assert ts + [t] == [t] && [t][1..] == [];
    } else {
      assert (ts + [t])[1..] == ts[1..] + [t];
      FlatTypesAppend(subst, ts[1..], t);
    }
  }

  lemma FlatSignature<V, S>(c: Context<V, S>, f: Function, g: Function)
    requires SourceOk(c) && TypesOk(c, SignatureTypes(f.proto)) && StmtsOk(c, f.body.stmts)
    requires f.proto.typeParams == []
    requires g == FlatFunction(Tpl(c), Sigma(c), f)
    ensures Corresponds(c, f, g)
  {
    hide Covers, Compiled;
    FlatTypesAppend(Sigma(c), ParamTypes(f.proto.params), f.proto.ret);
  }

  /** The context in which the source function runs, for given type arguments. */
  lemma InnerOk<V, S>(c: Context<V, S>, f: Function, typeArgs: seq<Type>)
    requires SourceOk(c) && TypesOk(c, typeArgs) && AllTupleFree(typeArgs)
    requires |f.proto.typeParams| == |typeArgs|
    ensures
      var inner := Inner(c, f, typeArgs);
      && SourceOk(inner) && inner.program == c.program
      && Sigma(inner) == Bind(f.proto.typeParams, FlatTypes(Sigma(c), typeArgs))
      && Target(inner) == Target(c)
  {
    var args := SubstituteAll(c.subst, typeArgs);
    SubstituteClosedAll(c.program, c.subst, typeArgs);
    SubstituteThenFlattenAll(c.subst, typeArgs);
    BindClosed(c.program, f.proto.typeParams, args);
    BindThenFlatten(f.proto.typeParams, args);
  }

  lemma TargetInner<V, S>(c: Context<V, S>, g: Function)
    requires SourceOk(c) && g.proto.typeParams == []
    ensures Inner(Target(c), g, []) == Target(c)
  {
    assert Bind([], []) == map[];
  }

  lemma InstanceCorresponds<V, S>(c: Context<V, S>, name: string, typeArgs: seq<Type>)
    requires SourceOk(c) && TypesOk(c, typeArgs) && AllTupleFree(typeArgs)
    requires Covers(c.program, {FunctionInst(name, FlatTypes(Sigma(c), typeArgs))})
    ensures
      var i := FunctionInst(name, FlatTypes(Sigma(c), typeArgs));
      && FindFunction(c.program, name).Some? && name in Tpl(c).functions && typeArgs != []
      && FindFunction(Output(c.program), InstanceName(i)).Some?
      && var f, g := FindFunction(c.program, name).value, FindFunction(Output(c.program), InstanceName(i)).value;
      && |f.proto.typeParams| == |typeArgs|
      && SourceOk(Inner(c, f, typeArgs))
      && Target(Inner(c, f, typeArgs)) == Target(c)
      && Corresponds(Inner(c, f, typeArgs), f, g)
  {
    var i := FunctionInst(name, FlatTypes(Sigma(c), typeArgs));
    LookupFunctionInstance(c.program, i);
    var f := FindFunction(c.program, name).value;
    var plain := Renamed(f, InstanceName(i));
    InnerOk(c, f, typeArgs);
    var inner := Inner(c, f, typeArgs);
    assert SignatureTypes(plain.proto) == SignatureTypes(f.proto);
    InstanceBody(inner, f, plain, i);
  }

  lemma InstanceBody<V, S>(inner: Context<V, S>, f: Function, plain: Function, i: Instance)
    requires SourceOk(inner) && i.FunctionInst? && Good(Tpl(inner), i) && f == Tpl(inner).functions[i.template]
    requires plain == Renamed(f, InstanceName(i)) && Sigma(inner) == ArgsOf(Tpl(inner), i)
    requires TidyFunction(f) && WellAppliedStmts(Tpl(inner), f.body.stmts)
    requires Covers(inner.program, DefinitionInsts(Tpl(inner), i))
    ensures Corresponds(inner, f, FunctionOf(Tpl(inner), i))
  {
    hide Compiled;
    assert SignatureTypes(plain.proto) == SignatureTypes(f.proto);
    FlatSignature(inner, plain, FunctionOf(Tpl(inner), i));
  }

  /** A plain function, called without type arguments. */
  lemma PlainCorresponds<V, S>(c: Context<V, S>, name: string)
    requires SourceOk(c) && !Reserved(name)
    ensures IsPlainFunction(c.program, name) == IsPlainFunction(Output(c.program), name)
    ensures name !in Tpl(c).functions ==>
      FindFunction(c.program, name).Some? == FindFunction(Output(c.program), name).Some?
      && (FindFunction(c.program, name).Some? ==> IsPlainFunction(c.program, name))
    ensures IsPlainFunction(c.program, name) ==>
      var f, g := FindFunction(c.program, name).value, FindFunction(Output(c.program), name).value;
      && SourceOk(Inner(c, f, []))
      && Target(Inner(c, f, [])) == Target(c)
      && Corresponds(Inner(c, f, []), f, g)
  {
    hide Compiled, Covers, ClosedSubst, Corresponds;
    LookupFunction(c.program, name);
    if IsPlainFunction(c.program, name) {
      PlainInner(c, FindFunction(c.program, name).value);
    }
  }

  lemma PlainInner<V, S>(c: Context<V, S>, f: Function)
    requires SourceOk(c) && f.proto.typeParams == [] && PlainFunction(c.program, f)
    ensures
      && SourceOk(Inner(c, f, []))
      && Target(Inner(c, f, [])) == Target(c)
      && Corresponds(Inner(c, f, []), f, FlatFunction(Tpl(c), map[], f))
  {
    hide Compiled, Covers, Corresponds, PlainFunction;
    var inner := Inner(c, f, []);
    assert Bind([], []) == map[] && inner.subst == map[] && Sigma(inner) == map[];
    PlainBody(inner, f);
  }

  lemma PlainBody<V, S>(inner: Context<V, S>, f: Function)
    requires SourceOk(inner) && inner.subst == map[] && Sigma(inner) == map[]
    requires PlainFunction(inner.program, f)
    ensures Corresponds(inner, f, FlatFunction(Tpl(inner), map[], f))
  {
    hide Compiled;
    FlatSignature(inner, f, FlatFunction(Tpl(inner), map[], f));
  }

  // ---------------------------------------------------------------------------
  // Calls
  // ---------------------------------------------------------------------------

  lemma {:induction false} SameInvoke<V, S>(c: Context<V, S>, f: Function, g: Function, s: S, vs: seq<V>, fuel: nat)
    requires SourceOk(c) && Corresponds(c, f, g)
    ensures Invoke(c, f, s, vs, fuel) == Invoke(Target(c), g, s, vs, fuel)
    decreases fuel, 0, 0
  {
    hide Compiled, Covers, ClosedSubst, StmtsOk, TypesOk, ShapeOf, BindParams, ExecStmts, FlatTypes, FlatStmts;
    var params := ParamTypes(f.proto.params);
    SignatureOk(c, f.proto);
    SameShapesOf(c, params, fuel);
    SameShapeOf(c, f.proto.ret, fuel);
    FlatFieldNames(f.proto.params, FlatTypes(Sigma(c), params));
    if fuel > 0 && |vs| == |params| {
      var bound := BindParams(c.machine, FieldNames(f.proto.params), ShapesOf(c, params, fuel), vs, map[], s);
      if bound.Ended? {
        SameStmts(c, bound.value, bound.state, f.body.stmts, fuel - 1);
      }
    }
  }

  lemma SignatureOk<V, S>(c: Context<V, S>, proto: Prototype)
    requires SourceOk(c) && TypesOk(c, SignatureTypes(proto))
    ensures TypesOk(c, ParamTypes(proto.params)) && TypesOk(c, [proto.ret])
  {
    FlatTypesAppend(Sigma(c), ParamTypes(proto.params), proto.ret);
    FlatTypesAppend(Sigma(c), [], proto.ret);
    assert [] + [proto.ret] == [proto.ret];
  }

  lemma {:induction false} SameGenericCall<V, S>(c: Context<V, S>, env: Env<V>, s: S, callee: string, typeArgs: seq<Type>, vs: seq<V>, fuel: nat)
    requires SourceOk(c) && !IsSizeof(callee) && TypesOk(c, typeArgs) && AllTupleFree(typeArgs)
    requires Covers(c.program, {FunctionInst(callee, FlatTypes(Sigma(c), typeArgs))})
    ensures EvalCall(c, env, s, callee, typeArgs, vs, fuel)
            == EvalCall(Target(c), env, s, Mangle(callee, FlatTypes(Sigma(c), typeArgs)), [], vs, fuel)
    decreases fuel, 0, 2
  {
    hide Compiled, Covers, ClosedSubst, TypesOk, AllTupleFree, Corresponds;
    var mangled := Mangle(callee, FlatTypes(Sigma(c), typeArgs));
    InstanceCorresponds(c, callee, typeArgs);
    var f, g := FindFunction(c.program, callee).value, FindFunction(Output(c.program), mangled).value;
    SameInvoke(Inner(c, f, typeArgs), f, g, s, vs, fuel);
    CorrespondsPlain(Inner(c, f, typeArgs), f, g);
    TargetInner(c, g);
    MangleNotSizeof(callee, FlatTypes(Sigma(c), typeArgs));
  }

  lemma CorrespondsPlain<V, S>(c: Context<V, S>, f: Function, g: Function)
    requires SourceOk(c) && Corresponds(c, f, g)
    ensures g.proto.typeParams == []
    ensures |g.proto.params| == |f.proto.params|
    ensures g.proto.params == WithParamTypes(f.proto.params, FlatTypes(Sigma(c), ParamTypes(f.proto.params)))
    ensures TypesOk(c, ParamTypes(f.proto.params))
  {
    SignatureOk(c, f.proto);
  }

  lemma MangleNotSizeof(name: string, args: seq<Type>)
    ensures !IsSizeof(Mangle(name, args))
  {
    MangleReserved(name, args);
    assert Mangle(name, args)[0] == InstanceMark[0] == '_';
  }

  lemma {:induction false} SamePlainCall<V, S>(c: Context<V, S>, env: Env<V>, s: S, callee: string, vs: seq<V>, fuel: nat)
    requires SourceOk(c) && !IsSizeof(callee) && !Reserved(callee) && callee !in Tpl(c).functions
    ensures EvalCall(c, env, s, callee, [], vs, fuel) == EvalCall(Target(c), env, s, callee, [], vs, fuel)
    decreases fuel, 0, 2
  {
    hide Compiled, Covers, ClosedSubst, Corresponds;
    PlainCorresponds(c, callee);
    if FindFunction(c.program, callee).Some? {
      SameInstantiate(c, callee, s, vs, fuel);
    } else if !c.machine.external(callee) && callee in env {
      var r := Load(c.machine, env[callee], s);
      if r.Ended? {
        var name := c.machine.functionName(r.value);
        if name.Some? && !Reserved(name.value) {
          PlainCorresponds(c, name.value);
          if IsPlainFunction(c.program, name.value) {
            SameInstantiate(c, name.value, r.state, vs, fuel);
          }
        }
      }
    }
  }

  lemma {:induction false} SameInstantiate<V, S>(c: Context<V, S>, name: string, s: S, vs: seq<V>, fuel: nat)
    requires SourceOk(c) && !Reserved(name) && IsPlainFunction(c.program, name)
    ensures IsPlainFunction(Output(c.program), name)
    ensures Instantiate(c, FindFunction(c.program, name).value, s, [], vs, fuel)
            == Instantiate(Target(c), FindFunction(Output(c.program), name).value, s, [], vs, fuel)
    decreases fuel, 0, 1
  {
    hide Compiled, Covers, ClosedSubst, Corresponds;
    PlainCorresponds(c, name);
    var f, g := FindFunction(c.program, name).value, FindFunction(Output(c.program), name).value;
    SameInvoke(Inner(c, f, []), f, g, s, vs, fuel);
    TargetInner(c, g);
  }

  lemma SameSizeof<V, S>(c: Context<V, S>, env: Env<V>, s: S, callee: string, typeArgs: seq<Type>, vs: seq<V>, fuel: nat)
    requires SourceOk(c) && IsSizeof(callee) && TypesOk(c, typeArgs)
    ensures EvalCall(c, env, s, callee, typeArgs, vs, fuel)
            == EvalCall(Target(c), env, s, callee, FlatTypes(Sigma(c), typeArgs), vs, fuel)
  {
    hide Compiled, Covers, ClosedSubst;
    if |typeArgs| == 1 {
      assert typeArgs == [typeArgs[0]];
      SameShapeOf(c, typeArgs[0], fuel);
      assert FlatTypes(Sigma(c), typeArgs)[0] == FlatType(Sigma(c), typeArgs[0]);
    }
  }

  lemma {:induction false} SameMethodBody<V, S>(c: Context<V, S>, inner: Context<V, S>, f: Function, g: Function, s: S, place: V, vs: seq<V>, fuel: nat)
    requires SourceOk(c) && SourceOk(inner) && Target(inner) == Target(c) && Corresponds(inner, f, g)
    requires inner.machine == c.machine && f.proto.params != []
    ensures g.proto.params != []
    ensures ShapeOf(inner, f.proto.params[0].ty, fuel) == ShapeOf(Target(c), g.proto.params[0].ty, fuel)
    ensures
      var r := Operate(c.machine, Receive(ShapeOf(inner, f.proto.params[0].ty, fuel)), [place], s);
      r.Ended? ==> Invoke(inner, f, r.state, [r.value] + vs, fuel) == Invoke(Target(c), g, r.state, [r.value] + vs, fuel)
    decreases fuel, 0, 1
  {
    hide Compiled, Covers, ClosedSubst;
    CorrespondsPlain(inner, f, g);
    var params := ParamTypes(f.proto.params);
    FirstTypeOk(inner, params);
    SameShapeOf(inner, params[0], fuel);
    var r := Operate(c.machine, Receive(ShapeOf(inner, f.proto.params[0].ty, fuel)), [place], s);
    if r.Ended? {
      SameInvoke(inner, f, g, r.state, [r.value] + vs, fuel);
    }
  }

  lemma FirstTypeOk<V, S>(c: Context<V, S>, ts: seq<Type>)
    requires SourceOk(c) && TypesOk(c, ts) && ts != []
    ensures TypesOk(c, [ts[0]]) && FlatTypes(Sigma(c), ts)[0] == FlatType(Sigma(c), ts[0])
  {
    assert TypesInsts(Sigma(c), [ts[0]]) == TypeInsts(Sigma(c), ts[0]) + {};
  }

  lemma {:induction false} SameGenericMethod<V, S>(c: Context<V, S>, s: S, name: string, typeArgs: seq<Type>, place: V, vs: seq<V>, fuel: nat)
    requires SourceOk(c) && TypesOk(c, typeArgs) && AllTupleFree(typeArgs)
    requires Covers(c.program, {FunctionInst(name, FlatTypes(Sigma(c), typeArgs))})
    ensures EvalMethod(c, s, name, typeArgs, place, vs, fuel)
            == EvalMethod(Target(c), s, Mangle(name, FlatTypes(Sigma(c), typeArgs)), [], place, vs, fuel)
    decreases fuel, 0, 2
  {
    hide Compiled, Covers, ClosedSubst, TypesOk, AllTupleFree, Corresponds;
    InstanceCorresponds(c, name, typeArgs);
    var mangled := Mangle(name, FlatTypes(Sigma(c), typeArgs));
    var f, g := FindFunction(c.program, name).value, FindFunction(Output(c.program), mangled).value;
    CorrespondsPlain(Inner(c, f, typeArgs), f, g);
    TargetInner(c, g);
    if f.proto.params != [] {
      SameMethodBody(c, Inner(c, f, typeArgs), f, g, s, place, vs, fuel);
    }
  }

  lemma {:induction false} SamePlainMethod<V, S>(c: Context<V, S>, s: S, name: string, place: V, vs: seq<V>, fuel: nat)
    requires SourceOk(c) && !Reserved(name) && name !in Tpl(c).functions
    ensures EvalMethod(c, s, name, [], place, vs, fuel) == EvalMethod(Target(c), s, name, [], place, vs, fuel)
    decreases fuel, 0, 2
  {
    hide Compiled, Covers, ClosedSubst, Corresponds;
    PlainCorresponds(c, name);
    if FindFunction(c.program, name).Some? {
      var f, g := FindFunction(c.program, name).value, FindFunction(Output(c.program), name).value;
      CorrespondsPlain(Inner(c, f, []), f, g);
      TargetInner(c, g);
      if f.proto.params != [] {
        SameMethodBody(c, Inner(c, f, []), f, g, s, place, vs, fuel);
      }
    }
  }

  // ---------------------------------------------------------------------------
  // Expressions
  // ---------------------------------------------------------------------------

  lemma {:induction false} SameExprs<V, S>(c: Context<V, S>, env: Env<V>, s: S, es: seq<Expr>, fuel: nat)
    requires SourceOk(c) && ExprsOk(c, es)
    ensures EvalExprs(c, env, s, es, fuel) == EvalExprs(Target(c), env, s, FlatEs(c, es), fuel)
    decreases fuel, ExprsSize(es), 0
  {
    hide Compiled, Covers, ClosedSubst, ExprOk, ExprsOk, FlatE, FlatEs;
    if es != [] {
      FirstExprOk(c, es);
      SameExpr(c, env, s, es[0], fuel);
      var r := EvalExpr(c, env, s, es[0], fuel);
      if r.Ended? {
        SameExprs(c, env, r.state, es[1..], fuel);
      }
    } else {
      assert FlatEs(c, es) == [];
    }
  }

  /** The flat node has the same constructor, and hence the same blank. */
  lemma FlatNode<V, S>(c: Context<V, S>, e: Expr)
    ensures Operands(FlatE(c, e)) == FlatEs(c, Operands(e))
    ensures IsPlace(FlatE(c, e)) == IsPlace(e) && FlatE(c, e).AddrOf? == e.AddrOf?
    ensures FlatE(c, e).MethodCall? == e.MethodCall? && FlatE(c, e).Call? == e.Call?
    ensures FlatE(c, e).StructInit? == e.StructInit? && FlatE(c, e).Cast? == e.Cast?
    ensures FlatE(c, e).Var? == e.Var? && (e.Var? ==> FlatE(c, e) == e)
    ensures FlatE(c, e).Field? == e.Field? && (e.Field? ==> FlatE(c, e) == Field(FlatE(c, e.base), e.field))
    ensures FlatE(c, e).Index? == e.Index? && (e.Index? ==> FlatE(c, e) == Index(FlatE(c, e.base), FlatE(c, e.index)))
    ensures e.Deref? ==> FlatE(c, e) == Deref(FlatE(c, e.operand))
    ensures e.AddrOf? ==> FlatE(c, e) == AddrOf(FlatE(c, e.operand))
    ensures e.Cast? ==> FlatE(c, e).target == FlatType(Sigma(c), e.target)
  {
    FlatUnfold(c, e);
    hide FlatE, FlatEs;
    match e
    case Index(base, index) => FlatPair(c, base, index);
    case Field(base, _) => FlatSingle(c, base);
    case Deref(operand) => FlatSingle(c, operand);
    case AddrOf(operand) => FlatSingle(c, operand);
    case _ =>
  }

  lemma FlatUnfold<V, S>(c: Context<V, S>, e: Expr)
    ensures FlatE(c, e) == FlatHead(Tpl(c), e, FlatEs(c, Operands(e)), FlatTypes(Sigma(c), TypesIn(e)),
                                    if e.MethodCall? then FlatE(c, e.receiver) else e)
    ensures e.Cast? ==> FlatTypes(Sigma(c), TypesIn(e)) == [FlatType(Sigma(c), e.target)]
  {}

  lemma FlatSingle<V, S>(c: Context<V, S>, e: Expr)
    ensures FlatEs(c, [e]) == [FlatE(c, e)]
  {
    assert [e][1..] == [];
  }

  lemma FlatPair<V, S>(c: Context<V, S>, a: Expr, b: Expr)
    ensures FlatEs(c, [a, b]) == [FlatE(c, a), FlatE(c, b)]
  {
    assert [a, b][1..] == [b];
    FlatSingle(c, b);
  }

  predicate IsStrict(e: Expr) {
    !IsPlace(e) && !e.AddrOf? && !e.MethodCall? && !e.Call? && !e.StructInit? && !e.Cast?
  }

  lemma SameBlank<V, S>(c: Context<V, S>, e: Expr)
    requires IsStrict(e)
    ensures TypesIn(FlatE(c, e)) == [] && Blank(FlatE(c, e)) == Blank(e)
  {}

  lemma {:induction false} SameExpr<V, S>(c: Context<V, S>, env: Env<V>, s: S, e: Expr, fuel: nat)
    requires SourceOk(c) && ExprOk(c, e)
    ensures EvalExpr(c, env, s, e, fuel) == EvalExpr(Target(c), env, s, FlatE(c, e), fuel)
    decreases fuel, ExprSize(e), 1
  {
    hide Compiled, Covers, ClosedSubst, ExprOk, ExprsOk, FlatE, FlatEs;
    SizeOfOperands(e);
    FlatNode(c, e);
    if IsPlace(e) {
      SameLvalue(c, env, s, e, fuel);
    } else if e.AddrOf? {
      SameAddrOf(c, env, s, e.operand, fuel);
    } else if e.MethodCall? {
      SameMethodCall(c, env, s, e, fuel);
    } else {
      OperandsOk(c, e);
      SameExprs(c, env, s, Operands(e), fuel);
      var r := EvalExprs(c, env, s, Operands(e), fuel);
      if r.Ended? {
        SameNode(c, env, r.state, e, r.value, fuel);
      }
    }
  }

  /** The rest of EvalExpr, once the operands are evaluated. */
  ghost function EvalNode<V, S>(c: Context<V, S>, env: Env<V>, s: S, e: Expr, vs: seq<V>, fuel: nat): Run<V, S>
    requires !IsPlace(e) && !e.AddrOf? && !e.MethodCall?
  {
    if e.Call? then EvalCall(c, env, s, e.callee, e.typeArgs, vs, fuel)
    else if e.StructInit? then
      Operate(c.machine, MakeStruct(NamedShape(c, e.struct, e.typeArgs, fuel), InitNames(e.fields)), vs, s)
    else if e.Cast? then Operate(c.machine, CastTo(ShapeOf(c, e.target, fuel)), vs, s)
    else Operate(c.machine, Strict(Blank(e)), vs, s)
  }

  lemma {:induction false} SameNode<V, S>(c: Context<V, S>, env: Env<V>, s: S, e: Expr, vs: seq<V>, fuel: nat)
    requires SourceOk(c) && ExprOk(c, e)
    requires !IsPlace(e) && !e.AddrOf? && !e.MethodCall?
    ensures !IsPlace(FlatE(c, e)) && !FlatE(c, e).AddrOf? && !FlatE(c, e).MethodCall?
    ensures EvalNode(c, env, s, e, vs, fuel) == EvalNode(Target(c), env, s, FlatE(c, e), vs, fuel)
    decreases fuel, ExprSize(e), 0
  {
    hide Compiled, Covers, ClosedSubst, ExprOk, ExprsOk, TypesOk, FlatE, FlatEs;
    OperandsOk(c, e);
    FlatNode(c, e);
    if e.Call? {
      SameCall(c, env, s, e, vs, fuel);
    } else if e.StructInit? {
      SameStructInit(c, e, fuel);
    } else if e.Cast? {
      SameShapeOf(c, e.target, fuel);
    } else {
      SameBlank(c, e);
    }
  }

  lemma {:induction false} SameCall<V, S>(c: Context<V, S>, env: Env<V>, s: S, e: Expr, vs: seq<V>, fuel: nat)
    requires SourceOk(c) && ExprOk(c, e) && e.Call?
    ensures FlatE(c, e).Call?
    ensures EvalCall(c, env, s, e.callee, e.typeArgs, vs, fuel)
            == EvalCall(Target(c), env, s, FlatE(c, e).callee, FlatE(c, e).typeArgs, vs, fuel)
    decreases fuel, 0, 3
  {
    hide Compiled, Covers, ClosedSubst, ExprOk, ExprsOk, TypesOk, FlatE, FlatEs, EvalCall;
    OperandsOk(c, e);
    FlatUnfold(c, e);
    if IsSizeof(e.callee) {
      SameSizeof(c, env, s, e.callee, e.typeArgs, vs, fuel);
    } else if e.callee in Tpl(c).functions {
      SameGenericCall(c, env, s, e.callee, e.typeArgs, vs, fuel);
    } else {
      SamePlainCall(c, env, s, e.callee, vs, fuel);
    }
  }

  lemma SameStructInit<V, S>(c: Context<V, S>, e: Expr, fuel: nat)
    requires SourceOk(c) && ExprOk(c, e) && e.StructInit?
    ensures FlatE(c, e).StructInit? && InitNames(FlatE(c, e).fields) == InitNames(e.fields)
    ensures NamedShape(c, e.struct, e.typeArgs, fuel)
            == NamedShape(Target(c), FlatE(c, e).struct, FlatE(c, e).typeArgs, fuel)
  {
    hide Compiled, Covers, ClosedSubst, ExprOk, ExprsOk, TypesOk, FlatE, FlatEs;
    OperandsOk(c, e);
    FlatUnfold(c, e);
    if e.struct in Tpl(c).structs {
      SameInstanceShape(c, e.struct, e.typeArgs, fuel);
    } else {
      SamePlainShape(c, e.struct, fuel);
    }
  }

  lemma {:induction false} SameAddrOf<V, S>(c: Context<V, S>, env: Env<V>, s: S, operand: Expr, fuel: nat)
    requires SourceOk(c) && ExprOk(c, AddrOf(operand))
    ensures EvalExpr(c, env, s, AddrOf(operand), fuel) == EvalExpr(Target(c), env, s, AddrOf(FlatE(c, operand)), fuel)
    decreases fuel, ExprSize(AddrOf(operand)), 0
  {
    hide Compiled, Covers, ClosedSubst, ExprOk, ExprsOk, FlatE, FlatEs;
    OperandsOk(c, AddrOf(operand));
    OneExprOk(c, operand);
    FlatNode(c, operand);
    SamePlace(c, env, s, operand, fuel);
    if operand.Var? {
      assert !Reserved(operand.name) by { VarUnreserved(c, operand); }
      PlainCorresponds(c, operand.name);
    }
  }

  lemma VarUnreserved<V, S>(c: Context<V, S>, e: Expr)
    requires SourceOk(c) && ExprOk(c, e) && e.Var?
    ensures !Reserved(e.name)
  {}

  lemma {:induction false} SameLvalue<V, S>(c: Context<V, S>, env: Env<V>, s: S, e: Expr, fuel: nat)
    requires SourceOk(c) && ExprOk(c, e) && IsPlace(e)
    ensures IsPlace(FlatE(c, e))
    ensures EvalLvalue(c, env, s, e, fuel) == EvalLvalue(Target(c), env, s, FlatE(c, e), fuel)
    decreases fuel, ExprSize(e), 0
  {
    hide Compiled, Covers, ClosedSubst, ExprOk, ExprsOk, FlatE, FlatEs;
    FlatNode(c, e);
    OperandsOk(c, e);
    match e
    case Var(_) =>
    case Field(base, _) =>
      OneExprOk(c, base);
      SamePlace(c, env, s, base, fuel);
    case Index(base, index) =>
      TwoExprsOk(c, base, index);
      SamePlace(c, env, s, base, fuel);
      var r := EvalPlace(c, env, s, base, fuel);
      if r.Ended? {
        SameExpr(c, env, r.state, index, fuel);
      }
    case Deref(operand) =>
      OneExprOk(c, operand);
      SameExpr(c, env, s, operand, fuel);
  }

  lemma {:induction false} SamePlace<V, S>(c: Context<V, S>, env: Env<V>, s: S, e: Expr, fuel: nat)
    requires SourceOk(c) && ExprOk(c, e)
    ensures EvalPlace(c, env, s, e, fuel) == EvalPlace(Target(c), env, s, FlatE(c, e), fuel)
    decreases fuel, ExprSize(e), 2
  {
    hide Compiled, Covers, ClosedSubst, ExprOk, FlatE, FlatEs;
    FlatNode(c, e);
    if IsPlace(e) {
      SameLvalue(c, env, s, e, fuel);
    } else {
      SameExpr(c, env, s, e, fuel);
    }
  }

  /** The receiver names an enum before iff its counterpart does after. */
  lemma SameIsEnum<V, S>(c: Context<V, S>, e: Expr)
    requires SourceOk(c) && ExprOk(c, e) && e.MethodCall? && e.receiver.Var?
    ensures FlatE(c, e).receiver.Var?
    ensures IsEnum(c.program, e.receiver.name) == IsEnum(Output(c.program), FlatE(c, e).receiver.name)
    ensures ConstructsInstance(Tpl(c), e.receiver) ==> IsEnum(c.program, e.receiver.name)
  {
    var name := e.receiver.name;
    OperandsOk(c, e);
    LookupType(c.program, name);
    FlatNode(c, e.receiver);
    if ConstructsInstance(Tpl(c), e.receiver) {
      LookupTypeInstance(c.program, TypeInst(name, FlatTypes(Sigma(c), e.typeArgs)));
    }
  }

  lemma {:induction false} SameMethodCall<V, S>(c: Context<V, S>, env: Env<V>, s: S, e: Expr, fuel: nat)
    requires SourceOk(c) && ExprOk(c, e) && e.MethodCall?
    ensures EvalExpr(c, env, s, e, fuel) == EvalExpr(Target(c), env, s, FlatE(c, e), fuel)
    decreases fuel, ExprSize(e), 0
  {
    hide Compiled, Covers, ClosedSubst, ExprOk, ExprsOk, FlatE, FlatEs, IsEnum;
    SizeOfOperands(e);
    FlatNode(c, e);
    OperandsOk(c, e);
    FlatReceiver(c, e);
    if e.receiver.Var? {
      SameIsEnum(c, e);
    }
    if e.receiver.Var? && IsEnum(c.program, e.receiver.name) {
      SameExprs(c, env, s, e.args, fuel);
      var r := EvalExprs(c, env, s, e.args, fuel);
      if r.Ended? {
        SameVariant(c, r.state, e, r.value, fuel);
      }
    } else {
      SamePlace(c, env, s, e.receiver, fuel);
      var p := EvalPlace(c, env, s, e.receiver, fuel);
      if p.Ended? {
        SameExprs(c, env, p.state, e.args, fuel);
        var r := EvalExprs(c, env, p.state, e.args, fuel);
        if r.Ended? {
          SameMethod(c, r.state, e, p.value, r.value, fuel);
        }
      }
    }
  }

  lemma FlatReceiver<V, S>(c: Context<V, S>, e: Expr)
    requires e.MethodCall?
    ensures !ConstructsInstance(Tpl(c), e.receiver) ==> FlatE(c, e).receiver == FlatE(c, e.receiver)
    ensures FlatE(c, e).receiver.Var? == e.receiver.Var?
    ensures FlatE(c, e).typeArgs == []
    ensures FlatE(c, e).args == FlatEs(c, e.args)
    ensures !ConstructsInstance(Tpl(c), e.receiver) ==>
      FlatE(c, e).methodName == if e.methodName in Tpl(c).functions then Mangle(e.methodName, FlatTypes(Sigma(c), e.typeArgs)) else e.methodName
    ensures ConstructsInstance(Tpl(c), e.receiver) ==>
      FlatE(c, e) == MethodCall(Var(Mangle(e.receiver.name, FlatTypes(Sigma(c), e.typeArgs))), e.methodName, [], FlatEs(c, e.args))
  {
    FlatNode(c, e.receiver);
  }

  lemma {:induction false} SameMethod<V, S>(c: Context<V, S>, s: S, e: Expr, place: V, vs: seq<V>, fuel: nat)
    requires SourceOk(c) && ExprOk(c, e) && e.MethodCall? && !ConstructsInstance(Tpl(c), e.receiver)
    ensures EvalMethod(c, s, e.methodName, e.typeArgs, place, vs, fuel)
            == EvalMethod(Target(c), s, FlatE(c, e).methodName, [], place, vs, fuel)
    decreases fuel, 0, 3
  {
    hide Compiled, Covers, ClosedSubst, ExprOk, ExprsOk, TypesOk, FlatE, FlatEs;
    OperandsOk(c, e);
    FlatReceiver(c, e);
    if e.methodName in Tpl(c).functions {
      SameGenericMethod(c, s, e.methodName, e.typeArgs, place, vs, fuel);
    } else {
      SamePlainMethod(c, s, e.methodName, place, vs, fuel);
    }
  }

  lemma {:induction false} SameVariant<V, S>(c: Context<V, S>, s: S, e: Expr, vs: seq<V>, fuel: nat)
    requires SourceOk(c) && ExprOk(c, e) && e.MethodCall? && e.receiver.Var? && IsEnum(c.program, e.receiver.name)
    requires FlatE(c, e).receiver.Var?
    ensures EvalVariant(c, s, e.receiver.name, e.methodName, e.typeArgs, vs, fuel)
            == EvalVariant(Target(c), s, FlatE(c, e).receiver.name, FlatE(c, e).methodName, [], vs, fuel)
  {
    hide Compiled, Covers, ClosedSubst, ExprOk, ExprsOk, TypesOk, FlatE, FlatEs;
    OperandsOk(c, e);
    FlatReceiver(c, e);
    FlatNode(c, e.receiver);
    var name := e.receiver.name;
    if ConstructsInstance(Tpl(c), e.receiver) {
      SameInstanceShape(c, name, e.typeArgs, fuel);
    } else if e.methodName in Tpl(c).functions {
      // A plain enum with type arguments: neither side has such a variant.
      InstanceCorresponds(c, e.methodName, e.typeArgs);
      NoSuchVariant(c, name, e.methodName, e.typeArgs, fuel);
    } else {
      SamePlainShape(c, name, fuel);
    }
  }

  lemma NoSuchVariant<V, S>(c: Context<V, S>, enum: string, called: string, typeArgs: seq<Type>, fuel: nat)
    requires SourceOk(c) && !Reserved(enum) && IsEnum(c.program, enum) && enum !in Tpl(c).enums && typeArgs != []
    ensures
      var mangled := Mangle(called, FlatTypes(Sigma(c), typeArgs));
      var shape, shape' := NamedShape(c, enum, typeArgs, fuel), NamedShape(Target(c), enum, [], fuel);
      shape.TooDeep? == shape'.TooDeep? && !HasVariant(shape, called) && !HasVariant(shape', mangled)
  {
    hide Compiled, Covers, ClosedSubst;
    LookupType(c.program, enum);
    MangleReserved(called, FlatTypes(Sigma(c), typeArgs));
    SamePlainName(c.program, enum, fuel);
  }

  // ---------------------------------------------------------------------------
  // Statements
  // ---------------------------------------------------------------------------

  ghost function FlatS<V, S>(c: Context<V, S>, s: Stmt): Stmt {
    FlatStmt(Tpl(c), Sigma(c), s)
  }

  ghost function FlatSs<V, S>(c: Context<V, S>, ss: seq<Stmt>): (r: seq<Stmt>)
    ensures |r| == |ss|
  {
    FlatStmts(Tpl(c), Sigma(c), ss)
  }

  lemma FirstStmtOk<V, S>(c: Context<V, S>, ss: seq<Stmt>)
    requires SourceOk(c) && StmtsOk(c, ss) && ss != []
    ensures StmtOk(c, ss[0]) && StmtsOk(c, ss[1..])
    ensures FlatSs(c, ss)[0] == FlatS(c, ss[0]) && FlatSs(c, ss)[1..] == FlatSs(c, ss[1..])
  {}

  lemma StmtPartsOk<V, S>(c: Context<V, S>, s: Stmt)
    requires SourceOk(c) && StmtOk(c, s)
    ensures TypesOk(c, StmtTypes(s)) && ExprsOk(c, StmtExprs(s)) && BlocksOk(c, StmtBlocks(s))
    ensures FlatS(c, s) == RebuildStmt(s, FlatTypes(Sigma(c), StmtTypes(s)), FlatEs(c, StmtExprs(s)),
                                       FlatBlocks(Tpl(c), Sigma(c), StmtBlocks(s)))
  {}

  lemma {:induction false} BlockAtOk<V, S>(c: Context<V, S>, bs: seq<Block>, k: nat)
    requires SourceOk(c) && BlocksOk(c, bs) && k < |bs|
    ensures StmtsOk(c, bs[k].stmts)
    ensures FlatBlocks(Tpl(c), Sigma(c), bs)[k].stmts == FlatSs(c, bs[k].stmts)
    ensures StmtsSize(bs[k].stmts) + 1 <= BlocksSize(bs)
    decreases k
  {
    hide Compiled;
    if k > 0 {
      BlockAtOk(c, bs[1..], k - 1);
    }
  }

  lemma {:induction false} SameStmts<V, S>(c: Context<V, S>, env: Env<V>, s: S, ss: seq<Stmt>, fuel: nat)
    requires SourceOk(c) && StmtsOk(c, ss)
    ensures ExecStmts(c, env, s, ss, fuel) == ExecStmts(Target(c), env, s, FlatSs(c, ss), fuel)
    decreases fuel, StmtsSize(ss), 0
  {
    hide Compiled, Covers, ClosedSubst, StmtOk, StmtsOk, FlatS, FlatSs;
    if ss != [] {
      FirstStmtOk(c, ss);
      SameStmt(c, env, s, ss[0], fuel);
      var flow := ExecStmt(c, env, s, ss[0], fuel);
      if flow.Next? {
        SameStmts(c, flow.env, flow.state, ss[1..], fuel);
      }
    } else {
      assert FlatSs(c, ss) == [];
    }
  }

  lemma {:induction false} SameStmt<V, S>(c: Context<V, S>, env: Env<V>, s: S, stmt: Stmt, fuel: nat)
    requires SourceOk(c) && StmtOk(c, stmt)
    ensures ExecStmt(c, env, s, stmt, fuel) == ExecStmt(Target(c), env, s, FlatS(c, stmt), fuel)
    decreases fuel, StmtSize(stmt), 1
  {
    hide *;
    match stmt
    case If(_, _, _) => SameIf(c, env, s, stmt, fuel);
    case While(_, _) => SameWhile(c, env, s, stmt, fuel);
    case For(_, _, _) => SameForStmt(c, env, s, stmt, fuel);
    case Switch(_, _) => SameSwitch(c, env, s, stmt, fuel);
    case _ => SameSimpleStmt(c, env, s, stmt, fuel);
  }

  /** Statements without blocks. */
  lemma {:induction false} SameSimpleStmt<V, S>(c: Context<V, S>, env: Env<V>, s: S, stmt: Stmt, fuel: nat)
    requires SourceOk(c) && StmtOk(c, stmt)
    requires !stmt.If? && !stmt.While? && !stmt.For? && !stmt.Switch?
    ensures ExecStmt(c, env, s, stmt, fuel) == ExecStmt(Target(c), env, s, FlatS(c, stmt), fuel)
    decreases fuel, StmtSize(stmt), 0
  {
    hide EvalExpr, EvalPlace, ExecBlock, ExecStmts, ExecFor, ExecArm, EvalLet;
    hide Compiled, Covers, ClosedSubst, StmtOk, ExprOk, ExprsOk, TypesOk, BlocksOk, FlatS, FlatE, FlatEs;
    SizeOfStmtParts(stmt);
    StmtPartsOk(c, stmt);
    match stmt
    case Let(name, ty, init) => SameLet(c, env, s, ty, init, fuel);
    case AssignIndex(place, rhs) =>
      TwoExprsOk(c, place, rhs);
      PairSize(place, rhs);
      SamePlace(c, env, s, place, fuel);
      var p := EvalPlace(c, env, s, place, fuel);
      if p.Ended? {
        SameExpr(c, env, p.state, rhs, fuel);
      }
    case Return(Some(e)) => SameOnly(c, env, s, e, fuel);
    case ExprStmt(e) => SameOnly(c, env, s, e, fuel);
    case LetTuple(_, source) => SameOnly(c, env, s, source, fuel);
    case Assign(_, rhs) => SameOnly(c, env, s, rhs, fuel);
    case _ =>
  }

  /** A statement's only expression. */
  lemma {:induction false} SameOnly<V, S>(c: Context<V, S>, env: Env<V>, s: S, e: Expr, fuel: nat)
    requires SourceOk(c) && ExprsOk(c, [e])
    ensures FlatEs(c, [e]) == [FlatE(c, e)]
    ensures EvalExpr(c, env, s, e, fuel) == EvalExpr(Target(c), env, s, FlatE(c, e), fuel)
    decreases fuel, ExprSize(e), 2
  {
    hide Compiled, Covers, ClosedSubst, ExprOk, ExprsOk;
    OneExprOk(c, e);
    SameExpr(c, env, s, e, fuel);
  }

  lemma {:induction false} SameLet<V, S>(c: Context<V, S>, env: Env<V>, s: S, ty: Option<Type>, init: Option<Expr>, fuel: nat)
    requires SourceOk(c) && TypesOk(c, OptionList(ty)) && ExprsOk(c, OptionList(init))
    ensures
      var ty' := if ty.Some? then Some(FlatType(Sigma(c), ty.value)) else None;
      var init' := if init.Some? then Some(FlatE(c, init.value)) else None;
      EvalLet(c, env, s, ty, init, fuel) == EvalLet(Target(c), env, s, ty', init', fuel)
    ensures ty.Some? ==> FlatTypes(Sigma(c), OptionList(ty)) == [FlatType(Sigma(c), ty.value)]
    ensures init.Some? ==> FlatEs(c, OptionList(init)) == [FlatE(c, init.value)]
    decreases fuel, ExprsSize(OptionList(init)), 0
  {
    hide Compiled, Covers, ClosedSubst, ExprOk, ExprsOk, TypesOk;
    if ty.Some? {
      SameShapeOf(c, ty.value, fuel);
      assert OptionList(ty)[1..] == [];
    }
    if init.Some? {
      assert OptionList(init) == [init.value];
      OptionSize(init);
      OneExprOk(c, init.value);
      SameExpr(c, env, s, init.value, fuel);
    }
  }

  lemma {:induction false} SameBlock<V, S>(c: Context<V, S>, env: Env<V>, s: S, b: Block, b': Block, fuel: nat)
    requires SourceOk(c) && StmtsOk(c, b.stmts) && b'.stmts == FlatSs(c, b.stmts)
    ensures ExecBlock(c, env, s, b, fuel) == ExecBlock(Target(c), env, s, b', fuel)
    decreases fuel, StmtsSize(b.stmts), 1
  {
    hide Compiled, Covers, ClosedSubst, StmtsOk;
    SameStmts(c, env, s, b.stmts, fuel);
  }

  lemma {:induction false} SameIf<V, S>(c: Context<V, S>, env: Env<V>, s: S, stmt: Stmt, fuel: nat)
    requires SourceOk(c) && StmtOk(c, stmt) && stmt.If?
    ensures ExecStmt(c, env, s, stmt, fuel) == ExecStmt(Target(c), env, s, FlatS(c, stmt), fuel)
    decreases fuel, StmtSize(stmt), 0
  {
    hide EvalExpr, ExecBlock, ExecStmts, ExecFor, ExecArm;
    hide Compiled, Covers, ClosedSubst, StmtOk, StmtsOk, ExprOk, ExprsOk, TypesOk, BlocksOk, FlatS, FlatSs, FlatE, FlatEs, FlatBlocks;
    SizeOfStmtParts(stmt);
    StmtPartsOk(c, stmt);
    SameOnly(c, env, s, stmt.cond, fuel);
    var blocks := StmtBlocks(stmt);
    BlockAtOk(c, blocks, 0);
    if stmt.els.Some? {
      BlockAtOk(c, blocks, 1);
    }
    var r := EvalExpr(c, env, s, stmt.cond, fuel);
    if r.Ended? {
      SameBlock(c, env, r.state, stmt.thn, FlatBlocks(Tpl(c), Sigma(c), blocks)[0], fuel);
      if stmt.els.Some? {
        SameBlock(c, env, r.state, stmt.els.value, FlatBlocks(Tpl(c), Sigma(c), blocks)[1], fuel);
      }
    }
  }

  lemma {:induction false} SameWhile<V, S>(c: Context<V, S>, env: Env<V>, s: S, stmt: Stmt, fuel: nat)
    requires SourceOk(c) && StmtOk(c, stmt) && stmt.While?
    ensures ExecStmt(c, env, s, stmt, fuel) == ExecStmt(Target(c), env, s, FlatS(c, stmt), fuel)
    decreases fuel, StmtSize(stmt), 0
  {
    hide EvalExpr, ExecBlock, ExecStmts, ExecFor, ExecArm;
    hide Compiled, Covers, ClosedSubst, StmtOk, StmtsOk, ExprOk, ExprsOk, TypesOk, BlocksOk, FlatS, FlatSs, FlatE, FlatEs, FlatBlocks;
    SizeOfStmtParts(stmt);
    StmtPartsOk(c, stmt);
    SameOnly(c, env, s, stmt.cond, fuel);
    BlockAtOk(c, StmtBlocks(stmt), 0);
    var r := EvalExpr(c, env, s, stmt.cond, fuel);
    if r.Ended? {
      SameBlock(c, env, r.state, stmt.body, FlatBlocks(Tpl(c), Sigma(c), StmtBlocks(stmt))[0], fuel);
      var flow := ExecBlock(c, env, r.state, stmt.body, fuel);
      if (flow.Next? || flow.Continued?) && fuel > 0 {
        SameStmt(c, env, flow.state, stmt, fuel - 1);
      }
    }
  }

  lemma {:induction false} SameForStmt<V, S>(c: Context<V, S>, env: Env<V>, s: S, stmt: Stmt, fuel: nat)
    requires SourceOk(c) && StmtOk(c, stmt) && stmt.For?
    ensures ExecStmt(c, env, s, stmt, fuel) == ExecStmt(Target(c), env, s, FlatS(c, stmt), fuel)
    decreases fuel, StmtSize(stmt), 0
  {
    hide EvalExpr, ExecBlock, ExecStmts, ExecFor, ExecArm;
    hide Compiled, Covers, ClosedSubst, StmtOk, StmtsOk, ExprOk, ExprsOk, TypesOk, BlocksOk, FlatS, FlatSs, FlatE, FlatEs, FlatBlocks;
    SizeOfStmtParts(stmt);
    StmtPartsOk(c, stmt);
    SameOnly(c, env, s, stmt.iter, fuel);
    BlockAtOk(c, StmtBlocks(stmt), 0);
    var r := EvalExpr(c, env, s, stmt.iter, fuel);
    if r.Ended? {
      var vs := c.machine.elements(r.value, r.state);
      if vs.Some? {
        SameFor(c, env, r.state, stmt.variable, vs.value, stmt.body, FlatBlocks(Tpl(c), Sigma(c), StmtBlocks(stmt))[0], fuel);
      }
    }
  }

  lemma {:induction false} SameFor<V, S>(c: Context<V, S>, env: Env<V>, s: S, variable: string, vs: seq<V>, body: Block, body': Block, fuel: nat)
    requires SourceOk(c) && StmtsOk(c, body.stmts) && body'.stmts == FlatSs(c, body.stmts)
    ensures ExecFor(c, env, s, variable, vs, body, fuel) == ExecFor(Target(c), env, s, variable, vs, body', fuel)
    decreases fuel, 1 + StmtsSize(body.stmts), 1 + |vs|
  {
    hide Compiled, Covers, ClosedSubst, StmtsOk;
    if vs != [] {
      var (place, s1) := c.machine.allocate(vs[0], s);
      SameStmts(c, env[variable := place], s1, body.stmts, fuel);
      var flow := ExecStmts(c, env[variable := place], s1, body.stmts, fuel);
      if flow.Next? || flow.Continued? {
        SameFor(c, env, flow.state, variable, vs[1..], body, body', fuel);
      }
    }
  }

  lemma {:induction false} SameSwitch<V, S>(c: Context<V, S>, env: Env<V>, s: S, stmt: Stmt, fuel: nat)
    requires SourceOk(c) && StmtOk(c, stmt) && stmt.Switch?
    ensures ExecStmt(c, env, s, stmt, fuel) == ExecStmt(Target(c), env, s, FlatS(c, stmt), fuel)
    decreases fuel, StmtSize(stmt), 0
  {
    hide EvalExpr, ExecBlock, ExecStmts, ExecFor, ExecArm;
    hide Compiled, Covers, ClosedSubst, StmtOk, StmtsOk, ExprOk, ExprsOk, TypesOk, BlocksOk, FlatS, FlatSs, FlatE, FlatEs, FlatBlocks;
    SizeOfStmtParts(stmt);
    StmtPartsOk(c, stmt);
    SameOnly(c, env, s, stmt.scrutinee, fuel);
    var r := EvalExpr(c, env, s, stmt.scrutinee, fuel);
    if r.Ended? {
      var chosen := c.machine.variant(r.value);
      if chosen.Some? {
        SameArm(c, env, r.state, stmt.arms, WithArmBodies(stmt.arms, FlatBlocks(Tpl(c), Sigma(c), ArmBodies(stmt.arms))),
                chosen.value.0, chosen.value.1, fuel);
      }
    }
  }

  lemma {:induction false} SameSelection(arms: seq<Arm>, arms': seq<Arm>, variant: string)
    requires |arms'| == |arms| && forall k | 0 <= k < |arms| :: arms'[k].pattern == arms[k].pattern
    ensures SelectArm(arms', variant) == SelectArm(arms, variant)
  {
    if arms != [] {
      SameSelection(arms[1..], arms'[1..], variant);
    }
  }

  lemma {:induction false} SameArm<V, S>(c: Context<V, S>, env: Env<V>, s: S, arms: seq<Arm>, arms': seq<Arm>, variant: string, payload: Option<V>, fuel: nat)
    requires SourceOk(c) && BlocksOk(c, ArmBodies(arms))
    requires arms' == WithArmBodies(arms, FlatBlocks(Tpl(c), Sigma(c), ArmBodies(arms)))
    ensures ExecArm(c, env, s, arms, variant, payload, fuel) == ExecArm(Target(c), env, s, arms', variant, payload, fuel)
    decreases fuel, BlocksSize(ArmBodies(arms)), 0
  {
    hide Compiled, Covers, ClosedSubst, StmtsOk, BlocksOk, FlatSs;
    SameSelection(arms, arms', variant);
    var k := SelectArm(arms, variant);
    if k < |arms| {
      BlockAtOk(c, ArmBodies(arms), k);
      assert arms'[k].body.stmts == FlatSs(c, arms[k].body.stmts) by {
        assert ArmBodies(arms')[k] == arms'[k].body;
      }
      var pattern := arms[k].pattern;
      if pattern.Variant? && pattern.binding.Some? {
        if payload.Some? {
          var (place, s1) := c.machine.allocate(payload.value, s);
          SameStmts(c, env[pattern.binding.value := place], s1, arms[k].body.stmts, fuel);
        }
      } else {
        SameBlock(c, env, s, arms[k].body, arms'[k].body, fuel);
      }
    }
  }

  // ---------------------------------------------------------------------------
  // The theorem
  // ---------------------------------------------------------------------------

  /** Running any function of a tidy generic program, on any machine, gives the same result, state
      and consumption of fuel as running it in the monomorphised program. */
  lemma MeaningPreserved<V, S>(items: seq<Item>, m: Machine<V, S>, name: string, vs: seq<V>, s: S, fuel: nat)
    requires Monomorphize(items).Ok? && Tidy(items) && !Reserved(name)
    ensures RunFunction(items, m, name, vs, s, fuel) == RunFunction(Monomorphize(items).value, m, name, vs, s, fuel)
  {
    hide Covers, Corresponds, Monomorphize, Tidy, Invoke;
    var c := Context(items, m, map[]);
    PlainCorresponds(c, name);
    if IsPlainFunction(items, name) {
      var f, g := FindFunction(items, name).value, FindFunction(Output(items), name).value;
      assert Bind([], []) == map[] && Inner(c, f, []) == c;
      SameInvoke(c, f, g, s, vs, fuel);
    }
  }
}
