/** The flat map refines the stack of scopes: before every statement of an accepted function, both
    show the same declaration for every name. */
module WalksAgree {
  import opened Ast
  import opened Wrappers
  import opened Scopes
  import opened Values
  import opened Sema
  import opened SemaAgrees
  import opened Walks
  import opened Patterns

  ghost predicate Agree(t: Tables, env: Scoped, flat: Flat) {
    env.scopes != [] && env.next == flat.next && Mirrors(t, env.scopes, flat.vars)
    && forall k | 0 <= k < |env.scopes| :: AllLocal(env.scopes[k])
  }

  predicate AllLocal(scope: map<string, Decl>) {
    forall x | x in scope :: scope[x].Local?
  }

  /** The same statements were passed, with agreeing declarations. */
  ghost predicate VisitsAgree(t: Tables, visits: seq<Visit<Scoped>>, flats: seq<Visit<Flat>>) {
    |visits| == |flats| &&
    forall i | 0 <= i < |visits| :: visits[i].stmt == flats[i].stmt && Agree(t, visits[i].env, flats[i].env)
  }

  /** On the way, no function pointer had the name of a function. */
  ghost predicate AllApart(t: Tables, visits: seq<Visit<Scoped>>) {
    forall i | 0 <= i < |visits| :: PointersApart(t, visits[i].env.scopes)
  }

  /** The walk of code generation against that of semantic analysis, started in `env`. */
  ghost predicate WalkAgrees(t: Tables, env: Scoped, w: Walk<Scoped>, f: Walk<Flat>) {
    w.Walk? && f.Walk? && Agree(t, w.env, f.env) && VisitsAgree(t, w.visits, f.visits) && SameOuter(env.scopes, w.env.scopes)
  }

  // ---------------------------------------------------------------------------
  // Declarations
  // ---------------------------------------------------------------------------

  lemma DeclareAgrees(t: Tables, env: Scoped, flat: Flat, name: string, ty: Type)
    requires Agree(t, env, flat) && DeclareIn(env, name, ty).Walk?
    ensures Agree(t, DeclareIn(env, name, ty).env, Insert(flat, name, ty))
    ensures SameOuter(env.scopes, DeclareIn(env, name, ty).env.scopes)
  {
    var after := DeclareIn(env, name, ty).env;
    forall x: string ensures
      Visible(t, after.scopes, x) == if x in Insert(flat, name, ty).vars then Some(Insert(flat, name, ty).vars[x]) else None
    {
      LookupDeclared(env.scopes, name, Local(ty, env.next), x);
      VisibleMirrored(t, env.scopes, flat.vars, x);
    }
  }

  lemma {:induction false} DeclareAllAgrees(t: Tables, env: Scoped, flat: Flat, names: seq<string>, types: seq<Type>)
    requires Agree(t, env, flat) && |names| == |types| && DeclareAllIn(env, names, types).Walk?
    ensures Agree(t, DeclareAllIn(env, names, types).env, InsertAll(flat, names, types))
    ensures DeclareAllIn(env, names, types).visits == []
    ensures SameOuter(env.scopes, DeclareAllIn(env, names, types).env.scopes)
    decreases |names|
  {
    hide Mirrors, DeclareIn, Insert;
    if names != [] {
      DeclareAgrees(t, env, flat, names[0], types[0]);
      DeclareAllAgrees(t, DeclareIn(env, names[0], types[0]).env, Insert(flat, names[0], types[0]), names[1..], types[1..]);
    }
  }

  lemma OpenAgrees(t: Tables, env: Scoped, flat: Flat)
    requires Agree(t, env, flat)
    ensures Agree(t, OpenScope(env), flat)
  {
    forall x: string ensures Visible(t, OpenScope(env).scopes, x) == if x in flat.vars then Some(flat.vars[x]) else None {
      LookupPushed(env.scopes, x);
      VisibleMirrored(t, env.scopes, flat.vars, x);
    }
  }

  /** Closing a scope and restoring the map lead back to where the block began. */
  lemma CloseAgrees(t: Tables, env: Scoped, flat: Flat, inner: Scoped, w: Walk<Scoped>, f: Walk<Flat>)
    requires Agree(t, env, flat) && SameOuter(OpenScope(env).scopes, inner.scopes) && WalkAgrees(t, inner, w, f)
    ensures WalkAgrees(t, env, CloseScope(w), Restore(flat, f))
  {
    hide Mirrors;
    assert Pop(OpenScope(env).scopes) == env.scopes;
  }

  lemma JoinAgrees(t: Tables, env: Scoped, w1: Walk<Scoped>, f1: Walk<Flat>, w2: Walk<Scoped>, f2: Walk<Flat>)
    requires WalkAgrees(t, env, w1, f1) && WalkAgrees(t, w1.env, w2, f2)
    ensures WalkAgrees(t, env, Walk(w2.env, w1.visits + w2.visits), Walk(f2.env, f1.visits + f2.visits))
  {
    hide Mirrors;
  }

  lemma ApartParts(t: Tables, a: seq<Visit<Scoped>>, b: seq<Visit<Scoped>>)
    requires AllApart(t, a + b)
    ensures AllApart(t, a) && AllApart(t, b)
  {
    forall i | 0 <= i < |a| ensures PointersApart(t, a[i].env.scopes) {
      assert a[i] == (a + b)[i];
    }
    forall i | 0 <= i < |b| ensures PointersApart(t, b[i].env.scopes) {
      assert b[i] == (a + b)[|a| + i];
    }
  }

  // ---------------------------------------------------------------------------
  // Statements
  // ---------------------------------------------------------------------------

  lemma {:induction false} StmtAgrees(t: Tables, ret: Type, depth: nat, env: Scoped, flat: Flat, s: Stmt)
    requires Agree(t, env, flat) && CheckStmt(t, ret, depth, env, s).Walk?
    requires AllApart(t, CheckStmt(t, ret, depth, env, s).visits)
    ensures WalkAgrees(t, env, CheckStmt(t, ret, depth, env, s), GenerateStmt(t, flat, s))
    decreases s, 2
  {
    hide Mirrors, CheckInner, GenerateInner, PointersApart;
    var w := CheckInner(t, ret, depth, env, s);
    ApartParts(t, [Visit(s, env)], w.visits);
    assert PointersApart(t, [Visit(s, env)][0].env.scopes);
    InnerAgrees(t, ret, depth, env, flat, s);
    OneVisit(t, env, flat, s, w, GenerateInner(t, flat, s));
  }

  lemma OneVisit(t: Tables, env: Scoped, flat: Flat, s: Stmt, w: Walk<Scoped>, f: Walk<Flat>)
    requires Agree(t, env, flat) && WalkAgrees(t, env, w, f)
    ensures WalkAgrees(t, env, Walk(w.env, [Visit(s, env)] + w.visits), Walk(f.env, [Visit(s, flat)] + f.visits))
  {
    hide Mirrors;
  }

  lemma {:induction false} InnerAgrees(t: Tables, ret: Type, depth: nat, env: Scoped, flat: Flat, s: Stmt)
    requires Agree(t, env, flat) && PointersApart(t, env.scopes) && CheckInner(t, ret, depth, env, s).Walk?
    requires AllApart(t, CheckInner(t, ret, depth, env, s).visits)
    ensures WalkAgrees(t, env, CheckInner(t, ret, depth, env, s), GenerateInner(t, flat, s))
    decreases s, 1
  {
    hide Mirrors, PointersApart, CheckedType, TypeofExpr, CheckBlock, GenerateBlock, CheckArms, GenerateArms, DeclareIn, Insert, Assignable,
      SimpleStmtChecks, AllApart, AcceptedSwitch;
    if s.Let? {
      LetAgrees(t, ret, depth, env, flat, s);
    } else if s.LetTuple? {
      TypesAgree(t, env.scopes, flat.vars, s.source);
      var types := CheckedType(t, env.scopes, s.source).value.elements;
      DeclareAllAgrees(t, env, flat, s.names, types);
      NoVisits(t, env, DeclareAllIn(env, s.names, types), InsertAll(flat, s.names, types));
    } else if s.If? {
      IfAgrees(t, ret, depth, env, flat, s);
    } else if s.While? {
      TypesAgree(t, env.scopes, flat.vars, s.cond);
      BlockAgrees(t, ret, depth + 1, env, flat, s.body);
    } else if s.For? {
      ForAgrees(t, ret, depth, env, flat, s);
    } else if s.Switch? {
      TypesAgree(t, env.scopes, flat.vars, s.scrutinee);
      ArmsAgree(t, ret, depth, env, flat, t.enums[CheckedType(t, env.scopes, s.scrutinee).value.name], s.arms);
    }
  }

  lemma NoVisits(t: Tables, env: Scoped, w: Walk<Scoped>, flat: Flat)
    requires w.Walk? && Agree(t, w.env, flat) && SameOuter(env.scopes, w.env.scopes)
    ensures w.visits == [] ==> WalkAgrees(t, env, w, Walk(flat, []))
  {
  }

  lemma LetAgrees(t: Tables, ret: Type, depth: nat, env: Scoped, flat: Flat, s: Stmt)
    requires s.Let? && Agree(t, env, flat) && PointersApart(t, env.scopes) && CheckInner(t, ret, depth, env, s).Walk?
    ensures WalkAgrees(t, env, CheckInner(t, ret, depth, env, s), GenerateInner(t, flat, s))
  {
    hide Mirrors, PointersApart, CheckedType, TypeofExpr, Insert, Assignable;
    if s.init.Some? {
      TypesAgree(t, env.scopes, flat.vars, s.init.value);
    }
    DeclareAgrees(t, env, flat, s.name, LetType(t, env.scopes, s.ty, s.init).value);
  }

  lemma {:induction false} IfAgrees(t: Tables, ret: Type, depth: nat, env: Scoped, flat: Flat, s: Stmt)
    requires s.If? && Agree(t, env, flat) && PointersApart(t, env.scopes) && CheckInner(t, ret, depth, env, s).Walk?
    requires AllApart(t, CheckInner(t, ret, depth, env, s).visits)
    ensures WalkAgrees(t, env, CheckInner(t, ret, depth, env, s), GenerateInner(t, flat, s))
    decreases s, 0
  {
    hide Mirrors, PointersApart, CheckedType, TypeofExpr, CheckBlock, GenerateBlock, AllApart;
    TypesAgree(t, env.scopes, flat.vars, s.cond);
    var w1, f1 := CheckBlock(t, ret, depth, env, s.thn), GenerateBlock(t, flat, s.thn);
    if s.els.None? {
      BlockAgrees(t, ret, depth, env, flat, s.thn);
    } else {
      var w2 := CheckBlock(t, ret, depth, w1.env, s.els.value);
      ApartParts(t, w1.visits, w2.visits);
      BlockAgrees(t, ret, depth, env, flat, s.thn);
      BlockAgrees(t, ret, depth, w1.env, f1.env, s.els.value);
      JoinAgrees(t, env, w1, f1, w2, GenerateBlock(t, f1.env, s.els.value));
    }
  }

  lemma {:induction false} BlockAgrees(t: Tables, ret: Type, depth: nat, env: Scoped, flat: Flat, b: Block)
    requires Agree(t, env, flat) && CheckBlock(t, ret, depth, env, b).Walk?
    requires AllApart(t, CheckBlock(t, ret, depth, env, b).visits)
    ensures WalkAgrees(t, env, CheckBlock(t, ret, depth, env, b), GenerateBlock(t, flat, b))
    decreases b, 0
  {
    hide Mirrors, CheckStmts, GenerateStmts, AllApart;
    OpenAgrees(t, env, flat);
    StmtsAgree(t, ret, depth, OpenScope(env), flat, b.stmts);
    CloseAgrees(t, env, flat, OpenScope(env), CheckStmts(t, ret, depth, OpenScope(env), b.stmts), GenerateStmts(t, flat, b.stmts));
  }

  lemma {:induction false} ForAgrees(t: Tables, ret: Type, depth: nat, env: Scoped, flat: Flat, s: Stmt)
    requires s.For? && Agree(t, env, flat) && PointersApart(t, env.scopes) && CheckInner(t, ret, depth, env, s).Walk?
    requires AllApart(t, CheckInner(t, ret, depth, env, s).visits)
    ensures WalkAgrees(t, env, CheckInner(t, ret, depth, env, s), GenerateInner(t, flat, s))
    decreases s, 0
  {
    hide Mirrors, PointersApart, CheckedType, TypeofExpr, CheckStmts, GenerateStmts, AllApart, DeclareIn, Insert;
    TypesAgree(t, env.scopes, flat.vars, s.iter);
    var element := IterType(t, env.scopes, s.iter).value;
    OpenAgrees(t, env, flat);
    DeclareAgrees(t, OpenScope(env), flat, s.variable, element);
    var inner, innerFlat := DeclareIn(OpenScope(env), s.variable, element).env, Insert(flat, s.variable, element);
    StmtsAgree(t, ret, depth + 1, inner, innerFlat, s.body.stmts);
    CloseAgrees(t, env, flat, inner, CheckStmts(t, ret, depth + 1, inner, s.body.stmts), GenerateStmts(t, innerFlat, s.body.stmts));
  }

  lemma {:induction false} StmtsAgree(t: Tables, ret: Type, depth: nat, env: Scoped, flat: Flat, ss: seq<Stmt>)
    requires Agree(t, env, flat) && CheckStmts(t, ret, depth, env, ss).Walk?
    requires AllApart(t, CheckStmts(t, ret, depth, env, ss).visits)
    ensures WalkAgrees(t, env, CheckStmts(t, ret, depth, env, ss), GenerateStmts(t, flat, ss))
    decreases ss, 0
  {
    hide Mirrors, CheckStmt, GenerateStmt, AllApart;
    if ss != [] {
      var w1, f1 := CheckStmt(t, ret, depth, env, ss[0]), GenerateStmt(t, flat, ss[0]);
      var w2 := CheckStmts(t, ret, depth, w1.env, ss[1..]);
      ApartParts(t, w1.visits, w2.visits);
      StmtAgrees(t, ret, depth, env, flat, ss[0]);
      StmtsAgree(t, ret, depth, w1.env, f1.env, ss[1..]);
      JoinAgrees(t, env, w1, f1, w2, GenerateStmts(t, f1.env, ss[1..]));
    }
  }

  lemma {:induction false} ArmsAgree(
    t: Tables, ret: Type, depth: nat, env: Scoped, flat: Flat, variants: seq<EnumVariant>, arms: seq<Arm>)
    requires Agree(t, env, flat) && CheckArms(t, ret, depth, env, variants, arms).Walk?
    requires AllApart(t, CheckArms(t, ret, depth, env, variants, arms).visits)
    ensures WalkAgrees(t, env, CheckArms(t, ret, depth, env, variants, arms), GenerateArms(t, flat, variants, arms))
    decreases arms, 0
  {
    hide Mirrors, CheckArm, GenerateArm, AllApart;
    if arms != [] {
      var w1, f1 := CheckArm(t, ret, depth, env, variants, arms[0]), GenerateArm(t, flat, variants, arms[0]);
      var w2 := CheckArms(t, ret, depth, w1.env, variants, arms[1..]);
      ApartParts(t, w1.visits, w2.visits);
      ArmAgrees(t, ret, depth, env, flat, variants, arms[0]);
      ArmsAgree(t, ret, depth, w1.env, f1.env, variants, arms[1..]);
      JoinAgrees(t, env, w1, f1, w2, GenerateArms(t, f1.env, variants, arms[1..]));
    }
  }

  lemma {:induction false} ArmAgrees(
    t: Tables, ret: Type, depth: nat, env: Scoped, flat: Flat, variants: seq<EnumVariant>, arm: Arm)
    requires Agree(t, env, flat) && CheckArm(t, ret, depth, env, variants, arm).Walk?
    requires AllApart(t, CheckArm(t, ret, depth, env, variants, arm).visits)
    ensures WalkAgrees(t, env, CheckArm(t, ret, depth, env, variants, arm), GenerateArm(t, flat, variants, arm))
    decreases arm, 0
  {
    hide Mirrors, CheckStmts, GenerateStmts, AllApart, DeclareIn, Insert, VariantIndex;
    OpenAgrees(t, env, flat);
    var binding := Binding(variants, arm.pattern).value;
    var inner, innerFlat := OpenScope(env), flat;
    if binding.Some? {
      DeclareAgrees(t, OpenScope(env), flat, binding.value.name, binding.value.ty);
      inner, innerFlat := DeclareIn(OpenScope(env), binding.value.name, binding.value.ty).env,
                          Insert(flat, binding.value.name, binding.value.ty);
    }
    StmtsAgree(t, ret, depth, inner, innerFlat, arm.body.stmts);
    CloseAgrees(t, env, flat, inner, CheckStmts(t, ret, depth, inner, arm.body.stmts), GenerateStmts(t, innerFlat, arm.body.stmts));
  }

  // ---------------------------------------------------------------------------
  // Functions
  // ---------------------------------------------------------------------------

  /** The flat map knows the statics, and what else it holds has no static's name. */
  ghost predicate StaticsIntact(t: Tables, vars: map<string, Decl>) {
    forall x: string | x in t.globals :: x in vars && vars[x] == Global(t.globals[x])
  }

  /** In an accepted function, every statement is passed with agreeing declarations. */
  lemma FunctionAgrees(t: Tables, vars: map<string, Decl>, fn: Function)
    requires StaticsIntact(t, vars) && CheckFunction(t, fn).Walk? && AllApart(t, CheckFunction(t, fn).visits)
    ensures GenerateFunction(t, vars, fn).Walk?
    ensures VisitsAgree(t, CheckFunction(t, fn).visits, GenerateFunction(t, vars, fn).visits)
  {
    hide Mirrors, CheckStmts, GenerateStmts, AllApart, DeclareAllIn, InsertAll;
    var env, flat := Scoped([map[]], 0), Flat(Retained(t, vars), 0);
    StartAgrees(t, vars);
    var names, types := ParamNames(fn.proto.params), ParamTypes(fn.proto.params);
    DeclareAllAgrees(t, env, flat, names, types);
    StmtsAgree(t, fn.proto.ret, 0, DeclareAllIn(env, names, types).env, InsertAll(flat, names, types), fn.body.stmts);
  }

  lemma StartAgrees(t: Tables, vars: map<string, Decl>)
    requires StaticsIntact(t, vars)
    ensures Agree(t, Scoped([map[]], 0), Flat(Retained(t, vars), 0))
  {
    forall x: string ensures
      Visible(t, [map[]], x) == if x in Retained(t, vars) then Some(Retained(t, vars)[x]) else None
    {
      var none: DeclScopes := [];
      LookupPushed(none, x);
      assert none + [map[]] == [map[]];
    }
  }

  /** The names of the statics survive a function exactly if its outermost scope, that of the
      parameters, declares none of them. */
  lemma StaticsIntactIff(t: Tables, vars: map<string, Decl>, fn: Function)
    requires StaticsIntact(t, vars) && CheckFunction(t, fn).Walk? && AllApart(t, CheckFunction(t, fn).visits)
    ensures GenerateFunction(t, vars, fn).Walk? && |CheckFunction(t, fn).env.scopes| == 1
    ensures StaticsIntact(t, GenerateFunction(t, vars, fn).env.vars) <==>
      forall x | x in t.globals :: x !in CheckFunction(t, fn).env.scopes[0]
  {
    hide Mirrors, CheckStmts, GenerateStmts, AllApart, DeclareAllIn, InsertAll;
    var env, flat := Scoped([map[]], 0), Flat(Retained(t, vars), 0);
    StartAgrees(t, vars);
    var names, types := ParamNames(fn.proto.params), ParamTypes(fn.proto.params);
    DeclareAllAgrees(t, env, flat, names, types);
    StmtsAgree(t, fn.proto.ret, 0, DeclareAllIn(env, names, types).env, InsertAll(flat, names, types), fn.body.stmts);
    OuterNames(t, CheckFunction(t, fn).env, GenerateFunction(t, vars, fn).env);
  }

  lemma OuterNames(t: Tables, env: Scoped, flat: Flat)
    requires Agree(t, env, flat) && |env.scopes| == 1
    ensures StaticsIntact(t, flat.vars) <==> forall x | x in t.globals :: x !in env.scopes[0]
  {
    forall x: string | x in t.globals
      ensures (x in flat.vars && flat.vars[x] == Global(t.globals[x])) <==> x !in env.scopes[0]
    {
      VisibleMirrored(t, env.scopes, flat.vars, x);
      assert env.scopes[..0] == [] && AllLocal(env.scopes[0]);
    }
  }

  // ---------------------------------------------------------------------------
  // Programs
  // ---------------------------------------------------------------------------

  /** The walks of code generation over functions in order; each starts from what the one before
      left. */
  function GenerateAll(t: Tables, vars: map<string, Decl>, fns: seq<Function>): Option<seq<Walk<Flat>>>
    decreases |fns|
  {
    if fns == [] then Some([])
    else
      var first := GenerateFunction(t, vars, fns[0]);
      if first.Rejected? then None
      else
        var rest := GenerateAll(t, first.env.vars, fns[1..]);
        if rest.None? then None else Some([first] + rest.value)
  }

  /** No parameter or local of the outermost scope has the name of a static. */
  ghost predicate NoStaticHidden(t: Tables, fn: Function) {
    var w := CheckFunction(t, fn);
    w.Walk? && |w.env.scopes| == 1 && forall x | x in t.globals :: x !in w.env.scopes[0]
  }

  /** In an accepted program without hidden statics, every statement of every function is passed
      with agreeing declarations. */
  lemma {:induction false} ProgramAgrees(t: Tables, vars: map<string, Decl>, fns: seq<Function>)
    requires StaticsIntact(t, vars)
    requires forall i | 0 <= i < |fns| ::
      CheckFunction(t, fns[i]).Walk? && AllApart(t, CheckFunction(t, fns[i]).visits) && NoStaticHidden(t, fns[i])
    ensures
      var walks := GenerateAll(t, vars, fns);
      walks.Some? && |walks.value| == |fns|
      && forall i | 0 <= i < |fns| ::
           walks.value[i].Walk? && VisitsAgree(t, CheckFunction(t, fns[i]).visits, walks.value[i].visits)
    decreases |fns|
  {
    hide CheckFunction, GenerateFunction, AllApart, StaticsIntact;
    if fns != [] {
      assert CheckFunction(t, fns[0]).Walk?;
      FunctionAgrees(t, vars, fns[0]);
      StaticsIntactIff(t, vars, fns[0]);
      ProgramAgrees(t, GenerateFunction(t, vars, fns[0]).env.vars, fns[1..]);
    }
  }
}
