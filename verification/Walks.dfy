/** Statements as semantic analysis and as code generation pass over them, with the declarations
    that are visible before every statement: in a stack of scopes, and in one flat map that is
    saved and restored around blocks. */
module Walks {
  import opened Ast
  import opened Wrappers
  import opened Scopes
  import opened Values
  import opened Sema
  import opened Source
  import opened Patterns

  /** A statement that was passed, and the declarations before it. */
  datatype Visit<E> = Visit(stmt: Stmt, env: E)

  /** The declarations after some statements, and the visits on the way. */
  datatype Walk<E> = Walk(env: E, visits: seq<Visit<E>>) | Rejected {
    predicate IsFailure() { Rejected? }

    function PropagateFailure<F>(): Walk<F>
      requires Rejected?
    {
      Rejected
    }

    function Extract(): (E, seq<Visit<E>>)
      requires Walk?
    {
      (env, visits)
    }
  }

  // ---------------------------------------------------------------------------
  // Semantic analysis
  // ---------------------------------------------------------------------------

  /** The scopes, innermost last, and the number of declarations so far. */
  datatype Scoped = Scoped(scopes: DeclScopes, next: nat)

  /** Only the innermost scope may differ. */
  predicate SameOuter(a: DeclScopes, b: DeclScopes) {
    |a| == |b| && Pop(a) == Pop(b)
  }

  function DeclareIn(env: Scoped, name: string, ty: Type): (w: Walk<Scoped>)
    ensures w.Walk? ==> SameOuter(env.scopes, w.env.scopes)
  {
    if env.scopes == [] || name in env.scopes[|env.scopes| - 1] then Rejected
    else Walk(Scoped(Declare(env.scopes, name, Local(ty, env.next)), env.next + 1), [])
  }

  function DeclareAllIn(env: Scoped, names: seq<string>, types: seq<Type>): (w: Walk<Scoped>)
    requires |names| == |types|
    ensures w.Walk? ==> SameOuter(env.scopes, w.env.scopes)
    decreases |names|
  {
    if names == [] then Walk(env, [])
    else
      var (env1, _) :- DeclareIn(env, names[0], types[0]);
      DeclareAllIn(env1, names[1..], types[1..])
  }

  function OpenScope(env: Scoped): Scoped {
    env.(scopes := env.scopes + [map[]])
  }

  /** The innermost scope goes out of sight. */
  function CloseScope(w: Walk<Scoped>): Walk<Scoped> {
    match w
    case Rejected => Rejected
    case Walk(env, visits) => Walk(env.(scopes := Pop(env.scopes)), visits)
  }

  predicate ExprChecks(t: Tables, scopes: DeclScopes, e: Expr, expected: Type) {
    var ty := CheckedType(t, scopes, e);
    ty.Some? && Assignable(ty.value, expected)
  }

  /** The type of the variable that a `let` declares. */
  function LetType(t: Tables, scopes: DeclScopes, ty: Option<Type>, init: Option<Expr>): Option<Type> {
    if init.None? then ty
    else if ty.None? then CheckedType(t, scopes, init.value)
    else if ExprChecks(t, scopes, init.value, ty.value) then ty
    else None
  }

  /** The type of the variable of a `for` loop. */
  function IterType(t: Tables, scopes: DeclScopes, iter: Expr): Option<Type> {
    var ty := CheckedType(t, scopes, iter);
    if ty.None? then None
    else if ty.value.Array? then Some(ty.value.element)
    else if IsRange(iter) then Some(Int)
    else None
  }

  predicate SimpleStmtChecks(t: Tables, ret: Type, depth: nat, scopes: DeclScopes, s: Stmt) {
    match s
    case Return(None) => ret == Void
    case Return(Some(e)) => ret != Void && ExprChecks(t, scopes, e, ret)
    case ExprStmt(e) => CheckedType(t, scopes, e).Some?
    case Defer(e) => CheckedType(t, scopes, e).Some?
    case Assign(name, e) =>
      var expected := VariableType(t, scopes, name);
      expected.Some? && ExprChecks(t, scopes, e, expected.value)
    case AssignIndex(place, e) =>
      var expected := CheckedType(t, scopes, place);
      expected.Some? && ExprChecks(t, scopes, e, expected.value)
    case Break => depth > 0
    case Continue => depth > 0
    case _ => false
  }

  function CheckStmt(t: Tables, ret: Type, depth: nat, env: Scoped, s: Stmt): (w: Walk<Scoped>)
    ensures w.Walk? ==> SameOuter(env.scopes, w.env.scopes)
    decreases s, 1
  {
    var (after, visits) :- CheckInner(t, ret, depth, env, s);
    Walk(after, [Visit(s, env)] + visits)
  }

  function CheckInner(t: Tables, ret: Type, depth: nat, env: Scoped, s: Stmt): (w: Walk<Scoped>)
    ensures w.Walk? ==> SameOuter(env.scopes, w.env.scopes)
    decreases s, 0
  {
    match s
    case Let(name, ty, init) =>
      var declared := LetType(t, env.scopes, ty, init);
      if declared.None? then Rejected else DeclareIn(env, name, declared.value)
    case LetTuple(names, source) =>
      var ty := CheckedType(t, env.scopes, source);
      if ty.None? || !ty.value.Tuple? || |ty.value.elements| != |names| then Rejected
      else DeclareAllIn(env, names, ty.value.elements)
    case If(cond, thn, els) =>
      if CheckedType(t, env.scopes, cond) != Some(Bool) then Rejected
      else
        var (env1, visits1) :- CheckBlock(t, ret, depth, env, thn);
        if els.None? then Walk(env1, visits1)
        else
          var (env2, visits2) :- CheckBlock(t, ret, depth, env1, els.value);
          Walk(env2, visits1 + visits2)
    case While(cond, body) =>
      if CheckedType(t, env.scopes, cond) != Some(Bool) then Rejected
      else CheckBlock(t, ret, depth + 1, env, body)
    case For(variable, iter, body) =>
      var element := IterType(t, env.scopes, iter);
      if element.None? then Rejected
      else
        var (inner, _) :- DeclareIn(OpenScope(env), variable, element.value);
        CloseScope(CheckStmts(t, ret, depth + 1, inner, body.stmts))
    case Switch(scrutinee, arms) =>
      var ty := CheckedType(t, env.scopes, scrutinee);
      if ty.None? || !ty.value.Named? || ty.value.name !in t.enums
         || !AcceptedSwitch(ty.value.name, t.enums[ty.value.name], arms) then Rejected
      else CheckArms(t, ret, depth, env, t.enums[ty.value.name], arms)
    case _ => if SimpleStmtChecks(t, ret, depth, env.scopes, s) then Walk(env, []) else Rejected
  }

  function CheckBlock(t: Tables, ret: Type, depth: nat, env: Scoped, b: Block): (w: Walk<Scoped>)
    ensures w.Walk? ==> w.env.scopes == env.scopes
    decreases b, 0
  {
    CloseScope(CheckStmts(t, ret, depth, OpenScope(env), b.stmts))
  }

  function CheckStmts(t: Tables, ret: Type, depth: nat, env: Scoped, ss: seq<Stmt>): (w: Walk<Scoped>)
    ensures w.Walk? ==> SameOuter(env.scopes, w.env.scopes)
    decreases ss, 0
  {
    if ss == [] then Walk(env, [])
    else
      var (env1, visits1) :- CheckStmt(t, ret, depth, env, ss[0]);
      var (env2, visits2) :- CheckStmts(t, ret, depth, env1, ss[1..]);
      Walk(env2, visits1 + visits2)
  }

  /** The bodies of the arms. */
  function CheckArms(t: Tables, ret: Type, depth: nat, env: Scoped, variants: seq<EnumVariant>, arms: seq<Arm>): (w: Walk<Scoped>)
    ensures w.Walk? ==> w.env.scopes == env.scopes
    decreases arms, 0
  {
    if arms == [] then Walk(env, [])
    else
      var (env1, visits1) :- CheckArm(t, ret, depth, env, variants, arms[0]);
      var (env2, visits2) :- CheckArms(t, ret, depth, env1, variants, arms[1..]);
      Walk(env2, visits1 + visits2)
  }

  /** The variable of a pattern and its type, if the pattern fits its variant. */
  function Binding(variants: seq<EnumVariant>, p: Pattern): Option<Option<Param>> {
    if p.Wildcard? then Some(None)
    else
      var index := VariantIndex(variants, p.variant);
      if index.None? || (variants[index.value].payload.Some? != p.binding.Some?) then None
      else if p.binding.None? then Some(None)
      else Some(Some(Param(p.binding.value, variants[index.value].payload.value)))
  }

  function CheckArm(t: Tables, ret: Type, depth: nat, env: Scoped, variants: seq<EnumVariant>, arm: Arm): (w: Walk<Scoped>)
    ensures w.Walk? ==> w.env.scopes == env.scopes
    decreases arm, 0
  {
    var binding := Binding(variants, arm.pattern);
    if binding.None? then Rejected
    else
      var (inner, _) :- (
        if binding.value.None? then Walk(OpenScope(env), [])
        else DeclareIn(OpenScope(env), binding.value.value.name, binding.value.value.ty));
      CloseScope(CheckStmts(t, ret, depth, inner, arm.body.stmts))
  }

  // ---------------------------------------------------------------------------
  // Code generation
  // ---------------------------------------------------------------------------

  /** The visible names, and the number of declarations so far. */
  datatype Flat = Flat(vars: map<string, Decl>, next: nat)

  function Insert(env: Flat, name: string, ty: Type): Flat {
    Flat(env.vars[name := Local(ty, env.next)], env.next + 1)
  }

  /** Names and types in parallel, as far as both go. */
  function InsertAll(env: Flat, names: seq<string>, types: seq<Type>): Flat
    decreases |names|
  {
    if names == [] || types == [] then env
    else InsertAll(Insert(env, names[0], types[0]), names[1..], types[1..])
  }

  /** The names from before a block. */
  function Restore(saved: Flat, w: Walk<Flat>): Walk<Flat> {
    match w
    case Rejected => Rejected
    case Walk(env, visits) => Walk(env.(vars := saved.vars), visits)
  }

  function GenerateStmt(t: Tables, env: Flat, s: Stmt): Walk<Flat>
    decreases s, 1
  {
    var (after, visits) :- GenerateInner(t, env, s);
    Walk(after, [Visit(s, env)] + visits)
  }

  function GenerateInner(t: Tables, env: Flat, s: Stmt): Walk<Flat>
    decreases s, 0
  {
    match s
    case Let(name, ty, init) =>
      var declared := if ty.Some? then ty else if init.Some? then TypeofExpr(t, env.vars, init.value) else None;
      if declared.None? then Rejected else Walk(Insert(env, name, declared.value), [])
    case LetTuple(names, source) =>
      var ty := TypeofExpr(t, env.vars, source);
      if ty.None? || !ty.value.Tuple? then Rejected else Walk(InsertAll(env, names, ty.value.elements), [])
    case If(cond, thn, els) =>
      if TypeofExpr(t, env.vars, cond) != Some(Bool) then Rejected
      else
        var (env1, visits1) :- GenerateBlock(t, env, thn);
        if els.None? then Walk(env1, visits1)
        else
          var (env2, visits2) :- GenerateBlock(t, env1, els.value);
          Walk(env2, visits1 + visits2)
    case While(cond, body) =>
      if TypeofExpr(t, env.vars, cond) != Some(Bool) then Rejected else GenerateBlock(t, env, body)
    case For(variable, iter, body) =>
      var ty := TypeofExpr(t, env.vars, iter);
      if ty.None? || (!ty.value.Array? && !IsRange(iter)) then Rejected
      else
        var element := if ty.value.Array? then ty.value.element else Int;
        Restore(env, GenerateStmts(t, Insert(env, variable, element), body.stmts))
    case Switch(scrutinee, arms) =>
      var ty := TypeofExpr(t, env.vars, scrutinee);
      if ty.None? || !ty.value.Named? || ty.value.name !in t.enums then Rejected
      else GenerateArms(t, env, t.enums[ty.value.name], arms)
    case _ => Walk(env, [])
  }

  function GenerateBlock(t: Tables, env: Flat, b: Block): Walk<Flat>
    decreases b, 0
  {
    Restore(env, GenerateStmts(t, env, b.stmts))
  }

  function GenerateStmts(t: Tables, env: Flat, ss: seq<Stmt>): Walk<Flat>
    decreases ss, 0
  {
    if ss == [] then Walk(env, [])
    else
      var (env1, visits1) :- GenerateStmt(t, env, ss[0]);
      var (env2, visits2) :- GenerateStmts(t, env1, ss[1..]);
      Walk(env2, visits1 + visits2)
  }

  function GenerateArms(t: Tables, env: Flat, variants: seq<EnumVariant>, arms: seq<Arm>): Walk<Flat>
    decreases arms, 0
  {
    if arms == [] then Walk(env, [])
    else
      var (env1, visits1) :- GenerateArm(t, env, variants, arms[0]);
      var (env2, visits2) :- GenerateArms(t, env1, variants, arms[1..]);
      Walk(env2, visits1 + visits2)
  }

  function GenerateArm(t: Tables, env: Flat, variants: seq<EnumVariant>, arm: Arm): Walk<Flat>
    decreases arm, 0
  {
    var p := arm.pattern;
    if p.Wildcard? || p.binding.None? then Restore(env, GenerateStmts(t, env, arm.body.stmts))
    else
      var index := VariantIndex(variants, p.variant);
      if index.None? || variants[index.value].payload.None? then Rejected
      else
        Restore(env, GenerateStmts(t, Insert(env, p.binding.value, variants[index.value].payload.value), arm.body.stmts))
  }

  // ---------------------------------------------------------------------------
  // Functions
  // ---------------------------------------------------------------------------

  function ParamNames(params: seq<Param>): seq<string> {
    seq(|params|, i requires 0 <= i < |params| => params[i].name)
  }

  /** Parameters and body share a scope. */
  function CheckFunction(t: Tables, fn: Function): Walk<Scoped> {
    var (env, _) :- DeclareAllIn(Scoped([map[]], 0), ParamNames(fn.proto.params), ParamTypes(fn.proto.params));
    CheckStmts(t, fn.proto.ret, 0, env, fn.body.stmts)
  }

  /** What is left of the names after the function before: those of statics. */
  function Retained(t: Tables, vars: map<string, Decl>): map<string, Decl> {
    map x | x in vars && x in t.globals :: vars[x]
  }

  function GenerateFunction(t: Tables, vars: map<string, Decl>, fn: Function): Walk<Flat> {
    var start := Flat(Retained(t, vars), 0);
    GenerateStmts(t, InsertAll(start, ParamNames(fn.proto.params), ParamTypes(fn.proto.params)), fn.body.stmts)
  }
}
