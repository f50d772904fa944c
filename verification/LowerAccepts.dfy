/** Which accepted functions are lowered: all but those with an implicit conversion that would cut off a
    64-bit number. */
module LowerAccepts {
  import opened Ast
  import opened Wrappers
  import opened Values
  import opened Scopes
  import opened Source
  import opened Control
  import opened Patterns
  import opened Sema
  import opened SemaAgrees
  import opened Walks
  import opened Supported
  import opened Graph
  import opened Lower
  import opened SwitchCheck

  // ---------------------------------------------------------------------------
  // Implicit conversions
  // ---------------------------------------------------------------------------

  /** A number of 64 bits where one of 8 or 16 is wanted. */
  predicate Narrows(source: Type, target: Type) {
    source == U64 && target in {U8, U16}
  }

  /** The expression is converted to `target`, or some part of it to another type, from 64 bits to 8 or
      16. */
  predicate NarrowsAs(t: Tables, scopes: DeclScopes, e: Expr, target: Type)
    decreases e, 1
  {
    NarrowsIn(t, scopes, e) || (CheckedType(t, scopes, e).Some? && Narrows(CheckedType(t, scopes, e).value, target))
  }

  /** Arguments are converted to the types of parameters, and payloads to those of their variants. */
  predicate NarrowsIn(t: Tables, scopes: DeclScopes, e: Expr)
    decreases e, 0
  {
    match e
    case Binary(_, lhs, rhs) => NarrowsIn(t, scopes, lhs) || NarrowsIn(t, scopes, rhs)
    case Unary(_, operand) => NarrowsIn(t, scopes, operand)
    case Call(callee, _, args) => callee in t.functions && SomeNarrows(t, scopes, args, t.functions[callee].params)
    case MethodCall(receiver, variant, _, args) =>
      receiver.Var? && receiver.name in t.enums && SomeNarrows(t, scopes, args, PayloadTypes(t.enums[receiver.name], variant))
    case _ => false
  }

  predicate SomeNarrows(t: Tables, scopes: DeclScopes, es: seq<Expr>, targets: seq<Type>)
    decreases es, 0
  {
    es != [] && targets != [] &&
    (NarrowsAs(t, scopes, es[0], targets[0]) || SomeNarrows(t, scopes, es[1..], targets[1..]))
  }

  function PayloadTypes(variants: seq<EnumVariant>, variant: string): seq<Type> {
    var i := VariantIndex(variants, variant);
    if i.Some? && variants[i.value].payload.Some? then [variants[i.value].payload.value] else []
  }

  /** A conversion in the statement itself: to the return type, to a declared type, or inside one of its
      expressions. */
  predicate NarrowsHere(t: Tables, ret: Type, scopes: DeclScopes, s: Stmt) {
    match s
    case Return(e) => e.Some? && NarrowsAs(t, scopes, e.value, ret)
    case ExprStmt(e) => NarrowsIn(t, scopes, e)
    case Let(_, ty, init) => ty.Some? && init.Some? && NarrowsAs(t, scopes, init.value, ty.value)
    case Assign(x, e) => VariableType(t, scopes, x).Some? && NarrowsAs(t, scopes, e, VariableType(t, scopes, x).value)
    case If(cond, _, _) => NarrowsIn(t, scopes, cond)
    case While(cond, _) => NarrowsIn(t, scopes, cond)
    case For(_, iter, _) => IsRange(iter) && NarrowsIn(t, scopes, iter.args[0])
    case Switch(scrutinee, _) => NarrowsIn(t, scopes, scrutinee)
    case _ => false
  }

  ghost predicate NoneNarrows(t: Tables, ret: Type, visits: seq<Visit<Scoped>>) {
    forall i | 0 <= i < |visits| :: !NarrowsHere(t, ret, visits[i].env.scopes, visits[i].stmt)
  }

  lemma NarrowParts(t: Tables, ret: Type, a: seq<Visit<Scoped>>, b: seq<Visit<Scoped>>)
    ensures NoneNarrows(t, ret, a + b) <==> NoneNarrows(t, ret, a) && NoneNarrows(t, ret, b)
  {
    hide NarrowsHere;
    if NoneNarrows(t, ret, a + b) {
      forall i | 0 <= i < |a| ensures !NarrowsHere(t, ret, a[i].env.scopes, a[i].stmt) {
        assert a[i] == (a + b)[i];
      }
      forall i | 0 <= i < |b| ensures !NarrowsHere(t, ret, b[i].env.scopes, b[i].stmt) {
        assert b[i] == (a + b)[|a| + i];
      }
    }
  }

  // ---------------------------------------------------------------------------
  // Names and types
  // ---------------------------------------------------------------------------

  /** The names of the lowering are those in scope, with the same types, all of them of values. */
  ghost predicate Shows(u: Unit, names: map<string, Entry>, t: Tables, scopes: DeclScopes) {
    forall x: string ::
      var entry, ty := Resolve(u, names, x), VariableType(t, scopes, x);
      (entry.Some? <==> ty.Some?) && (ty.Some? ==> entry.value.ty == ty.value && IsValueType(t.enums, ty.value))
  }

  lemma ShownName(u: Unit, names: map<string, Entry>, t: Tables, scopes: DeclScopes, x: string)
    requires Shows(u, names, t, scopes)
    ensures var entry, ty := Resolve(u, names, x), VariableType(t, scopes, x);
      (entry.Some? <==> ty.Some?) && (ty.Some? ==> entry.value.ty == ty.value && IsValueType(t.enums, ty.value))
  {
  }

  lemma ShowsMore(u: Unit, names: map<string, Entry>, t: Tables, scopes: DeclScopes, x: string, slot: nat, ty: Type, number: nat)
    requires Shows(u, names, t, scopes) && scopes != [] && IsValueType(t.enums, ty)
    ensures Shows(u, names[x := Entry(slot, ty)], t, Declare(scopes, x, Local(ty, number)))
  {
    hide IsValueType;
    var more, wide := names[x := Entry(slot, ty)], Declare(scopes, x, Local(ty, number));
    forall y: string ensures
      var entry, found := Resolve(u, more, y), VariableType(t, wide, y);
      (entry.Some? <==> found.Some?) && (found.Some? ==> entry.value.ty == found.value && IsValueType(t.enums, found.value))
    {
      ShownName(u, names, t, scopes, y);
      LookupDeclared(scopes, x, Local(ty, number), y);
    }
  }

  lemma ShowsInside(u: Unit, names: map<string, Entry>, t: Tables, at: Scoped)
    requires Shows(u, names, t, at.scopes)
    ensures Shows(u, names, t, OpenScope(at).scopes)
  {
    hide IsValueType;
    forall y: string ensures VariableType(t, OpenScope(at).scopes, y) == VariableType(t, at.scopes, y) {
      LookupPushed(at.scopes, y);
    }
  }

  predicate ValueOrVoid(enums: Enums, t: Type) {
    t == Void || IsValueType(enums, t)
  }

  /** An accepted expression has the type that the lowering finds. */
  lemma {:induction false} TypesMatch(u: Unit, names: map<string, Entry>, t: Tables, scopes: DeclScopes, e: Expr)
    requires Describes(u.cx, t) && Shows(u, names, t, scopes)
    requires SupportedExpr(u.cx, t, scopes, e) && CheckedType(t, scopes, e).Some?
    ensures StaticType(u, names, e) == CheckedType(t, scopes, e) && ValueOrVoid(t.enums, CheckedType(t, scopes, e).value)
    decreases e
  {
    match e
    case Var(name) =>
      ShownName(u, names, t, scopes, name);
      hide Shows, Resolve, VariableType;
    case Binary(op, lhs, rhs) =>
      hide Shows, Describes;
      TypesMatch(u, names, t, scopes, lhs);
      TypesMatch(u, names, t, scopes, rhs);
      BinaryTypes(t.enums, op, CheckedType(t, scopes, lhs).value, CheckedType(t, scopes, rhs).value);
      hide BinaryType, CommonInteger, ValueOrVoid;
    case Unary(op, operand) =>
      hide Shows, Describes;
      TypesMatch(u, names, t, scopes, operand);
    case Call(callee, _, _) =>
      CalleeKnown(u.cx, t, scopes, e);
      hide Shows, Describes, CallType;
    case MethodCall(_, _, _, _) => hide Shows;
    case _ =>
  }

  lemma BinaryTypes(enums: Enums, op: BinOp, l: Type, r: Type)
    requires op != In && ValueOrVoid(enums, l) && ValueOrVoid(enums, r) && BinaryType(op, l, r).Some?
    ensures BinaryType(op, l, r) == Some(if IsArithmetic(op) then CommonInteger(l, r) else Bool)
    ensures ValueOrVoid(enums, BinaryType(op, l, r).value)
  {
    hide BinaryType, CommonInteger, IsArithmetic, TypeofBinary;
    CommonIsValue(enums, l, r);
    BinaryAgrees(op, l, r);
    PlainOperands(op, l, r);
  }

  lemma CommonIsValue(enums: Enums, l: Type, r: Type)
    ensures IsValueType(enums, CommonInteger(l, r)) && IsValueType(enums, Bool)
  {
  }

  lemma CalleeKnown(cx: Context, t: Tables, scopes: DeclScopes, e: Expr)
    requires e.Call? && Describes(cx, t) && e.callee in cx.signatures && CheckedType(t, scopes, e).Some?
    ensures e.callee in t.functions && t.functions[e.callee].params == cx.signatures[e.callee].params
    ensures var sig := cx.signatures[e.callee]; var types := CheckedTypes(t, scopes, e.args);
      types.Some? && |types.value| == |sig.params| && CheckedType(t, scopes, e) == Some(sig.ret)
      && ValueOrVoid(t.enums, sig.ret)
      && forall i | 0 <= i < |sig.params| :: Assignable(types.value[i], sig.params[i]) && IsValueType(t.enums, sig.params[i])
  {
    hide Assignable, IsValueType, CheckedTypes, TypeofBuiltin, BuiltinReturn;
    assert Declares(t, e.callee, cx.signatures[e.callee]);
    BuiltinsAgree(e.callee);
  }

  /** Of the conversions that semantic analysis accepts, the lowering refuses those that narrow. */
  lemma RefusedIfNarrow(enums: Enums, source: Type, target: Type)
    requires ValueOrVoid(enums, source) && IsValueType(enums, target) && Assignable(source, target)
    ensures Coercible(source, target) <==> !Narrows(source, target)
  {
    hide AllAssignable;
  }

  /** Expressions that semantic analysis accepts where a type is wanted. */
  ghost predicate Wanted(cx: Context, t: Tables, scopes: DeclScopes, e: Expr, target: Type) {
    SupportedExpr(cx, t, scopes, e) && IsValueType(t.enums, target)
    && CheckedType(t, scopes, e).Some? && Assignable(CheckedType(t, scopes, e).value, target)
  }

  lemma FitsUnlessNarrow(u: Unit, names: map<string, Entry>, t: Tables, scopes: DeclScopes, e: Expr, target: Type)
    requires Describes(u.cx, t) && Shows(u, names, t, scopes) && Wanted(u.cx, t, scopes, e, target)
    ensures Fits(u, names, e, target) <==> !Narrows(CheckedType(t, scopes, e).value, target)
  {
    TypesMatch(u, names, t, scopes, e);
    hide Describes, Shows, SupportedExpr, CheckedType, StaticType;
    RefusedIfNarrow(t.enums, CheckedType(t, scopes, e).value, target);
    hide Coercible, IsValueType, Assignable;
  }

  // ---------------------------------------------------------------------------
  // Expressions
  // ---------------------------------------------------------------------------

  /** The code that an expression is lowered after does not matter. */
  lemma {:induction false} ExprLowers(u: Unit, c: Code, t: Tables, scopes: DeclScopes, e: Expr)
    requires c.Valid() && Describes(u.cx, t) && Shows(u, c.names, t, scopes)
    requires SupportedExpr(u.cx, t, scopes, e) && CheckedType(t, scopes, e).Some?
    ensures LowerExpr(u, c, e).Ok? <==> !NarrowsIn(t, scopes, e)
    decreases e, 1
  {
    match e
    case Var(name) =>
      ShownName(u, c.names, t, scopes, name);
      hide Shows, Resolve, VariableType;
    case Binary(_, lhs, rhs) =>
      hide Shows, Describes;
      TypesMatch(u, c.names, t, scopes, lhs);
      TypesMatch(u, c.names, t, scopes, rhs);
      ExprLowers(u, c, t, scopes, lhs);
      var left := LowerExpr(u, c, lhs);
      if left.Ok? {
        ExprLowers(u, left.code, t, scopes, rhs);
      }
    case Unary(_, operand) =>
      hide Shows, Describes;
      ExprLowers(u, c, t, scopes, operand);
    case Call(callee, _, args) =>
      CalleeKnown(u.cx, t, scopes, e);
      hide Shows, Describes, CallType;
      var sig := u.cx.signatures[callee];
      ArgsLower(u, c, t, scopes, args, sig.params);
    case MethodCall(_, _, _, _) => EnumLowers(u, c, t, scopes, e);
    case _ =>
  }

  lemma {:induction false} ArgsLower(u: Unit, c: Code, t: Tables, scopes: DeclScopes, es: seq<Expr>, targets: seq<Type>)
    requires c.Valid() && Describes(u.cx, t) && Shows(u, c.names, t, scopes)
    requires AllSupported(u.cx, t, scopes, es) && CheckedTypes(t, scopes, es).Some? && |es| == |targets|
    requires forall i | 0 <= i < |targets| ::
      Assignable(CheckedTypes(t, scopes, es).value[i], targets[i]) && IsValueType(t.enums, targets[i])
    ensures LowerArgs(u, c, es, targets).Ok? <==> !SomeNarrows(t, scopes, es, targets)
    decreases es, 0
  {
    if es != [] {
      var types := CheckedTypes(t, scopes, es).value;
      assert types[0] == CheckedType(t, scopes, es[0]).value && types[1..] == CheckedTypes(t, scopes, es[1..]).value;
      hide Shows, Describes, SupportedExpr, CheckedType, Assignable, IsValueType, LowerExpr, Fits, NarrowsIn;
      WantedLowers(u, c, t, scopes, es[0], targets[0]);
      var first := LowerExpr(u, c, es[0]);
      if first.Ok? {
        ArgsLower(u, first.code, t, scopes, es[1..], targets[1..]);
      }
    }
  }

  lemma {:induction false} WantedLowers(u: Unit, c: Code, t: Tables, scopes: DeclScopes, e: Expr, target: Type)
    requires c.Valid() && Describes(u.cx, t) && Shows(u, c.names, t, scopes) && Wanted(u.cx, t, scopes, e, target)
    ensures (Fits(u, c.names, e, target) && LowerExpr(u, c, e).Ok?) <==> !NarrowsAs(t, scopes, e, target)
    decreases e, 2
  {
    hide Shows, Describes, SupportedExpr, CheckedType, Assignable, IsValueType, LowerExpr, Fits, NarrowsIn;
    FitsUnlessNarrow(u, c.names, t, scopes, e, target);
    ExprLowers(u, c, t, scopes, e);
  }

  lemma {:induction false} EnumLowers(u: Unit, c: Code, t: Tables, scopes: DeclScopes, e: Expr)
    requires e.MethodCall? && c.Valid() && Describes(u.cx, t) && Shows(u, c.names, t, scopes)
    requires SupportedExpr(u.cx, t, scopes, e) && CheckedType(t, scopes, e).Some?
    ensures LowerExpr(u, c, e).Ok? <==> !NarrowsIn(t, scopes, e)
    decreases e, 0
  {
    assert u.cx.enums == t.enums;
    var enum := e.receiver.name;
    var tag := VariantIndex(t.enums[enum], e.methodName).value;
    var payload := t.enums[enum][tag].payload;
    if payload.Some? {
      var c1 := StartEnum(c, enum, tag);
      OneArgument(t, scopes, e.args);
      hide Shows, Describes, CheckedType, Assignable, IsValueType, LowerExpr, Fits, StartEnum;
      WantedLowers(u, c1, t, scopes, e.args[0], payload.value);
      EnumSteps(u, c, enum, e.methodName, tag, e.args);
    }
  }

  lemma OneArgument(t: Tables, scopes: DeclScopes, es: seq<Expr>)
    requires |es| == 1
    ensures CheckedTypes(t, scopes, es).Some? ==>
      CheckedType(t, scopes, es[0]).Some? && CheckedTypes(t, scopes, es).value == [CheckedType(t, scopes, es[0]).value]
    ensures forall target :: SomeNarrows(t, scopes, es, [target]) <==> NarrowsAs(t, scopes, es[0], target)
  {
    hide CheckedType, NarrowsIn;
    assert es[1..] == [];
  }

  lemma EnumSteps(u: Unit, c: Code, enum: string, variant: string, tag: nat, args: seq<Expr>)
    requires c.Valid() && enum in u.cx.enums && VariantIndex(u.cx.enums[enum], variant) == Some(tag)
    requires u.cx.enums[enum][tag].payload.Some? && |args| == 1
    ensures LowerEnum(u, c, enum, variant, args).Ok?
      <==> Fits(u, c.names, args[0], u.cx.enums[enum][tag].payload.value) && LowerExpr(u, StartEnum(c, enum, tag), args[0]).Ok?
  {
    hide LowerExpr, Fits, StartEnum;
  }

  // ---------------------------------------------------------------------------
  // Statements
  // ---------------------------------------------------------------------------

  /** The lowering is where the check is: same names, inside a loop or not. */
  ghost predicate Ready(u: Unit, c: Code, t: Tables, depth: nat, at: Scoped) {
    c.Valid() && Describes(u.cx, t) && ValueOrVoid(t.enums, u.ret) && at.scopes != []
    && Shows(u, c.names, t, at.scopes) && (c.loops == [] <==> depth == 0)
  }

  /** The statements are lowered exactly if none of those passed narrows, and then it is so afterwards. */
  ghost predicate Lowers(u: Unit, t: Tables, r: Lowered<()>, w: Walk<Scoped>) {
    w.Walk? && (r.Ok? <==> NoneNarrows(t, u.ret, w.visits)) && (r.Ok? ==> Shows(u, r.code.names, t, w.env.scopes))
  }

  lemma ReadyLater(u: Unit, c: Code, d: Code, t: Tables, depth: nat, at: Scoped, later: Scoped)
    requires Ready(u, c, t, depth, at) && d.Valid() && d.loops == c.loops && later.scopes != []
    requires Shows(u, d.names, t, later.scopes)
    ensures Ready(u, d, t, depth, later)
  {
    hide Shows, Describes;
  }

  lemma {:induction false} StmtLowers(u: Unit, c: Code, t: Tables, depth: nat, at: Scoped, s: Stmt)
    requires Ready(u, c, t, depth, at) && CheckStmt(t, u.ret, depth, at, s).Walk?
    requires VisitsSupported(u.cx, t, CheckStmt(t, u.ret, depth, at, s).visits)
    ensures Lowers(u, t, LowerStmt(u, c, s), CheckStmt(t, u.ret, depth, at, s))
    decreases s, 3
  {
    hide Ready, SupportedStmt, NarrowsHere, CheckInner, LowerStmt, Shows;
    var inner := CheckInner(t, u.ret, depth, at, s);
    VisitsParts(u.cx, t, [Visit(s, at)], inner.visits);
    NarrowParts(t, u.ret, [Visit(s, at)], inner.visits);
    assert SupportedStmt(u.cx, t, [Visit(s, at)][0].env.scopes, [Visit(s, at)][0].stmt);
    OneNarrows(t, u.ret, Visit(s, at));
    hide VisitsSupported, NoneNarrows;
    match s
    case If(_, _, _) => IfLowers(u, c, t, depth, at, s);
    case While(_, _) => WhileLowers(u, c, t, depth, at, s);
    case For(_, _, _) => ForLowers(u, c, t, depth, at, s);
    case Switch(_, _) => SwitchLowers(u, c, t, depth, at, s);
    case _ => SimpleLowers(u, c, t, depth, at, s);
  }

  lemma OneNarrows(t: Tables, ret: Type, v: Visit<Scoped>)
    ensures NoneNarrows(t, ret, [v]) <==> !NarrowsHere(t, ret, v.env.scopes, v.stmt)
  {
    hide NarrowsHere;
    assert [v][0] == v;
  }

  /** The statement itself, and those inside it. */
  ghost predicate LowersInner(u: Unit, t: Tables, at: Scoped, s: Stmt, r: Lowered<()>, w: Walk<Scoped>) {
    w.Walk? && (r.Ok? <==> !NarrowsHere(t, u.ret, at.scopes, s) && NoneNarrows(t, u.ret, w.visits))
    && (r.Ok? ==> Shows(u, r.code.names, t, w.env.scopes))
  }

  lemma {:induction false} SimpleLowers(u: Unit, c: Code, t: Tables, depth: nat, at: Scoped, s: Stmt)
    requires Ready(u, c, t, depth, at) && SupportedStmt(u.cx, t, at.scopes, s) && CheckInner(t, u.ret, depth, at, s).Walk?
    requires !s.If? && !s.While? && !s.For? && !s.Switch?
    ensures LowersInner(u, t, at, s, LowerStmt(u, c, s), CheckInner(t, u.ret, depth, at, s))
  {
    hide Shows, Describes, SupportedExpr, CheckedType, Assignable, IsValueType, LowerExpr, Fits, NarrowsIn, StaticType,
      VariableType, Zero;
    match s
    case Return(e) =>
      if e.Some? {
        WantedLowers(u, c, t, at.scopes, e.value, u.ret);
      }
    case ExprStmt(e) => ExprLowers(u, c, t, at.scopes, e);
    case Let(_, _, _) => LetLowers(u, c, t, depth, at, s);
    case Assign(x, e) =>
      ShownName(u, c.names, t, at.scopes, x);
      hide Resolve;
      WantedLowers(u, c, t, at.scopes, e, VariableType(t, at.scopes, x).value);
    case Break =>
    case Continue =>
    case _ =>
  }

  lemma LetLowers(u: Unit, c: Code, t: Tables, depth: nat, at: Scoped, s: Stmt)
    requires s.Let? && Ready(u, c, t, depth, at) && SupportedStmt(u.cx, t, at.scopes, s)
    requires CheckInner(t, u.ret, depth, at, s).Walk?
    ensures LowersInner(u, t, at, s, LowerStmt(u, c, s), CheckInner(t, u.ret, depth, at, s))
  {
    ZeroKnown(u.cx, t, s.ty.value);
    hide Describes, SupportedExpr, CheckedType, Assignable, IsValueType, LowerExpr, Fits, NarrowsIn, StaticType, VariableType,
      Zero;
    ShowsMore(u, c.names, t, at.scopes, s.name, c.slots, s.ty.value, at.next);
    hide Shows;
    if s.init.Some? {
      WantedLowers(u, NewSlot(c), t, at.scopes, s.init.value, s.ty.value);
    }
  }

  lemma ZeroKnown(cx: Context, t: Tables, ty: Type)
    requires Describes(cx, t) && IsValueType(t.enums, ty)
    ensures Zero(cx.enums, ty).Some?
  {
  }

  lemma {:induction false} StmtsLower(u: Unit, c: Code, t: Tables, depth: nat, at: Scoped, ss: seq<Stmt>)
    requires Ready(u, c, t, depth, at) && CheckStmts(t, u.ret, depth, at, ss).Walk?
    requires VisitsSupported(u.cx, t, CheckStmts(t, u.ret, depth, at, ss).visits)
    ensures Lowers(u, t, LowerStmts(u, c, ss), CheckStmts(t, u.ret, depth, at, ss))
    decreases ss, 0
  {
    assert c.Valid() && Shows(u, c.names, t, at.scopes);
    hide Ready, CheckStmt, LowerStmt, Shows, VisitsSupported;
    if ss != [] {
      var first := CheckStmt(t, u.ret, depth, at, ss[0]);
      var others := CheckStmts(t, u.ret, depth, first.env, ss[1..]);
      VisitsParts(u.cx, t, first.visits, others.visits);
      NarrowParts(t, u.ret, first.visits, others.visits);
      hide NoneNarrows;
      StmtLowers(u, c, t, depth, at, ss[0]);
      var r := LowerStmt(u, c, ss[0]);
      if r.Ok? {
        assert at.scopes != [] by { ReadyHasScopes(u, c, t, depth, at); }
        ReadyLater(u, c, r.code, t, depth, at, first.env);
        StmtsLower(u, r.code, t, depth, first.env, ss[1..]);
      }
    }
  }

  lemma ReadyHasScopes(u: Unit, c: Code, t: Tables, depth: nat, at: Scoped)
    requires Ready(u, c, t, depth, at)
    ensures at.scopes != [] && c.Valid() && Shows(u, c.names, t, at.scopes)
  {
  }

  /** A block, in whatever code has the same names and loops. */
  lemma {:induction false} BlockLowers(u: Unit, c: Code, t: Tables, depth: nat, at: Scoped, b: Block)
    requires Ready(u, c, t, depth, at) && CheckBlock(t, u.ret, depth, at, b).Walk?
    requires VisitsSupported(u.cx, t, CheckBlock(t, u.ret, depth, at, b).visits)
    ensures Lowers(u, t, LowerBlock(u, c, b), CheckBlock(t, u.ret, depth, at, b))
    decreases b, 0
  {
    ReadyHasScopes(u, c, t, depth, at);
    ShowsInside(u, c.names, t, at);
    hide Shows, CheckStmts, LowerStmts, VisitsSupported, NoneNarrows;
    ReadyLater(u, c, c, t, depth, at, OpenScope(at));
    hide Ready;
    StmtsLower(u, c, t, depth, OpenScope(at), b.stmts);
  }

  lemma {:induction false} BranchLowers(
    u: Unit, c: Code, d: Code, block: nat, target: nat, t: Tables, depth: nat, at: Scoped, b: Block)
    requires Ready(u, c, t, depth, at) && CheckBlock(t, u.ret, depth, at, b).Walk?
    requires VisitsSupported(u.cx, t, CheckBlock(t, u.ret, depth, at, b).visits)
    requires d.Valid() && block < |d.blocks| && target < |d.blocks| && d.names == c.names && d.loops == c.loops
    ensures LowerBranch(u, d, block, target, b).Ok? <==> NoneNarrows(t, u.ret, CheckBlock(t, u.ret, depth, at, b).visits)
    decreases b, 1
  {
    ReadyHasScopes(u, c, t, depth, at);
    hide Shows, CheckBlock, LowerBlock, VisitsSupported, NoneNarrows;
    ReadyLater(u, c, Open(d, block), t, depth, at, at);
    hide Ready;
    BlockLowers(u, Open(d, block), t, depth, at, b);
  }

  lemma CondLowers(u: Unit, c: Code, t: Tables, depth: nat, at: Scoped, cond: Expr, d: Code)
    requires Ready(u, c, t, depth, at) && d.Valid() && d.names == c.names
    requires SupportedExpr(u.cx, t, at.scopes, cond) && CheckedType(t, at.scopes, cond) == Some(Bool)
    ensures LowerCond(u, d, cond).Ok? <==> !NarrowsIn(t, at.scopes, cond)
  {
    TypesMatch(u, c.names, t, at.scopes, cond);
    hide Shows, Describes, SupportedExpr, CheckedType, StaticType, LowerExpr, NarrowsIn;
    ExprLowers(u, d, t, at.scopes, cond);
  }

  lemma {:induction false} IfLowers(u: Unit, c: Code, t: Tables, depth: nat, at: Scoped, s: Stmt)
    requires s.If? && Ready(u, c, t, depth, at) && SupportedStmt(u.cx, t, at.scopes, s)
    requires var w := CheckInner(t, u.ret, depth, at, s); w.Walk? && VisitsSupported(u.cx, t, w.visits)
    ensures LowersInner(u, t, at, s, LowerStmt(u, c, s), CheckInner(t, u.ret, depth, at, s))
    decreases s, 2
  {
    ReadyHasScopes(u, c, t, depth, at);
    IfParts(u, t, depth, at, s);
    IfStages(u, c, s);
    hide Shows, Ready, CheckBlock, VisitsSupported, NoneNarrows, CheckedType, NarrowsIn, LowerCond, LowerBranches,
      IfHead, CheckInner, LowerStmt, SupportedExpr;
    CondLowers(u, c, t, depth, at, s.cond, c);
    var head := LowerCond(u, c, s.cond);
    if head.Ok? {
      var d := IfHead(head.code, head.value, s.els.Some?);
      BranchesLower(u, c, d, |c.blocks|, MergeOf(c, s), t, depth, at, s);
    }
  }

  function MergeOf(c: Code, s: Stmt): nat
    requires s.If?
  {
    if s.els.Some? then |c.blocks| + 2 else |c.blocks| + 1
  }

  lemma IfStages(u: Unit, c: Code, s: Stmt)
    requires s.If? && c.Valid()
    ensures var head := LowerCond(u, c, s.cond);
      LowerStmt(u, c, s).Ok?
      <==> head.Ok? && LowerBranches(u, IfHead(head.code, head.value, s.els.Some?), |c.blocks|, MergeOf(c, s), s).Ok?
    ensures LowerStmt(u, c, s).Ok? ==> LowerStmt(u, c, s).code.names == c.names
  {
    hide LowerCond, LowerBranches, IfHead;
  }

  /** The conditions and blocks that the check of an if statement passes. */
  lemma IfParts(u: Unit, t: Tables, depth: nat, at: Scoped, s: Stmt)
    requires s.If? && CheckInner(t, u.ret, depth, at, s).Walk?
    ensures CheckedType(t, at.scopes, s.cond) == Some(Bool)
    ensures var w, thn := CheckInner(t, u.ret, depth, at, s), CheckBlock(t, u.ret, depth, at, s.thn);
      thn.Walk? && w.env.scopes == at.scopes
      && if s.els.None? then w.visits == thn.visits
         else
           var els := CheckBlock(t, u.ret, depth, thn.env, s.els.value);
           els.Walk? && w.visits == thn.visits + els.visits
           && (VisitsSupported(u.cx, t, w.visits)
               <==> VisitsSupported(u.cx, t, thn.visits) && VisitsSupported(u.cx, t, els.visits))
           && (NoneNarrows(t, u.ret, w.visits) <==> NoneNarrows(t, u.ret, thn.visits) && NoneNarrows(t, u.ret, els.visits))
  {
    hide CheckBlock, CheckedType, VisitsSupported, NoneNarrows;
    if s.els.Some? {
      var thn := CheckBlock(t, u.ret, depth, at, s.thn);
      var els := CheckBlock(t, u.ret, depth, thn.env, s.els.value);
      VisitsParts(u.cx, t, thn.visits, els.visits);
      NarrowParts(t, u.ret, thn.visits, els.visits);
    }
  }

  lemma {:induction false} BranchesLower(
    u: Unit, c: Code, d: Code, thenBlock: nat, merge: nat, t: Tables, depth: nat, at: Scoped, s: Stmt)
    requires s.If? && Ready(u, c, t, depth, at)
    requires var thn := CheckBlock(t, u.ret, depth, at, s.thn);
      thn.Walk? && VisitsSupported(u.cx, t, thn.visits)
      && (s.els.Some? ==> var els := CheckBlock(t, u.ret, depth, thn.env, s.els.value);
                          els.Walk? && VisitsSupported(u.cx, t, els.visits))
    requires d.Valid() && merge < |d.blocks| && thenBlock < merge && (s.els.Some? ==> thenBlock + 1 < merge)
    requires d.names == c.names && d.loops == c.loops
    ensures var thn := CheckBlock(t, u.ret, depth, at, s.thn);
      LowerBranches(u, d, thenBlock, merge, s).Ok?
      <==> NoneNarrows(t, u.ret, thn.visits)
           && (s.els.Some? ==> NoneNarrows(t, u.ret, CheckBlock(t, u.ret, depth, thn.env, s.els.value).visits))
    decreases s, 1
  {
    ReadyHasScopes(u, c, t, depth, at);
    hide Shows, CheckBlock, LowerBranch, VisitsSupported, NoneNarrows;
    BranchLowers(u, c, d, thenBlock, merge, t, depth, at, s.thn);
    var first := LowerBranch(u, d, thenBlock, merge, s.thn);
    if first.Ok? && s.els.Some? {
      var thn := CheckBlock(t, u.ret, depth, at, s.thn);
      ReadyLater(u, c, c, t, depth, at, thn.env);
      hide Ready;
      BranchLowers(u, c, first.code, thenBlock + 1, merge, t, depth, thn.env, s.els.value);
    }
  }

  lemma EnterReady(u: Unit, c: Code, d: Code, t: Tables, depth: nat, at: Scoped, later: Scoped)
    requires Ready(u, c, t, depth, at) && d.Valid() && d.loops != [] && later.scopes != []
    requires Shows(u, d.names, t, later.scopes)
    ensures Ready(u, d, t, depth + 1, later)
  {
    hide Shows, Describes;
  }

  lemma {:induction false} WhileLowers(u: Unit, c: Code, t: Tables, depth: nat, at: Scoped, s: Stmt)
    requires s.While? && Ready(u, c, t, depth, at) && SupportedStmt(u.cx, t, at.scopes, s)
    requires var w := CheckInner(t, u.ret, depth, at, s); w.Walk? && VisitsSupported(u.cx, t, w.visits)
    ensures LowersInner(u, t, at, s, LowerStmt(u, c, s), CheckInner(t, u.ret, depth, at, s))
    decreases s, 2
  {
    ReadyHasScopes(u, c, t, depth, at);
    WhileStages(u, c, s);
    hide Shows, Ready, CheckBlock, VisitsSupported, NoneNarrows, CheckedType, SupportedExpr, NarrowsIn, LowerCond, LowerBranch,
      LowerStmt;
    CondLowers(u, c, t, depth, at, s.cond, WhileRoom(c));
    if LowerCond(u, WhileRoom(c), s.cond).Ok? {
      var d := WhileEntry(u, c, s.cond);
      EnterReady(u, c, d, t, depth, at, at);
      BranchLowers(u, d, d, |c.blocks| + 1, |c.blocks|, t, depth + 1, at, s.body);
    }
  }

  function WhileRoom(c: Code): (d: Code)
    requires c.Valid()
    ensures d.Valid() && d.names == c.names && d.loops == c.loops && |d.blocks| == |c.blocks| + 3
  {
    Open(Emit(AddBlocks(c, 3), Jump(|c.blocks|)), |c.blocks|)
  }

  /** The code that the body of a loop with a condition is lowered after. */
  function WhileEntry(u: Unit, c: Code, cond: Expr): (d: Code)
    requires c.Valid() && LowerCond(u, WhileRoom(c), cond).Ok?
    ensures d.Valid() && d.names == c.names && d.loops != [] && |c.blocks| + 3 <= |d.blocks|
  {
    var head := LowerCond(u, WhileRoom(c), cond);
    EnterLoop(Emit(head.code, Branch(head.value, |c.blocks| + 1, |c.blocks| + 2)), |c.blocks|, |c.blocks| + 2)
  }

  lemma WhileStages(u: Unit, c: Code, s: Stmt)
    requires s.While? && c.Valid()
    ensures LowerStmt(u, c, s).Ok?
      <==> LowerCond(u, WhileRoom(c), s.cond).Ok?
           && LowerBranch(u, WhileEntry(u, c, s.cond), |c.blocks| + 1, |c.blocks|, s.body).Ok?
    ensures LowerStmt(u, c, s).Ok? ==> LowerStmt(u, c, s).code.names == c.names
  {
    hide LowerCond, LowerBranch;
  }

  lemma {:induction false} ForLowers(u: Unit, c: Code, t: Tables, depth: nat, at: Scoped, s: Stmt)
    requires s.For? && Ready(u, c, t, depth, at) && SupportedStmt(u.cx, t, at.scopes, s)
    requires var w := CheckInner(t, u.ret, depth, at, s); w.Walk? && VisitsSupported(u.cx, t, w.visits)
    ensures LowersInner(u, t, at, s, LowerStmt(u, c, s), CheckInner(t, u.ret, depth, at, s))
    decreases s, 2
  {
    ReadyHasScopes(u, c, t, depth, at);
    RangeElement(t, at.scopes, s.iter);
    assert Describes(u.cx, t);
    TypesMatch(u, c.names, t, at.scopes, s.iter.args[0]);
    hide Shows, Ready, CheckStmts, VisitsSupported, NoneNarrows, CheckedType, SupportedExpr, NarrowsIn, LowerExpr,
      IterType, StaticType, Describes, DeclareIn;
    ForStages(u, c, s.variable, s.iter, s.body);
    hide LowerFor;
    ExprLowers(u, ForRoom(c), t, at.scopes, s.iter.args[0]);
    if LowerExpr(u, ForRoom(c), s.iter.args[0]).Ok? {
      var d := ForEntry(u, c, s.iter);
      ForBodyLowers(u, c, d, t, depth, at, s, c.slots, c.slots + 1, |c.blocks|);
    }
  }

  function ForRoom(c: Code): (d: Code)
    ensures c.Valid() ==> d.Valid() && d.names == c.names && d.loops == c.loops && |d.blocks| == |c.blocks| + 3
  {
    AddBlocks(NewSlot(NewSlot(c)), 3)
  }

  /** The code that the body of a loop is lowered after. */
  function ForEntry(u: Unit, c: Code, iter: Expr): (d: Code)
    requires c.Valid() && IsRange(iter) && LowerExpr(u, ForRoom(c), iter.args[0]).Ok?
    ensures d.Valid() && d.names == c.names && d.loops == c.loops && |c.blocks| + 2 < |d.blocks|
  {
    var condBlock := |c.blocks|;
    var limit := LowerExpr(u, ForRoom(c), iter.args[0]);
    var c2 := ForStart(limit.code, c.slots + 1, condBlock);
    Open(ForTest(Open(c2, condBlock), c.slots + 1, limit.value, condBlock + 1, condBlock + 2), condBlock + 1)
  }

  lemma ForStages(u: Unit, c: Code, variable: string, iter: Expr, body: Block)
    requires c.Valid() && IsRange(iter) && StaticType(u, c.names, iter.args[0]) == Some(Int)
    ensures LowerFor(u, c, variable, iter, body).Ok?
      <==> LowerExpr(u, ForRoom(c), iter.args[0]).Ok?
           && LowerForBody(u, ForEntry(u, c, iter), variable, c.slots, c.slots + 1, |c.blocks|, body).Ok?
    ensures LowerFor(u, c, variable, iter, body).Ok? ==> LowerFor(u, c, variable, iter, body).code.names == c.names
  {
    hide LowerExpr, LowerForBody, StaticType, ForStart, ForTest;
  }

  lemma RangeElement(t: Tables, scopes: DeclScopes, iter: Expr)
    requires IsRange(iter) && CheckedType(t, scopes, iter).Some?
    ensures IterType(t, scopes, iter) == Some(Int)
  {
    hide CheckedTypes;
  }

  lemma {:induction false} ForBodyLowers(
    u: Unit, c: Code, d: Code, t: Tables, depth: nat, at: Scoped, s: Stmt, varSlot: nat, counter: nat, condBlock: nat)
    requires s.For? && Ready(u, c, t, depth, at) && d.Valid() && condBlock + 2 < |d.blocks|
    requires d.names == c.names && d.loops == c.loops
    requires var inner := DeclareIn(OpenScope(at), s.variable, Int);
      inner.Walk? && var w := CheckStmts(t, u.ret, depth + 1, inner.env, s.body.stmts);
                     w.Walk? && VisitsSupported(u.cx, t, w.visits)
    ensures var inner := DeclareIn(OpenScope(at), s.variable, Int).env;
      LowerForBody(u, d, s.variable, varSlot, counter, condBlock, s.body).Ok?
      <==> NoneNarrows(t, u.ret, CheckStmts(t, u.ret, depth + 1, inner, s.body.stmts).visits)
    decreases s, 1
  {
    ReadyHasScopes(u, c, t, depth, at);
    ShowsInside(u, c.names, t, at);
    ShowsMore(u, c.names, t, OpenScope(at).scopes, s.variable, varSlot, Int, at.next);
    hide Shows, CheckStmts, LowerStmts, VisitsSupported, NoneNarrows, Increment;
    var inner := DeclareIn(OpenScope(at), s.variable, Int).env;
    var body := EnterLoop(ForBind(d, s.variable, varSlot, counter), condBlock, condBlock + 2);
    EnterReady(u, c, body, t, depth, at, inner);
    hide Ready, ForBind, DeclareIn;
    StmtsLower(u, body, t, depth + 1, inner, s.body.stmts);
  }

  lemma {:induction false} SwitchLowers(u: Unit, c: Code, t: Tables, depth: nat, at: Scoped, s: Stmt)
    requires s.Switch? && Ready(u, c, t, depth, at) && SupportedStmt(u.cx, t, at.scopes, s)
    requires var w := CheckInner(t, u.ret, depth, at, s); w.Walk? && VisitsSupported(u.cx, t, w.visits)
    ensures LowersInner(u, t, at, s, LowerStmt(u, c, s), CheckInner(t, u.ret, depth, at, s))
    decreases s, 2
  {
    hide Shows, Describes, Ready, CheckArms, VisitsSupported, NoneNarrows, CheckedType, SupportedExpr, NarrowsIn, LowerExpr, StaticType,
      SwitchCases, LowerArms, LowerStmt, SwitchHead, BindsValues, AcceptedSwitch, BindingsSupported;
    ReadyHasScopes(u, c, t, depth, at);
    var enum := CheckedType(t, at.scopes, s.scrutinee).value.name;
    ScrutineeKnown(u, c, t, depth, at, s.scrutinee, enum);
    SwitchParts(u, t, depth, at, s, enum, |c.blocks| + 1);
    SwitchStages(u, c, s, enum);
    hide CheckInner;
    ExprLowers(u, c, t, at.scopes, s.scrutinee);
    var v := LowerExpr(u, c, s.scrutinee);
    if v.Ok? {
      var d := SwitchEntry(c, v, enum, s.arms, SwitchCases(t.enums[enum], s.arms, |c.blocks| + 1).value);
      ArmsLower(u, c, d, t, depth, at, t.enums[enum], v.code.slots, |c.blocks| + 1, |c.blocks|, s.arms);
    }
  }

  lemma ScrutineeKnown(u: Unit, c: Code, t: Tables, depth: nat, at: Scoped, e: Expr, enum: string)
    requires Ready(u, c, t, depth, at) && SupportedExpr(u.cx, t, at.scopes, e) && CheckedType(t, at.scopes, e) == Some(Named(enum))
    ensures StaticType(u, c.names, e) == Some(Named(enum)) && u.cx.enums == t.enums && Describes(u.cx, t)
  {
    hide SupportedExpr, CheckedType, StaticType, Shows;
    TypesMatch(u, c.names, t, at.scopes, e);
  }

  /** The code that the arms are lowered after. */
  function SwitchEntry(c: Code, v: Lowered<Operand>, enum: string, arms: seq<Arm>, cases: seq<(nat, nat)>): (d: Code)
    requires c.Valid() && v.Ok? && Straightforward(c, v.code)
    ensures d.Valid() && d.names == c.names && d.loops == c.loops && |c.blocks| + 1 + |arms| <= |d.blocks|
  {
    SwitchHead(v.code, v.value, Named(enum), arms, cases)
  }

  lemma SwitchStages(u: Unit, c: Code, s: Stmt, enum: string)
    requires s.Switch? && c.Valid() && StaticType(u, c.names, s.scrutinee) == Some(Named(enum)) && enum in u.cx.enums
    requires SwitchCases(u.cx.enums[enum], s.arms, |c.blocks| + 1).Some?
    ensures var v := LowerExpr(u, c, s.scrutinee);
      LowerStmt(u, c, s).Ok?
      <==> v.Ok?
           && LowerArms(u, SwitchEntry(c, v, enum, s.arms, SwitchCases(u.cx.enums[enum], s.arms, |c.blocks| + 1).value),
                        u.cx.enums[enum], v.code.slots, |c.blocks| + 1, |c.blocks|, s.arms).Ok?
    ensures LowerStmt(u, c, s).Ok? ==> LowerStmt(u, c, s).code.names == c.names
  {
    hide LowerExpr, LowerArms, SwitchHead, StaticType, SwitchCases;
  }

  /** What the check of a switch passes. */
  lemma SwitchParts(u: Unit, t: Tables, depth: nat, at: Scoped, s: Stmt, enum: string, first: nat)
    requires s.Switch? && SupportedStmt(u.cx, t, at.scopes, s) && CheckInner(t, u.ret, depth, at, s).Walk?
    requires CheckedType(t, at.scopes, s.scrutinee) == Some(Named(enum))
    ensures enum in t.enums && SwitchCases(t.enums[enum], s.arms, first).Some? && BindsValues(t, t.enums[enum], s.arms)
    ensures CheckArms(t, u.ret, depth, at, t.enums[enum], s.arms) == CheckInner(t, u.ret, depth, at, s)
    ensures CheckInner(t, u.ret, depth, at, s).env.scopes == at.scopes
  {
    hide CheckArms, CheckedType, SupportedExpr, PayloadSupported, PatternFits, SwitchCases;
    CasesExist(enum, t.enums[enum], s.arms, first);
  }

  /** Whatever the arms bind is a value. */
  ghost predicate BindsValues(t: Tables, variants: seq<EnumVariant>, arms: seq<Arm>) {
    forall i | 0 <= i < |arms| && arms[i].pattern.Variant? && arms[i].pattern.binding.Some? ::
      PayloadSupported(t, variants, arms[i].pattern.variant)
  }

  lemma {:induction false} ArmsLower(
    u: Unit, c: Code, d: Code, t: Tables, depth: nat, at: Scoped, variants: seq<EnumVariant>, storage: nat, first: nat,
    merge: nat, arms: seq<Arm>)
    requires Ready(u, c, t, depth, at) && BindsValues(t, variants, arms)
    requires var w := CheckArms(t, u.ret, depth, at, variants, arms); w.Walk? && VisitsSupported(u.cx, t, w.visits)
    requires d.Valid() && first + |arms| <= |d.blocks| && d.names == c.names && d.loops == c.loops
    ensures LowerArms(u, d, variants, storage, first, merge, arms).Ok?
      <==> NoneNarrows(t, u.ret, CheckArms(t, u.ret, depth, at, variants, arms).visits)
    decreases arms, 0
  {
    hide Ready, VisitsSupported, CheckArm, LowerArm, PayloadSupported;
    if arms != [] {
      var head := CheckArm(t, u.ret, depth, at, variants, arms[0]);
      var others := CheckArms(t, u.ret, depth, head.env, variants, arms[1..]);
      VisitsParts(u.cx, t, head.visits, others.visits);
      NarrowParts(t, u.ret, head.visits, others.visits);
      hide NoneNarrows;
      ArmLowers(u, c, d, t, depth, at, variants, storage, first, merge, arms[0]);
      var r := LowerArm(u, d, variants, storage, first, merge, arms[0]);
      if r.Ok? {
        ReadyHasScopes(u, c, t, depth, at);
        hide Shows;
        ReadyLater(u, c, c, t, depth, at, head.env);
        ArmsLower(u, c, r.code, t, depth, head.env, variants, storage, first + 1, merge, arms[1..]);
      }
    }
  }

  lemma {:induction false} ArmLowers(
    u: Unit, c: Code, d: Code, t: Tables, depth: nat, at: Scoped, variants: seq<EnumVariant>, storage: nat, block: nat,
    merge: nat, arm: Arm)
    requires Ready(u, c, t, depth, at)
    requires arm.pattern.Variant? && arm.pattern.binding.Some? ==> PayloadSupported(t, variants, arm.pattern.variant)
    requires var w := CheckArm(t, u.ret, depth, at, variants, arm); w.Walk? && VisitsSupported(u.cx, t, w.visits)
    requires d.Valid() && block < |d.blocks| && d.names == c.names && d.loops == c.loops
    ensures LowerArm(u, d, variants, storage, block, merge, arm).Ok?
      <==> NoneNarrows(t, u.ret, CheckArm(t, u.ret, depth, at, variants, arm).visits)
    decreases arm, 0
  {
    var inner := InsideArm(at, variants, arm).env;
    BindingLowers(u, c, d, t, depth, at, variants, storage, block, arm);
    hide Shows, Ready, CheckStmts, LowerStmts, VisitsSupported, NoneNarrows, LowerBinding, Binding, DeclareIn;
    var b := LowerBinding(u, Open(d, block), variants, storage, arm.pattern);
    StmtsLower(u, b.code, t, depth, inner, arm.body.stmts);
  }

  function InsideArm(at: Scoped, variants: seq<EnumVariant>, arm: Arm): Walk<Scoped> {
    var binding := Binding(variants, arm.pattern);
    if binding.None? then Rejected
    else if binding.value.None? then Walk(OpenScope(at), [])
    else DeclareIn(OpenScope(at), binding.value.value.name, binding.value.value.ty)
  }

  lemma BindingLowers(
    u: Unit, c: Code, d: Code, t: Tables, depth: nat, at: Scoped, variants: seq<EnumVariant>, storage: nat, block: nat,
    arm: Arm)
    requires Ready(u, c, t, depth, at) && InsideArm(at, variants, arm).Walk?
    requires arm.pattern.Variant? && arm.pattern.binding.Some? ==> PayloadSupported(t, variants, arm.pattern.variant)
    requires d.Valid() && block < |d.blocks| && d.names == c.names && d.loops == c.loops
    ensures var b := LowerBinding(u, Open(d, block), variants, storage, arm.pattern);
      b.Ok? && b.code.Valid() && Ready(u, b.code, t, depth, InsideArm(at, variants, arm).env)
  {
    ReadyHasScopes(u, c, t, depth, at);
    ShowsInside(u, c.names, t, at);
    var p := arm.pattern;
    var b := LowerBinding(u, Open(d, block), variants, storage, p);
    if p.Variant? && p.binding.Some? {
      var ty := variants[VariantIndex(variants, p.variant).value].payload.value;
      ZeroKnown(u.cx, t, ty);
      ShowsMore(u, c.names, t, OpenScope(at).scopes, p.binding.value, d.slots, ty, at.next);
      hide Shows, Zero, IsValueType, VariantIndex;
      ReadyLater(u, c, b.code, t, depth, at, InsideArm(at, variants, arm).env);
    } else {
      hide Shows;
      ReadyLater(u, c, b.code, t, depth, at, OpenScope(at));
    }
  }

  // ---------------------------------------------------------------------------
  // Functions
  // ---------------------------------------------------------------------------

  /** Each static is a value, and the tables know it. */
  ghost predicate StaticsDeclared(t: Tables, statics: seq<Static>) {
    (forall x: string :: x in t.globals <==> x in Globals(statics))
    && forall x | x in t.globals :: t.globals[x] == Globals(statics)[x].ty && IsValueType(t.enums, t.globals[x])
  }

  lemma {:induction false} ParamsLower(u: Unit, c: Code, t: Tables, at: Scoped, params: seq<Param>)
    requires c.Valid() && Describes(u.cx, t) && at.scopes != [] && Shows(u, c.names, t, at.scopes)
    requires forall i | 0 <= i < |params| :: IsValueType(t.enums, params[i].ty)
    requires DeclareAllIn(at, ParamNames(params), ParamTypes(params)).Walk?
    ensures LowerParams(u, c, params).Ok?
    ensures Shows(u, LowerParams(u, c, params).code.names, t, DeclareAllIn(at, ParamNames(params), ParamTypes(params)).env.scopes)
    decreases |params|
  {
    hide Shows, Describes, IsValueType;
    if params == [] {
      assert ParamNames(params) == [];
    } else {
      var last := |params| - 1;
      LastDeclared(at, params);
      ParamsLower(u, c, t, at, params[..last]);
      var r := LowerParams(u, c, params[..last]);
      var mid := DeclareAllIn(at, ParamNames(params[..last]), ParamTypes(params[..last])).env;
      ZeroKnown(u.cx, t, params[last].ty);
      hide Zero, DeclareAllIn;
      ShowsMore(u, r.code.names, t, mid.scopes, params[last].name, r.code.slots, params[last].ty, mid.next);
    }
  }

  /** Declaring names one by one is declaring all but the last, and then the last. */
  lemma LastDeclared(at: Scoped, params: seq<Param>)
    requires params != [] && DeclareAllIn(at, ParamNames(params), ParamTypes(params)).Walk?
    ensures var last := |params| - 1; var front := DeclareAllIn(at, ParamNames(params[..last]), ParamTypes(params[..last]));
      front.Walk? && front.env.scopes != []
      && DeclareAllIn(at, ParamNames(params), ParamTypes(params)) == DeclareIn(front.env, params[last].name, params[last].ty)
  {
    var last := |params| - 1;
    var names, types := ParamNames(params), ParamTypes(params);
    DeclareSnoc(at, names, types);
    assert names[..last] == ParamNames(params[..last]) && types[..last] == ParamTypes(params[..last]);
    hide DeclareAllIn;
  }

  lemma {:induction false} DeclareSnoc(at: Scoped, names: seq<string>, types: seq<Type>)
    requires |names| == |types| != 0
    ensures var last := |names| - 1; var front := DeclareAllIn(at, names[..last], types[..last]);
      var all := DeclareAllIn(at, names, types);
      if front.Rejected? then all.Rejected?
      else if DeclareIn(front.env, names[last], types[last]).Rejected? then all.Rejected?
      else all == DeclareIn(front.env, names[last], types[last])
    decreases |names|
  {
    hide DeclareIn;
    var last := |names| - 1;
    if last > 0 {
      var first := DeclareIn(at, names[0], types[0]);
      if first.Walk? {
        DeclareSnoc(first.env, names[1..], types[1..]);
        assert names[1..][..last - 1] == names[..last][1..] && types[1..][..last - 1] == types[..last][1..];
      }
    } else {
      assert names[..0] == [] && names[1..] == [];
      DeclaresNothing(at, names[0], types[0]);
    }
  }

  lemma DeclaresNothing(at: Scoped, name: string, ty: Type)
    ensures DeclareIn(at, name, ty).Walk? ==> DeclareIn(at, name, ty).visits == []
  {
  }

  /** An accepted function of values is lowered exactly if no implicit conversion in it narrows. */
  lemma LoweredUnlessNarrowing(cx: Context, t: Tables, statics: seq<Static>, fn: Function)
    requires Describes(cx, t) && StaticsDeclared(t, statics) && SupportedFunction(cx, t, fn)
    ensures LowerFunction(cx, statics, fn).Ok? <==> NoneNarrows(t, fn.proto.ret, CheckFunction(t, fn).visits)
  {
    var u := UnitOf(cx, statics, fn.proto.ret);
    var start := Scoped([map[]], 0);
    var inner := DeclareAllIn(start, ParamNames(fn.proto.params), ParamTypes(fn.proto.params)).env;
    var entry := EntryCode(|statics|, |fn.proto.params|);
    StartShows(u, t, statics);
    ParamsLower(u, entry, t, start, fn.proto.params);
    var c1 := LowerParams(u, entry, fn.proto.params).code;
    if fn.proto.ret != Void {
      ZeroKnown(cx, t, fn.proto.ret);
    }
    hide Shows, Describes, CheckStmts, LowerStmts, VisitsSupported, NoneNarrows, StaticsDeclared, DeclareAllIn, LowerParams,
      IsValueType, Zero;
    StmtsLower(u, c1, t, 0, inner, fn.body.stmts);
  }

  lemma StartShows(u: Unit, t: Tables, statics: seq<Static>)
    requires u.globals == Globals(statics) && StaticsDeclared(t, statics)
    ensures Shows(u, map[], t, [map[]])
  {
    hide IsValueType;
    forall x: string ensures
      var entry, ty := Resolve(u, map[], x), VariableType(t, [map[]], x);
      (entry.Some? <==> ty.Some?) && (ty.Some? ==> entry.value.ty == ty.value && IsValueType(t.enums, ty.value))
    {
      var none: DeclScopes := [];
      LookupPushed(none, x);
      assert none + [map[]] == [map[]];
    }
  }
}
