/** The part of the language that the lowering covers, on the types that semantic analysis finds: numbers,
    bools and enums, and loops over ranges of ints. */
module Supported {
  import opened Ast
  import opened Wrappers
  import opened Values
  import opened Source
  import opened Sema
  import opened Control
  import opened Walks

  predicate IsNumber(t: Type) {
    t in {Bool, U8, U16, U32, U64, Int}
  }

  predicate IsValueType(enums: Enums, t: Type) {
    IsNumber(t) || (t.Named? && t.name in enums)
  }

  /** The functions and enums that a body can refer to are those of the tables. */
  ghost predicate Describes(cx: Context, t: Tables) {
    cx.enums == t.enums
    && (forall e | e in t.enums :: t.enums[e] != [] && DistinctNames(t.enums[e]))
    && (forall f | f in cx.signatures :: Declares(t, f, cx.signatures[f]))
  }

  predicate Declares(t: Tables, f: string, sig: Signature) {
    f in t.functions && t.functions[f] == Sig(sig.params, sig.ret, false) && TypeofBuiltin(f).None?
    && (forall i | 0 <= i < |sig.params| :: IsValueType(t.enums, sig.params[i]))
    && (sig.ret == Void || IsValueType(t.enums, sig.ret))
  }

  /** Operators take no enum values, calls are those of declared functions, and payloads have values. */
  predicate SupportedExpr(cx: Context, t: Tables, scopes: DeclScopes, e: Expr)
    decreases e, 0
  {
    match e
    case IntLit(_) => true
    case BoolLit(_) => true
    case Var(_) => true
    case Binary(op, lhs, rhs) =>
      op != In && SupportedExpr(cx, t, scopes, lhs) && SupportedExpr(cx, t, scopes, rhs)
      && !IsEnum(CheckedType(t, scopes, lhs))
    case Unary(_, operand) => SupportedExpr(cx, t, scopes, operand)
    case Call(callee, _, args) => callee in cx.signatures && AllSupported(cx, t, scopes, args)
    case MethodCall(receiver, variant, _, args) =>
      receiver.Var? && receiver.name in t.enums && AllSupported(cx, t, scopes, args)
      && PayloadSupported(t, t.enums[receiver.name], variant)
    case _ => false
  }

  predicate AllSupported(cx: Context, t: Tables, scopes: DeclScopes, es: seq<Expr>)
    decreases es, 0
  {
    es == [] || (SupportedExpr(cx, t, scopes, es[0]) && AllSupported(cx, t, scopes, es[1..]))
  }

  predicate IsEnum(t: Option<Type>) {
    t.Some? && t.value.Named?
  }

  predicate PayloadSupported(t: Tables, variants: seq<EnumVariant>, variant: string) {
    var i := VariantIndex(variants, variant);
    i.Some? && variants[i.value].payload.Some? ==> IsValueType(t.enums, variants[i.value].payload.value)
  }

  /** The types of a statement itself; the statements inside it are visited on their own. */
  predicate SupportedStmt(cx: Context, t: Tables, scopes: DeclScopes, s: Stmt) {
    match s
    case Return(e) => e.Some? ==> SupportedExpr(cx, t, scopes, e.value)
    case ExprStmt(e) => SupportedExpr(cx, t, scopes, e)
    case Let(_, ty, init) =>
      ty.Some? && IsValueType(t.enums, ty.value) && (init.Some? ==> SupportedExpr(cx, t, scopes, init.value))
    case Assign(_, e) => SupportedExpr(cx, t, scopes, e)
    case If(cond, _, _) => SupportedExpr(cx, t, scopes, cond)
    case While(cond, _) => SupportedExpr(cx, t, scopes, cond)
    case For(_, iter, _) =>
      IsRange(iter) && SupportedExpr(cx, t, scopes, iter.args[0]) && CheckedType(t, scopes, iter.args[0]) == Some(Int)
    case Switch(scrutinee, arms) =>
      SupportedExpr(cx, t, scopes, scrutinee) && BindingsSupported(t, CheckedType(t, scopes, scrutinee), arms)
    case Break => true
    case Continue => true
    case _ => false
  }

  /** Whatever a pattern binds is a value. */
  predicate BindingsSupported(t: Tables, scrutinee: Option<Type>, arms: seq<Arm>) {
    IsEnum(scrutinee) && scrutinee.value.name in t.enums ==>
      forall i | 0 <= i < |arms| && arms[i].pattern.Variant? && arms[i].pattern.binding.Some? ::
        PayloadSupported(t, t.enums[scrutinee.value.name], arms[i].pattern.variant)
  }

  ghost predicate VisitsSupported(cx: Context, t: Tables, visits: seq<Visit<Scoped>>) {
    forall i | 0 <= i < |visits| :: SupportedStmt(cx, t, visits[i].env.scopes, visits[i].stmt)
  }

  predicate PrototypeSupported(t: Tables, fn: Function) {
    (forall i | 0 <= i < |fn.proto.params| :: IsValueType(t.enums, fn.proto.params[i].ty))
    && (fn.proto.ret == Void || IsValueType(t.enums, fn.proto.ret))
  }

  /** An accepted function all of whose statements are covered. */
  ghost predicate SupportedFunction(cx: Context, t: Tables, fn: Function) {
    PrototypeSupported(t, fn) && CheckFunction(t, fn).Walk? && VisitsSupported(cx, t, CheckFunction(t, fn).visits)
  }

  lemma VisitsParts(cx: Context, t: Tables, a: seq<Visit<Scoped>>, b: seq<Visit<Scoped>>)
    ensures VisitsSupported(cx, t, a + b) <==> VisitsSupported(cx, t, a) && VisitsSupported(cx, t, b)
  {
    hide SupportedStmt;
    if VisitsSupported(cx, t, a + b) {
      forall i | 0 <= i < |a| ensures SupportedStmt(cx, t, a[i].env.scopes, a[i].stmt) {
        assert a[i] == (a + b)[i];
      }
      forall i | 0 <= i < |b| ensures SupportedStmt(cx, t, b[i].env.scopes, b[i].stmt) {
        assert b[i] == (a + b)[|a| + i];
      }
    }
  }
}
