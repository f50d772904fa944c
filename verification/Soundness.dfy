/** What semantic analysis promises: an accepted function runs without type errors, and returns a value of
    its return type. */
module Soundness {
  import opened Ast
  import opened Wrappers
  import opened Values
  import opened Scopes
  import opened Source
  import opened Control
  import opened Patterns
  import opened Sema
  import opened SemaAgrees
  import opened Walks
  import opened Supported
  import opened LowerExprs
  import opened SwitchCheck

  // ---------------------------------------------------------------------------
  // Values and scopes of values
  // ---------------------------------------------------------------------------

  /** A value of a type, down to the payloads. */
  predicate WellTyped(enums: Enums, v: Value, t: Type)
    decreases v
  {
    match v
    case Num(ty, bits) => ty == t && IsNumber(t) && bits < Modulus(t)
    case EnumVal(enum, tag, payload) =>
      t == Named(enum) && enum in enums && tag < |enums[enum]|
      && match payload
         case None => true
         case Some(w) => enums[enum][tag].payload.Some? && WellTyped(enums, w, enums[enum][tag].payload.value)
  }

  /** Calls of declared functions are answered with values of the right types. */
  ghost predicate RepliesTyped(cx: Context) {
    forall trace: seq<Event>, e: Event ::
      e.callee in cx.signatures && cx.signatures[e.callee].ret != Void
      ==> WellTyped(cx.enums, cx.reply(trace + [e]), cx.signatures[e.callee].ret)
  }

  predicate FrameTyped(enums: Enums, scope: map<string, Decl>, frame: map<string, Value>) {
    frame.Keys == scope.Keys && forall x | x in scope :: WellTyped(enums, frame[x], scope[x].ty)
  }

  function GlobalScope(t: Tables): map<string, Decl> {
    map x | x in t.globals :: Global(t.globals[x])
  }

  /** The statics, and the scopes inside. */
  function Stack(t: Tables, scopes: DeclScopes): DeclScopes {
    [GlobalScope(t)] + scopes
  }

  ghost predicate Stacked(enums: Enums, stack: DeclScopes, frames: Frames) {
    |frames| == |stack| && forall k | 0 <= k < |stack| :: FrameTyped(enums, stack[k], frames[k])
  }

  ghost predicate FramesTyped(t: Tables, scopes: DeclScopes, frames: Frames) {
    Stacked(t.enums, Stack(t, scopes), frames)
  }

  lemma {:induction false} StackShows(t: Tables, scopes: DeclScopes, x: string)
    ensures Lookup(Stack(t, scopes), x) == Visible(t, scopes, x)
    decreases |scopes|
  {
    var stack := Stack(t, scopes);
    if scopes == [] {
      assert stack == [GlobalScope(t)] && stack[..0] == [];
    } else {
      StackShows(t, Pop(scopes), x);
      assert Pop(stack) == Stack(t, Pop(scopes));
    }
  }

  lemma StackedNames(enums: Enums, stack: DeclScopes, frames: Frames)
    requires Stacked(enums, stack, frames)
    ensures SameNames(frames, stack)
  {
    hide WellTyped;
    forall k | 0 <= k < |stack| ensures frames[k].Keys == stack[k].Keys {
      assert FrameTyped(enums, stack[k], frames[k]);
    }
  }

  /** A visible variable has a value of its type. */
  lemma VariableTyped(t: Tables, scopes: DeclScopes, frames: Frames, x: string)
    requires FramesTyped(t, scopes, frames) && VariableType(t, scopes, x).Some?
    ensures Find(frames, x).Some? && Lookup(frames, x).Some?
    ensures WellTyped(t.enums, Lookup(frames, x).value, VariableType(t, scopes, x).value)
  {
    hide WellTyped;
    StackShows(t, scopes, x);
    StackedNames(t.enums, Stack(t, scopes), frames);
    FindSame(frames, Stack(t, scopes), x);
    var k := Find(frames, x).value;
    assert FrameTyped(t.enums, Stack(t, scopes)[k], frames[k]);
  }

  lemma PopTyped(t: Tables, scopes: DeclScopes, frames: Frames)
    requires FramesTyped(t, scopes, frames) && scopes != []
    ensures FramesTyped(t, Pop(scopes), Pop(frames))
  {
    hide FrameTyped;
    assert Stack(t, Pop(scopes)) == Pop(Stack(t, scopes));
  }

  lemma PushTyped(t: Tables, scopes: DeclScopes, frames: Frames, scope: map<string, Decl>, frame: map<string, Value>)
    requires FramesTyped(t, scopes, frames) && FrameTyped(t.enums, scope, frame)
    ensures FramesTyped(t, scopes + [scope], frames + [frame])
  {
    hide FrameTyped;
    assert Stack(t, scopes + [scope]) == Stack(t, scopes) + [scope];
  }

  lemma DeclareTyped(t: Tables, scopes: DeclScopes, frames: Frames, x: string, d: Decl, v: Value)
    requires FramesTyped(t, scopes, frames) && scopes != [] && WellTyped(t.enums, v, d.ty)
    ensures frames != [] && FramesTyped(t, Declare(scopes, x, d), Declare(frames, x, v))
  {
    hide WellTyped;
    var k := |scopes| - 1;
    assert FrameTyped(t.enums, Stack(t, scopes)[k + 1], frames[k + 1]);
    assert Stack(t, Declare(scopes, x, d)) == Stack(t, scopes)[k + 1 := scopes[k][x := d]];
  }

  lemma UpdateTyped(t: Tables, scopes: DeclScopes, frames: Frames, x: string, v: Value)
    requires FramesTyped(t, scopes, frames) && VariableType(t, scopes, x).Some?
    requires WellTyped(t.enums, v, VariableType(t, scopes, x).value)
    ensures Find(frames, x).Some? && FramesTyped(t, scopes, Update(frames, Find(frames, x).value, x, v))
  {
    hide WellTyped;
    StackShows(t, scopes, x);
    StackedNames(t.enums, Stack(t, scopes), frames);
    FindSame(frames, Stack(t, scopes), x);
    var k := Find(frames, x).value;
    assert FrameTyped(t.enums, Stack(t, scopes)[k], frames[k]);
  }

  lemma TypedIsOf(enums: Enums, v: Value, t: Type)
    requires WellTyped(enums, v, t)
    ensures TypeOfValue(v) == t && Typed(v, t) && IsValueType(enums, t)
  {
  }

  /** An assignment that semantic analysis accepts converts its value. */
  lemma ConvertTyped(enums: Enums, v: Value, source: Type, target: Type)
    requires WellTyped(enums, v, Concrete(source)) && Assignable(source, target) && IsValueType(enums, target)
    ensures Convert(v, target).Some? && WellTyped(enums, Convert(v, target).value, target)
  {
    hide AllAssignable;
    if v.Num? {
      assert v.bits % Modulus(target) < Modulus(target);
    }
  }

  lemma ConvertSame(enums: Enums, v: Value, t: Type)
    requires WellTyped(enums, v, t)
    ensures Convert(v, t) == Some(v)
  {
    if v.Num? {
      assert v.bits % Modulus(t) == v.bits;
    }
  }

  lemma ZeroTyped(cx: Context, t: Tables, ty: Type)
    requires Describes(cx, t) && IsValueType(t.enums, ty)
    ensures Zero(cx.enums, ty).Some? && WellTyped(t.enums, Zero(cx.enums, ty).value, ty)
  {
  }

  lemma NumberTyped(enums: Enums, n: int)
    ensures WellTyped(enums, Number(n), Int)
  {
  }

  lemma TruthWellTyped(enums: Enums, b: bool)
    ensures WellTyped(enums, Truth(b), Bool)
  {
  }

  // ---------------------------------------------------------------------------
  // Expressions
  // ---------------------------------------------------------------------------

  /** A value of the type, or arithmetic that has no result. */
  ghost predicate GivesTyped(enums: Enums, r: Eval<Value>, ty: Type) {
    match r
    case Undefined(fault) => fault == Arithmetic
    case Got(v, _) => WellTyped(enums, v, ty)
  }

  ghost predicate GivesAllTyped(enums: Enums, r: Eval<seq<Value>>, types: seq<Type>) {
    match r
    case Undefined(fault) => fault == Arithmetic
    case Got(vs, _) => |vs| == |types| && forall i | 0 <= i < |vs| :: WellTyped(enums, vs[i], Concrete(types[i]))
  }

  /** What is fixed while a function runs. */
  datatype World = World(cx: Context, t: Tables, rule: ContinueRule, ret: Type)

  ghost predicate Sound(w: World) {
    Describes(w.cx, w.t) && RepliesTyped(w.cx) && (w.ret == Void || IsValueType(w.t.enums, w.ret))
  }

  lemma {:induction false} ExprSound(w: World, scopes: DeclScopes, frames: Frames, trace: seq<Event>, e: Expr)
    requires Sound(w) && FramesTyped(w.t, scopes, frames)
    requires SupportedExpr(w.cx, w.t, scopes, e) && CheckedType(w.t, scopes, e).Some?
    ensures GivesTyped(w.t.enums, EvalExpr(w.cx, frames, trace, e), Concrete(CheckedType(w.t, scopes, e).value))
    decreases e, 1
  {
    hide Sound, FramesTyped, WellTyped, VariableType;
    match e
    case IntLit(n) => NumberTyped(w.t.enums, n);
    case BoolLit(b) => TruthWellTyped(w.t.enums, b);
    case Var(name) =>
      VariableTyped(w.t, scopes, frames, name);
      TypedIsOf(w.t.enums, Lookup(frames, name).value, VariableType(w.t, scopes, name).value);
    case Binary(_, _, _) => BinarySound(w, scopes, frames, trace, e);
    case Unary(op, operand) =>
      ExprSound(w, scopes, frames, trace, operand);
      var r := EvalExpr(w.cx, frames, trace, operand);
      if r.Got? {
        UnaryTyped(w.t.enums, op, r.value, CheckedType(w.t, scopes, operand).value);
      }
    case Call(_, _, _) => CallSound(w, scopes, frames, trace, e);
    case MethodCall(_, _, _, _) => EnumSound(w, scopes, frames, trace, e);
    case _ =>
  }

  lemma UnaryTyped(enums: Enums, op: UnOp, v: Value, ty: Type)
    requires WellTyped(enums, v, Concrete(ty))
    requires if op == Not then ty == Bool else if op == Neg then IsNumeric(ty) else IsInteger(ty)
    ensures ApplyUnary(op, v).Some? && WellTyped(enums, ApplyUnary(op, v).value, ty)
  {
  }

  lemma {:induction false} BinarySound(w: World, scopes: DeclScopes, frames: Frames, trace: seq<Event>, e: Expr)
    requires e.Binary? && Sound(w) && FramesTyped(w.t, scopes, frames)
    requires SupportedExpr(w.cx, w.t, scopes, e) && CheckedType(w.t, scopes, e).Some?
    ensures GivesTyped(w.t.enums, EvalExpr(w.cx, frames, trace, e), Concrete(CheckedType(w.t, scopes, e).value))
    decreases e, 0
  {
    hide Sound, FramesTyped, WellTyped, BinaryType, ApplyBinary, CommonInteger, BinaryFault, Concrete;
    var l, r := CheckedType(w.t, scopes, e.lhs).value, CheckedType(w.t, scopes, e.rhs).value;
    ExprSound(w, scopes, frames, trace, e.lhs);
    var a := EvalExpr(w.cx, frames, trace, e.lhs);
    if a.Got? {
      ExprSound(w, scopes, frames, a.trace, e.rhs);
      var b := EvalExpr(w.cx, frames, a.trace, e.rhs);
      if b.Got? {
        BinaryTyped(w.t.enums, e.op, a.value, b.value, l, r);
      }
    }
  }

  /** An accepted operation on values of its operand types has a result, unless it is a division, remainder
      or shift of integers. */
  lemma BinaryTyped(enums: Enums, op: BinOp, a: Value, b: Value, l: Type, r: Type)
    requires WellTyped(enums, a, Concrete(l)) && WellTyped(enums, b, Concrete(r))
    requires op != In && !l.Named? && BinaryType(op, l, r).Some?
    ensures GivesTyped(enums, Give(ApplyBinary(op, CommonInteger(TypeOfValue(a), TypeOfValue(b)), a, b), [], BinaryFault(op, a, b)),
                       Concrete(BinaryType(op, l, r).value))
  {
    var common := CommonInteger(TypeOfValue(a), TypeOfValue(b));
    OperandTypes(enums, op, a, b, l, r);
    CommonConcrete(TypeOfValue(a), TypeOfValue(b));
    ApplyBinaryType(op, common, a, b);
    CommonIsNumber(TypeOfValue(a), TypeOfValue(b));
    hide CommonInteger, BinaryType, ApplyBinary;
    var v := ApplyBinary(op, common, a, b);
    if v.Some? {
      NumberIsTyped(enums, v.value, if IsArithmetic(op) then common else Bool);
    }
  }

  lemma CommonIsNumber(l: Type, r: Type)
    ensures IsNumber(CommonInteger(l, r))
  {
  }

  lemma NumberIsTyped(enums: Enums, v: Value, t: Type)
    requires Typed(v, t) && IsNumber(t)
    ensures WellTyped(enums, v, t) && t != Void
  {
  }

  lemma OperandTypes(enums: Enums, op: BinOp, a: Value, b: Value, l: Type, r: Type)
    requires WellTyped(enums, a, Concrete(l)) && WellTyped(enums, b, Concrete(r))
    requires op != In && !l.Named? && BinaryType(op, l, r).Some?
    ensures a.Num? && b.Num?
    ensures BinaryType(op, l, r)
         == Some(if IsArithmetic(op) then CommonInteger(TypeOfValue(a), TypeOfValue(b)) else Bool)
    ensures ApplyBinary(op, CommonInteger(TypeOfValue(a), TypeOfValue(b)), a, b).None?
        ==> op in {Div, Mod, Shl, Shr} && IsIntegerValue(a) && IsIntegerValue(b)
  {
    NumericOperands(enums, op, a, b, l, r);
    hide WellTyped, BinaryType;
    ResultType(op, l, r);
    hide CommonInteger;
    NoResult(op, CommonInteger(TypeOfValue(a), TypeOfValue(b)), a, b);
  }

  lemma ResultType(op: BinOp, l: Type, r: Type)
    requires op != In && BinaryType(op, l, r).Some? && (IsArithmetic(op) ==> IsInteger(l) && IsInteger(r))
    ensures BinaryType(op, l, r) == Some(if IsArithmetic(op) then CommonInteger(l, r) else Bool)
  {
    BinaryAgrees(op, l, r);
    if IsArithmetic(op) {
      hide BinaryType, CommonInteger, TypeofBinary, IsArithmetic;
      PlainOperands(op, l, r);
    } else {
      hide CommonInteger, CommonNumeric, Sema.Comparable;
    }
  }

  lemma NoResult(op: BinOp, t: Type, a: Value, b: Value)
    requires a.Num? && b.Num? && op != In
    requires op != Eq && op != Ne ==>
      if op == And || op == Or then a.ty == Bool && b.ty == Bool else IsInteger(a.ty) && IsInteger(b.ty)
    ensures ApplyBinary(op, t, a, b).None? ==> op in {Div, Mod, Shl, Shr} && IsIntegerValue(a) && IsIntegerValue(b)
  {
    if op !in {Div, Mod, Shl, Shr, And, Or} {
      ArithDefined(op, t, a.bits, b.bits);
    }
    hide Arith;
  }

  lemma NumericOperands(enums: Enums, op: BinOp, a: Value, b: Value, l: Type, r: Type)
    requires WellTyped(enums, a, Concrete(l)) && WellTyped(enums, b, Concrete(r))
    requires op != In && !l.Named? && BinaryType(op, l, r).Some?
    ensures a.Num? && b.Num? && a.ty == Concrete(l) && b.ty == Concrete(r)
    ensures op != Eq && op != Ne ==>
      if op == And || op == Or then l == Bool && r == Bool else IsInteger(l) && IsInteger(r)
  {
    PlainType(enums, a, l);
    PlainType(enums, b, r);
    hide CommonNumeric, WellTyped, Assignable;
    if op == Eq || op == Ne {
      ComparesAlike(l, r);
    } else {
      hide Comparable;
    }
  }

  /** What is left of the types that a value may have. */
  lemma PlainType(enums: Enums, v: Value, t: Type)
    requires WellTyped(enums, v, Concrete(t))
    ensures t == Void || t.Named? || IsNumber(t)
    ensures t.Named? <==> v.EnumVal?
    ensures v.Num? ==> v.ty == Concrete(t)
  {
  }

  lemma ComparesAlike(l: Type, r: Type)
    requires Sema.Comparable(l, r)
    ensures r.Named? ==> l.Named?
  {
    hide AllAssignable;
  }

  lemma ArithDefined(op: BinOp, t: Type, a: nat, b: nat)
    requires op !in {Div, Mod, Shl, Shr, And, Or, In}
    ensures Arith(op, t, a, b).Some?
  {
    hide Bitwise, Quotient, Signed, Truth, Modulus;
  }

  lemma {:induction false} ArgsSound(w: World, scopes: DeclScopes, frames: Frames, trace: seq<Event>, es: seq<Expr>)
    requires Sound(w) && FramesTyped(w.t, scopes, frames)
    requires AllSupported(w.cx, w.t, scopes, es) && CheckedTypes(w.t, scopes, es).Some?
    ensures GivesAllTyped(w.t.enums, EvalArgs(w.cx, frames, trace, es), CheckedTypes(w.t, scopes, es).value)
    decreases es, 0
  {
    hide Sound, FramesTyped, WellTyped, CheckedType, EvalExpr, SupportedExpr, Concrete;
    if es != [] {
      ExprSound(w, scopes, frames, trace, es[0]);
      var first := EvalExpr(w.cx, frames, trace, es[0]);
      if first.Got? {
        ArgsSound(w, scopes, frames, first.trace, es[1..]);
      }
    }
  }

  lemma {:induction false} ConvertAllTyped(enums: Enums, vs: seq<Value>, sources: seq<Type>, targets: seq<Type>)
    requires |vs| == |sources| == |targets|
    requires forall i | 0 <= i < |vs| ::
      WellTyped(enums, vs[i], Concrete(sources[i])) && Assignable(sources[i], targets[i]) && IsValueType(enums, targets[i])
    ensures ConvertAll(vs, targets).Some?
    decreases |vs|
  {
    hide WellTyped, Assignable, Convert;
    if vs != [] {
      ConvertTyped(enums, vs[0], sources[0], targets[0]);
      ConvertAllTyped(enums, vs[1..], sources[1..], targets[1..]);
    }
  }

  lemma {:induction false} CallSound(w: World, scopes: DeclScopes, frames: Frames, trace: seq<Event>, e: Expr)
    requires e.Call? && Sound(w) && FramesTyped(w.t, scopes, frames)
    requires SupportedExpr(w.cx, w.t, scopes, e) && CheckedType(w.t, scopes, e).Some?
    ensures GivesTyped(w.t.enums, EvalExpr(w.cx, frames, trace, e), Concrete(CheckedType(w.t, scopes, e).value))
    decreases e, 0
  {
    CalleeDeclared(w, scopes, e);
    hide Sound, FramesTyped, WellTyped, ConvertAll, Answer, Assignable, IsValueType, CallType, TypeofBuiltin, Describes;
    var sig := w.cx.signatures[e.callee];
    ArgsSound(w, scopes, frames, trace, e.args);
    var values := EvalArgs(w.cx, frames, trace, e.args);
    if values.Got? {
      ConvertAllTyped(w.t.enums, values.value, CheckedTypes(w.t, scopes, e.args).value, sig.params);
      var event := Event(e.callee, ConvertAll(values.value, sig.params).value);
      AnswerTyped(w, sig, values.trace, event);
    }
  }

  lemma CalleeDeclared(w: World, scopes: DeclScopes, e: Expr)
    requires e.Call? && Sound(w) && e.callee in w.cx.signatures && CheckedType(w.t, scopes, e).Some?
    ensures e.callee != "sizeof" && e.callee != "alignof"
    ensures var sig := w.cx.signatures[e.callee]; var types := CheckedTypes(w.t, scopes, e.args);
      types.Some? && |types.value| == |sig.params| && CheckedType(w.t, scopes, e) == Some(sig.ret)
      && (sig.ret == Void || IsValueType(w.t.enums, sig.ret))
      && forall i | 0 <= i < |sig.params| :: Assignable(types.value[i], sig.params[i]) && IsValueType(w.t.enums, sig.params[i])
  {
    hide Assignable, IsValueType, RepliesTyped, CheckedTypes, TypeofBuiltin, BuiltinReturn;
    assert Declares(w.t, e.callee, w.cx.signatures[e.callee]);
    BuiltinsAgree(e.callee);
  }

  lemma AnswerTyped(w: World, sig: Signature, trace: seq<Event>, event: Event)
    requires Sound(w) && event.callee in w.cx.signatures && w.cx.signatures[event.callee] == sig
    requires sig.ret == Void || IsValueType(w.t.enums, sig.ret)
    ensures var r := Answer(w.cx, sig, trace + [event]); r.Some? && WellTyped(w.t.enums, r.value, Concrete(sig.ret))
  {
    if sig.ret == Void {
      NumberTyped(w.t.enums, 0);
    } else {
      var v := w.cx.reply(trace + [event]);
      assert WellTyped(w.cx.enums, v, sig.ret);
      ConvertSame(w.t.enums, v, sig.ret);
    }
  }

  lemma {:induction false} EnumSound(w: World, scopes: DeclScopes, frames: Frames, trace: seq<Event>, e: Expr)
    requires e.MethodCall? && Sound(w) && FramesTyped(w.t, scopes, frames)
    requires SupportedExpr(w.cx, w.t, scopes, e) && CheckedType(w.t, scopes, e).Some?
    ensures GivesTyped(w.t.enums, EvalExpr(w.cx, frames, trace, e), Concrete(CheckedType(w.t, scopes, e).value))
    decreases e, 0
  {
    assert w.cx.enums == w.t.enums;
    hide Sound, FramesTyped, Assignable, IsValueType;
    var variants := w.t.enums[e.receiver.name];
    var tag := VariantIndex(variants, e.methodName).value;
    if variants[tag].payload.Some? {
      assert |e.args| == 1 && e.args == [e.args[0]];
      assert CheckedTypes(w.t, scopes, e.args).value[0] == CheckedType(w.t, scopes, e.args[0]).value;
      ExprSound(w, scopes, frames, trace, e.args[0]);
      var r := EvalExpr(w.cx, frames, trace, e.args[0]);
      hide SupportedExpr, CheckedType, WellTyped;
      if r.Got? {
        ConvertTyped(w.t.enums, r.value, CheckedTypes(w.t, scopes, e.args).value[0], variants[tag].payload.value);
        EnumTyped(w.t.enums, e.receiver.name, tag, Convert(r.value, variants[tag].payload.value));
      }
    } else {
      EnumTyped(w.t.enums, e.receiver.name, tag, None);
    }
  }

  lemma EnumTyped(enums: Enums, enum: string, tag: nat, payload: Option<Value>)
    requires enum in enums && tag < |enums[enum]|
    requires payload.Some? ==> enums[enum][tag].payload.Some? && WellTyped(enums, payload.value, enums[enum][tag].payload.value)
    ensures WellTyped(enums, EnumVal(enum, tag, payload), Named(enum))
  {
  }

  // ---------------------------------------------------------------------------
  // Statements
  // ---------------------------------------------------------------------------

  /** Arithmetic without a result, or a round that must not be continued. */
  predicate Excused(w: World, fault: Fault) {
    fault == Arithmetic || (fault == Skipped && w.rule == NoRound)
  }

  /** A `break` or `continue` has its loop, and a result is of the return type. */
  ghost predicate SignalTyped(w: World, depth: nat, signal: Signal) {
    match signal
    case Normal => true
    case Broke => depth > 0
    case Continued => depth > 0
    case Returned(result) =>
      if result.None? then w.ret == Void else w.ret != Void && WellTyped(w.t.enums, result.value, w.ret)
  }

  /** After statements, the scopes they leave hold values of the declared types; after a jump, all but
      the innermost do. */
  ghost predicate RunTyped(w: World, depth: nat, before: DeclScopes, after: DeclScopes, r: Run) {
    match r
    case Wrong(fault) => Excused(w, fault)
    case OutOfFuel => true
    case Ran(env, signal) =>
      SignalTyped(w, depth, signal) && |env.frames| == |before| + 1
      && if signal == Normal then FramesTyped(w.t, after, env.frames) else FramesTyped(w.t, Pop(before), Pop(env.frames))
  }

  /** After a block, all scopes around it do. */
  ghost predicate BlockTyped(w: World, depth: nat, scopes: DeclScopes, r: Run) {
    match r
    case Wrong(fault) => Excused(w, fault)
    case OutOfFuel => true
    case Ran(env, signal) => SignalTyped(w, depth, signal) && FramesTyped(w.t, scopes, env.frames)
  }

  lemma BlockIsRun(w: World, depth: nat, scopes: DeclScopes, r: Run)
    requires BlockTyped(w, depth, scopes, r) && scopes != []
    ensures RunTyped(w, depth, scopes, scopes, r)
  {
    hide SignalTyped;
    if r.Ran? {
      PopTyped(w.t, scopes, r.env.frames);
      hide FrameTyped;
    }
  }

  /** Statements that stay where they are. */
  lemma StaysTyped(w: World, depth: nat, scopes: DeclScopes, env: Env, signal: Signal)
    requires FramesTyped(w.t, scopes, env.frames) && scopes != [] && SignalTyped(w, depth, signal)
    ensures RunTyped(w, depth, scopes, scopes, Ran(env, signal))
  {
    hide SignalTyped, FramesTyped;
    BlockIsRun(w, depth, scopes, Ran(env, signal));
  }

  lemma AsTyped(w: World, scopes: DeclScopes, env: Env, e: Expr, target: Type)
    requires Sound(w) && FramesTyped(w.t, scopes, env.frames) && IsValueType(w.t.enums, target)
    requires SupportedExpr(w.cx, w.t, scopes, e) && ExprChecks(w.t, scopes, e, target)
    ensures GivesTyped(w.t.enums, EvalAs(w.cx, env, e, target), target)
  {
    hide Sound, FramesTyped, Assignable, IsValueType, WellTyped;
    ExprSound(w, scopes, env.frames, env.trace, e);
    var r := EvalExpr(w.cx, env.frames, env.trace, e);
    if r.Got? {
      ConvertTyped(w.t.enums, r.value, CheckedType(w.t, scopes, e).value, target);
    }
  }

  lemma {:induction false} StmtSound(w: World, depth: nat, fuel: nat, env: Env, at: Scoped, s: Stmt)
    requires Sound(w) && at.scopes != [] && FramesTyped(w.t, at.scopes, env.frames)
    requires CheckStmt(w.t, w.ret, depth, at, s).Walk? && VisitsSupported(w.cx, w.t, CheckStmt(w.t, w.ret, depth, at, s).visits)
    ensures RunTyped(w, depth, at.scopes, CheckStmt(w.t, w.ret, depth, at, s).env.scopes,
                     ExecStmt(w.cx, w.rule, w.ret, fuel, env, s))
    decreases fuel, s, 2
  {
    hide Sound, FramesTyped, RunTyped, SupportedStmt, CheckInner, ExecStmt;
    var inner := CheckInner(w.t, w.ret, depth, at, s);
    VisitsParts(w.cx, w.t, [Visit(s, at)], inner.visits);
    assert SupportedStmt(w.cx, w.t, [Visit(s, at)][0].env.scopes, [Visit(s, at)][0].stmt);
    hide VisitsSupported;
    match s
    case Let(_, _, _) => LetSound(w, depth, fuel, env, at, s);
    case If(_, _, _) => IfSound(w, depth, fuel, env, at, s);
    case While(_, _) => WhileSound(w, depth, fuel, env, at, s);
    case For(_, _, _) => ForSound(w, depth, fuel, env, at, s);
    case Switch(_, _) => SwitchSound(w, depth, fuel, env, at, s);
    case _ => SimpleSound(w, depth, fuel, env, at, s);
  }

  lemma SimpleSound(w: World, depth: nat, fuel: nat, env: Env, at: Scoped, s: Stmt)
    requires Sound(w) && at.scopes != [] && FramesTyped(w.t, at.scopes, env.frames)
    requires !s.Let? && !s.If? && !s.While? && !s.For? && !s.Switch?
    requires SupportedStmt(w.cx, w.t, at.scopes, s) && CheckInner(w.t, w.ret, depth, at, s).Walk?
    ensures RunTyped(w, depth, at.scopes, CheckInner(w.t, w.ret, depth, at, s).env.scopes,
                     ExecStmt(w.cx, w.rule, w.ret, fuel, env, s))
  {
    assert w.ret == Void || IsValueType(w.t.enums, w.ret);
    hide Sound, FramesTyped, EvalExpr, EvalAs, WellTyped, SupportedExpr, CheckedType, Assignable, IsValueType;
    assert env.frames != [] by { assert |env.frames| == |Stack(w.t, at.scopes)| by { FramesMany(w.t, at.scopes, env.frames); } }
    match s
    case Return(e) =>
      if e.Some? {
        AsTyped(w, at.scopes, env, e.value, w.ret);
        var r := EvalAs(w.cx, env, e.value, w.ret);
        if r.Got? {
          StaysTyped(w, depth, at.scopes, Env(env.frames, r.trace), Returned(Some(r.value)));
        }
      } else {
        StaysTyped(w, depth, at.scopes, env, Returned(None));
      }
    case ExprStmt(e) =>
      ExprSound(w, at.scopes, env.frames, env.trace, e);
      var r := EvalExpr(w.cx, env.frames, env.trace, e);
      if r.Got? {
        StaysTyped(w, depth, at.scopes, Env(env.frames, r.trace), Normal);
      }
    case Assign(_, _) => AssignSound(w, depth, fuel, env, at, s);
    case Break => StaysTyped(w, depth, at.scopes, env, Broke);
    case Continue => StaysTyped(w, depth, at.scopes, env, Continued);
    case _ =>
  }

  lemma FramesMany(t: Tables, scopes: DeclScopes, frames: Frames)
    requires FramesTyped(t, scopes, frames)
    ensures |frames| == |scopes| + 1 && |Stack(t, scopes)| == |scopes| + 1
  {
    hide FrameTyped;
  }

  lemma AssignSound(w: World, depth: nat, fuel: nat, env: Env, at: Scoped, s: Stmt)
    requires s.Assign? && Sound(w) && at.scopes != [] && env.frames != [] && FramesTyped(w.t, at.scopes, env.frames)
    requires SupportedStmt(w.cx, w.t, at.scopes, s) && SimpleStmtChecks(w.t, w.ret, depth, at.scopes, s)
    ensures RunTyped(w, depth, at.scopes, at.scopes, ExecStmt(w.cx, w.rule, w.ret, fuel, env, s))
  {
    hide Sound, FramesTyped, EvalExpr, EvalAs, WellTyped, SupportedExpr, CheckedType, Assignable, IsValueType, RunTyped,
      VariableType;
    var ty := VariableType(w.t, at.scopes, s.target).value;
    VariableTyped(w.t, at.scopes, env.frames, s.target);
    TypedIsOf(w.t.enums, Lookup(env.frames, s.target).value, ty);
    AsTyped(w, at.scopes, env, s.rhs, ty);
    var r := EvalAs(w.cx, env, s.rhs, ty);
    if r.Got? {
      UpdateTyped(w.t, at.scopes, env.frames, s.target, r.value);
      var k := Find(env.frames, s.target).value;
      StaysTyped(w, depth, at.scopes, Env(Update(env.frames, k, s.target, r.value), r.trace), Normal);
    } else {
      FaultTyped(w, depth, at.scopes, r.fault);
    }
  }

  lemma FaultTyped(w: World, depth: nat, scopes: DeclScopes, fault: Fault)
    requires Excused(w, fault)
    ensures RunTyped(w, depth, scopes, scopes, Wrong(fault)) && BlockTyped(w, depth, scopes, Wrong(fault))
  {
  }

  lemma LetSound(w: World, depth: nat, fuel: nat, env: Env, at: Scoped, s: Stmt)
    requires s.Let? && Sound(w) && at.scopes != [] && FramesTyped(w.t, at.scopes, env.frames)
    requires SupportedStmt(w.cx, w.t, at.scopes, s) && CheckInner(w.t, w.ret, depth, at, s).Walk?
    ensures RunTyped(w, depth, at.scopes, CheckInner(w.t, w.ret, depth, at, s).env.scopes,
                     ExecStmt(w.cx, w.rule, w.ret, fuel, env, s))
  {
    var ty := s.ty.value;
    FramesMany(w.t, at.scopes, env.frames);
    if s.init.Some? {
      AsTyped(w, at.scopes, env, s.init.value, ty);
    } else {
      ZeroTyped(w.cx, w.t, ty);
    }
    hide Sound, EvalAs, WellTyped, SupportedExpr, CheckedType, Assignable, IsValueType, Zero;
    var r := if s.init.Some? then EvalAs(w.cx, env, s.init.value, ty) else Give(Zero(w.cx.enums, ty), env.trace, IllTyped);
    if r.Got? {
      DeclareTyped(w.t, at.scopes, env.frames, s.name, Local(ty, at.next), r.value);
      hide FramesTyped;
    }
  }

  lemma {:induction false} StmtsSound(w: World, depth: nat, fuel: nat, env: Env, at: Scoped, ss: seq<Stmt>)
    requires Sound(w) && at.scopes != [] && FramesTyped(w.t, at.scopes, env.frames)
    requires CheckStmts(w.t, w.ret, depth, at, ss).Walk? && VisitsSupported(w.cx, w.t, CheckStmts(w.t, w.ret, depth, at, ss).visits)
    ensures RunTyped(w, depth, at.scopes, CheckStmts(w.t, w.ret, depth, at, ss).env.scopes,
                     ExecStmts(w.cx, w.rule, w.ret, fuel, env, ss))
    decreases fuel, ss, 0
  {
    FramesMany(w.t, at.scopes, env.frames);
    hide Sound, FramesTyped, CheckStmt, ExecStmt, VisitsSupported, SignalTyped;
    if ss == [] {
      TrivialRun(w, depth, at.scopes, env);
    } else {
      var first := CheckStmt(w.t, w.ret, depth, at, ss[0]);
      VisitsParts(w.cx, w.t, first.visits, CheckStmts(w.t, w.ret, depth, first.env, ss[1..]).visits);
      StmtSound(w, depth, fuel, env, at, ss[0]);
      var r := ExecStmt(w.cx, w.rule, w.ret, fuel, env, ss[0]);
      if r.Ran? && r.signal == Normal {
        StmtsSound(w, depth, fuel, r.env, first.env, ss[1..]);
      }
    }
  }

  lemma TrivialRun(w: World, depth: nat, scopes: DeclScopes, env: Env)
    requires FramesTyped(w.t, scopes, env.frames) && scopes != []
    ensures RunTyped(w, depth, scopes, scopes, Ran(env, Normal))
  {
    StaysTyped(w, depth, scopes, env, Normal);
  }

  /** Statements in a scope of their own. */
  lemma {:induction false} ScopeSound(
    w: World, depth: nat, fuel: nat, env: Env, inner: Scoped, frame: map<string, Value>, b: Block)
    requires Sound(w) && inner.scopes != [] && FramesTyped(w.t, inner.scopes, env.frames + [frame])
    requires var c := CheckStmts(w.t, w.ret, depth, inner, b.stmts); c.Walk? && VisitsSupported(w.cx, w.t, c.visits)
    ensures BlockTyped(w, depth, Pop(inner.scopes), ExecBlock(w.cx, w.rule, w.ret, fuel, env, frame, b))
    decreases fuel, b, 1
  {
    hide Sound, FramesTyped, CheckStmts, ExecStmts, VisitsSupported, SignalTyped;
    StmtsSound(w, depth, fuel, Env(env.frames + [frame], env.trace), inner, b.stmts);
    var r := ExecStmts(w.cx, w.rule, w.ret, fuel, Env(env.frames + [frame], env.trace), b.stmts);
    var after := CheckStmts(w.t, w.ret, depth, inner, b.stmts).env.scopes;
    if r.Ran? && r.signal == Normal {
      PopTyped(w.t, after, r.env.frames);
    }
  }

  lemma {:induction false} BlockSound(w: World, depth: nat, fuel: nat, env: Env, at: Scoped, b: Block)
    requires Sound(w) && at.scopes != [] && FramesTyped(w.t, at.scopes, env.frames)
    requires var c := CheckBlock(w.t, w.ret, depth, at, b); c.Walk? && VisitsSupported(w.cx, w.t, c.visits)
    ensures BlockTyped(w, depth, at.scopes, ExecBlock(w.cx, w.rule, w.ret, fuel, env, map[], b))
    decreases fuel, b, 2
  {
    OpenTyped(w.t, at, env.frames);
    hide Sound, FramesTyped, CheckStmts, ExecBlock, VisitsSupported;
    assert Pop(OpenScope(at).scopes) == at.scopes;
    ScopeSound(w, depth, fuel, env, OpenScope(at), map[], b);
  }

  lemma OpenTyped(t: Tables, at: Scoped, frames: Frames)
    requires FramesTyped(t, at.scopes, frames)
    ensures FramesTyped(t, OpenScope(at).scopes, frames + [map[]])
  {
    PushTyped(t, at.scopes, frames, map[], map[]);
  }

  lemma {:induction false} CondSound(w: World, at: Scoped, env: Env, cond: Expr)
    requires Sound(w) && FramesTyped(w.t, at.scopes, env.frames)
    requires SupportedExpr(w.cx, w.t, at.scopes, cond) && CheckedType(w.t, at.scopes, cond) == Some(Bool)
    ensures var v := EvalExpr(w.cx, env.frames, env.trace, cond);
      if v.Undefined? then v.fault == Arithmetic else v.value.Num? && v.value.ty == Bool
  {
    hide Sound, FramesTyped, SupportedExpr, CheckedType;
    ExprSound(w, at.scopes, env.frames, env.trace, cond);
  }

  lemma {:induction false} IfSound(w: World, depth: nat, fuel: nat, env: Env, at: Scoped, s: Stmt)
    requires s.If? && Sound(w) && at.scopes != [] && FramesTyped(w.t, at.scopes, env.frames)
    requires SupportedStmt(w.cx, w.t, at.scopes, s)
    requires var c := CheckInner(w.t, w.ret, depth, at, s); c.Walk? && VisitsSupported(w.cx, w.t, c.visits)
    ensures RunTyped(w, depth, at.scopes, CheckInner(w.t, w.ret, depth, at, s).env.scopes,
                     ExecStmt(w.cx, w.rule, w.ret, fuel, env, s))
    decreases fuel, s, 1
  {
    FramesMany(w.t, at.scopes, env.frames);
    hide Sound, FramesTyped, CheckBlock, ExecBlock, VisitsSupported, RunTyped, CheckedType, SupportedExpr, EvalExpr;
    CondSound(w, at, env, s.cond);
    var v := EvalExpr(w.cx, env.frames, env.trace, s.cond);
    if v.Undefined? {
      FaultTyped(w, depth, at.scopes, v.fault);
    } else {
      var env1 := Env(env.frames, v.trace);
      var thn := CheckBlock(w.t, w.ret, depth, at, s.thn);
      if s.els.Some? {
        VisitsParts(w.cx, w.t, thn.visits, CheckBlock(w.t, w.ret, depth, thn.env, s.els.value).visits);
      }
      if v.value.bits == 1 {
        BlockSound(w, depth, fuel, env1, at, s.thn);
        BlockIsRun(w, depth, at.scopes, ExecBlock(w.cx, w.rule, w.ret, fuel, env1, map[], s.thn));
      } else if s.els.Some? {
        BlockSound(w, depth, fuel, env1, thn.env, s.els.value);
        BlockIsRun(w, depth, at.scopes, ExecBlock(w.cx, w.rule, w.ret, fuel, env1, map[], s.els.value));
      } else {
        TrivialRun(w, depth, at.scopes, env1);
      }
    }
  }

  /** A loop takes the jumps of its body. */
  lemma LoopTyped(w: World, depth: nat, scopes: DeclScopes, r: Run)
    requires BlockTyped(w, depth + 1, scopes, r)
    ensures r.Ran? && (r.signal == Broke || r.signal.Returned?) ==> BlockTyped(w, depth, scopes, AfterLoop(r))
    ensures !r.Ran? ==> BlockTyped(w, depth, scopes, AfterLoop(r))
    ensures r.Ran? ==> FramesTyped(w.t, scopes, r.env.frames)
  {
    hide FramesTyped, WellTyped;
  }

  lemma {:induction false} WhileSound(w: World, depth: nat, fuel: nat, env: Env, at: Scoped, s: Stmt)
    requires s.While? && Sound(w) && at.scopes != [] && FramesTyped(w.t, at.scopes, env.frames)
    requires SupportedStmt(w.cx, w.t, at.scopes, s)
    requires var c := CheckInner(w.t, w.ret, depth, at, s); c.Walk? && VisitsSupported(w.cx, w.t, c.visits)
    ensures RunTyped(w, depth, at.scopes, CheckInner(w.t, w.ret, depth, at, s).env.scopes,
                     ExecStmt(w.cx, w.rule, w.ret, fuel, env, s))
    decreases fuel, s, 1
  {
    FramesMany(w.t, at.scopes, env.frames);
    hide Sound, FramesTyped, CheckBlock, ExecWhile, VisitsSupported, RunTyped, BlockTyped, CheckedType, SupportedExpr;
    RoundsSound(w, depth, fuel, env, at, s.cond, s.body);
    BlockIsRun(w, depth, at.scopes, ExecWhile(w.cx, w.rule, w.ret, fuel, env, s.cond, s.body));
  }

  lemma {:induction false} RoundsSound(w: World, depth: nat, fuel: nat, env: Env, at: Scoped, cond: Expr, body: Block)
    requires Sound(w) && at.scopes != [] && FramesTyped(w.t, at.scopes, env.frames)
    requires SupportedExpr(w.cx, w.t, at.scopes, cond) && CheckedType(w.t, at.scopes, cond) == Some(Bool)
    requires var c := CheckBlock(w.t, w.ret, depth + 1, at, body); c.Walk? && VisitsSupported(w.cx, w.t, c.visits)
    ensures BlockTyped(w, depth, at.scopes, ExecWhile(w.cx, w.rule, w.ret, fuel, env, cond, body))
    decreases fuel, body, 3
  {
    hide Sound, FramesTyped, CheckBlock, ExecBlock, VisitsSupported, BlockTyped, CheckedType, SupportedExpr, EvalExpr;
    if fuel == 0 {
      NotYetTyped(w, depth, at.scopes);
    } else {
      CondSound(w, at, env, cond);
      var v := EvalExpr(w.cx, env.frames, env.trace, cond);
      if v.Undefined? {
        FaultTyped(w, depth, at.scopes, v.fault);
      } else {
        var env1 := Env(env.frames, v.trace);
        var round := ExecBlock(w.cx, w.rule, w.ret, fuel - 1, env1, map[], body);
        BlockSound(w, depth + 1, fuel - 1, env1, at, body);
        LoopTyped(w, depth, at.scopes, round);
        DoneTyped(w, depth, at.scopes, env1);
        if round.Ran? && (round.signal == Normal || round.signal == Continued) {
          RoundsSound(w, depth, fuel - 1, round.env, at, cond, body);
        }
      }
    }
  }

  lemma NotYetTyped(w: World, depth: nat, scopes: DeclScopes)
    ensures BlockTyped(w, depth, scopes, OutOfFuel)
  {
  }

  lemma DoneTyped(w: World, depth: nat, scopes: DeclScopes, env: Env)
    requires FramesTyped(w.t, scopes, env.frames)
    ensures BlockTyped(w, depth, scopes, Ran(env, Normal))
  {
    hide FramesTyped;
  }

  lemma {:induction false} ForSound(w: World, depth: nat, fuel: nat, env: Env, at: Scoped, s: Stmt)
    requires s.For? && Sound(w) && at.scopes != [] && FramesTyped(w.t, at.scopes, env.frames)
    requires SupportedStmt(w.cx, w.t, at.scopes, s)
    requires var c := CheckInner(w.t, w.ret, depth, at, s); c.Walk? && VisitsSupported(w.cx, w.t, c.visits)
    ensures RunTyped(w, depth, at.scopes, CheckInner(w.t, w.ret, depth, at, s).env.scopes,
                     ExecStmt(w.cx, w.rule, w.ret, fuel, env, s))
    decreases fuel, s, 1
  {
    FramesMany(w.t, at.scopes, env.frames);
    RangeIsInt(w, at.scopes, s.iter);
    hide Sound, FramesTyped, CheckStmts, ExecFor, VisitsSupported, RunTyped, BlockTyped, CheckedType, SupportedExpr, EvalExpr,
      IterType;
    ExprSound(w, at.scopes, env.frames, env.trace, s.iter.args[0]);
    var v := EvalExpr(w.cx, env.frames, env.trace, s.iter.args[0]);
    if v.Undefined? {
      FaultTyped(w, depth, at.scopes, v.fault);
    } else {
      TypedIsOf(w.t.enums, v.value, Int);
      var env1 := Env(env.frames, v.trace);
      RangeRoundsSound(w, depth, fuel, env1, at, 0, Signed(v.value.bits), s.variable, s.body);
      BlockIsRun(w, depth, at.scopes,
                 ExecFor(w.cx, w.rule, w.ret, fuel, env1, 0, Signed(v.value.bits), s.variable, s.body));
    }
  }

  lemma RangeIsInt(w: World, scopes: DeclScopes, iter: Expr)
    requires IsRange(iter) && CheckedType(w.t, scopes, iter).Some?
    ensures IterType(w.t, scopes, iter) == Some(Int)
  {
    hide CheckedTypes;
  }

  lemma {:induction false} RangeRoundsSound(
    w: World, depth: nat, fuel: nat, env: Env, at: Scoped, i: nat, limit: int, variable: string, body: Block)
    requires Sound(w) && at.scopes != [] && FramesTyped(w.t, at.scopes, env.frames)
    requires var inner := DeclareIn(OpenScope(at), variable, Int);
      inner.Walk? && var c := CheckStmts(w.t, w.ret, depth + 1, inner.env, body.stmts);
                     c.Walk? && VisitsSupported(w.cx, w.t, c.visits)
    ensures BlockTyped(w, depth, at.scopes, ExecFor(w.cx, w.rule, w.ret, fuel, env, i, limit, variable, body))
    decreases fuel, body, 3
  {
    if fuel == 0 {
      NotYetTyped(w, depth, at.scopes);
    } else {
      var inner := DeclareIn(OpenScope(at), variable, Int).env;
      var frame := map[variable := Number(i)];
      VariableScope(w.t, at, env.frames, variable, Number(i));
      hide Sound, FramesTyped, CheckStmts, ExecBlock, VisitsSupported, BlockTyped, DeclareIn;
      DoneTyped(w, depth, at.scopes, env);
      var round := ExecBlock(w.cx, w.rule, w.ret, fuel - 1, env, frame, body);
      ScopeSound(w, depth + 1, fuel - 1, env, inner, frame, body);
      LoopTyped(w, depth, at.scopes, round);
      if w.rule == NoRound {
        FaultTyped(w, depth, at.scopes, Skipped);
      }
      if round.Ran? && (round.signal == Normal || round.signal == Continued) {
        var next := if round.signal == Normal || w.rule == NextRound then i + 1 else i;
        RangeRoundsSound(w, depth, fuel - 1, round.env, at, next, limit, variable, body);
      }
    }
  }

  /** The scope of a loop variable. */
  lemma VariableScope(t: Tables, at: Scoped, frames: Frames, x: string, v: Value)
    requires FramesTyped(t, at.scopes, frames) && WellTyped(t.enums, v, Int) && DeclareIn(OpenScope(at), x, Int).Walk?
    ensures var inner := DeclareIn(OpenScope(at), x, Int).env;
      inner.scopes != [] && Pop(inner.scopes) == at.scopes && FramesTyped(t, inner.scopes, frames + [map[x := v]])
  {
    BoundScope(t, at, frames, x, Int, v);
  }

  lemma BoundScope(t: Tables, at: Scoped, frames: Frames, x: string, ty: Type, v: Value)
    requires FramesTyped(t, at.scopes, frames) && WellTyped(t.enums, v, ty) && DeclareIn(OpenScope(at), x, ty).Walk?
    ensures var inner := DeclareIn(OpenScope(at), x, ty).env;
      inner.scopes != [] && Pop(inner.scopes) == at.scopes && FramesTyped(t, inner.scopes, frames + [map[x := v]])
  {
    hide WellTyped;
    PushTyped(t, at.scopes, frames, map[x := Local(ty, at.next)], map[x := v]);
    var empty: map<string, Decl> := map[];
    assert DeclareIn(OpenScope(at), x, ty).env.scopes == at.scopes + [empty[x := Local(ty, at.next)]];
    assert Pop(at.scopes + [empty[x := Local(ty, at.next)]]) == at.scopes;
    hide FramesTyped;
  }

  lemma {:induction false} SwitchSound(w: World, depth: nat, fuel: nat, env: Env, at: Scoped, s: Stmt)
    requires s.Switch? && Sound(w) && at.scopes != [] && FramesTyped(w.t, at.scopes, env.frames)
    requires SupportedStmt(w.cx, w.t, at.scopes, s)
    requires var c := CheckInner(w.t, w.ret, depth, at, s); c.Walk? && VisitsSupported(w.cx, w.t, c.visits)
    ensures RunTyped(w, depth, at.scopes, CheckInner(w.t, w.ret, depth, at, s).env.scopes,
                     ExecStmt(w.cx, w.rule, w.ret, fuel, env, s))
    decreases fuel, s, 1
  {
    FramesMany(w.t, at.scopes, env.frames);
    assert w.cx.enums == w.t.enums;
    hide Sound, FramesTyped, CheckArms, ExecArm, VisitsSupported, RunTyped, BlockTyped, CheckedType, SupportedExpr, EvalExpr,
      AcceptedSwitch, BindingsSupported, ArmScope, SelectArm, PayloadSupported;
    ExprSound(w, at.scopes, env.frames, env.trace, s.scrutinee);
    var v := EvalExpr(w.cx, env.frames, env.trace, s.scrutinee);
    if v.Undefined? {
      FaultTyped(w, depth, at.scopes, v.fault);
    } else {
      var enum := CheckedType(w.t, at.scopes, s.scrutinee).value.name;
      TypedIsOf(w.t.enums, v.value, Named(enum));
      var env1 := Env(env.frames, v.trace);
      ArmsSound(w, depth, fuel, env1, at, s.arms, enum, v.value);
      EnumKnown(w.t.enums, v.value, enum);
      SwitchRuns(w, fuel, env, s, v);
      BlockIsRun(w, depth, at.scopes, TakeArm(w, fuel, env1, s.arms, v.value));
    }
  }

  lemma EnumKnown(enums: Enums, v: Value, enum: string)
    requires WellTyped(enums, v, Named(enum))
    ensures v.EnumVal? && v.enum == enum && enum in enums && v.tag < |enums[enum]|
  {
  }

  /** What a switch on the value does. */
  function TakeArm(w: World, fuel: nat, env: Env, arms: seq<Arm>, v: Value): Run
    requires v.EnumVal? && v.enum in w.cx.enums
  {
    var index := SelectArm(w.cx.enums[v.enum], arms, v.tag);
    if index.None? then Wrong(IllTyped)
    else
      var scope := ArmScope(w.cx, arms[index.value].pattern, v);
      if scope.None? then Wrong(IllTyped)
      else ExecArm(w.cx, w.rule, w.ret, fuel, env, scope.value, arms[index.value])
  }

  lemma SwitchRuns(w: World, fuel: nat, env: Env, s: Stmt, v: Eval<Value>)
    requires s.Switch? && env.frames != [] && EvalExpr(w.cx, env.frames, env.trace, s.scrutinee) == v && v.Got?
    requires v.value.EnumVal? && v.value.enum in w.cx.enums
    ensures ExecStmt(w.cx, w.rule, w.ret, fuel, env, s) == TakeArm(w, fuel, Env(env.frames, v.trace), s.arms, v.value)
  {
    hide EvalExpr, SelectArm, ArmScope, ExecArm;
  }

  /** The scopes inside an arm. */
  function ArmInner(at: Scoped, variants: seq<EnumVariant>, arm: Arm): Walk<Scoped> {
    var binding := Binding(variants, arm.pattern);
    if binding.None? then Rejected
    else if binding.value.None? then Walk(OpenScope(at), [])
    else DeclareIn(OpenScope(at), binding.value.value.name, binding.value.value.ty)
  }

  lemma {:induction false} ArmSound(
    w: World, depth: nat, fuel: nat, env: Env, at: Scoped, inner: Scoped, scope: map<string, Value>, arm: Arm)
    requires Sound(w) && inner.scopes != [] && Pop(inner.scopes) == at.scopes
    requires FramesTyped(w.t, inner.scopes, env.frames + [scope])
    requires var c := CheckStmts(w.t, w.ret, depth, inner, arm.body.stmts); c.Walk? && VisitsSupported(w.cx, w.t, c.visits)
    ensures BlockTyped(w, depth, at.scopes, ExecArm(w.cx, w.rule, w.ret, fuel, env, scope, arm))
    decreases fuel, arm, 1
  {
    hide Sound, FramesTyped, CheckStmts, ExecBlock, VisitsSupported, BlockTyped;
    ScopeSound(w, depth, fuel, env, inner, scope, arm.body);
  }

  /** A value of the enum has an arm, and what the arm binds has its type. */
  lemma {:induction false} ArmsSound(w: World, depth: nat, fuel: nat, env: Env, at: Scoped, arms: seq<Arm>, enum: string, v: Value)
    requires Sound(w) && w.cx.enums == w.t.enums && at.scopes != [] && FramesTyped(w.t, at.scopes, env.frames)
    requires WellTyped(w.t.enums, v, Named(enum)) && v.EnumVal? && v.enum == enum && enum in w.t.enums
    requires AcceptedSwitch(enum, w.t.enums[enum], arms) && BindingsSupported(w.t, Some(Named(enum)), arms)
    requires var c := CheckArms(w.t, w.ret, depth, at, w.t.enums[enum], arms); c.Walk? && VisitsSupported(w.cx, w.t, c.visits)
    ensures BlockTyped(w, depth, at.scopes, TakeArm(w, fuel, env, arms, v))
    decreases fuel, arms, 1
  {
    var variants := w.t.enums[enum];
    EnumKnown(w.t.enums, v, enum);
    var some := SomeArmMatches(enum, variants, arms, v.tag);
    var i := SelectArm(variants, arms, v.tag).value;
    hide AcceptedSwitch, SelectArm, FramesTyped, Sound, CheckArms, CheckStmts, ExecArm, BlockTyped, VisitsSupported, Binding, DeclareIn,
      Matches;
    var from := ArmAt(w, depth, at, variants, arms, i);
    var start := at.(next := from);
    var scope := ArmOpens(w, start, env, enum, arms, i, v);
    ArmSound(w, depth, fuel, env, start, ArmInner(start, variants, arms[i]).env, scope, arms[i]);
  }

  /** The arm was checked from the scopes around the switch. */
  lemma {:induction false} ArmAt(w: World, depth: nat, at: Scoped, variants: seq<EnumVariant>, arms: seq<Arm>, i: nat)
    returns (from: nat)
    requires i < |arms|
    requires var c := CheckArms(w.t, w.ret, depth, at, variants, arms); c.Walk? && VisitsSupported(w.cx, w.t, c.visits)
    ensures var inner := ArmInner(at.(next := from), variants, arms[i]);
      inner.Walk? && var c := CheckStmts(w.t, w.ret, depth, inner.env, arms[i].body.stmts);
                     c.Walk? && VisitsSupported(w.cx, w.t, c.visits)
    decreases |arms|
  {
    hide CheckStmts, VisitsSupported, Binding, DeclareIn, CheckArm;
    var first := CheckArm(w.t, w.ret, depth, at, variants, arms[0]);
    VisitsParts(w.cx, w.t, first.visits, CheckArms(w.t, w.ret, depth, first.env, variants, arms[1..]).visits);
    if i == 0 {
      from := at.next;
      ArmParts(w, depth, at, variants, arms[0]);
    } else {
      assert at.(next := first.env.next) == first.env;
      from := ArmAt(w, depth, first.env, variants, arms[1..], i - 1);
      assert first.env.(next := from) == at.(next := from);
    }
  }

  lemma ArmParts(w: World, depth: nat, at: Scoped, variants: seq<EnumVariant>, arm: Arm)
    requires CheckArm(w.t, w.ret, depth, at, variants, arm).Walk?
    ensures var inner := ArmInner(at, variants, arm);
      inner.Walk? && var c := CheckStmts(w.t, w.ret, depth, inner.env, arm.body.stmts);
                     c.Walk? && c.visits == CheckArm(w.t, w.ret, depth, at, variants, arm).visits
  {
    hide CheckStmts, Binding, DeclareIn;
  }

  /** The scope that the arm opens. */
  lemma ArmOpens(w: World, at: Scoped, env: Env, enum: string, arms: seq<Arm>, i: nat, v: Value)
    returns (scope: map<string, Value>)
    requires Sound(w) && w.cx.enums == w.t.enums && FramesTyped(w.t, at.scopes, env.frames)
    requires enum in w.t.enums && WellTyped(w.t.enums, v, Named(enum)) && v.EnumVal? && v.enum == enum && i < |arms|
    requires Matches(w.t.enums[enum], arms[i].pattern, v.tag) && BindingsSupported(w.t, Some(Named(enum)), arms)
    requires ArmInner(at, w.t.enums[enum], arms[i]).Walk?
    ensures ArmScope(w.cx, arms[i].pattern, v) == Some(scope)
    ensures var inner := ArmInner(at, w.t.enums[enum], arms[i]).env;
      inner.scopes != [] && Pop(inner.scopes) == at.scopes && FramesTyped(w.t, inner.scopes, env.frames + [scope])
  {
    var p, variants := arms[i].pattern, w.t.enums[enum];
    if p.Wildcard? || p.binding.None? {
      hide Sound, FramesTyped, WellTyped, BindingsSupported;
      scope := map[];
      OpenTyped(w.t, at, env.frames);
      assert Pop(OpenScope(at).scopes) == at.scopes;
    } else {
      assert DistinctNames(variants);
      EnumKnown(w.t.enums, v, enum);
      SameIndex(variants, p.variant, v.tag);
      assert PayloadSupported(w.t, variants, p.variant);
      var ty := variants[v.tag].payload.value;
      PayloadTyped(w, enum, v, ty);
      hide Sound, FramesTyped, WellTyped, BindingsSupported, PayloadSupported, PayloadOf, IsValueType;
      var payload := PayloadOf(w.cx.enums, v, ty).value;
      scope := map[p.binding.value := payload];
      BoundScope(w.t, at, env.frames, p.binding.value, ty, payload);
    }
  }

  lemma PayloadTyped(w: World, enum: string, v: Value, ty: Type)
    requires Sound(w) && enum in w.t.enums && WellTyped(w.t.enums, v, Named(enum)) && v.EnumVal? && v.enum == enum
    requires w.t.enums[enum][v.tag].payload == Some(ty) && IsValueType(w.t.enums, ty)
    ensures PayloadOf(w.cx.enums, v, ty).Some? && WellTyped(w.t.enums, PayloadOf(w.cx.enums, v, ty).value, ty)
  {
    if v.payload.None? {
      ZeroTyped(w.cx, w.t, ty);
    } else {
      ConvertSame(w.t.enums, v.payload.value, ty);
    }
  }

  // ---------------------------------------------------------------------------
  // Functions
  // ---------------------------------------------------------------------------

  predicate AllDistinct(names: seq<string>) {
    forall i, j | 0 <= i < j < |names| :: names[i] != names[j]
  }

  /** What the scope of the parameters holds. */
  lemma {:induction false} ScopeOfNames(env: Scoped, names: seq<string>, types: seq<Type>)
    requires env.scopes != [] && |names| == |types| && DeclareAllIn(env, names, types).Walk?
    ensures var was, now := env.scopes[|env.scopes| - 1], DeclareAllIn(env, names, types).env.scopes;
      |now| == |env.scopes| && Pop(now) == Pop(env.scopes)
      && var last := now[|now| - 1];
         (forall x :: x in last <==> x in was || x in names)
         && (forall x | x in was :: last[x] == was[x])
         && (forall i | 0 <= i < |names| :: last[names[i]].ty == types[i] && names[i] !in was)
    ensures AllDistinct(names)
    decreases |names|
  {
    if names != [] {
      var env1 := DeclareIn(env, names[0], types[0]).env;
      ScopeOfNames(env1, names[1..], types[1..]);
      hide DeclareAllIn;
      var was, mid := env.scopes[|env.scopes| - 1], env1.scopes[|env1.scopes| - 1];
      assert mid == was[names[0] := Local(types[0], env.next)];
      DistinctCons(names, mid);
      var last := DeclareAllIn(env1, names[1..], types[1..]).env.scopes[|env.scopes| - 1];
      forall i | 0 <= i < |names| ensures names[i] in last && last[names[i]].ty == types[i] && names[i] !in was {
        if i > 0 {
          assert names[i] == names[1..][i - 1] && types[i] == types[1..][i - 1];
        }
      }
    }
  }

  lemma DistinctCons(names: seq<string>, scope: map<string, Decl>)
    requires names != [] && AllDistinct(names[1..]) && names[0] in scope
    requires forall i | 0 <= i < |names[1..]| :: names[1..][i] !in scope
    ensures AllDistinct(names)
    ensures forall x :: x in names <==> x == names[0] || x in names[1..]
  {
    forall i, j | 0 <= i < j < |names| ensures names[i] != names[j] {
      assert names[j] == names[1..][j - 1];
      if i > 0 {
        assert names[i] == names[1..][i - 1];
      }
    }
    forall x ensures x in names <==> x == names[0] || x in names[1..] {
      if x in names && x != names[0] {
        var i :| 0 <= i < |names| && names[i] == x;
        assert names[1..][i - 1] == x;
      }
    }
  }

  /** What the parameters are bound to. */
  lemma {:induction false} BoundParams(params: seq<Param>, args: seq<Value>)
    requires |params| == |args| && AllDistinct(ParamNames(params))
    requires forall i | 0 <= i < |params| :: Convert(args[i], params[i].ty) == Some(args[i])
    ensures var bound := BindParams(params, args);
      bound.Some? && (forall x :: x in bound.value <==> x in ParamNames(params))
      && forall i | 0 <= i < |params| :: params[i].name in bound.value && bound.value[params[i].name] == args[i]
    decreases |params|
  {
    hide Convert;
    if params != [] {
      var last := |params| - 1;
      ParamsSnoc(params);
      BoundParams(params[..last], args[..last]);
      BindsLast(params, args);
      hide BindParams, ParamNames;
      var rest := BindParams(params[..last], args[..last]).value;
      BoundMore(params, args, rest, rest[params[last].name := args[last]]);
    }
  }

  lemma BindsLast(params: seq<Param>, args: seq<Value>)
    requires |params| == |args| != 0
    requires var last := |params| - 1;
      BindParams(params[..last], args[..last]).Some? && Convert(args[last], params[last].ty) == Some(args[last])
    ensures var last := |params| - 1;
      BindParams(params, args) == Some(BindParams(params[..last], args[..last]).value[params[last].name := args[last]])
  {
    hide Convert;
  }

  lemma BoundMore(params: seq<Param>, args: seq<Value>, rest: map<string, Value>, bound: map<string, Value>)
    requires |params| == |args| != 0
    requires var last := |params| - 1;
      bound == rest[params[last].name := args[last]] && forall i | 0 <= i < last :: params[i].name != params[last].name
    requires var front := params[..|params| - 1];
      forall i | 0 <= i < |front| :: front[i].name in rest && rest[front[i].name] == args[..|params| - 1][i]
    ensures forall i | 0 <= i < |params| :: params[i].name in bound && bound[params[i].name] == args[i]
  {
    var last := |params| - 1;
    forall i | 0 <= i < |params| ensures params[i].name in bound && bound[params[i].name] == args[i] {
      if i < last {
        assert params[..last][i] == params[i] && args[..last][i] == args[i];
      }
    }
  }

  lemma ParamsSnoc(params: seq<Param>)
    requires params != [] && AllDistinct(ParamNames(params))
    ensures var last := |params| - 1;
      AllDistinct(ParamNames(params[..last]))
      && (forall i | 0 <= i < last :: params[i].name != params[last].name)
      && forall x :: x in ParamNames(params) <==> x in ParamNames(params[..last]) || x == params[last].name
  {
    var last := |params| - 1;
    var names, front := ParamNames(params), ParamNames(params[..last]);
    assert names == front + [params[last].name];
    forall i, j | 0 <= i < j < |front| ensures front[i] != front[j] {
      assert names[i] == front[i] && names[j] == front[j];
    }
    forall i | 0 <= i < last ensures params[i].name != params[last].name {
      assert names[i] != names[last];
    }
  }

  lemma ParamsTyped(w: World, fn: Function, args: seq<Value>)
    requires |args| == |fn.proto.params|
    requires forall i | 0 <= i < |args| :: WellTyped(w.t.enums, args[i], fn.proto.params[i].ty)
    requires DeclareAllIn(Scoped([map[]], 0), ParamNames(fn.proto.params), ParamTypes(fn.proto.params)).Walk?
    ensures BindParams(fn.proto.params, args).Some?
    ensures var scopes := DeclareAllIn(Scoped([map[]], 0), ParamNames(fn.proto.params), ParamTypes(fn.proto.params)).env.scopes;
      |scopes| == 1 && FrameTyped(w.t.enums, scopes[0], BindParams(fn.proto.params, args).value)
  {
    hide WellTyped, BindParams, DeclareAllIn;
    var params := fn.proto.params;
    ScopeOfNames(Scoped([map[]], 0), ParamNames(params), ParamTypes(params));
    forall i | 0 <= i < |args| ensures Convert(args[i], params[i].ty) == Some(args[i]) {
      ConvertSame(w.t.enums, args[i], params[i].ty);
    }
    BoundParams(params, args);
    var scope := DeclareAllIn(Scoped([map[]], 0), ParamNames(params), ParamTypes(params)).env.scopes[0];
    ParamsFrame(w.t.enums, params, args, scope, BindParams(params, args).value);
  }

  lemma ParamsFrame(enums: Enums, params: seq<Param>, args: seq<Value>, scope: map<string, Decl>, bound: map<string, Value>)
    requires |params| == |args| && forall i | 0 <= i < |args| :: WellTyped(enums, args[i], params[i].ty)
    requires forall x :: x in scope <==> x in ParamNames(params)
    requires forall x :: x in bound <==> x in ParamNames(params)
    requires forall i | 0 <= i < |params| :: params[i].name in bound && bound[params[i].name] == args[i]
    requires forall i | 0 <= i < |params| ::
      ParamNames(params)[i] in scope && scope[ParamNames(params)[i]].ty == ParamTypes(params)[i]
    ensures FrameTyped(enums, scope, bound)
  {
    hide WellTyped;
    forall x | x in scope ensures WellTyped(enums, bound[x], scope[x].ty) {
      var i :| 0 <= i < |params| && ParamNames(params)[i] == x;
      assert params[i].name == x && ParamTypes(params)[i] == params[i].ty;
    }
  }

  /** An accepted function, called with arguments and statics of the declared types, never goes wrong but
      by arithmetic that has no result. If it ends, it returns nothing exactly if its return type is void,
      and otherwise a value of that type, and it leaves statics of their types. */
  lemma AcceptedRunsWell(w: World, fn: Function, fuel: nat, statics: map<string, Value>, args: seq<Value>)
    requires |args| == |fn.proto.params| && w.ret == fn.proto.ret
    requires Describes(w.cx, w.t) && RepliesTyped(w.cx) && SupportedFunction(w.cx, w.t, fn)
    requires FrameTyped(w.t.enums, GlobalScope(w.t), statics)
    requires forall i | 0 <= i < |args| :: WellTyped(w.t.enums, args[i], fn.proto.params[i].ty)
    ensures var r := RunBody(w.cx, w.rule, fn, fuel, statics, args);
      (r.InError? ==> r.fault == Arithmetic || (r.fault == Skipped && w.rule == NoRound))
      && (r.Ended? ==>
            (r.result.None? <==> fn.proto.ret == Void)
            && (r.result.Some? ==> WellTyped(w.t.enums, r.result.value, fn.proto.ret))
            && FrameTyped(w.t.enums, GlobalScope(w.t), r.statics))
  {
    var start := DeclareAllIn(Scoped([map[]], 0), ParamNames(fn.proto.params), ParamTypes(fn.proto.params));
    assert Sound(w);
    hide Sound, WellTyped, VisitsSupported, CheckStmts, ExecStmts, RepliesTyped, FrameTyped;
    ParamsTyped(w, fn, args);
    hide BindParams, DeclareAllIn;
    var bound := BindParams(fn.proto.params, args).value;
    var env := Env([statics, bound], []);
    StartTyped(w.t, start.env.scopes, statics, bound);
    StmtsSound(w, 0, fuel, env, start.env, fn.body.stmts);
    var r := ExecStmts(w.cx, w.rule, w.ret, fuel, env, fn.body.stmts);
    if r.Ran? {
      StaticsTyped(w, start.env.scopes, CheckFunction(w.t, fn).env.scopes, r);
      if r.signal == Normal && w.ret != Void {
        ZeroTyped(w.cx, w.t, w.ret);
      }
    }
  }

  lemma StartTyped(t: Tables, scopes: DeclScopes, statics: map<string, Value>, bound: map<string, Value>)
    requires |scopes| == 1 && FrameTyped(t.enums, GlobalScope(t), statics) && FrameTyped(t.enums, scopes[0], bound)
    ensures FramesTyped(t, scopes, [statics, bound])
  {
    hide FrameTyped;
  }

  lemma StaticsTyped(w: World, before: DeclScopes, after: DeclScopes, r: Run)
    requires r.Ran? && |before| == |after| == 1 && RunTyped(w, 0, before, after, r)
    ensures r.env.frames != [] && FrameTyped(w.t.enums, GlobalScope(w.t), r.env.frames[0]) && SignalTyped(w, 0, r.signal)
  {
    hide SignalTyped, FrameTyped;
    if r.signal == Normal {
      assert Stack(w.t, after)[0] == GlobalScope(w.t);
    } else {
      assert Stack(w.t, Pop(before))[0] == GlobalScope(w.t);
    }
  }
}
