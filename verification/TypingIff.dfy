/** Semantic analysis accepts exactly what the typing rules allow. */
module TypingIff {
  import opened Ast
  import opened Wrappers
  import opened Values
  import opened Scopes
  import opened Patterns
  import opened Source
  import opened Sema
  import opened Walks
  import opened Typing

  // ---------------------------------------------------------------------------
  // Relations between types
  // ---------------------------------------------------------------------------

  lemma {:induction false} AcceptsIff(target: Type, source: Type)
    ensures Accepts(target, source) <==> Assignable(source, target)
    decreases source, 1
  {
    if source.Tuple? && target.Tuple? {
      AllAcceptIff(target.elements, source.elements);
    }
  }

  lemma {:induction false} AllAcceptIff(targets: seq<Type>, sources: seq<Type>)
    ensures AllAssignable(sources, targets)
      <==> |sources| == |targets| && forall i | 0 <= i < |sources| :: Accepts(targets[i], sources[i])
    decreases sources, 0
  {
    if |sources| == |targets| && sources != [] {
      AcceptsIff(targets[0], sources[0]);
      AllAcceptIff(targets[1..], sources[1..]);
      hide Accepts, Assignable;
      assert forall i | 1 <= i < |sources| :: targets[i] == targets[1..][i - 1] && sources[i] == sources[1..][i - 1];
      assert forall i | 0 <= i < |sources| - 1 :: targets[1..][i] == targets[i + 1] && sources[1..][i] == sources[i + 1];
    }
  }

  lemma CommonIff(a: Type, b: Type, ty: Type)
    requires IsNumeric(a) && IsNumeric(b)
    ensures IsCommon(a, b, ty) <==> CommonNumeric(a, b) == ty
  {
  }

  lemma OperatesIff(op: BinOp, a: Type, b: Type, ty: Type)
    ensures Operates(op, a, b, ty) <==> BinaryType(op, a, b) == Some(ty)
  {
    if op == Eq || op == Ne {
      AcceptsIff(a, b);
      AcceptsIff(b, a);
      hide Accepts, Assignable;
    } else if op == In {
      if b.Array? {
        AcceptsIff(b.element, a);
      }
      hide Accepts, Assignable;
    } else {
      ArithmeticIff(op, a, b, ty);
    }
  }

  lemma ArithmeticIff(op: BinOp, a: Type, b: Type, ty: Type)
    requires op !in {Eq, Ne, In}
    ensures Operates(op, a, b, ty) <==> BinaryType(op, a, b) == Some(ty)
  {
    KindsApart(a);
    KindsApart(b);
    hide IsPointer, IsInteger, IsNumeric, Comparable, Accepts, Assignable, IsCommon, CommonNumeric;
    if IsNumeric(a) && IsNumeric(b) {
      CommonIff(a, b, ty);
    }
  }

  lemma KindsApart(t: Type)
    ensures IsInteger(t) ==> IsNumeric(t)
    ensures IsNumeric(t) ==> !IsPointer(t)
  {
  }

  lemma CastsIff(a: Type, b: Type)
    ensures Casts(a, b) <==> Castable(a, b)
  {
  }

  lemma TakesIff(params: seq<Type>, variadic: bool, args: seq<Type>)
    ensures Takes(params, variadic, args) <==> ArgsAccepted(params, variadic, args)
  {
    if |params| <= |args| {
      forall i | 0 <= i < |params| ensures Accepts(params[i], args[i]) <==> Assignable(args[i], params[i]) {
        AcceptsIff(params[i], args[i]);
      }
    }
    hide Accepts, Assignable;
  }

  lemma {:induction false} FieldIff(fields: seq<Param>, name: string, ty: Type)
    ensures HasField(fields, name, ty) <==> FieldType(fields, name) == Some(ty)
    decreases |fields|
  {
    if fields != [] {
      FieldIff(fields[1..], name, ty);
      FieldFirst(fields, name, ty);
      hide HasField;
    }
  }

  lemma FieldFirst(fields: seq<Param>, name: string, ty: Type)
    requires fields != []
    ensures HasField(fields, name, ty) <==> if fields[0].name == name then fields[0].ty == ty else HasField(fields[1..], name, ty)
  {
    if fields[0].name == name {
      assert NoneBefore(fields, 0, name);
    } else {
      if HasField(fields, name, ty) {
        var i :| 0 <= i < |fields| && fields[i].name == name && fields[i].ty == ty && NoneBefore(fields, i, name);
        BeforeRest(fields, i - 1, name);
        hide NoneBefore;
        assert fields[1..][i - 1] == fields[i];
      }
      if HasField(fields[1..], name, ty) {
        var i :| 0 <= i < |fields[1..]| && fields[1..][i].name == name && fields[1..][i].ty == ty && NoneBefore(fields[1..], i, name);
        BeforeRest(fields, i, name);
        hide NoneBefore;
        assert fields[i + 1] == fields[1..][i];
      }
    }
  }

  lemma BeforeRest(fields: seq<Param>, i: nat, name: string)
    requires i < |fields| && fields[0].name != name
    ensures NoneBefore(fields[1..], i, name) <==> NoneBefore(fields, i + 1, name)
  {
    assert forall j | 0 <= j < i :: fields[1..][j] == fields[j + 1];
    assert forall j | 1 <= j < i + 1 :: fields[j] == fields[1..][j - 1];
  }

  lemma VariantIff(variants: seq<EnumVariant>, name: string, payload: Option<Type>)
    ensures HasVariant(variants, name, payload)
      <==> VariantIndex(variants, name).Some? && variants[VariantIndex(variants, name).value].payload == payload
  {
    hide VariantIndex;
    if HasVariant(variants, name, payload) {
      var i :| 0 <= i < |variants| && variants[i].name == name && variants[i].payload == payload
        && forall j | 0 <= j < i :: variants[j].name != name;
      var k := VariantIndex(variants, name);
      assert k.Some? && k.value == i;
    }
  }

  // ---------------------------------------------------------------------------
  // Expressions
  // ---------------------------------------------------------------------------

  /** The map shows the variables that the scopes do. */
  ghost predicate Sees(t: Tables, scopes: DeclScopes, g: Vars) {
    forall x: string :: VariableType(t, scopes, x) == if x in g then Some(g[x]) else None
  }

  /** The rules give an expression exactly the type that is found. */
  lemma {:induction false} TypedIff(t: Tables, scopes: DeclScopes, g: Vars, e: Expr, ty: Type)
    requires Sees(t, scopes, g)
    ensures HasType(t, g, e, ty) <==> CheckedType(t, scopes, e) == Some(ty)
    decreases e, 2
  {
    hide UnaryHasType, BinaryHasType, CallHasType, ConstructorHasType, MethodHasType, FieldHasType, IndexHasType, SliceHasType,
      ArrayHasType, CastHasType, AddressHasType, PlaceHasType, FieldsHold, HasTypes, CheckedType, Sees;
    match e
    case Unary(_, _) => UnaryIff(t, scopes, g, e, ty);
    case Binary(_, _, _) => BinaryIff(t, scopes, g, e, ty);
    case Call(_, _, _) => CallIff(t, scopes, g, e, ty);
    case MethodCall(receiver, _, _, _) =>
      if receiver.Var? && receiver.name in t.enums {
        ConstructorIff(t, scopes, g, e, ty);
      } else {
        OnReceiverIff(t, scopes, g, e, ty);
      }
    case StructInit(_, _, _) => StructIff(t, scopes, g, e, ty);
    case Field(_, _) => FieldOfIff(t, scopes, g, e, ty);
    case Index(_, _) => IndexIff(t, scopes, g, e, ty);
    case Slice(_, _, _) => SliceIff(t, scopes, g, e, ty);
    case ArrayLit(_) => ArrayIff(t, scopes, g, e, ty);
    case TupleLit(_) => TupleIff(t, scopes, g, e, ty);
    case Cast(_, _) => CastIff(t, scopes, g, e, ty);
    case AddrOf(_) => AddrIff(t, scopes, g, e, ty);
    case Deref(_) => DerefIff(t, scopes, g, e, ty);
    case _ => LeafIff(t, scopes, g, e, ty);
  }

  lemma LeafIff(t: Tables, scopes: DeclScopes, g: Vars, e: Expr, ty: Type)
    requires Sees(t, scopes, g) && (e.IntLit? || e.FloatLit? || e.BoolLit? || e.StrLit? || e.Var?)
    ensures HasType(t, g, e, ty) <==> CheckedType(t, scopes, e) == Some(ty)
  {
    hide VariableType;
  }

  lemma {:induction false} StructIff(t: Tables, scopes: DeclScopes, g: Vars, e: Expr, ty: Type)
    requires e.StructInit? && Sees(t, scopes, g)
    ensures HasType(t, g, e, ty) <==> CheckedType(t, scopes, e) == Some(ty)
    decreases e, 0
  {
    hide Sees, FieldsHold, FieldsChecked;
    if e.struct in t.structs {
      FieldsIff(t, scopes, g, t.structs[e.struct], e.fields);
    }
  }

  /** One type of an expression is the type that is found. */
  lemma {:induction false} SomeType(t: Tables, scopes: DeclScopes, g: Vars, e: Expr) returns (ty: Type)
    requires Sees(t, scopes, g)
    ensures CheckedType(t, scopes, e).Some? ==> CheckedType(t, scopes, e) == Some(ty) && HasType(t, g, e, ty)
    decreases e, 3
  {
    hide Sees, CheckedType, HasType;
    ty := Int;
    if CheckedType(t, scopes, e).Some? {
      ty := CheckedType(t, scopes, e).value;
      TypedIff(t, scopes, g, e, ty);
    }
  }

  lemma {:induction false} ListIff(t: Tables, scopes: DeclScopes, g: Vars, es: seq<Expr>, types: seq<Type>)
    requires Sees(t, scopes, g)
    ensures HasTypes(t, g, es, types) <==> CheckedTypes(t, scopes, es) == Some(types)
    decreases es, 0
  {
    hide Sees, HasType, CheckedType;
    if es != [] && types != [] {
      TypedIff(t, scopes, g, es[0], types[0]);
      ListIff(t, scopes, g, es[1..], types[1..]);
      assert types == [types[0]] + types[1..];
    }
  }

  lemma {:induction false} SomeTypes(t: Tables, scopes: DeclScopes, g: Vars, es: seq<Expr>) returns (types: seq<Type>)
    requires Sees(t, scopes, g)
    ensures CheckedTypes(t, scopes, es).Some? ==> CheckedTypes(t, scopes, es) == Some(types) && HasTypes(t, g, es, types)
    decreases es, 1
  {
    hide Sees, CheckedTypes, HasTypes;
    types := [];
    if CheckedTypes(t, scopes, es).Some? {
      types := CheckedTypes(t, scopes, es).value;
      ListIff(t, scopes, g, es, types);
    }
  }

  lemma {:induction false} UnaryIff(t: Tables, scopes: DeclScopes, g: Vars, e: Expr, ty: Type)
    requires e.Unary? && Sees(t, scopes, g)
    ensures UnaryHasType(t, g, e, ty) <==> CheckedType(t, scopes, e) == Some(ty)
    decreases e, 0
  {
    hide Sees, HasType;
    TypedIff(t, scopes, g, e.operand, ty);
  }

  lemma {:induction false} BinaryIff(t: Tables, scopes: DeclScopes, g: Vars, e: Expr, ty: Type)
    requires e.Binary? && Sees(t, scopes, g)
    ensures BinaryHasType(t, g, e, ty) <==> CheckedType(t, scopes, e) == Some(ty)
    decreases e, 0
  {
    hide Sees, HasType, Operates, BinaryType;
    if BinaryHasType(t, g, e, ty) {
      var a, b :| HasType(t, g, e.lhs, a) && HasType(t, g, e.rhs, b) && Operates(e.op, a, b, ty);
      TypedIff(t, scopes, g, e.lhs, a);
      TypedIff(t, scopes, g, e.rhs, b);
      OperatesIff(e.op, a, b, ty);
    }
    if CheckedType(t, scopes, e) == Some(ty) {
      var a := SomeType(t, scopes, g, e.lhs);
      var b := SomeType(t, scopes, g, e.rhs);
      OperatesIff(e.op, a, b, ty);
    }
  }

  lemma {:induction false} CallIff(t: Tables, scopes: DeclScopes, g: Vars, e: Expr, ty: Type)
    requires e.Call? && Sees(t, scopes, g)
    ensures CallHasType(t, g, e, ty) <==> CheckedType(t, scopes, e) == Some(ty)
    decreases e, 0
  {
    hide Sees, HasType, CallGives, CallType;
    if e.callee != "sizeof" && e.callee != "alignof" {
      if CallHasType(t, g, e, ty) {
        var types :| HasTypes(t, g, e.args, types) && CallGives(t, g, e.callee, types, ty);
        ListIff(t, scopes, g, e.args, types);
        CallGivesIff(t, scopes, g, e.callee, types, ty);
      }
      if CheckedType(t, scopes, e) == Some(ty) {
        var types := SomeTypes(t, scopes, g, e.args);
        CallGivesIff(t, scopes, g, e.callee, types, ty);
      }
    }
  }

  lemma CallGivesIff(t: Tables, scopes: DeclScopes, g: Vars, callee: string, types: seq<Type>, ty: Type)
    requires Sees(t, scopes, g)
    ensures CallGives(t, g, callee, types, ty) <==> CallType(t, scopes, callee, types) == Some(ty)
  {
    hide Takes, ArgsAccepted, BuiltinReturn;
    if callee in t.functions {
      TakesIff(t.functions[callee].params, t.functions[callee].variadic, types);
    } else if callee in g && g[callee].Fn? {
      TakesIff(g[callee].params, false, types);
    }
  }

  lemma {:induction false} ConstructorIff(t: Tables, scopes: DeclScopes, g: Vars, e: Expr, ty: Type)
    requires e.MethodCall? && Sees(t, scopes, g) && e.receiver.Var? && e.receiver.name in t.enums
    ensures ConstructorHasType(t, g, e, ty) <==> CheckedType(t, scopes, e) == Some(ty)
    decreases e, 0
  {
    hide Sees, HasType, Constructs, VariantIndex, PayloadAccepted;
    var variants := t.enums[e.receiver.name];
    if ConstructorHasType(t, g, e, ty) {
      var others :| HasTypes(t, g, e.args, others) && Constructs(variants, e.methodName, others);
      ListIff(t, scopes, g, e.args, others);
      ConstructsIff(variants, e.methodName, others);
    }
    if CheckedType(t, scopes, e) == Some(ty) {
      var types := SomeTypes(t, scopes, g, e.args);
      ConstructsIff(variants, e.methodName, types);
    }
  }

  lemma ConstructsIff(variants: seq<EnumVariant>, name: string, types: seq<Type>)
    ensures Constructs(variants, name, types)
      <==> VariantIndex(variants, name).Some? && PayloadAccepted(variants[VariantIndex(variants, name).value].payload, types)
  {
    hide VariantIndex, HasVariant, Takes, PayloadAccepted;
    if Constructs(variants, name, types) {
      var payload :| HasVariant(variants, name, payload) && Takes(OptionList(payload), false, types);
      VariantIff(variants, name, payload);
      PayloadIff(payload, types);
    }
    var k := VariantIndex(variants, name);
    if k.Some? {
      VariantIff(variants, name, variants[k.value].payload);
      PayloadIff(variants[k.value].payload, types);
    }
  }

  lemma {:induction false} OnReceiverIff(t: Tables, scopes: DeclScopes, g: Vars, e: Expr, ty: Type)
    requires e.MethodCall? && Sees(t, scopes, g) && !(e.receiver.Var? && e.receiver.name in t.enums)
    ensures MethodHasType(t, g, e, ty) <==> CheckedType(t, scopes, e) == Some(ty)
    decreases e, 0
  {
    hide Sees, HasType, MethodGives, MethodAccepted;
    if MethodHasType(t, g, e, ty) {
      var self, others :| HasType(t, g, e.receiver, self) && HasTypes(t, g, e.args, others)
        && MethodGives(t, e.methodName, self, others, ty);
      TypedIff(t, scopes, g, e.receiver, self);
      ListIff(t, scopes, g, e.args, others);
      MethodGivesIff(t, e.methodName, self, others, ty);
    }
    if CheckedType(t, scopes, e) == Some(ty) {
      var types := SomeTypes(t, scopes, g, e.args);
      var self := SomeType(t, scopes, g, e.receiver);
      MethodGivesIff(t, e.methodName, self, types, ty);
    }
  }

  lemma PayloadIff(payload: Option<Type>, types: seq<Type>)
    ensures Takes(OptionList(payload), false, types) <==> PayloadAccepted(payload, types)
  {
    if payload.Some? && |types| == 1 {
      AcceptsIff(payload.value, types[0]);
    }
    hide Accepts, Assignable;
  }

  lemma MethodGivesIff(t: Tables, name: string, self: Type, types: seq<Type>, ty: Type)
    ensures MethodGives(t, name, self, types, ty)
      <==> name in t.functions && ty == t.functions[name].ret && MethodAccepted(t.functions[name].params, self, types)
  {
    hide Accepts, Assignable;
    if name in t.functions && t.functions[name].params != [] {
      var params := t.functions[name].params;
      AcceptsIff(params[0], self);
      TakesIff(params[1..], false, types);
      TakesMore(params, self, types);
      hide Takes;
      assert forall i | 0 <= i < |params| - 1 :: params[1..][i] == params[i + 1];
    }
  }

  lemma TakesMore(params: seq<Type>, self: Type, types: seq<Type>)
    requires params != []
    ensures Takes(params, false, [self] + types) <==> Accepts(params[0], self) && Takes(params[1..], false, types)
  {
    hide Accepts;
    var all := [self] + types;
    assert all[0] == self && forall i | 0 <= i < |types| :: all[i + 1] == types[i];
    assert forall i | 0 <= i < |params| - 1 :: params[1..][i] == params[i + 1];
    if Takes(params, false, all) {
      forall i | 0 <= i < |params[1..]| ensures Accepts(params[1..][i], types[i]) {
        assert Accepts(params[i + 1], all[i + 1]);
      }
    }
    if Accepts(params[0], self) && Takes(params[1..], false, types) {
      forall i | 0 <= i < |params| ensures Accepts(params[i], all[i]) {
        if i > 0 {
          assert Accepts(params[1..][i - 1], types[i - 1]);
        }
      }
    }
  }

  lemma {:induction false} FieldsIff(t: Tables, scopes: DeclScopes, g: Vars, params: seq<Param>, fields: seq<FieldInit>)
    requires Sees(t, scopes, g)
    ensures FieldsHold(t, g, params, fields) <==> FieldsChecked(t, scopes, params, fields)
    decreases fields, 1
  {
    hide Sees, FieldHolds, FieldChecked;
    if fields != [] {
      FieldHoldsIff(t, scopes, g, params, fields[0]);
      FieldsIff(t, scopes, g, params, fields[1..]);
    }
  }

  lemma {:induction false} FieldHoldsIff(t: Tables, scopes: DeclScopes, g: Vars, params: seq<Param>, field: FieldInit)
    requires Sees(t, scopes, g)
    ensures FieldHolds(t, g, params, field) <==> FieldChecked(t, scopes, params, field)
    decreases field, 0
  {
    hide Sees, HasType, CheckedType, HasField, FieldType, Accepts, Assignable;
    if FieldHolds(t, g, params, field) {
      var a, b :| HasType(t, g, field.value, a) && HasField(params, field.name, b) && Accepts(b, a);
      TypedIff(t, scopes, g, field.value, a);
      FieldIff(params, field.name, b);
      AcceptsIff(b, a);
    }
    if FieldChecked(t, scopes, params, field) {
      var a := SomeType(t, scopes, g, field.value);
      var b := FieldType(params, field.name).value;
      FieldIff(params, field.name, b);
      AcceptsIff(b, a);
    }
  }

  lemma {:induction false} FieldOfIff(t: Tables, scopes: DeclScopes, g: Vars, e: Expr, ty: Type)
    requires e.Field? && Sees(t, scopes, g)
    ensures FieldHasType(t, g, e, ty) <==> CheckedType(t, scopes, e) == Some(ty)
    decreases e, 0
  {
    hide Sees, HasType, FieldGives, FieldOf;
    if FieldHasType(t, g, e, ty) {
      var b :| HasType(t, g, e.base, b) && FieldGives(t, b, e.field, ty);
      TypedIff(t, scopes, g, e.base, b);
      FieldGivesIff(t, b, e.field, ty);
    }
    if CheckedType(t, scopes, e) == Some(ty) {
      var b := SomeType(t, scopes, g, e.base);
      FieldGivesIff(t, b, e.field, ty);
    }
  }

  lemma FieldGivesIff(t: Tables, base: Type, field: string, ty: Type)
    ensures FieldGives(t, base, field, ty) <==> FieldOf(t, base, field) == Some(ty)
  {
    hide HasField, FieldType;
    var s := StructName(base);
    if s.Some? && s.value in t.structs {
      FieldIff(t.structs[s.value], field, ty);
      assert base == Named(s.value) || base == Ptr(Named(s.value));
    }
  }

  lemma HoldsIff(base: Type, ty: Type)
    ensures Holds(base, ty) <==> ElementType(base) == Some(ty)
    ensures !base.Array? && Holds(base, ty) <==> PointeeType(base) == Some(ty)
  {
  }

  lemma {:induction false} IndexIff(t: Tables, scopes: DeclScopes, g: Vars, e: Expr, ty: Type)
    requires e.Index? && Sees(t, scopes, g)
    ensures IndexHasType(t, g, e, ty) <==> CheckedType(t, scopes, e) == Some(ty)
    decreases e, 0
  {
    hide Sees, HasType, Holds, ElementType;
    if IndexHasType(t, g, e, ty) {
      var b, i :| HasType(t, g, e.base, b) && HasType(t, g, e.index, i) && IsInteger(i) && Holds(b, ty);
      TypedIff(t, scopes, g, e.base, b);
      TypedIff(t, scopes, g, e.index, i);
      HoldsIff(b, ty);
    }
    if CheckedType(t, scopes, e) == Some(ty) {
      var b := SomeType(t, scopes, g, e.base);
      var i := SomeType(t, scopes, g, e.index);
      HoldsIff(b, ty);
    }
  }

  lemma {:induction false} IntegerIff(t: Tables, scopes: DeclScopes, g: Vars, e: Expr)
    requires Sees(t, scopes, g)
    ensures (exists i :: HasType(t, g, e, i) && IsInteger(i)) <==> IsIntegerExpr(CheckedType(t, scopes, e))
    decreases e, 4
  {
    hide Sees, HasType, CheckedType;
    if exists i :: HasType(t, g, e, i) && IsInteger(i) {
      var i :| HasType(t, g, e, i) && IsInteger(i);
      TypedIff(t, scopes, g, e, i);
    }
    var i := SomeType(t, scopes, g, e);
  }

  lemma {:induction false} SliceIff(t: Tables, scopes: DeclScopes, g: Vars, e: Expr, ty: Type)
    requires e.Slice? && Sees(t, scopes, g)
    ensures SliceHasType(t, g, e, ty) <==> CheckedType(t, scopes, e) == Some(ty)
    decreases e, 0
  {
    hide Sees, HasType;
    TypedIff(t, scopes, g, e.base, Str);
    if e.lo.Some? {
      IntegerIff(t, scopes, g, e.lo.value);
    }
    if e.hi.Some? {
      IntegerIff(t, scopes, g, e.hi.value);
    }
  }

  lemma {:induction false} ArrayIff(t: Tables, scopes: DeclScopes, g: Vars, e: Expr, ty: Type)
    requires e.ArrayLit? && Sees(t, scopes, g)
    ensures ArrayHasType(t, g, e, ty) <==> CheckedType(t, scopes, e) == Some(ty)
    decreases e, 0
  {
    hide Sees, HasType, Accepts, Assignable;
    if ArrayHasType(t, g, e, ty) {
      var types :| HasTypes(t, g, e.values, types) && types != [] && ty == Array(types[0], |e.values|)
        && forall i | 0 <= i < |types| :: Accepts(types[0], types[i]);
      ListIff(t, scopes, g, e.values, types);
      AllLikeFirst(types);
    }
    if CheckedType(t, scopes, e) == Some(ty) {
      var types := SomeTypes(t, scopes, g, e.values);
      AllLikeFirst(types);
    }
  }

  lemma AllLikeFirst(types: seq<Type>)
    requires types != []
    ensures (forall i | 0 <= i < |types| :: Accepts(types[0], types[i]))
      <==> forall i | 0 < i < |types| :: Assignable(types[i], types[0])
  {
    hide Assignable;
    forall i | 0 <= i < |types| ensures Accepts(types[0], types[i]) <==> Assignable(types[i], types[0]) {
      AcceptsIff(types[0], types[i]);
    }
    assert Accepts(types[0], types[0]);
  }

  lemma {:induction false} TupleIff(t: Tables, scopes: DeclScopes, g: Vars, e: Expr, ty: Type)
    requires e.TupleLit? && Sees(t, scopes, g)
    ensures HasType(t, g, e, ty) <==> CheckedType(t, scopes, e) == Some(ty)
    decreases e, 0
  {
    hide Sees;
    if ty.Tuple? {
      ListIff(t, scopes, g, e.values, ty.elements);
    }
  }

  lemma {:induction false} CastIff(t: Tables, scopes: DeclScopes, g: Vars, e: Expr, ty: Type)
    requires e.Cast? && Sees(t, scopes, g)
    ensures CastHasType(t, g, e, ty) <==> CheckedType(t, scopes, e) == Some(ty)
    decreases e, 0
  {
    hide Sees, HasType, Casts, Castable;
    if CastHasType(t, g, e, ty) {
      var a :| HasType(t, g, e.operand, a) && Casts(a, e.target);
      TypedIff(t, scopes, g, e.operand, a);
      CastsIff(a, e.target);
    }
    if CheckedType(t, scopes, e) == Some(ty) {
      var a := SomeType(t, scopes, g, e.operand);
      CastsIff(a, e.target);
    }
  }

  lemma {:induction false} AddrIff(t: Tables, scopes: DeclScopes, g: Vars, e: Expr, ty: Type)
    requires e.AddrOf? && Sees(t, scopes, g)
    ensures AddressHasType(t, g, e, ty) <==> CheckedType(t, scopes, e) == Some(ty)
    decreases e, 0
  {
    hide Sees, HasType;
    if !(e.operand.Var? && e.operand.name in t.functions) && ty.Ptr? {
      TypedIff(t, scopes, g, e.operand, ty.pointee);
    }
  }

  lemma {:induction false} DerefIff(t: Tables, scopes: DeclScopes, g: Vars, e: Expr, ty: Type)
    requires e.Deref? && Sees(t, scopes, g)
    ensures PlaceHasType(t, g, e, ty) <==> CheckedType(t, scopes, e) == Some(ty)
    decreases e, 0
  {
    hide Sees, HasType, Holds, PointeeType;
    if PlaceHasType(t, g, e, ty) {
      var b :| HasType(t, g, e.operand, b) && !b.Array? && Holds(b, ty);
      TypedIff(t, scopes, g, e.operand, b);
      HoldsIff(b, ty);
    }
    if CheckedType(t, scopes, e) == Some(ty) {
      var b := SomeType(t, scopes, g, e.operand);
      HoldsIff(b, ty);
    }
  }

  lemma GivesIff(t: Tables, scopes: DeclScopes, g: Vars, e: Expr, target: Type)
    requires Sees(t, scopes, g)
    ensures Gives(t, g, e, target) <==> ExprChecks(t, scopes, e, target)
  {
    hide Sees, HasType, CheckedType, Accepts, Assignable;
    if Gives(t, g, e, target) {
      var a :| HasType(t, g, e, a) && Accepts(target, a);
      TypedIff(t, scopes, g, e, a);
      AcceptsIff(target, a);
    }
    if ExprChecks(t, scopes, e, target) {
      var a := SomeType(t, scopes, g, e);
      AcceptsIff(target, a);
    }
  }

  lemma KnownIff(t: Tables, scopes: DeclScopes, g: Vars, e: Expr)
    requires Sees(t, scopes, g)
    ensures Known(t, g, e) <==> CheckedType(t, scopes, e).Some?
  {
    hide Sees, HasType, CheckedType;
    if Known(t, g, e) {
      var a :| HasType(t, g, e, a);
      TypedIff(t, scopes, g, e, a);
    }
    var found := SomeType(t, scopes, g, e);
  }

  // ---------------------------------------------------------------------------
  // Declarations
  // ---------------------------------------------------------------------------

  /** The innermost scope declares these names. */
  predicate Tops(scopes: DeclScopes, declared: set<string>) {
    scopes != [] && scopes[|scopes| - 1].Keys == declared
  }

  lemma SeesInside(t: Tables, scopes: DeclScopes, g: Vars)
    requires Sees(t, scopes, g)
    ensures Sees(t, scopes + [map[]], g) && Tops(scopes + [map[]], {})
  {
    forall x: string ensures VariableType(t, scopes + [map[]], x) == VariableType(t, scopes, x) {
      LookupPushed(scopes, x);
    }
  }

  lemma SeesMore(t: Tables, env: Scoped, g: Vars, declared: set<string>, x: string, ty: Type)
    requires Sees(t, env.scopes, g) && Tops(env.scopes, declared)
    ensures DeclareIn(env, x, ty).Walk? <==> x !in declared
    ensures var w := DeclareIn(env, x, ty);
      w.Walk? ==> Sees(t, w.env.scopes, g[x := ty]) && Tops(w.env.scopes, declared + {x})
  {
    if x !in declared {
      forall y: string
        ensures VariableType(t, Declare(env.scopes, x, Local(ty, env.next)), y)
             == if y == x then Some(ty) else VariableType(t, env.scopes, y)
      {
        LookupDeclared(env.scopes, x, Local(ty, env.next), y);
      }
    }
  }

  lemma {:induction false} SeesAll(t: Tables, env: Scoped, g: Vars, declared: set<string>, names: seq<string>, types: seq<Type>)
    requires |names| == |types| && Sees(t, env.scopes, g) && Tops(env.scopes, declared)
    ensures DeclareAllIn(env, names, types).Walk? <==> Fresh(names, declared)
    ensures var w := DeclareAllIn(env, names, types);
      w.Walk? ==> Sees(t, w.env.scopes, Bind(g, names, types)) && Tops(w.env.scopes, declared + NameSet(names))
    decreases |names|
  {
    hide Sees, Tops;
    if names == [] {
      assert declared + NameSet(names) == declared;
    } else {
      SeesMore(t, env, g, declared, names[0], types[0]);
      FreshFirst(names, declared);
      hide DeclareIn, Fresh;
      if names[0] !in declared {
        SeesAll(t, DeclareIn(env, names[0], types[0]).env, g[names[0] := types[0]], declared + {names[0]}, names[1..], types[1..]);
      }
    }
  }

  lemma FreshFirst(names: seq<string>, declared: set<string>)
    requires names != []
    ensures Fresh(names, declared) <==> names[0] !in declared && Fresh(names[1..], declared + {names[0]})
    ensures declared + NameSet(names) == declared + {names[0]} + NameSet(names[1..])
  {
    var rest := names[1..];
    assert forall i | 0 <= i < |rest| :: rest[i] == names[i + 1];
    assert forall i | 1 <= i < |names| :: names[i] == rest[i - 1];
    assert names == [names[0]] + rest;
    if names[0] !in declared && Fresh(rest, declared + {names[0]}) {
      forall i, j | 0 <= i < j < |names| ensures names[i] != names[j] {
        assert rest[j - 1] == names[j];
        if i > 0 {
          assert rest[i - 1] == names[i];
        }
      }
    }
  }

  // ---------------------------------------------------------------------------
  // Statements
  // ---------------------------------------------------------------------------

  /** Only declarations change what is in scope after them. */
  lemma {:induction false} KeepsScopes(t: Tables, ret: Type, depth: nat, env: Scoped, s: Stmt)
    requires !s.Let? && !s.LetTuple? && CheckInner(t, ret, depth, env, s).Walk?
    ensures CheckInner(t, ret, depth, env, s).env.scopes == env.scopes
  {
    hide CheckBlock, CheckArms, CheckStmts, CheckedType, IterType, SimpleStmtChecks, AcceptedSwitch;
  }

  lemma ChecksFirst(t: Tables, ret: Type, depth: nat, env: Scoped, ss: seq<Stmt>)
    requires ss != []
    ensures var first := CheckInner(t, ret, depth, env, ss[0]);
      CheckStmts(t, ret, depth, env, ss).Walk? <==> first.Walk? && CheckStmts(t, ret, depth, first.env, ss[1..]).Walk?
  {
    hide CheckInner;
  }

  lemma {:induction false} StmtsTypedIff(
    t: Tables, ret: Type, depth: nat, env: Scoped, g: Vars, declared: set<string>, ss: seq<Stmt>)
    requires Sees(t, env.scopes, g) && Tops(env.scopes, declared)
    ensures StmtsTyped(t, ret, depth > 0, g, declared, ss) <==> CheckStmts(t, ret, depth, env, ss).Walk?
    decreases ss, 2
  {
    hide Sees, Tops, LetTyped, LetTupleTyped, StmtTyped, CheckInner;
    if ss != [] {
      ChecksFirst(t, ret, depth, env, ss);
      if ss[0].Let? {
        LetTypedIff(t, ret, depth, env, g, declared, ss);
      } else if ss[0].LetTuple? {
        LetTupleTypedIff(t, ret, depth, env, g, declared, ss);
      } else {
        StmtTypedIff(t, ret, depth, env, g, ss[0]);
        var first := CheckInner(t, ret, depth, env, ss[0]);
        if first.Walk? {
          KeepsScopes(t, ret, depth, env, ss[0]);
          StmtsTypedIff(t, ret, depth, first.env, g, declared, ss[1..]);
        }
      }
    }
  }

  lemma {:induction false} LetTypedIff(
    t: Tables, ret: Type, depth: nat, env: Scoped, g: Vars, declared: set<string>, ss: seq<Stmt>)
    requires Sees(t, env.scopes, g) && Tops(env.scopes, declared) && ss != [] && ss[0].Let?
    ensures LetTyped(t, ret, depth > 0, g, declared, ss) <==> CheckStmts(t, ret, depth, env, ss).Walk?
    decreases ss, 1
  {
    hide Sees, Tops, StmtsTyped, LetGives, LetType, DeclareIn, CheckStmts;
    var s := ss[0];
    ChecksFirst(t, ret, depth, env, ss);
    var found := LetType(t, env.scopes, s.ty, s.init);
    if LetTyped(t, ret, depth > 0, g, declared, ss) {
      var a :| LetGives(t, g, s.ty, s.init, a)
        && StmtsTyped(t, ret, depth > 0, g[s.name := a], declared + {s.name}, ss[1..]);
      LetGivesIff(t, env.scopes, g, s.ty, s.init, a);
    }
    if found.Some? {
      LetGivesIff(t, env.scopes, g, s.ty, s.init, found.value);
      SeesMore(t, env, g, declared, s.name, found.value);
      var w := DeclareIn(env, s.name, found.value);
      if w.Walk? {
        StmtsTypedIff(t, ret, depth, w.env, g[s.name := found.value], declared + {s.name}, ss[1..]);
      }
    }
  }

  lemma LetGivesIff(t: Tables, scopes: DeclScopes, g: Vars, ty: Option<Type>, init: Option<Expr>, a: Type)
    requires Sees(t, scopes, g)
    ensures LetGives(t, g, ty, init, a) <==> LetType(t, scopes, ty, init) == Some(a)
  {
    hide Sees, HasType, CheckedType, Gives, ExprChecks;
    if init.Some? {
      TypedIff(t, scopes, g, init.value, a);
      if ty.Some? {
        GivesIff(t, scopes, g, init.value, ty.value);
      }
    }
  }

  lemma TupleChecks(t: Tables, ret: Type, depth: nat, env: Scoped, s: Stmt)
    requires s.LetTuple?
    ensures var ty := CheckedType(t, env.scopes, s.source);
      CheckInner(t, ret, depth, env, s)
      == if ty.Some? && ty.value.Tuple? && |ty.value.elements| == |s.names| then DeclareAllIn(env, s.names, ty.value.elements)
         else Rejected
  {
    hide CheckedType, DeclareAllIn;
  }

  lemma {:induction false} LetTupleTypedIff(
    t: Tables, ret: Type, depth: nat, env: Scoped, g: Vars, declared: set<string>, ss: seq<Stmt>)
    requires Sees(t, env.scopes, g) && Tops(env.scopes, declared) && ss != [] && ss[0].LetTuple?
    ensures LetTupleTyped(t, ret, depth > 0, g, declared, ss) <==> CheckStmts(t, ret, depth, env, ss).Walk?
    decreases ss, 1
  {
    hide Sees, Tops, StmtsTyped, HasType, CheckedType, DeclareAllIn, Fresh, Bind, NameSet, CheckStmts, CheckInner;
    var s := ss[0];
    ChecksFirst(t, ret, depth, env, ss);
    TupleChecks(t, ret, depth, env, s);
    if LetTupleTyped(t, ret, depth > 0, g, declared, ss) {
      var types :| HasType(t, g, s.source, Tuple(types)) && |types| == |s.names|
        && StmtsTyped(t, ret, depth > 0, Bind(g, s.names, types), declared + NameSet(s.names), ss[1..]);
      TypedIff(t, env.scopes, g, s.source, Tuple(types));
    }
    var found := CheckedType(t, env.scopes, s.source);
    if found.Some? && found.value.Tuple? && |found.value.elements| == |s.names| {
      var types := found.value.elements;
      TypedIff(t, env.scopes, g, s.source, Tuple(types));
      SeesAll(t, env, g, declared, s.names, types);
      var w := DeclareAllIn(env, s.names, types);
      if w.Walk? {
        StmtsTypedIff(t, ret, depth, w.env, Bind(g, s.names, types), declared + NameSet(s.names), ss[1..]);
      }
    }
  }

  lemma {:induction false} StmtTypedIff(t: Tables, ret: Type, depth: nat, env: Scoped, g: Vars, s: Stmt)
    requires !s.Let? && !s.LetTuple? && Sees(t, env.scopes, g)
    ensures StmtTyped(t, ret, depth > 0, g, s) <==> CheckInner(t, ret, depth, env, s).Walk?
    decreases s, 1
  {
    hide Sees, HasType, CheckedType, BlockTyped, CheckBlock, ForTyped, SwitchTyped, Gives, ExprChecks;
    match s
    case If(cond, thn, els) =>
      TypedIff(t, env.scopes, g, cond, Bool);
      BlockTypedIff(t, ret, depth, env, g, thn);
      var first := CheckBlock(t, ret, depth, env, thn);
      if els.Some? && first.Walk? {
        BlockTypedIff(t, ret, depth, first.env, g, els.value);
      }
    case While(cond, body) =>
      TypedIff(t, env.scopes, g, cond, Bool);
      BlockTypedIff(t, ret, depth + 1, env, g, body);
    case For(_, _, _) => ForTypedIff(t, ret, depth, env, g, s);
    case Switch(_, _) => SwitchTypedIff(t, ret, depth, env, g, s);
    case _ => SimpleIff(t, ret, depth, env, g, s);
  }

  lemma SimpleIff(t: Tables, ret: Type, depth: nat, env: Scoped, g: Vars, s: Stmt)
    requires !s.Let? && !s.LetTuple? && !s.If? && !s.While? && !s.For? && !s.Switch? && Sees(t, env.scopes, g)
    ensures StmtTyped(t, ret, depth > 0, g, s) <==> CheckInner(t, ret, depth, env, s).Walk?
  {
    hide HasType, CheckedType, Gives, ExprChecks, Known;
    match s
    case Return(Some(e)) => GivesIff(t, env.scopes, g, e, ret);
    case ExprStmt(e) => KnownIff(t, env.scopes, g, e);
    case Defer(e) => KnownIff(t, env.scopes, g, e);
    case Assign(name, e) =>
      if name in g {
        GivesIff(t, env.scopes, g, e, g[name]);
      }
      hide VariableType;
    case AssignIndex(place, e) => PlaceIff(t, ret, depth, env, g, s);
    case _ =>
  }

  lemma PlaceIff(t: Tables, ret: Type, depth: nat, env: Scoped, g: Vars, s: Stmt)
    requires s.AssignIndex? && Sees(t, env.scopes, g)
    ensures StmtTyped(t, ret, depth > 0, g, s) <==> CheckInner(t, ret, depth, env, s).Walk?
  {
    hide Sees, HasType, CheckedType, Gives, ExprChecks;
    var found := SomeType(t, env.scopes, g, s.place);
    if CheckedType(t, env.scopes, s.place).Some? {
      GivesIff(t, env.scopes, g, s.rhs, found);
    }
    if StmtTyped(t, ret, depth > 0, g, s) {
      var a :| HasType(t, g, s.place, a) && Gives(t, g, s.rhs, a);
      TypedIff(t, env.scopes, g, s.place, a);
    }
  }

  lemma {:induction false} BlockTypedIff(t: Tables, ret: Type, depth: nat, env: Scoped, g: Vars, b: Block)
    requires Sees(t, env.scopes, g)
    ensures BlockTyped(t, ret, depth > 0, g, b) <==> CheckBlock(t, ret, depth, env, b).Walk?
    decreases b, 0
  {
    hide Sees, Tops, StmtsTyped, CheckStmts;
    SeesInside(t, env.scopes, g);
    StmtsTypedIff(t, ret, depth, OpenScope(env), g, {}, b.stmts);
  }

  lemma {:induction false} ForTypedIff(t: Tables, ret: Type, depth: nat, env: Scoped, g: Vars, s: Stmt)
    requires s.For? && Sees(t, env.scopes, g)
    ensures ForTyped(t, ret, g, s) <==> CheckInner(t, ret, depth, env, s).Walk?
    decreases s, 0
  {
    hide Sees, Tops, StmtsTyped, CheckStmts, Iterates, IterType, DeclareIn;
    var found := IterType(t, env.scopes, s.iter);
    if ForTyped(t, ret, g, s) {
      var a :| Iterates(t, g, s.iter, a) && StmtsTyped(t, ret, true, g[s.variable := a], {s.variable}, s.body.stmts);
      IteratesIff(t, env.scopes, g, s.iter, a);
    }
    if found.Some? {
      IteratesIff(t, env.scopes, g, s.iter, found.value);
      SeesInside(t, env.scopes, g);
      SeesMore(t, OpenScope(env), g, {}, s.variable, found.value);
      assert {} + {s.variable} == {s.variable};
      var w := DeclareIn(OpenScope(env), s.variable, found.value);
      StmtsTypedIff(t, ret, depth + 1, w.env, g[s.variable := found.value], {s.variable}, s.body.stmts);
    }
  }

  lemma IteratesIff(t: Tables, scopes: DeclScopes, g: Vars, iter: Expr, element: Type)
    requires Sees(t, scopes, g)
    ensures Iterates(t, g, iter, element) <==> IterType(t, scopes, iter) == Some(element)
  {
    hide Sees, HasType, CheckedType;
    if Iterates(t, g, iter, element) {
      var a :| HasType(t, g, iter, a) && Yields(iter, a, element);
      TypedIff(t, scopes, g, iter, a);
    }
    if IterType(t, scopes, iter) == Some(element) {
      var a := SomeType(t, scopes, g, iter);
      assert Yields(iter, a, element);
    }
  }

  lemma SwitchChecks(t: Tables, ret: Type, depth: nat, env: Scoped, s: Stmt)
    requires s.Switch?
    ensures var ty := CheckedType(t, env.scopes, s.scrutinee);
      CheckInner(t, ret, depth, env, s)
      == if ty.Some? && ty.value.Named? && ty.value.name in t.enums
            && AcceptedSwitch(ty.value.name, t.enums[ty.value.name], s.arms)
         then CheckArms(t, ret, depth, env, t.enums[ty.value.name], s.arms) else Rejected
  {
    hide CheckedType, CheckArms, AcceptedSwitch;
  }

  lemma {:induction false} SwitchTypedIff(t: Tables, ret: Type, depth: nat, env: Scoped, g: Vars, s: Stmt)
    requires s.Switch? && Sees(t, env.scopes, g)
    ensures SwitchTyped(t, ret, depth > 0, g, s) <==> CheckInner(t, ret, depth, env, s).Walk?
    decreases s, 0
  {
    hide Sees, HasType, CheckedType, AcceptedSwitch, ArmsTyped, CheckArms, CheckInner;
    SwitchChecks(t, ret, depth, env, s);
    if SwitchTyped(t, ret, depth > 0, g, s) {
      var enum :| HasType(t, g, s.scrutinee, Named(enum)) && enum in t.enums && AcceptedSwitch(enum, t.enums[enum], s.arms)
        && ArmsTyped(t, ret, depth > 0, g, t.enums[enum], s.arms);
      TypedIff(t, env.scopes, g, s.scrutinee, Named(enum));
    }
    var found := CheckedType(t, env.scopes, s.scrutinee);
    if found.Some? && found.value.Named? && found.value.name in t.enums {
      var enum := found.value.name;
      TypedIff(t, env.scopes, g, s.scrutinee, Named(enum));
      if AcceptedSwitch(enum, t.enums[enum], s.arms) {
        AcceptedFits(enum, t.enums[enum], s.arms);
        ArmsTypedIff(t, ret, depth, env, g, enum, t.enums[enum], s.arms);
      }
    }
  }

  predicate AllFit(enum: string, variants: seq<EnumVariant>, arms: seq<Arm>) {
    forall i | 0 <= i < |arms| && arms[i].pattern.Variant? :: PatternFits(enum, variants, arms[i].pattern)
  }

  lemma AcceptedFits(enum: string, variants: seq<EnumVariant>, arms: seq<Arm>)
    requires AcceptedSwitch(enum, variants, arms)
    ensures AllFit(enum, variants, arms)
  {
    hide PatternFits;
  }

  lemma {:induction false} ArmsTypedIff(
    t: Tables, ret: Type, depth: nat, env: Scoped, g: Vars, enum: string, variants: seq<EnumVariant>, arms: seq<Arm>)
    requires Sees(t, env.scopes, g) && AllFit(enum, variants, arms)
    ensures ArmsTyped(t, ret, depth > 0, g, variants, arms) <==> CheckArms(t, ret, depth, env, variants, arms).Walk?
    decreases arms, 0
  {
    hide Sees, ArmTyped, CheckArm, PatternFits;
    if arms != [] {
      ArmTypedIff(t, ret, depth, env, g, enum, variants, arms[0]);
      var first := CheckArm(t, ret, depth, env, variants, arms[0]);
      if first.Walk? {
        ArmsTypedIff(t, ret, depth, first.env, g, enum, variants, arms[1..]);
      }
    }
  }

  lemma {:induction false} ArmTypedIff(
    t: Tables, ret: Type, depth: nat, env: Scoped, g: Vars, enum: string, variants: seq<EnumVariant>, arm: Arm)
    requires Sees(t, env.scopes, g) && (arm.pattern.Variant? ==> PatternFits(enum, variants, arm.pattern))
    ensures ArmTyped(t, ret, depth > 0, g, variants, arm) <==> CheckArm(t, ret, depth, env, variants, arm).Walk?
    decreases arm, 0
  {
    hide Sees, Tops, StmtsTyped, CheckStmts, HasVariant, DeclareIn, VariantIndex;
    SeesInside(t, env.scopes, g);
    var p := arm.pattern;
    if p.Variant? && p.binding.Some? {
      var payload := variants[VariantIndex(variants, p.variant).value].payload.value;
      VariantIff(variants, p.variant, Some(payload));
      if ArmTyped(t, ret, depth > 0, g, variants, arm) {
        var a :| HasVariant(variants, p.variant, Some(a))
          && StmtsTyped(t, ret, depth > 0, g[p.binding.value := a], {p.binding.value}, arm.body.stmts);
        VariantIff(variants, p.variant, Some(a));
      }
      SeesMore(t, OpenScope(env), g, {}, p.binding.value, payload);
      assert {} + {p.binding.value} == {p.binding.value};
      var w := DeclareIn(OpenScope(env), p.binding.value, payload);
      StmtsTypedIff(t, ret, depth, w.env, g[p.binding.value := payload], {p.binding.value}, arm.body.stmts);
    } else {
      StmtsTypedIff(t, ret, depth, OpenScope(env), g, {}, arm.body.stmts);
    }
  }

  // ---------------------------------------------------------------------------
  // Functions
  // ---------------------------------------------------------------------------

  /** Semantic analysis accepts exactly the functions that the typing rules allow. */
  lemma AcceptsExactlyTyped(t: Tables, fn: Function)
    ensures CheckFunction(t, fn).Walk? <==> FunctionTyped(t, fn)
  {
    hide Sees, Tops, StmtsTyped, CheckStmts, DeclareAllIn, Fresh, Bind, NameSet;
    var start := Scoped([map[]], 0);
    var names, types := ParamNames(fn.proto.params), ParamTypes(fn.proto.params);
    SeesStatics(t);
    SeesAll(t, start, t.globals, {}, names, types);
    assert {} + NameSet(names) == NameSet(names);
    var w := DeclareAllIn(start, names, types);
    if w.Walk? {
      StmtsTypedIff(t, fn.proto.ret, 0, w.env, Bind(t.globals, names, types), NameSet(names), fn.body.stmts);
    }
  }

  lemma SeesStatics(t: Tables)
    ensures Sees(t, [map[]], t.globals) && Tops([map[]], {})
  {
    forall x: string ensures VariableType(t, [map[]], x) == if x in t.globals then Some(t.globals[x]) else None {
      var none: DeclScopes := [];
      LookupPushed(none, x);
      assert none + [map[]] == [map[]];
    }
  }
}
