/** Wherever semantic analysis finds a type, code generation finds the same one. */
module SemaAgrees {
  import opened Ast
  import opened Wrappers
  import opened Values
  import opened Scopes
  import opened Sema

  /** The flat map shows every name as the scopes do. */
  ghost predicate Mirrors(t: Tables, scopes: DeclScopes, vars: map<string, Decl>) {
    forall x: string :: Visible(t, scopes, x) == if x in vars then Some(vars[x]) else None
  }

  /** No visible function pointer has the name of a function. */
  ghost predicate PointersApart(t: Tables, scopes: DeclScopes) {
    forall x: string | x in t.functions :: var d := Visible(t, scopes, x); d.Some? ==> !d.value.ty.Fn?
  }

  lemma CommonAgrees(left: Type, right: Type)
    requires IsInteger(left) && IsInteger(right)
    ensures CommonNumeric(left, right) == CommonInteger(left, right)
  {
  }

  lemma BinaryAgrees(op: BinOp, left: Type, right: Type)
    requires BinaryType(op, left, right).Some?
    ensures BinaryType(op, left, right) == Some(TypeofBinary(op, left, right))
  {
    hide CommonNumeric, CommonInteger, Comparable, Assignable;
    if IsInteger(left) && IsInteger(right) {
      CommonAgrees(left, right);
    }
    assert IsNumeric(left) && IsNumeric(right) && (left == Float || right == Float) ==> CommonNumeric(left, right) == Float by {
      FloatWins(left, right);
    }
  }

  /** Without floats and pointers, arithmetic is that of integers. */
  lemma PlainOperands(op: BinOp, left: Type, right: Type)
    requires !IsPointer(left) && !IsPointer(right) && left != Float && right != Float && op != In
    ensures TypeofBinary(op, left, right) == if IsArithmetic(op) then CommonInteger(left, right) else Bool
  {
    hide CommonInteger;
  }

  lemma FloatWins(left: Type, right: Type)
    ensures left == Float || right == Float ==> CommonNumeric(left, right) == Float
  {
  }

  lemma BuiltinsAgree(name: string)
    ensures BuiltinReturn(name).Some? ==> TypeofBuiltin(name) == BuiltinReturn(name)
    ensures TypeofBuiltin(name).Some? && BuiltinReturn(name).None? ==> name in {"range", "sizeof", "alignof"}
    ensures TypeofBuiltin("range") == Some(Int) && TypeofBuiltin("sizeof") == Some(U64) && TypeofBuiltin("alignof") == Some(U64)
  {
  }

  lemma CallAgrees(t: Tables, scopes: DeclScopes, vars: map<string, Decl>, callee: string, typeArgs: seq<Type>, args: seq<Expr>, types: seq<Type>)
    requires Mirrors(t, scopes, vars) && PointersApart(t, scopes)
    requires callee != "sizeof" && callee != "alignof" && CallType(t, scopes, callee, types).Some?
    ensures TypeofExpr(t, vars, Call(callee, typeArgs, args)) == CallType(t, scopes, callee, types)
  {
    hide BuiltinReturn, TypeofBuiltin, ArgsAccepted;
    BuiltinsAgree(callee);
    assert Visible(t, scopes, callee) == if callee in vars then Some(vars[callee]) else None;
  }

  /** The two computations of types agree. */
  lemma {:induction false} TypesAgree(t: Tables, scopes: DeclScopes, vars: map<string, Decl>, e: Expr)
    requires Mirrors(t, scopes, vars) && PointersApart(t, scopes)
    requires CheckedType(t, scopes, e).Some?
    ensures TypeofExpr(t, vars, e) == CheckedType(t, scopes, e)
    decreases e, 0
  {
    hide Mirrors, PointersApart, BinaryType, TypeofBinary, CallType, Assignable, FieldsChecked, MethodAccepted, PayloadAccepted, FieldOf,
      TypeofBuiltin, VariantIndex, Castable, Visible;
    if e.Var? {
      assert Visible(t, scopes, e.name) == if e.name in vars then Some(vars[e.name]) else None by {
        VisibleMirrored(t, scopes, vars, e.name);
      }
    } else if e.AddrOf? {
      if !(e.operand.Var? && e.operand.name in t.functions) {
        TypesAgree(t, scopes, vars, e.operand);
      }
    } else if e.Deref? || e.Unary? {
      TypesAgree(t, scopes, vars, e.operand);
    } else if e.Binary? {
      TypesAgree(t, scopes, vars, e.lhs);
      TypesAgree(t, scopes, vars, e.rhs);
      BinaryAgrees(e.op, CheckedType(t, scopes, e.lhs).value, CheckedType(t, scopes, e.rhs).value);
    } else if e.Call? {
      if e.callee == "sizeof" || e.callee == "alignof" {
        BuiltinsAgree(e.callee);
      } else {
        CallAgrees(t, scopes, vars, e.callee, e.typeArgs, e.args, CheckedTypes(t, scopes, e.args).value);
      }
    } else if e.Field? {
      TypesAgree(t, scopes, vars, e.base);
    } else if e.Index? {
      TypesAgree(t, scopes, vars, e.base);
    } else if e.ArrayLit? {
      TypesAgree(t, scopes, vars, e.values[0]);
    } else if e.TupleLit? {
      TypeListsAgree(t, scopes, vars, e.values);
    }
  }

  lemma VisibleMirrored(t: Tables, scopes: DeclScopes, vars: map<string, Decl>, x: string)
    requires Mirrors(t, scopes, vars)
    ensures Visible(t, scopes, x) == if x in vars then Some(vars[x]) else None
  {
  }

  lemma {:induction false} TypeListsAgree(t: Tables, scopes: DeclScopes, vars: map<string, Decl>, es: seq<Expr>)
    requires Mirrors(t, scopes, vars) && PointersApart(t, scopes)
    requires CheckedTypes(t, scopes, es).Some?
    ensures TypeofExprs(t, vars, es) == CheckedTypes(t, scopes, es)
    decreases es, 0
  {
    hide Mirrors, PointersApart, CheckedType, TypeofExpr;
    if es != [] {
      TypesAgree(t, scopes, vars, es[0]);
      TypeListsAgree(t, scopes, vars, es[1..]);
    }
  }

  /** Without that condition, they agree on a call of a function exactly if no function pointer of
      its name is visible, or one that returns the same. */
  lemma CallAgreesIff(t: Tables, scopes: DeclScopes, vars: map<string, Decl>, callee: string, typeArgs: seq<Type>, args: seq<Expr>)
    requires Mirrors(t, scopes, vars) && callee in t.functions && TypeofBuiltin(callee).None?
    requires CheckedType(t, scopes, Call(callee, typeArgs, args)).Some?
    ensures
      TypeofExpr(t, vars, Call(callee, typeArgs, args)) == CheckedType(t, scopes, Call(callee, typeArgs, args))
      <==>
      (callee in vars && vars[callee].ty.Fn? ==> vars[callee].ty.ret == t.functions[callee].ret)
  {
    hide BuiltinReturn, TypeofBuiltin, ArgsAccepted;
    BuiltinsAgree(callee);
    BuiltinsAgree("range");
  }

  /** A program in which a function `f` returns an int and a local pointer of that name a bool. */
  lemma PointerHidesFunction()
    ensures exists t: Tables, scopes, vars ::
      Mirrors(t, scopes, vars)
      && CheckedType(t, scopes, Call("f", [], [])) == Some(Int)
      && TypeofExpr(t, vars, Call("f", [], [])) == Some(Bool)
  {
    var t := Tables(map[], map[], map["f" := Sig([], Int, false)], map[]);
    var scope := map["f" := Local(Fn([], Bool), 0)];
    var scopes: DeclScopes := [scope];
    OneScopeMirrors(t, scope);
    assert BuiltinReturn("f").None? && TypeofBuiltin("f").None?;
    hide CheckedType, TypeofExpr, Mirrors, BuiltinReturn, TypeofBuiltin;
    PlainCall(t, scopes, scope, "f");
  }

  lemma OneScopeMirrors(t: Tables, scope: map<string, Decl>)
    requires t.globals == map[]
    ensures Mirrors(t, [scope], scope)
  {
    forall x: string ensures Lookup([scope], x) == if x in scope then Some(scope[x]) else None {
      assert [scope][..0] == [];
    }
  }

  /** A call without arguments, of a function and of a pointer. */
  lemma PlainCall(t: Tables, scopes: DeclScopes, vars: map<string, Decl>, f: string)
    requires f in t.functions && t.functions[f].params == []
    requires f in vars && vars[f].ty.Fn? && f !in {"sizeof", "alignof", "range"}
    requires BuiltinReturn(f).None? && TypeofBuiltin(f).None?
    ensures CheckedType(t, scopes, Call(f, [], [])) == Some(t.functions[f].ret)
    ensures TypeofExpr(t, vars, Call(f, [], [])) == Some(vars[f].ty.ret)
  {
    hide BuiltinReturn, TypeofBuiltin;
    assert CheckedTypes(t, scopes, []) == Some([]);
  }
}
