/** Lowering and type lookup find the same types, so what semantic analysis says holds of the lowered
    expressions too. */
module LowerTypes {
  import opened Ast
  import opened Values
  import opened Lower
  import opened Sema

  predicate IsLowered(t: Type) {
    !IsPointer(t) && t != Float && !t.Fn?
  }

  /** The variables and functions of lowering are those of the tables, and none has to do with floats
      or pointers. */
  ghost predicate SameTables(u: Unit, names: map<string, Entry>, t: Tables, vars: map<string, Decl>) {
    && u.cx.enums == t.enums
    && (forall x: string ::
         var entry := Resolve(u, names, x);
         (entry.Some? <==> x in vars) && (x in vars ==> entry.value.ty == vars[x].ty && IsLowered(vars[x].ty)))
    && (forall f | f in u.cx.signatures ::
         TypeofBuiltin(f).None? && f in t.functions
         && t.functions[f].ret == u.cx.signatures[f].ret && IsLowered(t.functions[f].ret))
  }

  lemma {:induction false} StaticTypeIsTypeof(
    u: Unit, names: map<string, Entry>, t: Tables, vars: map<string, Decl>, e: Expr)
    requires SameTables(u, names, t, vars) && StaticType(u, names, e).Some?
    ensures TypeofExpr(t, vars, e) == StaticType(u, names, e) && IsLowered(StaticType(u, names, e).value)
    decreases e
  {
    hide Resolve, CommonInteger, TypeofBuiltin, VariantIndex, FieldOf, PointeeType, ElementType;
    if e.Var? {
      assert Resolve(u, names, e.name).Some? <==> e.name in vars;
    } else if e.Binary? {
      StaticTypeIsTypeof(u, names, t, vars, e.lhs);
      StaticTypeIsTypeof(u, names, t, vars, e.rhs);
      CommonIsLowered(StaticType(u, names, e.lhs).value, StaticType(u, names, e.rhs).value);
    } else if e.Unary? {
      if e.unop != Not {
        StaticTypeIsTypeof(u, names, t, vars, e.operand);
      }
    } else if e.Call? {
      assert Resolve(u, names, e.callee).Some? <==> e.callee in vars;
    }
  }

  lemma CommonIsLowered(left: Type, right: Type)
    ensures IsLowered(CommonInteger(left, right))
  {
  }
}
