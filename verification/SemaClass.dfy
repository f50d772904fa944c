/** Semantic analysis as it runs: a stack of scopes and a loop depth that statements push and pop.
    Every method is proved to accept what the functions of Walks.dfy accept, and to pass the same
    statements with the same declarations. */
module SemaClass {
  import opened Ast
  import opened Wrappers
  import opened Scopes
  import opened Sema
  import opened Patterns
  import opened Walks

  type Visits = seq<Visit<Scoped>>

  /** The visits that were made already, before those to come. */
  function Later(front: Visits, w: Walk<Scoped>): Walk<Scoped> {
    if w.Rejected? then Rejected else Walk(w.env, front + w.visits)
  }

  lemma LaterNothing(w: Walk<Scoped>)
    ensures Later([], w) == w
  {
    if w.Walk? {
      assert [] + w.visits == w.visits;
    }
  }

  lemma LaterTwice(a: Visits, b: Visits, w: Walk<Scoped>)
    ensures Later(a, Later(b, w)) == Later(a + b, w)
  {
    if w.Walk? {
      assert a + (b + w.visits) == a + b + w.visits;
    }
  }

  class Checker {
    const t: Tables
    const ret: Type
    var scopes: DeclScopes
    var next: nat
    var loopDepth: nat
    ghost var visits: Visits

    constructor (t: Tables, ret: Type)
      ensures this.t == t && this.ret == ret && Now() == Scoped([map[]], 0) && loopDepth == 0 && visits == []
    {
      this.t, this.ret := t, ret;
      scopes, next, loopDepth, visits := [map[]], 0, 0, [];
    }

    function Now(): Scoped
      reads this
    {
      Scoped(scopes, next)
    }

    ghost predicate Follows(ok: bool, before: Visits, depth: nat, spec: Walk<Scoped>)
      reads this
    {
      if spec.Rejected? then !ok
      else ok && Now() == spec.env && visits == before + spec.visits && loopDepth == depth
    }

    method Push()
      modifies this`scopes
      ensures Now() == OpenScope(old(Now()))
    {
      scopes := scopes + [map[]];
    }

    method PopScope()
      modifies this`scopes
      ensures Now() == old(Now()).(scopes := Pop(old(scopes)))
    {
      scopes := if scopes == [] then [] else scopes[..|scopes| - 1];
    }

    method DeclareName(name: string, ty: Type) returns (ok: bool)
      modifies this`scopes, this`next
      ensures var spec := DeclareIn(old(Now()), name, ty);
              if spec.Rejected? then !ok else ok && Now() == spec.env && spec.visits == []
    {
      if scopes == [] || name in scopes[|scopes| - 1] {
        return false;
      }
      var last := |scopes| - 1;
      scopes := scopes[last := scopes[last][name := Local(ty, next)]];
      next := next + 1;
      return true;
    }

    method DeclareAll(names: seq<string>, types: seq<Type>) returns (ok: bool)
      requires |names| == |types|
      modifies this`scopes, this`next
      ensures var spec := DeclareAllIn(old(Now()), names, types);
              if spec.Rejected? then !ok else ok && Now() == spec.env && spec.visits == []
    {
      var i := 0;
      while i < |names|
        invariant i <= |names|
        invariant DeclareAllIn(old(Now()), names, types) == DeclareAllIn(Now(), names[i..], types[i..])
      {
        assert names[i..][0] == names[i] && names[i..][1..] == names[i + 1..];
        assert types[i..][0] == types[i] && types[i..][1..] == types[i + 1..];
        var declared := DeclareName(names[i], types[i]);
        if !declared {
          return false;
        }
        i := i + 1;
      }
      return true;
    }

    method VisitStmt(s: Stmt) returns (ok: bool)
      modifies this
      ensures Follows(ok, old(visits), old(loopDepth), CheckStmt(t, ret, old(loopDepth), old(Now()), s))
      decreases s, 1
    {
      hide CheckInner;
      ghost var before, here := visits, [Visit(s, Now())];
      ghost var inner := CheckInner(t, ret, loopDepth, Now(), s);
      visits := visits + here;
      ok := VisitInner(s);
      assert inner.Walk? ==> before + here + inner.visits == before + (here + inner.visits);
    }

    method VisitInner(s: Stmt) returns (ok: bool)
      modifies this
      ensures Follows(ok, old(visits), old(loopDepth), CheckInner(t, ret, old(loopDepth), old(Now()), s))
      decreases s, 0
    {
      hide CheckBlock, CheckStmts, CheckArms, AcceptedSwitch, CheckedType, LetType, IterType, SimpleStmtChecks, DeclareIn, DeclareAllIn;
      assert visits + [] == visits;
      match s
      case Let(name, ty, init) =>
        var declared := LetType(t, scopes, ty, init);
        if declared.None? {
          return false;
        }
        ok := DeclareName(name, declared.value);
      case LetTuple(names, source) =>
        var ty := CheckedType(t, scopes, source);
        if ty.None? || !ty.value.Tuple? || |ty.value.elements| != |names| {
          return false;
        }
        ok := DeclareAll(names, ty.value.elements);
      case If(cond, thn, els) => ok := VisitIf(s);
      case While(cond, body) =>
        if CheckedType(t, scopes, cond) != Some(Bool) {
          return false;
        }
        loopDepth := loopDepth + 1;
        ok := VisitBlock(body);
        if ok {
          loopDepth := loopDepth - 1;
        }
      case For(variable, iter, body) => ok := VisitFor(variable, iter, body);
      case Switch(scrutinee, arms) =>
        var ty := CheckedType(t, scopes, scrutinee);
        if ty.None? || !ty.value.Named? || ty.value.name !in t.enums {
          return false;
        }
        ok := CheckSwitch(ty.value.name, t.enums[ty.value.name], arms);
        if ok {
          ok := VisitArms(t.enums[ty.value.name], arms);
        }
      case _ =>
        ok := SimpleStmtChecks(t, ret, loopDepth, scopes, s);
    }

    method VisitIf(s: Stmt) returns (ok: bool)
      requires s.If?
      modifies this
      ensures Follows(ok, old(visits), old(loopDepth), CheckInner(t, ret, old(loopDepth), old(Now()), s))
      decreases s, 0, 0
    {
      hide CheckBlock, CheckedType;
      if CheckedType(t, scopes, s.cond) != Some(Bool) {
        return false;
      }
      ghost var before := visits;
      ghost var first := CheckBlock(t, ret, loopDepth, Now(), s.thn);
      ok := VisitBlock(s.thn);
      if ok && s.els.Some? {
        ghost var second := CheckBlock(t, ret, loopDepth, Now(), s.els.value);
        ok := VisitBlock(s.els.value);
        assert second.Walk? ==> before + first.visits + second.visits == before + (first.visits + second.visits);
      }
    }

    method VisitFor(variable: string, iter: Expr, body: Block) returns (ok: bool)
      modifies this
      ensures Follows(ok, old(visits), old(loopDepth),
                      CheckInner(t, ret, old(loopDepth), old(Now()), For(variable, iter, body)))
      decreases body, 1
    {
      hide CheckStmts, IterType, DeclareIn;
      var element := IterType(t, scopes, iter);
      if element.None? {
        return false;
      }
      Push();
      ok := DeclareName(variable, element.value);
      if !ok {
        return;
      }
      loopDepth := loopDepth + 1;
      ok := VisitStmts(body.stmts);
      if ok {
        loopDepth := loopDepth - 1;
        PopScope();
      }
    }

    method VisitBlock(b: Block) returns (ok: bool)
      modifies this
      ensures Follows(ok, old(visits), old(loopDepth), CheckBlock(t, ret, old(loopDepth), old(Now()), b))
      decreases b, 0
    {
      hide CheckStmts;
      Push();
      ok := VisitStmts(b.stmts);
      if ok {
        PopScope();
      }
    }

    method VisitStmts(ss: seq<Stmt>) returns (ok: bool)
      modifies this
      ensures Follows(ok, old(visits), old(loopDepth), CheckStmts(t, ret, old(loopDepth), old(Now()), ss))
      decreases ss, 0
    {
      hide CheckStmt;
      ghost var whole := CheckStmts(t, ret, loopDepth, Now(), ss);
      ghost var front: Visits := [];
      LaterNothing(whole);
      assert visits + front == visits;
      var i := 0;
      while i < |ss|
        invariant i <= |ss| && loopDepth == old(loopDepth) && visits == old(visits) + front
        invariant whole == Later(front, CheckStmts(t, ret, loopDepth, Now(), ss[i..]))
      {
        assert ss[i..][0] == ss[i] && ss[i..][1..] == ss[i + 1..];
        ghost var one := CheckStmt(t, ret, loopDepth, Now(), ss[i]);
        var done := VisitStmt(ss[i]);
        if !done {
          return false;
        }
        LaterTwice(front, one.visits, CheckStmts(t, ret, loopDepth, Now(), ss[i + 1..]));
        assert old(visits) + front + one.visits == old(visits) + (front + one.visits);
        front := front + one.visits;
        i := i + 1;
      }
      assert front + [] == front;
      return true;
    }

    method VisitArms(variants: seq<EnumVariant>, arms: seq<Arm>) returns (ok: bool)
      modifies this
      ensures Follows(ok, old(visits), old(loopDepth), CheckArms(t, ret, old(loopDepth), old(Now()), variants, arms))
      decreases arms, 0
    {
      hide CheckArm;
      ghost var whole := CheckArms(t, ret, loopDepth, Now(), variants, arms);
      ghost var front: Visits := [];
      LaterNothing(whole);
      assert visits + front == visits;
      var i := 0;
      while i < |arms|
        invariant i <= |arms| && loopDepth == old(loopDepth) && visits == old(visits) + front
        invariant whole == Later(front, CheckArms(t, ret, loopDepth, Now(), variants, arms[i..]))
      {
        assert arms[i..][0] == arms[i] && arms[i..][1..] == arms[i + 1..];
        ghost var one := CheckArm(t, ret, loopDepth, Now(), variants, arms[i]);
        var done := VisitArm(variants, arms[i]);
        if !done {
          return false;
        }
        LaterTwice(front, one.visits, CheckArms(t, ret, loopDepth, Now(), variants, arms[i + 1..]));
        assert old(visits) + front + one.visits == old(visits) + (front + one.visits);
        front := front + one.visits;
        i := i + 1;
      }
      assert front + [] == front;
      return true;
    }

    method VisitArm(variants: seq<EnumVariant>, arm: Arm) returns (ok: bool)
      modifies this
      ensures Follows(ok, old(visits), old(loopDepth), CheckArm(t, ret, old(loopDepth), old(Now()), variants, arm))
      decreases arm, 0
    {
      hide CheckStmts, DeclareIn, Binding;
      var binding := Binding(variants, arm.pattern);
      if binding.None? {
        return false;
      }
      Push();
      if binding.value.Some? {
        var declared := DeclareName(binding.value.value.name, binding.value.value.ty);
        if !declared {
          return false;
        }
      }
      ok := VisitStmts(arm.body.stmts);
      if ok {
        PopScope();
      }
    }

    /** Parameters and body share the scope of a new checker. */
    method VisitFunction(fn: Function) returns (ok: bool)
      requires Now() == Scoped([map[]], 0) && loopDepth == 0 && visits == [] && ret == fn.proto.ret
      modifies this
      ensures Follows(ok, [], 0, CheckFunction(t, fn))
    {
      hide CheckStmts, DeclareAllIn;
      ok := DeclareAll(ParamNames(fn.proto.params), ParamTypes(fn.proto.params));
      if ok {
        ok := VisitStmts(fn.body.stmts);
      }
    }
  }
}
