/** Lowering as it runs: a builder that appends to its current block, a name map that statements
    insert into and blocks restore, and a loop stack that is pushed and popped. Every method is
    proved to leave the state that the function of Lower.dfy returns, and to fail when it does. */
module LowerClass {
  import opened Ast
  import opened Wrappers
  import opened Values
  import opened Graph
  import opened Source
  import opened Lower

  /** The operands that are there already, before those to come. */
  function Ahead<T>(done: seq<T>, rest: Lowered<seq<T>>): Lowered<seq<T>> {
    if rest.Error? then Error else Ok(rest.code, done + rest.value)
  }

  lemma AheadOfNothing<T>(rest: Lowered<seq<T>>)
    ensures Ahead([], rest) == rest
  {
    if rest.Ok? {
      assert [] + rest.value == rest.value;
    }
  }

  lemma AheadOfOne<T>(done: seq<T>, one: T, rest: Lowered<seq<T>>)
    ensures Ahead(done, Ahead([one], rest)) == Ahead(done + [one], rest)
  {
    if rest.Ok? {
      assert done + ([one] + rest.value) == done + [one] + rest.value;
    }
  }

  /** A range loop from the point where its limit is known. */
  function ForRounds(
    u: Unit, c: Code, variable: string, varSlot: nat, counter: nat, limit: Operand, condBlock: nat, body: Block)
    : Lowered<()>
    requires c.Valid() && condBlock + 2 < |c.blocks|
  {
    var tested := ForTest(Open(ForStart(c, counter, condBlock), condBlock), counter, limit, condBlock + 1, condBlock + 2);
    var (done, _) :- LowerForBody(u, Open(tested, condBlock + 1), variable, varSlot, counter, condBlock, body);
    Ok(Open(done, condBlock + 2), ())
  }

  function ForFromLimit(
    u: Unit, c: Code, variable: string, varSlot: nat, counter: nat, count: Expr, condBlock: nat, body: Block)
    : Lowered<()>
    requires c.Valid() && condBlock + 2 < |c.blocks|
  {
    var (counted, limit) :- LowerExpr(u, c, count);
    ForRounds(u, counted, variable, varSlot, counter, limit, condBlock, body)
  }

  lemma ForInTwoParts(u: Unit, c: Code, variable: string, iter: Expr, body: Block)
    requires c.Valid() && IsRange(iter) && StaticType(u, c.names, iter.args[0]) == Some(Int)
    ensures AddBlocks(NewSlot(NewSlot(c)), 3).Valid() && |AddBlocks(NewSlot(NewSlot(c)), 3).blocks| == |c.blocks| + 3
    ensures LowerFor(u, c, variable, iter, body)
         == ForFromLimit(u, AddBlocks(NewSlot(NewSlot(c)), 3), variable, c.slots, c.slots + 1, iter.args[0], |c.blocks|, body)
  {
    hide LowerExpr, StaticType, LowerForBody, ForStart, ForTest, Grows, Extends;
  }

  /** A while loop from the point where its condition is known. */
  function WhileRounds(u: Unit, c: Code, condBlock: nat, body: Block): Lowered<()>
    requires c.Valid() && condBlock + 2 < |c.blocks|
  {
    var (done, _) :- LowerBranch(u, EnterLoop(c, condBlock, condBlock + 2), condBlock + 1, condBlock, body);
    Ok(Open(done.(loops := c.loops), condBlock + 2), ())
  }

  lemma WhileInTwoParts(u: Unit, c: Code, cond: Expr, body: Block)
    requires c.Valid()
    ensures var condBlock := |c.blocks|;
      var tested := LowerCond(u, Open(Emit(AddBlocks(c, 3), Jump(condBlock)), condBlock), cond);
      if tested.Error? then LowerWhile(u, c, cond, body).Error?
      else
        var entered := Emit(tested.code, Branch(tested.value, condBlock + 1, condBlock + 2));
        entered.Valid() && |entered.blocks| == condBlock + 3 && entered.loops == c.loops
        && LowerWhile(u, c, cond, body) == WhileRounds(u, entered, condBlock, body)
  {
    hide LowerExpr, LowerBranch, LowerCond, Grows, Extends;
  }

  class Generator {
    const u: Unit
    var blocks: Blocks
    var cur: nat
    var regs: nat
    var slots: nat
    var names: map<string, Entry>
    var loops: seq<(nat, nat)>

    constructor (u: Unit, start: Code)
      ensures this.u == u && Now() == start
    {
      this.u := u;
      blocks, cur, regs, slots, names, loops :=
        start.blocks, start.cur, start.regs, start.slots, start.names, start.loops;
    }

    function Now(): Code
      reads this
    {
      Code(blocks, cur, regs, slots, names, loops)
    }

    ghost predicate Valid()
      reads this
    {
      Now().Valid()
    }

    ghost predicate Follows<T>(r: Option<T>, spec: Lowered<T>)
      reads this
    {
      if spec.Error? then r.None? else r == Some(spec.value) && Now() == spec.code
    }

    ghost predicate Does(ok: bool, spec: Lowered<()>)
      reads this
    {
      if spec.Error? then !ok else ok && Now() == spec.code
    }

    // -------------------------------------------------------------------------
    // The builder
    // -------------------------------------------------------------------------

    method Append(i: Instr)
      requires Valid()
      modifies this`blocks
      ensures Now() == Emit(old(Now()), i) && Valid() && |blocks| == old(|blocks|)
    {
      blocks := blocks[cur := blocks[cur] + [i]];
    }

    method AppendNew(i: Instr) returns (reg: nat)
      requires Valid()
      modifies this`blocks, this`regs
      ensures Now() == EmitNew(old(Now()), i) && reg == old(regs) && Valid() && |blocks| == old(|blocks|)
    {
      Append(i);
      reg := regs;
      regs := regs + 1;
    }

    method Alloca() returns (slot: nat)
      requires Valid()
      modifies this`slots
      ensures Now() == NewSlot(old(Now())) && slot == old(slots) && slots == slot + 1 && Valid()
    {
      slot := slots;
      slots := slots + 1;
    }

    method AppendBlocks(n: nat) returns (first: nat)
      requires Valid()
      modifies this`blocks
      ensures Now() == AddBlocks(old(Now()), n) && first == old(|blocks|) && Valid() && |blocks| == first + n
    {
      first := |blocks|;
      blocks := blocks + seq(n, _ => []);
    }

    method MoveTo(block: nat)
      requires Valid() && block < |blocks|
      modifies this`cur
      ensures Now() == Open(old(Now()), block) && Valid()
    {
      cur := block;
    }

    method EndAt(target: nat)
      requires Valid()
      modifies this`blocks
      ensures Now() == Close(old(Now()), target) && Valid()
    {
      if !Terminated(Now()) {
        Append(Jump(target));
      }
    }

    // -------------------------------------------------------------------------
    // Expressions
    // -------------------------------------------------------------------------

    method GenerateExpr(e: Expr) returns (r: Option<Operand>)
      requires Valid()
      modifies this
      ensures Follows(r, LowerExpr(u, old(Now()), e)) && (r.Some? ==> Valid() && |blocks| == old(|blocks|) && loops == old(loops))
      decreases e, 1
    {
      match e
      case IntLit(n) => return Some(Const(Number(n)));
      case BoolLit(b) => return Some(Const(Truth(b)));
      case Var(name) =>
        var entry := Resolve(u, names, name);
        if entry.None? {
          return None;
        }
        var reg := AppendNew(Load(regs, entry.value.slot));
        return Some(Reg(reg));
      case Binary(op, lhs, rhs) => r := GenerateBinary(e);
      case Unary(op, operand) =>
        var src := GenerateExpr(operand);
        if src.None? {
          return None;
        }
        var reg := AppendNew(OperateOne(regs, op, src.value));
        return Some(Reg(reg));
      case Call(callee, _, args) =>
        if callee !in u.cx.signatures {
          return None;
        }
        var sig := u.cx.signatures[callee];
        var operands := GenerateArgs(args, sig.params);
        if operands.None? {
          return None;
        }
        var reg := AppendNew(Invoke(regs, callee, sig, operands.value));
        return Some(Reg(reg));
      case MethodCall(receiver, variant, _, args) =>
        if !receiver.Var? || receiver.name !in u.cx.enums {
          return None;
        }
        r := GenerateEnum(receiver.name, variant, args);
      case _ => return None;
    }

    method GenerateBinary(e: Expr) returns (r: Option<Operand>)
      requires Valid() && e.Binary?
      modifies this
      ensures Follows(r, LowerExpr(u, old(Now()), e)) && (r.Some? ==> Valid())
      decreases e, 0
    {
      var l, r1 := StaticType(u, names, e.lhs), StaticType(u, names, e.rhs);
      if e.op == In || l.None? || r1.None? {
        return None;
      }
      var left := GenerateExpr(e.lhs);
      if left.None? {
        return None;
      }
      var right := GenerateExpr(e.rhs);
      if right.None? {
        return None;
      }
      var reg := AppendNew(Operate(regs, e.op, CommonInteger(l.value, r1.value), left.value, right.value));
      return Some(Reg(reg));
    }

    method GenerateEnum(enum: string, variant: string, args: seq<Expr>) returns (r: Option<Operand>)
      requires Valid() && enum in u.cx.enums
      modifies this
      ensures Follows(r, LowerEnum(u, old(Now()), enum, variant, args)) && (r.Some? ==> Valid())
      decreases args, 1
    {
      var tag := VariantIndex(u.cx.enums[enum], variant);
      if tag.None? {
        return None;
      }
      var payload := u.cx.enums[enum][tag.value].payload;
      if |args| != (if payload.Some? then 1 else 0) {
        return None;
      }
      var slot := Alloca();
      Append(Store(slot, Named(enum), Const(EnumVal(enum, 0, None))));
      Append(StoreTag(slot, tag.value));
      if payload.Some? {
        if !Fits(u, names, args[0], payload.value) {
          return None;
        }
        var src := GenerateExpr(args[0]);
        if src.None? {
          return None;
        }
        Append(StorePayload(slot, payload.value, src.value));
      }
      var reg := AppendNew(Load(regs, slot));
      return Some(Reg(reg));
    }

    method GenerateArgs(es: seq<Expr>, ts: seq<Type>) returns (r: Option<seq<Operand>>)
      requires Valid()
      modifies this
      ensures Follows(r, LowerArgs(u, old(Now()), es, ts)) && (r.Some? ==> Valid())
      decreases es, 0
    {
      if |es| != |ts| {
        return None;
      }
      var operands: seq<Operand> := [];
      AheadOfNothing(LowerArgs(u, Now(), es, ts));
      var i := 0;
      while i < |es|
        invariant i <= |es| && Valid()
        invariant LowerArgs(u, old(Now()), es, ts) == Ahead(operands, LowerArgs(u, Now(), es[i..], ts[i..]))
      {
        assert es[i..][0] == es[i] && ts[i..][0] == ts[i];
        assert es[i..][1..] == es[i + 1..] && ts[i..][1..] == ts[i + 1..];
        if !Fits(u, names, es[i], ts[i]) {
          return None;
        }
        var operand := GenerateExpr(es[i]);
        if operand.None? {
          return None;
        }
        AheadOfOne(operands, operand.value, LowerArgs(u, Now(), es[i + 1..], ts[i + 1..]));
        operands := operands + [operand.value];
        i := i + 1;
      }
      assert operands + [] == operands;
      return Some(operands);
    }

    method GenerateCond(e: Expr) returns (r: Option<Operand>)
      requires Valid()
      modifies this
      ensures Follows(r, LowerCond(u, old(Now()), e))
      ensures r.Some? ==> Valid() && |blocks| == old(|blocks|) && loops == old(loops)
      decreases e, 1
    {
      if StaticType(u, names, e) != Some(Bool) {
        return None;
      }
      r := GenerateExpr(e);
    }

    // -------------------------------------------------------------------------
    // Statements
    // -------------------------------------------------------------------------

    method GenerateStmt(s: Stmt) returns (ok: bool)
      requires Valid()
      modifies this
      ensures Does(ok, LowerStmt(u, old(Now()), s)) && (ok ==> Valid())
      decreases s, 2
    {
      match s
      case Return(value) => ok := GenerateReturn(value);
      case ExprStmt(e) =>
        var r := GenerateExpr(e);
        return r.Some?;
      case Let(name, ty, init) =>
        if ty.None? {
          return false;
        }
        ok := GenerateLet(name, ty.value, init);
      case Assign(name, e) =>
        var src := GenerateExpr(e);
        var entry := Resolve(u, names, name);
        if src.None? || entry.None? || !Fits(u, names, e, entry.value.ty) {
          return false;
        }
        Append(Store(entry.value.slot, entry.value.ty, src.value));
        return true;
      case If(_, _, _) => ok := GenerateIf(s);
      case While(cond, body) => ok := GenerateWhile(cond, body);
      case For(variable, iter, body) => ok := GenerateFor(variable, iter, body);
      case Switch(scrutinee, arms) => ok := GenerateSwitch(scrutinee, arms);
      case Break =>
        if loops == [] {
          return false;
        }
        Append(Jump(loops[|loops| - 1].1));
        return true;
      case Continue =>
        if loops == [] {
          return false;
        }
        Append(Jump(loops[|loops| - 1].0));
        return true;
      case _ => return false;
    }

    method GenerateReturn(value: Option<Expr>) returns (ok: bool)
      requires Valid()
      modifies this
      ensures Does(ok, LowerStmt(u, old(Now()), Return(value))) && (ok ==> Valid())
      decreases value, 2
    {
      if value.None? {
        Append(Ret(None, Void));
        return true;
      }
      if u.ret == Void || !Fits(u, names, value.value, u.ret) {
        return false;
      }
      var src := GenerateExpr(value.value);
      if src.None? {
        return false;
      }
      Append(Ret(Some(src.value), u.ret));
      return true;
    }

    method GenerateLet(name: string, ty: Type, init: Option<Expr>) returns (ok: bool)
      requires Valid()
      modifies this
      ensures Does(ok, LowerLet(u, old(Now()), name, ty, init)) && (ok ==> Valid())
      decreases init, 2
    {
      var zero := Zero(u.cx.enums, ty);
      if zero.None? {
        return false;
      }
      var slot := Alloca();
      var src := Const(zero.value);
      if init.Some? {
        if !Fits(u, names, init.value, ty) {
          return false;
        }
        var r := GenerateExpr(init.value);
        if r.None? {
          return false;
        }
        src := r.value;
      }
      Append(Store(slot, ty, src));
      names := names[name := Entry(slot, ty)];
      return true;
    }

    method GenerateStmts(ss: seq<Stmt>) returns (ok: bool)
      requires Valid()
      modifies this
      ensures Does(ok, LowerStmts(u, old(Now()), ss)) && (ok ==> Valid())
      decreases ss, 0
    {
      var i := 0;
      while i < |ss|
        invariant i <= |ss| && Valid()
        invariant LowerStmts(u, old(Now()), ss) == LowerStmts(u, Now(), ss[i..])
      {
        assert ss[i..][0] == ss[i] && ss[i..][1..] == ss[i + 1..];
        var done := GenerateStmt(ss[i]);
        if !done {
          return false;
        }
        i := i + 1;
      }
      return true;
    }

    method GenerateBlock(b: Block) returns (ok: bool)
      requires Valid()
      modifies this
      ensures Does(ok, LowerBlock(u, old(Now()), b)) && (ok ==> Valid())
      decreases b, 0
    {
      var saved := names;
      ok := GenerateStmts(b.stmts);
      names := saved;
    }

    method GenerateBranch(block: nat, target: nat, b: Block) returns (ok: bool)
      requires Valid() && block < |blocks| && target < |blocks|
      modifies this
      ensures Does(ok, LowerBranch(u, old(Now()), block, target, b))
      ensures ok ==> Valid() && |blocks| >= old(|blocks|) && loops == old(loops)
      decreases b, 1
    {
      MoveTo(block);
      ok := GenerateBlock(b);
      if ok {
        EndAt(target);
      }
    }

    method GenerateIf(s: Stmt) returns (ok: bool)
      requires Valid() && s.If?
      modifies this
      ensures Does(ok, LowerIf(u, old(Now()), s)) && (ok ==> Valid())
      decreases s, 1
    {
      hide LowerCond, LowerBranches, Emit, AddBlocks, Grows;
      var v := GenerateCond(s.cond);
      if v.None? {
        return false;
      }
      var thenBlock := AppendBlocks(if s.els.Some? then 3 else 2);
      var merge := if s.els.Some? then thenBlock + 2 else thenBlock + 1;
      Append(Branch(v.value, thenBlock, thenBlock + 1));
      ok := GenerateBranches(thenBlock, merge, s);
      if ok {
        MoveTo(merge);
      }
    }

    method GenerateBranches(thenBlock: nat, merge: nat, s: Stmt) returns (ok: bool)
      requires Valid() && s.If? && merge < |blocks| && thenBlock < merge && (s.els.Some? ==> thenBlock + 1 < merge)
      modifies this
      ensures Does(ok, LowerBranches(u, old(Now()), thenBlock, merge, s)) && (ok ==> Valid())
      decreases s, 0
    {
      ok := GenerateBranch(thenBlock, merge, s.thn);
      if ok && s.els.Some? {
        ok := GenerateBranch(thenBlock + 1, merge, s.els.value);
      }
    }

    method GenerateWhile(cond: Expr, body: Block) returns (ok: bool)
      requires Valid()
      modifies this
      ensures Does(ok, LowerWhile(u, old(Now()), cond, body)) && (ok ==> Valid())
      decreases body, 2
    {
      WhileInTwoParts(u, Now(), cond, body);
      hide LowerWhile, WhileRounds, LowerCond, LowerExpr, Grows, Emit, AddBlocks, Straightforward, Extends;
      var condBlock := AppendBlocks(3);
      Append(Jump(condBlock));
      MoveTo(condBlock);
      var v := GenerateCond(cond);
      if v.None? {
        return false;
      }
      Append(Branch(v.value, condBlock + 1, condBlock + 2));
      ok := GenerateWhileRounds(condBlock, body);
    }

    method GenerateWhileRounds(condBlock: nat, body: Block) returns (ok: bool)
      requires Valid() && condBlock + 2 < |blocks|
      modifies this
      ensures Does(ok, WhileRounds(u, old(Now()), condBlock, body)) && (ok ==> Valid())
      decreases body, 2, 0
    {
      hide LowerBranch, LowerExpr, Grows;
      loops := loops + [(condBlock, condBlock + 2)];
      ok := GenerateBranch(condBlock + 1, condBlock, body);
      if ok {
        loops := loops[..|loops| - 1];
        MoveTo(condBlock + 2);
      }
    }

    method GenerateFor(variable: string, iter: Expr, body: Block) returns (ok: bool)
      requires Valid()
      modifies this
      ensures Does(ok, LowerFor(u, old(Now()), variable, iter, body)) && (ok ==> Valid())
      decreases body, 2
    {
      hide LowerExpr, StaticType, LowerForBody, ForFromLimit, AddBlocks, NewSlot, Code.Valid, Grows, Extends;
      if !IsRange(iter) || StaticType(u, names, iter.args[0]) != Some(Int) {
        return false;
      }
      ForInTwoParts(u, Now(), variable, iter, body);
      hide LowerFor;
      var varSlot := Alloca();
      var counter := Alloca();
      var condBlock := AppendBlocks(3);
      ok := GenerateFromLimit(variable, varSlot, counter, iter.args[0], condBlock, body);
    }

    method GenerateFromLimit(
        variable: string, varSlot: nat, counter: nat, count: Expr, condBlock: nat, body: Block) returns (ok: bool)
      requires Valid() && condBlock + 2 < |blocks|
      modifies this
      ensures Does(ok, ForFromLimit(u, old(Now()), variable, varSlot, counter, count, condBlock, body)) && (ok ==> Valid())
      decreases body, 1, 2
    {
      hide LowerExpr, ForRounds, Straightforward, Code.Valid;
      var limit := GenerateExpr(count);
      if limit.None? {
        return false;
      }
      ok := GenerateRounds(variable, varSlot, counter, limit.value, condBlock, body);
    }

    method GenerateRounds(
        variable: string, varSlot: nat, counter: nat, limit: Operand, condBlock: nat, body: Block) returns (ok: bool)
      requires Valid() && condBlock + 2 < |blocks|
      modifies this
      ensures Does(ok, ForRounds(u, old(Now()), variable, varSlot, counter, limit, condBlock, body)) && (ok ==> Valid())
      decreases body, 1, 1
    {
      hide LowerForBody, ForStart, ForTest, Straightforward, Grows, Code.Valid;
      StartCounting(counter, condBlock);
      MoveTo(condBlock);
      TestCounter(counter, limit, condBlock + 1, condBlock + 2);
      MoveTo(condBlock + 1);
      ok := GenerateForBody(variable, varSlot, counter, condBlock, body);
      if ok {
        MoveTo(condBlock + 2);
      }
    }

    method StartCounting(counter: nat, condBlock: nat)
      requires Valid()
      modifies this`blocks
      ensures Now() == ForStart(old(Now()), counter, condBlock) && Valid() && |blocks| == old(|blocks|)
    {
      Append(Store(counter, Int, Const(Number(0))));
      Append(Jump(condBlock));
    }

    method TestCounter(counter: nat, limit: Operand, body: nat, after: nat)
      requires Valid()
      modifies this`blocks, this`regs
      ensures Now() == ForTest(old(Now()), counter, limit, body, after) && Valid() && |blocks| == old(|blocks|)
    {
      var now := AppendNew(Load(regs, counter));
      var below := AppendNew(Operate(regs, Lt, Int, Reg(now), limit));
      Append(Branch(Reg(below), body, after));
    }

    method GenerateForBody(variable: string, varSlot: nat, counter: nat, condBlock: nat, body: Block) returns (ok: bool)
      requires Valid() && condBlock + 2 < |blocks|
      modifies this
      ensures Does(ok, LowerForBody(u, old(Now()), variable, varSlot, counter, condBlock, body))
      ensures ok ==> Valid() && |blocks| >= old(|blocks|)
      decreases body, 1, 0
    {
      var saved := names;
      var now := AppendNew(Load(regs, counter));
      Append(Store(varSlot, Int, Reg(now)));
      names := names[variable := Entry(varSlot, Int)];
      loops := loops + [(condBlock, condBlock + 2)];
      ok := GenerateStmts(body.stmts);
      if ok {
        loops := loops[..|loops| - 1];
        names := saved;
        var last := AppendNew(Load(regs, counter));
        var next := AppendNew(Operate(regs, Add, Int, Reg(last), Const(Number(1))));
        Append(Store(counter, Int, Reg(next)));
        EndAt(condBlock);
      }
    }

    // -------------------------------------------------------------------------
    // Switch
    // -------------------------------------------------------------------------

    method FindWildcard(arms: seq<Arm>) returns (r: Option<nat>)
      ensures r == WildcardIndex(arms)
    {
      var i := 0;
      while i < |arms|
        invariant i <= |arms|
        invariant forall j | 0 <= j < i :: !arms[j].pattern.Wildcard?
      {
        if arms[i].pattern.Wildcard? {
          return Some(i);
        }
        i := i + 1;
      }
      return None;
    }

    method CollectCases(variants: seq<EnumVariant>, arms: seq<Arm>, first: nat) returns (r: Option<seq<(nat, nat)>>)
      ensures r == SwitchCases(variants, arms, first)
    {
      var cases: seq<(nat, nat)> := [];
      NoCases(SwitchCases(variants, arms, first));
      assert arms[0..] == arms;
      var i := 0;
      while i < |arms|
        invariant i <= |arms|
        invariant SwitchCases(variants, arms, first) == CasesAhead(cases, SwitchCases(variants, arms[i..], first + i))
      {
        assert arms[i..][0] == arms[i] && arms[i..][1..] == arms[i + 1..];
        if arms[i].pattern.Variant? {
          var tag := VariantIndex(variants, arms[i].pattern.variant);
          if tag.None? {
            return None;
          }
          MoreCases(cases, (tag.value, first + i), SwitchCases(variants, arms[i + 1..], first + i + 1));
          cases := cases + [(tag.value, first + i)];
        }
        i := i + 1;
      }
      assert cases + [] == cases;
      return Some(cases);
    }

    method GenerateSwitch(scrutinee: Expr, arms: seq<Arm>) returns (ok: bool)
      requires Valid()
      modifies this
      ensures Does(ok, LowerSwitch(u, old(Now()), scrutinee, arms)) && (ok ==> Valid())
      decreases arms, 1
    {
      hide LowerExpr, LowerArms, SwitchHead, SwitchCases, StaticType, Grows, Open;
      var ty := StaticType(u, names, scrutinee);
      if ty.None? || !ty.value.Named? || ty.value.name !in u.cx.enums {
        return false;
      }
      var variants := u.cx.enums[ty.value.name];
      var value := GenerateExpr(scrutinee);
      if value.None? {
        return false;
      }
      var merge := |blocks|;
      var cases := CollectCases(variants, arms, merge + 1);
      if cases.None? {
        return false;
      }
      var storage := GenerateJump(value.value, ty.value, arms, cases.value);
      ok := GenerateArms(variants, storage, merge + 1, merge, arms);
      if ok {
        MoveTo(merge);
      }
    }

    /** Stores the value, and goes to the block of its tag; values that no arm takes go to a trap. */
    method GenerateJump(value: Operand, ty: Type, arms: seq<Arm>, cases: seq<(nat, nat)>) returns (storage: nat)
      requires Valid()
      modifies this
      ensures Now() == SwitchHead(old(Now()), value, ty, arms, cases) && storage == old(slots) && Valid()
    {
      hide Emit, EmitNew, AddBlocks, Straightforward, Extends;
      storage := Alloca();
      Append(Store(storage, ty, value));
      var tag := AppendNew(LoadTag(regs, storage));
      var wildcard := FindWildcard(arms);
      var merge := AppendBlocks(if wildcard.Some? then 1 + |arms| else 2 + |arms|);
      var invalid := if wildcard.Some? then merge + 1 + wildcard.value else merge + 1 + |arms|;
      Append(Dispatch(Reg(tag), invalid, cases));
      if wildcard.None? {
        MoveTo(invalid);
        Append(Trap);
      }
    }

    method GenerateArms(variants: seq<EnumVariant>, storage: nat, first: nat, merge: nat, arms: seq<Arm>) returns (ok: bool)
      requires Valid() && first + |arms| <= |blocks|
      modifies this
      ensures Does(ok, LowerArms(u, old(Now()), variants, storage, first, merge, arms)) && (ok ==> Valid())
      decreases arms, 0
    {
      hide LowerArm, Code.Valid, Extends;
      var i := 0;
      while i < |arms|
        invariant i <= |arms| && Valid() && first + |arms| <= |blocks|
        invariant LowerArms(u, old(Now()), variants, storage, first, merge, arms)
               == LowerArms(u, Now(), variants, storage, first + i, merge, arms[i..])
      {
        assert arms[i..][0] == arms[i] && arms[i..][1..] == arms[i + 1..];
        var done := GenerateArm(variants, storage, first + i, merge, arms[i]);
        if !done {
          return false;
        }
        i := i + 1;
      }
      return true;
    }

    method GenerateArm(variants: seq<EnumVariant>, storage: nat, block: nat, merge: nat, arm: Arm) returns (ok: bool)
      requires Valid() && block < |blocks|
      modifies this
      ensures Does(ok, LowerArm(u, old(Now()), variants, storage, block, merge, arm)) && (ok ==> Valid())
      ensures ok ==> |blocks| >= old(|blocks|)
      decreases arm, 0
    {
      var saved := names;
      MoveTo(block);
      ok := GenerateBinding(variants, storage, arm.pattern);
      if ok {
        ok := GenerateStmts(arm.body.stmts);
      }
      if ok {
        names := saved;
        EndAt(merge);
      }
    }

    method GenerateBinding(variants: seq<EnumVariant>, storage: nat, p: Pattern) returns (ok: bool)
      requires Valid()
      modifies this
      ensures Does(ok, LowerBinding(u, old(Now()), variants, storage, p)) && (ok ==> Valid())
    {
      if p.Wildcard? || p.binding.None? {
        return true;
      }
      var index := VariantIndex(variants, p.variant);
      if index.None? || variants[index.value].payload.None? {
        return false;
      }
      var ty := variants[index.value].payload.value;
      if Zero(u.cx.enums, ty).None? {
        return false;
      }
      var payload := AppendNew(LoadPayload(regs, storage, ty));
      var slot := Alloca();
      Append(Store(slot, ty, Reg(payload)));
      names := names[p.binding.value := Entry(slot, ty)];
      return true;
    }

    // -------------------------------------------------------------------------
    // Functions
    // -------------------------------------------------------------------------

    method GenerateParams(params: seq<Param>) returns (ok: bool)
      requires Valid()
      modifies this
      ensures Does(ok, LowerParams(u, old(Now()), params)) && (ok ==> Valid())
    {
      var i := 0;
      while i < |params|
        invariant i <= |params| && Valid()
        invariant LowerParams(u, old(Now()), params[..i]) == Ok(Now(), ())
      {
        ParamsPrefix(u, old(Now()), params, i + 1);
        if Zero(u.cx.enums, params[i].ty).None? {
          ParamsFail(u, old(Now()), params, i + 1);
          return false;
        }
        var slot := Alloca();
        Append(Store(slot, params[i].ty, Reg(i)));
        names := names[params[i].name := Entry(slot, params[i].ty)];
        i := i + 1;
      }
      assert params[..i] == params;
      return true;
    }

    method GenerateBody(fn: Function) returns (ok: bool)
      requires Valid()
      modifies this
      ensures var (c, _) := (old(Now()), 0);
        var entered := LowerParams(u, c, fn.proto.params);
        if entered.Error? then !ok
        else
          var done := LowerStmts(u, entered.code, fn.body.stmts);
          if done.Error? then !ok else Does(ok, DefaultReturn(u, done.code))
    {
      ok := GenerateParams(fn.proto.params);
      if !ok {
        return;
      }
      ok := GenerateStmts(fn.body.stmts);
      if !ok || Terminated(Now()) {
        return;
      }
      if u.ret == Void {
        Append(Ret(None, Void));
        return true;
      }
      var zero := Zero(u.cx.enums, u.ret);
      if zero.None? {
        return false;
      }
      Append(Ret(Some(Const(zero.value)), u.ret));
      return true;
    }
  }

  lemma ParamsPrefix(u: Unit, c: Code, params: seq<Param>, n: nat)
    requires c.Valid() && 0 < n <= |params|
    ensures params[..n] != [] && params[..n][|params[..n]| - 1] == params[n - 1]
    ensures params[..n][..n - 1] == params[..n - 1]
  {
  }

  lemma {:induction false} ParamsFail(u: Unit, c: Code, params: seq<Param>, n: nat)
    requires c.Valid() && n <= |params| && LowerParams(u, c, params[..n]).Error?
    ensures LowerParams(u, c, params).Error?
    decreases |params|
  {
    if n < |params| {
      var last := |params| - 1;
      assert params[..last][..n] == params[..n];
      ParamsFail(u, c, params[..last], n);
    } else {
      assert params[..n] == params;
    }
  }

  function CasesAhead(cases: seq<(nat, nat)>, rest: Option<seq<(nat, nat)>>): Option<seq<(nat, nat)>> {
    if rest.None? then None else Some(cases + rest.value)
  }

  lemma NoCases(rest: Option<seq<(nat, nat)>>)
    ensures CasesAhead([], rest) == rest
  {
    if rest.Some? {
      assert [] + rest.value == rest.value;
    }
  }

  lemma MoreCases(cases: seq<(nat, nat)>, one: (nat, nat), rest: Option<seq<(nat, nat)>>)
    ensures CasesAhead(cases, CasesAhead([one], rest)) == CasesAhead(cases + [one], rest)
  {
    if rest.Some? {
      assert cases + ([one] + rest.value) == cases + [one] + rest.value;
    }
  }

  /** The block graph of a function. */
  method GenerateFunction(cx: Context, statics: seq<Static>, fn: Function) returns (graph: Option<Blocks>)
    ensures var spec := LowerFunction(cx, statics, fn);
            graph == if spec.Error? then None else Some(spec.code.blocks)
  {
    var generator := new Generator(UnitOf(cx, statics, fn.proto.ret), EntryCode(|statics|, |fn.proto.params|));
    var ok := generator.GenerateBody(fn);
    graph := if ok then Some(generator.blocks) else None;
  }
}
