/** When the emitted blocks are well formed: exactly if no instruction is emitted after a jump. */
module LowerShape {
  import opened Ast
  import opened Wrappers
  import opened Values
  import opened Graph
  import opened Lower

  // ---------------------------------------------------------------------------
  // The condition, on the source
  // ---------------------------------------------------------------------------

  /** A literal as a statement emits nothing. */
  predicate Quiet(s: Stmt) {
    s.ExprStmt? && (s.expr.IntLit? || s.expr.BoolLit?)
  }

  predicate JumpStmt(s: Stmt) {
    s.Return? || s.Break? || s.Continue?
  }

  /** Whether the last statement that emits anything is a jump; `ended` says so of the ones before. */
  predicate EndsInJump(ended: bool, ss: seq<Stmt>)
    decreases |ss|
  {
    if ss == [] then ended
    else EndsInJump(if Quiet(ss[0]) then ended else JumpStmt(ss[0]), ss[1..])
  }

  /** Nothing is emitted after a jump in the same block, and no loop over a range ends in one,
      since the counter goes up after its body. */
  predicate Tidy(ended: bool, ss: seq<Stmt>)
    decreases ss, 0
  {
    ss == [] ||
    if Quiet(ss[0]) then Tidy(ended, ss[1..])
    else !ended && TidyStmt(ss[0]) && Tidy(JumpStmt(ss[0]), ss[1..])
  }

  predicate TidyStmt(s: Stmt)
    decreases s, 0
  {
    match s
    case If(_, thn, els) => TidyBlock(thn) && (els.Some? ==> TidyBlock(els.value))
    case While(_, body) => TidyBlock(body)
    case For(_, _, body) => TidyBlock(body) && !EndsInJump(false, body.stmts)
    case Switch(_, arms) => TidyArms(arms)
    case _ => true
  }

  predicate TidyBlock(b: Block)
    decreases b, 0
  {
    Tidy(false, b.stmts)
  }

  predicate TidyArms(arms: seq<Arm>)
    decreases arms, 0
  {
    arms == [] || (TidyArm(arms[0]) && TidyArms(arms[1..]))
  }

  predicate TidyArm(arm: Arm)
    decreases arm, 0
  {
    TidyBlock(arm.body)
  }

  // ---------------------------------------------------------------------------
  // The shape of code under construction
  // ---------------------------------------------------------------------------

  /** The current block has ended in a jump, or has none yet. */
  predicate Ended(c: Code, ended: bool)
    requires c.Valid()
  {
    if ended then Finished(c.blocks[c.cur]) else Straight(c.blocks[c.cur])
  }

  /** Some block has a jump before its end. */
  predicate Broken(c: Code) {
    exists b | 0 <= b < |c.blocks| :: JumpInside(c.blocks[b])
  }

  predicate JumpInside(code: seq<Instr>) {
    exists i | 0 <= i < |code| - 1 :: IsJump(code[i])
  }

  /** The blocks from `lo` on are finished, save the one that receives instructions. */
  predicate Settled(d: Code, lo: nat) {
    forall b | lo <= b < |d.blocks| && b != d.cur :: Finished(d.blocks[b])
  }

  /** Control has left the block of `c` for good, unless it is still the current one. */
  predicate Behind(c: Code, d: Code)
    requires c.Valid() && |c.blocks| <= |d.blocks|
  {
    d.cur != c.cur ==> Finished(d.blocks[c.cur])
  }

  lemma StaysBroken(c: Code, d: Code, lo: nat, hi: nat)
    requires Extends(c, d, lo, hi) && Broken(c)
    ensures Broken(d)
  {
    var b :| 0 <= b < |c.blocks| && JumpInside(c.blocks[b]);
    assert c.blocks[b] <= d.blocks[b];
    assert JumpInside(d.blocks[b]);
  }

  lemma BrokenIsIllFormed(c: Code)
    requires Broken(c)
    ensures !WellFormed(c.blocks)
  {
    var b :| 0 <= b < |c.blocks| && JumpInside(c.blocks[b]);
    var i :| 0 <= i < |c.blocks[b]| - 1 && IsJump(c.blocks[b][i]);
    assert c.blocks[b][..|c.blocks[b]| - 1][i] == c.blocks[b][i];
  }

  lemma EmitStraight(c: Code, i: Instr)
    requires c.Valid() && Ended(c, false)
    ensures Emit(c, i).Valid() && Ended(Emit(c, i), IsJump(i))
  {
    var code := Emit(c, i).blocks[c.cur];
    assert code[..|code| - 1] == c.blocks[c.cur];
  }

  /** More instructions after a jump put it inside its block. */
  lemma GrownBroken(c: Code, d: Code)
    requires c.Valid() && d.Valid() && Extends(c, d, c.cur, c.cur + 1) && Ended(c, true)
    requires |d.blocks[c.cur]| > |c.blocks[c.cur]|
    ensures Broken(d)
  {
    var code := c.blocks[c.cur];
    assert code <= d.blocks[c.cur];
    assert IsJump(d.blocks[c.cur][|code| - 1]);
    assert JumpInside(d.blocks[c.cur]);
  }

  /** Closing a block finishes it. */
  lemma CloseFinishes(c: Code, ended: bool, target: nat)
    requires c.Valid() && Ended(c, ended)
    ensures Ended(Close(c, target), true)
  {
    if ended {
      assert Terminated(c);
    } else {
      EmitStraight(c, Jump(target));
      var code := c.blocks[c.cur];
      if code != [] {
        assert !IsJump(code[|code| - 1]);
      }
    }
  }

  // ---------------------------------------------------------------------------
  // Expressions emit no jumps
  // ---------------------------------------------------------------------------

  lemma {:induction false} ExprStraight(u: Unit, c: Code, e: Expr)
    requires c.Valid() && LowerExpr(u, c, e).Ok? && Ended(c, false)
    ensures Ended(LowerExpr(u, c, e).code, false)
    ensures !e.IntLit? && !e.BoolLit? ==> |LowerExpr(u, c, e).code.blocks[c.cur]| > |c.blocks[c.cur]|
    decreases e, 1
  {
    hide Ended, LowerEnum, LowerArgs, StaticType, Resolve;
    if e.Var? {
      EmitStraight(c, Load(c.regs, Resolve(u, c.names, e.name).value.slot));
      EndedSame(Emit(c, Load(c.regs, Resolve(u, c.names, e.name).value.slot)), LowerExpr(u, c, e).code, false);
    } else if e.Binary? {
      BinaryStraight(u, c, e);
    } else if e.Unary? {
      var c1 := LowerExpr(u, c, e.operand);
      ExprStraight(u, c, e.operand);
      EmitNewStraight(c1.code, OperateOne(c1.code.regs, e.unop, c1.value));
    } else if e.Call? {
      var sig := u.cx.signatures[e.callee];
      var c1 := LowerArgs(u, c, e.args, sig.params);
      ArgsStraight(u, c, e.args, sig.params);
      EmitNewStraight(c1.code, Invoke(c1.code.regs, e.callee, sig, c1.value));
    } else if e.MethodCall? {
      EnumStraight(u, c, e.receiver.name, e.methodName, e.args);
    }
  }

  lemma EndedSame(c: Code, d: Code, ended: bool)
    requires c.Valid() && d.Valid() && c.blocks == d.blocks && c.cur == d.cur && Ended(c, ended)
    ensures Ended(d, ended)
  {
  }

  lemma EmitNewStraight(c: Code, i: Instr)
    requires c.Valid() && Ended(c, false) && !IsJump(i)
    ensures EmitNew(c, i).Valid() && Ended(EmitNew(c, i), false)
    ensures |EmitNew(c, i).blocks[c.cur]| == |c.blocks[c.cur]| + 1
  {
    EmitStraight(c, i);
  }

  lemma {:induction false} BinaryStraight(u: Unit, c: Code, e: Expr)
    requires e.Binary? && c.Valid() && LowerExpr(u, c, e).Ok? && Ended(c, false)
    ensures Ended(LowerExpr(u, c, e).code, false)
    ensures |LowerExpr(u, c, e).code.blocks[c.cur]| > |c.blocks[c.cur]|
    decreases e, 0
  {
    hide Ended, StaticType, CommonInteger;
    var l, r := StaticType(u, c.names, e.lhs).value, StaticType(u, c.names, e.rhs).value;
    var left := LowerExpr(u, c, e.lhs);
    var right := LowerExpr(u, left.code, e.rhs);
    ExprStraight(u, c, e.lhs);
    ExprStraight(u, left.code, e.rhs);
    EmitNewStraight(right.code, Operate(right.code.regs, e.op, CommonInteger(l, r), left.value, right.value));
  }

  lemma {:induction false} ArgsStraight(u: Unit, c: Code, es: seq<Expr>, ts: seq<Type>)
    requires c.Valid() && LowerArgs(u, c, es, ts).Ok? && Ended(c, false)
    ensures Ended(LowerArgs(u, c, es, ts).code, false)
    decreases es, 0
  {
    hide Ended, Fits;
    if es != [] {
      ExprStraight(u, c, es[0]);
      ArgsStraight(u, LowerExpr(u, c, es[0]).code, es[1..], ts[1..]);
    }
  }

  lemma {:induction false} EnumStraight(u: Unit, c: Code, enum: string, variant: string, args: seq<Expr>)
    requires c.Valid() && enum in u.cx.enums && LowerEnum(u, c, enum, variant, args).Ok? && Ended(c, false)
    ensures Ended(LowerEnum(u, c, enum, variant, args).code, false)
    ensures |LowerEnum(u, c, enum, variant, args).code.blocks[c.cur]| > |c.blocks[c.cur]|
    decreases args, 2
  {
    hide Ended, Fits, VariantIndex;
    var tag := VariantIndex(u.cx.enums[enum], variant).value;
    var payload := u.cx.enums[enum][tag].payload;
    var i1, i2 := Store(c.slots, Named(enum), Const(EnumVal(enum, 0, None))), StoreTag(c.slots, tag);
    var c1 := Emit(NewSlot(c), i1);
    EndedSame(c, NewSlot(c), false);
    EmitStraight(NewSlot(c), i1);
    EmitStraight(c1, i2);
    var c2 := StartEnum(c, enum, tag);
    if payload.None? {
      EmitNewStraight(c2, Load(c2.regs, c.slots));
    } else {
      var src := LowerExpr(u, c2, args[0]);
      ExprStraight(u, c2, args[0]);
      EmitStraight(src.code, StorePayload(c.slots, payload.value, src.value));
      var c3 := Emit(src.code, StorePayload(c.slots, payload.value, src.value));
      EmitNewStraight(c3, Load(c3.regs, c.slots));
    }
  }

  // ---------------------------------------------------------------------------
  // Statements
  // ---------------------------------------------------------------------------

  lemma ExprEmits(u: Unit, c: Code, e: Expr)
    requires c.Valid() && LowerExpr(u, c, e).Ok? && !e.IntLit? && !e.BoolLit?
    ensures |LowerExpr(u, c, e).code.blocks[c.cur]| > |c.blocks[c.cur]|
  {
    hide LowerArgs, StartEnum, Fits, StaticType, Resolve, VariantIndex;
  }

  /** Every other statement emits something in the current block. */
  lemma Emits(u: Unit, c: Code, s: Stmt)
    requires c.Valid() && LowerStmt(u, c, s).Ok? && !Quiet(s)
    ensures |LowerStmt(u, c, s).code.blocks[c.cur]| > |c.blocks[c.cur]|
  {
    hide LowerExpr, LowerBranches, LowerBranch, LowerForBody, LowerArms, LowerCond, LowerInit, Fits, Resolve, StaticType, SwitchCases, ForTest,
      Zero, WildcardIndex, Otherwise;
    if s.ExprStmt? {
      ExprEmits(u, c, s.expr);
    } else if s.Switch? {
      SwitchEmits(u, c, s);
    }
  }

  lemma SwitchEmits(u: Unit, c: Code, s: Stmt)
    requires c.Valid() && s.Switch? && LowerSwitch(u, c, s.scrutinee, s.arms).Ok?
    ensures |LowerSwitch(u, c, s.scrutinee, s.arms).code.blocks[c.cur]| > |c.blocks[c.cur]|
  {
    hide LowerExpr, LowerArms, StaticType, SwitchCases, WildcardIndex, Otherwise;
    var ty := StaticType(u, c.names, s.scrutinee).value;
    var v := LowerExpr(u, c, s.scrutinee);
    var cases := SwitchCases(u.cx.enums[ty.name], s.arms, |c.blocks| + 1).value;
    var head := SwitchHead(v.code, v.value, ty, s.arms, cases);
    assert |SwitchLoad(v.code, v.value, ty).blocks[c.cur]| > |v.code.blocks[c.cur]|;
    assert SwitchLoad(v.code, v.value, ty).blocks[c.cur] <= head.blocks[c.cur];
  }

  /** The code after statements is in good order exactly if they are tidy. */
  ghost predicate Shaped(c: Code, d: Code, tidy: bool, ended: bool)
    requires c.Valid() && d.Valid() && |c.blocks| <= |d.blocks|
  {
    if tidy then Settled(d, |c.blocks|) && Behind(c, d) && Ended(d, ended) else Broken(d)
  }

  lemma {:induction false} StmtsShape(u: Unit, c: Code, ended: bool, ss: seq<Stmt>)
    requires c.Valid() && LowerStmts(u, c, ss).Ok? && Ended(c, ended)
    ensures Shaped(c, LowerStmts(u, c, ss).code, Tidy(ended, ss), EndsInJump(ended, ss))
    decreases ss, 0
  {
    hide LowerStmt, TidyStmt, Broken, Ended;
    if ss != [] {
      var c1 := LowerStmt(u, c, ss[0]).code;
      var d := LowerStmts(u, c1, ss[1..]).code;
      if Quiet(ss[0]) {
        QuietEmitsNothing(u, c, ss[0]);
        StmtsShape(u, c, ended, ss[1..]);
      } else if ended {
        Emits(u, c, ss[0]);
        GrownBroken(c, c1);
        StaysBroken(c1, d, c1.cur, c1.cur + 1);
      } else {
        StmtShape(u, c, ss[0]);
        if TidyStmt(ss[0]) {
          StmtsShape(u, c1, JumpStmt(ss[0]), ss[1..]);
          if Tidy(JumpStmt(ss[0]), ss[1..]) {
            ShapedTrans(c, c1, d, JumpStmt(ss[0]), EndsInJump(ended, ss));
          }
        } else {
          StaysBroken(c1, d, c1.cur, c1.cur + 1);
        }
      }
    }
  }

  lemma QuietEmitsNothing(u: Unit, c: Code, s: Stmt)
    requires c.Valid() && LowerStmt(u, c, s).Ok? && Quiet(s)
    ensures LowerStmt(u, c, s).code == c
  {
  }

  lemma ShapedTrans(c: Code, d: Code, e: Code, mid: bool, ended: bool)
    requires c.Valid() && d.Valid() && e.Valid() && Grows(c, d) && Grows(d, e)
    requires Shaped(c, d, true, mid) && Shaped(d, e, true, ended)
    ensures Shaped(c, e, true, ended)
  {
    hide Finished, Ended;
  }

  lemma {:induction false} StmtShape(u: Unit, c: Code, s: Stmt)
    requires c.Valid() && LowerStmt(u, c, s).Ok? && Ended(c, false) && !Quiet(s)
    ensures Shaped(c, LowerStmt(u, c, s).code, TidyStmt(s), JumpStmt(s))
    decreases s, 2
  {
    hide Ended, Broken, Tidy, LowerIf, LowerWhile, LowerFor, LowerSwitch, LowerExpr, LowerInit, Fits, Resolve, Zero;
    if s.Return? {
      ReturnShape(u, c, s);
    } else if s.ExprStmt? {
      ExprStraight(u, c, s.expr);
    } else if s.Let? {
      LetShape(u, c, s);
    } else if s.Assign? {
      var src := LowerExpr(u, c, s.rhs);
      var entry := Resolve(u, c.names, s.target).value;
      ExprStraight(u, c, s.rhs);
      EmitStraight(src.code, Store(entry.slot, entry.ty, src.value));
    } else if s.Break? || s.Continue? {
      var last := c.loops[|c.loops| - 1];
      EmitStraight(c, Jump(if s.Break? then last.1 else last.0));
    } else if s.If? {
      IfShape(u, c, s);
    } else if s.While? {
      WhileShape(u, c, s);
    } else if s.For? {
      ForShape(u, c, s);
    } else {
      SwitchShape(u, c, s);
    }
  }

  lemma ReturnShape(u: Unit, c: Code, s: Stmt)
    requires s.Return? && c.Valid() && LowerStmt(u, c, s).Ok? && Ended(c, false)
    ensures Shaped(c, LowerStmt(u, c, s).code, true, true)
  {
    hide Ended, LowerExpr, Fits;
    if s.value.None? {
      EmitStraight(c, Ret(None, Void));
    } else {
      var src := LowerExpr(u, c, s.value.value);
      ExprStraight(u, c, s.value.value);
      EmitStraight(src.code, Ret(Some(src.value), u.ret));
    }
  }

  lemma LetShape(u: Unit, c: Code, s: Stmt)
    requires s.Let? && c.Valid() && LowerStmt(u, c, s).Ok? && Ended(c, false)
    ensures Shaped(c, LowerStmt(u, c, s).code, true, false)
  {
    hide Ended, LowerExpr, Fits, Zero;
    var zero := Zero(u.cx.enums, s.ty.value).value;
    var c0 := NewSlot(c);
    var src := LowerInit(u, c0, s.ty.value, zero, s.init);
    EndedSame(c, c0, false);
    if s.init.Some? {
      ExprStraight(u, c0, s.init.value);
    }
    var i := Store(c.slots, s.ty.value, src.value);
    EmitStraight(src.code, i);
    EndedSame(Emit(src.code, i), LowerStmt(u, c, s).code, false);
  }

  // ---------------------------------------------------------------------------
  // Compound statements
  // ---------------------------------------------------------------------------

  /** A block of statements fills one basic block, and others after it. */
  ghost predicate Filled(c: Code, d: Code, block: nat, tidy: bool) {
    if tidy then
      block < |d.blocks| && Finished(d.blocks[block]) && forall b | |c.blocks| <= b < |d.blocks| :: Finished(d.blocks[b])
    else Broken(d)
  }

  lemma {:induction false} BranchShape(u: Unit, c: Code, block: nat, target: nat, b: Block)
    requires c.Valid() && block < |c.blocks| && target < |c.blocks| && c.blocks[block] == []
    requires LowerBranch(u, c, block, target, b).Ok?
    ensures Filled(c, LowerBranch(u, c, block, target, b).code, block, TidyBlock(b))
    decreases b, 1
  {
    hide LowerStmts, Tidy, Broken, Finished;
    var c0 := Open(c, block);
    var d := LowerStmts(u, c0, b.stmts).code;
    var d2 := d.(names := c.names);
    assert Straight(c0.blocks[block]);
    assert LowerBlock(u, c0, b).Ok?;
    StmtsShape(u, c0, false, b.stmts);
    ShapedNames(c0, d, d2, TidyBlock(b), EndsInJump(false, b.stmts));
    FillBlock(c, d2, block, target, TidyBlock(b), EndsInJump(false, b.stmts));
  }

  lemma ShapedNames(c: Code, d: Code, e: Code, tidy: bool, ended: bool)
    requires c.Valid() && d.Valid() && e.Valid() && |c.blocks| <= |d.blocks| && d.blocks == e.blocks && d.cur == e.cur
    requires Shaped(c, d, tidy, ended)
    ensures Shaped(c, e, tidy, ended)
  {
  }

  /** The statements of a block have run; it is closed. */
  lemma FillBlock(c: Code, d: Code, block: nat, target: nat, tidy: bool, ended: bool)
    requires c.Valid() && d.Valid() && block < |c.blocks| && Grows(Open(c, block), d)
    requires Shaped(Open(c, block), d, tidy, ended)
    ensures Filled(c, Close(d, target), block, tidy)
  {
    hide Broken, Finished;
    if tidy {
      CloseFinishes(d, ended, target);
      assert Finished(Close(d, target).blocks[d.cur]);
    } else {
      StaysBroken(d, Close(d, target), d.cur, d.cur + 1);
    }
  }

  lemma {:induction false} IfShape(u: Unit, c: Code, s: Stmt)
    requires s.If? && c.Valid() && LowerIf(u, c, s).Ok? && Ended(c, false)
    ensures Shaped(c, LowerIf(u, c, s).code, TidyStmt(s), false)
    decreases s, 1
  {
    hide LowerCond, LowerBranch, TidyBlock, Broken, Finished, Shaped;
    var merge := |c.blocks| + if s.els.Some? then 2 else 1;
    var cond := LowerCond(u, c, s.cond);
    var c2 := IfHead(cond.code, cond.value, s.els.Some?);
    CondShape(u, c, s.cond, if s.els.Some? then 3 else 2, |c.blocks|, |c.blocks| + 1);
    var d := BranchesShape(u, c, c2, merge, s);
    ShapedNames(c, Open(d, merge), LowerIf(u, c, s).code, TidyStmt(s), false);
  }

  lemma {:induction false} BranchesShape(u: Unit, c: Code, c2: Code, merge: nat, s: Stmt) returns (d: Code)
    requires s.If? && c.Valid() && c2.Valid() && merge == |c.blocks| + if s.els.Some? then 2 else 1
    requires |c2.blocks| == merge + 1 && (forall b | |c.blocks| <= b < |c2.blocks| :: c2.blocks[b] == [])
    requires Finished(c2.blocks[c.cur]) && LowerBranches(u, c2, |c.blocks|, merge, s).Ok?
    ensures d == LowerBranches(u, c2, |c.blocks|, merge, s).code && d.Valid() && |c.blocks| <= |d.blocks| && merge < |d.blocks|
    ensures Shaped(c, Open(d, merge), TidyStmt(s), false)
    decreases s, 0
  {
    hide LowerBranch, TidyBlock, Broken, Finished;
    var thenBlock := |c.blocks|;
    var thn := LowerBranch(u, c2, thenBlock, merge, s.thn);
    BranchShape(u, c2, thenBlock, merge, s.thn);
    if s.els.Some? {
      d := LowerBranch(u, thn.code, thenBlock + 1, merge, s.els.value).code;
      BranchShape(u, thn.code, thenBlock + 1, merge, s.els.value);
      if !TidyBlock(s.thn) {
        StaysBroken(thn.code, d, thenBlock + 1, thenBlock + 2);
      }
      TwoFilled(c, c2, thn.code, d, merge, TidyBlock(s.thn), TidyBlock(s.els.value));
    } else {
      d := thn.code;
      OneFilled(c, c2, d, thenBlock, merge, TidyBlock(s.thn));
    }
  }

  lemma BrokenSame(c: Code, d: Code)
    requires c.blocks == d.blocks
    ensures Broken(c) <==> Broken(d)
  {
  }

  /** After one branch, the block behind it is the only open one. */
  lemma OneFilled(c: Code, c2: Code, d: Code, block: nat, after: nat, tidy: bool)
    requires c.Valid() && c2.Valid() && d.Valid() && |c.blocks| <= block && after == block + 1 && |c2.blocks| == after + 1
    requires Extends(c2, d, block, block + 1) && Filled(c2, d, block, tidy)
    requires c.cur < |c2.blocks| && Finished(c2.blocks[c.cur]) && c2.blocks[after] == []
    requires forall b | |c.blocks| <= b < block :: Finished(c2.blocks[b])
    ensures |c.blocks| <= |d.blocks| && Shaped(c, Open(d, after), tidy, false)
  {
    hide Finished, Broken;
    if tidy {
      forall b | |c.blocks| <= b < |d.blocks| && b != after ensures Finished(d.blocks[b]) {
        if b < block {
          assert d.blocks[b] == c2.blocks[b];
        }
      }
    } else {
      BrokenSame(d, Open(d, after));
    }
  }

  /** After two branches, the block behind them is the only open one. */
  lemma TwoFilled(c: Code, c2: Code, d: Code, e: Code, after: nat, first: bool, second: bool)
    requires c.Valid() && c2.Valid() && d.Valid() && e.Valid() && |c2.blocks| == after + 1 && after == |c.blocks| + 2
    requires Extends(c2, d, after - 2, after - 1) && Filled(c2, d, after - 2, first)
    requires Extends(d, e, after - 1, after) && Filled(d, e, after - 1, second)
    requires !first ==> Broken(e)
    requires Finished(c2.blocks[c.cur]) && c2.blocks[after] == []
    ensures Shaped(c, Open(e, after), first && second, false)
  {
    hide Finished, Broken;
    if first && second {
      forall b | |c.blocks| <= b < |e.blocks| && b != after ensures Finished(e.blocks[b]) {
        if b != after - 1 && b < |d.blocks| {
          assert e.blocks[b] == d.blocks[b];
        }
      }
      assert e.blocks[c.cur] == d.blocks[c.cur] == c2.blocks[c.cur];
    } else {
      BrokenSame(e, Open(e, after));
    }
  }

  /** A condition and the branch on it finish their block. */
  lemma CondShape(u: Unit, c: Code, cond: Expr, n: nat, thn: nat, els: nat)
    requires c.Valid() && LowerCond(u, c, cond).Ok? && Ended(c, false)
    ensures
      var v := LowerCond(u, c, cond);
      var d := Emit(AddBlocks(v.code, n), Branch(v.value, thn, els));
      d.Valid() && Finished(d.blocks[c.cur]) && (forall b | |c.blocks| <= b < |d.blocks| :: d.blocks[b] == [])
  {
    hide LowerExpr, StaticType, Straight;
    var v := LowerCond(u, c, cond);
    ExprStraight(u, c, cond);
    var wide := AddBlocks(v.code, n);
    assert Ended(wide, false);
    EmitStraight(wide, Branch(v.value, thn, els));
  }

  lemma {:induction false} WhileShape(u: Unit, c: Code, s: Stmt)
    requires s.While? && c.Valid() && LowerWhile(u, c, s.cond, s.body).Ok? && Ended(c, false)
    ensures Shaped(c, LowerWhile(u, c, s.cond, s.body).code, TidyStmt(s), false)
    decreases s, 1
  {
    hide LowerCond, LowerBranch, TidyBlock, Broken, Finished;
    var condBlock := |c.blocks|;
    var wide := AddBlocks(c, 3);
    assert Ended(wide, false);
    EmitStraight(wide, Jump(condBlock));
    var c1 := Open(Emit(wide, Jump(condBlock)), condBlock);
    assert Ended(c1, false);
    var v := LowerCond(u, c1, s.cond);
    CondShape(u, c1, s.cond, 0, condBlock + 1, condBlock + 2);
    assert AddBlocks(v.code, 0) == v.code;
    var c3 := EnterLoop(Emit(v.code, Branch(v.value, condBlock + 1, condBlock + 2)), condBlock, condBlock + 2);
    BranchShape(u, c3, condBlock + 1, condBlock, s.body);
    var d := LowerBranch(u, c3, condBlock + 1, condBlock, s.body).code;
    assert c3.blocks[c.cur] == Emit(wide, Jump(condBlock)).blocks[c.cur];
    OneFilled(c, c3, d, condBlock + 1, condBlock + 2, TidyBlock(s.body));
    BrokenSame(Open(d, condBlock + 2), LowerWhile(u, c, s.cond, s.body).code);
  }

  lemma {:induction false} ForShape(u: Unit, c: Code, s: Stmt)
    requires s.For? && c.Valid() && LowerFor(u, c, s.variable, s.iter, s.body).Ok? && Ended(c, false)
    ensures Shaped(c, LowerFor(u, c, s.variable, s.iter, s.body).code, TidyStmt(s), false)
    decreases s, 1
  {
    hide LowerExpr, LowerForBody, StaticType, TidyBlock, EndsInJump, Broken, Finished, ForStart, ForTest, Straight;
    var condBlock, counter := |c.blocks|, c.slots + 1;
    var c0 := AddBlocks(NewSlot(NewSlot(c)), 3);
    var limit := LowerExpr(u, c0, s.iter.args[0]);
    assert Ended(c0, false);
    ExprStraight(u, c0, s.iter.args[0]);
    ForStartShape(limit.code, counter, condBlock);
    var cond := Open(ForStart(limit.code, counter, condBlock), condBlock);
    EmptyStraight(cond);
    ForTestShape(cond, counter, limit.value, condBlock + 1, condBlock + 2);
    var head := Open(ForTest(cond, counter, limit.value, condBlock + 1, condBlock + 2), condBlock + 1);
    ForBodyShape(u, head, s.variable, c.slots, counter, condBlock, s.body);
    var d := LowerForBody(u, head, s.variable, c.slots, counter, condBlock, s.body).code;
    OneFilled(c, head, d, condBlock + 1, condBlock + 2, TidyStmt(s));
    BrokenSame(Open(d, condBlock + 2), LowerFor(u, c, s.variable, s.iter, s.body).code);
  }

  lemma EmptyStraight(c: Code)
    requires c.Valid() && c.blocks[c.cur] == []
    ensures Ended(c, false)
  {
  }

  lemma ForStartShape(c: Code, counter: nat, condBlock: nat)
    requires c.Valid() && Ended(c, false)
    ensures Finished(ForStart(c, counter, condBlock).blocks[c.cur])
  {
    hide Straight, Finished;
    var i := Store(counter, Int, Const(Number(0)));
    EmitStraight(c, i);
    EmitStraight(Emit(c, i), Jump(condBlock));
  }

  lemma ForTestShape(c: Code, counter: nat, limit: Operand, body: nat, after: nat)
    requires c.Valid() && Ended(c, false)
    ensures Finished(ForTest(c, counter, limit, body, after).blocks[c.cur])
  {
    hide Straight, Finished, Ended;
    var i1, i2 := Load(c.regs, counter), Operate(c.regs + 1, Lt, Int, Reg(c.regs), limit);
    EmitNewStraight(c, i1);
    EmitNewStraight(EmitNew(c, i1), i2);
    EmitStraight(EmitNew(EmitNew(c, i1), i2), Branch(Reg(c.regs + 1), body, after));
    assert Ended(ForTest(c, counter, limit, body, after), true);
    EndedFinished(ForTest(c, counter, limit, body, after));
  }

  lemma EndedFinished(c: Code)
    requires c.Valid() && Ended(c, true)
    ensures Finished(c.blocks[c.cur])
  {
  }

  lemma IncrementShape(c: Code, counter: nat)
    requires c.Valid() && Ended(c, false)
    ensures Ended(Increment(c, counter), false)
  {
    hide Ended;
    var i1, i2 := Load(c.regs, counter), Operate(c.regs + 1, Add, Int, Reg(c.regs), Const(Number(1)));
    EmitNewStraight(c, i1);
    EmitNewStraight(EmitNew(c, i1), i2);
    EmitStraight(EmitNew(EmitNew(c, i1), i2), Store(counter, Int, Reg(c.regs + 1)));
  }

  lemma ForBindShape(c: Code, variable: string, varSlot: nat, counter: nat)
    requires c.Valid() && Ended(c, false)
    ensures Ended(ForBind(c, variable, varSlot, counter), false)
  {
    hide Ended;
    var i1, i2 := Load(c.regs, counter), Store(varSlot, Int, Reg(c.regs));
    EmitNewStraight(c, i1);
    EmitStraight(EmitNew(c, i1), i2);
    EndedSame(Emit(EmitNew(c, i1), i2), ForBind(c, variable, varSlot, counter), false);
  }

  lemma {:induction false} ForBodyShape(
    u: Unit, c: Code, variable: string, varSlot: nat, counter: nat, condBlock: nat, body: Block)
    requires c.Valid() && condBlock + 2 < |c.blocks| && c.blocks[c.cur] == []
    requires LowerForBody(u, c, variable, varSlot, counter, condBlock, body).Ok?
    ensures Filled(c, LowerForBody(u, c, variable, varSlot, counter, condBlock, body).code, c.cur,
                   TidyBlock(body) && !EndsInJump(false, body.stmts))
    decreases body, 1
  {
    hide LowerStmts, Tidy, Broken, Finished, Increment, EndsInJump, ForBind;
    EmptyStraight(c);
    ForBindShape(c, variable, varSlot, counter);
    var bound := ForBind(c, variable, varSlot, counter);
    var start := EnterLoop(bound, condBlock, condBlock + 2);
    EndedSame(bound, start, false);
    var d := LowerStmts(u, start, body.stmts).code;
    var d2 := d.(loops := c.loops, names := c.names);
    StmtsShape(u, start, false, body.stmts);
    ShapedNames(start, d, d2, TidyBlock(body), EndsInJump(false, body.stmts));
    IncrementFills(c, start, d2, counter, condBlock, TidyBlock(body), EndsInJump(false, body.stmts));
  }

  /** The counter goes up after the body, which must not have ended in a jump. */
  lemma IncrementFills(c: Code, start: Code, d: Code, counter: nat, condBlock: nat, tidy: bool, ended: bool)
    requires c.Valid() && start.Valid() && d.Valid() && |start.blocks| == |c.blocks| && start.cur == c.cur
    requires d.cur == start.cur || |start.blocks| <= d.cur
    requires Extends(start.(loops := d.loops), d, start.cur, start.cur + 1)
    requires Shaped(start, d, tidy, ended)
    ensures Filled(c, Close(Increment(d, counter), condBlock), c.cur, tidy && !ended)
  {
    hide Broken, Finished, Straight;
    var inc := Increment(d, counter);
    var final := Close(inc, condBlock);
    if tidy && !ended {
      IncrementShape(d, counter);
      CloseFinishes(inc, false, condBlock);
      EndedFinished(final);
    } else {
      if tidy {
        IncrementGrows(d, counter);
        GrownBroken(d, inc);
      } else {
        StaysBroken(d, inc, d.cur, d.cur + 1);
      }
      StaysBroken(inc, final, inc.cur, inc.cur + 1);
    }
  }

  lemma IncrementGrows(c: Code, counter: nat)
    requires c.Valid()
    ensures |Increment(c, counter).blocks[c.cur]| > |c.blocks[c.cur]|
  {
  }

  // ---------------------------------------------------------------------------
  // Switch
  // ---------------------------------------------------------------------------

  lemma {:induction false} ArmShape(
    u: Unit, c: Code, variants: seq<EnumVariant>, storage: nat, block: nat, merge: nat, arm: Arm)
    requires c.Valid() && block < |c.blocks| && c.blocks[block] == []
    requires LowerArm(u, c, variants, storage, block, merge, arm).Ok?
    ensures Filled(c, LowerArm(u, c, variants, storage, block, merge, arm).code, block, TidyArm(arm))
    decreases arm, 1
  {
    hide LowerStmts, LowerBinding, Tidy, Broken, Finished, EndsInJump;
    var c0 := Open(c, block);
    EmptyStraight(c0);
    BindingShape(u, c0, variants, storage, arm.pattern);
    var b := LowerBinding(u, c0, variants, storage, arm.pattern).code;
    var d := LowerStmts(u, b, arm.body.stmts).code;
    var d2 := d.(names := c.names);
    StmtsShape(u, b, false, arm.body.stmts);
    assert TidyBlock(arm.body) == Tidy(false, arm.body.stmts);
    ShapedNames(b, d, d2, TidyArm(arm), EndsInJump(false, arm.body.stmts));
    ShapedEarlier(c0, b, d2, TidyArm(arm), EndsInJump(false, arm.body.stmts));
    GrowsOn(c0, b, d);
    FillBlock(c, d2, block, merge, TidyArm(arm), EndsInJump(false, arm.body.stmts));
  }

  lemma GrowsOn(c: Code, b: Code, d: Code)
    requires Grows(c, b) && Grows(b, d) && b.cur == c.cur && |b.blocks| == |c.blocks| && c.cur < |c.blocks|
    ensures Grows(c, d)
  {
    assert c.blocks[c.cur] <= b.blocks[c.cur] <= d.blocks[c.cur];
  }

  lemma ShapedEarlier(c: Code, b: Code, d: Code, tidy: bool, ended: bool)
    requires c.Valid() && b.Valid() && d.Valid() && |b.blocks| == |c.blocks| && b.cur == c.cur
    requires |b.blocks| <= |d.blocks| && Shaped(b, d, tidy, ended)
    ensures Shaped(c, d, tidy, ended)
  {
  }

  lemma BindingShape(u: Unit, c: Code, variants: seq<EnumVariant>, storage: nat, p: Pattern)
    requires c.Valid() && Ended(c, false) && LowerBinding(u, c, variants, storage, p).Ok?
    ensures var b := LowerBinding(u, c, variants, storage, p).code;
      b.Valid() && Ended(b, false) && |b.blocks| == |c.blocks| && b.cur == c.cur
  {
    hide Ended, VariantIndex, Zero;
    if !p.Wildcard? && p.binding.Some? {
      var ty := variants[VariantIndex(variants, p.variant).value].payload.value;
      var i1, i2 := LoadPayload(c.regs, storage, ty), Store(c.slots, ty, Reg(c.regs));
      var c1 := EmitNew(c, i1);
      EmitNewStraight(c, i1);
      EndedSame(c1, NewSlot(c1), false);
      EmitStraight(NewSlot(c1), i2);
      EndedSame(Emit(NewSlot(c1), i2), LowerBinding(u, c, variants, storage, p).code, false);
    }
  }

  /** The arms fill their blocks. */
  ghost predicate AllFilled(c: Code, d: Code, first: nat, n: nat, tidy: bool) {
    if tidy then
      (forall b | first <= b < first + n && b < |d.blocks| :: Finished(d.blocks[b]))
      && (forall b | |c.blocks| <= b < |d.blocks| :: Finished(d.blocks[b]))
    else Broken(d)
  }

  lemma {:induction false} ArmsShape(
    u: Unit, c: Code, variants: seq<EnumVariant>, storage: nat, first: nat, merge: nat, arms: seq<Arm>)
    requires c.Valid() && first + |arms| <= |c.blocks| && (forall b | first <= b < first + |arms| :: c.blocks[b] == [])
    requires LowerArms(u, c, variants, storage, first, merge, arms).Ok?
    ensures AllFilled(c, LowerArms(u, c, variants, storage, first, merge, arms).code, first, |arms|, TidyArms(arms))
    decreases arms, 0
  {
    hide LowerArm, TidyArm, Broken, Finished;
    if arms != [] {
      var c1 := LowerArm(u, c, variants, storage, first, merge, arms[0]).code;
      var d := LowerArms(u, c1, variants, storage, first + 1, merge, arms[1..]).code;
      ArmShape(u, c, variants, storage, first, merge, arms[0]);
      ArmsShape(u, c1, variants, storage, first + 1, merge, arms[1..]);
      if !TidyArm(arms[0]) {
        StaysBroken(c1, d, first + 1, first + |arms|);
      }
    }
  }

  lemma SwitchHeadShape(c: Code, v: Operand, ty: Type, arms: seq<Arm>, cases: seq<(nat, nat)>)
    requires c.Valid() && Ended(c, false)
    ensures
      var d := SwitchHead(c, v, ty, arms, cases);
      && Finished(d.blocks[c.cur])
      && (forall b | |c.blocks| <= b < |c.blocks| + 1 + |arms| :: d.blocks[b] == [])
      && (forall b | |c.blocks| + 1 + |arms| <= b < |d.blocks| :: Finished(d.blocks[b]))
  {
    hide Ended, WildcardIndex, Finished;
    var i1, i2 := Store(c.slots, ty, v), LoadTag(c.regs, c.slots);
    var c1 := Emit(NewSlot(c), i1);
    EndedSame(c, NewSlot(c), false);
    EmitStraight(NewSlot(c), i1);
    EmitNewStraight(c1, i2);
    var load := SwitchLoad(c, v, ty);
    SwitchJumpShape(load, Reg(c.regs), arms, cases);
    TrapFinished();
    var jump := SwitchJump(load, Reg(c.regs), arms, cases);
    var invalid := Otherwise(arms, |c.blocks| + 1);
    if WildcardIndex(arms).None? {
      assert Emit(Open(jump, invalid), Trap).blocks[invalid] == [Trap];
    }
  }

  lemma SwitchJumpShape(c: Code, tag: Operand, arms: seq<Arm>, cases: seq<(nat, nat)>)
    requires c.Valid() && Ended(c, false)
    ensures Finished(SwitchJump(c, tag, arms, cases).blocks[c.cur])
  {
    hide WildcardIndex, Finished, Straight, Otherwise;
    var wide := AddBlocks(c, if WildcardIndex(arms).Some? then 1 + |arms| else 2 + |arms|);
    assert Ended(wide, false);
    EmitStraight(wide, Dispatch(tag, Otherwise(arms, |c.blocks| + 1), cases));
  }

  lemma TrapFinished()
    ensures Finished([Trap])
  {
  }

  lemma {:induction false} SwitchShape(u: Unit, c: Code, s: Stmt)
    requires s.Switch? && c.Valid() && LowerSwitch(u, c, s.scrutinee, s.arms).Ok? && Ended(c, false)
    ensures Shaped(c, LowerSwitch(u, c, s.scrutinee, s.arms).code, TidyStmt(s), false)
    decreases s, 1
  {
    hide LowerExpr, LowerArms, StaticType, SwitchCases, SwitchHead, TidyArms, Broken, Finished, Ended;
    var ty := StaticType(u, c.names, s.scrutinee).value;
    var variants := u.cx.enums[ty.name];
    var v := LowerExpr(u, c, s.scrutinee);
    var cases := SwitchCases(variants, s.arms, |c.blocks| + 1).value;
    ExprStraight(u, c, s.scrutinee);
    SwitchHeadShape(v.code, v.value, ty, s.arms, cases);
    var head := SwitchHead(v.code, v.value, ty, s.arms, cases);
    var d := LowerArms(u, head, variants, v.code.slots, |c.blocks| + 1, |c.blocks|, s.arms).code;
    ArmsShape(u, head, variants, v.code.slots, |c.blocks| + 1, |c.blocks|, s.arms);
    SwitchSettled(c, head, d, |s.arms|, TidyArms(s.arms));
    ShapedNames(c, Open(d, |c.blocks|), LowerSwitch(u, c, s.scrutinee, s.arms).code, TidyArms(s.arms), false);
  }

  lemma SwitchSettled(c: Code, head: Code, d: Code, n: nat, tidy: bool)
    requires c.Valid() && head.Valid() && d.Valid() && |c.blocks| + 1 + n <= |head.blocks|
    requires Finished(head.blocks[c.cur]) && head.blocks[|c.blocks|] == []
    requires forall b | |c.blocks| + 1 + n <= b < |head.blocks| :: Finished(head.blocks[b])
    requires Extends(head, d, |c.blocks| + 1, |c.blocks| + 1 + n)
    requires AllFilled(head, d, |c.blocks| + 1, n, tidy)
    ensures Shaped(c, Open(d, |c.blocks|), tidy, false)
  {
    hide Finished, Broken;
    if tidy {
      forall b | |c.blocks| <= b < |d.blocks| && b != |c.blocks| ensures Finished(d.blocks[b]) {
        if |c.blocks| + 1 + n <= b < |head.blocks| {
          assert d.blocks[b] == head.blocks[b];
        }
      }
      EmptyStraight(Open(d, |c.blocks|));
    } else {
      BrokenSame(d, Open(d, |c.blocks|));
    }
  }

  // ---------------------------------------------------------------------------
  // Whole functions
  // ---------------------------------------------------------------------------

  lemma {:induction false} ParamsShape(u: Unit, c: Code, params: seq<Param>)
    requires c.Valid() && Ended(c, false) && LowerParams(u, c, params).Ok?
    ensures Ended(LowerParams(u, c, params).code, false)
    decreases |params|
  {
    hide Ended, Zero;
    if params != [] {
      var last := |params| - 1;
      ParamsShape(u, c, params[..last]);
      var c1 := LowerParams(u, c, params[..last]).code;
      var i := Store(c1.slots, params[last].ty, Reg(last));
      EndedSame(c1, NewSlot(c1), false);
      EmitStraight(NewSlot(c1), i);
      EndedSame(Emit(NewSlot(c1), i), LowerParams(u, c, params).code, false);
    }
  }

  /** The blocks of a function are well formed exactly if its body is tidy. */
  lemma WellFormedIffTidy(cx: Context, statics: seq<Static>, fn: Function)
    requires LowerFunction(cx, statics, fn).Ok?
    ensures WellFormed(LowerFunction(cx, statics, fn).code.blocks) <==> Tidy(false, fn.body.stmts)
  {
    hide LowerParams, LowerStmts, Tidy, EndsInJump, Broken, Finished;
    var u := UnitOf(cx, statics, fn.proto.ret);
    var c0 := EntryCode(|statics|, |fn.proto.params|);
    var c1 := LowerParams(u, c0, fn.proto.params).code;
    var c2 := LowerStmts(u, c1, fn.body.stmts).code;
    EmptyStraight(c0);
    ParamsShape(u, c0, fn.proto.params);
    StmtsShape(u, c1, false, fn.body.stmts);
    FunctionShape(u, c1, c2, Tidy(false, fn.body.stmts), EndsInJump(false, fn.body.stmts));
  }

  lemma FunctionShape(u: Unit, c: Code, d: Code, tidy: bool, ended: bool)
    requires c.Valid() && d.Valid() && |c.blocks| == 1 && Grows(c, d) && DefaultReturn(u, d).Ok?
    requires Shaped(c, d, tidy, ended)
    ensures WellFormed(DefaultReturn(u, d).code.blocks) <==> tidy
  {
    hide Broken, Finished, Zero, Straight;
    var e := DefaultReturn(u, d).code;
    if tidy {
      ReturnFinishes(u, d, ended);
      forall b | 0 <= b < |e.blocks| ensures Finished(e.blocks[b]) {
        if b != d.cur {
          assert e.blocks[b] == d.blocks[b];
        }
      }
    } else {
      StaysBroken(d, e, d.cur, d.cur + 1);
      BrokenIsIllFormed(e);
    }
  }

  lemma ReturnFinishes(u: Unit, c: Code, ended: bool)
    requires c.Valid() && Ended(c, ended) && DefaultReturn(u, c).Ok?
    ensures var e := DefaultReturn(u, c).code; e.cur == c.cur && |e.blocks| == |c.blocks| && Finished(e.blocks[c.cur])
  {
    hide Zero;
    if ended {
      assert Terminated(c);
    } else {
      EmitStraight(c, if u.ret == Void then Ret(None, Void) else Ret(Some(Const(if Zero(u.cx.enums, u.ret).Some? then Zero(u.cx.enums, u.ret).value else Number(0))), u.ret));
      var code := c.blocks[c.cur];
      if code != [] {
        assert !IsJump(code[|code| - 1]);
      }
    }
  }
}
