/** Where lowering is not faithful: a `continue` in a loop over a range. It jumps past the place
    where the counter goes up, so that the round starts again. */
module LowerLimits {
  import opened Ast
  import opened Wrappers
  import opened Values
  import opened Graph
  import opened Scopes
  import opened Source
  import opened Control
  import opened Continuing
  import opened Lower
  import opened LowerExprs
  import opened LowerFrames
  import opened LowerRuns

  /** `{ if true { continue; } }` */
  function SkipBody(): Block {
    Block([If(BoolLit(true), Block([Continue]), None)])
  }

  /** `for x in range(1) { if true { continue; } }` */
  function SkipLoop(): Stmt {
    For("x", Call("range", [], [IntLit(1)]), SkipBody())
  }

  /** The body of the loop does nothing but continue. */
  lemma SkipBodyContinues(cx: Context, rule: ContinueRule, ret: Type, fuel: nat, env: Env, scope: map<string, Value>)
    ensures ExecBlock(cx, rule, ret, fuel, env, scope, SkipBody()) == Ran(env, Continued)
  {
    var s := If(BoolLit(true), Block([Continue]), None);
    var inner := Env(env.frames + [scope], env.trace);
    var deeper := Env(inner.frames + [map[]], env.trace);
    assert ExecStmts(cx, rule, ret, fuel, deeper, [Continue]) == Ran(deeper, Continued);
    assert Pop(deeper.frames) == inner.frames && Pop(inner.frames) == env.frames;
    assert ExecBlock(cx, rule, ret, fuel, inner, map[], s.thn) == Ran(inner, Continued);
    assert ExecStmt(cx, rule, ret, fuel, inner, s) == Ran(inner, Continued);
    assert ExecStmts(cx, rule, ret, fuel, inner, [s]) == Ran(inner, Continued);
  }

  /** The loop is accepted everywhere. */
  lemma SkipLoopLowers(u: Unit, c: Code)
    requires c.Valid()
    ensures LowerStmt(u, c, SkipLoop()).Ok?
  {
    hide LowerForBody, ForTest, ForStart, SkipBody;
    var counter, condBlock := c.slots + 1, |c.blocks|;
    var c1 := AddBlocks(NewSlot(NewSlot(c)), 3);
    assert LowerExpr(u, c1, IntLit(1)) == Ok(c1, Const(Number(1)));
    var c2 := ForStart(c1, counter, condBlock);
    var c3 := ForTest(Open(c2, condBlock), counter, Const(Number(1)), condBlock + 1, condBlock + 2);
    ForBodyLowers(u, Open(c3, condBlock + 1), c.slots, counter, condBlock);
  }

  lemma ForBodyLowers(u: Unit, c: Code, varSlot: nat, counter: nat, condBlock: nat)
    requires c.Valid() && condBlock + 2 < |c.blocks|
    ensures LowerForBody(u, c, "x", varSlot, counter, condBlock, SkipBody()).Ok?
  {
    hide SkipBody, LowerStmts;
    SkipBodyLowers(u, EnterLoop(ForBind(c, "x", varSlot, counter), condBlock, condBlock + 2));
  }

  lemma SkipBodyLowers(u: Unit, c: Code)
    requires c.Valid() && c.loops != []
    ensures LowerStmts(u, c, SkipBody().stmts).Ok?
  {
    var s := If(BoolLit(true), Block([Continue]), None);
    SkipIfLowers(u, c);
    hide LowerIf;
    assert LowerStmt(u, c, s).Ok?;
  }

  lemma SkipIfLowers(u: Unit, c: Code)
    requires c.Valid() && c.loops != []
    ensures LowerIf(u, c, If(BoolLit(true), Block([Continue]), None)).Ok?
  {
    var s := If(BoolLit(true), Block([Continue]), None);
    var thenBlock := |c.blocks|;
    assert LowerCond(u, c, BoolLit(true)) == Ok(c, Const(Truth(true)));
    var c2 := IfHead(c, Const(Truth(true)), false);
    assert LowerStmt(u, Open(c2, thenBlock), Continue).Ok?;
    assert LowerStmts(u, Open(c2, thenBlock), [Continue]).Ok?;
    assert LowerBranch(u, c2, thenBlock, thenBlock + 1, s.thn).Ok?;
    assert LowerBranches(u, c2, thenBlock, thenBlock + 1, s).Ok?;
  }

  /** In the source, the loop runs one round and ends. */
  lemma SkipLoopEnds(cx: Context, ret: Type, fuel: nat, env: Env)
    requires env.frames != [] && fuel >= 2
    ensures ExecStmt(cx, NextRound, ret, fuel, env, SkipLoop()) == Ran(env, Normal)
  {
    hide ExecBlock;
    var body := SkipBody();
    SkipBodyContinues(cx, NextRound, ret, fuel - 1, env, map["x" := Number(0)]);
    assert ExecFor(cx, NextRound, ret, fuel - 1, env, 1, 1, "x", body) == Ran(env, Normal);
    assert ExecFor(cx, NextRound, ret, fuel, env, 0, 1, "x", body) == Ran(env, Normal);
    assert EvalExpr(cx, env.frames, env.trace, IntLit(1)) == Got(Num(Int, 1), env.trace);
  }

  lemma SkipBodySupported()
    ensures BlockSupported(SkipBody())
  {
    assert StmtsSupported([Continue]);
    assert BlockSupported(Block([Continue]));
  }

  /** Wherever a range loop stands: if its first round is continued without having changed anything,
      its code runs for ever. */
  lemma RangeLoopStalls(
    u: Unit, g: Blocks, c: Code, s: Stmt, env: Env, places: Places, regs: Regs, slots: Slots, limit: Eval<Value>,
    enough: nat, n: nat)
    requires c.Valid() && Aligned(u, c, env.frames, places, slots) && env.frames != [] && VariantsDistinct(u.cx.enums)
    requires s.For? && Supported(s)
    requires LowerStmt(u, c, s).Ok? && Covers(g, LowerStmt(u, c, s).code)
    requires IsRange(s.iter) && limit == EvalExpr(u.cx, env.frames, env.trace, s.iter.args[0])
    requires limit.Got? && limit.value.Num? && limit.value.ty == Int && Signed(limit.value.bits) > 0
    requires var start := Env(env.frames, limit.trace);
      ExecBlock(u.cx, SameRound, u.ret, enough, start, map[s.variable := Number(0)], s.body) == Ran(start, Continued)
    ensures Steps(u.cx, g, n, EndOf(c, regs, slots, env.trace)).At?
  {
    hide Steps, Covers, Aligned, VariantsDistinct, LowerFor, ExecBlock, ExecFor, EvalExpr, BlockSupported, Signed;
    var start := Env(env.frames, limit.trace);
    RoundForEver(u.cx, u.ret, enough, n, start, 0, Signed(limit.value.bits), s.variable, s.body);
    assert ExecStmt(u.cx, SameRound, u.ret, n, env, s) == OutOfFuel;
    var m, at := ForRuns(u, g, c, s, n, env, places, regs, slots);
    StepsAdd(u.cx, g, n, m - n, EndOf(c, regs, slots, env.trace));
    if !Steps(u.cx, g, n, EndOf(c, regs, slots, env.trace)).At? {
      EndIsFinal(u.cx, g, m - n, Steps(u.cx, g, n, EndOf(c, regs, slots, env.trace)));
    }
  }

  /** The loop above is one: it ends in the source, and its code never does. */
  lemma SkipLoopStalls(
    u: Unit, g: Blocks, c: Code, env: Env, places: Places, regs: Regs, slots: Slots, n: nat)
    requires c.Valid() && Aligned(u, c, env.frames, places, slots) && env.frames != [] && VariantsDistinct(u.cx.enums)
    requires LowerStmt(u, c, SkipLoop()).Ok? && Covers(g, LowerStmt(u, c, SkipLoop()).code)
    ensures Steps(u.cx, g, n, EndOf(c, regs, slots, env.trace)).At?
    ensures ExecStmt(u.cx, NextRound, u.ret, 2, env, SkipLoop()) == Ran(env, Normal)
  {
    hide Steps, Covers, Aligned, VariantsDistinct, LowerStmt, ExecBlock, ExecStmt;
    SkipLoopEnds(u.cx, u.ret, 2, env);
    SkipBodySupported();
    SkipBodyContinues(u.cx, SameRound, u.ret, 0, env, map["x" := Number(0)]);
    var limit := EvalExpr(u.cx, env.frames, env.trace, IntLit(1));
    assert limit == Got(Num(Int, 1), env.trace) && Signed(1) == 1;
    RangeLoopStalls(u, g, c, SkipLoop(), env, places, regs, slots, limit, 0, n);
  }
}
