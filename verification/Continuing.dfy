/** When it does not matter what a `continue` in a loop over a range does, and what happens when the
    round it starts again is the same. */
module Continuing {
  import opened Ast
  import opened Wrappers
  import opened Values
  import opened Scopes
  import opened Source
  import opened Control

  /** Two runs that have to be alike: the second one has no less fuel, exactly as much if the first
      one ran out, and the rules are the same, or never asked for. */
  ghost predicate Comparable(a: ContinueRule, b: ContinueRule, noSkips: bool, fuel: nat, more: nat, r: Run) {
    fuel <= more && (r == OutOfFuel ==> fuel == more)
    && (a == b || noSkips || (a == NoRound && r != Wrong(Skipped)))
  }

  lemma {:induction false} StmtSame(
    cx: Context, a: ContinueRule, b: ContinueRule, ret: Type, fuel: nat, more: nat, env: Env, s: Stmt)
    requires env.frames != []
    requires Comparable(a, b, NoSkips(s), fuel, more, ExecStmt(cx, a, ret, fuel, env, s))
    ensures ExecStmt(cx, b, ret, more, env, s) == ExecStmt(cx, a, ret, fuel, env, s)
    decreases fuel, s, 1
  {
    hide ExecStmt, NoSkips;
    if s.If? {
      IfSame(cx, a, b, ret, fuel, more, env, s);
    } else if s.Switch? {
      SwitchSame(cx, a, b, ret, fuel, more, env, s);
    } else if s.While? {
      LoopSame(cx, a, b, ret, fuel, more, env, s);
    } else if s.For? {
      RangeSame(cx, a, b, ret, fuel, more, env, s);
    } else {
      SimpleSame(cx, a, b, ret, fuel, more, env, s);
    }
  }

  lemma SimpleSame(
    cx: Context, a: ContinueRule, b: ContinueRule, ret: Type, fuel: nat, more: nat, env: Env, s: Stmt)
    requires !s.If? && !s.Switch? && !s.While? && !s.For? && env.frames != []
    ensures ExecStmt(cx, b, ret, more, env, s) == ExecStmt(cx, a, ret, fuel, env, s)
  {
    hide EvalExpr, Declare, Update;
  }

  lemma {:induction false} LoopSame(
    cx: Context, a: ContinueRule, b: ContinueRule, ret: Type, fuel: nat, more: nat, env: Env, s: Stmt)
    requires s.While? && env.frames != []
    requires Comparable(a, b, NoSkips(s), fuel, more, ExecStmt(cx, a, ret, fuel, env, s))
    ensures ExecStmt(cx, b, ret, more, env, s) == ExecStmt(cx, a, ret, fuel, env, s)
    decreases fuel, s, 0
  {
    hide ExecWhile, BlockNoSkips;
    WhileSame(cx, a, b, ret, fuel, more, env, s.cond, s.body);
  }

  lemma {:induction false} RangeSame(
    cx: Context, a: ContinueRule, b: ContinueRule, ret: Type, fuel: nat, more: nat, env: Env, s: Stmt)
    requires s.For? && env.frames != []
    requires Comparable(a, b, NoSkips(s), fuel, more, ExecStmt(cx, a, ret, fuel, env, s))
    ensures ExecStmt(cx, b, ret, more, env, s) == ExecStmt(cx, a, ret, fuel, env, s)
    decreases fuel, s, 0
  {
    hide ExecFor, EvalExpr, BlockNoSkips, BlockContinues;
    if IsRange(s.iter) {
      var v := EvalExpr(cx, env.frames, env.trace, s.iter.args[0]);
      if v.Got? && v.value.Num? && v.value.ty == Int {
        ForSame(cx, a, b, ret, fuel, more, Env(env.frames, v.trace), 0, Signed(v.value.bits), s.variable, s.body);
      }
    }
  }

  lemma {:induction false} IfSame(
    cx: Context, a: ContinueRule, b: ContinueRule, ret: Type, fuel: nat, more: nat, env: Env, s: Stmt)
    requires s.If? && env.frames != []
    requires Comparable(a, b, NoSkips(s), fuel, more, ExecStmt(cx, a, ret, fuel, env, s))
    ensures ExecStmt(cx, b, ret, more, env, s) == ExecStmt(cx, a, ret, fuel, env, s)
    decreases fuel, s, 0
  {
    hide ExecBlock, EvalExpr, BlockNoSkips;
    var v := EvalExpr(cx, env.frames, env.trace, s.cond);
    if v.Got? && v.value.Num? && v.value.ty == Bool {
      if v.value.bits == 1 {
        BlockSame(cx, a, b, ret, fuel, more, Env(env.frames, v.trace), map[], s.thn);
      } else if s.els.Some? {
        BlockSame(cx, a, b, ret, fuel, more, Env(env.frames, v.trace), map[], s.els.value);
      }
    }
  }

  lemma {:induction false} SwitchSame(
    cx: Context, a: ContinueRule, b: ContinueRule, ret: Type, fuel: nat, more: nat, env: Env, s: Stmt)
    requires s.Switch? && env.frames != []
    requires Comparable(a, b, NoSkips(s), fuel, more, ExecStmt(cx, a, ret, fuel, env, s))
    ensures ExecStmt(cx, b, ret, more, env, s) == ExecStmt(cx, a, ret, fuel, env, s)
    decreases fuel, s.arms, 0
  {
    SwitchTakes(cx, a, ret, fuel, env, s);
    SwitchTakes(cx, b, ret, more, env, s);
    hide ExecStmt, ExecArm, EvalExpr, SelectArm, ArmScope, BlockNoSkips;
    var arm := TakenArm(cx, env, s);
    if arm.Some? {
      var (i, scope, trace) := arm.value;
      if ArmsNoSkips(s.arms) {
        ArmNoSkipsAt(s.arms, i);
      }
      BlockSame(cx, a, b, ret, fuel, more, Env(env.frames, trace), scope, s.arms[i].body);
    }
  }

  /** The arm that a switch takes, the scope it opens and the calls made before, unless it fails. */
  function TakenArm(cx: Context, env: Env, s: Stmt): (r: Option<(nat, map<string, Value>, seq<Event>)>)
    requires s.Switch?
    ensures r.Some? ==> r.value.0 < |s.arms|
  {
    match EvalExpr(cx, env.frames, env.trace, s.scrutinee)
    case Undefined(_) => None
    case Got(v, trace) =>
      if !v.EnumVal? || v.enum !in cx.enums then None
      else
        var index := SelectArm(cx.enums[v.enum], s.arms, v.tag);
        if index.None? then None
        else
          var scope := ArmScope(cx, s.arms[index.value].pattern, v);
          if scope.None? then None else Some((index.value, scope.value, trace))
  }

  /** Why a switch takes no arm. */
  function NoArmFault(cx: Context, env: Env, s: Stmt): Fault
    requires s.Switch?
  {
    match EvalExpr(cx, env.frames, env.trace, s.scrutinee)
    case Undefined(fault) => fault
    case Got(_, _) => IllTyped
  }

  lemma SwitchTakes(cx: Context, rule: ContinueRule, ret: Type, fuel: nat, env: Env, s: Stmt)
    requires s.Switch? && env.frames != []
    ensures var arm := TakenArm(cx, env, s);
      ExecStmt(cx, rule, ret, fuel, env, s)
      == if arm.None? then Wrong(NoArmFault(cx, env, s))
         else ExecBlock(cx, rule, ret, fuel, Env(env.frames, arm.value.2), arm.value.1, s.arms[arm.value.0].body)
  {
    hide ExecBlock, EvalExpr, SelectArm, ArmScope;
  }

  lemma {:induction false} ArmNoSkipsAt(arms: seq<Arm>, i: nat)
    requires i < |arms| && ArmsNoSkips(arms)
    ensures BlockNoSkips(arms[i].body)
    decreases i
  {
    assert ArmNoSkips(arms[0]);
    if i > 0 {
      ArmNoSkipsAt(arms[1..], i - 1);
    }
  }

  lemma {:induction false} BlockSame(
    cx: Context, a: ContinueRule, b: ContinueRule, ret: Type, fuel: nat, more: nat, env: Env, scope: map<string, Value>,
    block: Block)
    requires Comparable(a, b, BlockNoSkips(block), fuel, more, ExecBlock(cx, a, ret, fuel, env, scope, block))
    ensures ExecBlock(cx, b, ret, more, env, scope, block) == ExecBlock(cx, a, ret, fuel, env, scope, block)
    decreases fuel, block, 0
  {
    hide ExecStmts, StmtsNoSkips;
    StmtsSame(cx, a, b, ret, fuel, more, Env(env.frames + [scope], env.trace), block.stmts);
  }

  lemma {:induction false} StmtsSame(
    cx: Context, a: ContinueRule, b: ContinueRule, ret: Type, fuel: nat, more: nat, env: Env, ss: seq<Stmt>)
    requires env.frames != []
    requires Comparable(a, b, StmtsNoSkips(ss), fuel, more, ExecStmts(cx, a, ret, fuel, env, ss))
    ensures ExecStmts(cx, b, ret, more, env, ss) == ExecStmts(cx, a, ret, fuel, env, ss)
    decreases fuel, ss, 0
  {
    hide ExecStmt, NoSkips;
    if ss != [] {
      StmtSame(cx, a, b, ret, fuel, more, env, ss[0]);
      var r := ExecStmt(cx, a, ret, fuel, env, ss[0]);
      if r.Ran? && r.signal == Normal {
        StmtsSame(cx, a, b, ret, fuel, more, r.env, ss[1..]);
      }
    }
  }

  lemma {:induction false} WhileSame(
    cx: Context, a: ContinueRule, b: ContinueRule, ret: Type, fuel: nat, more: nat, env: Env, cond: Expr, body: Block)
    requires Comparable(a, b, BlockNoSkips(body), fuel, more, ExecWhile(cx, a, ret, fuel, env, cond, body))
    ensures ExecWhile(cx, b, ret, more, env, cond, body) == ExecWhile(cx, a, ret, fuel, env, cond, body)
    decreases fuel, body, 1
  {
    hide ExecBlock, EvalExpr, BlockNoSkips;
    if fuel > 0 {
      var v := EvalExpr(cx, env.frames, env.trace, cond);
      if !(v.Got? && v.value.Num? && v.value.ty == Bool && v.value.bits == 1) {
        WhileStops(cx, a, b, ret, fuel, more, env, cond, body);
        hide ExecWhile;
      } else {
        var inner := Env(env.frames, v.trace);
        WhileTurns(cx, a, ret, fuel, env, cond, body, inner);
        WhileTurns(cx, b, ret, more, env, cond, body, inner);
        hide ExecWhile;
        BlockSame(cx, a, b, ret, fuel - 1, more - 1, inner, map[], body);
        var round := ExecBlock(cx, a, ret, fuel - 1, inner, map[], body);
        if round.Ran? && (round.signal == Normal || round.signal == Continued) {
          WhileSame(cx, a, b, ret, fuel - 1, more - 1, round.env, cond, body);
        }
      }
    }
  }

  lemma WhileStops(
    cx: Context, a: ContinueRule, b: ContinueRule, ret: Type, fuel: nat, more: nat, env: Env, cond: Expr, body: Block)
    requires fuel > 0 && more > 0
    requires var v := EvalExpr(cx, env.frames, env.trace, cond);
      !(v.Got? && v.value.Num? && v.value.ty == Bool && v.value.bits == 1)
    ensures ExecWhile(cx, a, ret, fuel, env, cond, body) == ExecWhile(cx, b, ret, more, env, cond, body)
  {
    hide ExecBlock, EvalExpr;
  }

  lemma WhileTurns(cx: Context, rule: ContinueRule, ret: Type, fuel: nat, env: Env, cond: Expr, body: Block, inner: Env)
    requires fuel > 0 && EvalExpr(cx, env.frames, env.trace, cond).Got? && inner.frames == env.frames
    requires var v := EvalExpr(cx, env.frames, env.trace, cond);
      inner.trace == v.trace && v.value.Num? && v.value.ty == Bool && v.value.bits == 1
    ensures var round := ExecBlock(cx, rule, ret, fuel - 1, inner, map[], body);
      ExecWhile(cx, rule, ret, fuel, env, cond, body)
      == if round.Ran? && (round.signal == Normal || round.signal == Continued)
         then ExecWhile(cx, rule, ret, fuel - 1, round.env, cond, body) else AfterLoop(round)
  {
    hide ExecBlock, EvalExpr;
  }

  lemma {:induction false} ForSame(
    cx: Context, a: ContinueRule, b: ContinueRule, ret: Type, fuel: nat, more: nat, env: Env, i: nat, limit: int,
    variable: string, body: Block)
    requires Comparable(a, b, BlockNoSkips(body) && !BlockContinues(body), fuel, more,
                        ExecFor(cx, a, ret, fuel, env, i, limit, variable, body))
    ensures ExecFor(cx, b, ret, more, env, i, limit, variable, body)
         == ExecFor(cx, a, ret, fuel, env, i, limit, variable, body)
    decreases fuel, body, 1
  {
    hide ExecBlock, BlockNoSkips, BlockContinues;
    if fuel > 0 && i < limit {
      var scope := map[variable := Number(i)];
      BlockSame(cx, a, b, ret, fuel - 1, more - 1, env, scope, body);
      var round := ExecBlock(cx, a, ret, fuel - 1, env, scope, body);
      if !BlockContinues(body) {
        BlockNeverContinued(cx, a, ret, fuel - 1, env, scope, body);
      }
      if round.Ran? && (round.signal == Normal || (round.signal == Continued && a != NoRound)) {
        var next := if round.signal == Normal || a == NextRound then i + 1 else i;
        ForSame(cx, a, b, ret, fuel - 1, more - 1, round.env, next, limit, variable, body);
      }
    }
  }

  /** A round that is continued without having changed anything is repeated for ever. */
  lemma {:induction false} RoundForEver(
    cx: Context, ret: Type, enough: nat, fuel: nat, env: Env, i: nat, limit: int, variable: string, body: Block)
    requires i < limit
    requires ExecBlock(cx, SameRound, ret, enough, env, map[variable := Number(i)], body) == Ran(env, Continued)
    ensures ExecFor(cx, SameRound, ret, fuel, env, i, limit, variable, body) == OutOfFuel
    decreases fuel
  {
    hide ExecBlock;
    if fuel > 0 {
      var scope := map[variable := Number(i)];
      var round := ExecBlock(cx, SameRound, ret, fuel - 1, env, scope, body);
      if fuel - 1 >= enough {
        BlockSame(cx, SameRound, SameRound, ret, enough, fuel - 1, env, scope, body);
      } else if round != OutOfFuel {
        BlockSame(cx, SameRound, SameRound, ret, fuel - 1, enough, env, scope, body);
      }
      if round != OutOfFuel {
        RoundForEver(cx, ret, enough, fuel - 1, env, i, limit, variable, body);
      }
    }
  }
}
