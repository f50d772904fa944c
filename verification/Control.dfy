/** Which statements can pass a `continue` on, and which programs are lowered faithfully. */
module Control {
  import opened Ast
  import opened Values
  import opened Source

  // ---------------------------------------------------------------------------
  // The programs this holds for
  // ---------------------------------------------------------------------------

  /** Whether a `continue` leaves these statements. */
  predicate Continues(s: Stmt)
    decreases s, 0
  {
    match s
    case Continue => true
    case If(_, thn, els) => BlockContinues(thn) || (els.Some? && BlockContinues(els.value))
    case Switch(_, arms) => ArmsContinue(arms)
    case _ => false
  }

  predicate BlockContinues(b: Block)
    decreases b, 0
  {
    StmtsContinue(b.stmts)
  }

  predicate StmtsContinue(ss: seq<Stmt>)
    decreases ss, 0
  {
    ss != [] && (Continues(ss[0]) || StmtsContinue(ss[1..]))
  }

  predicate ArmsContinue(arms: seq<Arm>)
    decreases arms, 0
  {
    arms != [] && (ArmContinues(arms[0]) || ArmsContinue(arms[1..]))
  }

  predicate ArmContinues(arm: Arm)
    decreases arm, 0
  {
    BlockContinues(arm.body)
  }

  /** A wildcard arm comes last. */
  predicate Supported(s: Stmt)
    decreases s, 0
  {
    match s
    case If(_, thn, els) => BlockSupported(thn) && (els.Some? ==> BlockSupported(els.value))
    case While(_, body) => BlockSupported(body)
    case For(_, _, body) => BlockSupported(body)
    case Switch(_, arms) => WildcardLast(arms) && ArmsSupported(arms)
    case _ => true
  }

  predicate BlockSupported(b: Block)
    decreases b, 0
  {
    StmtsSupported(b.stmts)
  }

  predicate StmtsSupported(ss: seq<Stmt>)
    decreases ss, 0
  {
    ss == [] || (Supported(ss[0]) && StmtsSupported(ss[1..]))
  }

  predicate ArmsSupported(arms: seq<Arm>)
    decreases arms, 0
  {
    arms == [] || (ArmSupported(arms[0]) && ArmsSupported(arms[1..]))
  }

  predicate ArmSupported(arm: Arm)
    decreases arm, 0
  {
    BlockSupported(arm.body)
  }

  /** No loop over a range has a `continue` of its own. */
  predicate NoSkips(s: Stmt)
    decreases s, 0
  {
    match s
    case If(_, thn, els) => BlockNoSkips(thn) && (els.Some? ==> BlockNoSkips(els.value))
    case While(_, body) => BlockNoSkips(body)
    case For(_, _, body) => BlockNoSkips(body) && !BlockContinues(body)
    case Switch(_, arms) => ArmsNoSkips(arms)
    case _ => true
  }

  predicate BlockNoSkips(b: Block)
    decreases b, 0
  {
    StmtsNoSkips(b.stmts)
  }

  predicate StmtsNoSkips(ss: seq<Stmt>)
    decreases ss, 0
  {
    ss == [] || (NoSkips(ss[0]) && StmtsNoSkips(ss[1..]))
  }

  predicate ArmsNoSkips(arms: seq<Arm>)
    decreases arms, 0
  {
    arms == [] || (ArmNoSkips(arms[0]) && ArmsNoSkips(arms[1..]))
  }

  predicate ArmNoSkips(arm: Arm)
    decreases arm, 0
  {
    BlockNoSkips(arm.body)
  }

  predicate WildcardLast(arms: seq<Arm>) {
    forall i | 0 <= i < |arms| - 1 :: !arms[i].pattern.Wildcard?
  }

  /** No enum has two variants of one name. */
  predicate VariantsDistinct(enums: Enums) {
    forall e | e in enums :: DistinctNames(enums[e])
  }

  predicate DistinctNames(variants: seq<EnumVariant>) {
    forall i, j | 0 <= i < j < |variants| :: variants[i].name != variants[j].name
  }

  lemma {:induction false} NeverContinued(cx: Context, rule: ContinueRule, ret: Type, fuel: nat, env: Env, s: Stmt)
    requires env.frames != [] && !Continues(s)
    ensures var r := ExecStmt(cx, rule, ret, fuel, env, s); r.Ran? ==> r.signal != Continued
    decreases fuel, s, 0
  {
    hide ExecWhile, ExecFor, EvalExpr;
    if s.If? {
      var v := EvalExpr(cx, env.frames, env.trace, s.cond);
      if v.Got? {
        BlockNeverContinued(cx, rule, ret, fuel, Env(env.frames, v.trace), map[], s.thn);
        if s.els.Some? {
          BlockNeverContinued(cx, rule, ret, fuel, Env(env.frames, v.trace), map[], s.els.value);
        }
      }
    } else if s.Switch? {
      SwitchNeverContinued(cx, rule, ret, fuel, env, s);
    } else if s.While? {
      LoopNeverContinued(cx, rule, ret, fuel, env, s.cond, s.body);
    } else if s.For? {
      var v := EvalExpr(cx, env.frames, env.trace, if IsRange(s.iter) then s.iter.args[0] else s.iter);
      if v.Got? && v.value.Num? {
        RangeNeverContinued(cx, rule, ret, fuel, Env(env.frames, v.trace), 0, Signed(v.value.bits), s.variable, s.body);
      }
    }
  }

  lemma {:induction false} SwitchNeverContinued(cx: Context, rule: ContinueRule, ret: Type, fuel: nat, env: Env, s: Stmt)
    requires s.Switch? && env.frames != [] && !Continues(s)
    ensures var r := ExecStmt(cx, rule, ret, fuel, env, s); r.Ran? ==> r.signal != Continued
    decreases fuel, s.arms, 0
  {
    hide EvalExpr, SelectArm, ArmScope;
    var v := EvalExpr(cx, env.frames, env.trace, s.scrutinee);
    if v.Got? && v.value.EnumVal? && v.value.enum in cx.enums {
      var index := SelectArm(cx.enums[v.value.enum], s.arms, v.value.tag);
      if index.Some? {
        var arm := s.arms[index.value];
        var scope := ArmScope(cx, arm.pattern, v.value);
        NoArmContinues(s.arms, index.value);
        if scope.Some? {
          BlockNeverContinued(cx, rule, ret, fuel, Env(env.frames, v.trace), scope.value, arm.body);
        }
      }
    }
  }

  lemma {:induction false} NoArmContinues(arms: seq<Arm>, i: nat)
    requires i < |arms| && !ArmsContinue(arms)
    ensures !BlockContinues(arms[i].body)
    decreases i
  {
    assert !ArmContinues(arms[0]);
    if i > 0 {
      NoArmContinues(arms[1..], i - 1);
    }
  }

  lemma {:induction false} BlockNeverContinued(
    cx: Context, rule: ContinueRule, ret: Type, fuel: nat, env: Env, scope: map<string, Value>, b: Block)
    requires !BlockContinues(b)
    ensures var r := ExecBlock(cx, rule, ret, fuel, env, scope, b); r.Ran? ==> r.signal != Continued
    decreases fuel, b, 0
  {
    StmtsNeverContinued(cx, rule, ret, fuel, Env(env.frames + [scope], env.trace), b.stmts);
  }

  lemma {:induction false} StmtsNeverContinued(cx: Context, rule: ContinueRule, ret: Type, fuel: nat, env: Env, ss: seq<Stmt>)
    requires env.frames != [] && !StmtsContinue(ss)
    ensures var r := ExecStmts(cx, rule, ret, fuel, env, ss); r.Ran? ==> r.signal != Continued
    decreases fuel, ss, 0
  {
    hide ExecStmt, Continues;
    if ss != [] {
      NeverContinued(cx, rule, ret, fuel, env, ss[0]);
      var r := ExecStmt(cx, rule, ret, fuel, env, ss[0]);
      if r.Ran? && r.signal == Normal {
        StmtsNeverContinued(cx, rule, ret, fuel, r.env, ss[1..]);
      }
    }
  }

  lemma {:induction false} LoopNeverContinued(cx: Context, rule: ContinueRule, ret: Type, fuel: nat, env: Env, cond: Expr, body: Block)
    ensures var r := ExecWhile(cx, rule, ret, fuel, env, cond, body); r.Ran? ==> r.signal != Continued
    decreases fuel
  {
    hide EvalExpr, ExecBlock;
    if fuel > 0 {
      var v := EvalExpr(cx, env.frames, env.trace, cond);
      if v.Got? {
        var r := ExecBlock(cx, rule, ret, fuel - 1, Env(env.frames, v.trace), map[], body);
        if r.Ran? {
          LoopNeverContinued(cx, rule, ret, fuel - 1, r.env, cond, body);
        }
      }
    }
  }

  lemma {:induction false} RangeNeverContinued(
    cx: Context, rule: ContinueRule, ret: Type, fuel: nat, env: Env, i: nat, limit: int, variable: string, body: Block)
    ensures var r := ExecFor(cx, rule, ret, fuel, env, i, limit, variable, body); r.Ran? ==> r.signal != Continued
    decreases fuel
  {
    hide ExecBlock;
    if fuel > 0 && i < limit {
      var r := ExecBlock(cx, rule, ret, fuel - 1, env, map[variable := Number(i)], body);
      if r.Ran? {
        var next := if r.signal == Continued && rule == SameRound then i else i + 1;
        RangeNeverContinued(cx, rule, ret, fuel - 1, r.env, next, limit, variable, body);
      }
    }
  }
}
