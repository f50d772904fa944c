/** What statements mean: the scoped variables after running them, and how they were left.

    Loops count down `fuel`, so that the functions are total; a run that is out of fuel may be
    one that never ends. */
module Source {
  import opened Ast
  import opened Wrappers
  import opened Values
  import opened Scopes

  type Frames = seq<map<string, Value>>

  /** Scopes with the statics outermost, and the calls made so far. */
  datatype Env = Env(frames: Frames, trace: seq<Event>)

  /** Why something has no meaning: a division, remainder or shift of integers that has no result; a
      `continue` where there must be none; or anything that types should rule out. */
  datatype Fault = Arithmetic | Skipped | IllTyped

  datatype Eval<+T> = Got(value: T, trace: seq<Event>) | Undefined(fault: Fault) {
    predicate IsFailure() { Undefined? }

    function PropagateFailure<U>(): Eval<U>
      requires Undefined?
    {
      Undefined(fault)
    }

    function Extract(): (T, seq<Event>)
      requires Got?
    {
      (value, trace)
    }
  }

  function Give<T>(v: Option<T>, trace: seq<Event>, fault: Fault): Eval<T> {
    if v.Some? then Got(v.value, trace) else Undefined(fault)
  }

  predicate IsIntegerValue(v: Value) {
    v.Num? && IsInteger(v.ty)
  }

  /** Why an operation has no result. */
  function BinaryFault(op: BinOp, a: Value, b: Value): Fault {
    if op in {Div, Mod, Shl, Shr} && IsIntegerValue(a) && IsIntegerValue(b) then Arithmetic else IllTyped
  }

  function EvalExpr(cx: Context, frames: Frames, trace: seq<Event>, e: Expr): Eval<Value>
    decreases e, 0
  {
    match e
    case IntLit(n) => Got(Number(n), trace)
    case BoolLit(b) => Got(Truth(b), trace)
    case Var(name) => Give(Lookup(frames, name), trace, IllTyped)
    case Binary(op, lhs, rhs) =>
      var (a, trace1) :- EvalExpr(cx, frames, trace, lhs);
      var (b, trace2) :- EvalExpr(cx, frames, trace1, rhs);
      Give(ApplyBinary(op, CommonInteger(TypeOfValue(a), TypeOfValue(b)), a, b), trace2, BinaryFault(op, a, b))
    case Unary(op, operand) =>
      var (a, trace1) :- EvalExpr(cx, frames, trace, operand);
      Give(ApplyUnary(op, a), trace1, IllTyped)
    case Call(callee, _, args) =>
      if callee !in cx.signatures then Undefined(IllTyped)
      else
        var sig := cx.signatures[callee];
        var (values, trace1) :- EvalArgs(cx, frames, trace, args);
        var (converted, _) :- Give(ConvertAll(values, sig.params), trace1, IllTyped);
        var trace2 := trace1 + [Event(callee, converted)];
        Give(Answer(cx, sig, trace2), trace2, IllTyped)
    case MethodCall(receiver, variant, _, args) =>
      if !receiver.Var? || receiver.name !in cx.enums then Undefined(IllTyped)
      else
        var enum := receiver.name;
        var tag := VariantIndex(cx.enums[enum], variant);
        if tag.None? then Undefined(IllTyped)
        else
          var payload := cx.enums[enum][tag.value].payload;
          if payload.None? then if args == [] then Got(EnumVal(enum, tag.value, None), trace) else Undefined(IllTyped)
          else if |args| != 1 then Undefined(IllTyped)
          else
            var (v, trace1) :- EvalExpr(cx, frames, trace, args[0]);
            var (w, trace2) :- Give(Convert(v, payload.value), trace1, IllTyped);
            Got(EnumVal(enum, tag.value, Some(w)), trace2)
    case _ => Undefined(IllTyped)
  }

  /** Arguments, from left to right. */
  function EvalArgs(cx: Context, frames: Frames, trace: seq<Event>, es: seq<Expr>): Eval<seq<Value>>
    decreases es, 0
  {
    if es == [] then Got([], trace)
    else
      var (v, trace1) :- EvalExpr(cx, frames, trace, es[0]);
      var (rest, trace2) :- EvalArgs(cx, frames, trace1, es[1..]);
      Got([v] + rest, trace2)
  }

  function EvalAs(cx: Context, env: Env, e: Expr, t: Type): Eval<Value> {
    var (v, trace) :- EvalExpr(cx, env.frames, env.trace, e);
    Give(Convert(v, t), trace, IllTyped)
  }

  // ---------------------------------------------------------------------------
  // Statements
  // ---------------------------------------------------------------------------

  datatype Signal = Normal | Broke | Continued | Returned(result: Option<Value>)

  datatype Run = Ran(env: Env, signal: Signal) | Wrong(fault: Fault) | OutOfFuel

  /** What a `continue` of a loop over a range does: it goes on with the next round, as the language
      has it; it starts the same round again, as the generated code does; or it is an error. */
  datatype ContinueRule = NextRound | SameRound | NoRound

  predicate IsRange(e: Expr) {
    e.Call? && e.callee == "range" && |e.args| == 1
  }

  predicate Matches(variants: seq<EnumVariant>, p: Pattern, tag: nat) {
    p.Wildcard? || (tag < |variants| && variants[tag].name == p.variant)
  }

  /** The first arm that matches. */
  function SelectArm(variants: seq<EnumVariant>, arms: seq<Arm>, tag: nat): (r: Option<nat>)
    ensures r.Some? ==> r.value < |arms| && Matches(variants, arms[r.value].pattern, tag)
    ensures r.Some? ==> forall i | 0 <= i < r.value :: !Matches(variants, arms[i].pattern, tag)
    ensures r.None? ==> forall i | 0 <= i < |arms| :: !Matches(variants, arms[i].pattern, tag)
  {
    if arms == [] then None
    else if Matches(variants, arms[0].pattern, tag) then Some(0)
    else
      var rest := SelectArm(variants, arms[1..], tag);
      if rest.Some? then Some(rest.value + 1) else None
  }

  /** The scope that an arm opens. */
  function ArmScope(cx: Context, p: Pattern, v: Value): Option<map<string, Value>>
    requires v.EnumVal? && v.enum in cx.enums
  {
    if p.Wildcard? || p.binding.None? then Some(map[])
    else
      var index := VariantIndex(cx.enums[v.enum], p.variant);
      if index.None? || cx.enums[v.enum][index.value].payload.None? then None
      else
        var payload := PayloadOf(cx.enums, v, cx.enums[v.enum][index.value].payload.value);
        if payload.Some? then Some(map[p.binding.value := payload.value]) else None
  }

  function ExecStmt(cx: Context, rule: ContinueRule, ret: Type, fuel: nat, env: Env, s: Stmt): (r: Run)
    requires env.frames != []
    ensures r.Ran? ==> |r.env.frames| == |env.frames|
    decreases fuel, s, 0
  {
    match s
    case Return(None) => Ran(env, Returned(None))
    case Return(Some(e)) => (
      match EvalAs(cx, env, e, ret)
      case Undefined(fault) => Wrong(fault)
      case Got(v, trace) => Ran(Env(env.frames, trace), Returned(Some(v))))
    case ExprStmt(e) => (
      match EvalExpr(cx, env.frames, env.trace, e)
      case Undefined(fault) => Wrong(fault)
      case Got(_, trace) => Ran(Env(env.frames, trace), Normal))
    case Let(name, Some(ty), init) => (
      match (if init.Some? then EvalAs(cx, env, init.value, ty) else Give(Zero(cx.enums, ty), env.trace, IllTyped))
      case Undefined(fault) => Wrong(fault)
      case Got(v, trace) => Ran(Env(Declare(env.frames, name, v), trace), Normal))
    case Assign(name, e) =>
      var k := Find(env.frames, name);
      if k.None? then Wrong(IllTyped)
      else (
        match EvalAs(cx, env, e, TypeOfValue(env.frames[k.value][name]))
        case Undefined(fault) => Wrong(fault)
        case Got(v, trace) => Ran(Env(Update(env.frames, k.value, name, v), trace), Normal))
    case If(cond, thn, els) => (
      match EvalExpr(cx, env.frames, env.trace, cond)
      case Undefined(fault) => Wrong(fault)
      case Got(v, trace) =>
        if !v.Num? || v.ty != Bool then Wrong(IllTyped)
        else if v.bits == 1 then ExecBlock(cx, rule, ret, fuel, Env(env.frames, trace), map[], thn)
        else if els.Some? then ExecBlock(cx, rule, ret, fuel, Env(env.frames, trace), map[], els.value)
        else Ran(Env(env.frames, trace), Normal))
    case While(cond, body) => ExecWhile(cx, rule, ret, fuel, env, cond, body)
    case For(variable, iter, body) =>
      if !IsRange(iter) then Wrong(IllTyped)
      else (
        match EvalExpr(cx, env.frames, env.trace, iter.args[0])
        case Undefined(fault) => Wrong(fault)
        case Got(v, trace) =>
          if !v.Num? || v.ty != Int then Wrong(IllTyped)
          else ExecFor(cx, rule, ret, fuel, Env(env.frames, trace), 0, Signed(v.bits), variable, body))
    case Switch(scrutinee, arms) => (
      match EvalExpr(cx, env.frames, env.trace, scrutinee)
      case Undefined(fault) => Wrong(fault)
      case Got(v, trace) =>
        if !v.EnumVal? || v.enum !in cx.enums then Wrong(IllTyped)
        else
          var index := SelectArm(cx.enums[v.enum], arms, v.tag);
          if index.None? then Wrong(IllTyped)
          else
            var scope := ArmScope(cx, arms[index.value].pattern, v);
            if scope.None? then Wrong(IllTyped)
            else ExecArm(cx, rule, ret, fuel, Env(env.frames, trace), scope.value, arms[index.value]))
    case Break => Ran(env, Broke)
    case Continue => Ran(env, Continued)
    case _ => Wrong(IllTyped)
  }

  /** The statements in a scope of their own, which holds `scope` at the start. */
  function ExecBlock(cx: Context, rule: ContinueRule, ret: Type, fuel: nat, env: Env, scope: map<string, Value>, b: Block): (r: Run)
    ensures r.Ran? ==> |r.env.frames| == |env.frames|
    decreases fuel, b, 0
  {
    Leave(ExecStmts(cx, rule, ret, fuel, Env(env.frames + [scope], env.trace), b.stmts))
  }

  function ExecArm(cx: Context, rule: ContinueRule, ret: Type, fuel: nat, env: Env, scope: map<string, Value>, arm: Arm): (r: Run)
    ensures r.Ran? ==> |r.env.frames| == |env.frames|
    decreases fuel, arm, 0
  {
    ExecBlock(cx, rule, ret, fuel, env, scope, arm.body)
  }

  function Leave(r: Run): Run {
    if r.Ran? then Ran(Env(Pop(r.env.frames), r.env.trace), r.signal) else r
  }

  function ExecStmts(cx: Context, rule: ContinueRule, ret: Type, fuel: nat, env: Env, ss: seq<Stmt>): (r: Run)
    requires env.frames != []
    ensures r.Ran? ==> |r.env.frames| == |env.frames|
    decreases fuel, ss, 0
  {
    if ss == [] then Ran(env, Normal)
    else
      match ExecStmt(cx, rule, ret, fuel, env, ss[0])
      case Wrong(fault) => Wrong(fault)
      case OutOfFuel => OutOfFuel
      case Ran(env1, signal) =>
        if signal != Normal then Ran(env1, signal)
        else ExecStmts(cx, rule, ret, fuel, env1, ss[1..])
  }

  function ExecWhile(cx: Context, rule: ContinueRule, ret: Type, fuel: nat, env: Env, cond: Expr, body: Block): (r: Run)
    ensures r.Ran? ==> |r.env.frames| == |env.frames|
    decreases fuel, body, 1
  {
    if fuel == 0 then OutOfFuel
    else
      match EvalExpr(cx, env.frames, env.trace, cond)
      case Undefined(fault) => Wrong(fault)
      case Got(v, trace) =>
        if !v.Num? || v.ty != Bool then Wrong(IllTyped)
        else if v.bits != 1 then Ran(Env(env.frames, trace), Normal)
        else
          var round := ExecBlock(cx, rule, ret, fuel - 1, Env(env.frames, trace), map[], body);
          if round.Ran? && (round.signal == Normal || round.signal == Continued) then
            ExecWhile(cx, rule, ret, fuel - 1, round.env, cond, body)
          else AfterLoop(round)
  }

  /** A break ends the loop and nothing else. */
  function AfterLoop(r: Run): Run {
    if r.Ran? && r.signal == Broke then Ran(r.env, Normal) else r
  }

  /** The rounds of a loop over a range from `i` on. */
  function ExecFor(cx: Context, rule: ContinueRule, ret: Type, fuel: nat, env: Env, i: nat, limit: int, variable: string, body: Block): (r: Run)
    ensures r.Ran? ==> |r.env.frames| == |env.frames|
    decreases fuel, body, 1
  {
    if fuel == 0 then OutOfFuel
    else if i >= limit then Ran(env, Normal)
    else
      var round := ExecBlock(cx, rule, ret, fuel - 1, env, map[variable := Number(i)], body);
      if round.Ran? && round.signal == Normal then
        ExecFor(cx, rule, ret, fuel - 1, round.env, i + 1, limit, variable, body)
      else if round.Ran? && round.signal == Continued then
        if rule == NoRound then Wrong(Skipped)
        else ExecFor(cx, rule, ret, fuel - 1, round.env, if rule == NextRound then i + 1 else i, limit, variable, body)
      else AfterLoop(round)
  }

  // ---------------------------------------------------------------------------
  // Functions
  // ---------------------------------------------------------------------------

  /** How a call of a function ends: with a result and the statics and calls it left, in error, or
      not yet. */
  datatype Ending =
    | Ended(result: Option<Value>, statics: map<string, Value>, trace: seq<Event>)
    | InError(fault: Fault)
    | NotYet

  function BindParams(params: seq<Param>, args: seq<Value>): Option<map<string, Value>>
    requires |params| == |args|
  {
    if params == [] then Some(map[])
    else
      var last := |params| - 1;
      var rest := BindParams(params[..last], args[..last]);
      var v := Convert(args[last], params[last].ty);
      if rest.Some? && v.Some? then Some(rest.value[params[last].name := v.value]) else None
  }

  /** Runs a function body. One that falls off its end returns zero. */
  function RunBody(cx: Context, rule: ContinueRule, fn: Function, fuel: nat, statics: map<string, Value>, args: seq<Value>): Ending
    requires |args| == |fn.proto.params|
  {
    var bound := BindParams(fn.proto.params, args);
    if bound.None? then InError(IllTyped)
    else
      match ExecStmts(cx, rule, fn.proto.ret, fuel, Env([statics, bound.value], []), fn.body.stmts)
      case Wrong(fault) => InError(fault)
      case OutOfFuel => NotYet
      case Ran(env, signal) => (
        match signal
        case Returned(result) => Ended(result, env.frames[0], env.trace)
        case _ =>
          if signal != Normal then InError(IllTyped)
          else if fn.proto.ret == Void then Ended(None, env.frames[0], env.trace)
          else
            var zero := Zero(cx.enums, fn.proto.ret);
            if zero.None? then InError(IllTyped) else Ended(zero, env.frames[0], env.trace))
  }
}
