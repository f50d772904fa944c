/** A lowered function does what its body means. */
module LowerTheorems {
  import opened Ast
  import opened Wrappers
  import opened Values
  import opened Graph
  import opened Scopes
  import opened Source
  import opened Control
  import opened Continuing
  import opened Lower
  import opened LowerExprs
  import opened LowerFrames
  import opened LowerRuns

  /** The registers at the start of a call. */
  function ArgRegs(args: seq<Value>): Regs {
    map i: nat | i < |args| :: args[i]
  }

  /** The machine at the start of a call. */
  function Start(args: seq<Value>, slots: Slots): Config {
    At(0, 0, ArgRegs(args), slots, [])
  }

  predicate SlotsBelow(globals: map<string, Entry>, n: nat) {
    forall x | x in globals :: globals[x].slot < n
  }

  predicate SlotsDistinct(globals: map<string, Entry>) {
    forall x, y | x in globals && y in globals && globals[x].slot == globals[y].slot :: x == y
  }

  lemma {:induction false} GlobalsPlaced(statics: seq<Static>)
    ensures SlotsBelow(Globals(statics), |statics|) && SlotsDistinct(Globals(statics))
    decreases |statics|
  {
    if statics == [] {
      var none: map<string, Entry> := map[];
      assert Globals(statics) == none;
    } else {
      GlobalsPlaced(statics[..|statics| - 1]);
    }
  }

  /** What the parameters leave behind. */
  ghost predicate ParamsStored(
    u: Unit, d: Code, statics: map<string, Value>, bound: Option<map<string, Value>>, place: map<string, Entry>, args: seq<Value>, at: Config)
    requires d.Valid()
  {
    if bound.None? then at == Stuck
    else
      at.At? && at == EndOf(d, ArgRegs(args), at.slots, []) && !Terminated(d) && d.loops == []
      && Aligned(u, d, [statics, bound.value], [u.globals, place], at.slots)
  }

  lemma {:induction false} ParamsRun(
    u: Unit, g: Blocks, c: Code, params: seq<Param>, n: nat, statics: map<string, Value>, args: seq<Value>, slots: Slots)
    returns (k: nat, at: Config, place: map<string, Entry>)
    requires n <= |params| == |args| && c.Valid() && !Terminated(c) && c.names == map[] && c.loops == []
    requires Aligned(u, c, [statics, map[]], [u.globals, map[]], slots)
    requires var r := LowerParams(u, c, params[..n]); r.Ok? && Covers(g, r.code)
    ensures at == Steps(u.cx, g, k, EndOf(c, ArgRegs(args), slots, []))
    ensures ParamsStored(u, LowerParams(u, c, params[..n]).code, statics, BindParams(params[..n], args[..n]), place, args, at)
    decreases n
  {
    hide Steps, Covers, Aligned, Terminated;
    if n == 0 {
      k, at, place := 0, EndOf(c, ArgRegs(args), slots, []), map[];
      NoSteps(u, g, at);
    } else {
      var last := n - 1;
      assert params[..n][..last] == params[..last] && args[..n][..last] == args[..last];
      var c1 := LowerParams(u, c, params[..last]).code;
      var ty := params[last].ty;
      var i := Store(c1.slots, ty, Reg(last));
      var d := LowerParams(u, c, params[..n]).code;
      CoversNames(g, Emit(NewSlot(c1), i), d);
      CoversStraight(g, NewSlot(c1), Emit(NewSlot(c1), i));
      CoversNames(g, c1, NewSlot(c1));
      k, at, place := ParamsRun(u, g, c, params, last, statics, args, slots);
      var before := BindParams(params[..last], args[..last]);
      if before.Some? {
        var mid, earlier := at, place;
        place := earlier[params[last].name := Entry(c1.slots, ty)];
        at := ParamRuns(u, g, c1, params[last], last, statics, before.value, earlier, args, mid);
        StepsAdd(u.cx, g, k, 1, EndOf(c, ArgRegs(args), slots, []));
        k := k + 1;
      }
    }
  }

  lemma ParamRuns(
    u: Unit, g: Blocks, c: Code, param: Param, index: nat, statics: map<string, Value>, bound: map<string, Value>,
    place: map<string, Entry>, args: seq<Value>, from: Config)
    returns (at: Config)
    requires c.Valid() && c.loops == [] && index < |args| && Zero(u.cx.enums, param.ty).Some?
    requires from.At? && from == EndOf(c, ArgRegs(args), from.slots, [])
    requires Aligned(u, c, [statics, bound], [u.globals, place], from.slots)
    requires Covers(g, Emit(NewSlot(c), Store(c.slots, param.ty, Reg(index))))
    ensures at == Steps(u.cx, g, 1, from)
    ensures
      var d := Emit(NewSlot(c), Store(c.slots, param.ty, Reg(index))).(names := c.names[param.name := Entry(c.slots, param.ty)]);
      var v := Convert(args[index], param.ty);
      var later := if v.Some? then Some(bound[param.name := v.value]) else None;
      ParamsStored(u, d, statics, later, place[param.name := Entry(c.slots, param.ty)], args, at)
  {
    hide Steps, Covers, Aligned, Convert, Zero;
    var i := Store(c.slots, param.ty, Reg(index));
    var d := Emit(NewSlot(c), i).(names := c.names[param.name := Entry(c.slots, param.ty)]);
    EmitRuns(u, g, NewSlot(c), i, ArgRegs(args), from.slots, []);
    assert ArgRegs(args)[index] == args[index];
    var v := Convert(args[index], param.ty);
    if v.None? {
      at := Stuck;
    } else {
      at := EndOf(d, ArgRegs(args), from.slots[c.slots := v.value], []);
      ZeroConverts(u.cx.enums, param.ty);
      ParamAligned(u, c, d, statics, bound, place, from.slots, param.name, param.ty, v.value);
    }
  }

  lemma ParamAligned(
    u: Unit, c: Code, d: Code, statics: map<string, Value>, bound: map<string, Value>, place: map<string, Entry>,
    slots: Slots, name: string, ty: Type, v: Value)
    requires Aligned(u, c, [statics, bound], [u.globals, place], slots) && Typed(v, ty) && ty != Void
    requires d.names == c.names[name := Entry(c.slots, ty)] && d.slots == c.slots + 1
    ensures Aligned(u, d, [statics, bound[name := v]], [u.globals, place[name := Entry(c.slots, ty)]], slots[c.slots := v])
  {
    var frames: Frames, places: Places := [statics, bound], [u.globals, place];
    DeclareAligned(u, c, d, frames, places, slots, name, ty, v, c.slots);
    assert Declare(frames, name, v) == [statics, bound[name := v]];
    assert Declare(places, name, Entry(c.slots, ty)) == [u.globals, place[name := Entry(c.slots, ty)]];
  }

  // ---------------------------------------------------------------------------
  // Whole functions
  // ---------------------------------------------------------------------------

  /** The statics have their values in their slots. */
  predicate StaticsHeld(globals: map<string, Entry>, values: map<string, Value>, slots: Slots) {
    FrameHeld(values, globals, slots)
  }

  /** How the machine ends against how the function ends: with the same result, the same values of
      the statics and the same calls; in error; or still running. */
  ghost predicate Agrees(globals: map<string, Entry>, fuel: nat, e: Ending, n: nat, at: Config) {
    match e
    case Ended(result, statics, trace) =>
      at.Halted? && at == Halted(result, at.slots, trace) && StaticsHeld(globals, statics, at.slots)
    case InError(fault) => at == Stuck || (at == Trapped && fault == IllTyped)
    case NotYet => at.At? && n >= fuel
  }

  lemma EntryAligned(u: Unit, c: Code, values: map<string, Value>, slots: Slots, statics: seq<Static>)
    requires u.globals == Globals(statics) && StaticsHeld(u.globals, values, slots)
    requires c.names == map[] && c.slots == |statics|
    ensures Aligned(u, c, [values, map[]], [u.globals, map[]], slots)
  {
    hide Held, Separate, PlacesBelow, NamesMatch, SlotsBelow, SlotsDistinct;
    GlobalsPlaced(statics);
    EntrySeparate(u.globals, |statics|);
    EntryHeld(u.globals, values, slots);
    EntryNames(u);
  }

  lemma EntrySeparate(globals: map<string, Entry>, n: nat)
    requires SlotsBelow(globals, n) && SlotsDistinct(globals)
    ensures Separate([globals, map[]]) && PlacesBelow([globals, map[]], n)
  {
  }

  lemma EntryHeld(globals: map<string, Entry>, values: map<string, Value>, slots: Slots)
    requires StaticsHeld(globals, values, slots)
    ensures Held([values, map[]], [globals, map[]], slots)
  {
  }

  lemma EntryNames(u: Unit)
    ensures NamesMatch(u, map[], [u.globals, map[]])
  {
    forall x: string ensures Resolve(u, map[], x) == Lookup([u.globals, map[]], x) {
      LookupStatic(u.globals, x);
    }
  }

  lemma LookupStatic(globals: map<string, Entry>, x: string)
    ensures Lookup([globals, map[]], x) == if x in globals then Some(globals[x]) else None
  {
    LookupPushed([globals], x);
    assert [globals] + [map[]] == [globals, map[]];
  }

  /** A run of the lowered function, from the first instruction to the end. */
  lemma FunctionRuns(
    cx: Context, statics: seq<Static>, fn: Function, fuel: nat, values: map<string, Value>, args: seq<Value>, slots: Slots)
    returns (n: nat, at: Config)
    requires |args| == |fn.proto.params| && StaticsHeld(Globals(statics), values, slots)
    requires StmtsSupported(fn.body.stmts) && VariantsDistinct(cx.enums)
    requires LowerFunction(cx, statics, fn).Ok?
    ensures at == Steps(cx, LowerFunction(cx, statics, fn).code.blocks, n, Start(args, slots))
    ensures Agrees(Globals(statics), fuel, RunBody(cx, SameRound, fn, fuel, values, args), n, at)
  {
    hide Steps, Covers, Aligned, LowerStmts, LowerParams, ExecStmts, StmtsSupported, VariantsDistinct, BindParams, DefaultReturn, FrameHeld;
    var u := UnitOf(cx, statics, fn.proto.ret);
    var params := fn.proto.params;
    var c0 := EntryCode(|statics|, |params|);
    var c1 := LowerParams(u, c0, params).code;
    var c2 := LowerStmts(u, c1, fn.body.stmts).code;
    var d := LowerFunction(cx, statics, fn).code;
    var g := d.blocks;
    CoversSelf(d);
    ReturnCovers(u, g, c2);
    CoversExtends(g, c1, c2, c1.cur, c1.cur + 1);
    assert params[..|params|] == params && args[..|params|] == args;
    EntryAligned(u, c0, values, slots, statics);
    assert EndOf(c0, ArgRegs(args), slots, []) == Start(args, slots);
    var place;
    n, at, place := ParamsRun(u, g, c0, params, |params|, values, args, slots);
    var bound := BindParams(params, args);
    if bound.Some? {
      var m, mid := n, at;
      n, at := BodyRuns(u, g, c1, fn, fuel, values, bound.value, place, ArgRegs(args), mid.slots);
      StepsAdd(u.cx, g, m, n, Start(args, slots));
      n := m + n;
      assert RunBody(cx, SameRound, fn, fuel, values, args) ==
        EndingOf(u, ExecStmts(u.cx, SameRound, u.ret, fuel, Env([values, bound.value], []), fn.body.stmts));
      AgreesMore(u.globals, fuel, RunBody(cx, SameRound, fn, fuel, values, args), n - m, n, at);
    }
  }

  lemma AgreesMore(globals: map<string, Entry>, fuel: nat, e: Ending, m: nat, n: nat, at: Config)
    requires Agrees(globals, fuel, e, m, at) && n >= m
    ensures Agrees(globals, fuel, e, n, at)
  {
  }

  lemma CoversSelf(c: Code)
    ensures Covers(c.blocks, c)
  {
  }

  lemma ReturnCovers(u: Unit, g: Blocks, c: Code)
    requires c.Valid() && DefaultReturn(u, c).Ok? && Covers(g, DefaultReturn(u, c).code)
    ensures Covers(g, c)
  {
    CoversExtends(g, c, DefaultReturn(u, c).code, c.cur, c.cur + 1);
  }

  /** The end of a function whose statements ran like this. */
  function EndingOf(u: Unit, r: Run): Ending {
    match r
    case Wrong(fault) => InError(fault)
    case OutOfFuel => NotYet
    case Ran(env, signal) =>
      if env.frames == [] then InError(IllTyped)
      else if signal.Returned? then Ended(signal.result, env.frames[0], env.trace)
      else if signal != Normal then InError(IllTyped)
      else if u.ret == Void then Ended(None, env.frames[0], env.trace)
      else if Zero(u.cx.enums, u.ret).None? then InError(IllTyped)
      else Ended(Zero(u.cx.enums, u.ret), env.frames[0], env.trace)
  }

  lemma BodyRuns(
    u: Unit, g: Blocks, c: Code, fn: Function, fuel: nat, values: map<string, Value>, bound: map<string, Value>,
    place: map<string, Entry>, regs: Regs, slots: Slots)
    returns (n: nat, at: Config)
    requires c.Valid() && !Terminated(c) && c.loops == []
    requires Aligned(u, c, [values, bound], [u.globals, place], slots)
    requires StmtsSupported(fn.body.stmts) && VariantsDistinct(u.cx.enums)
    requires LowerStmts(u, c, fn.body.stmts).Ok? && DefaultReturn(u, LowerStmts(u, c, fn.body.stmts).code).Ok?
    requires Covers(g, DefaultReturn(u, LowerStmts(u, c, fn.body.stmts).code).code)
    ensures at == Steps(u.cx, g, n, EndOf(c, regs, slots, []))
    ensures Agrees(u.globals, fuel, EndingOf(u, ExecStmts(u.cx, SameRound, u.ret, fuel, Env([values, bound], []), fn.body.stmts)), n, at)
  {
    hide Steps, Covers, Aligned, LowerStmts, ExecStmts, StmtsSupported, VariantsDistinct, DefaultReturn, Held, Zero, FrameHeld;
    var d := LowerStmts(u, c, fn.body.stmts).code;
    var env := Env([values, bound], []);
    ReturnCovers(u, g, d);
    var later;
    n, at, later := StmtsRun(u, g, c, fn.body.stmts, fuel, env, [u.globals, place], regs, slots);
    var r := ExecStmts(u.cx, SameRound, u.ret, fuel, env, fn.body.stmts);
    if r.Ran? {
      LandsStatics(u, c, d, regs, slots, place, later, fuel, r, n, at);
      if r.signal == Normal {
        var mid := at;
        at := ReturnRuns(u, g, d, mid.regs, mid.slots, r.env.trace);
        StepsAdd(u.cx, g, n, 1, EndOf(c, regs, slots, []));
        n := n + 1;
      }
    }
  }

  /** The outermost scope still holds the statics. */
  lemma LandsStatics(
    u: Unit, c: Code, d: Code, regs: Regs, slots: Slots, place: map<string, Entry>, later: Places, fuel: nat, r: Run,
    n: nat, at: Config)
    requires d.Valid() && r.Ran? && Lands(u, c, d, regs, slots, [u.globals, place], later, fuel, r, n, at)
    ensures !at.Stuck? && !at.Trapped? && r.env.frames != [] && StaticsHeld(u.globals, r.env.frames[0], at.slots)
  {
    hide NamesMatch, Separate, Owned, FrameHeld;
    assert Pop([u.globals, place]) == [u.globals];
    assert later[0] == Pop(later)[0];
    assert FrameHeld(r.env.frames[0], later[0], at.slots);
  }

  lemma ReturnRuns(u: Unit, g: Blocks, c: Code, regs: Regs, slots: Slots, trace: seq<Event>) returns (at: Config)
    requires c.Valid() && !Terminated(c) && DefaultReturn(u, c).Ok? && Covers(g, DefaultReturn(u, c).code)
    ensures at == Steps(u.cx, g, 1, EndOf(c, regs, slots, trace))
    ensures u.ret == Void ==> at == Halted(None, slots, trace)
    ensures u.ret != Void ==> Zero(u.cx.enums, u.ret).Some? && at == Halted(Zero(u.cx.enums, u.ret), slots, trace)
  {
    hide Steps, Covers, Zero;
    var i := if u.ret == Void then Ret(None, Void) else Ret(Some(Const(Zero(u.cx.enums, u.ret).value)), u.ret);
    EmitRuns(u, g, c, i, regs, slots, trace);
    if u.ret != Void {
      ZeroConverts(u.cx.enums, u.ret);
    }
    at := Halted(if u.ret == Void then None else Zero(u.cx.enums, u.ret), slots, trace);
  }

  /** What lowering does to every function, `continue` in range loops included: the machine ends as
      the function does when a continued round starts again, and runs on for at least as many steps
      as the function is given fuel while it has not ended. */
  lemma LoweringExact(
    cx: Context, statics: seq<Static>, fn: Function, fuel: nat, values: map<string, Value>, args: seq<Value>, slots: Slots)
    requires |args| == |fn.proto.params| && StaticsHeld(Globals(statics), values, slots)
    requires StmtsSupported(fn.body.stmts) && VariantsDistinct(cx.enums)
    requires LowerFunction(cx, statics, fn).Ok?
    ensures MachineAgrees(cx, statics, fn, fuel, args, slots, RunBody(cx, SameRound, fn, fuel, values, args))
  {
    hide Steps, StmtsSupported, VariantsDistinct, LowerFunction, StaticsHeld, RunBody;
    var g := LowerFunction(cx, statics, fn).code.blocks;
    var n, at := FunctionRuns(cx, statics, fn, fuel, values, args, slots);
    if at.At? {
      StepsAdd(cx, g, fuel, n - fuel, Start(args, slots));
      if !Steps(cx, g, fuel, Start(args, slots)).At? {
        EndIsFinal(cx, g, n - fuel, Steps(cx, g, fuel, Start(args, slots)));
      }
    }
  }

  ghost predicate MachineAgrees(
    cx: Context, statics: seq<Static>, fn: Function, fuel: nat, args: seq<Value>, slots: Slots, e: Ending)
    requires LowerFunction(cx, statics, fn).Ok?
  {
    var g := LowerFunction(cx, statics, fn).code.blocks;
    if e.NotYet? then Steps(cx, g, fuel, Start(args, slots)).At?
    else exists n :: Agrees(Globals(statics), fuel, e, n, Steps(cx, g, n, Start(args, slots)))
  }

  /** Lowering is correct: the machine ends as the function does, in every run in which no round of a
      range loop is continued, and in all runs if no range loop has a `continue`. */
  lemma LoweringCorrect(
    cx: Context, statics: seq<Static>, fn: Function, fuel: nat, values: map<string, Value>, args: seq<Value>, slots: Slots)
    requires |args| == |fn.proto.params| && StaticsHeld(Globals(statics), values, slots)
    requires StmtsSupported(fn.body.stmts) && VariantsDistinct(cx.enums)
    requires LowerFunction(cx, statics, fn).Ok?
    requires StmtsNoSkips(fn.body.stmts) || RunBody(cx, NoRound, fn, fuel, values, args) != InError(Skipped)
    ensures MachineAgrees(cx, statics, fn, fuel, args, slots, RunBody(cx, NextRound, fn, fuel, values, args))
  {
    hide StmtsSupported, VariantsDistinct, LowerFunction, StaticsHeld, MachineAgrees;
    LoweringExact(cx, statics, fn, fuel, values, args, slots);
    if StmtsNoSkips(fn.body.stmts) {
      BodySame(cx, SameRound, NextRound, fn, fuel, values, args);
    } else {
      BodySame(cx, NoRound, SameRound, fn, fuel, values, args);
      BodySame(cx, NoRound, NextRound, fn, fuel, values, args);
    }
  }

  lemma BodySame(cx: Context, a: ContinueRule, b: ContinueRule, fn: Function, fuel: nat, values: map<string, Value>, args: seq<Value>)
    requires |args| == |fn.proto.params|
    requires StmtsNoSkips(fn.body.stmts) || (a == NoRound && RunBody(cx, a, fn, fuel, values, args) != InError(Skipped))
    ensures RunBody(cx, b, fn, fuel, values, args) == RunBody(cx, a, fn, fuel, values, args)
  {
    hide ExecStmts, StmtsNoSkips, BindParams;
    var bound := BindParams(fn.proto.params, args);
    if bound.Some? {
      StmtsSame(cx, a, b, fn.proto.ret, fuel, fuel, Env([values, bound.value], []), fn.body.stmts);
    }
  }

  /** A function that never ends when continued rounds start again keeps the machine busy for ever. */
  lemma RunsForEver(
    cx: Context, statics: seq<Static>, fn: Function, values: map<string, Value>, args: seq<Value>, slots: Slots, n: nat)
    requires |args| == |fn.proto.params| && StaticsHeld(Globals(statics), values, slots)
    requires StmtsSupported(fn.body.stmts) && VariantsDistinct(cx.enums)
    requires LowerFunction(cx, statics, fn).Ok?
    requires RunBody(cx, SameRound, fn, n, values, args) == NotYet
    ensures Steps(cx, LowerFunction(cx, statics, fn).code.blocks, n, Start(args, slots)).At?
  {
    hide StmtsSupported, VariantsDistinct, LowerFunction, StaticsHeld, RunBody, Steps;
    LoweringExact(cx, statics, fn, n, values, args, slots);
  }

  lemma SameEnd(cx: Context, g: Blocks, from: Config, m: nat, n: nat)
    requires !Steps(cx, g, m, from).At? && !Steps(cx, g, n, from).At?
    ensures Steps(cx, g, m, from) == Steps(cx, g, n, from)
  {
    if m <= n {
      StepsAdd(cx, g, m, n - m, from);
      EndIsFinal(cx, g, n - m, Steps(cx, g, m, from));
    } else {
      StepsAdd(cx, g, n, m - n, from);
      EndIsFinal(cx, g, m - n, Steps(cx, g, n, from));
    }
  }

  /** The statics that slots hold are determined. */
  lemma StaticsDetermined(globals: map<string, Entry>, a: map<string, Value>, b: map<string, Value>, slots: Slots)
    requires StaticsHeld(globals, a, slots) && StaticsHeld(globals, b, slots)
    ensures a == b
  {
    assert forall x | x in a :: a[x] == slots[globals[x].slot];
  }

  /** The machine halts exactly when the function ends, with the same result, statics and calls, if
      continued rounds of range loops start again. */
  lemma HaltsIffRepeatingEnds(
    cx: Context, statics: seq<Static>, fn: Function, values: map<string, Value>, args: seq<Value>, slots: Slots,
    result: Option<Value>, after: map<string, Value>, trace: seq<Event>)
    requires |args| == |fn.proto.params| && StaticsHeld(Globals(statics), values, slots)
    requires StmtsSupported(fn.body.stmts) && VariantsDistinct(cx.enums)
    requires LowerFunction(cx, statics, fn).Ok?
    ensures
      (exists fuel :: RunBody(cx, SameRound, fn, fuel, values, args) == Ended(result, after, trace))
      <==>
      (exists n, end ::
        Steps(cx, LowerFunction(cx, statics, fn).code.blocks, n, Start(args, slots)) == Halted(result, end, trace)
        && StaticsHeld(Globals(statics), after, end))
  {
    hide Steps, StmtsSupported, VariantsDistinct, LowerFunction, StaticsHeld, RunBody;
    var g := LowerFunction(cx, statics, fn).code.blocks;
    if fuel :| RunBody(cx, SameRound, fn, fuel, values, args) == Ended(result, after, trace) {
      var n, at := FunctionRuns(cx, statics, fn, fuel, values, args, slots);
    }
    if n, end :| Steps(cx, g, n, Start(args, slots)) == Halted(result, end, trace) && StaticsHeld(Globals(statics), after, end) {
      var m, at := FunctionRuns(cx, statics, fn, n, values, args, slots);
      if at.At? {
        StepsAdd(cx, g, n, m - n, Start(args, slots));
        EndIsFinal(cx, g, m - n, Halted(result, end, trace));
      }
      SameEnd(cx, g, Start(args, slots), m, n);
      var e := RunBody(cx, SameRound, fn, n, values, args);
      StaticsDetermined(Globals(statics), e.statics, after, end);
    }
  }

  /** Without a `continue` in a range loop, the machine halts exactly when the function ends. */
  lemma HaltsIffEnds(
    cx: Context, statics: seq<Static>, fn: Function, values: map<string, Value>, args: seq<Value>, slots: Slots,
    result: Option<Value>, after: map<string, Value>, trace: seq<Event>)
    requires |args| == |fn.proto.params| && StaticsHeld(Globals(statics), values, slots)
    requires StmtsSupported(fn.body.stmts) && VariantsDistinct(cx.enums) && StmtsNoSkips(fn.body.stmts)
    requires LowerFunction(cx, statics, fn).Ok?
    ensures
      (exists fuel :: RunBody(cx, NextRound, fn, fuel, values, args) == Ended(result, after, trace))
      <==>
      (exists n, end ::
        Steps(cx, LowerFunction(cx, statics, fn).code.blocks, n, Start(args, slots)) == Halted(result, end, trace)
        && StaticsHeld(Globals(statics), after, end))
  {
    hide Steps, StmtsSupported, StmtsNoSkips, VariantsDistinct, LowerFunction, StaticsHeld, RunBody;
    HaltsIffRepeatingEnds(cx, statics, fn, values, args, slots, result, after, trace);
    forall fuel: nat
      ensures RunBody(cx, NextRound, fn, fuel, values, args) == RunBody(cx, SameRound, fn, fuel, values, args)
    {
      BodySame(cx, SameRound, NextRound, fn, fuel, values, args);
    }
  }
}
