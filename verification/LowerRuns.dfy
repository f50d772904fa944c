/** Running the lowered code of statements has the effect of executing them. */
module LowerRuns {
  import opened Ast
  import opened Wrappers
  import opened Values
  import opened Graph
  import opened Scopes
  import opened Source
  import opened Control
  import opened Lower
  import opened LowerExprs
  import opened LowerFrames

  // ---------------------------------------------------------------------------
  // Statements in sequence
  // ---------------------------------------------------------------------------

  lemma LandsTrans(
    u: Unit, c: Code, d: Code, e: Code, regs: Regs, slots: Slots, places: Places, mid: Places, later: Places,
    fuel: nat, first: Run, second: Run, n1: nat, n2: nat, at1: Config, at2: Config)
    requires d.Valid() && e.Valid() && d.regs >= c.regs && d.slots >= c.slots && d.loops == c.loops
    requires first.Ran? && first.signal == Normal
    requires Lands(u, c, d, regs, slots, places, mid, fuel, first, n1, at1)
    requires Lands(u, d, e, at1.regs, at1.slots, mid, later, fuel, second, n2, at2)
    ensures Lands(u, c, e, regs, slots, places, later, fuel, second, n1 + n2, at2)
  {
    hide Aligned, Held, Owned, Terminated;
    if at2.At? && second.Ran? {
      AgreeTrans(regs, at1.regs, at2.regs, c.regs, d.regs);
      AgreeOutsideTrans(slots, at1.slots, at2.slots, c.slots, d.slots, Owned(places), Owned(mid));
    }
  }

  lemma {:induction false} StmtsRun(
    u: Unit, g: Blocks, c: Code, ss: seq<Stmt>, fuel: nat, env: Env, places: Places, regs: Regs, slots: Slots)
    returns (n: nat, at: Config, later: Places)
    requires c.Valid() && !Terminated(c) && Aligned(u, c, env.frames, places, slots) && env.frames != []
    requires StmtsSupported(ss) && VariantsDistinct(u.cx.enums)
    requires LowerStmts(u, c, ss).Ok? && Covers(g, LowerStmts(u, c, ss).code)
    ensures at == Steps(u.cx, g, n, EndOf(c, regs, slots, env.trace))
    ensures Lands(u, c, LowerStmts(u, c, ss).code, regs, slots, places, later, fuel,
                  ExecStmts(u.cx, SameRound, u.ret, fuel, env, ss), n, at)
    decreases fuel, ss, 0
  {
    hide Steps, Covers, LowerStmt, ExecStmt, Supported, Terminated, Aligned, Held, VariantsDistinct;
    if ss == [] {
      n, at, later := 0, EndOf(c, regs, slots, env.trace), places;
      NoSteps(u, g, at);
      StayPut(u, c, regs, slots, places, fuel, env, at);
    } else {
      var c1 := LowerStmt(u, c, ss[0]).code;
      CoversExtends(g, c1, LowerStmts(u, c1, ss[1..]).code, c1.cur, c1.cur + 1);
      n, at, later := StmtRuns(u, g, c, ss[0], fuel, env, places, regs, slots);
      var first := ExecStmt(u.cx, SameRound, u.ret, fuel, env, ss[0]);
      if first.Ran? && first.signal == Normal {
        var n1, at1, mid := n, at, later;
        var n2;
        n2, at, later := StmtsRun(u, g, c1, ss[1..], fuel, first.env, mid, at1.regs, at1.slots);
        StepsAdd(u.cx, g, n1, n2, EndOf(c, regs, slots, env.trace));
        n := n1 + n2;
        LandsTrans(u, c, c1, LowerStmts(u, c, ss).code, regs, slots, places, mid, later, fuel, first,
                   ExecStmts(u.cx, SameRound, u.ret, fuel, first.env, ss[1..]), n1, n2, at1, at);
      } else {
        LandsElsewhere(u, c, c1, LowerStmts(u, c, ss).code, regs, slots, places, later, fuel, first, n, at);
      }
    }
  }

  lemma StayPut(u: Unit, c: Code, regs: Regs, slots: Slots, places: Places, fuel: nat, env: Env, at: Config)
    requires c.Valid() && !Terminated(c) && Aligned(u, c, env.frames, places, slots)
    requires at == EndOf(c, regs, slots, env.trace)
    ensures Lands(u, c, c, regs, slots, places, places, fuel, Ran(env, Normal), 0, at)
  {
    hide Aligned, Owned, Terminated;
  }

  /** Where control goes by a jump does not depend on the code that follows. */
  lemma LandsElsewhere(
    u: Unit, c: Code, d: Code, e: Code, regs: Regs, slots: Slots, places: Places, later: Places, fuel: nat, r: Run,
    n: nat, at: Config)
    requires d.Valid() && e.Valid() && Lands(u, c, d, regs, slots, places, later, fuel, r, n, at)
    requires !(r.Ran? && r.signal == Normal)
    ensures Lands(u, c, e, regs, slots, places, later, fuel, r, n, at)
  {
  }

  lemma {:induction false} StmtRuns(
    u: Unit, g: Blocks, c: Code, s: Stmt, fuel: nat, env: Env, places: Places, regs: Regs, slots: Slots)
    returns (n: nat, at: Config, later: Places)
    requires c.Valid() && !Terminated(c) && Aligned(u, c, env.frames, places, slots) && env.frames != []
    requires Supported(s) && VariantsDistinct(u.cx.enums)
    requires LowerStmt(u, c, s).Ok? && Covers(g, LowerStmt(u, c, s).code)
    ensures at == Steps(u.cx, g, n, EndOf(c, regs, slots, env.trace))
    ensures Lands(u, c, LowerStmt(u, c, s).code, regs, slots, places, later, fuel,
                  ExecStmt(u.cx, SameRound, u.ret, fuel, env, s), n, at)
    decreases fuel, s, 3
  {
    hide *;
    if s.Return? {
      n, at := ReturnRuns(u, g, c, s, fuel, env, places, regs, slots);
      later := places;
    } else if s.ExprStmt? {
      n, at := ExprStmtRuns(u, g, c, s, fuel, env, places, regs, slots);
      later := places;
    } else if s.Let? {
      n, at, later := LetRuns(u, g, c, s, fuel, env, places, regs, slots);
    } else if s.Assign? {
      n, at := AssignRuns(u, g, c, s, fuel, env, places, regs, slots);
      later := places;
    } else if s.Break? || s.Continue? {
      n, at := LoopJumpRuns(u, g, c, s, fuel, env, places, regs, slots);
      later := places;
    } else {
      n, at := CompoundRuns(u, g, c, s, fuel, env, places, regs, slots);
      later := places;
    }
  }

  // ---------------------------------------------------------------------------
  // Simple statements
  // ---------------------------------------------------------------------------

  lemma ReturnRuns(
    u: Unit, g: Blocks, c: Code, s: Stmt, fuel: nat, env: Env, places: Places, regs: Regs, slots: Slots)
    returns (n: nat, at: Config)
    requires s.Return? && c.Valid() && Aligned(u, c, env.frames, places, slots) && env.frames != []
    requires LowerStmt(u, c, s).Ok? && Covers(g, LowerStmt(u, c, s).code)
    ensures at == Steps(u.cx, g, n, EndOf(c, regs, slots, env.trace))
    ensures Lands(u, c, LowerStmt(u, c, s).code, regs, slots, places, places, fuel,
                  ExecStmt(u.cx, SameRound, u.ret, fuel, env, s), n, at)
  {
    hide Steps, Covers, Held, NamesMatch, Separate, Fits, LowerExpr, EvalExpr, Owned, Convert;
    if s.value.None? {
      EmitRuns(u, g, c, Ret(None, Void), regs, slots, env.trace);
      n, at := 1, Halted(None, slots, env.trace);
    } else {
      var src := LowerExpr(u, c, s.value.value);
      var i := Ret(Some(src.value), u.ret);
      CoversStraight(g, src.code, Emit(src.code, i));
      n, at := ExprRuns(u, g, c, s.value.value, env.frames, places, regs, slots, env.trace);
      var v := EvalExpr(u.cx, env.frames, env.trace, s.value.value);
      if v.Got? {
        EmitRuns(u, g, src.code, i, at.regs, at.slots, v.trace);
        StepsAdd(u.cx, g, n, 1, EndOf(c, regs, slots, env.trace));
        HeldAgree(env.frames, places, slots, at.slots, c.slots);
        n := n + 1;
        var w := Convert(v.value, u.ret);
        at := if w.None? then Stuck else Halted(w, at.slots, v.trace);
      }
    }
  }

  lemma ExprStmtRuns(
    u: Unit, g: Blocks, c: Code, s: Stmt, fuel: nat, env: Env, places: Places, regs: Regs, slots: Slots)
    returns (n: nat, at: Config)
    requires s.ExprStmt? && c.Valid() && !Terminated(c) && Aligned(u, c, env.frames, places, slots) && env.frames != []
    requires LowerStmt(u, c, s).Ok? && Covers(g, LowerStmt(u, c, s).code)
    ensures at == Steps(u.cx, g, n, EndOf(c, regs, slots, env.trace))
    ensures Lands(u, c, LowerStmt(u, c, s).code, regs, slots, places, places, fuel,
                  ExecStmt(u.cx, SameRound, u.ret, fuel, env, s), n, at)
  {
    hide Steps, Covers, LowerExpr, EvalExpr, Terminated, Straightforward, Owned, Ready;
    var src := LowerExpr(u, c, s.expr);
    n, at := ExprRuns(u, g, c, s.expr, env.frames, places, regs, slots, env.trace);
    if at.At? {
      StillOpen(u, c, s.expr);
      StraightGrows(c, src.code);
      AlignedLater(u, c, src.code, env.frames, places, slots, at.slots);
    }
  }

  lemma StraightGrows(c: Code, d: Code)
    requires Straightforward(c, d)
    ensures d.names == c.names && d.slots >= c.slots && d.regs >= c.regs && d.loops == c.loops
  {
  }

  /** No expression ends its block. */
  lemma {:induction false} StillOpen(u: Unit, c: Code, e: Expr)
    requires c.Valid() && !Terminated(c) && LowerExpr(u, c, e).Ok?
    ensures !Terminated(LowerExpr(u, c, e).code)
  {
    hide LowerArgs, StartEnum, Fits, StaticType, Resolve, VariantIndex;
  }

  lemma ZeroConverts(enums: Enums, ty: Type)
    requires Zero(enums, ty).Some?
    ensures Convert(Zero(enums, ty).value, ty) == Zero(enums, ty)
    ensures ty != Void
  {
  }

  /** The initial value of a variable, ready to be stored. */
  lemma InitRuns(
    u: Unit, g: Blocks, c: Code, ty: Type, init: Option<Expr>, env: Env, places: Places, regs: Regs, slots: Slots)
    returns (n: nat, at: Config)
    requires c.Valid() && Ready(u, c, env.frames, places, slots) && Zero(u.cx.enums, ty).Some?
    requires var r := LowerInit(u, c, ty, Zero(u.cx.enums, ty).value, init); r.Ok? && Covers(g, r.code)
    ensures at == Steps(u.cx, g, n, EndOf(c, regs, slots, env.trace))
    ensures
      var v := if init.Some? then EvalExpr(u.cx, env.frames, env.trace, init.value)
               else Got(Zero(u.cx.enums, ty).value, env.trace);
      Computes(c, LowerInit(u, c, ty, Zero(u.cx.enums, ty).value, init), regs, slots, v, at)
  {
    hide Steps, LowerExpr, EvalExpr, Covers, Ready, Zero, Fits;
    if init.None? {
      n, at := 0, EndOf(c, regs, slots, env.trace);
      NoSteps(u, g, at);
    } else {
      n, at := ExprRuns(u, g, c, init.value, env.frames, places, regs, slots, env.trace);
    }
  }

  lemma LetRuns(
    u: Unit, g: Blocks, c: Code, s: Stmt, fuel: nat, env: Env, places: Places, regs: Regs, slots: Slots)
    returns (n: nat, at: Config, later: Places)
    requires s.Let? && c.Valid() && Aligned(u, c, env.frames, places, slots) && env.frames != []
    requires LowerStmt(u, c, s).Ok? && Covers(g, LowerStmt(u, c, s).code)
    ensures at == Steps(u.cx, g, n, EndOf(c, regs, slots, env.trace))
    ensures Lands(u, c, LowerStmt(u, c, s).code, regs, slots, places, later, fuel,
                  ExecStmt(u.cx, SameRound, u.ret, fuel, env, s), n, at)
  {
    hide Steps, Covers, Held, NamesMatch, Separate, LowerInit, EvalExpr, Owned, Convert, Zero, Agree, PlacesBelow;
    var ty, slot := s.ty.value, c.slots;
    var zero := Zero(u.cx.enums, ty).value;
    ZeroConverts(u.cx.enums, ty);
    var c0 := NewSlot(c);
    var src := LowerInit(u, c0, ty, zero, s.init);
    var i := Store(slot, ty, src.value);
    var d := LowerStmt(u, c, s).code;
    later := Declare(places, s.name, Entry(slot, ty));
    CoversNames(g, Emit(src.code, i), d);
    CoversStraight(g, src.code, Emit(src.code, i));
    BelowMore(places, c.slots, c0.slots);
    n, at := InitRuns(u, g, c0, ty, s.init, env, places, regs, slots);
    var v := if s.init.Some? then EvalExpr(u.cx, env.frames, env.trace, s.init.value) else Got(zero, env.trace);
    if v.Got? {
      var w := Convert(v.value, ty);
      EmitRuns(u, g, src.code, i, at.regs, at.slots, v.trace);
      StepsAdd(u.cx, g, n, 1, EndOf(c, regs, slots, env.trace));
      n := n + 1;
      if w.None? {
        at := Stuck;
      } else {
        var mid := at;
        at := EndOf(d, mid.regs, mid.slots[slot := w.value], v.trace);
        LetLands(u, c, src.code, d, env, places, regs, slots, mid, s.name, ty, w.value, v.trace, fuel, n, at);
      }
    }
  }

  lemma BelowMore(places: Places, n: nat, m: nat)
    requires PlacesBelow(places, n) && n <= m
    ensures PlacesBelow(places, m)
  {
  }

  lemma LetLands(
    u: Unit, c: Code, mid: Code, d: Code, env: Env, places: Places, regs: Regs, slots: Slots, before: Config,
    name: string, ty: Type, v: Value, trace: seq<Event>, fuel: nat, n: nat, at: Config)
    requires d.Valid() && mid.Valid() && Aligned(u, c, env.frames, places, slots) && env.frames != []
    requires before.At? && Agree(regs, before.regs, c.regs) && Agree(slots, before.slots, c.slots + 1)
    requires mid.slots > c.slots && mid.names == c.names && Typed(v, ty) && ty != Void
    requires d.names == c.names[name := Entry(c.slots, ty)] && d.slots == mid.slots
    requires d.blocks[d.cur] != [] && !IsJump(d.blocks[d.cur][|d.blocks[d.cur]| - 1])
    requires at == EndOf(d, before.regs, before.slots[c.slots := v], trace)
    ensures Lands(u, c, d, regs, slots, places, Declare(places, name, Entry(c.slots, ty)), fuel,
                  Ran(Env(Declare(env.frames, name, v), trace), Normal), n, at)
  {
    hide Held, NamesMatch, Separate, Owned;
    HeldAgree(env.frames, places, slots, before.slots, c.slots);
    DeclareAligned(u, c, d, env.frames, places, before.slots, name, ty, v, c.slots);
    OwnedDeclared(places, name, Entry(c.slots, ty), c.slots);
  }

  lemma AssignRuns(
    u: Unit, g: Blocks, c: Code, s: Stmt, fuel: nat, env: Env, places: Places, regs: Regs, slots: Slots)
    returns (n: nat, at: Config)
    requires s.Assign? && c.Valid() && Aligned(u, c, env.frames, places, slots) && env.frames != []
    requires LowerStmt(u, c, s).Ok? && Covers(g, LowerStmt(u, c, s).code)
    ensures at == Steps(u.cx, g, n, EndOf(c, regs, slots, env.trace))
    ensures Lands(u, c, LowerStmt(u, c, s).code, regs, slots, places, places, fuel,
                  ExecStmt(u.cx, SameRound, u.ret, fuel, env, s), n, at)
  {
    hide Steps, Covers, Held, NamesMatch, Separate, LowerExpr, EvalExpr, Owned, Convert, Fits, Agree, Resolve, Find, PlacesBelow;
    var src := LowerExpr(u, c, s.rhs);
    var entry := Resolve(u, c.names, s.target).value;
    var i := Store(entry.slot, entry.ty, src.value);
    var d := Emit(src.code, i);
    CoversStraight(g, src.code, d);
    TargetPlace(u, c, env.frames, places, slots, s.target);
    var k := Find(env.frames, s.target).value;
    n, at := ExprRuns(u, g, c, s.rhs, env.frames, places, regs, slots, env.trace);
    var v := EvalExpr(u.cx, env.frames, env.trace, s.rhs);
    if v.Got? {
      var w := Convert(v.value, entry.ty);
      EmitRuns(u, g, src.code, i, at.regs, at.slots, v.trace);
      StepsAdd(u.cx, g, n, 1, EndOf(c, regs, slots, env.trace));
      n := n + 1;
      if w.None? {
        at := Stuck;
      } else {
        var mid := at;
        at := EndOf(d, mid.regs, mid.slots[entry.slot := w.value], v.trace);
        AssignLands(u, c, d, env, places, regs, slots, mid, k, s.target, w.value, v.trace, fuel, n, at);
      }
    }
  }

  lemma TargetPlace(u: Unit, c: Code, frames: Frames, places: Places, slots: Slots, x: string)
    requires Aligned(u, c, frames, places, slots) && Resolve(u, c.names, x).Some?
    ensures Find(frames, x).Some? && Find(frames, x).value < |frames| == |places|
    ensures var k := Find(frames, x).value;
      x in frames[k] && x in places[k] && places[k][x] == Resolve(u, c.names, x).value
      && TypeOfValue(frames[k][x]) == places[k][x].ty
  {
    hide Separate, PlacesBelow;
    assert Resolve(u, c.names, x) == Lookup(places, x);
    HeldNames(frames, places, slots);
    FindSame(frames, places, x);
    var k := Find(frames, x).value;
    assert FrameHeld(frames[k], places[k], slots);
  }

  lemma AssignLands(
    u: Unit, c: Code, d: Code, env: Env, places: Places, regs: Regs, slots: Slots, before: Config,
    k: nat, x: string, v: Value, trace: seq<Event>, fuel: nat, n: nat, at: Config)
    requires d.Valid() && Aligned(u, c, env.frames, places, slots) && env.frames != []
    requires before.At? && Agree(regs, before.regs, c.regs) && Agree(slots, before.slots, c.slots)
    requires d.slots >= c.slots && d.names == c.names
    requires k < |places| == |env.frames| && x in places[k] && Typed(v, places[k][x].ty)
    requires d.blocks[d.cur] != [] && !IsJump(d.blocks[d.cur][|d.blocks[d.cur]| - 1])
    requires at == EndOf(d, before.regs, before.slots[places[k][x].slot := v], trace)
    ensures Lands(u, c, d, regs, slots, places, places, fuel, Ran(Env(Update(env.frames, k, x, v), trace), Normal), n, at)
  {
    hide Held, NamesMatch, Separate;
    HeldAgree(env.frames, places, slots, before.slots, c.slots);
    AssignHeld(env.frames, places, before.slots, k, x, v);
    assert places[k][x].slot in Owned(places);
  }

  lemma LoopJumpRuns(
    u: Unit, g: Blocks, c: Code, s: Stmt, fuel: nat, env: Env, places: Places, regs: Regs, slots: Slots)
    returns (n: nat, at: Config)
    requires (s.Break? || s.Continue?) && c.Valid() && Aligned(u, c, env.frames, places, slots) && env.frames != []
    requires LowerStmt(u, c, s).Ok? && Covers(g, LowerStmt(u, c, s).code)
    ensures at == Steps(u.cx, g, n, EndOf(c, regs, slots, env.trace))
    ensures Lands(u, c, LowerStmt(u, c, s).code, regs, slots, places, places, fuel,
                  ExecStmt(u.cx, SameRound, u.ret, fuel, env, s), n, at)
  {
    hide Steps, Covers, Held, NamesMatch, Separate, Owned;
    var last := c.loops[|c.loops| - 1];
    var target := if s.Break? then last.1 else last.0;
    EmitRuns(u, g, c, Jump(target), regs, slots, env.trace);
    n, at := 1, At(target, 0, regs, slots, env.trace);
  }

  // ---------------------------------------------------------------------------
  // Blocks
  // ---------------------------------------------------------------------------

  /** Control at the start of the block after a compound statement is at the end of its code. */
  lemma ExitsLand(
    u: Unit, c: Code, d: Code, frames: Frames, regs: Regs, slots: Slots, places: Places, fuel: nat, r: Run, n: nat,
    at: Config)
    requires d.Valid() && d.blocks[d.cur] == [] && d.names == c.names && d.slots >= c.slots
    requires Aligned(u, c, frames, places, slots)
    requires Exits(c, d.cur, regs, slots, places, fuel, r, n, at)
    ensures Lands(u, c, d, regs, slots, places, places, fuel, r, n, at)
  {
    hide Held, NamesMatch, Separate, Owned;
  }

  /** The statements of a block, in a scope of their own and a basic block of their own. */
  lemma {:induction false} BranchRuns(
    u: Unit, g: Blocks, c: Code, block: nat, target: nat, b: Block, fuel: nat, env: Env, places: Places, regs: Regs,
    slots: Slots)
    returns (n: nat, at: Config)
    requires c.Valid() && block < |c.blocks| && target < |c.blocks| && c.blocks[block] == []
    requires Aligned(u, c, env.frames, places, slots)
    requires BlockSupported(b) && VariantsDistinct(u.cx.enums)
    requires LowerBranch(u, c, block, target, b).Ok? && Covers(g, LowerBranch(u, c, block, target, b).code)
    ensures at == Steps(u.cx, g, n, At(block, 0, regs, slots, env.trace))
    ensures Exits(c, target, regs, slots, places, fuel, ExecBlock(u.cx, SameRound, u.ret, fuel, env, map[], b), n, at)
    decreases fuel, b, 3
  {
    hide Steps, Covers, LowerStmts, ExecStmts, StmtsSupported, VariantsDistinct, Aligned, Held, Owned;
    OwnedPushed(places);
    var c0 := Open(c, block);
    assert EndOf(c0, regs, slots, env.trace) == At(block, 0, regs, slots, env.trace);
    var inner := Env(env.frames + [map[]], env.trace);
    var d := LowerStmts(u, c0, b.stmts).code;
    var d2 := d.(names := c.names);
    AlignedElsewhere(u, c, c0, env.frames, places, slots);
    PushAligned(u, c0, env.frames, places, slots);
    CoversClose(g, d2, target);
    CoversNames(g, d, d2);
    var later;
    n, at, later := StmtsRun(u, g, c0, b.stmts, fuel, inner, places + [map[]], regs, slots);
    var r := ExecStmts(u.cx, SameRound, u.ret, fuel, inner, b.stmts);
    if r.Ran? {
      LandsLeave(u, c0, d, regs, slots, places, map[], later, fuel, r, n, at);
      if r.signal == Normal {
        EmitRuns(u, g, d2, Jump(target), at.regs, at.slots, r.env.trace);
        StepsAdd(u.cx, g, n, 1, EndOf(c0, regs, slots, env.trace));
        n := n + 1;
        at := At(target, 0, at.regs, at.slots, r.env.trace);
      }
    }
  }

  /** What is known when a scope is closed. */
  lemma LandsLeave(
    u: Unit, c: Code, d: Code, regs: Regs, slots: Slots, places: Places, place: map<string, Entry>, later: Places,
    fuel: nat, r: Run, n: nat, at: Config)
    requires d.Valid() && r.Ran? && Lands(u, c, d, regs, slots, places + [place], later, fuel, r, n, at)
    ensures !at.Stuck? && !at.Trapped? && Held(Pop(r.env.frames), places, at.slots)
    ensures !r.signal.Returned? ==> Left(c, regs, slots, places + [place], at)
  {
    hide NamesMatch, Separate, Owned, Held;
    PopHeld(r.env.frames, later, at.slots);
    assert Pop(places + [place]) == places;
  }

  lemma AlignedElsewhere(u: Unit, c: Code, d: Code, frames: Frames, places: Places, slots: Slots)
    requires Aligned(u, c, frames, places, slots) && d.names == c.names && d.slots == c.slots
    ensures Aligned(u, d, frames, places, slots)
  {
  }

  lemma CoversClose(g: Blocks, c: Code, target: nat)
    requires c.Valid() && Covers(g, Close(c, target))
    ensures Covers(g, c)
  {
    CoversExtends(g, c, Close(c, target), c.cur, c.cur + 1);
  }

  lemma CoversNames(g: Blocks, c: Code, d: Code)
    requires Covers(g, d) && d.blocks == c.blocks
    ensures Covers(g, c)
  {
  }

  /** A run that started with something else. */
  lemma ExitsEarlier(
    c: Code, d: Code, next: nat, regs: Regs, slots: Slots, mid: Config, places: Places, fuel: nat, r: Run, m: nat,
    n: nat, at: Config)
    requires Left(c, regs, slots, places, mid)
    requires d.regs >= c.regs && d.slots >= c.slots && d.loops == c.loops && n >= m
    requires Exits(d, next, mid.regs, mid.slots, places, fuel, r, m, at)
    ensures Exits(c, next, regs, slots, places, fuel, r, n, at)
  {
    hide Held, Owned;
    if at.At? && r.Ran? {
      LeftTrans(c, d, regs, slots, places, mid, at);
    }
  }

  lemma LeftTrans(c: Code, d: Code, regs: Regs, slots: Slots, places: Places, mid: Config, at: Config)
    requires d.regs >= c.regs && d.slots >= c.slots
    requires Left(c, regs, slots, places, mid) && Left(d, mid.regs, mid.slots, places, at)
    ensures Left(c, regs, slots, places, at)
  {
    hide Owned;
    AgreeTrans(regs, mid.regs, at.regs, c.regs, d.regs);
    AgreeOutsideTrans(slots, mid.slots, at.slots, c.slots, d.slots, Owned(places), Owned(places));
  }

  lemma AgreeLeft(c: Code, regs: Regs, slots: Slots, places: Places, at: Config)
    requires at.At? && Agree(regs, at.regs, c.regs) && Agree(slots, at.slots, c.slots)
    ensures Left(c, regs, slots, places, at)
  {
    hide Owned;
  }

  // ---------------------------------------------------------------------------
  // If
  // ---------------------------------------------------------------------------

  /** Where a condition leads. */
  ghost predicate Branched(c: Code, d: Code, regs: Regs, slots: Slots, v: Eval<Value>, thn: nat, els: nat, at: Config) {
    if v.Undefined? || !v.value.Num? || v.value.ty != Bool then at == Stuck
    else
      at.At? && at == At(if v.value.bits == 1 then thn else els, 0, at.regs, at.slots, v.trace)
      && Agree(regs, at.regs, c.regs) && Agree(slots, at.slots, c.slots)
  }

  lemma CondRuns(
    u: Unit, g: Blocks, c: Code, cond: Expr, wide: Code, thn: nat, els: nat, env: Env, places: Places, regs: Regs,
    slots: Slots)
    returns (n: nat, at: Config)
    requires c.Valid() && Ready(u, c, env.frames, places, slots) && LowerCond(u, c, cond).Ok?
    requires var r := LowerCond(u, c, cond);
      wide.Valid() && wide.cur == r.code.cur && Extends(r.code, wide, 0, 0) && Covers(g, Emit(wide, Branch(r.value, thn, els)))
    ensures at == Steps(u.cx, g, n, EndOf(c, regs, slots, env.trace))
    ensures Branched(c, LowerCond(u, c, cond).code, regs, slots, EvalExpr(u.cx, env.frames, env.trace, cond), thn, els, at)
    ensures at.At? ==> n > 0
  {
    hide Steps, Covers, Ready, LowerExpr, EvalExpr, Agree, StaticType;
    var r := LowerExpr(u, c, cond);
    var i := Branch(r.value, thn, els);
    CoversExtends(g, wide, Emit(wide, i), wide.cur, wide.cur + 1);
    CoversExtends(g, r.code, wide, 0, 0);
    n, at := ExprRuns(u, g, c, cond, env.frames, places, regs, slots, env.trace);
    var v := EvalExpr(u.cx, env.frames, env.trace, cond);
    if v.Got? {
      EmitRuns(u, g, wide, i, at.regs, at.slots, v.trace);
      StepsAdd(u.cx, g, n, 1, EndOf(c, regs, slots, env.trace));
      n := n + 1;
      at := Execute(u.cx, i, EndOf(wide, at.regs, at.slots, v.trace));
    }
  }

  lemma {:induction false} IfRuns(
    u: Unit, g: Blocks, c: Code, s: Stmt, fuel: nat, env: Env, places: Places, regs: Regs, slots: Slots)
    returns (n: nat, at: Config)
    requires s.If? && c.Valid() && Aligned(u, c, env.frames, places, slots) && env.frames != []
    requires Supported(s) && VariantsDistinct(u.cx.enums)
    requires LowerIf(u, c, s).Ok? && Covers(g, LowerIf(u, c, s).code)
    ensures at == Steps(u.cx, g, n, EndOf(c, regs, slots, env.trace))
    ensures Exits(c, LowerIf(u, c, s).code.cur, regs, slots, places, fuel, ExecStmt(u.cx, SameRound, u.ret, fuel, env, s), n, at)
    decreases fuel, s, 0
  {
    hide Steps, Covers, LowerIf, LowerCond, LowerBranch, EvalExpr, ExecBlock, VariantsDistinct, Aligned, Held, Owned, Agree, BlockSupported;
    var cond, c2, thn, merge := IfParts(u, g, c, s);
    var thenBlock, c3 := |c.blocks|, thn.code;
    AlignedReady(u, c, env.frames, places, slots);
    var wide := AddBlocks(cond.code, if s.els.Some? then 3 else 2);
    n, at := CondRuns(u, g, c, s.cond, wide, thenBlock, thenBlock + 1, env, places, regs, slots);
    var v := EvalExpr(u.cx, env.frames, env.trace, s.cond);
    if v.Got? && v.value.Num? && v.value.ty == Bool {
      var mid, m := at, n;
      var inner := Env(env.frames, v.trace);
      if v.value.bits == 1 {
        n, at := OneBranchRuns(u, g, c, c2, thenBlock, merge, s.thn, fuel, inner, places, regs, slots, m, mid);
        StepsAdd(u.cx, g, m, n, EndOf(c, regs, slots, env.trace));
        n := m + n;
      } else if s.els.Some? {
        n, at := OneBranchRuns(u, g, c, c3, thenBlock + 1, merge, s.els.value, fuel, inner, places, regs, slots, m, mid);
        StepsAdd(u.cx, g, m, n, EndOf(c, regs, slots, env.trace));
        n := m + n;
      } else {
        ExitsAtOnce(u, c, merge, regs, slots, places, fuel, inner, n, mid);
      }
    }
  }

  lemma {:induction false} OneBranchRuns(
    u: Unit, g: Blocks, c: Code, d: Code, block: nat, target: nat, b: Block, fuel: nat, env: Env, places: Places,
    regs: Regs, slots: Slots, m: nat, mid: Config)
    returns (n: nat, at: Config)
    requires d.Valid() && block < |d.blocks| && target < |d.blocks| && d.blocks[block] == []
    requires Aligned(u, c, env.frames, places, slots)
    requires d.names == c.names && d.slots >= c.slots && d.regs >= c.regs && d.loops == c.loops
    requires mid.At? && mid == At(block, 0, mid.regs, mid.slots, env.trace)
    requires Agree(regs, mid.regs, c.regs) && Agree(slots, mid.slots, c.slots)
    requires BlockSupported(b) && VariantsDistinct(u.cx.enums)
    requires LowerBranch(u, d, block, target, b).Ok? && Covers(g, LowerBranch(u, d, block, target, b).code)
    ensures at == Steps(u.cx, g, n, mid)
    ensures Exits(c, target, regs, slots, places, fuel, ExecBlock(u.cx, SameRound, u.ret, fuel, env, map[], b), m + n, at)
    decreases fuel, b, 4
  {
    hide Steps, Covers, LowerBranch, ExecBlock, VariantsDistinct, Aligned, Held, Owned, Agree, BlockSupported;
    AgreeLeft(c, regs, slots, places, mid);
    AlignedLater(u, c, d, env.frames, places, slots, mid.slots);
    n, at := BranchRuns(u, g, d, block, target, b, fuel, env, places, mid.regs, mid.slots);
    ExitsEarlier(c, d, target, regs, slots, mid, places, fuel, ExecBlock(u.cx, SameRound, u.ret, fuel, env, map[], b), n, m + n, at);
  }

  lemma AlignedReady(u: Unit, c: Code, frames: Frames, places: Places, slots: Slots)
    requires Aligned(u, c, frames, places, slots)
    ensures Ready(u, c, frames, places, slots) && places != [] && |frames| == |places|
  {
  }

  lemma ExitsAtOnce(
    u: Unit, c: Code, next: nat, regs: Regs, slots: Slots, places: Places, fuel: nat, env: Env, n: nat, at: Config)
    requires Aligned(u, c, env.frames, places, slots)
    requires at.At? && at == At(next, 0, at.regs, at.slots, env.trace)
    requires Agree(regs, at.regs, c.regs) && Agree(slots, at.slots, c.slots)
    ensures Exits(c, next, regs, slots, places, fuel, Ran(env, Normal), n, at)
  {
    hide NamesMatch, Separate, Owned, Held;
    HeldAgree(env.frames, places, slots, at.slots, c.slots);
  }

  /** The parts of the code of an if statement. */
  lemma IfParts(u: Unit, g: Blocks, c: Code, s: Stmt)
    returns (cond: Lowered<Operand>, c2: Code, thn: Lowered<()>, merge: nat)
    requires s.If? && c.Valid() && LowerIf(u, c, s).Ok? && Covers(g, LowerIf(u, c, s).code)
    ensures merge == |c.blocks| + if s.els.Some? then 2 else 1
    ensures cond == LowerCond(u, c, s.cond) && cond.Ok? && cond.code.Valid() && Straightforward(c, cond.code)
    ensures c2 == IfHead(cond.code, cond.value, s.els.Some?) && c2.Valid() && Covers(g, c2)
    ensures c2.names == c.names && c2.loops == c.loops && c2.regs >= c.regs && c2.slots >= c.slots
    ensures merge < |c2.blocks| && (forall k | |c.blocks| <= k < |c2.blocks| :: c2.blocks[k] == [])
    ensures thn == LowerBranch(u, c2, |c.blocks|, merge, s.thn) && thn.Ok? && Covers(g, thn.code)
    ensures thn.code.Valid() && Extends(c2, thn.code, |c.blocks|, |c.blocks| + 1) && thn.code.names == c.names
    ensures s.els.Some? ==>
      var els := LowerBranch(u, thn.code, |c.blocks| + 1, merge, s.els.value);
      els.Ok? && Covers(g, els.code)
    ensures LowerIf(u, c, s).code.cur == merge && LowerIf(u, c, s).code.blocks[merge] == []
  {
    hide LowerCond, LowerBranch;
    cond := LowerCond(u, c, s.cond);
    merge := |c.blocks| + if s.els.Some? then 2 else 1;
    c2 := IfHead(cond.code, cond.value, s.els.Some?);
    thn := LowerBranch(u, c2, |c.blocks|, merge, s.thn);
    if s.els.Some? {
      var c4 := LowerBranch(u, thn.code, |c.blocks| + 1, merge, s.els.value).code;
      CoversNames(g, c4, LowerIf(u, c, s).code);
      CoversExtends(g, thn.code, c4, |c.blocks| + 1, |c.blocks| + 2);
    } else {
      CoversNames(g, thn.code, LowerIf(u, c, s).code);
    }
    CoversExtends(g, c2, thn.code, |c.blocks|, |c.blocks| + 1);
  }

  // ---------------------------------------------------------------------------
  // While
  // ---------------------------------------------------------------------------

  lemma Realigned(u: Unit, c: Code, frames: Frames, places: Places, slots: Slots, later: Frames, now: Slots)
    requires Aligned(u, c, frames, places, slots) && Held(later, places, now)
    ensures Aligned(u, c, later, places, now)
  {
    hide Separate, NamesMatch, Held;
  }

  /** The parts of the code of a loop. */
  lemma WhileParts(u: Unit, g: Blocks, c: Code, cond: Expr, body: Block)
    returns (c1: Code, v: Lowered<Operand>, c3: Code)
    requires c.Valid() && LowerWhile(u, c, cond, body).Ok? && Covers(g, LowerWhile(u, c, cond, body).code)
    ensures c1 == Open(Emit(AddBlocks(c, 3), Jump(|c.blocks|)), |c.blocks|) && c1.blocks[|c.blocks|] == []
    ensures c1.Valid() && v == LowerCond(u, c1, cond) && v.Ok?
    ensures c3 == EnterLoop(Emit(v.code, Branch(v.value, |c.blocks| + 1, |c.blocks| + 2)), |c.blocks|, |c.blocks| + 2)
    ensures c3.Valid() && c3.blocks[|c.blocks| + 1] == []
    ensures c3.names == c.names && c3.slots >= c.slots && c3.regs >= c.regs
    ensures LowerBranch(u, c3, |c.blocks| + 1, |c.blocks|, body).Ok?
    ensures Covers(g, LowerBranch(u, c3, |c.blocks| + 1, |c.blocks|, body).code) && Covers(g, c3) && Covers(g, c1)
    ensures Covers(g, Emit(AddBlocks(c, 3), Jump(|c.blocks|)))
    ensures LowerWhile(u, c, cond, body).code.cur == |c.blocks| + 2
    ensures LowerWhile(u, c, cond, body).code.blocks[|c.blocks| + 2] == []
  {
    hide LowerCond, LowerBranch;
    var condBlock := |c.blocks|;
    c1 := Open(Emit(AddBlocks(c, 3), Jump(condBlock)), condBlock);
    v := LowerCond(u, c1, cond);
    c3 := EnterLoop(Emit(v.code, Branch(v.value, condBlock + 1, condBlock + 2)), condBlock, condBlock + 2);
    var c4 := LowerBranch(u, c3, condBlock + 1, condBlock, body).code;
    CoversNames(g, c4, LowerWhile(u, c, cond, body).code);
    CoversExtends(g, c3, c4, condBlock + 1, condBlock + 2);
    CoversNames(g, Emit(v.code, Branch(v.value, condBlock + 1, condBlock + 2)), c3);
    CoversExtends(g, v.code, Emit(v.code, Branch(v.value, condBlock + 1, condBlock + 2)), condBlock, condBlock + 1);
    CoversStraight(g, c1, v.code);
  }

  lemma {:induction false} WhileRuns(
    u: Unit, g: Blocks, c: Code, cond: Expr, body: Block, fuel: nat, env: Env, places: Places, regs: Regs, slots: Slots)
    returns (n: nat, at: Config)
    requires c.Valid() && Aligned(u, c, env.frames, places, slots)
    requires BlockSupported(body) && VariantsDistinct(u.cx.enums)
    requires LowerWhile(u, c, cond, body).Ok? && Covers(g, LowerWhile(u, c, cond, body).code)
    ensures at == Steps(u.cx, g, n, EndOf(c, regs, slots, env.trace))
    ensures Exits(c, |c.blocks| + 2, regs, slots, places, fuel, ExecWhile(u.cx, SameRound, u.ret, fuel, env, cond, body), n, at)
    decreases fuel, body, 5
  {
    hide Steps, Covers, LowerWhile, ExecWhile, VariantsDistinct, Aligned, Held, Owned, BlockSupported;
    WhileEntered(u, g, c, cond, body);
    EnterCondition(u, g, c, regs, slots, env.trace);
    hide Emit, AddBlocks, EndOf;
    var mid := At(|c.blocks|, 0, regs, slots, env.trace);
    var k;
    k, at := RoundsRun(u, g, c, cond, body, fuel, env, places, regs, slots);
    StepsAdd(u.cx, g, 1, k, EndOf(c, regs, slots, env.trace));
    n := 1 + k;
    AgreeLeft(c, regs, slots, places, mid);
    ExitsEarlier(c, c, |c.blocks| + 2, regs, slots, mid, places, fuel,
                 ExecWhile(u.cx, SameRound, u.ret, fuel, env, cond, body), k, n, at);
  }

  lemma WhileEntered(u: Unit, g: Blocks, c: Code, cond: Expr, body: Block)
    requires c.Valid() && LowerWhile(u, c, cond, body).Ok? && Covers(g, LowerWhile(u, c, cond, body).code)
    ensures Covers(g, Emit(AddBlocks(c, 3), Jump(|c.blocks|)))
  {
    hide Covers, LowerWhile;
    var c1, v, c3 := WhileParts(u, g, c, cond, body);
  }

  lemma EnterCondition(u: Unit, g: Blocks, c: Code, regs: Regs, slots: Slots, trace: seq<Event>)
    requires c.Valid() && Covers(g, Emit(AddBlocks(c, 3), Jump(|c.blocks|)))
    ensures Steps(u.cx, g, 1, EndOf(c, regs, slots, trace)) == At(|c.blocks|, 0, regs, slots, trace)
  {
    hide Steps, Covers;
    EmitRuns(u, g, AddBlocks(c, 3), Jump(|c.blocks|), regs, slots, trace);
  }

  /** The rounds of the loop, from the block of the condition on. */
  lemma {:induction false} RoundsRun(
    u: Unit, g: Blocks, c: Code, cond: Expr, body: Block, fuel: nat, env: Env, places: Places, regs: Regs, slots: Slots)
    returns (n: nat, at: Config)
    requires c.Valid() && Aligned(u, c, env.frames, places, slots)
    requires BlockSupported(body) && VariantsDistinct(u.cx.enums)
    requires LowerWhile(u, c, cond, body).Ok? && Covers(g, LowerWhile(u, c, cond, body).code)
    ensures at == Steps(u.cx, g, n, At(|c.blocks|, 0, regs, slots, env.trace))
    ensures Exits(c, |c.blocks| + 2, regs, slots, places, fuel, ExecWhile(u.cx, SameRound, u.ret, fuel, env, cond, body), n, at)
    decreases fuel, body, 4
  {
    hide Steps, Covers, LowerWhile, LowerCond, LowerBranch, EvalExpr, ExecBlock, VariantsDistinct, Aligned, Held, Owned, BlockSupported, Agree;
    var start := At(|c.blocks|, 0, regs, slots, env.trace);
    if fuel == 0 {
      n, at := 0, start;
      NoSteps(u, g, start);
      return;
    }
    var c1, r, c3 := WhileParts(u, g, c, cond, body);
    AlignedLaterSame(u, c, c1, env.frames, places, slots);
    AlignedReady(u, c1, env.frames, places, slots);
    ExtendsSelf(r.code);
    CoversNames(g, Emit(r.code, Branch(r.value, |c.blocks| + 1, |c.blocks| + 2)), c3);
    n, at := CondRuns(u, g, c1, cond, r.code, |c.blocks| + 1, |c.blocks| + 2, env, places, regs, slots);
    var v := EvalExpr(u.cx, env.frames, env.trace, cond);
    if v.Got? && v.value.Num? && v.value.ty == Bool {
      var inner := Env(env.frames, v.trace);
      if v.value.bits != 1 {
        ExitsAtOnce(u, c, |c.blocks| + 2, regs, slots, places, fuel, inner, n, at);
      } else {
        var m, mid := n, at;
        AgreeLeft(c, regs, slots, places, mid);
        var k;
        k, at := RoundRuns(u, g, c, c3, cond, body, fuel, inner, places, slots, mid);
        StepsAdd(u.cx, g, m, k, start);
        n := m + k;
        LoopExits(c, regs, slots, mid, places, fuel, AfterRound(u, fuel, inner, cond, body), m, k, at);
      }
    }
  }

  lemma ExtendsSelf(c: Code)
    ensures Extends(c, c, 0, 0)
  {
  }

  lemma AlignedLaterSame(u: Unit, c: Code, d: Code, frames: Frames, places: Places, slots: Slots)
    requires Aligned(u, c, frames, places, slots) && d.names == c.names && d.slots >= c.slots
    ensures Aligned(u, d, frames, places, slots)
  {
  }

  /** What a loop does once its condition holds. */
  function AfterRound(u: Unit, fuel: nat, env: Env, cond: Expr, body: Block): Run
    requires fuel > 0
  {
    var round := ExecBlock(u.cx, SameRound, u.ret, fuel - 1, env, map[], body);
    if round.Ran? && (round.signal == Normal || round.signal == Continued) then
      ExecWhile(u.cx, SameRound, u.ret, fuel - 1, round.env, cond, body)
    else AfterLoop(round)
  }

  /** A run that took at least one step before this. */
  lemma LoopExits(
    c: Code, regs: Regs, slots: Slots, mid: Config, places: Places, fuel: nat, r: Run, m: nat, k: nat, at: Config)
    requires Left(c, regs, slots, places, mid) && m > 0 && fuel > 0
    requires Exits(c, |c.blocks| + 2, mid.regs, mid.slots, places, fuel - 1, r, k, at)
    ensures Exits(c, |c.blocks| + 2, regs, slots, places, fuel, r, m + k, at)
  {
    hide Held, Owned;
    if at.At? && r.Ran? {
      LeftTrans(c, c, regs, slots, places, mid, at);
    }
  }

  /** One round and the rounds after it. */
  lemma {:induction false} RoundRuns(
    u: Unit, g: Blocks, c: Code, c3: Code, cond: Expr, body: Block, fuel: nat, env: Env, places: Places, slots: Slots,
    from: Config)
    returns (n: nat, at: Config)
    requires fuel > 0 && c.Valid() && Aligned(u, c, env.frames, places, slots)
    requires from.At? && from == At(|c.blocks| + 1, 0, from.regs, from.slots, env.trace) && Agree(slots, from.slots, c.slots)
    requires BlockSupported(body) && VariantsDistinct(u.cx.enums)
    requires LowerWhile(u, c, cond, body).Ok? && Covers(g, LowerWhile(u, c, cond, body).code)
    requires c3.Valid() && |c.blocks| + 2 < |c3.blocks| && c3.blocks[|c.blocks| + 1] == []
    requires c3.names == c.names && c3.slots >= c.slots && c3.regs >= c.regs
    requires c3.loops == c.loops + [(|c.blocks|, |c.blocks| + 2)]
    requires LowerBranch(u, c3, |c.blocks| + 1, |c.blocks|, body).Ok?
    requires Covers(g, LowerBranch(u, c3, |c.blocks| + 1, |c.blocks|, body).code)
    ensures at == Steps(u.cx, g, n, from)
    ensures Exits(c, |c.blocks| + 2, from.regs, from.slots, places, fuel - 1, AfterRound(u, fuel, env, cond, body), n, at)
    decreases fuel, body, 3
  {
    hide Steps, Covers, LowerWhile, LowerBranch, ExecBlock, ExecWhile, VariantsDistinct, Aligned, Held, Owned, BlockSupported, Agree, AgreeOutside;
    AlignedLater(u, c, c3, env.frames, places, slots, from.slots);
    n, at := BranchRuns(u, g, c3, |c.blocks| + 1, |c.blocks|, body, fuel - 1, env, places, from.regs, from.slots);
    var round := ExecBlock(u.cx, SameRound, u.ret, fuel - 1, env, map[], body);
    if round.Ran? && !round.signal.Returned? {
      LeftSmaller(c, c3, from.regs, from.slots, places, at);
      if round.signal != Broke {
        var m, mid := n, at;
        Realigned(u, c, env.frames, places, slots, round.env.frames, mid.slots);
        var k;
        k, at := RoundsRun(u, g, c, cond, body, fuel - 1, round.env, places, mid.regs, mid.slots);
        StepsAdd(u.cx, g, m, k, from);
        n := m + k;
        ExitsEarlier(c, c, |c.blocks| + 2, from.regs, from.slots, mid, places, fuel - 1,
                     ExecWhile(u.cx, SameRound, u.ret, fuel - 1, round.env, cond, body), k, n, at);
      }
    }
  }

  lemma LeftSmaller(c: Code, d: Code, regs: Regs, slots: Slots, places: Places, at: Config)
    requires Left(d, regs, slots, places, at) && c.regs <= d.regs && c.slots <= d.slots
    ensures Left(c, regs, slots, places, at)
  {
    hide Owned;
  }

  // ---------------------------------------------------------------------------
  // For
  // ---------------------------------------------------------------------------

  // The parts of the code of a loop over a range. Its blocks are those of the condition, the body
  // and the rest, in this order after the blocks of `c`; its variable and its counter are in the
  // next two slots.

  function ForLimit(u: Unit, c: Code, iter: Expr): Lowered<Operand>
    requires c.Valid() && IsRange(iter)
  {
    LowerExpr(u, AddBlocks(NewSlot(NewSlot(c)), 3), iter.args[0])
  }

  function ForCond(u: Unit, c: Code, limit: Lowered<Operand>): Code
    requires limit.Ok? && limit.code.Valid()
  {
    Open(ForStart(limit.code, c.slots + 1, |c.blocks|), |c.blocks|)
  }

  function ForHead(u: Unit, c: Code, limit: Lowered<Operand>): Code
    requires limit.Ok? && limit.code.Valid() && |c.blocks| < |limit.code.blocks|
  {
    var test := ForTest(ForCond(u, c, limit), c.slots + 1, limit.value, |c.blocks| + 1, |c.blocks| + 2);
    Open(test, |c.blocks| + 1)
  }

  lemma ForParts(u: Unit, g: Blocks, c: Code, variable: string, iter: Expr, body: Block)
    returns (limit: Lowered<Operand>, head: Code)
    requires c.Valid() && LowerFor(u, c, variable, iter, body).Ok? && Covers(g, LowerFor(u, c, variable, iter, body).code)
    ensures IsRange(iter) && limit == ForLimit(u, c, iter) && limit.Ok? && limit.code.Valid()
    ensures StaticType(u, c.names, iter.args[0]) == Some(Int)
    ensures Straightforward(AddBlocks(NewSlot(NewSlot(c)), 3), limit.code)
    ensures head == ForHead(u, c, limit) && head.Valid() && |c.blocks| + 2 < |head.blocks| && head.blocks[|c.blocks| + 1] == []
    ensures head.cur == |c.blocks| + 1 && head.slots >= c.slots + 2
    ensures ForCond(u, c, limit).blocks[|c.blocks|] == []
    ensures head.names == c.names && head.loops == c.loops && head.regs >= limit.code.regs && head.slots == limit.code.slots
    ensures
      var b := LowerForBody(u, head, variable, c.slots, c.slots + 1, |c.blocks|, body);
      b.Ok? && Covers(g, b.code)
    ensures Covers(g, head) && Covers(g, ForStart(limit.code, c.slots + 1, |c.blocks|)) && Covers(g, limit.code)
    ensures LowerFor(u, c, variable, iter, body).code.cur == |c.blocks| + 2
    ensures LowerFor(u, c, variable, iter, body).code.blocks[|c.blocks| + 2] == []
  {
    hide LowerExpr, LowerForBody, StaticType;
    limit := ForLimit(u, c, iter);
    head := ForHead(u, c, limit);
    var cond := ForCond(u, c, limit);
    var start := ForStart(limit.code, c.slots + 1, |c.blocks|);
    var test := ForTest(cond, c.slots + 1, limit.value, |c.blocks| + 1, |c.blocks| + 2);
    var b := LowerForBody(u, head, variable, c.slots, c.slots + 1, |c.blocks|, body);
    CoversNames(g, b.code, LowerFor(u, c, variable, iter, body).code);
    CoversExtends(g, head, b.code, |c.blocks| + 1, |c.blocks| + 2);
    CoversNames(g, test, head);
    CoversStraight(g, cond, test);
    CoversNames(g, start, cond);
    CoversStraight(g, limit.code, start);
  }

  lemma CountsBelow(i: nat, b: nat)
    requires i < 0x8000_0000 && b < 0x1_0000_0000
    ensures ApplyBinary(Lt, Int, Number(i), Num(Int, b)) == Some(Truth(i < Signed(b)))
    ensures ApplyBinary(Add, Int, Number(i), Number(1)) == Some(Number(i + 1))
    ensures Convert(Number(i), Int) == Some(Number(i)) && Typed(Number(i), Int)
    ensures Convert(Number(i + 1), Int) == Some(Number(i + 1))
    ensures Signed(b) < 0x8000_0000
  {
  }

  /** The test of the counter. */
  lemma ForTestRuns(
    u: Unit, g: Blocks, c: Code, counter: nat, limit: Operand, body: nat, after: nat, regs: Regs, slots: Slots,
    trace: seq<Event>, i: nat, b: nat)
    returns (at: Config)
    requires c.Valid() && Covers(g, ForTest(c, counter, limit, body, after))
    requires i < 0x8000_0000 && b < 0x1_0000_0000
    requires Slot(slots, counter) == Some(Number(i)) && Fetch(regs, limit) == Some(Num(Int, b)) && OperandBelow(limit, c.regs)
    ensures at == Steps(u.cx, g, 3, EndOf(c, regs, slots, trace))
    ensures at.At? && at == At(if i < Signed(b) then body else after, 0, at.regs, slots, trace) && Agree(regs, at.regs, c.regs)
  {
    hide Steps, Covers, ApplyBinary, Signed, Number;
    CountsBelow(i, b);
    var i1, i2 := Load(c.regs, counter), Operate(c.regs + 1, Lt, Int, Reg(c.regs), limit);
    var c1 := EmitNew(c, i1);
    var c2 := EmitNew(c1, i2);
    var i3 := Branch(Reg(c1.regs), body, after);
    CoversStraight(g, c2, Emit(c2, i3));
    CoversStraight(g, c1, c2);
    var at1 := EmitNewRuns(u, g, c, i1, regs, slots, trace, Some(Number(i)), trace);
    var v := Some(Truth(i < Signed(b)));
    var at2 := EmitNewRuns(u, g, c1, i2, at1.regs, slots, trace, v, trace);
    EmitRuns(u, g, c2, i3, at2.regs, slots, trace);
    StepsAdd(u.cx, g, 1, 1, EndOf(c, regs, slots, trace));
    StepsAdd(u.cx, g, 2, 1, EndOf(c, regs, slots, trace));
    at := Execute(u.cx, i3, EndOf(c2, at2.regs, slots, trace));
  }

  /** The variable gets the value of the counter. */
  lemma ForBindRuns(
    u: Unit, g: Blocks, c: Code, variable: string, varSlot: nat, counter: nat, regs: Regs, slots: Slots,
    trace: seq<Event>, i: nat)
    returns (at: Config)
    requires c.Valid() && Covers(g, ForBind(c, variable, varSlot, counter))
    requires i < 0x8000_0000 && Slot(slots, counter) == Some(Number(i))
    ensures at == Steps(u.cx, g, 2, EndOf(c, regs, slots, trace))
    ensures at.At? && Agree(regs, at.regs, c.regs)
    ensures at == EndOf(ForBind(c, variable, varSlot, counter), at.regs, slots[varSlot := Number(i)], trace)
  {
    hide Steps, Covers, Convert, Number;
    CountsBelow(i, 0);
    var i1, i2 := Load(c.regs, counter), Store(varSlot, Int, Reg(c.regs));
    var c1 := EmitNew(c, i1);
    CoversNames(g, Emit(c1, i2), ForBind(c, variable, varSlot, counter));
    CoversStraight(g, c1, Emit(c1, i2));
    var at1 := EmitNewRuns(u, g, c, i1, regs, slots, trace, Some(Number(i)), trace);
    at := EmitKeepRuns(u, g, c1, i2, at1.regs, slots, trace, varSlot, Number(i));
    StepsAdd(u.cx, g, 1, 1, EndOf(c, regs, slots, trace));
  }

  /** The counter is loaded and one is added. */
  lemma AddOneRuns(
    u: Unit, g: Blocks, c: Code, counter: nat, regs: Regs, slots: Slots, trace: seq<Event>, i: nat)
    returns (at: Config)
    requires c.Valid() && i < 0x8000_0000 && Slot(slots, counter) == Some(Number(i))
    requires var c1 := EmitNew(c, Load(c.regs, counter));
      Covers(g, EmitNew(c1, Operate(c1.regs, Add, Int, Reg(c.regs), Const(Number(1)))))
    ensures at == Steps(u.cx, g, 2, EndOf(c, regs, slots, trace))
    ensures
      var c1 := EmitNew(c, Load(c.regs, counter));
      var c2 := EmitNew(c1, Operate(c1.regs, Add, Int, Reg(c.regs), Const(Number(1))));
      at.At? && at == EndOf(c2, at.regs, slots, trace) && Fetch(at.regs, Reg(c1.regs)) == Some(Number(i + 1))
      && Agree(regs, at.regs, c.regs)
  {
    hide Steps, Covers, ApplyBinary, Number;
    CountsBelow(i, 0);
    var i1, i2 := Load(c.regs, counter), Operate(c.regs + 1, Add, Int, Reg(c.regs), Const(Number(1)));
    var c1 := EmitNew(c, i1);
    CoversStraight(g, c1, EmitNew(c1, i2));
    var at1 := EmitNewRuns(u, g, c, i1, regs, slots, trace, Some(Number(i)), trace);
    at := EmitNewRuns(u, g, c1, i2, at1.regs, slots, trace, Some(Number(i + 1)), trace);
    StepsAdd(u.cx, g, 1, 1, EndOf(c, regs, slots, trace));
  }

  /** The counter goes up and the condition comes next. */
  lemma IncrementRuns(
    u: Unit, g: Blocks, c: Code, counter: nat, target: nat, regs: Regs, slots: Slots, trace: seq<Event>, i: nat)
    returns (at: Config)
    requires c.Valid() && Covers(g, Close(Increment(c, counter), target))
    requires i < 0x8000_0000 && Slot(slots, counter) == Some(Number(i))
    ensures at == Steps(u.cx, g, 4, EndOf(c, regs, slots, trace))
    ensures at.At? && at == At(target, 0, at.regs, slots[counter := Number(i + 1)], trace) && Agree(regs, at.regs, c.regs)
  {
    hide Steps, Covers, Convert, Number;
    CountsBelow(i, 0);
    var c1 := EmitNew(c, Load(c.regs, counter));
    var c2 := EmitNew(c1, Operate(c1.regs, Add, Int, Reg(c.regs), Const(Number(1))));
    var i3 := Store(counter, Int, Reg(c1.regs));
    var c3 := Emit(c2, i3);
    CoversStraight(g, c3, Emit(c3, Jump(target)));
    CoversStraight(g, c2, c3);
    var at2 := AddOneRuns(u, g, c, counter, regs, slots, trace, i);
    var at3 := EmitKeepRuns(u, g, c2, i3, at2.regs, slots, trace, counter, Number(i + 1));
    EmitRuns(u, g, c3, Jump(target), at3.regs, at3.slots, trace);
    StepsAdd(u.cx, g, 2, 1, EndOf(c, regs, slots, trace));
    StepsAdd(u.cx, g, 3, 1, EndOf(c, regs, slots, trace));
    at := At(target, 0, at3.regs, at3.slots, trace);
  }

  /** A scope is opened with one variable, in a new slot. */
  lemma PushDeclared(
    u: Unit, c: Code, d: Code, frames: Frames, places: Places, slots: Slots, name: string, ty: Type, v: Value, slot: nat)
    requires Aligned(u, c, frames, places, slots) && slot >= c.slots
    requires d.names == c.names[name := Entry(slot, ty)] && d.slots > slot
    requires Typed(v, ty) && ty != Void
    ensures Aligned(u, d, frames + [map[name := v]], places + [map[name := Entry(slot, ty)]], slots[slot := v])
    ensures forall k | k in Owned(places + [map[name := Entry(slot, ty)]]) :: k in Owned(places) || k == slot
    ensures forall k | k in Owned(places) :: k < c.slots
  {
    hide Held, NamesMatch, Separate;
    PushAligned(u, c, frames, places, slots);
    var frames1: Frames, places1: Places := frames + [map[]], places + [map[]];
    BelowMore(places, c.slots, slot);
    DeclareAligned(u, c, d, frames1, places1, slots, name, ty, v, slot);
    DeclareInEmpty(frames, name, v);
    DeclareInEmpty(places, name, Entry(slot, ty));
    OwnedByOne(places, map[name := Entry(slot, ty)], slot);
  }

  lemma DeclareInEmpty<T>(scopes: seq<map<string, T>>, name: string, v: T)
    ensures Declare(scopes + [map[]], name, v) == scopes + [map[name := v]]
  {
    var empty: map<string, T> := map[];
    assert empty[name := v] == map[name := v];
  }

  lemma OwnedByOne(places: Places, place: map<string, Entry>, slot: nat)
    requires forall x | x in place :: place[x].slot == slot
    ensures forall k | k in Owned(places + [place]) :: k in Owned(places) || k == slot
  {
    var pushed: Places := places + [place];
    forall s | s in Owned(pushed) ensures s in Owned(places) || s == slot {
      var k, x :| 0 <= k < |pushed| && x in pushed[k] && pushed[k][x].slot == s;
      if k < |places| {
        assert pushed[k] == places[k];
      }
    }
  }

  /** What a scope with one new variable leaves alone, seen from outside. */
  lemma LeftOutside(
    c: Code, d: Code, regs: Regs, slots: Slots, places: Places, place: map<string, Entry>, slot: nat, v: Value,
    mid: Config, at: Config)
    requires mid.At? && mid.slots == slots[slot := v] && slot >= c.slots && d.slots > slot && d.regs >= c.regs
    requires Agree(regs, mid.regs, c.regs)
    requires Left(d, mid.regs, mid.slots, places + [place], at)
    requires forall k | k in Owned(places + [place]) :: k in Owned(places) || k == slot
    requires forall k | k in Owned(places) :: k < c.slots
    ensures Left(c, regs, slots, places, at)
    ensures forall k | k in slots && c.slots <= k < d.slots && k != slot :: k in at.slots && at.slots[k] == slots[k]
  {
    hide Owned;
    AgreeTrans(regs, mid.regs, at.regs, c.regs, d.regs);
  }

  /** The code of a loop with its registers in use and itself on the loop stack. */
  function Looped(c: Code, regs: nat): Code {
    EnterLoop(c.(regs := regs), |c.blocks|, |c.blocks| + 2)
  }

  /** A round of a loop over a range. A `continue` of the loop leads to its condition with the
      counter as it was. */
  lemma {:induction false} ForBodyRuns(
    u: Unit, g: Blocks, c: Code, head: Code, variable: string, body: Block, used: nat, fuel: nat, env: Env, i: nat,
    places: Places, regs: Regs, slots: Slots)
    returns (n: nat, at: Config)
    requires c.Valid() && Aligned(u, c, env.frames, places, slots) && i < 0x8000_0000
    requires head.Valid() && head.cur == |c.blocks| + 1 && head.blocks[head.cur] == [] && |c.blocks| + 2 < |head.blocks|
    requires head.names == c.names && head.loops == c.loops && head.regs >= used && head.slots >= c.slots + 2
    requires BlockSupported(body) && VariantsDistinct(u.cx.enums)
    requires var b := LowerForBody(u, head, variable, c.slots, c.slots + 1, |c.blocks|, body); b.Ok? && Covers(g, b.code)
    requires Slot(slots, c.slots + 1) == Some(Number(i))
    ensures at == Steps(u.cx, g, n, At(|c.blocks| + 1, 0, regs, slots, env.trace))
    ensures
      var r := ExecBlock(u.cx, SameRound, u.ret, fuel, env, map[variable := Number(i)], body);
      Exits(Looped(c, used), |c.blocks|, regs, slots, places, fuel, r, n, at)
      && (r.Ran? && r.signal == Normal ==> Slot(at.slots, c.slots + 1) == Some(Number(i + 1)))
      && (r.Ran? && r.signal == Continued ==> Slot(at.slots, c.slots + 1) == Some(Number(i)))
    decreases fuel, body, 3
  {
    hide Steps, Covers, LowerStmts, ExecStmts, StmtsSupported, StmtsContinue, VariantsDistinct, Aligned, Held, Owned, Number, Increment, Agree, ForBind, Lands, Exits;
    var place := map[variable := Entry(c.slots, Int)];
    var inner := Env(env.frames + [map[variable := Number(i)]], env.trace);
    ForBodyCovers(u, g, c, head, variable, body);
    var start := BodyStart(c, head, variable);
    assert start.loops == Looped(c, used).loops;
    var d := LowerStmts(u, start, body.stmts).code;
    var at1 := ForBodyStarts(u, g, c, head, variable, body, used, env, i, places, regs, slots);
    var n2, later;
    n2, at, later := StmtsRun(u, g, start, body.stmts, fuel, inner, places + [place], at1.regs, at1.slots);
    StepsAdd(u.cx, g, 2, n2, EndOf(head, regs, slots, env.trace));
    var r := ExecStmts(u.cx, SameRound, u.ret, fuel, inner, body.stmts);
    var m;
    m, at := ForBodyEnds(u, g, c, d, used, fuel, env, i, place, later, places, regs, slots, r, start, n2, at1, at);
    StepsAdd(u.cx, g, 2 + n2, m, EndOf(head, regs, slots, env.trace));
    n := 2 + n2 + m;
    ExitsMore(Looped(c, used), |c.blocks|, regs, slots, places, fuel, Leave(r), n2 + m, n, at);
  }

  lemma ExitsMore(
    c: Code, next: nat, regs: Regs, slots: Slots, places: Places, fuel: nat, r: Run, m: nat, n: nat, at: Config)
    requires Exits(c, next, regs, slots, places, fuel, r, m, at) && n >= m
    ensures Exits(c, next, regs, slots, places, fuel, r, n, at)
  {
  }

  /** Where the statements of the body start. */
  function BodyStart(c: Code, head: Code, variable: string): Code
    requires head.Valid()
  {
    EnterLoop(ForBind(head, variable, c.slots, c.slots + 1), |c.blocks|, |c.blocks| + 2)
  }

  /** The code of the body is in place. */
  ghost predicate BodyCovered(u: Unit, g: Blocks, c: Code, head: Code, start: Code, body: Block)
    requires c.Valid()
  {
    && start.Valid() && !Terminated(start) && start.regs >= head.regs && start.slots >= head.slots
    && var d := LowerStmts(u, start, body.stmts);
      && d.Ok? && d.code.Valid() && Covers(g, d.code) && d.code.regs >= start.regs && |c.blocks| <= |d.code.blocks|
      && Covers(g, Close(Increment(d.code.(loops := c.loops, names := c.names), c.slots + 1), |c.blocks|))
  }

  lemma ForBodyCovers(u: Unit, g: Blocks, c: Code, head: Code, variable: string, body: Block)
    requires c.Valid() && head.Valid() && |c.blocks| + 2 < |head.blocks| && head.names == c.names && head.loops == c.loops
    requires var b := LowerForBody(u, head, variable, c.slots, c.slots + 1, |c.blocks|, body); b.Ok? && Covers(g, b.code)
    ensures BodyCovered(u, g, c, head, BodyStart(c, head, variable), body)
    ensures Covers(g, ForBind(head, variable, c.slots, c.slots + 1))
  {
    hide LowerStmts, Increment;
    var start := BodyStart(c, head, variable);
    var d := LowerStmts(u, start, body.stmts).code;
    var d2 := d.(loops := c.loops, names := c.names);
    CoversClose(g, Increment(d2, c.slots + 1), |c.blocks|);
    CoversStraight(g, d2, Increment(d2, c.slots + 1));
    CoversNames(g, d, d2);
    CoversExtends(g, start, d, start.cur, start.cur + 1);
    CoversNames(g, ForBind(head, variable, c.slots, c.slots + 1), start);
  }

  /** The loop variable has been set. */
  ghost predicate BodyStarted(
    u: Unit, c: Code, start: Code, variable: string, used: nat, env: Env, i: nat, places: Places, regs: Regs, slots: Slots,
    at: Config)
    requires start.Valid()
  {
    var place := map[variable := Entry(c.slots, Int)];
    && at.At? && at == EndOf(start, at.regs, at.slots, env.trace)
    && at.slots == slots[c.slots := Number(i)] && Agree(regs, at.regs, used)
    && Aligned(u, start, env.frames + [map[variable := Number(i)]], places + [place], at.slots)
    && (forall k | k in Owned(places + [place]) :: k in Owned(places) || k == c.slots)
    && (forall k | k in Owned(places) :: k < c.slots)
  }

  lemma ForBodyStarts(
    u: Unit, g: Blocks, c: Code, head: Code, variable: string, body: Block, used: nat, env: Env, i: nat,
    places: Places, regs: Regs, slots: Slots)
    returns (at: Config)
    requires c.Valid() && Aligned(u, c, env.frames, places, slots) && i < 0x8000_0000
    requires head.Valid() && head.names == c.names && head.regs >= used && head.slots >= c.slots + 2
    requires Covers(g, ForBind(head, variable, c.slots, c.slots + 1)) && BodyStart(c, head, variable).Valid()
    requires Slot(slots, c.slots + 1) == Some(Number(i))
    ensures at == Steps(u.cx, g, 2, EndOf(head, regs, slots, env.trace))
    ensures BodyStarted(u, c, BodyStart(c, head, variable), variable, used, env, i, places, regs, slots, at)
  {
    hide Steps, Covers, Aligned, Held, Owned, Number, Agree;
    at := ForBindRuns(u, g, head, variable, c.slots, c.slots + 1, regs, slots, env.trace, i);
    CountsBelow(i, 0);
    PushDeclared(u, c, BodyStart(c, head, variable), env.frames, places, slots, variable, Int, Number(i), c.slots);
    AgreeFewer(regs, at.regs, used, head.regs);
  }

  lemma AgreeFewer(a: map<nat, Value>, b: map<nat, Value>, n: nat, m: nat)
    requires n <= m && Agree(a, b, m)
    ensures Agree(a, b, n)
  {
  }

  lemma ForBodyEnds(
    u: Unit, g: Blocks, c: Code, d: Code, used: nat, fuel: nat, env: Env, i: nat, place: map<string, Entry>,
    later: Places, places: Places, regs: Regs, slots: Slots, r: Run, start: Code, n: nat, at1: Config, mid: Config)
    returns (m: nat, at: Config)
    requires c.Valid() && Aligned(u, c, env.frames, places, slots) && i < 0x8000_0000
    requires d.Valid() && start.Valid() && start.regs >= used && d.regs >= start.regs
    requires |c.blocks| <= |d.blocks| && start.loops == Looped(c, used).loops && start.slots >= c.slots + 2
    requires Covers(g, Close(Increment(d.(loops := c.loops, names := c.names), c.slots + 1), |c.blocks|))
    requires at1.At? && at1.slots == slots[c.slots := Number(i)] && Agree(regs, at1.regs, used)
    requires forall k | k in Owned(places + [place]) :: k in Owned(places) || k == c.slots
    requires forall k | k in Owned(places) :: k < c.slots
    requires Slot(slots, c.slots + 1) == Some(Number(i))
    requires Lands(u, start, d, at1.regs, at1.slots, places + [place], later, fuel, r, n, mid)
    ensures at == Steps(u.cx, g, m, mid)
    ensures Exits(Looped(c, used), |c.blocks|, regs, slots, places, fuel, Leave(r), n + m, at)
    ensures r.Ran? && r.signal == Normal ==> Slot(at.slots, c.slots + 1) == Some(Number(i + 1))
    ensures r.Ran? && r.signal == Continued ==> Slot(at.slots, c.slots + 1) == Some(Number(i))
  {
    hide Steps, Covers, Aligned, Held, Owned, Number, Increment, Agree, AgreeOutside;
    m, at := 0, mid;
    NoSteps(u, g, mid);
    if r.Ran? {
      LandsLeave(u, start, d, at1.regs, at1.slots, places, place, later, fuel, r, n, mid);
      if !r.signal.Returned? {
        LeftOutside(Looped(c, used), start, regs, slots, places, place, c.slots, Number(i), at1, mid);
        if r.signal == Normal {
          var d2 := d.(loops := c.loops, names := c.names);
          at := IncrementRuns(u, g, d2, c.slots + 1, |c.blocks|, mid.regs, mid.slots, r.env.trace, i);
          m := 4;
          CounterUp(u, c, Looped(c, used), d2, regs, slots, places, env.frames, Pop(r.env.frames), mid, at, Number(i + 1));
        }
      }
    }
  }

  /** Counting up leaves the variables alone. */
  lemma CounterUp(
    u: Unit, c: Code, looped: Code, d: Code, regs: Regs, slots: Slots, places: Places, before: Frames, frames: Frames,
    mid: Config, at: Config, v: Value)
    requires mid.At? && Aligned(u, c, before, places, slots) && Held(frames, places, mid.slots)
    requires looped.slots == c.slots && looped.regs <= d.regs && Left(looped, regs, slots, places, mid)
    requires at.At? && at.slots == mid.slots[c.slots + 1 := v] && Agree(mid.regs, at.regs, d.regs)
    ensures Left(looped, regs, slots, places, at) && Held(frames, places, at.slots)
  {
    hide NamesMatch, Separate, Held, Owned;
    HeldAgree(frames, places, mid.slots, at.slots, c.slots);
    AgreeTrans(regs, mid.regs, at.regs, looped.regs, d.regs);
  }

  /** The rounds of the loop, from the test of the counter on. */
  lemma {:induction false} ForRoundsRun(
    u: Unit, g: Blocks, c: Code, variable: string, iter: Expr, body: Block, fuel: nat, env: Env, i: nat, b: nat,
    places: Places, regs: Regs, slots: Slots)
    returns (n: nat, at: Config)
    requires c.Valid() && Aligned(u, c, env.frames, places, slots) && b < 0x1_0000_0000
    requires i < 0x8000_0000 && (i == 0 || i <= Signed(b))
    requires BlockSupported(body) && VariantsDistinct(u.cx.enums)
    requires LowerFor(u, c, variable, iter, body).Ok? && Covers(g, LowerFor(u, c, variable, iter, body).code)
    requires Slot(slots, c.slots + 1) == Some(Number(i))
    requires IsRange(iter) && ForLimit(u, c, iter).Ok?
    requires var limit := ForLimit(u, c, iter);
      Fetch(regs, limit.value) == Some(Num(Int, b)) && OperandBelow(limit.value, limit.code.regs)
    ensures at == Steps(u.cx, g, n, At(|c.blocks|, 0, regs, slots, env.trace))
    ensures
      var base := c.(regs := ForLimit(u, c, iter).code.regs);
      Exits(base, |c.blocks| + 2, regs, slots, places, fuel,
            ExecFor(u.cx, SameRound, u.ret, fuel, env, i, Signed(b), variable, body), n, at)
    decreases fuel, body, 4
  {
    hide Steps, Covers, LowerFor, LowerForBody, ForLimit, ForTest, ExecBlock, VariantsDistinct, Aligned, Held, Owned,
      BlockSupported, Agree, Number, Signed;
    var start := At(|c.blocks|, 0, regs, slots, env.trace);
    if fuel == 0 {
      n, at := 0, start;
      NoSteps(u, g, start);
      return;
    }
    var limit, head := ForParts(u, g, c, variable, iter, body);
    var base := c.(regs := limit.code.regs);
    var cond := ForCond(u, c, limit);
    CoversNames(g, ForTest(cond, c.slots + 1, limit.value, |c.blocks| + 1, |c.blocks| + 2), head);
    at := ForTestRuns(u, g, cond, c.slots + 1, limit.value, |c.blocks| + 1, |c.blocks| + 2, regs, slots, env.trace, i, b);
    n := 3;
    if i >= Signed(b) {
      AlignedElsewhere(u, c, base, env.frames, places, slots);
      AgreeSelf(slots, c.slots);
      ExitsAtOnce(u, base, |c.blocks| + 2, regs, slots, places, fuel, env, n, at);
    } else {
      var mid := at;
      AgreeSelf(slots, c.slots);
      AgreeLeft(base, regs, slots, places, mid);
      var k;
      k, at := ForRoundRuns(u, g, c, variable, iter, body, limit.code.regs, limit.value, fuel, env, i, b, places, mid.regs, slots, regs);
      StepsAdd(u.cx, g, 3, k, start);
      n := 3 + k;
      LoopExits(base, regs, slots, mid, places, fuel, AfterForRound(u, fuel, env, i, Signed(b), variable, body), 3, k, at);
    }
  }

  /** What a loop over a range does once the counter is below the limit. */
  function AfterForRound(u: Unit, fuel: nat, env: Env, i: nat, limit: int, variable: string, body: Block): Run
    requires fuel > 0
  {
    var round := ExecBlock(u.cx, SameRound, u.ret, fuel - 1, env, map[variable := Number(i)], body);
    if round.Ran? && (round.signal == Normal || round.signal == Continued) then
      ExecFor(u.cx, SameRound, u.ret, fuel - 1, round.env, if round.signal == Normal then i + 1 else i, limit, variable, body)
    else AfterLoop(round)
  }

  /** One round and the rounds after it. */
  lemma {:induction false} ForRoundRuns(
    u: Unit, g: Blocks, c: Code, variable: string, iter: Expr, body: Block, used: nat, limit: Operand,
    fuel: nat, env: Env, i: nat, b: nat, places: Places, regs: Regs, slots: Slots, first: Regs)
    returns (n: nat, at: Config)
    requires fuel > 0 && c.Valid() && Aligned(u, c, env.frames, places, slots) && b < 0x1_0000_0000 && i < Signed(b)
    requires BlockSupported(body) && VariantsDistinct(u.cx.enums)
    requires LowerFor(u, c, variable, iter, body).Ok? && Covers(g, LowerFor(u, c, variable, iter, body).code)
    requires IsRange(iter) && ForLimit(u, c, iter).Ok? && ForLimit(u, c, iter).code.regs == used && ForLimit(u, c, iter).value == limit
    requires Slot(slots, c.slots + 1) == Some(Number(i))
    requires Fetch(first, limit) == Some(Num(Int, b)) && OperandBelow(limit, used) && Agree(first, regs, used)
    ensures at == Steps(u.cx, g, n, At(|c.blocks| + 1, 0, regs, slots, env.trace))
    ensures Exits(c.(regs := used), |c.blocks| + 2, regs, slots, places, fuel - 1,
                  AfterForRound(u, fuel, env, i, Signed(b), variable, body), n, at)
    decreases fuel, body, 3
  {
    hide Steps, Covers, LowerFor, LowerForBody, ForLimit, ExecBlock, ExecFor, VariantsDistinct, Aligned, Held, Owned,
      BlockSupported, Number, Signed, Agree, AgreeOutside, Exits, Left;
    CountsBelow(0, b);
    n, at := OneForRound(u, g, c, variable, iter, body, used, fuel - 1, env, i, places, regs, slots);
    var round := ExecBlock(u.cx, SameRound, u.ret, fuel - 1, env, map[variable := Number(i)], body);
    RoundLeaves(c, used, regs, slots, places, fuel - 1, round, n, at);
    if round.Ran? && (round.signal == Normal || round.signal == Continued) {
      var k;
      var m, mid, next := n, at, if round.signal == Normal then i + 1 else i;
      k, at := ForNextRuns(u, g, c, variable, iter, body, used, limit, fuel - 1, env.frames, round.env, next, b, places, regs, slots, first, mid, m);
      StepsAdd(u.cx, g, m, k, At(|c.blocks| + 1, 0, regs, slots, env.trace));
      n := m + k;
    }
  }

  lemma {:induction false} OneForRound(
    u: Unit, g: Blocks, c: Code, variable: string, iter: Expr, body: Block, used: nat, fuel: nat, env: Env, i: nat,
    places: Places, regs: Regs, slots: Slots)
    returns (n: nat, at: Config)
    requires c.Valid() && Aligned(u, c, env.frames, places, slots) && i < 0x8000_0000
    requires BlockSupported(body) && VariantsDistinct(u.cx.enums)
    requires LowerFor(u, c, variable, iter, body).Ok? && Covers(g, LowerFor(u, c, variable, iter, body).code)
    requires IsRange(iter) && ForLimit(u, c, iter).Ok? && ForLimit(u, c, iter).code.regs == used
    requires Slot(slots, c.slots + 1) == Some(Number(i))
    ensures at == Steps(u.cx, g, n, At(|c.blocks| + 1, 0, regs, slots, env.trace))
    ensures
      var r := ExecBlock(u.cx, SameRound, u.ret, fuel, env, map[variable := Number(i)], body);
      Exits(Looped(c, used), |c.blocks|, regs, slots, places, fuel, r, n, at)
      && (r.Ran? && r.signal == Normal ==> Slot(at.slots, c.slots + 1) == Some(Number(i + 1)))
      && (r.Ran? && r.signal == Continued ==> Slot(at.slots, c.slots + 1) == Some(Number(i)))
    decreases fuel, body, 4
  {
    hide Steps, Covers, LowerFor, LowerForBody, ForLimit, ExecBlock, VariantsDistinct, Aligned,
      BlockSupported, Number, Exits, ForCond, ForHead, Straightforward, Looped;
    var limit, head := ForParts(u, g, c, variable, iter, body);
    n, at := ForBodyRuns(u, g, c, head, variable, body, used, fuel, env, i, places, regs, slots);
  }

  /** After a round, control is at the condition again or past the loop. */
  lemma RoundLeaves(
    c: Code, used: nat, regs: Regs, slots: Slots, places: Places, fuel: nat, r: Run, n: nat, at: Config)
    requires Exits(Looped(c, used), |c.blocks|, regs, slots, places, fuel, r, n, at)
    ensures r.Ran? && (r.signal == Normal || r.signal == Continued) ==>
      at.At? && at == At(|c.blocks|, 0, at.regs, at.slots, r.env.trace) && Held(r.env.frames, places, at.slots)
      && Left(c.(regs := used), regs, slots, places, at)
    ensures !(r.Ran? && (r.signal == Normal || r.signal == Continued)) ==>
      Exits(c.(regs := used), |c.blocks| + 2, regs, slots, places, fuel, AfterLoop(r), n, at)
  {
    hide Held, Owned;
  }

  lemma {:induction false} ForNextRuns(
    u: Unit, g: Blocks, c: Code, variable: string, iter: Expr, body: Block, used: nat, limit: Operand, fuel: nat,
    before: Frames, env: Env, i: nat, b: nat, places: Places, regs: Regs, slots: Slots, first: Regs, mid: Config, m: nat)
    returns (k: nat, at: Config)
    requires c.Valid() && Aligned(u, c, before, places, slots) && b < 0x1_0000_0000 && i <= Signed(b) && i < 0x8000_0000
    requires BlockSupported(body) && VariantsDistinct(u.cx.enums)
    requires LowerFor(u, c, variable, iter, body).Ok? && Covers(g, LowerFor(u, c, variable, iter, body).code)
    requires IsRange(iter) && ForLimit(u, c, iter).Ok? && ForLimit(u, c, iter).code.regs == used && ForLimit(u, c, iter).value == limit
    requires mid.At? && mid == At(|c.blocks|, 0, mid.regs, mid.slots, env.trace)
    requires Held(env.frames, places, mid.slots) && Left(c.(regs := used), regs, slots, places, mid)
    requires Slot(mid.slots, c.slots + 1) == Some(Number(i))
    requires Fetch(first, limit) == Some(Num(Int, b)) && OperandBelow(limit, used) && Agree(first, regs, used)
    ensures at == Steps(u.cx, g, k, mid)
    ensures Exits(c.(regs := used), |c.blocks| + 2, regs, slots, places, fuel,
                  ExecFor(u.cx, SameRound, u.ret, fuel, env, i, Signed(b), variable, body), m + k, at)
    decreases fuel, body, 5
  {
    hide Steps, Covers, LowerFor, ForLimit, ExecFor, VariantsDistinct, Aligned, Held, Owned,
      BlockSupported, Number, Signed, Agree, AgreeOutside;
    var base := c.(regs := used);
    Realigned(u, c, before, places, slots, env.frames, mid.slots);
    AgreeTrans(first, regs, mid.regs, used, used);
    FetchAgree(limit, first, mid.regs, used);
    k, at := ForRoundsRun(u, g, c, variable, iter, body, fuel, env, i, b, places, mid.regs, mid.slots);
    ExitsEarlier(base, base, |c.blocks| + 2, regs, slots, mid, places, fuel,
                 ExecFor(u.cx, SameRound, u.ret, fuel, env, i, Signed(b), variable, body), k, m + k, at);
  }

  lemma {:induction false} ForRuns(
    u: Unit, g: Blocks, c: Code, s: Stmt, fuel: nat, env: Env, places: Places, regs: Regs, slots: Slots)
    returns (n: nat, at: Config)
    requires s.For? && c.Valid() && Aligned(u, c, env.frames, places, slots) && env.frames != []
    requires Supported(s) && VariantsDistinct(u.cx.enums)
    requires LowerFor(u, c, s.variable, s.iter, s.body).Ok? && Covers(g, LowerFor(u, c, s.variable, s.iter, s.body).code)
    ensures at == Steps(u.cx, g, n, EndOf(c, regs, slots, env.trace))
    ensures Exits(c, |c.blocks| + 2, regs, slots, places, fuel, ExecStmt(u.cx, SameRound, u.ret, fuel, env, s), n, at)
    decreases fuel, s, 0
  {
    hide Steps, Covers, LowerExpr, LowerFor, LowerForBody, EvalExpr, ExecFor, VariantsDistinct, Aligned, Held, Owned,
      BlockSupported, Agree, Number, Signed;
    var limit, head := ForParts(u, g, c, s.variable, s.iter, s.body);
    var c0 := AddBlocks(NewSlot(NewSlot(c)), 3);
    AlignedLaterSame(u, c, c0, env.frames, places, slots);
    AlignedReady(u, c0, env.frames, places, slots);
    n, at := ExprRuns(u, g, c0, s.iter.args[0], env.frames, places, regs, slots, env.trace);
    var v := EvalExpr(u.cx, env.frames, env.trace, s.iter.args[0]);
    if v.Got? {
      var mid, m := at, n;
      var b := LimitValue(u, c, s, env, places, slots, v);
      var zero := Number(0);
      var later := mid.slots[c.slots + 1 := zero];
      StartRuns(u, g, limit.code, c.slots + 1, |c.blocks|, mid.regs, mid.slots, v.trace);
      StepsAdd(u.cx, g, m, 2, EndOf(c0, regs, slots, env.trace));
      AgreeFewer(slots, mid.slots, c.slots, c0.slots);
      StartAligned(u, c, env.frames, places, slots, mid.slots, zero);
      var inner := Env(env.frames, v.trace);
      var start := At(|c.blocks|, 0, mid.regs, later, v.trace);
      var k;
      k, at := ForRoundsRun(u, g, c, s.variable, s.iter, s.body, fuel, inner, 0, b, places, mid.regs, later);
      StepsAdd(u.cx, g, m + 2, k, EndOf(c0, regs, slots, env.trace));
      n := m + 2 + k;
      AgreeLeft(c, regs, slots, places, start);
      ExitsEarlier(c, c.(regs := limit.code.regs), |c.blocks| + 2, regs, slots, start, places, fuel,
                   ExecFor(u.cx, SameRound, u.ret, fuel, inner, 0, Signed(b), s.variable, s.body), k, n, at);
    }
  }

  /** The limit is a number of type int. */
  lemma LimitValue(u: Unit, c: Code, s: Stmt, env: Env, places: Places, slots: Slots, v: Eval<Value>) returns (b: nat)
    requires s.For? && c.Valid() && Aligned(u, c, env.frames, places, slots)
    requires IsRange(s.iter) && StaticType(u, c.names, s.iter.args[0]) == Some(Int)
    requires v == EvalExpr(u.cx, env.frames, env.trace, s.iter.args[0]) && v.Got?
    ensures v.value == Num(Int, b) && b < 0x1_0000_0000
  {
    hide Held, NamesMatch, Separate, StaticType, EvalExpr;
    StaticTypeSound(u, c.names, s.iter.args[0], env.frames, places, slots, env.trace);
    b := v.value.bits;
  }

  lemma StartRuns(u: Unit, g: Blocks, c: Code, counter: nat, target: nat, regs: Regs, slots: Slots, trace: seq<Event>)
    requires c.Valid() && Covers(g, ForStart(c, counter, target))
    ensures Steps(u.cx, g, 2, EndOf(c, regs, slots, trace)) == At(target, 0, regs, slots[counter := Number(0)], trace)
  {
    hide Steps, Covers;
    CountsBelow(0, 0);
    var i1 := Store(counter, Int, Const(Number(0)));
    var c1 := Emit(c, i1);
    CoversStraight(g, c1, Emit(c1, Jump(target)));
    var at1 := EmitKeepRuns(u, g, c, i1, regs, slots, trace, counter, Number(0));
    EmitRuns(u, g, c1, Jump(target), regs, at1.slots, trace);
    StepsAdd(u.cx, g, 1, 1, EndOf(c, regs, slots, trace));
  }

  lemma StartAligned(u: Unit, c: Code, frames: Frames, places: Places, slots: Slots, mid: Slots, v: Value)
    requires Aligned(u, c, frames, places, slots) && Agree(slots, mid, c.slots)
    ensures Aligned(u, c, frames, places, mid[c.slots + 1 := v]) && Agree(slots, mid[c.slots + 1 := v], c.slots)
  {
    hide Held, NamesMatch, Separate;
    HeldAgree(frames, places, slots, mid[c.slots + 1 := v], c.slots);
  }

  // ---------------------------------------------------------------------------
  // Switch
  // ---------------------------------------------------------------------------

  /** The jump table leads to the first arm that matches. */
  lemma {:induction false} CaseSelects(variants: seq<EnumVariant>, arms: seq<Arm>, first: nat, tag: nat)
    requires WildcardLast(arms) && DistinctNames(variants) && SwitchCases(variants, arms, first).Some?
    ensures
      var index := SelectArm(variants, arms, tag);
      Case(SwitchCases(variants, arms, first).value, tag, Otherwise(arms, first))
        == first + if index.Some? then index.value else |arms|
    ensures SelectArm(variants, arms, tag).None? ==> WildcardIndex(arms).None?
    decreases |arms|
  {
    if arms != [] && !arms[0].pattern.Wildcard? {
      CaseSelects(variants, arms[1..], first + 1, tag);
      var t := VariantIndex(variants, arms[0].pattern.variant).value;
      var rest := SwitchCases(variants, arms[1..], first + 1).value;
      assert ([(t, first)] + rest)[1..] == rest;
    }
  }

  /** The blocks of the arms are still empty, and the trap is in place. */
  lemma SwitchHeadBlocks(c: Code, v: Operand, ty: Type, arms: seq<Arm>, cases: seq<(nat, nat)>)
    requires c.Valid()
    ensures
      var d := SwitchHead(c, v, ty, arms, cases);
      && d.loops == c.loops && d.regs == c.regs + 1 && d.slots == c.slots + 1
      && (forall k | |c.blocks| <= k < |c.blocks| + 1 + |arms| :: d.blocks[k] == [])
      && (WildcardIndex(arms).None? ==>
            |d.blocks| > |c.blocks| + 1 + |arms| && d.blocks[|c.blocks| + 1 + |arms|] == [Trap])
  {
    hide WildcardIndex, SwitchLoad, SwitchJump;
  }

  lemma SwitchHeadCovers(g: Blocks, c: Code, v: Operand, ty: Type, arms: seq<Arm>, cases: seq<(nat, nat)>)
    requires c.Valid() && Covers(g, SwitchHead(c, v, ty, arms, cases))
    ensures Covers(g, SwitchJump(SwitchLoad(c, v, ty), Reg(c.regs), arms, cases)) && Covers(g, SwitchLoad(c, v, ty))
  {
    hide Covers, WildcardIndex, SwitchJump, SwitchLoad, Otherwise;
    var load := SwitchLoad(c, v, ty);
    var jump := SwitchJump(load, Reg(c.regs), arms, cases);
    var invalid := Otherwise(arms, |c.blocks| + 1);
    if WildcardIndex(arms).None? {
      CoversExtends(g, jump, SwitchHead(c, v, ty, arms, cases), invalid, invalid + 1);
    }
    CoversExtends(g, load, jump, load.cur, load.cur + 1);
  }

  lemma SwitchLoadRuns(
    u: Unit, g: Blocks, c: Code, v: Operand, regs: Regs, slots: Slots, trace: seq<Event>, value: Value)
    returns (at: Config)
    requires c.Valid() && value.EnumVal? && Fetch(regs, v) == Some(value)
    requires Covers(g, SwitchLoad(c, v, Named(value.enum)))
    ensures at == Steps(u.cx, g, 2, EndOf(c, regs, slots, trace))
    ensures at.At? && Agree(regs, at.regs, c.regs) && Fetch(at.regs, Reg(c.regs)) == Some(Num(Int, value.tag))
    ensures at == EndOf(SwitchLoad(c, v, Named(value.enum)), at.regs, slots[c.slots := value], trace)
  {
    hide Steps, Covers;
    var i1, i2 := Store(c.slots, Named(value.enum), v), LoadTag(c.regs, c.slots);
    var c1 := Emit(NewSlot(c), i1);
    CoversStraight(g, c1, EmitNew(c1, i2));
    var at1 := EmitKeepRuns(u, g, NewSlot(c), i1, regs, slots, trace, c.slots, value);
    at := EmitNewRuns(u, g, c1, i2, regs, at1.slots, trace, Some(Num(Int, value.tag)), trace);
    StepsAdd(u.cx, g, 1, 1, EndOf(c, regs, slots, trace));
  }

  lemma SwitchJumpRuns(
    u: Unit, g: Blocks, c: Code, tag: Operand, arms: seq<Arm>, cases: seq<(nat, nat)>, regs: Regs, slots: Slots,
    trace: seq<Event>, n: nat)
    requires c.Valid() && Fetch(regs, tag) == Some(Num(Int, n)) && Covers(g, SwitchJump(c, tag, arms, cases))
    ensures Steps(u.cx, g, 1, EndOf(c, regs, slots, trace))
         == At(Case(cases, n, Otherwise(arms, |c.blocks| + 1)), 0, regs, slots, trace)
  {
    hide Steps, Covers, WildcardIndex, Case, Otherwise;
    var wide := AddBlocks(c, if WildcardIndex(arms).Some? then 1 + |arms| else 2 + |arms|);
    EmitRuns(u, g, wide, Dispatch(tag, Otherwise(arms, |c.blocks| + 1), cases), regs, slots, trace);
  }

  /** The value is stored and its tag looked up in the jump table. */
  lemma SwitchHeadRuns(
    u: Unit, g: Blocks, c: Code, v: Operand, arms: seq<Arm>, cases: seq<(nat, nat)>, regs: Regs, slots: Slots,
    trace: seq<Event>, value: Value)
    returns (at: Config)
    requires c.Valid() && value.EnumVal? && Fetch(regs, v) == Some(value)
    requires Covers(g, SwitchHead(c, v, Named(value.enum), arms, cases))
    ensures at == Steps(u.cx, g, 3, EndOf(c, regs, slots, trace))
    ensures at.At? && Agree(regs, at.regs, c.regs)
    ensures at == At(Case(cases, value.tag, Otherwise(arms, |c.blocks| + 1)), 0, at.regs, slots[c.slots := value], trace)
  {
    hide Steps, Covers, Case, Otherwise, SwitchLoad, SwitchJump, SwitchHead;
    var ty := Named(value.enum);
    SwitchHeadCovers(g, c, v, ty, arms, cases);
    at := SwitchLoadRuns(u, g, c, v, regs, slots, trace, value);
    SwitchJumpRuns(u, g, SwitchLoad(c, v, ty), Reg(c.regs), arms, cases, at.regs, at.slots, trace, value.tag);
    StepsAdd(u.cx, g, 2, 1, EndOf(c, regs, slots, trace));
    at := At(Case(cases, value.tag, Otherwise(arms, |c.blocks| + 1)), 0, at.regs, at.slots, trace);
  }

  /** What is known when the scope of an arm is open. */
  ghost predicate Bound(
    u: Unit, c: Code, d: Code, frames: Frames, places: Places, place: map<string, Entry>, scope: map<string, Value>,
    regs: Regs, slots: Slots, trace: seq<Event>, at: Config)
    requires d.Valid()
  {
    && at.At? && at == EndOf(d, at.regs, at.slots, trace) && !Terminated(d)
    && Aligned(u, d, frames + [scope], places + [place], at.slots)
    && Agree(regs, at.regs, c.regs) && Agree(slots, at.slots, c.slots)
    && (forall k | k in Owned(places + [place]) && k < c.slots :: k in Owned(places))
  }

  lemma PayloadConverts(enums: Enums, v: Value, ty: Type)
    requires PayloadOf(enums, v, ty).Some?
    ensures Convert(PayloadOf(enums, v, ty).value, ty) == PayloadOf(enums, v, ty)
    ensures Typed(PayloadOf(enums, v, ty).value, ty)
  {
  }

  lemma BindingRuns(
    u: Unit, g: Blocks, c: Code, variants: seq<EnumVariant>, storage: nat, p: Pattern, env: Env, places: Places,
    regs: Regs, slots: Slots, value: Value)
    returns (n: nat, at: Config, place: map<string, Entry>)
    requires c.Valid() && c.blocks[c.cur] == [] && Aligned(u, c, env.frames, places, slots)
    requires value.EnumVal? && value.enum in u.cx.enums && variants == u.cx.enums[value.enum]
    requires Slot(slots, storage) == Some(value)
    requires LowerBinding(u, c, variants, storage, p).Ok? && Covers(g, LowerBinding(u, c, variants, storage, p).code)
    ensures at == Steps(u.cx, g, n, EndOf(c, regs, slots, env.trace))
    ensures
      var d := LowerBinding(u, c, variants, storage, p).code;
      var scope := ArmScope(u.cx, p, value);
      if scope.None? then at == Stuck
      else Bound(u, c, d, env.frames, places, place, scope.value, regs, slots, env.trace, at)
  {
    hide Steps, Covers, Aligned, Owned, VariantIndex, PayloadOf, Zero, Agree;
    if p.Wildcard? || p.binding.None? {
      n, at, place := 0, EndOf(c, regs, slots, env.trace), map[];
      NoSteps(u, g, at);
      PushAligned(u, c, env.frames, places, slots);
      OwnedPushed(places);
      AgreeSelf(regs, c.regs);
      AgreeSelf(slots, c.slots);
    } else {
      var ty := variants[VariantIndex(variants, p.variant).value].payload.value;
      place := map[p.binding.value := Entry(c.slots, ty)];
      var c1 := EmitNew(c, LoadPayload(c.regs, storage, ty));
      CoversNames(g, Emit(NewSlot(c1), Store(c1.slots, ty, Reg(c.regs))), LowerBinding(u, c, variants, storage, p).code);
      n, at := BoundRuns(u, g, c, storage, p.binding.value, ty, env, places, regs, slots, value);
    }
  }

  lemma BoundRuns(
    u: Unit, g: Blocks, c: Code, storage: nat, name: string, ty: Type, env: Env, places: Places, regs: Regs,
    slots: Slots, value: Value)
    returns (n: nat, at: Config)
    requires c.Valid() && Aligned(u, c, env.frames, places, slots) && Zero(u.cx.enums, ty).Some?
    requires Slot(slots, storage) == Some(value)
    requires var c1 := EmitNew(c, LoadPayload(c.regs, storage, ty));
      Covers(g, Emit(NewSlot(c1), Store(c1.slots, ty, Reg(c.regs))))
    ensures at == Steps(u.cx, g, n, EndOf(c, regs, slots, env.trace))
    ensures
      var c1 := EmitNew(c, LoadPayload(c.regs, storage, ty));
      var d := Emit(NewSlot(c1), Store(c1.slots, ty, Reg(c.regs))).(names := c.names[name := Entry(c1.slots, ty)]);
      var payload := PayloadOf(u.cx.enums, value, ty);
      if payload.None? then at == Stuck
      else Bound(u, c, d, env.frames, places, map[name := Entry(c.slots, ty)], map[name := payload.value], regs, slots, env.trace, at)
  {
    hide Steps, Covers, Aligned, Owned, PayloadOf, Zero, Convert;
    var i1, i2 := LoadPayload(c.regs, storage, ty), Store(c.slots, ty, Reg(c.regs));
    var c1 := EmitNew(c, i1);
    var c2 := Emit(NewSlot(c1), i2);
    var d := c2.(names := c.names[name := Entry(c.slots, ty)]);
    CoversStraight(g, NewSlot(c1), c2);
    CoversNames(g, c1, NewSlot(c1));
    var payload := PayloadOf(u.cx.enums, value, ty);
    at := EmitNewRuns(u, g, c, i1, regs, slots, env.trace, payload, env.trace);
    n := 1;
    if payload.Some? {
      PayloadConverts(u.cx.enums, value, ty);
      ZeroConverts(u.cx.enums, ty);
      var at1 := at;
      at := EmitKeepRuns(u, g, NewSlot(c1), i2, at1.regs, slots, env.trace, c.slots, payload.value);
      StepsAdd(u.cx, g, 1, 1, EndOf(c, regs, slots, env.trace));
      n := 2;
      PushDeclared(u, c, d, env.frames, places, slots, name, ty, payload.value, c.slots);
    }
  }

  /** What an arm does, or that its payload cannot be read. */
  function RunArm(u: Unit, fuel: nat, env: Env, arm: Arm, value: Value): Run
    requires value.EnumVal? && value.enum in u.cx.enums
  {
    var scope := ArmScope(u.cx, arm.pattern, value);
    if scope.None? then Wrong(IllTyped) else ExecArm(u.cx, SameRound, u.ret, fuel, env, scope.value, arm)
  }

  lemma ArmCovers(
    u: Unit, g: Blocks, c: Code, variants: seq<EnumVariant>, storage: nat, block: nat, merge: nat, arm: Arm)
    requires c.Valid() && block < |c.blocks| && c.blocks[block] == []
    requires LowerArm(u, c, variants, storage, block, merge, arm).Ok?
    requires Covers(g, LowerArm(u, c, variants, storage, block, merge, arm).code)
    ensures
      var b := LowerBinding(u, Open(c, block), variants, storage, arm.pattern);
      && b.Ok? && Covers(g, b.code) && b.code.Valid() && b.code.regs >= c.regs && b.code.slots >= c.slots && b.code.loops == c.loops
      && var d := LowerStmts(u, b.code, arm.body.stmts);
        && d.Ok? && d.code.Valid() && Covers(g, d.code) && Covers(g, Close(d.code.(names := c.names), merge))
  {
    hide LowerBinding, LowerStmts;
    var b := LowerBinding(u, Open(c, block), variants, storage, arm.pattern).code;
    var d := LowerStmts(u, b, arm.body.stmts).code;
    CoversClose(g, d.(names := c.names), merge);
    CoversNames(g, d, d.(names := c.names));
    CoversExtends(g, b, d, b.cur, b.cur + 1);
  }

  lemma {:induction false} ArmRuns(
    u: Unit, g: Blocks, c: Code, variants: seq<EnumVariant>, storage: nat, block: nat, merge: nat, arm: Arm, fuel: nat,
    env: Env, places: Places, regs: Regs, slots: Slots, value: Value)
    returns (n: nat, at: Config)
    requires c.Valid() && block < |c.blocks| && c.blocks[block] == [] && Aligned(u, c, env.frames, places, slots)
    requires ArmSupported(arm) && VariantsDistinct(u.cx.enums)
    requires value.EnumVal? && value.enum in u.cx.enums && variants == u.cx.enums[value.enum]
    requires Slot(slots, storage) == Some(value)
    requires LowerArm(u, c, variants, storage, block, merge, arm).Ok?
    requires Covers(g, LowerArm(u, c, variants, storage, block, merge, arm).code)
    ensures at == Steps(u.cx, g, n, At(block, 0, regs, slots, env.trace))
    ensures Exits(c, merge, regs, slots, places, fuel, RunArm(u, fuel, env, arm, value), n, at)
    decreases fuel, arm, 3
  {
    hide Steps, Covers, LowerStmts, LowerBinding, ExecStmts, StmtsSupported, VariantsDistinct, Aligned, Held, Owned, ArmScope, LowerArm, Agree;
    ArmCovers(u, g, c, variants, storage, block, merge, arm);
    var c0 := Open(c, block);
    var b := LowerBinding(u, c0, variants, storage, arm.pattern).code;
    var d := LowerStmts(u, b, arm.body.stmts).code;
    AlignedElsewhere(u, c, c0, env.frames, places, slots);
    var place;
    n, at, place := BindingRuns(u, g, c0, variants, storage, arm.pattern, env, places, regs, slots, value);
    var scope := ArmScope(u.cx, arm.pattern, value);
    if scope.Some? {
      var at1, n2, later, m := at, 0, places, 0;
      var inner := Env(env.frames + [scope.value], env.trace);
      n2, at, later := StmtsRun(u, g, b, arm.body.stmts, fuel, inner, places + [place], at1.regs, at1.slots);
      StepsAdd(u.cx, g, n, n2, EndOf(c0, regs, slots, env.trace));
      var r := ExecStmts(u.cx, SameRound, u.ret, fuel, inner, arm.body.stmts);
      var mid := at;
      m, at := ArmEnds(u, g, c, b, d, merge, places, place, later, regs, slots, fuel, r, n2, at1, mid, env.frames, scope.value, env.trace);
      StepsAdd(u.cx, g, n + n2, m, EndOf(c0, regs, slots, env.trace));
      ExitsMore(c, merge, regs, slots, places, fuel, Leave(r), n2 + m, n + n2 + m, at);
      n := n + n2 + m;
      ArmIsScope(u, fuel, env, scope.value, arm);
    }
  }

  lemma ArmIsScope(u: Unit, fuel: nat, env: Env, scope: map<string, Value>, arm: Arm)
    ensures ExecArm(u.cx, SameRound, u.ret, fuel, env, scope, arm)
         == Leave(ExecStmts(u.cx, SameRound, u.ret, fuel, Env(env.frames + [scope], env.trace), arm.body.stmts))
  {
    hide ExecStmts;
    assert ExecArm(u.cx, SameRound, u.ret, fuel, env, scope, arm) == ExecBlock(u.cx, SameRound, u.ret, fuel, env, scope, arm.body);
  }

  lemma ArmEnds(
    u: Unit, g: Blocks, c: Code, b: Code, d: Code, merge: nat, places: Places, place: map<string, Entry>,
    later: Places, regs: Regs, slots: Slots, fuel: nat, r: Run, n: nat, at1: Config, mid: Config, frames: Frames,
    scope: map<string, Value>, trace: seq<Event>)
    returns (m: nat, at: Config)
    requires c.Valid() && b.Valid() && d.Valid() && b.regs >= c.regs && b.slots >= c.slots && b.loops == c.loops
    requires Bound(u, c, b, frames, places, place, scope, regs, slots, trace, at1)
    requires Lands(u, b, d, at1.regs, at1.slots, places + [place], later, fuel, r, n, mid)
    requires Covers(g, Close(d.(names := c.names), merge))
    ensures at == Steps(u.cx, g, m, mid)
    ensures Exits(c, merge, regs, slots, places, fuel, Leave(r), n + m, at)
  {
    hide Steps, Covers, Aligned, Held, Owned, Agree;
    m, at := 0, mid;
    NoSteps(u, g, mid);
    if r.Ran? {
      LandsLeave(u, b, d, at1.regs, at1.slots, places, place, later, fuel, r, n, mid);
      if !r.signal.Returned? {
        LeftWider(c, b, regs, slots, places, place, at1, mid);
        if r.signal == Normal {
          var d2 := d.(names := c.names);
          EmitRuns(u, g, d2, Jump(merge), mid.regs, mid.slots, r.env.trace);
          m := 1;
          at := At(merge, 0, mid.regs, mid.slots, r.env.trace);
        }
      }
    }
  }

  lemma LeftWider(
    c: Code, d: Code, regs: Regs, slots: Slots, places: Places, place: map<string, Entry>, mid: Config, at: Config)
    requires mid.At? && Agree(regs, mid.regs, c.regs) && Agree(slots, mid.slots, c.slots)
    requires d.regs >= c.regs && d.slots >= c.slots
    requires Left(d, mid.regs, mid.slots, places + [place], at)
    requires forall k | k in Owned(places + [place]) && k < c.slots :: k in Owned(places)
    ensures Left(c, regs, slots, places, at)
  {
    hide Owned;
    AgreeTrans(regs, mid.regs, at.regs, c.regs, d.regs);
  }

  /** The arm with the given number, found in the code of all arms. */
  lemma {:induction false} ArmsRun(
    u: Unit, g: Blocks, c: Code, variants: seq<EnumVariant>, storage: nat, first: nat, merge: nat, arms: seq<Arm>,
    index: nat, fuel: nat, env: Env, places: Places, regs: Regs, slots: Slots, value: Value)
    returns (n: nat, at: Config)
    requires c.Valid() && first + |arms| <= |c.blocks| && (forall k | first <= k < first + |arms| :: c.blocks[k] == [])
    requires Aligned(u, c, env.frames, places, slots) && index < |arms|
    requires ArmsSupported(arms) && VariantsDistinct(u.cx.enums)
    requires value.EnumVal? && value.enum in u.cx.enums && variants == u.cx.enums[value.enum]
    requires Slot(slots, storage) == Some(value)
    requires LowerArms(u, c, variants, storage, first, merge, arms).Ok?
    requires Covers(g, LowerArms(u, c, variants, storage, first, merge, arms).code)
    ensures at == Steps(u.cx, g, n, At(first + index, 0, regs, slots, env.trace))
    ensures Exits(c, merge, regs, slots, places, fuel, RunArm(u, fuel, env, arms[index], value), n, at)
    decreases fuel, arms, index
  {
    hide Steps, Covers, LowerArm, VariantsDistinct, Aligned, ArmSupported, RunArm;
    var c1 := LowerArm(u, c, variants, storage, first, merge, arms[0]).code;
    CoversExtends(g, c1, LowerArms(u, c1, variants, storage, first + 1, merge, arms[1..]).code, first + 1, first + |arms|);
    if index == 0 {
      n, at := ArmRuns(u, g, c, variants, storage, first, merge, arms[0], fuel, env, places, regs, slots, value);
    } else {
      AlignedLaterSame(u, c, c1, env.frames, places, slots);
      n, at := ArmsRun(u, g, c1, variants, storage, first + 1, merge, arms[1..], index - 1, fuel, env, places, regs, slots, value);
      ExitsBefore(c, c1, merge, regs, slots, places, fuel, RunArm(u, fuel, env, arms[index], value), n, at);
    }
  }

  lemma ExitsBefore(
    c: Code, d: Code, next: nat, regs: Regs, slots: Slots, places: Places, fuel: nat, r: Run, n: nat, at: Config)
    requires d.regs >= c.regs && d.slots >= c.slots && d.loops == c.loops
    requires Exits(d, next, regs, slots, places, fuel, r, n, at)
    ensures Exits(c, next, regs, slots, places, fuel, r, n, at)
  {
    hide Held, Owned;
  }

  lemma SwitchParts(u: Unit, g: Blocks, c: Code, s: Stmt)
    returns (enum: string, v: Lowered<Operand>, cases: seq<(nat, nat)>, head: Code)
    requires s.Switch? && c.Valid()
    requires LowerSwitch(u, c, s.scrutinee, s.arms).Ok? && Covers(g, LowerSwitch(u, c, s.scrutinee, s.arms).code)
    ensures StaticType(u, c.names, s.scrutinee) == Some(Named(enum)) && enum in u.cx.enums
    ensures v == LowerExpr(u, c, s.scrutinee) && v.Ok? && v.code.Valid()
    ensures SwitchCases(u.cx.enums[enum], s.arms, |c.blocks| + 1) == Some(cases)
    ensures head == SwitchHead(v.code, v.value, Named(enum), s.arms, cases) && Covers(g, head) && Covers(g, v.code)
    ensures
      var r := LowerArms(u, head, u.cx.enums[enum], v.code.slots, |c.blocks| + 1, |c.blocks|, s.arms);
      r.Ok? && Covers(g, r.code)
    ensures LowerSwitch(u, c, s.scrutinee, s.arms).code.cur == |c.blocks|
    ensures LowerSwitch(u, c, s.scrutinee, s.arms).code.blocks[|c.blocks|] == []
  {
    hide LowerExpr, LowerArms, StaticType, SwitchCases, SwitchHead;
    enum := StaticType(u, c.names, s.scrutinee).value.name;
    v := LowerExpr(u, c, s.scrutinee);
    cases := SwitchCases(u.cx.enums[enum], s.arms, |c.blocks| + 1).value;
    head := SwitchHead(v.code, v.value, Named(enum), s.arms, cases);
    var r := LowerArms(u, head, u.cx.enums[enum], v.code.slots, |c.blocks| + 1, |c.blocks|, s.arms);
    SwitchHeadBlocks(v.code, v.value, Named(enum), s.arms, cases);
    CoversNames(g, r.code, LowerSwitch(u, c, s.scrutinee, s.arms).code);
    CoversExtends(g, head, r.code, |c.blocks| + 1, |c.blocks| + 1 + |s.arms|);
    CoversExtends(g, v.code, head, v.code.cur, v.code.cur + 1);
  }

  lemma {:induction false} SwitchRuns(
    u: Unit, g: Blocks, c: Code, s: Stmt, fuel: nat, env: Env, places: Places, regs: Regs, slots: Slots)
    returns (n: nat, at: Config)
    requires s.Switch? && c.Valid() && Aligned(u, c, env.frames, places, slots) && env.frames != []
    requires Supported(s) && VariantsDistinct(u.cx.enums)
    requires LowerSwitch(u, c, s.scrutinee, s.arms).Ok? && Covers(g, LowerSwitch(u, c, s.scrutinee, s.arms).code)
    ensures at == Steps(u.cx, g, n, EndOf(c, regs, slots, env.trace))
    ensures Exits(c, |c.blocks|, regs, slots, places, fuel, ExecStmt(u.cx, SameRound, u.ret, fuel, env, s), n, at)
    decreases fuel, s, 0
  {
    hide Steps, Covers, LowerExpr, LowerSwitch, EvalExpr, SwitchHead, SwitchCases, SelectArm, Case, ArmScope, ExecArm, Aligned, Held, Owned,
      Agree, ArmsSupported, WildcardLast, Otherwise, StaticType, LowerArms;
    var enum, v, cases, head := SwitchParts(u, g, c, s);
    AlignedReady(u, c, env.frames, places, slots);
    n, at := ExprRuns(u, g, c, s.scrutinee, env.frames, places, regs, slots, env.trace);
    var value := EvalExpr(u.cx, env.frames, env.trace, s.scrutinee);
    if value.Got? {
      ScrutineeTyped(u, c, s, env, places, slots, enum, value);
      var mid, m, k := at, n, 0;
      k, at := SwitchGoesOn(u, g, c, s, fuel, env, places, regs, slots, enum, v, cases, head, mid, value.value, value.trace);
      StepsAdd(u.cx, g, m, k, EndOf(c, regs, slots, env.trace));
      n := m + k;
      AgreeLeft(c, regs, slots, places, mid);
      ExitsEarlier(c, c, |c.blocks|, regs, slots, mid, places, fuel, ExecStmt(u.cx, SameRound, u.ret, fuel, env, s), k, n, at);
    }
  }

  lemma ScrutineeTyped(
    u: Unit, c: Code, s: Stmt, env: Env, places: Places, slots: Slots, enum: string, value: Eval<Value>)
    requires s.Switch? && Aligned(u, c, env.frames, places, slots)
    requires StaticType(u, c.names, s.scrutinee) == Some(Named(enum))
    requires value == EvalExpr(u.cx, env.frames, env.trace, s.scrutinee) && value.Got?
    ensures value.value.EnumVal? && value.value.enum == enum
  {
    hide Held, NamesMatch, Separate, StaticType, EvalExpr;
    StaticTypeSound(u, c.names, s.scrutinee, env.frames, places, slots, env.trace);
  }

  /** From the value of the scrutinee on. */
  lemma {:induction false} SwitchGoesOn(
    u: Unit, g: Blocks, c: Code, s: Stmt, fuel: nat, env: Env, places: Places, regs: Regs, slots: Slots,
    enum: string, v: Lowered<Operand>, cases: seq<(nat, nat)>, head: Code, mid: Config, value: Value, trace: seq<Event>)
    returns (n: nat, at: Config)
    requires s.Switch? && c.Valid() && Aligned(u, c, env.frames, places, slots) && env.frames != []
    requires Supported(s) && VariantsDistinct(u.cx.enums)
    requires v.Ok? && v.code.Valid() && Straightforward(c, v.code) && enum in u.cx.enums
    requires SwitchCases(u.cx.enums[enum], s.arms, |c.blocks| + 1) == Some(cases)
    requires head == SwitchHead(v.code, v.value, Named(enum), s.arms, cases) && Covers(g, head)
    requires var r := LowerArms(u, head, u.cx.enums[enum], v.code.slots, |c.blocks| + 1, |c.blocks|, s.arms);
      r.Ok? && Covers(g, r.code)
    requires mid.At? && mid == EndOf(v.code, mid.regs, mid.slots, trace) && Agree(slots, mid.slots, c.slots)
    requires value.EnumVal? && value.enum == enum && Fetch(mid.regs, v.value) == Some(value)
    requires EvalExpr(u.cx, env.frames, env.trace, s.scrutinee) == Got(value, trace)
    ensures at == Steps(u.cx, g, n, mid)
    ensures Exits(c, |c.blocks|, mid.regs, mid.slots, places, fuel, ExecStmt(u.cx, SameRound, u.ret, fuel, env, s), n, at)
    decreases fuel, s.arms, |s.arms| + 1
  {
    hide Steps, Covers, EvalExpr, SwitchHead, SwitchCases, Case, ArmScope, ExecArm, Aligned, Held, Owned,
      Agree, ArmsSupported, LowerArms, WildcardIndex, LowerExpr;
    var variants := u.cx.enums[enum];
    SwitchHeadBlocks(v.code, v.value, Named(enum), s.arms, cases);
    at := SwitchHeadRuns(u, g, v.code, v.value, s.arms, cases, mid.regs, mid.slots, trace, value);
    CaseSelects(variants, s.arms, |c.blocks| + 1, value.tag);
    n := 3;
    var index := SelectArm(variants, s.arms, value.tag);
    if index.None? {
      TrapRuns(u, g, head, |c.blocks| + 1 + |s.arms|, at);
      StepsAdd(u.cx, g, 3, 1, mid);
      n, at := 4, Trapped;
    } else {
      var at1, k := at, 0;
      var inner := Env(env.frames, trace);
      SwitchAligned(u, c, v.code, head, env.frames, places, slots, mid.slots, value);
      k, at := ArmsRun(u, g, head, variants, v.code.slots, |c.blocks| + 1, |c.blocks|, s.arms, index.value, fuel, inner, places,
                       at1.regs, at1.slots, value);
      StepsAdd(u.cx, g, 3, k, mid);
      n := 3 + k;
      AgreeFewer(mid.regs, at1.regs, c.regs, v.code.regs);
      AgreeLeft(c, mid.regs, mid.slots, places, at1);
      ExitsEarlier(c, head, |c.blocks|, mid.regs, mid.slots, at1, places, fuel,
                   RunArm(u, fuel, inner, s.arms[index.value], value), k, n, at);
    }
  }

  lemma TrapRuns(u: Unit, g: Blocks, c: Code, block: nat, at: Config)
    requires Covers(g, c) && block < |c.blocks| && c.blocks[block] == [Trap]
    requires at.At? && at.block == block && at.index == 0
    ensures Steps(u.cx, g, 1, at) == Trapped
  {
    assert c.blocks[block] <= g[block];
    assert g[block][0] == Trap;
    assert Step(u.cx, g, at) == Trapped;
    assert Steps(u.cx, g, 1, at) == Steps(u.cx, g, 0, Trapped);
  }

  lemma SwitchAligned(
    u: Unit, c: Code, mid: Code, head: Code, frames: Frames, places: Places, slots: Slots, later: Slots, v: Value)
    requires Aligned(u, c, frames, places, slots) && Agree(slots, later, c.slots)
    requires mid.slots >= c.slots && head.names == c.names && head.slots >= c.slots
    ensures Aligned(u, head, frames, places, later[mid.slots := v])
    ensures Agree(later, later[mid.slots := v], c.slots)
  {
    hide Held, NamesMatch, Separate;
    HeldAgree(frames, places, slots, later[mid.slots := v], c.slots);
  }

  // ---------------------------------------------------------------------------
  // All compound statements
  // ---------------------------------------------------------------------------

  lemma {:induction false} IfLands(
    u: Unit, g: Blocks, c: Code, s: Stmt, fuel: nat, env: Env, places: Places, regs: Regs, slots: Slots)
    returns (n: nat, at: Config)
    requires s.If? && c.Valid() && Aligned(u, c, env.frames, places, slots) && env.frames != []
    requires Supported(s) && VariantsDistinct(u.cx.enums)
    requires LowerStmt(u, c, s).Ok? && Covers(g, LowerStmt(u, c, s).code)
    ensures at == Steps(u.cx, g, n, EndOf(c, regs, slots, env.trace))
    ensures Lands(u, c, LowerStmt(u, c, s).code, regs, slots, places, places, fuel,
                  ExecStmt(u.cx, SameRound, u.ret, fuel, env, s), n, at)
    decreases fuel, s, 1
  {
    hide Steps, Covers, LowerIf, LowerWhile, LowerFor, LowerSwitch, ExecStmt, Lands, Exits, VariantsDistinct, Aligned, BlockSupported;
    var cond, c2, thn, merge := IfParts(u, g, c, s);
    n, at := IfRuns(u, g, c, s, fuel, env, places, regs, slots);
    ExitsLand(u, c, LowerStmt(u, c, s).code, env.frames, regs, slots, places, fuel,
              ExecStmt(u.cx, SameRound, u.ret, fuel, env, s), n, at);
  }

  lemma {:induction false} WhileLands(
    u: Unit, g: Blocks, c: Code, s: Stmt, fuel: nat, env: Env, places: Places, regs: Regs, slots: Slots)
    returns (n: nat, at: Config)
    requires s.While? && c.Valid() && Aligned(u, c, env.frames, places, slots) && env.frames != []
    requires Supported(s) && VariantsDistinct(u.cx.enums)
    requires LowerStmt(u, c, s).Ok? && Covers(g, LowerStmt(u, c, s).code)
    ensures at == Steps(u.cx, g, n, EndOf(c, regs, slots, env.trace))
    ensures Lands(u, c, LowerStmt(u, c, s).code, regs, slots, places, places, fuel,
                  ExecStmt(u.cx, SameRound, u.ret, fuel, env, s), n, at)
    decreases fuel, s, 1
  {
    hide Steps, Covers, LowerIf, LowerWhile, LowerFor, LowerSwitch, ExecStmt, Lands, Exits, VariantsDistinct, Aligned, BlockSupported;
    var c1, v, c3 := WhileParts(u, g, c, s.cond, s.body);
    n, at := WhileRuns(u, g, c, s.cond, s.body, fuel, env, places, regs, slots);
    WhileIsLoop(u, fuel, env, s);
    ExitsLand(u, c, LowerStmt(u, c, s).code, env.frames, regs, slots, places, fuel,
              ExecStmt(u.cx, SameRound, u.ret, fuel, env, s), n, at);
  }

  lemma {:induction false} ForLands(
    u: Unit, g: Blocks, c: Code, s: Stmt, fuel: nat, env: Env, places: Places, regs: Regs, slots: Slots)
    returns (n: nat, at: Config)
    requires s.For? && c.Valid() && Aligned(u, c, env.frames, places, slots) && env.frames != []
    requires Supported(s) && VariantsDistinct(u.cx.enums)
    requires LowerStmt(u, c, s).Ok? && Covers(g, LowerStmt(u, c, s).code)
    ensures at == Steps(u.cx, g, n, EndOf(c, regs, slots, env.trace))
    ensures Lands(u, c, LowerStmt(u, c, s).code, regs, slots, places, places, fuel,
                  ExecStmt(u.cx, SameRound, u.ret, fuel, env, s), n, at)
    decreases fuel, s, 1
  {
    hide Steps, Covers, LowerIf, LowerWhile, LowerFor, LowerSwitch, ExecStmt, Lands, Exits, VariantsDistinct, Aligned, BlockSupported;
    var limit, head := ForParts(u, g, c, s.variable, s.iter, s.body);
    n, at := ForRuns(u, g, c, s, fuel, env, places, regs, slots);
    ExitsLand(u, c, LowerStmt(u, c, s).code, env.frames, regs, slots, places, fuel,
              ExecStmt(u.cx, SameRound, u.ret, fuel, env, s), n, at);
  }

  lemma {:induction false} SwitchLands(
    u: Unit, g: Blocks, c: Code, s: Stmt, fuel: nat, env: Env, places: Places, regs: Regs, slots: Slots)
    returns (n: nat, at: Config)
    requires s.Switch? && c.Valid() && Aligned(u, c, env.frames, places, slots) && env.frames != []
    requires Supported(s) && VariantsDistinct(u.cx.enums)
    requires LowerStmt(u, c, s).Ok? && Covers(g, LowerStmt(u, c, s).code)
    ensures at == Steps(u.cx, g, n, EndOf(c, regs, slots, env.trace))
    ensures Lands(u, c, LowerStmt(u, c, s).code, regs, slots, places, places, fuel,
                  ExecStmt(u.cx, SameRound, u.ret, fuel, env, s), n, at)
    decreases fuel, s, 1
  {
    hide Steps, Covers, LowerIf, LowerWhile, LowerFor, LowerSwitch, ExecStmt, Lands, Exits, VariantsDistinct, Aligned, BlockSupported;
    var enum, v, cases, head := SwitchParts(u, g, c, s);
    n, at := SwitchRuns(u, g, c, s, fuel, env, places, regs, slots);
    ExitsLand(u, c, LowerStmt(u, c, s).code, env.frames, regs, slots, places, fuel,
              ExecStmt(u.cx, SameRound, u.ret, fuel, env, s), n, at);
  }

  lemma WhileIsLoop(u: Unit, fuel: nat, env: Env, s: Stmt)
    requires s.While? && env.frames != []
    ensures ExecStmt(u.cx, SameRound, u.ret, fuel, env, s) == ExecWhile(u.cx, SameRound, u.ret, fuel, env, s.cond, s.body)
  {
    hide ExecWhile;
  }

  lemma {:induction false} CompoundRuns(
    u: Unit, g: Blocks, c: Code, s: Stmt, fuel: nat, env: Env, places: Places, regs: Regs, slots: Slots)
    returns (n: nat, at: Config)
    requires !s.Return? && !s.ExprStmt? && !s.Let? && !s.Assign? && !s.Break? && !s.Continue?
    requires c.Valid() && Aligned(u, c, env.frames, places, slots) && env.frames != []
    requires Supported(s) && VariantsDistinct(u.cx.enums)
    requires LowerStmt(u, c, s).Ok? && Covers(g, LowerStmt(u, c, s).code)
    ensures at == Steps(u.cx, g, n, EndOf(c, regs, slots, env.trace))
    ensures Lands(u, c, LowerStmt(u, c, s).code, regs, slots, places, places, fuel,
                  ExecStmt(u.cx, SameRound, u.ret, fuel, env, s), n, at)
    decreases fuel, s, 2
  {
    OnlyCompound(u, c, s);
    hide *;
    if s.If? {
      n, at := IfLands(u, g, c, s, fuel, env, places, regs, slots);
    } else if s.While? {
      n, at := WhileLands(u, g, c, s, fuel, env, places, regs, slots);
    } else if s.For? {
      n, at := ForLands(u, g, c, s, fuel, env, places, regs, slots);
    } else {
      n, at := SwitchLands(u, g, c, s, fuel, env, places, regs, slots);
    }
  }

  lemma OnlyCompound(u: Unit, c: Code, s: Stmt)
    requires !s.Return? && !s.ExprStmt? && !s.Let? && !s.Assign? && !s.Break? && !s.Continue?
    requires c.Valid() && LowerStmt(u, c, s).Ok?
    ensures s.If? || s.While? || s.For? || s.Switch?
  {
    hide LowerIf, LowerWhile, LowerFor, LowerSwitch;
  }
}
