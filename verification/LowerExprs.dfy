/** The code of an expression computes its value. */
module LowerExprs {
  import opened Ast
  import opened Wrappers
  import opened Values
  import opened Graph
  import opened Scopes
  import opened Source
  import opened Lower

  /** For every scope, where its variables are. */
  type Places = seq<map<string, Entry>>

  // ---------------------------------------------------------------------------
  // The frame of the machine and the scopes of the source
  // ---------------------------------------------------------------------------

  predicate FrameHeld(frame: map<string, Value>, place: map<string, Entry>, slots: Slots) {
    frame.Keys == place.Keys &&
    forall x | x in place ::
      place[x].slot in slots && slots[place[x].slot] == frame[x] && Typed(frame[x], place[x].ty) && place[x].ty != Void
  }

  /** Every variable, hidden or not, has its value in its slot. */
  predicate Held(frames: Frames, places: Places, slots: Slots) {
    |frames| == |places| && forall k | 0 <= k < |frames| :: FrameHeld(frames[k], places[k], slots)
  }

  predicate PlacesBelow(places: Places, n: nat) {
    forall k, x | 0 <= k < |places| && x in places[k] :: places[k][x].slot < n
  }

  /** The flat map of names shows what the scopes show. */
  ghost predicate NamesMatch(u: Unit, names: map<string, Entry>, places: Places) {
    forall x: string :: Resolve(u, names, x) == Lookup(places, x)
  }

  predicate Agree(a: map<nat, Value>, b: map<nat, Value>, n: nat) {
    forall k | k in a && k < n :: k in b && b[k] == a[k]
  }

  lemma AgreeTrans(a: map<nat, Value>, b: map<nat, Value>, c: map<nat, Value>, n: nat, m: nat)
    requires n <= m && Agree(a, b, n) && Agree(b, c, m)
    ensures Agree(a, c, n)
  {
  }

  lemma HeldAgree(frames: Frames, places: Places, slots: Slots, later: Slots, n: nat)
    requires Held(frames, places, slots) && PlacesBelow(places, n) && Agree(slots, later, n)
    ensures Held(frames, places, later)
  {
    forall k | 0 <= k < |frames| ensures FrameHeld(frames[k], places[k], later) {
      assert FrameHeld(frames[k], places[k], slots);
    }
  }

  lemma HeldNames(frames: Frames, places: Places, slots: Slots)
    requires Held(frames, places, slots)
    ensures SameNames(frames, places)
  {
    forall k | 0 <= k < |frames| ensures frames[k].Keys == places[k].Keys {
      assert FrameHeld(frames[k], places[k], slots);
    }
  }

  /** A visible variable's place holds its value. */
  lemma HeldLookup(frames: Frames, places: Places, slots: Slots, x: string)
    requires Held(frames, places, slots)
    ensures Lookup(frames, x).Some? <==> Lookup(places, x).Some?
    ensures Lookup(places, x).Some? ==>
      var entry := Lookup(places, x).value;
      entry.slot in slots && slots[entry.slot] == Lookup(frames, x).value &&
      Typed(Lookup(frames, x).value, entry.ty) && entry.ty != Void
  {
    HeldNames(frames, places, slots);
    FindSame(frames, places, x);
    var k := Find(places, x);
    if k.Some? {
      assert FrameHeld(frames[k.value], places[k.value], slots);
    }
  }

  // ---------------------------------------------------------------------------
  // Static types
  // ---------------------------------------------------------------------------

  lemma TruthTyped(b: bool)
    ensures Typed(Truth(b), Bool)
  {
  }

  lemma ArithType(op: BinOp, t: Type, a: nat, b: nat)
    requires IntegerWidth(t).Some?
    ensures var r := Arith(op, t, a, b); r.Some? ==> Typed(r.value, if IsArithmetic(op) then t else Bool)
  {
    hide Quotient, Bitwise, ShiftLeft, ShiftRight, Modulus, Signed, Truth;
    TruthTyped(true);
    TruthTyped(false);
  }

  lemma ApplyBinaryType(op: BinOp, t: Type, a: Value, b: Value)
    requires IntegerWidth(t).Some?
    ensures var r := ApplyBinary(op, t, a, b);
      r.Some? ==> Typed(r.value, if IsArithmetic(op) then t else Bool)
  {
    hide Arith, Truth;
    TruthTyped(true);
    TruthTyped(false);
    if a.Num? && b.Num? {
      ArithType(op, t, a.bits, b.bits);
    }
  }

  lemma ApplyUnaryType(op: UnOp, v: Value)
    ensures var r := ApplyUnary(op, v); r.Some? ==> Typed(r.value, if op == Not then Bool else TypeOfValue(v))
  {
  }

  lemma CommonConcrete(l: Type, r: Type)
    ensures CommonInteger(Concrete(l), Concrete(r)) == CommonInteger(l, r)
    ensures IntegerWidth(CommonInteger(l, r)).Some?
  {
  }

  /** The type found while lowering is the type of the value. */
  lemma {:induction false} StaticTypeSound(u: Unit, names: map<string, Entry>, e: Expr, frames: Frames, places: Places, slots: Slots, trace: seq<Event>)
    requires Held(frames, places, slots) && NamesMatch(u, names, places)
    requires StaticType(u, names, e).Some? && EvalExpr(u.cx, frames, trace, e).Got?
    ensures Typed(EvalExpr(u.cx, frames, trace, e).value, Concrete(StaticType(u, names, e).value))
    decreases e
  {
    hide Held, ApplyBinary, ApplyUnary, CommonInteger, Lookup, Resolve, VariantIndex, EvalArgs, ConvertAll;
    if e.Var? {
      HeldLookup(frames, places, slots, e.name);
      assert Resolve(u, names, e.name) == Lookup(places, e.name);
    } else if e.Binary? {
      var a := EvalExpr(u.cx, frames, trace, e.lhs);
      StaticTypeSound(u, names, e.lhs, frames, places, slots, trace);
      StaticTypeSound(u, names, e.rhs, frames, places, slots, a.trace);
      var b := EvalExpr(u.cx, frames, a.trace, e.rhs);
      var l, r := StaticType(u, names, e.lhs).value, StaticType(u, names, e.rhs).value;
      CommonConcrete(l, r);
      ApplyBinaryType(e.op, CommonInteger(l, r), a.value, b.value);
    } else if e.Unary? {
      var a := EvalExpr(u.cx, frames, trace, e.operand);
      ApplyUnaryType(e.unop, a.value);
      if e.unop != Not {
        StaticTypeSound(u, names, e.operand, frames, places, slots, trace);
      }
    }
  }

  // ---------------------------------------------------------------------------
  // Running emitted code
  // ---------------------------------------------------------------------------

  /** The finished blocks contain the code so far. */
  predicate Covers(g: Blocks, c: Code) {
    |c.blocks| <= |g| && forall b | 0 <= b < |c.blocks| :: c.blocks[b] <= g[b]
  }

  lemma CoversStraight(g: Blocks, c: Code, d: Code)
    requires Covers(g, d) && Straightforward(c, d)
    ensures Covers(g, c)
  {
    forall b | 0 <= b < |c.blocks| ensures c.blocks[b] <= g[b] {
      assert d.blocks[b] <= g[b];
    }
  }

  /** The machine about to run what comes next in the current block. */
  function EndOf(c: Code, regs: Regs, slots: Slots, trace: seq<Event>): Config
    requires c.Valid()
  {
    At(c.cur, |c.blocks[c.cur]|, regs, slots, trace)
  }

  lemma EmitRuns(u: Unit, g: Blocks, c: Code, i: Instr, regs: Regs, slots: Slots, trace: seq<Event>)
    requires c.Valid() && Covers(g, Emit(c, i))
    ensures Steps(u.cx, g, 1, EndOf(c, regs, slots, trace)) == Execute(u.cx, i, EndOf(c, regs, slots, trace))
    ensures |Emit(c, i).blocks[c.cur]| == |c.blocks[c.cur]| + 1
  {
    hide Execute;
    var d := Emit(c, i);
    assert d.blocks[c.cur] <= g[c.cur];
    assert g[c.cur][|c.blocks[c.cur]|] == i;
    var at := EndOf(c, regs, slots, trace);
    assert Step(u.cx, g, at) == Execute(u.cx, i, at);
    assert Steps(u.cx, g, 1, at) == Steps(u.cx, g, 0, Step(u.cx, g, at));
  }

  predicate OperandBelow(o: Operand, n: nat) {
    o.Reg? ==> o.reg < n
  }

  lemma FetchAgree(o: Operand, regs: Regs, later: Regs, n: nat)
    requires OperandBelow(o, n) && Agree(regs, later, n) && Fetch(regs, o).Some?
    ensures Fetch(later, o) == Fetch(regs, o)
  {
  }

  predicate AllBelow(os: seq<Operand>, n: nat) {
    forall i | 0 <= i < |os| :: OperandBelow(os[i], n)
  }

  lemma {:induction false} FetchAllAgree(os: seq<Operand>, regs: Regs, later: Regs, n: nat)
    requires AllBelow(os, n) && Agree(regs, later, n) && FetchAll(regs, os).Some?
    ensures FetchAll(later, os) == FetchAll(regs, os)
    decreases |os|
  {
    if os != [] {
      assert OperandBelow(os[0], n);
      FetchAgree(os[0], regs, later, n);
      FetchAllAgree(os[1..], regs, later, n);
    }
  }

  /** The machine has run the code from `c` to `d` and left older registers and slots alone. */
  predicate Reached(c: Code, d: Code, regs: Regs, slots: Slots, at: Config, trace: seq<Event>)
    requires d.Valid()
  {
    at.At? && at == EndOf(d, at.regs, at.slots, trace) && Agree(regs, at.regs, c.regs) && Agree(slots, at.slots, c.slots)
  }

  lemma ReachedTrans(c: Code, d: Code, e: Code, regs: Regs, slots: Slots, mid: Config, at: Config, trace1: seq<Event>, trace2: seq<Event>)
    requires d.Valid() && e.Valid() && c.regs <= d.regs && c.slots <= d.slots
    requires Reached(c, d, regs, slots, mid, trace1) && Reached(d, e, mid.regs, mid.slots, at, trace2)
    ensures Reached(c, e, regs, slots, at, trace2)
  {
    AgreeTrans(regs, mid.regs, at.regs, c.regs, d.regs);
    AgreeTrans(slots, mid.slots, at.slots, c.slots, d.slots);
  }

  /** What the code of an expression does: it leaves the value in the operand, or gets stuck. */
  predicate Computes(c: Code, r: Lowered<Operand>, regs: Regs, slots: Slots, v: Eval<Value>, at: Config)
    requires r.Ok? && r.code.Valid()
  {
    match v
    case Undefined(_) => at == Stuck
    case Got(value, trace) =>
      Reached(c, r.code, regs, slots, at, trace) && Fetch(at.regs, r.value) == Some(value)
      && OperandBelow(r.value, r.code.regs)
  }

  predicate ComputesAll(c: Code, r: Lowered<seq<Operand>>, regs: Regs, slots: Slots, vs: Eval<seq<Value>>, at: Config)
    requires r.Ok? && r.code.Valid()
  {
    match vs
    case Undefined(_) => at == Stuck
    case Got(values, trace) =>
      Reached(c, r.code, regs, slots, at, trace) && FetchAll(at.regs, r.value) == Some(values)
      && AllBelow(r.value, r.code.regs)
  }

  /** An instruction that fills the next register. */
  lemma EmitNewRuns(u: Unit, g: Blocks, c: Code, i: Instr, regs: Regs, slots: Slots, trace: seq<Event>, v: Option<Value>, after: seq<Event>)
    returns (at: Config)
    requires c.Valid() && Covers(g, EmitNew(c, i))
    requires Execute(u.cx, i, EndOf(c, regs, slots, trace)) == Put(EndOf(c, regs, slots, after), c.regs, v)
    ensures at == Steps(u.cx, g, 1, EndOf(c, regs, slots, trace))
    ensures Computes(c, Ok(EmitNew(c, i), Reg(c.regs)), regs, slots, Give(v, after, IllTyped), at)
    ensures v.Some? ==> at == EndOf(EmitNew(c, i), regs[c.regs := v.value], slots, after)
  {
    hide Execute;
    assert Covers(g, Emit(c, i));
    EmitRuns(u, g, c, i, regs, slots, trace);
    at := Put(EndOf(c, regs, slots, after), c.regs, v);
  }

  /** An instruction that fills a slot which no variable has yet. */
  lemma EmitKeepRuns(u: Unit, g: Blocks, c: Code, i: Instr, regs: Regs, slots: Slots, trace: seq<Event>, slot: nat, v: Value)
    returns (at: Config)
    requires c.Valid() && Covers(g, Emit(c, i))
    requires Execute(u.cx, i, EndOf(c, regs, slots, trace)) == Keep(EndOf(c, regs, slots, trace), slot, Some(v))
    ensures at == Steps(u.cx, g, 1, EndOf(c, regs, slots, trace))
    ensures at == EndOf(Emit(c, i), regs, slots[slot := v], trace)
  {
    hide Execute;
    EmitRuns(u, g, c, i, regs, slots, trace);
    at := Keep(EndOf(c, regs, slots, trace), slot, Some(v));
  }

  // ---------------------------------------------------------------------------
  // Expressions
  // ---------------------------------------------------------------------------

  /** The stack frame matches the scopes when an expression starts. */
  ghost predicate Ready(u: Unit, c: Code, frames: Frames, places: Places, slots: Slots) {
    Held(frames, places, slots) && NamesMatch(u, c.names, places) && PlacesBelow(places, c.slots)
  }

  lemma ReadyLater(u: Unit, c: Code, d: Code, frames: Frames, places: Places, slots: Slots, later: Slots)
    requires Ready(u, c, frames, places, slots)
    requires d.names == c.names && d.slots >= c.slots && Agree(slots, later, c.slots)
    ensures Ready(u, d, frames, places, later)
  {
    hide Held, NamesMatch;
    HeldAgree(frames, places, slots, later, c.slots);
  }

  /** Running the code of an expression has the effect and the result of evaluating it. */
  lemma {:induction false} ExprRuns(
    u: Unit, g: Blocks, c: Code, e: Expr, frames: Frames, places: Places, regs: Regs, slots: Slots, trace: seq<Event>)
    returns (n: nat, at: Config)
    requires c.Valid() && Ready(u, c, frames, places, slots)
    requires LowerExpr(u, c, e).Ok? && Covers(g, LowerExpr(u, c, e).code)
    ensures at == Steps(u.cx, g, n, EndOf(c, regs, slots, trace))
    ensures Computes(c, LowerExpr(u, c, e), regs, slots, EvalExpr(u.cx, frames, trace, e), at)
    decreases e, 1
  {
    hide Ready, Steps, LowerEnum, LowerArgs, EvalArgs, ApplyBinary, ApplyUnary;
    if e.IntLit? || e.BoolLit? {
      n, at := 0, EndOf(c, regs, slots, trace);
      NoSteps(u, g, at);
    } else if e.Var? {
      n, at := VarRuns(u, g, c, e, frames, places, regs, slots, trace);
    } else if e.Binary? {
      n, at := BinaryRuns(u, g, c, e, frames, places, regs, slots, trace);
    } else if e.Unary? {
      n, at := UnaryRuns(u, g, c, e, frames, places, regs, slots, trace);
    } else if e.Call? {
      n, at := CallRuns(u, g, c, e, frames, places, regs, slots, trace);
    } else {
      n, at := EnumRuns(u, g, c, e, frames, places, regs, slots, trace);
    }
  }

  lemma NoSteps(u: Unit, g: Blocks, at: Config)
    ensures Steps(u.cx, g, 0, at) == at
  {
  }

  lemma VarRuns(
    u: Unit, g: Blocks, c: Code, e: Expr, frames: Frames, places: Places, regs: Regs, slots: Slots, trace: seq<Event>)
    returns (n: nat, at: Config)
    requires c.Valid() && e.Var? && Ready(u, c, frames, places, slots)
    requires LowerExpr(u, c, e).Ok? && Covers(g, LowerExpr(u, c, e).code)
    ensures at == Steps(u.cx, g, n, EndOf(c, regs, slots, trace))
    ensures Computes(c, LowerExpr(u, c, e), regs, slots, EvalExpr(u.cx, frames, trace, e), at)
  {
    hide Held, Steps, Covers, Computes;
    HeldLookup(frames, places, slots, e.name);
    assert Resolve(u, c.names, e.name) == Lookup(places, e.name);
    var entry := Resolve(u, c.names, e.name).value;
    n := 1;
    at := EmitNewRuns(u, g, c, Load(c.regs, entry.slot), regs, slots, trace, Slot(slots, entry.slot), trace);
  }

  lemma BinaryCode(u: Unit, c: Code, e: Expr)
    requires c.Valid() && e.Binary? && LowerExpr(u, c, e).Ok?
    ensures StaticType(u, c.names, e.lhs).Some? && StaticType(u, c.names, e.rhs).Some?
    ensures LowerExpr(u, c, e.lhs).Ok? && LowerExpr(u, LowerExpr(u, c, e.lhs).code, e.rhs).Ok?
    ensures
      var l, r := StaticType(u, c.names, e.lhs).value, StaticType(u, c.names, e.rhs).value;
      var left := LowerExpr(u, c, e.lhs); var right := LowerExpr(u, left.code, e.rhs);
      var i := Operate(right.code.regs, e.op, CommonInteger(l, r), left.value, right.value);
      LowerExpr(u, c, e) == Ok(EmitNew(right.code, i), Reg(right.code.regs))
  {
    hide StaticType, CommonInteger;
  }

  lemma {:induction false} BinaryRuns(
    u: Unit, g: Blocks, c: Code, e: Expr, frames: Frames, places: Places, regs: Regs, slots: Slots, trace: seq<Event>)
    returns (n: nat, at: Config)
    requires c.Valid() && e.Binary? && Ready(u, c, frames, places, slots)
    requires LowerExpr(u, c, e).Ok? && Covers(g, LowerExpr(u, c, e).code)
    ensures at == Steps(u.cx, g, n, EndOf(c, regs, slots, trace))
    ensures Computes(c, LowerExpr(u, c, e), regs, slots, EvalExpr(u.cx, frames, trace, e), at)
    decreases e, 0
  {
    hide Ready, Steps, ApplyBinary, CommonInteger, StaticType, Covers, Agree, LowerExpr;
    BinaryCode(u, c, e);
    var l, r := StaticType(u, c.names, e.lhs).value, StaticType(u, c.names, e.rhs).value;
    var left := LowerExpr(u, c, e.lhs);
    var right := LowerExpr(u, left.code, e.rhs);
    var i := Operate(right.code.regs, e.op, CommonInteger(l, r), left.value, right.value);
    CoversStraight(g, right.code, EmitNew(right.code, i));
    CoversStraight(g, left.code, right.code);
    var a, b := EvalExpr(u.cx, frames, trace, e.lhs), Eval<Value>.Undefined(IllTyped);
    var n1, at1 := ExprRuns(u, g, c, e.lhs, frames, places, regs, slots, trace);
    if a.Undefined? {
      n, at := n1, at1;
      return;
    }
    ReadyLater(u, c, left.code, frames, places, slots, at1.slots);
    b := EvalExpr(u.cx, frames, a.trace, e.rhs);
    var n2, at2 := ExprRuns(u, g, left.code, e.rhs, frames, places, at1.regs, at1.slots, a.trace);
    StepsAdd(u.cx, g, n1, n2, EndOf(c, regs, slots, trace));
    n, at := n1 + n2, at2;
    if b.Got? {
      ReachedTrans(c, left.code, right.code, regs, slots, at1, at2, a.trace, b.trace);
      OperandsTyped(u, c, e, frames, places, slots, trace, a, b);
      FetchAgree(left.value, at1.regs, at2.regs, left.code.regs);
      var v := ApplyBinary(e.op, CommonInteger(l, r), a.value, b.value);
      at := LastStep(u, g, c, right.code, i, v, b.trace, regs, slots, at2);
      StepsAdd(u.cx, g, n, 1, EndOf(c, regs, slots, trace));
      n := n + 1;
    }
  }

  /** The instruction that computes the result, after the code of the operands. */
  lemma LastStep(
    u: Unit, g: Blocks, c: Code, d: Code, i: Instr, v: Option<Value>, trace: seq<Event>, regs: Regs, slots: Slots,
    mid: Config)
    returns (at: Config)
    requires d.Valid() && c.regs <= d.regs && c.slots <= d.slots && Reached(c, d, regs, slots, mid, trace)
    requires Covers(g, EmitNew(d, i)) && Execute(u.cx, i, mid) == Put(mid, d.regs, v)
    ensures at == Steps(u.cx, g, 1, mid)
    ensures Computes(c, Ok(EmitNew(d, i), Reg(d.regs)), regs, slots, Give(v, trace, IllTyped), at)
  {
    hide Execute, Steps, Covers, Agree;
    at := EmitNewRuns(u, g, d, i, mid.regs, mid.slots, trace, v, trace);
    if v.Some? {
      ReachedTrans(c, d, EmitNew(d, i), regs, slots, mid, at, trace, trace);
    }
  }

  /** The type of the operation is chosen as the values would have it. */
  lemma OperandsTyped(
    u: Unit, c: Code, e: Expr, frames: Frames, places: Places, slots: Slots, trace: seq<Event>,
    a: Eval<Value>, b: Eval<Value>)
    requires e.Binary? && Ready(u, c, frames, places, slots)
    requires StaticType(u, c.names, e.lhs).Some? && StaticType(u, c.names, e.rhs).Some?
    requires a == EvalExpr(u.cx, frames, trace, e.lhs) && a.Got?
    requires b == EvalExpr(u.cx, frames, a.trace, e.rhs) && b.Got?
    ensures CommonInteger(TypeOfValue(a.value), TypeOfValue(b.value))
         == CommonInteger(StaticType(u, c.names, e.lhs).value, StaticType(u, c.names, e.rhs).value)
  {
    hide Held, NamesMatch, CommonInteger, EvalExpr, StaticType;
    StaticTypeSound(u, c.names, e.lhs, frames, places, slots, trace);
    StaticTypeSound(u, c.names, e.rhs, frames, places, slots, a.trace);
    CommonConcrete(StaticType(u, c.names, e.lhs).value, StaticType(u, c.names, e.rhs).value);
  }

  lemma {:induction false} UnaryRuns(
    u: Unit, g: Blocks, c: Code, e: Expr, frames: Frames, places: Places, regs: Regs, slots: Slots, trace: seq<Event>)
    returns (n: nat, at: Config)
    requires c.Valid() && e.Unary? && Ready(u, c, frames, places, slots)
    requires LowerExpr(u, c, e).Ok? && Covers(g, LowerExpr(u, c, e).code)
    ensures at == Steps(u.cx, g, n, EndOf(c, regs, slots, trace))
    ensures Computes(c, LowerExpr(u, c, e), regs, slots, EvalExpr(u.cx, frames, trace, e), at)
    decreases e, 0
  {
    hide Ready, Steps, ApplyUnary, Covers, Agree;
    var src := LowerExpr(u, c, e.operand);
    var i := OperateOne(src.code.regs, e.unop, src.value);
    CoversStraight(g, src.code, EmitNew(src.code, i));
    var a := EvalExpr(u.cx, frames, trace, e.operand);
    n, at := ExprRuns(u, g, c, e.operand, frames, places, regs, slots, trace);
    if a.Got? {
      var n1, at1 := n, at;
      var v := ApplyUnary(e.unop, a.value);
      at := EmitNewRuns(u, g, src.code, i, at1.regs, at1.slots, a.trace, v, a.trace);
      StepsAdd(u.cx, g, n1, 1, EndOf(c, regs, slots, trace));
      n := n1 + 1;
      if v.Some? {
        ReachedTrans(c, src.code, EmitNew(src.code, i), regs, slots, at1, at, a.trace, a.trace);
      }
    }
  }

  lemma {:induction false} ArgsRun(
    u: Unit, g: Blocks, c: Code, es: seq<Expr>, ts: seq<Type>, frames: Frames, places: Places, regs: Regs, slots: Slots,
    trace: seq<Event>)
    returns (n: nat, at: Config)
    requires c.Valid() && Ready(u, c, frames, places, slots)
    requires LowerArgs(u, c, es, ts).Ok? && Covers(g, LowerArgs(u, c, es, ts).code)
    ensures at == Steps(u.cx, g, n, EndOf(c, regs, slots, trace))
    ensures ComputesAll(c, LowerArgs(u, c, es, ts), regs, slots, EvalArgs(u.cx, frames, trace, es), at)
    decreases es, 0
  {
    hide Ready, Steps, Covers, Agree, Fits;
    if es == [] {
      n, at := 0, EndOf(c, regs, slots, trace);
      NoSteps(u, g, at);
      AgreeSelf(regs, c.regs);
      AgreeSelf(slots, c.slots);
      return;
    }
    var first := LowerExpr(u, c, es[0]);
    var rest := LowerArgs(u, first.code, es[1..], ts[1..]);
    CoversStraight(g, first.code, rest.code);
    var a := EvalExpr(u.cx, frames, trace, es[0]);
    n, at := ExprRuns(u, g, c, es[0], frames, places, regs, slots, trace);
    if a.Got? {
      var n1, at1 := n, at;
      ReadyLater(u, c, first.code, frames, places, slots, at1.slots);
      var n2, at2 := ArgsRun(u, g, first.code, es[1..], ts[1..], frames, places, at1.regs, at1.slots, a.trace);
      StepsAdd(u.cx, g, n1, n2, EndOf(c, regs, slots, trace));
      n, at := n1 + n2, at2;
      var b := EvalArgs(u.cx, frames, a.trace, es[1..]);
      if b.Got? {
        ReachedTrans(c, first.code, rest.code, regs, slots, at1, at2, a.trace, b.trace);
        FetchAgree(first.value, at1.regs, at2.regs, first.code.regs);
        FetchCons(at2.regs, first.value, rest.value, rest.code.regs);
      }
    }
  }

  lemma AgreeSelf(a: map<nat, Value>, n: nat)
    ensures Agree(a, a, n)
  {
  }

  lemma FetchCons(regs: Regs, o: Operand, os: seq<Operand>, n: nat)
    requires Fetch(regs, o).Some? && FetchAll(regs, os).Some? && OperandBelow(o, n) && AllBelow(os, n)
    ensures FetchAll(regs, [o] + os) == Some([Fetch(regs, o).value] + FetchAll(regs, os).value)
    ensures AllBelow([o] + os, n)
  {
    assert ([o] + os)[1..] == os;
  }

  lemma {:induction false} CallRuns(
    u: Unit, g: Blocks, c: Code, e: Expr, frames: Frames, places: Places, regs: Regs, slots: Slots, trace: seq<Event>)
    returns (n: nat, at: Config)
    requires c.Valid() && e.Call? && Ready(u, c, frames, places, slots)
    requires LowerExpr(u, c, e).Ok? && Covers(g, LowerExpr(u, c, e).code)
    ensures at == Steps(u.cx, g, n, EndOf(c, regs, slots, trace))
    ensures Computes(c, LowerExpr(u, c, e), regs, slots, EvalExpr(u.cx, frames, trace, e), at)
    decreases e, 0
  {
    hide Ready, Steps, Covers, Agree, LowerArgs, ConvertAll, FetchAll, EvalArgs, Answer;
    var sig := u.cx.signatures[e.callee];
    var args := LowerArgs(u, c, e.args, sig.params);
    var i := Invoke(args.code.regs, e.callee, sig, args.value);
    CoversStraight(g, args.code, EmitNew(args.code, i));
    var vs := EvalArgs(u.cx, frames, trace, e.args);
    n, at := ArgsRun(u, g, c, e.args, sig.params, frames, places, regs, slots, trace);
    if vs.Got? {
      var n1, at1 := n, at;
      StepsAdd(u.cx, g, n1, 1, EndOf(c, regs, slots, trace));
      n := n1 + 1;
      var converted := ConvertAll(vs.value, sig.params);
      if converted.Some? {
        var trace2 := vs.trace + [Event(e.callee, converted.value)];
        var v := Answer(u.cx, sig, trace2);
        at := EmitNewRuns(u, g, args.code, i, at1.regs, at1.slots, vs.trace, v, trace2);
        if v.Some? {
          ReachedTrans(c, args.code, EmitNew(args.code, i), regs, slots, at1, at, vs.trace, trace2);
        }
      } else {
        at := EmitNewRuns(u, g, args.code, i, at1.regs, at1.slots, vs.trace, None, vs.trace);
      }
    }
  }

  lemma StartEnumRuns(
    u: Unit, g: Blocks, c: Code, enum: string, tag: nat, regs: Regs, slots: Slots, trace: seq<Event>)
    returns (at: Config)
    requires c.Valid() && Covers(g, StartEnum(c, enum, tag))
    ensures at == Steps(u.cx, g, 2, EndOf(c, regs, slots, trace))
    ensures at == EndOf(StartEnum(c, enum, tag), regs, slots[c.slots := EnumVal(enum, tag, None)], trace)
    ensures Agree(slots, at.slots, c.slots)
  {
    hide Steps;
    var i1, i2 := Store(c.slots, Named(enum), Const(EnumVal(enum, 0, None))), StoreTag(c.slots, tag);
    var c1 := Emit(NewSlot(c), i1);
    CoversStraight(g, c1, Emit(c1, i2));
    var at1 := EmitKeepRuns(u, g, NewSlot(c), i1, regs, slots, trace, c.slots, EnumVal(enum, 0, None));
    at := EmitKeepRuns(u, g, c1, i2, regs, at1.slots, trace, c.slots, EnumVal(enum, tag, None));
    StepsAdd(u.cx, g, 1, 1, EndOf(c, regs, slots, trace));
    assert at1.slots[c.slots := EnumVal(enum, tag, None)] == slots[c.slots := EnumVal(enum, tag, None)];
  }

  lemma {:induction false} EnumRuns(
    u: Unit, g: Blocks, c: Code, e: Expr, frames: Frames, places: Places, regs: Regs, slots: Slots, trace: seq<Event>)
    returns (n: nat, at: Config)
    requires c.Valid() && e.MethodCall? && Ready(u, c, frames, places, slots)
    requires LowerExpr(u, c, e).Ok? && Covers(g, LowerExpr(u, c, e).code)
    ensures at == Steps(u.cx, g, n, EndOf(c, regs, slots, trace))
    ensures Computes(c, LowerExpr(u, c, e), regs, slots, EvalExpr(u.cx, frames, trace, e), at)
    decreases e, 0
  {
    hide Ready, Steps, Covers, Agree, StartEnum, Fits, VariantIndex;
    var enum := e.receiver.name;
    var tag := VariantIndex(u.cx.enums[enum], e.methodName).value;
    var payload := u.cx.enums[enum][tag].payload;
    var c1 := StartEnum(c, enum, tag);
    if payload.None? {
      var load := Load(c1.regs, c.slots);
      CoversStraight(g, c1, EmitNew(c1, load));
      var at1 := StartEnumRuns(u, g, c, enum, tag, regs, slots, trace);
      var v := EnumVal(enum, tag, None);
      at := EmitNewRuns(u, g, c1, load, regs, at1.slots, trace, Some(v), trace);
      n := 3;
      StepsAdd(u.cx, g, 2, 1, EndOf(c, regs, slots, trace));
      AgreeSelf(regs, c.regs);
      ReachedTrans(c, c1, EmitNew(c1, load), regs, slots, at1, at, trace, trace);
    } else {
      n, at := PayloadRuns(u, g, c, enum, tag, payload.value, e.args[0], frames, places, regs, slots, trace);
    }
  }

  lemma {:induction false} PayloadRuns(
    u: Unit, g: Blocks, c: Code, enum: string, tag: nat, ty: Type, arg: Expr,
    frames: Frames, places: Places, regs: Regs, slots: Slots, trace: seq<Event>)
    returns (n: nat, at: Config)
    requires c.Valid() && Ready(u, c, frames, places, slots)
    requires LowerExpr(u, StartEnum(c, enum, tag), arg).Ok?
    requires var src := LowerExpr(u, StartEnum(c, enum, tag), arg);
      Covers(g, EmitNew(Emit(src.code, StorePayload(c.slots, ty, src.value)), Load(src.code.regs, c.slots)))
    ensures at == Steps(u.cx, g, n, EndOf(c, regs, slots, trace))
    ensures
      var src := LowerExpr(u, StartEnum(c, enum, tag), arg);
      var d := EmitNew(Emit(src.code, StorePayload(c.slots, ty, src.value)), Load(src.code.regs, c.slots));
      var a := EvalExpr(u.cx, frames, trace, arg);
      var v: Eval<Value> :=
        if a.Undefined? || Convert(a.value, ty).None? then Undefined(IllTyped)
        else Got(EnumVal(enum, tag, Some(Convert(a.value, ty).value)), a.trace);
      Computes(c, Ok(d, Reg(src.code.regs)), regs, slots, v, at)
    decreases arg, 2
  {
    hide Ready, Steps, Covers, Agree, StartEnum, LowerExpr, EvalExpr, Convert;
    var c1 := StartEnum(c, enum, tag);
    var src := LowerExpr(u, c1, arg);
    var store, load := StorePayload(c.slots, ty, src.value), Load(src.code.regs, c.slots);
    var c3 := Emit(src.code, store);
    CoversStraight(g, c3, EmitNew(c3, load));
    CoversStraight(g, src.code, c3);
    CoversStraight(g, c1, src.code);
    var at1 := StartEnumRuns(u, g, c, enum, tag, regs, slots, trace);
    AgreeSelf(regs, c.regs);
    ReadyLater(u, c, c1, frames, places, slots, at1.slots);
    var n2, at2 := ExprRuns(u, g, c1, arg, frames, places, regs, at1.slots, trace);
    StepsAdd(u.cx, g, 2, n2, EndOf(c, regs, slots, trace));
    n, at := 2 + n2, at2;
    var a := EvalExpr(u.cx, frames, trace, arg);
    if a.Got? {
      ReachedTrans(c, c1, src.code, regs, slots, at1, at2, trace, a.trace);
      KeepsSlot(at1.slots, at2.slots, c1.slots, c.slots);
      var m, at3 := PayloadStored(u, g, src.code, c.slots, ty, src.value, at2, enum, tag, a.value);
      StepsAdd(u.cx, g, n, m, EndOf(c, regs, slots, trace));
      n, at := n + m, at3;
      if at3.At? {
        AgreeTrans(regs, at2.regs, at.regs, c.regs, src.code.regs);
        AgreeTrans(slots, at2.slots, at.slots, c.slots, c.slots);
      }
    }
  }

  /** The payload goes in beside the tag, and the whole value into a register. */
  lemma PayloadStored(
    u: Unit, g: Blocks, c: Code, slot: nat, ty: Type, src: Operand, from: Config, enum: string, tag: nat, a: Value)
    returns (n: nat, at: Config)
    requires c.Valid() && from.At? && from == EndOf(c, from.regs, from.slots, from.trace)
    requires Covers(g, EmitNew(Emit(c, StorePayload(slot, ty, src)), Load(c.regs, slot)))
    requires Fetch(from.regs, src) == Some(a) && Slot(from.slots, slot) == Some(EnumVal(enum, tag, None))
    ensures at == Steps(u.cx, g, n, from)
    ensures Convert(a, ty).None? ==> at == Stuck
    ensures Convert(a, ty).Some? ==>
      var d := EmitNew(Emit(c, StorePayload(slot, ty, src)), Load(c.regs, slot));
      var v := EnumVal(enum, tag, Convert(a, ty));
      at.At? && at == EndOf(d, at.regs, at.slots, from.trace) && Fetch(at.regs, Reg(c.regs)) == Some(v)
      && Agree(from.regs, at.regs, c.regs) && Agree(from.slots, at.slots, slot)
  {
    hide Steps, Convert, Covers;
    var store, load := StorePayload(slot, ty, src), Load(c.regs, slot);
    var c1 := Emit(c, store);
    CoversStraight(g, c1, EmitNew(c1, load));
    EmitRuns(u, g, c, store, from.regs, from.slots, from.trace);
    n, at := 1, Stuck;
    var w := Convert(a, ty);
    if w.Some? {
      var v := EnumVal(enum, tag, w);
      var at1 := EmitKeepRuns(u, g, c, store, from.regs, from.slots, from.trace, slot, v);
      at := EmitNewRuns(u, g, c1, load, at1.regs, at1.slots, from.trace, Some(v), from.trace);
      StepsAdd(u.cx, g, 1, 1, from);
      n := 2;
      AgreeUpdate(from.slots, from.slots, slot, v);
      at := EndOf(EmitNew(c1, load), from.regs[c.regs := v], from.slots[slot := v], from.trace);
    }
  }

  lemma KeepsSlot(slots: Slots, later: Slots, n: nat, slot: nat)
    requires Agree(slots, later, n) && slot < n && slot in slots
    ensures slot in later && later[slot] == slots[slot]
  {
  }

  lemma AgreeUpdate(slots: Slots, later: Slots, slot: nat, v: Value)
    requires Agree(slots, later, slot)
    ensures Agree(slots, later[slot := v], slot)
  {
  }
}
