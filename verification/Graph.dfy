/** Basic blocks and a machine that runs them.

    A function is lowered to a list of blocks. Instructions read constants, registers and the
    slots of the stack frame; the first slots hold the statics. A block should end in its only
    jump (`WellFormed`), but the lists can hold any instructions, so that code which breaks this
    rule can be written down. */
module Graph {
  import opened Ast
  import opened Wrappers
  import opened Values

  datatype Operand = Const(value: Value) | Reg(reg: nat)

  datatype Instr =
    | Load(dst: nat, slot: nat)
    | Store(slot: nat, ty: Type, src: Operand)
    | Operate(dst: nat, op: BinOp, ty: Type, left: Operand, right: Operand)
    | OperateOne(dst: nat, unop: UnOp, src: Operand)
    | Invoke(dst: nat, callee: string, sig: Signature, args: seq<Operand>)
    | StoreTag(slot: nat, tag: nat)
    | StorePayload(slot: nat, ty: Type, src: Operand)
    | LoadTag(dst: nat, slot: nat)
    | LoadPayload(dst: nat, slot: nat, ty: Type)
    // Jumps
    | Jump(target: nat)
    | Branch(cond: Operand, thn: nat, els: nat)
    | Dispatch(src: Operand, otherwise: nat, cases: seq<(nat, nat)>)
    | Ret(result: Option<Operand>, ty: Type)
    | Trap

  predicate IsJump(i: Instr) {
    i.Jump? || i.Branch? || i.Dispatch? || i.Ret? || i.Trap?
  }

  type Blocks = seq<seq<Instr>>

  /** Every block ends in a jump and has no other. */
  predicate WellFormed(g: Blocks) {
    forall b | 0 <= b < |g| :: Finished(g[b])
  }

  predicate Finished(code: seq<Instr>) {
    code != [] && IsJump(code[|code| - 1]) && Straight(code[..|code| - 1])
  }

  predicate Straight(code: seq<Instr>) {
    forall i | 0 <= i < |code| :: !IsJump(code[i])
  }

  // ---------------------------------------------------------------------------
  // Running
  // ---------------------------------------------------------------------------

  type Regs = map<nat, Value>
  type Slots = map<nat, Value>

  datatype Config =
    | At(block: nat, index: nat, regs: Regs, slots: Slots, trace: seq<Event>)
    | Halted(result: Option<Value>, slots: Slots, trace: seq<Event>)
    | Trapped
    | Stuck

  function Fetch(regs: Regs, o: Operand): Option<Value> {
    match o
    case Const(v) => Some(v)
    case Reg(r) => if r in regs then Some(regs[r]) else None
  }

  function FetchAll(regs: Regs, os: seq<Operand>): Option<seq<Value>> {
    if os == [] then Some([])
    else
      var first := Fetch(regs, os[0]);
      var rest := FetchAll(regs, os[1..]);
      if first.Some? && rest.Some? then Some([first.value] + rest.value) else None
  }

  function Slot(slots: Slots, slot: nat): Option<Value> {
    if slot in slots then Some(slots[slot]) else None
  }

  /** The next instruction, after `v` has gone into a register. */
  function Put(c: Config, dst: nat, v: Option<Value>): Config
    requires c.At?
  {
    if v.None? then Stuck else At(c.block, c.index + 1, c.regs[dst := v.value], c.slots, c.trace)
  }

  /** The next instruction, after `v` has gone into a slot. */
  function Keep(c: Config, slot: nat, v: Option<Value>): Config
    requires c.At?
  {
    if v.None? then Stuck else At(c.block, c.index + 1, c.regs, c.slots[slot := v.value], c.trace)
  }

  function Goto(c: Config, block: nat): Config
    requires c.At?
  {
    At(block, 0, c.regs, c.slots, c.trace)
  }

  function ConvertSome(v: Option<Value>, t: Type): (r: Option<Value>)
    ensures r.Some? ==> Typed(r.value, t)
  {
    if v.Some? then Convert(v.value, t) else None
  }

  function WithTag(v: Option<Value>, tag: nat): Option<Value> {
    if v.Some? && v.value.EnumVal? then Some(v.value.(tag := tag)) else None
  }

  function WithPayload(v: Option<Value>, payload: Option<Value>): Option<Value> {
    if v.Some? && v.value.EnumVal? && payload.Some? then Some(v.value.(payload := payload)) else None
  }

  function TagOf(v: Option<Value>): Option<Value> {
    if v.Some? && v.value.EnumVal? then Some(Num(Int, v.value.tag)) else None
  }

  function Case(cases: seq<(nat, nat)>, tag: nat, otherwise: nat): nat {
    if cases == [] then otherwise
    else if cases[0].0 == tag then cases[0].1
    else Case(cases[1..], tag, otherwise)
  }

  function DoCall(cx: Context, c: Config, dst: nat, callee: string, sig: Signature, args: Option<seq<Value>>): Config
    requires c.At?
  {
    if args.None? then Stuck
    else
      var converted := ConvertAll(args.value, sig.params);
      if converted.None? then Stuck
      else
        var trace := c.trace + [Event(callee, converted.value)];
        Put(At(c.block, c.index, c.regs, c.slots, trace), dst, Answer(cx, sig, trace))
  }

  function Execute(cx: Context, i: Instr, c: Config): Config
    requires c.At?
  {
    match i
    case Load(dst, slot) => Put(c, dst, Slot(c.slots, slot))
    case Store(slot, ty, src) => Keep(c, slot, ConvertSome(Fetch(c.regs, src), ty))
    case Operate(dst, op, ty, left, right) =>
      var a := Fetch(c.regs, left);
      var b := Fetch(c.regs, right);
      Put(c, dst, if a.Some? && b.Some? then ApplyBinary(op, ty, a.value, b.value) else None)
    case OperateOne(dst, op, src) =>
      var a := Fetch(c.regs, src);
      Put(c, dst, if a.Some? then ApplyUnary(op, a.value) else None)
    case Invoke(dst, callee, sig, args) => DoCall(cx, c, dst, callee, sig, FetchAll(c.regs, args))
    case StoreTag(slot, tag) => Keep(c, slot, WithTag(Slot(c.slots, slot), tag))
    case StorePayload(slot, ty, src) =>
      Keep(c, slot, WithPayload(Slot(c.slots, slot), ConvertSome(Fetch(c.regs, src), ty)))
    case LoadTag(dst, slot) => Put(c, dst, TagOf(Slot(c.slots, slot)))
    case LoadPayload(dst, slot, ty) =>
      Put(c, dst, if slot in c.slots then PayloadOf(cx.enums, c.slots[slot], ty) else None)
    case Jump(target) => Goto(c, target)
    case Branch(cond, thn, els) =>
      var v := Fetch(c.regs, cond);
      if v.None? || !v.value.Num? || v.value.ty != Bool then Stuck
      else Goto(c, if v.value.bits == 1 then thn else els)
    case Dispatch(src, otherwise, cases) =>
      var v := Fetch(c.regs, src);
      if v.None? || !v.value.Num? then Stuck else Goto(c, Case(cases, v.value.bits, otherwise))
    case Ret(result, ty) =>
      if result.None? then Halted(None, c.slots, c.trace)
      else
        var v := ConvertSome(Fetch(c.regs, result.value), ty);
        if v.None? then Stuck else Halted(v, c.slots, c.trace)
    case Trap => Trapped
  }

  function Step(cx: Context, g: Blocks, c: Config): Config {
    if !c.At? then c
    else if c.block < |g| && c.index < |g[c.block]| then Execute(cx, g[c.block][c.index], c)
    else Stuck
  }

  function Steps(cx: Context, g: Blocks, n: nat, c: Config): Config {
    if n == 0 then c else Steps(cx, g, n - 1, Step(cx, g, c))
  }

  lemma {:induction false} StepsAdd(cx: Context, g: Blocks, m: nat, n: nat, c: Config)
    ensures Steps(cx, g, m + n, c) == Steps(cx, g, n, Steps(cx, g, m, c))
    decreases m
  {
    if m > 0 {
      StepsAdd(cx, g, m - 1, n, Step(cx, g, c));
    }
  }

  /** The end of a run stays the end. */
  lemma {:induction false} EndIsFinal(cx: Context, g: Blocks, n: nat, c: Config)
    requires !c.At?
    ensures Steps(cx, g, n, c) == c
  {
    if n > 0 {
      EndIsFinal(cx, g, n - 1, c);
    }
  }
}
