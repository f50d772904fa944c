/** Lowering statements to basic blocks.

    The state is the block list under construction, the block that receives instructions, the flat
    map from visible names to stack slots, which is saved and restored around blocks, and the
    stack of enclosing loops. */
module Lower {
  import opened Ast
  import opened Wrappers
  import opened Values
  import opened Graph
  import opened Source

  datatype Entry = Entry(slot: nat, ty: Type)

  datatype Code = Code(
    blocks: Blocks, cur: nat, regs: nat, slots: nat, names: map<string, Entry>, loops: seq<(nat, nat)>)
  {
    predicate Valid() {
      cur < |blocks| && forall k | 0 <= k < |loops| :: loops[k].0 < |blocks| && loops[k].1 < |blocks|
    }
  }

  datatype Lowered<+T> = Ok(code: Code, value: T) | Error {
    predicate IsFailure() { Error? }

    function PropagateFailure<U>(): Lowered<U>
      requires Error?
    {
      Error
    }

    function Extract(): (Code, T)
      requires Ok?
    {
      (code, value)
    }
  }

  /** What is fixed while a function is lowered. */
  datatype Unit = Unit(cx: Context, globals: map<string, Entry>, ret: Type)

  /** A local variable, or else a static. */
  function Resolve(u: Unit, names: map<string, Entry>, name: string): Option<Entry> {
    if name in names then Some(names[name])
    else if name in u.globals then Some(u.globals[name])
    else None
  }

  // ---------------------------------------------------------------------------
  // The builder
  // ---------------------------------------------------------------------------

  function Emit(c: Code, i: Instr): Code
    requires c.Valid()
  {
    c.(blocks := c.blocks[c.cur := c.blocks[c.cur] + [i]])
  }

  /** Emits an instruction that fills the next register. */
  function EmitNew(c: Code, i: Instr): Code
    requires c.Valid()
  {
    Emit(c, i).(regs := c.regs + 1)
  }

  function NewSlot(c: Code): Code {
    c.(slots := c.slots + 1)
  }

  function AddBlocks(c: Code, n: nat): Code {
    c.(blocks := c.blocks + seq(n, _ => []))
  }

  function Open(c: Code, block: nat): Code {
    c.(cur := block)
  }

  predicate Terminated(c: Code)
    requires c.Valid()
  {
    var code := c.blocks[c.cur];
    code != [] && IsJump(code[|code| - 1])
  }

  /** Ends the block with a jump, unless it has ended already. */
  function Close(c: Code, target: nat): Code
    requires c.Valid()
  {
    if Terminated(c) then c else Emit(c, Jump(target))
  }

  // ---------------------------------------------------------------------------
  // Expressions
  // ---------------------------------------------------------------------------

  function StaticType(u: Unit, names: map<string, Entry>, e: Expr): Option<Type> {
    match e
    case IntLit(_) => Some(Int)
    case BoolLit(_) => Some(Bool)
    case Var(name) => if Resolve(u, names, name).Some? then Some(Resolve(u, names, name).value.ty) else None
    case Binary(op, lhs, rhs) =>
      var l := StaticType(u, names, lhs);
      var r := StaticType(u, names, rhs);
      if l.None? || r.None? then None
      else if IsArithmetic(op) then Some(CommonInteger(l.value, r.value))
      else Some(Bool)
    case Unary(op, operand) => if op == Not then Some(Bool) else StaticType(u, names, operand)
    case Call(callee, _, _) => if callee in u.cx.signatures then Some(u.cx.signatures[callee].ret) else None
    case MethodCall(receiver, variant, _, _) =>
      if receiver.Var? && receiver.name in u.cx.enums && VariantIndex(u.cx.enums[receiver.name], variant).Some?
      then Some(Named(receiver.name)) else None
    case _ => None
  }

  /** Whether the expression can be converted to `t` without being asked to. */
  predicate Fits(u: Unit, names: map<string, Entry>, e: Expr, t: Type) {
    var source := StaticType(u, names, e);
    source.Some? && Coercible(source.value, t)
  }

  function LowerExpr(u: Unit, c: Code, e: Expr): (r: Lowered<Operand>)
    requires c.Valid()
    ensures r.Ok? ==> Straightforward(c, r.code)
    decreases e, 0
  {
    match e
    case IntLit(n) => Ok(c, Const(Number(n)))
    case BoolLit(b) => Ok(c, Const(Truth(b)))
    case Var(name) =>
      var entry := Resolve(u, c.names, name);
      if entry.None? then Error else Ok(EmitNew(c, Load(c.regs, entry.value.slot)), Reg(c.regs))
    case Binary(op, lhs, rhs) =>
      var l := StaticType(u, c.names, lhs);
      var r := StaticType(u, c.names, rhs);
      if op == In || l.None? || r.None? then Error
      else
        var (c1, left) :- LowerExpr(u, c, lhs);
        var (c2, right) :- LowerExpr(u, c1, rhs);
        Ok(EmitNew(c2, Operate(c2.regs, op, CommonInteger(l.value, r.value), left, right)), Reg(c2.regs))
    case Unary(op, operand) =>
      var (c1, src) :- LowerExpr(u, c, operand);
      Ok(EmitNew(c1, OperateOne(c1.regs, op, src)), Reg(c1.regs))
    case Call(callee, _, args) =>
      if callee !in u.cx.signatures then Error
      else
        var sig := u.cx.signatures[callee];
        var (c1, operands) :- LowerArgs(u, c, args, sig.params);
        Ok(EmitNew(c1, Invoke(c1.regs, callee, sig, operands)), Reg(c1.regs))
    case MethodCall(receiver, variant, _, args) =>
      if receiver.Var? && receiver.name in u.cx.enums then LowerEnum(u, c, receiver.name, variant, args) else Error
    case _ => Error
  }

  /** An enum value, built in a slot: all zeros, then the tag, then the payload. */
  function LowerEnum(u: Unit, c: Code, enum: string, variant: string, args: seq<Expr>): (r: Lowered<Operand>)
    requires c.Valid() && enum in u.cx.enums
    ensures r.Ok? ==> Straightforward(c, r.code)
    decreases args, 1
  {
    var tag := VariantIndex(u.cx.enums[enum], variant);
    if tag.None? then Error
    else
      var payload := u.cx.enums[enum][tag.value].payload;
      if |args| != (if payload.Some? then 1 else 0) then Error
      else
        var c1 := StartEnum(c, enum, tag.value);
        if payload.None? then Ok(EmitNew(c1, Load(c1.regs, c.slots)), Reg(c1.regs))
        else if !Fits(u, c.names, args[0], payload.value) then Error
        else
          var (c2, src) :- LowerExpr(u, c1, args[0]);
          var c3 := Emit(c2, StorePayload(c.slots, payload.value, src));
          Ok(EmitNew(c3, Load(c3.regs, c.slots)), Reg(c3.regs))
  }

  function StartEnum(c: Code, enum: string, tag: nat): (d: Code)
    requires c.Valid()
    ensures Straightforward(c, d) && d.slots == c.slots + 1 && d.regs == c.regs
  {
    var zeroed := Emit(NewSlot(c), Store(c.slots, Named(enum), Const(EnumVal(enum, 0, None))));
    Emit(zeroed, StoreTag(c.slots, tag))
  }

  function LowerArgs(u: Unit, c: Code, es: seq<Expr>, ts: seq<Type>): (r: Lowered<seq<Operand>>)
    requires c.Valid()
    ensures r.Ok? ==> Straightforward(c, r.code)
    decreases es, 0
  {
    if |es| != |ts| then Error
    else if es == [] then Ok(c, [])
    else if !Fits(u, c.names, es[0], ts[0]) then Error
    else
      var (c1, first) :- LowerExpr(u, c, es[0]);
      var (c2, rest) :- LowerArgs(u, c1, es[1..], ts[1..]);
      Ok(c2, [first] + rest)
  }

  /** An expression adds instructions to the current block, and uses up registers and slots. */
  predicate Straightforward(c: Code, d: Code) {
    c.cur < |c.blocks| == |d.blocks| && d.cur == c.cur && d.names == c.names && d.loops == c.loops
    && d.regs >= c.regs && d.slots >= c.slots
    && c.blocks[c.cur] <= d.blocks[c.cur]
    && d.blocks == c.blocks[c.cur := d.blocks[c.cur]]
  }

  /** A condition has type bool. */
  function LowerCond(u: Unit, c: Code, e: Expr): (r: Lowered<Operand>)
    requires c.Valid()
    ensures r.Ok? ==> Straightforward(c, r.code)
  {
    if StaticType(u, c.names, e) == Some(Bool) then LowerExpr(u, c, e) else Error
  }

  // ---------------------------------------------------------------------------
  // Statements
  // ---------------------------------------------------------------------------

  /** Nothing but the blocks from `lo` up to `hi` has grown, and blocks were added. */
  predicate Extends(c: Code, d: Code, lo: nat, hi: nat) {
    |c.blocks| <= |d.blocks| && d.loops == c.loops && d.regs >= c.regs && d.slots >= c.slots
    && (forall b | 0 <= b < |c.blocks| && lo <= b < hi :: c.blocks[b] <= d.blocks[b])
    && (forall b | 0 <= b < |c.blocks| && !(lo <= b < hi) :: d.blocks[b] == c.blocks[b])
  }

  /** A statement adds to the current block and to new ones, and goes on in one of these. */
  predicate Grows(c: Code, d: Code) {
    Extends(c, d, c.cur, c.cur + 1) && (d.cur == c.cur || |c.blocks| <= d.cur)
  }

  lemma GrowsOn(c: Code, d: Code, e: Code)
    requires c.Valid() && Straightforward(c, d) && e.Valid() && Grows(d, e)
    ensures Grows(c, e)
  {
  }

  function LowerStmt(u: Unit, c: Code, s: Stmt): (r: Lowered<()>)
    requires c.Valid()
    ensures r.Ok? ==> r.code.Valid() && Grows(c, r.code)
    decreases s, 2
  {
    match s
    case Return(value) =>
      if value.None? then Ok(Emit(c, Ret(None, Void)), ())
      else if u.ret == Void || !Fits(u, c.names, value.value, u.ret) then Error
      else
        var (c1, src) :- LowerExpr(u, c, value.value);
        Ok(Emit(c1, Ret(Some(src), u.ret)), ())
    case ExprStmt(e) =>
      var (c1, _) :- LowerExpr(u, c, e);
      Ok(c1, ())
    case Let(name, ty, init) => if ty.Some? then LowerLet(u, c, name, ty.value, init) else Error
    case Assign(name, e) =>
      var (c1, src) :- LowerExpr(u, c, e);
      var entry := Resolve(u, c.names, name);
      if entry.None? || !Fits(u, c.names, e, entry.value.ty) then Error
      else Ok(Emit(c1, Store(entry.value.slot, entry.value.ty, src)), ())
    case If(_, _, _) => LowerIf(u, c, s)
    case While(cond, body) => LowerWhile(u, c, cond, body)
    case For(variable, iter, body) => LowerFor(u, c, variable, iter, body)
    case Switch(scrutinee, arms) => LowerSwitch(u, c, scrutinee, arms)
    case Break => if c.loops == [] then Error else Ok(Emit(c, Jump(c.loops[|c.loops| - 1].1)), ())
    case Continue => if c.loops == [] then Error else Ok(Emit(c, Jump(c.loops[|c.loops| - 1].0)), ())
    case _ => Error
  }

  function LowerLet(u: Unit, c: Code, name: string, ty: Type, init: Option<Expr>): (r: Lowered<()>)
    requires c.Valid()
    ensures r.Ok? ==> r.code.Valid() && Grows(c, r.code)
  {
    var zero := Zero(u.cx.enums, ty);
    if zero.None? then Error
    else
      var (c1, src) :- LowerInit(u, NewSlot(c), ty, zero.value, init);
      var c2 := Emit(c1, Store(c.slots, ty, src));
      Ok(c2.(names := c.names[name := Entry(c.slots, ty)]), ())
  }

  function LowerInit(u: Unit, c: Code, ty: Type, zero: Value, init: Option<Expr>): (r: Lowered<Operand>)
    requires c.Valid()
    ensures r.Ok? ==> Straightforward(c, r.code)
  {
    if init.None? then Ok(c, Const(zero))
    else if Fits(u, c.names, init.value, ty) then LowerExpr(u, c, init.value)
    else Error
  }

  function LowerStmts(u: Unit, c: Code, ss: seq<Stmt>): (r: Lowered<()>)
    requires c.Valid()
    ensures r.Ok? ==> r.code.Valid() && Grows(c, r.code)
    decreases ss, 0
  {
    if ss == [] then Ok(c, ())
    else
      var (c1, _) :- LowerStmt(u, c, ss[0]);
      LowerStmts(u, c1, ss[1..])
  }

  /** The statements of a block; the names it declares go out of sight at its end. */
  function LowerBlock(u: Unit, c: Code, b: Block): (r: Lowered<()>)
    requires c.Valid()
    ensures r.Ok? ==> r.code.Valid() && Grows(c, r.code) && r.code.names == c.names
    decreases b, 0
  {
    var (c1, _) :- LowerStmts(u, c, b.stmts);
    Ok(c1.(names := c.names), ())
  }

  /** The statements of a block, in a basic block of their own that ends at `target`. */
  function LowerBranch(u: Unit, c: Code, block: nat, target: nat, b: Block): (r: Lowered<()>)
    requires c.Valid() && block < |c.blocks| && target < |c.blocks|
    ensures r.Ok? ==> r.code.Valid() && Extends(c, r.code, block, block + 1) && r.code.names == c.names
    decreases b, 1
  {
    var (c1, _) :- LowerBlock(u, Open(c, block), b);
    Ok(Close(c1, target), ())
  }

  function LowerIf(u: Unit, c: Code, s: Stmt): (r: Lowered<()>)
    requires c.Valid() && s.If?
    ensures r.Ok? ==> r.code.Valid() && Grows(c, r.code) && r.code.names == c.names
    decreases s, 1
  {
    var thenBlock := |c.blocks|;
    var merge := if s.els.Some? then thenBlock + 2 else thenBlock + 1;
    var (c1, v) :- LowerCond(u, c, s.cond);
    var c2 := IfHead(c1, v, s.els.Some?);
    var (c3, _) :- LowerBranches(u, c2, thenBlock, merge, s);
    Ok(Open(c3, merge), ())
  }

  function LowerBranches(u: Unit, c: Code, thenBlock: nat, merge: nat, s: Stmt): (r: Lowered<()>)
    requires c.Valid() && s.If? && merge < |c.blocks| && thenBlock < merge && (s.els.Some? ==> thenBlock + 1 < merge)
    ensures r.Ok? ==> r.code.Valid() && Extends(c, r.code, thenBlock, merge) && r.code.names == c.names
    decreases s, 0
  {
    var (c1, _) :- LowerBranch(u, c, thenBlock, merge, s.thn);
    if s.els.None? then Ok(c1, ()) else LowerBranch(u, c1, thenBlock + 1, merge, s.els.value)
  }

  /** Adds the blocks of an if statement, the end last, and goes to one of the first two. */
  function IfHead(c: Code, v: Operand, els: bool): (d: Code)
    requires c.Valid()
    ensures d.Valid() && Extends(c, d, c.cur, c.cur + 1) && d.cur == c.cur && d.names == c.names
    ensures |d.blocks| == |c.blocks| + if els then 3 else 2
  {
    Emit(AddBlocks(c, if els then 3 else 2), Branch(v, |c.blocks|, |c.blocks| + 1))
  }

  function LowerWhile(u: Unit, c: Code, cond: Expr, body: Block): (r: Lowered<()>)
    requires c.Valid()
    ensures r.Ok? ==> r.code.Valid() && Grows(c, r.code) && r.code.names == c.names
    decreases body, 2
  {
    var condBlock := |c.blocks|;
    var bodyBlock := condBlock + 1;
    var after := condBlock + 2;
    var c1 := Open(Emit(AddBlocks(c, 3), Jump(condBlock)), condBlock);
    var (c2, v) :- LowerCond(u, c1, cond);
    var c3 := Emit(c2, Branch(v, bodyBlock, after));
    var (c4, _) :- LowerBranch(u, EnterLoop(c3, condBlock, after), bodyBlock, condBlock, body);
    Ok(Open(c4.(loops := c.loops), after), ())
  }

  function EnterLoop(c: Code, again: nat, after: nat): Code {
    c.(loops := c.loops + [(again, after)])
  }

  /** A loop over a range keeps its counter in a slot of its own. */
  function LowerFor(u: Unit, c: Code, variable: string, iter: Expr, body: Block): (r: Lowered<()>)
    requires c.Valid()
    ensures r.Ok? ==> r.code.Valid() && Grows(c, r.code) && r.code.names == c.names
    decreases body, 2
  {
    if !IsRange(iter) || StaticType(u, c.names, iter.args[0]) != Some(Int) then Error
    else
      var counter := c.slots + 1;
      var condBlock := |c.blocks|;
      var (c1, limit) :- LowerExpr(u, AddBlocks(NewSlot(NewSlot(c)), 3), iter.args[0]);
      var c2 := ForStart(c1, counter, condBlock);
      var c3 := ForTest(Open(c2, condBlock), counter, limit, condBlock + 1, condBlock + 2);
      var (c4, _) :- LowerForBody(u, Open(c3, condBlock + 1), variable, c.slots, counter, condBlock, body);
      Ok(Open(c4, condBlock + 2), ())
  }

  function ForStart(c: Code, counter: nat, condBlock: nat): (d: Code)
    requires c.Valid()
    ensures Straightforward(c, d)
  {
    Emit(Emit(c, Store(counter, Int, Const(Number(0)))), Jump(condBlock))
  }

  /** Goes on to the body while the counter is below the limit. */
  function ForTest(c: Code, counter: nat, limit: Operand, body: nat, after: nat): (d: Code)
    requires c.Valid()
    ensures Straightforward(c, d)
  {
    var c1 := EmitNew(c, Load(c.regs, counter));
    var c2 := EmitNew(c1, Operate(c1.regs, Lt, Int, Reg(c.regs), limit));
    Emit(c2, Branch(Reg(c1.regs), body, after))
  }

  /** One round: the variable gets the counter, the body runs, the counter goes up. */
  function LowerForBody(
    u: Unit, c: Code, variable: string, varSlot: nat, counter: nat, condBlock: nat, body: Block): (r: Lowered<()>)
    requires c.Valid() && condBlock + 2 < |c.blocks|
    ensures r.Ok? ==> r.code.Valid() && Grows(c, r.code) && r.code.names == c.names
    decreases body, 1
  {
    var c1 := ForBind(c, variable, varSlot, counter);
    var (c2, _) :- LowerStmts(u, EnterLoop(c1, condBlock, condBlock + 2), body.stmts);
    var c3 := c2.(loops := c.loops, names := c.names);
    GrowsOn(c, c1.(names := c.names), c3);
    Ok(Close(Increment(c3, counter), condBlock), ())
  }

  function ForBind(c: Code, variable: string, varSlot: nat, counter: nat): (d: Code)
    requires c.Valid()
    ensures Straightforward(c, d.(names := c.names)) && d.names == c.names[variable := Entry(varSlot, Int)]
  {
    var c1 := EmitNew(c, Load(c.regs, counter));
    var c2 := Emit(c1, Store(varSlot, Int, Reg(c.regs)));
    c2.(names := c.names[variable := Entry(varSlot, Int)])
  }

  function Increment(c: Code, counter: nat): (d: Code)
    requires c.Valid()
    ensures Straightforward(c, d)
  {
    var c1 := EmitNew(c, Load(c.regs, counter));
    var c2 := EmitNew(c1, Operate(c1.regs, Add, Int, Reg(c.regs), Const(Number(1))));
    Emit(c2, Store(counter, Int, Reg(c1.regs)))
  }

  /** The first arm without a condition. */
  function WildcardIndex(arms: seq<Arm>): (r: Option<nat>)
    ensures r.Some? ==> r.value < |arms| && arms[r.value].pattern.Wildcard?
    ensures r.Some? ==> forall i | 0 <= i < r.value :: !arms[i].pattern.Wildcard?
    ensures r.None? ==> forall i | 0 <= i < |arms| :: !arms[i].pattern.Wildcard?
  {
    if arms == [] then None
    else if arms[0].pattern.Wildcard? then Some(0)
    else
      var rest := WildcardIndex(arms[1..]);
      if rest.Some? then Some(rest.value + 1) else None
  }

  /** Which block each tag goes to: arm number `i` has block `first + i`. */
  function SwitchCases(variants: seq<EnumVariant>, arms: seq<Arm>, first: nat): Option<seq<(nat, nat)>> {
    if arms == [] then Some([])
    else
      var rest := SwitchCases(variants, arms[1..], first + 1);
      if rest.None? || arms[0].pattern.Wildcard? then rest
      else
        var tag := VariantIndex(variants, arms[0].pattern.variant);
        if tag.None? then None else Some([(tag.value, first)] + rest.value)
  }

  function LowerSwitch(u: Unit, c: Code, scrutinee: Expr, arms: seq<Arm>): (r: Lowered<()>)
    requires c.Valid()
    ensures r.Ok? ==> r.code.Valid() && Grows(c, r.code) && r.code.names == c.names
    decreases arms, 1
  {
    var ty := StaticType(u, c.names, scrutinee);
    if ty.None? || !ty.value.Named? || ty.value.name !in u.cx.enums then Error
    else
      var variants := u.cx.enums[ty.value.name];
      var merge := |c.blocks|;
      var cases := SwitchCases(variants, arms, merge + 1);
      if cases.None? then Error
      else
        var (c1, v) :- LowerExpr(u, c, scrutinee);
        var c2 := SwitchHead(c1, v, ty.value, arms, cases.value);
        var (c3, _) :- LowerArms(u, c2, variants, c1.slots, merge + 1, merge, arms);
        Ok(Open(c3, merge), ())
  }

  /** Stores the value in a new slot and loads its tag. */
  function SwitchLoad(c: Code, v: Operand, ty: Type): (d: Code)
    requires c.Valid()
    ensures Straightforward(c, d) && d.regs == c.regs + 1 && d.slots == c.slots + 1
  {
    var stored := Emit(NewSlot(c), Store(c.slots, ty, v));
    EmitNew(stored, LoadTag(stored.regs, c.slots))
  }

  /** The block for tags that no case names: that of the wildcard, or else one after all arms. */
  function Otherwise(arms: seq<Arm>, first: nat): (block: nat)
    ensures first <= block <= first + |arms|
    ensures WildcardIndex(arms).Some? ==> block < first + |arms|
  {
    var wildcard := WildcardIndex(arms);
    if wildcard.Some? then first + wildcard.value else first + |arms|
  }

  /** Adds blocks for the end, the arms and, without a wildcard, for values that no arm takes, and
      goes to the block of the tag. */
  function SwitchJump(c: Code, tag: Operand, arms: seq<Arm>, cases: seq<(nat, nat)>): (d: Code)
    requires c.Valid()
    ensures d.Valid() && Extends(c, d, c.cur, c.cur + 1) && d.names == c.names && d.cur == c.cur
    ensures d.regs == c.regs && d.slots == c.slots
    ensures |d.blocks| == |c.blocks| + if WildcardIndex(arms).Some? then 1 + |arms| else 2 + |arms|
    ensures forall k | |c.blocks| <= k < |d.blocks| :: d.blocks[k] == []
  {
    var wide := AddBlocks(c, if WildcardIndex(arms).Some? then 1 + |arms| else 2 + |arms|);
    Emit(wide, Dispatch(tag, Otherwise(arms, |c.blocks| + 1), cases))
  }

  function SwitchHead(c: Code, v: Operand, ty: Type, arms: seq<Arm>, cases: seq<(nat, nat)>): (d: Code)
    requires c.Valid()
    ensures d.Valid() && Extends(c, d, c.cur, c.cur + 1) && d.names == c.names && |d.blocks| > |c.blocks| + |arms|
  {
    var jump := SwitchJump(SwitchLoad(c, v, ty), Reg(c.regs), arms, cases);
    if WildcardIndex(arms).Some? then jump else Emit(Open(jump, Otherwise(arms, |c.blocks| + 1)), Trap)
  }

  /** The arms from block `first` on, each of them ending at `merge`. */
  function LowerArms(
    u: Unit, c: Code, variants: seq<EnumVariant>, storage: nat, first: nat, merge: nat, arms: seq<Arm>)
    : (r: Lowered<()>)
    requires c.Valid() && first + |arms| <= |c.blocks|
    ensures r.Ok? ==> r.code.Valid() && r.code.names == c.names && Extends(c, r.code, first, first + |arms|)
    decreases arms, 0
  {
    if arms == [] then Ok(c, ())
    else
      var (c1, _) :- LowerArm(u, c, variants, storage, first, merge, arms[0]);
      LowerArms(u, c1, variants, storage, first + 1, merge, arms[1..])
  }

  function LowerArm(
    u: Unit, c: Code, variants: seq<EnumVariant>, storage: nat, block: nat, merge: nat, arm: Arm): (r: Lowered<()>)
    requires c.Valid() && block < |c.blocks|
    ensures r.Ok? ==> r.code.Valid() && r.code.names == c.names && Extends(c, r.code, block, block + 1)
    decreases arm, 0
  {
    var (c1, _) :- LowerBinding(u, Open(c, block), variants, storage, arm.pattern);
    var (c2, _) :- LowerStmts(u, c1, arm.body.stmts);
    Ok(Close(c2.(names := c.names), merge), ())
  }

  /** Loads the payload of the switched value into a variable, if the pattern names one. */
  function LowerBinding(u: Unit, c: Code, variants: seq<EnumVariant>, storage: nat, p: Pattern): (r: Lowered<()>)
    requires c.Valid()
    ensures r.Ok? ==> r.code.Valid() && Grows(c, r.code)
  {
    if p.Wildcard? || p.binding.None? then Ok(c, ())
    else
      var index := VariantIndex(variants, p.variant);
      if index.None? || variants[index.value].payload.None? then Error
      else
        var ty := variants[index.value].payload.value;
        if Zero(u.cx.enums, ty).None? then Error
        else
          var c1 := EmitNew(c, LoadPayload(c.regs, storage, ty));
          var c2 := Emit(NewSlot(c1), Store(c1.slots, ty, Reg(c.regs)));
          Ok(c2.(names := c.names[p.binding.value := Entry(c1.slots, ty)]), ())
  }

  // ---------------------------------------------------------------------------
  // Functions
  // ---------------------------------------------------------------------------

  /** Each static has the slot of its position. */
  function Globals(statics: seq<Static>): map<string, Entry> {
    if statics == [] then map[]
    else
      var last := |statics| - 1;
      Globals(statics[..last])[statics[last].name := Entry(last, statics[last].ty)]
  }

  function UnitOf(cx: Context, statics: seq<Static>, ret: Type): Unit {
    Unit(cx, Globals(statics), ret)
  }

  /** Argument number `i` arrives in register `i` and is stored in the slot of its parameter. */
  function LowerParams(u: Unit, c: Code, params: seq<Param>): (r: Lowered<()>)
    requires c.Valid()
    ensures r.Ok? ==> r.code.Valid() && Straightforward(c.(names := map[]), r.code.(names := map[]))
    decreases |params|
  {
    if params == [] then Ok(c, ())
    else
      var last := |params| - 1;
      var (c1, _) :- LowerParams(u, c, params[..last]);
      if Zero(u.cx.enums, params[last].ty).None? then Error
      else
        var c2 := Emit(NewSlot(c1), Store(c1.slots, params[last].ty, Reg(last)));
        Ok(c2.(names := c1.names[params[last].name := Entry(c1.slots, params[last].ty)]), ())
  }

  /** The empty entry block of a function. */
  function EntryCode(statics: nat, params: nat): (c: Code)
    ensures c.Valid()
  {
    Code([[]], 0, params, statics, map[], [])
  }

  function LowerFunction(cx: Context, statics: seq<Static>, fn: Function): (r: Lowered<()>)
    ensures r.Ok? ==> r.code.Valid()
  {
    var u := UnitOf(cx, statics, fn.proto.ret);
    var (c1, _) :- LowerParams(u, EntryCode(|statics|, |fn.proto.params|), fn.proto.params);
    var (c2, _) :- LowerStmts(u, c1, fn.body.stmts);
    DefaultReturn(u, c2)
  }

  /** A body that does not end in a jump returns zero. */
  function DefaultReturn(u: Unit, c: Code): (r: Lowered<()>)
    requires c.Valid()
    ensures r.Ok? ==> r.code.Valid()
  {
    if Terminated(c) then Ok(c, ())
    else if u.ret == Void then Ok(Emit(c, Ret(None, Void)), ())
    else
      var zero := Zero(u.cx.enums, u.ret);
      if zero.None? then Error else Ok(Emit(c, Ret(Some(Const(zero.value)), u.ret)), ())
  }
}
