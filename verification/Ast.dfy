/** The abstract syntax of pp programs, and a uniform view of its nodes.

    Every pass over the tree treats most nodes alike: it visits the operand expressions in
    order, then the types written in the node. `Parts`, `Operands`, `TypesIn` and their `With...`
    counterparts name those parts once, so that a pass spells out only the nodes it treats
    specially. */
module Ast {
  import opened Wrappers

  // ---------------------------------------------------------------------------
  // Types
  // ---------------------------------------------------------------------------

  datatype Type =
    | Int | Float | Bool | Str | U8 | U16 | U32 | U64 | Void
    | Array(element: Type, length: nat)
    | Ptr(pointee: Type)
    | Fn(params: seq<Type>, ret: Type)
    | Tuple(elements: seq<Type>)
    | Named(name: string)
    | Applied(template: string, args: seq<Type>)

  /** The immediate component types, in the order in which they are visited. */
  function Parts(t: Type): seq<Type> {
    match t
    case Array(element, _) => [element]
    case Ptr(pointee) => [pointee]
    case Fn(params, ret) => params + [ret]
    case Tuple(elements) => elements
    case Applied(_, args) => args
    case _ => []
  }

  /** The type `t` with its component types replaced. */
  function WithParts(t: Type, parts: seq<Type>): (r: Type)
    requires |parts| == |Parts(t)|
    ensures Parts(r) == parts
  {
    match t
    case Array(_, length) => Array(parts[0], length)
    case Ptr(_) => Ptr(parts[0])
    case Fn(params, _) => Fn(parts[..|params|], parts[|params|])
    case Tuple(_) => Tuple(parts)
    case Applied(template, _) => Applied(template, parts)
    case _ => t
  }

  // Node counts, the termination measure of the passes.

  ghost function TypeSize(t: Type): (n: nat)
    ensures n > 0
  {
    match t
    case Array(element, _) => 2 + TypeSize(element)
    case Ptr(pointee) => 2 + TypeSize(pointee)
    case Fn(params, ret) => 2 + TypesSize(params) + TypeSize(ret)
    case Tuple(elements) => 1 + TypesSize(elements)
    case Applied(_, args) => 1 + TypesSize(args)
    case _ => 1
  }

  ghost function TypesSize(ts: seq<Type>): nat {
    if ts == [] then 0 else 1 + TypeSize(ts[0]) + TypesSize(ts[1..])
  }

  lemma TypesSizeAppend(ts: seq<Type>, t: Type)
    ensures TypesSize(ts + [t]) == TypesSize(ts) + 1 + TypeSize(t)
  {
    if ts != [] {
      assert (ts + [t])[1..] == ts[1..] + [t];
    }
  }

  lemma SizeOfParts(t: Type)
    ensures TypeSize(t) == 1 + TypesSize(Parts(t))
  {
    if t.Fn? {
      TypesSizeAppend(t.params, t.ret);
    }
  }

  // ---------------------------------------------------------------------------
  // Expressions
  // ---------------------------------------------------------------------------

  datatype BinOp =
    | Add | Sub | Mul | Div | Mod | Eq | Ne | Lt | Gt | Le | Ge | And | Or
    | BitAnd | BitOr | BitXor | Shl | Shr | In

  datatype UnOp = Neg | Not | BitNot

  datatype FieldInit = FieldInit(name: string, value: Expr)

  datatype Expr =
    | IntLit(value: int)
    | FloatLit(decimal: real)
    | BoolLit(truth: bool)
    | StrLit(text: string)
    | Var(name: string)
    | Binary(op: BinOp, lhs: Expr, rhs: Expr)
    | Unary(unop: UnOp, operand: Expr)
    | Call(callee: string, typeArgs: seq<Type>, args: seq<Expr>)
    | MethodCall(receiver: Expr, methodName: string, typeArgs: seq<Type>, args: seq<Expr>)
    | StructInit(struct: string, typeArgs: seq<Type>, fields: seq<FieldInit>)
    | Field(base: Expr, field: string)
    | Index(base: Expr, index: Expr)
    | Slice(base: Expr, lo: Option<Expr>, hi: Option<Expr>)
    | ArrayLit(values: seq<Expr>)
    | TupleLit(values: seq<Expr>)
    | Cast(operand: Expr, target: Type)
    | AddrOf(operand: Expr)
    | Deref(operand: Expr)

  function OptionList<T>(o: Option<T>): seq<T> {
    if o.Some? then [o.value] else []
  }

  function FieldValues(fields: seq<FieldInit>): (values: seq<Expr>)
    ensures |values| == |fields|
  {
    seq(|fields|, i requires 0 <= i < |fields| => fields[i].value)
  }

  function WithFieldValues(fields: seq<FieldInit>, values: seq<Expr>): (r: seq<FieldInit>)
    requires |values| == |fields|
    ensures |r| == |fields| && FieldValues(r) == values
    ensures forall i | 0 <= i < |r| :: r[i].name == fields[i].name
  {
    seq(|fields|, i requires 0 <= i < |fields| => FieldInit(fields[i].name, values[i]))
  }

  /** The operand expressions in the order in which they are visited. The receiver of a method
      call is not among them: it is visited after the type arguments, or not at all. */
  function Operands(e: Expr): seq<Expr> {
    match e
    case Binary(_, lhs, rhs) => [lhs, rhs]
    case Unary(_, operand) => [operand]
    case Call(_, _, args) => args
    case MethodCall(_, _, _, args) => args
    case StructInit(_, _, fields) => FieldValues(fields)
    case Field(base, _) => [base]
    case Index(base, index) => [base, index]
    case Slice(base, lo, hi) => [base] + OptionList(lo) + OptionList(hi)
    case ArrayLit(values) => values
    case TupleLit(values) => values
    case Cast(operand, _) => [operand]
    case AddrOf(operand) => [operand]
    case Deref(operand) => [operand]
    case _ => []
  }

  /** The types written in the node itself. */
  function TypesIn(e: Expr): seq<Type> {
    match e
    case Call(_, typeArgs, _) => typeArgs
    case MethodCall(_, _, typeArgs, _) => typeArgs
    case StructInit(_, typeArgs, _) => typeArgs
    case Cast(_, target) => [target]
    case _ => []
  }

  /** The node `e` with its operands and types replaced. */
  function Rebuild(e: Expr, operands: seq<Expr>, types: seq<Type>): (r: Expr)
    requires |operands| == |Operands(e)| && |types| == |TypesIn(e)|
    ensures Operands(r) == operands && TypesIn(r) == types
  {
    match e
    case Binary(op, _, _) => Binary(op, operands[0], operands[1])
    case Unary(op, _) => Unary(op, operands[0])
    case Call(callee, _, _) => Call(callee, types, operands)
    case MethodCall(receiver, name, _, _) => MethodCall(receiver, name, types, operands)
    case StructInit(name, _, fields) => StructInit(name, types, WithFieldValues(fields, operands))
    case Field(_, field) => Field(operands[0], field)
    case Index(_, _) => Index(operands[0], operands[1])
    case Slice(_, lo, hi) =>
      Slice(operands[0],
            if lo.Some? then Some(operands[1]) else None,
            if hi.Some? then Some(operands[|operands| - 1]) else None)
    case ArrayLit(_) => ArrayLit(operands)
    case TupleLit(_) => TupleLit(operands)
    case Cast(_, _) => Cast(operands[0], types[0])
    case AddrOf(_) => AddrOf(operands[0])
    case Deref(_) => Deref(operands[0])
    case _ => e
  }

  ghost function ExprSize(e: Expr): (n: nat)
    ensures n > 0
  {
    match e
    case Binary(_, lhs, rhs) => 3 + ExprSize(lhs) + ExprSize(rhs)
    case Unary(_, operand) => 2 + ExprSize(operand)
    case Call(_, typeArgs, args) => 1 + TypesSize(typeArgs) + ExprsSize(args)
    case MethodCall(receiver, _, typeArgs, args) =>
      2 + ExprSize(receiver) + TypesSize(typeArgs) + ExprsSize(args)
    case StructInit(_, typeArgs, fields) => 1 + TypesSize(typeArgs) + FieldsSize(fields)
    case Field(base, _) => 2 + ExprSize(base)
    case Index(base, index) => 3 + ExprSize(base) + ExprSize(index)
    case Slice(base, lo, hi) =>
      2 + ExprSize(base) + (if lo.Some? then 1 + ExprSize(lo.value) else 0)
        + (if hi.Some? then 1 + ExprSize(hi.value) else 0)
    case ArrayLit(values) => 1 + ExprsSize(values)
    case TupleLit(values) => 1 + ExprsSize(values)
    case Cast(operand, target) => 3 + ExprSize(operand) + TypeSize(target)
    case AddrOf(operand) => 2 + ExprSize(operand)
    case Deref(operand) => 2 + ExprSize(operand)
    case _ => 1
  }

  ghost function ExprsSize(es: seq<Expr>): nat {
    if es == [] then 0 else 1 + ExprSize(es[0]) + ExprsSize(es[1..])
  }

  ghost function FieldsSize(fields: seq<FieldInit>): (n: nat) {
    if fields == [] then 0 else 1 + ExprSize(fields[0].value) + FieldsSize(fields[1..])
  }

  lemma FieldsSizeIsExprsSize(fields: seq<FieldInit>)
    ensures FieldsSize(fields) == ExprsSize(FieldValues(fields))
  {
    if fields != [] {
      assert FieldValues(fields)[1..] == FieldValues(fields[1..]);
    }
  }

  lemma PairSize(a: Expr, b: Expr)
    ensures ExprsSize([a, b]) == 2 + ExprSize(a) + ExprSize(b)
  {
    assert [a, b][1..] == [b] && [b][1..] == [];
    assert ExprsSize([b]) == 1 + ExprSize(b);
  }

  lemma OptionSize(o: Option<Expr>)
    ensures ExprsSize(OptionList(o)) == if o.Some? then 1 + ExprSize(o.value) else 0
  {
    if o.Some? {
      assert OptionList(o)[1..] == [];
    }
  }

  lemma SliceSize(base: Expr, lo: Option<Expr>, hi: Option<Expr>)
    ensures ExprsSize([base] + OptionList(lo) + OptionList(hi)) < ExprSize(Slice(base, lo, hi))
  {
    var rest := OptionList(lo) + OptionList(hi);
    assert ([base] + OptionList(lo) + OptionList(hi))[1..] == rest;
    OptionSize(hi);
    if lo.Some? {
      assert rest[1..] == OptionList(hi);
    } else {
      assert rest == OptionList(hi);
    }
  }

  /** The operands and the written types are smaller than the node. */
  lemma SizeOfOperands(e: Expr)
    ensures ExprSize(e) > ExprsSize(Operands(e)) + TypesSize(TypesIn(e))
    ensures e.MethodCall? ==>
      ExprSize(e) > ExprSize(e.receiver) + 1 + ExprsSize(e.args) + TypesSize(e.typeArgs)
  {
    match e
    case StructInit(_, _, fields) => FieldsSizeIsExprsSize(fields);
    case Binary(_, lhs, rhs) => PairSize(lhs, rhs);
    case Index(base, index) => PairSize(base, index);
    case Slice(base, lo, hi) => SliceSize(base, lo, hi);
    case _ =>
  }

  // ---------------------------------------------------------------------------
  // Statements
  // ---------------------------------------------------------------------------

  datatype Block = Block(stmts: seq<Stmt>)

  datatype Pattern =
    | Variant(enum: string, variant: string, binding: Option<string>)
    | Wildcard

  datatype Arm = Arm(pattern: Pattern, body: Block)

  datatype Stmt =
    | Return(value: Option<Expr>)
    | ExprStmt(expr: Expr)
    | Let(name: string, ty: Option<Type>, init: Option<Expr>)
    | LetTuple(names: seq<string>, source: Expr)
    | Assign(target: string, rhs: Expr)
    | AssignIndex(place: Expr, rhs: Expr)
    | If(cond: Expr, thn: Block, els: Option<Block>)
    | While(cond: Expr, body: Block)
    | For(variable: string, iter: Expr, body: Block)
    | Switch(scrutinee: Expr, arms: seq<Arm>)
    | Defer(expr: Expr)
    | Break
    | Continue

  function ArmBodies(arms: seq<Arm>): (bodies: seq<Block>)
    ensures |bodies| == |arms|
  {
    seq(|arms|, i requires 0 <= i < |arms| => arms[i].body)
  }

  function WithArmBodies(arms: seq<Arm>, bodies: seq<Block>): (r: seq<Arm>)
    requires |bodies| == |arms|
    ensures |r| == |arms| && ArmBodies(r) == bodies
    ensures forall i | 0 <= i < |r| :: r[i].pattern == arms[i].pattern
  {
    seq(|arms|, i requires 0 <= i < |arms| => Arm(arms[i].pattern, bodies[i]))
  }

  // A statement is visited types first, then expressions, then blocks.

  function StmtTypes(s: Stmt): seq<Type> {
    match s
    case Let(_, ty, _) => OptionList(ty)
    case _ => []
  }

  function StmtExprs(s: Stmt): seq<Expr> {
    match s
    case Return(value) => OptionList(value)
    case ExprStmt(expr) => [expr]
    case Let(_, _, init) => OptionList(init)
    case LetTuple(_, source) => [source]
    case Assign(_, rhs) => [rhs]
    case AssignIndex(place, rhs) => [place, rhs]
    case If(cond, _, _) => [cond]
    case While(cond, _) => [cond]
    case For(_, iter, _) => [iter]
    case Switch(scrutinee, _) => [scrutinee]
    case Defer(expr) => [expr]
    case Break => []
    case Continue => []
  }

  function StmtBlocks(s: Stmt): seq<Block> {
    match s
    case If(_, thn, els) => [thn] + OptionList(els)
    case While(_, body) => [body]
    case For(_, _, body) => [body]
    case Switch(_, arms) => ArmBodies(arms)
    case _ => []
  }

  function RebuildStmt(s: Stmt, types: seq<Type>, exprs: seq<Expr>, blocks: seq<Block>): (r: Stmt)
    requires |types| == |StmtTypes(s)| && |exprs| == |StmtExprs(s)| && |blocks| == |StmtBlocks(s)|
    ensures StmtTypes(r) == types && StmtExprs(r) == exprs && StmtBlocks(r) == blocks
  {
    match s
    case Return(value) => Return(if value.Some? then Some(exprs[0]) else None)
    case ExprStmt(_) => ExprStmt(exprs[0])
    case Let(name, ty, init) =>
      Let(name, if ty.Some? then Some(types[0]) else None, if init.Some? then Some(exprs[0]) else None)
    case LetTuple(names, _) => LetTuple(names, exprs[0])
    case Assign(target, _) => Assign(target, exprs[0])
    case AssignIndex(_, _) => AssignIndex(exprs[0], exprs[1])
    case If(_, _, els) => If(exprs[0], blocks[0], if els.Some? then Some(blocks[1]) else None)
    case While(_, _) => While(exprs[0], blocks[0])
    case For(variable, _, _) => For(variable, exprs[0], blocks[0])
    case Switch(_, arms) => Switch(exprs[0], WithArmBodies(arms, blocks))
    case Defer(_) => Defer(exprs[0])
    case Break => Break
    case Continue => Continue
  }

  ghost function StmtSize(s: Stmt): (n: nat)
    ensures n > 0
    decreases s, 1
  {
    1 + TypesSize(StmtTypes(s)) + ExprsSize(StmtExprs(s)) +
    match s
    case If(_, thn, els) =>
      1 + BlockSize(thn) + (if els.Some? then 1 + BlockSize(els.value) else 0)
    case While(_, body) => 1 + BlockSize(body)
    case For(_, _, body) => 1 + BlockSize(body)
    case Switch(_, arms) => ArmsSize(arms)
    case _ => 0
  }

  ghost function BlockSize(b: Block): nat
    decreases b, 0
  {
    StmtsSize(b.stmts)
  }

  ghost function StmtsSize(ss: seq<Stmt>): nat
    decreases ss, 0
  {
    if ss == [] then 0 else 1 + StmtSize(ss[0]) + StmtsSize(ss[1..])
  }

  ghost function ArmSize(arm: Arm): nat
    decreases arm, 0
  {
    BlockSize(arm.body)
  }

  ghost function ArmsSize(arms: seq<Arm>): nat
    decreases arms, 0
  {
    if arms == [] then 0
    else 1 + ArmSize(arms[0]) + ArmsSize(arms[1..])
  }

  ghost function BlocksSize(bs: seq<Block>): nat {
    if bs == [] then 0 else 1 + BlockSize(bs[0]) + BlocksSize(bs[1..])
  }

  lemma ArmsSizeIsBlocksSize(arms: seq<Arm>)
    ensures ArmsSize(arms) == BlocksSize(ArmBodies(arms))
  {
    if arms != [] {
      assert ArmBodies(arms)[1..] == ArmBodies(arms[1..]);
    }
  }

  lemma SizeOfStmtParts(s: Stmt)
    ensures StmtSize(s) ==
      1 + TypesSize(StmtTypes(s)) + ExprsSize(StmtExprs(s)) + BlocksSize(StmtBlocks(s))
  {
    match s
    case If(_, thn, els) =>
      assert StmtBlocks(s)[1..] == OptionList(els) && OptionList(els)[|OptionList(els)|..] == [];
      if els.Some? { assert BlocksSize([els.value]) == 1 + BlockSize(els.value); }
    case Switch(_, arms) => ArmsSizeIsBlocksSize(arms);
    case _ =>
  }

  // ---------------------------------------------------------------------------
  // Items
  // ---------------------------------------------------------------------------

  datatype Param = Param(name: string, ty: Type)

  datatype Prototype = Prototype(
    name: string, typeParams: seq<string>, params: seq<Param>, ret: Type, variadic: bool)

  datatype Function = Function(proto: Prototype, body: Block)

  datatype StructDef = StructDef(name: string, typeParams: seq<string>, fields: seq<Param>)

  datatype EnumVariant = EnumVariant(name: string, payload: Option<Type>)

  datatype EnumDef = EnumDef(name: string, typeParams: seq<string>, variants: seq<EnumVariant>)

  datatype Static = Static(name: string, ty: Type, init: Option<Expr>)

  datatype Item =
    | ExternItem(extern: Prototype)
    | FunctionItem(fn: Function)
    | StructItem(structDef: StructDef)
    | EnumItem(enumDef: EnumDef)
    | ImportItem(path: string)
    | StaticItem(global: Static)

  // ---------------------------------------------------------------------------
  // The types of a declaration
  // ---------------------------------------------------------------------------

  function ParamTypes(params: seq<Param>): (ts: seq<Type>)
    ensures |ts| == |params|
  {
    seq(|params|, i requires 0 <= i < |params| => params[i].ty)
  }

  function PayloadTypes(variants: seq<EnumVariant>): seq<Type> {
    if variants == [] then [] else OptionList(variants[0].payload) + PayloadTypes(variants[1..])
  }
}
