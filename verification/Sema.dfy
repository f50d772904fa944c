/** Types and scopes, as semantic analysis computes them and as code generation computes them
    again: on a stack of scopes, and on one flat map that is saved and restored. */
module Sema {
  import opened Ast
  import opened Wrappers
  import opened Scopes
  import opened Values

  datatype Sig = Sig(params: seq<Type>, ret: Type, variadic: bool)

  /** What the items of a program declare. */
  datatype Tables = Tables(
    structs: map<string, seq<Param>>, enums: Enums, functions: map<string, Sig>, globals: map<string, Type>)

  /** A declared variable. Locals are told apart by the order of their declarations. */
  datatype Decl = Local(ty: Type, number: nat) | Global(ty: Type)

  type DeclScopes = seq<map<string, Decl>>

  // ---------------------------------------------------------------------------
  // Relations between types
  // ---------------------------------------------------------------------------

  predicate IsNumeric(t: Type) {
    IsInteger(t) || t == Float
  }

  predicate Assignable(source: Type, target: Type) {
    source == target || (IsInteger(source) && IsInteger(target)) || (source.Fn? && IsInteger(target))
    || (source.Tuple? && target.Tuple? && AllAssignable(source.elements, target.elements))
  }

  predicate AllAssignable(sources: seq<Type>, targets: seq<Type>) {
    |sources| == |targets| &&
    (sources == [] || (Assignable(sources[0], targets[0]) && AllAssignable(sources[1..], targets[1..])))
  }

  predicate Comparable(left: Type, right: Type) {
    Assignable(left, right) || Assignable(right, left) || (left.Ptr? && right == Int) || (left == Int && right.Ptr?)
  }

  predicate Castable(source: Type, target: Type) {
    (IsNumeric(source) && IsNumeric(target)) || (source.Ptr? && IsInteger(target))
    || (IsInteger(source) && target.Ptr?) || (source.Ptr? && target.Ptr?)
  }

  /** The common type of two numbers, as semantic analysis has it. */
  function CommonNumeric(left: Type, right: Type): Type {
    if left == Float || right == Float then Float
    else
      var l, r := NumericWidth(left), NumericWidth(right);
      var bits := if l >= r then l else r;
      if left == Int && right == Int then Int
      else if bits <= 8 then U8
      else if bits <= 16 then U16
      else if bits <= 32 then U32
      else U64
  }

  function NumericWidth(t: Type): nat {
    match t
    case U8 => 8
    case U16 => 16
    case Int => 32
    case U32 => 32
    case U64 => 64
    case _ => 0
  }

  predicate IsPointer(t: Type) {
    t.Ptr? || t.Str?
  }

  // ---------------------------------------------------------------------------
  // Builtins
  // ---------------------------------------------------------------------------

  /** The builtins, by the type of their result. */
  function BuiltinReturn(name: string): Option<Type> {
    if name in {"print", "println", "outb", "outl", "cli", "sti", "hlt"} then Some(Int)
    else if name in {"inb", "volatile_load8"} then Some(U8)
    else if name in {"volatile_load16"} then Some(U16)
    else if name in {"inl", "volatile_load32", "atomic_xchg", "rdtsc"} then Some(Int)
    else if name in {"volatile_load64", "ptr_to_int"} then Some(U64)
    else if name in {"volatile_store8", "volatile_store16", "volatile_store32", "volatile_store64"} then Some(Int)
    else if name in {"int_to_ptr", "str_from_ptr"} then Some(Str)
    else if name in {"str_ptr"} then Some(Ptr(U8))
    else if name in {"len"} then Some(U64)
    else None
  }

  /** The same names, as code generation lists them. */
  function TypeofBuiltin(name: string): Option<Type> {
    if name in {"int_to_ptr", "str_from_ptr"} then Some(Str)
    else if name in {"ptr_to_int", "volatile_load64", "len", "sizeof", "alignof"} then Some(U64)
    else if name in {"str_ptr"} then Some(Ptr(U8))
    else if name in {"volatile_load8", "inb"} then Some(U8)
    else if name in {"volatile_load16"} then Some(U16)
    else if name in {"range", "print", "println", "outb", "outl", "inl", "cli", "sti", "hlt",
                     "volatile_load32", "atomic_xchg", "rdtsc", "volatile_store8",
                     "volatile_store16", "volatile_store32", "volatile_store64"} then Some(Int)
    else None
  }

  // ---------------------------------------------------------------------------
  // The type of an expression, checked
  // ---------------------------------------------------------------------------

  function FieldType(fields: seq<Param>, name: string): Option<Type> {
    if fields == [] then None
    else if fields[0].name == name then Some(fields[0].ty)
    else FieldType(fields[1..], name)
  }

  /** The innermost declaration in scope, or else the static. */
  function Visible(t: Tables, scopes: DeclScopes, name: string): Option<Decl> {
    var local := Lookup(scopes, name);
    if local.Some? then local
    else if name in t.globals then Some(Global(t.globals[name]))
    else None
  }

  function VariableType(t: Tables, scopes: DeclScopes, name: string): Option<Type> {
    var decl := Visible(t, scopes, name);
    if decl.Some? then Some(decl.value.ty) else None
  }

  /** Field access goes through one pointer. */
  function StructName(base: Type): Option<string> {
    match base
    case Named(name) => Some(name)
    case Ptr(inner) => if inner.Named? then Some(inner.name) else None
    case _ => None
  }

  function FieldOf(t: Tables, base: Type, field: string): Option<Type> {
    var name := StructName(base);
    if name.Some? && name.value in t.structs then FieldType(t.structs[name.value], field) else None
  }

  function ElementType(base: Type): Option<Type> {
    match base
    case Array(element, _) => Some(element)
    case Ptr(element) => Some(element)
    case Str => Some(U8)
    case _ => None
  }

  function PointeeType(pointer: Type): Option<Type> {
    match pointer
    case Ptr(t) => Some(t)
    case Str => Some(U8)
    case _ => None
  }

  function CheckedType(t: Tables, scopes: DeclScopes, e: Expr): Option<Type>
    decreases e, 0
  {
    match e
    case IntLit(_) => Some(Int)
    case FloatLit(_) => Some(Float)
    case BoolLit(_) => Some(Bool)
    case StrLit(_) => Some(Str)
    case Var(name) => VariableType(t, scopes, name)
    case AddrOf(inner) =>
      if inner.Var? && inner.name in t.functions then
        Some(Fn(t.functions[inner.name].params, t.functions[inner.name].ret))
      else
        var ty := CheckedType(t, scopes, inner);
        if ty.Some? then Some(Ptr(ty.value)) else None
    case Deref(inner) =>
      var ty := CheckedType(t, scopes, inner);
      if ty.Some? then PointeeType(ty.value) else None
    case Unary(op, operand) =>
      var ty := CheckedType(t, scopes, operand);
      if ty.None? then None
      else if op == Not then if ty.value == Bool then ty else None
      else if op == Neg then if IsNumeric(ty.value) then ty else None
      else if IsInteger(ty.value) then ty else None
    case Binary(op, lhs, rhs) =>
      var l := CheckedType(t, scopes, lhs);
      var r := CheckedType(t, scopes, rhs);
      if l.None? || r.None? then None else BinaryType(op, l.value, r.value)
    case Call(callee, typeArgs, args) =>
      if callee == "sizeof" || callee == "alignof" then
        if |typeArgs| == 1 && args == [] then Some(U64) else None
      else
        var types := CheckedTypes(t, scopes, args);
        if types.None? then None else CallType(t, scopes, callee, types.value)
    case MethodCall(receiver, name, _, args) =>
      var types := CheckedTypes(t, scopes, args);
      if receiver.Var? && receiver.name in t.enums then
        var index := VariantIndex(t.enums[receiver.name], name);
        if index.None? || types.None? then None
        else if PayloadAccepted(t.enums[receiver.name][index.value].payload, types.value) then Some(Named(receiver.name))
        else None
      else
        var self := CheckedType(t, scopes, receiver);
        if self.None? || types.None? || name !in t.functions then None
        else if MethodAccepted(t.functions[name].params, self.value, types.value) then Some(t.functions[name].ret)
        else None
    case StructInit(name, _, fields) =>
      if name in t.structs && FieldsChecked(t, scopes, t.structs[name], fields) then Some(Named(name)) else None
    case Field(base, field) =>
      var ty := CheckedType(t, scopes, base);
      if ty.Some? then FieldOf(t, ty.value, field) else None
    case Index(base, index) =>
      var i := CheckedType(t, scopes, index);
      var b := CheckedType(t, scopes, base);
      if i.Some? && b.Some? && IsInteger(i.value) then ElementType(b.value) else None
    case Slice(base, lo, hi) =>
      if CheckedType(t, scopes, base) == Some(Str)
         && (lo.Some? ==> IsIntegerExpr(CheckedType(t, scopes, lo.value)))
         && (hi.Some? ==> IsIntegerExpr(CheckedType(t, scopes, hi.value)))
      then Some(Str) else None
    case ArrayLit(values) =>
      var types := CheckedTypes(t, scopes, values);
      if types.None? || types.value == [] then None
      else if forall i | 0 < i < |types.value| :: Assignable(types.value[i], types.value[0])
      then Some(Array(types.value[0], |values|)) else None
    case TupleLit(values) =>
      var types := CheckedTypes(t, scopes, values);
      if types.Some? then Some(Tuple(types.value)) else None
    case Cast(operand, target) =>
      var ty := CheckedType(t, scopes, operand);
      if ty.Some? && Castable(ty.value, target) then Some(target) else None
  }

  predicate IsIntegerExpr(t: Option<Type>) {
    t.Some? && IsInteger(t.value)
  }

  function CheckedTypes(t: Tables, scopes: DeclScopes, es: seq<Expr>): (r: Option<seq<Type>>)
    ensures r.Some? ==> |r.value| == |es|
    decreases es, 0
  {
    if es == [] then Some([])
    else
      var first := CheckedType(t, scopes, es[0]);
      var rest := CheckedTypes(t, scopes, es[1..]);
      if first.Some? && rest.Some? then Some([first.value] + rest.value) else None
  }

  predicate FieldsChecked(t: Tables, scopes: DeclScopes, params: seq<Param>, fields: seq<FieldInit>)
    decreases fields, 0
  {
    fields == [] ||
    (FieldChecked(t, scopes, params, fields[0]) && FieldsChecked(t, scopes, params, fields[1..]))
  }

  predicate FieldChecked(t: Tables, scopes: DeclScopes, params: seq<Param>, field: FieldInit)
    decreases field, 0
  {
    var expected := FieldType(params, field.name);
    var actual := CheckedType(t, scopes, field.value);
    expected.Some? && actual.Some? && Assignable(actual.value, expected.value)
  }

  function BinaryType(op: BinOp, left: Type, right: Type): Option<Type> {
    match op
    case And => if left == Bool && right == Bool then Some(Bool) else None
    case Or => if left == Bool && right == Bool then Some(Bool) else None
    case Eq => if Comparable(left, right) then Some(Bool) else None
    case Ne => if Comparable(left, right) then Some(Bool) else None
    case Lt => if IsNumeric(left) && IsNumeric(right) then Some(Bool) else None
    case Gt => if IsNumeric(left) && IsNumeric(right) then Some(Bool) else None
    case Le => if IsNumeric(left) && IsNumeric(right) then Some(Bool) else None
    case Ge => if IsNumeric(left) && IsNumeric(right) then Some(Bool) else None
    case In =>
      if (right.Array? && Assignable(left, right.element)) || (right.Str? && IsInteger(left)) then Some(Bool) else None
    case _ =>
      if (op == Add || op == Sub) && IsPointer(left) && IsInteger(right) then Some(left)
      else if op == Add && IsPointer(right) && IsInteger(left) then Some(right)
      else if op in {Add, Sub, Mul, Div, Mod} && IsNumeric(left) && IsNumeric(right) then Some(CommonNumeric(left, right))
      else if op in {BitAnd, BitOr, BitXor, Shl, Shr} && IsInteger(left) && IsInteger(right) then
        Some(CommonNumeric(left, right))
      else None
  }

  /** Arguments may be more than the parameters if the function is variadic. */
  predicate ArgsAccepted(params: seq<Type>, variadic: bool, args: seq<Type>) {
    |args| >= |params| && (variadic || |args| == |params|)
    && forall i | 0 <= i < |params| :: Assignable(args[i], params[i])
  }

  /** A function takes precedence over a variable of its name. */
  function CallType(t: Tables, scopes: DeclScopes, callee: string, args: seq<Type>): Option<Type> {
    if callee == "range" then if |args| == 1 && IsInteger(args[0]) then Some(Int) else None
    else if BuiltinReturn(callee).Some? then BuiltinReturn(callee)
    else if callee in t.functions then
      var sig := t.functions[callee];
      if ArgsAccepted(sig.params, sig.variadic, args) then Some(sig.ret) else None
    else
      var ty := VariableType(t, scopes, callee);
      if ty.Some? && ty.value.Fn? && ArgsAccepted(ty.value.params, false, args) then Some(ty.value.ret) else None
  }

  predicate PayloadAccepted(payload: Option<Type>, args: seq<Type>) {
    match payload
    case None => args == []
    case Some(expected) => |args| == 1 && Assignable(args[0], expected)
  }

  predicate MethodAccepted(params: seq<Type>, self: Type, args: seq<Type>) {
    params != [] && |args| + 1 == |params| && (Assignable(self, params[0]) || params[0] == Ptr(self))
    && forall i | 0 <= i < |args| :: Assignable(args[i], params[i + 1])
  }

  // ---------------------------------------------------------------------------
  // The type of an expression, looked up
  // ---------------------------------------------------------------------------

  function TypeofExpr(t: Tables, vars: map<string, Decl>, e: Expr): Option<Type>
    decreases e, 0
  {
    match e
    case IntLit(_) => Some(Int)
    case FloatLit(_) => Some(Float)
    case BoolLit(_) => Some(Bool)
    case StrLit(_) => Some(Str)
    case Var(name) => if name in vars then Some(vars[name].ty) else None
    case AddrOf(inner) =>
      if inner.Var? && inner.name in t.functions then
        Some(Fn(t.functions[inner.name].params, t.functions[inner.name].ret))
      else
        var ty := TypeofExpr(t, vars, inner);
        if ty.Some? then Some(Ptr(ty.value)) else None
    case Deref(inner) =>
      var ty := TypeofExpr(t, vars, inner);
      if ty.Some? then PointeeType(ty.value) else None
    case Index(base, _) =>
      var ty := TypeofExpr(t, vars, base);
      if ty.Some? then ElementType(ty.value) else None
    case Field(base, field) =>
      var ty := TypeofExpr(t, vars, base);
      if ty.Some? then FieldOf(t, ty.value, field) else None
    case Slice(_, _, _) => Some(Str)
    case ArrayLit(values) =>
      if values == [] then None
      else
        var ty := TypeofExpr(t, vars, values[0]);
        if ty.Some? then Some(Array(ty.value, |values|)) else None
    case TupleLit(values) =>
      var types := TypeofExprs(t, vars, values);
      if types.Some? then Some(Tuple(types.value)) else None
    case Binary(op, lhs, rhs) =>
      var l := TypeofExpr(t, vars, lhs);
      var r := TypeofExpr(t, vars, rhs);
      if l.None? || r.None? then None else Some(TypeofBinary(op, l.value, r.value))
    case Unary(op, operand) => if op == Not then Some(Bool) else TypeofExpr(t, vars, operand)
    case Cast(_, target) => Some(target)
    case StructInit(name, _, _) => Some(Named(name))
    case Call(callee, _, _) =>
      if TypeofBuiltin(callee).Some? then TypeofBuiltin(callee)
      else if callee in vars && vars[callee].ty.Fn? then Some(vars[callee].ty.ret)
      else if callee in t.functions then Some(t.functions[callee].ret)
      else None
    case MethodCall(receiver, name, _, _) =>
      if receiver.Var? && receiver.name in t.enums && VariantIndex(t.enums[receiver.name], name).Some? then
        Some(Named(receiver.name))
      else if name in t.functions then Some(t.functions[name].ret)
      else None
  }

  function TypeofExprs(t: Tables, vars: map<string, Decl>, es: seq<Expr>): Option<seq<Type>>
    decreases es, 0
  {
    if es == [] then Some([])
    else
      var first := TypeofExpr(t, vars, es[0]);
      var rest := TypeofExprs(t, vars, es[1..]);
      if first.Some? && rest.Some? then Some([first.value] + rest.value) else None
  }

  function TypeofBinary(op: BinOp, left: Type, right: Type): Type {
    if op == Add || op == Sub then
      if IsPointer(left) then left
      else if IsPointer(right) then right
      else if left == Float || right == Float then Float
      else CommonInteger(left, right)
    else if op in {Eq, Ne, Lt, Gt, Le, Ge, And, Or, In} then Bool
    else if left == Float || right == Float then Float
    else CommonInteger(left, right)
  }
}
