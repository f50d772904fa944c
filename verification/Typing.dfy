/** The typing rules of the language: which types an expression has and which statements are well typed, with
    the types of the visible variables in one map and the names of the current block beside it. */
module Typing {
  import opened Ast
  import opened Wrappers
  import opened Values
  import opened Patterns
  import opened Source
  import opened Sema
  import opened Walks

  type Vars = map<string, Type>

  // ---------------------------------------------------------------------------
  // Relations between types
  // ---------------------------------------------------------------------------

  /** Where `target` is wanted, a value of the type `source` will do: integers stand for each other, function
      pointers for integers, and tuples for tuples element by element. */
  predicate Accepts(target: Type, source: Type)
    decreases source
  {
    source == target
    || (IsInteger(target) && (IsInteger(source) || source.Fn?))
    || (source.Tuple? && target.Tuple? && |source.elements| == |target.elements|
        && forall i | 0 <= i < |source.elements| :: Accepts(target.elements[i], source.elements[i]))
  }

  /** The type of a sum: a float with a float, else as wide as the wider operand, and signed only if both
      are. */
  predicate IsCommon(a: Type, b: Type, ty: Type)
    requires IsNumeric(a) && IsNumeric(b)
  {
    if a == Float || b == Float then ty == Float
    else
      IsInteger(ty) && (ty == Int <==> a == Int && b == Int)
      && Bits(ty) >= Bits(a) && Bits(ty) >= Bits(b) && (Bits(ty) == Bits(a) || Bits(ty) == Bits(b))
  }

  function Bits(t: Type): nat
    requires IsInteger(t)
  {
    IntegerWidth(t).value
  }

  /** The operator takes operands of these types and gives one of the type `ty`. */
  predicate Operates(op: BinOp, a: Type, b: Type, ty: Type) {
    if op == And || op == Or then a == Bool && b == Bool && ty == Bool
    else if op == Eq || op == Ne then
      ty == Bool && (Accepts(a, b) || Accepts(b, a) || (a.Ptr? && b == Int) || (b.Ptr? && a == Int))
    else if op in {Lt, Gt, Le, Ge} then ty == Bool && IsNumeric(a) && IsNumeric(b)
    else if op == In then
      ty == Bool && ((b.Array? && Accepts(b.element, a)) || (b == Str && IsInteger(a)))
    else
      (op in {Add, Sub} && IsPointer(a) && IsInteger(b) && ty == a)
      || (op == Add && IsInteger(a) && IsPointer(b) && ty == b)
      || (op in {Add, Sub, Mul, Div, Mod} && IsNumeric(a) && IsNumeric(b) && IsCommon(a, b, ty))
      || (op in {BitAnd, BitOr, BitXor, Shl, Shr} && IsInteger(a) && IsInteger(b) && IsCommon(a, b, ty))
  }

  /** Numbers and pointers can be cast, but no float to or from a pointer. */
  predicate Casts(a: Type, b: Type) {
    (IsNumeric(a) || a.Ptr?) && (IsNumeric(b) || b.Ptr?) && (a == Float ==> !b.Ptr?) && (b == Float ==> !a.Ptr?)
  }

  predicate Takes(params: seq<Type>, variadic: bool, args: seq<Type>) {
    |params| <= |args| && (|params| < |args| ==> variadic) && forall i | 0 <= i < |params| :: Accepts(params[i], args[i])
  }

  /** The first field of the name. */
  predicate HasField(fields: seq<Param>, name: string, ty: Type) {
    exists i | 0 <= i < |fields| :: fields[i].name == name && fields[i].ty == ty && NoneBefore(fields, i, name)
  }

  predicate NoneBefore(fields: seq<Param>, i: nat, name: string)
    requires i <= |fields|
  {
    forall j | 0 <= j < i :: fields[j].name != name
  }

  /** The first variant of the name. */
  predicate HasVariant(variants: seq<EnumVariant>, name: string, payload: Option<Type>) {
    exists i | 0 <= i < |variants| ::
      variants[i].name == name && variants[i].payload == payload && forall j | 0 <= j < i :: variants[j].name != name
  }

  /** What a place of an array, a string or memory holds. */
  predicate Holds(base: Type, ty: Type) {
    (base.Array? && ty == base.element) || (base.Ptr? && ty == base.pointee) || (base == Str && ty == U8)
  }

  // ---------------------------------------------------------------------------
  // Expressions
  // ---------------------------------------------------------------------------

  ghost predicate HasType(t: Tables, g: Vars, e: Expr, ty: Type)
    decreases e, 1
  {
    match e
    case IntLit(_) => ty == Int
    case FloatLit(_) => ty == Float
    case BoolLit(_) => ty == Bool
    case StrLit(_) => ty == Str
    case Var(name) => name in g && g[name] == ty
    case Unary(_, _) => UnaryHasType(t, g, e, ty)
    case Binary(_, _, _) => BinaryHasType(t, g, e, ty)
    case Call(_, _, _) => CallHasType(t, g, e, ty)
    case MethodCall(receiver, _, _, _) =>
      if receiver.Var? && receiver.name in t.enums then ConstructorHasType(t, g, e, ty) else MethodHasType(t, g, e, ty)
    case StructInit(name, _, fields) => ty == Named(name) && name in t.structs && FieldsHold(t, g, t.structs[name], fields)
    case Field(_, _) => FieldHasType(t, g, e, ty)
    case Index(_, _) => IndexHasType(t, g, e, ty)
    case Slice(_, _, _) => SliceHasType(t, g, e, ty)
    case ArrayLit(_) => ArrayHasType(t, g, e, ty)
    case TupleLit(values) => ty.Tuple? && HasTypes(t, g, values, ty.elements)
    case Cast(_, _) => CastHasType(t, g, e, ty)
    case AddrOf(_) => AddressHasType(t, g, e, ty)
    case Deref(_) => PlaceHasType(t, g, e, ty)
  }

  ghost predicate UnaryHasType(t: Tables, g: Vars, e: Expr, ty: Type)
    requires e.Unary?
    decreases e, 0
  {
    HasType(t, g, e.operand, ty)
    && match e.unop { case Not => ty == Bool case Neg => IsNumeric(ty) case BitNot => IsInteger(ty) }
  }

  ghost predicate BinaryHasType(t: Tables, g: Vars, e: Expr, ty: Type)
    requires e.Binary?
    decreases e, 0
  {
    exists a, b :: HasType(t, g, e.lhs, a) && HasType(t, g, e.rhs, b) && Operates(e.op, a, b, ty)
  }

  ghost predicate CallHasType(t: Tables, g: Vars, e: Expr, ty: Type)
    requires e.Call?
    decreases e, 0
  {
    if e.callee == "sizeof" || e.callee == "alignof" then |e.typeArgs| == 1 && e.args == [] && ty == U64
    else exists types :: HasTypes(t, g, e.args, types) && CallGives(t, g, e.callee, types, ty)
  }

  ghost predicate ConstructorHasType(t: Tables, g: Vars, e: Expr, ty: Type)
    requires e.MethodCall? && e.receiver.Var? && e.receiver.name in t.enums
    decreases e, 0
  {
    ty == Named(e.receiver.name)
    && exists types :: HasTypes(t, g, e.args, types) && Constructs(t.enums[e.receiver.name], e.methodName, types)
  }

  ghost predicate MethodHasType(t: Tables, g: Vars, e: Expr, ty: Type)
    requires e.MethodCall?
    decreases e, 0
  {
    exists self, types :: HasType(t, g, e.receiver, self) && HasTypes(t, g, e.args, types)
      && MethodGives(t, e.methodName, self, types, ty)
  }

  ghost predicate FieldHasType(t: Tables, g: Vars, e: Expr, ty: Type)
    requires e.Field?
    decreases e, 0
  {
    exists b :: HasType(t, g, e.base, b) && FieldGives(t, b, e.field, ty)
  }

  ghost predicate IndexHasType(t: Tables, g: Vars, e: Expr, ty: Type)
    requires e.Index?
    decreases e, 0
  {
    exists b, i :: HasType(t, g, e.base, b) && HasType(t, g, e.index, i) && IsInteger(i) && Holds(b, ty)
  }

  ghost predicate SliceHasType(t: Tables, g: Vars, e: Expr, ty: Type)
    requires e.Slice?
    decreases e, 0
  {
    ty == Str && HasType(t, g, e.base, Str)
    && (e.lo.Some? ==> exists i :: HasType(t, g, e.lo.value, i) && IsInteger(i))
    && (e.hi.Some? ==> exists i :: HasType(t, g, e.hi.value, i) && IsInteger(i))
  }

  /** The elements are like the first. */
  ghost predicate ArrayHasType(t: Tables, g: Vars, e: Expr, ty: Type)
    requires e.ArrayLit?
    decreases e, 0
  {
    exists types :: HasTypes(t, g, e.values, types) && types != [] && ty == Array(types[0], |e.values|)
      && forall i | 0 <= i < |types| :: Accepts(types[0], types[i])
  }

  ghost predicate CastHasType(t: Tables, g: Vars, e: Expr, ty: Type)
    requires e.Cast?
    decreases e, 0
  {
    ty == e.target && exists a :: HasType(t, g, e.operand, a) && Casts(a, e.target)
  }

  ghost predicate AddressHasType(t: Tables, g: Vars, e: Expr, ty: Type)
    requires e.AddrOf?
    decreases e, 0
  {
    if e.operand.Var? && e.operand.name in t.functions then
      ty == Fn(t.functions[e.operand.name].params, t.functions[e.operand.name].ret)
    else ty.Ptr? && HasType(t, g, e.operand, ty.pointee)
  }

  ghost predicate PlaceHasType(t: Tables, g: Vars, e: Expr, ty: Type)
    requires e.Deref?
    decreases e, 0
  {
    exists b :: HasType(t, g, e.operand, b) && !b.Array? && Holds(b, ty)
  }

  ghost predicate HasTypes(t: Tables, g: Vars, es: seq<Expr>, types: seq<Type>)
    decreases es, 0
  {
    |es| == |types| && (es == [] || (HasType(t, g, es[0], types[0]) && HasTypes(t, g, es[1..], types[1..])))
  }

  ghost predicate FieldsHold(t: Tables, g: Vars, params: seq<Param>, fields: seq<FieldInit>)
    decreases fields, 1
  {
    fields == [] || (FieldHolds(t, g, params, fields[0]) && FieldsHold(t, g, params, fields[1..]))
  }

  ghost predicate FieldHolds(t: Tables, g: Vars, params: seq<Param>, field: FieldInit)
    decreases field, 0
  {
    exists a, b :: HasType(t, g, field.value, a) && HasField(params, field.name, b) && Accepts(b, a)
  }

  /** A call of a builtin, of a function, or of a function pointer if there is no function of its name. */
  ghost predicate CallGives(t: Tables, g: Vars, callee: string, args: seq<Type>, ty: Type) {
    if callee == "range" then ty == Int && |args| == 1 && IsInteger(args[0])
    else if BuiltinReturn(callee).Some? then ty == BuiltinReturn(callee).value
    else if callee in t.functions then
      ty == t.functions[callee].ret && Takes(t.functions[callee].params, t.functions[callee].variadic, args)
    else callee in g && g[callee].Fn? && ty == g[callee].ret && Takes(g[callee].params, false, args)
  }

  /** The constructor of a variant takes what the variant holds. */
  ghost predicate Constructs(variants: seq<EnumVariant>, name: string, args: seq<Type>) {
    exists payload :: HasVariant(variants, name, payload) && Takes(OptionList(payload), false, args)
  }

  /** A field of a struct, or through one pointer to it. */
  ghost predicate FieldGives(t: Tables, base: Type, field: string, ty: Type) {
    exists s :: (base == Named(s) || base == Ptr(Named(s))) && s in t.structs && HasField(t.structs[s], field, ty)
  }

  /** A method is a function whose first parameter is the receiver, or a pointer to it. */
  ghost predicate MethodGives(t: Tables, name: string, self: Type, args: seq<Type>, ty: Type) {
    name in t.functions && ty == t.functions[name].ret
    && (Takes(t.functions[name].params, false, [self] + args)
        || (t.functions[name].params != [] && t.functions[name].params[0] == Ptr(self)
            && Takes(t.functions[name].params[1..], false, args)))
  }

  /** The expression has a type that will do where `target` is wanted. */
  ghost predicate Gives(t: Tables, g: Vars, e: Expr, target: Type) {
    exists a :: HasType(t, g, e, a) && Accepts(target, a)
  }

  // ---------------------------------------------------------------------------
  // Statements
  // ---------------------------------------------------------------------------

  function Bind(g: Vars, names: seq<string>, types: seq<Type>): Vars
    requires |names| == |types|
    decreases |names|
  {
    if names == [] then g else Bind(g[names[0] := types[0]], names[1..], types[1..])
  }

  /** Names that differ from each other and from those declared already. */
  predicate Fresh(names: seq<string>, declared: set<string>) {
    (forall i, j | 0 <= i < j < |names| :: names[i] != names[j]) && forall i | 0 <= i < |names| :: names[i] !in declared
  }

  function NameSet(names: seq<string>): set<string> {
    set x | x in names
  }

  ghost predicate Known(t: Tables, g: Vars, e: Expr) {
    exists a :: HasType(t, g, e, a)
  }

  ghost predicate LetGives(t: Tables, g: Vars, ty: Option<Type>, init: Option<Expr>, declared: Type) {
    match ty
    case Some(written) => declared == written && (init.Some? ==> Gives(t, g, init.value, written))
    case None => init.Some? && HasType(t, g, init.value, declared)
  }

  /** What a loop goes over: the elements of an array, or the numbers of a range. */
  ghost predicate Iterates(t: Tables, g: Vars, iter: Expr, element: Type) {
    exists a :: HasType(t, g, iter, a) && Yields(iter, a, element)
  }

  predicate Yields(iter: Expr, a: Type, element: Type) {
    if a.Array? then element == a.element else IsRange(iter) && element == Int
  }

  /** The statements of a block in which some names are declared already. */
  ghost predicate StmtsTyped(t: Tables, ret: Type, inLoop: bool, g: Vars, declared: set<string>, ss: seq<Stmt>)
    decreases ss, 2
  {
    if ss == [] then true
    else if ss[0].Let? then LetTyped(t, ret, inLoop, g, declared, ss)
    else if ss[0].LetTuple? then LetTupleTyped(t, ret, inLoop, g, declared, ss)
    else StmtTyped(t, ret, inLoop, g, ss[0]) && StmtsTyped(t, ret, inLoop, g, declared, ss[1..])
  }

  /** No name is declared twice in a block. */
  ghost predicate LetTyped(t: Tables, ret: Type, inLoop: bool, g: Vars, declared: set<string>, ss: seq<Stmt>)
    requires ss != [] && ss[0].Let?
    decreases ss, 1
  {
    ss[0].name !in declared
    && exists a :: LetGives(t, g, ss[0].ty, ss[0].init, a)
         && StmtsTyped(t, ret, inLoop, g[ss[0].name := a], declared + {ss[0].name}, ss[1..])
  }

  ghost predicate LetTupleTyped(t: Tables, ret: Type, inLoop: bool, g: Vars, declared: set<string>, ss: seq<Stmt>)
    requires ss != [] && ss[0].LetTuple?
    decreases ss, 1
  {
    Fresh(ss[0].names, declared)
    && exists types :: HasType(t, g, ss[0].source, Tuple(types)) && |types| == |ss[0].names|
         && StmtsTyped(t, ret, inLoop, Bind(g, ss[0].names, types), declared + NameSet(ss[0].names), ss[1..])
  }

  ghost predicate StmtTyped(t: Tables, ret: Type, inLoop: bool, g: Vars, s: Stmt)
    decreases s, 1
  {
    match s
    case Return(None) => ret == Void
    case Return(Some(e)) => ret != Void && Gives(t, g, e, ret)
    case ExprStmt(e) => Known(t, g, e)
    case Defer(e) => Known(t, g, e)
    case Assign(name, e) => name in g && Gives(t, g, e, g[name])
    case AssignIndex(place, e) => exists a :: HasType(t, g, place, a) && Gives(t, g, e, a)
    case Break => inLoop
    case Continue => inLoop
    case If(cond, thn, els) =>
      HasType(t, g, cond, Bool) && BlockTyped(t, ret, inLoop, g, thn) && (els.Some? ==> BlockTyped(t, ret, inLoop, g, els.value))
    case While(cond, body) => HasType(t, g, cond, Bool) && BlockTyped(t, ret, true, g, body)
    case For(_, _, _) => ForTyped(t, ret, g, s)
    case Switch(_, _) => SwitchTyped(t, ret, inLoop, g, s)
    case _ => false
  }

  /** The variable of a loop shares a scope with the statements of its body. */
  ghost predicate ForTyped(t: Tables, ret: Type, g: Vars, s: Stmt)
    requires s.For?
    decreases s, 0
  {
    exists a :: Iterates(t, g, s.iter, a) && StmtsTyped(t, ret, true, g[s.variable := a], {s.variable}, s.body.stmts)
  }

  ghost predicate SwitchTyped(t: Tables, ret: Type, inLoop: bool, g: Vars, s: Stmt)
    requires s.Switch?
    decreases s, 0
  {
    exists enum :: HasType(t, g, s.scrutinee, Named(enum)) && enum in t.enums && AcceptedSwitch(enum, t.enums[enum], s.arms)
      && ArmsTyped(t, ret, inLoop, g, t.enums[enum], s.arms)
  }

  ghost predicate BlockTyped(t: Tables, ret: Type, inLoop: bool, g: Vars, b: Block)
    decreases b, 3
  {
    StmtsTyped(t, ret, inLoop, g, {}, b.stmts)
  }

  ghost predicate ArmsTyped(t: Tables, ret: Type, inLoop: bool, g: Vars, variants: seq<EnumVariant>, arms: seq<Arm>)
    decreases arms, 1
  {
    arms == [] || (ArmTyped(t, ret, inLoop, g, variants, arms[0]) && ArmsTyped(t, ret, inLoop, g, variants, arms[1..]))
  }

  /** A pattern may name a variable for the payload. */
  ghost predicate ArmTyped(t: Tables, ret: Type, inLoop: bool, g: Vars, variants: seq<EnumVariant>, arm: Arm)
    decreases arm, 4
  {
    if arm.pattern.Variant? && arm.pattern.binding.Some? then
      exists a :: HasVariant(variants, arm.pattern.variant, Some(a))
        && StmtsTyped(t, ret, inLoop, g[arm.pattern.binding.value := a], {arm.pattern.binding.value}, arm.body.stmts)
    else StmtsTyped(t, ret, inLoop, g, {}, arm.body.stmts)
  }

  /** Parameters and body share a scope, inside that of the statics. */
  ghost predicate FunctionTyped(t: Tables, fn: Function) {
    var names := ParamNames(fn.proto.params);
    Fresh(names, {})
    && StmtsTyped(t, fn.proto.ret, false, Bind(t.globals, names, ParamTypes(fn.proto.params)), NameSet(names), fn.body.stmts)
  }
}
