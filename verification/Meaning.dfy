/** What a program means, generic or plain.

    A generic program runs directly: a call `f[args]` runs the body of `f` with its type
    parameters standing for `args`, and a type means the shape it unfolds to. What does not
    depend on types or calls (arithmetic, memory, builtins, externs) is left to a `Machine`, so
    that whatever is proved of this meaning holds for every choice of those. Evaluation is
    bounded by `fuel`, spent by calls and loop rounds. */
module Meaning {
  import opened Ast
  import opened Wrappers
  import opened Names
  import opened Mono

  // ---------------------------------------------------------------------------
  // Looking up definitions
  // ---------------------------------------------------------------------------

  ghost function FindFunction(program: seq<Item>, name: string): Option<Function> {
    if program == [] then None
    else if program[0].FunctionItem? && program[0].fn.proto.name == name then Some(program[0].fn)
    else FindFunction(program[1..], name)
  }

  predicate DefinesTypeNamed(item: Item, name: string) {
    (item.StructItem? && item.structDef.name == name) || (item.EnumItem? && item.enumDef.name == name)
  }

  ghost function FindType(program: seq<Item>, name: string): (r: Option<Item>)
    ensures r.Some? ==> DefinesTypeNamed(r.value, name)
  {
    if program == [] then None
    else if DefinesTypeNamed(program[0], name) then Some(program[0])
    else FindType(program[1..], name)
  }

  // ---------------------------------------------------------------------------
  // What a type means
  // ---------------------------------------------------------------------------

  function Substitute(subst: Substitution, t: Type): Type
    decreases TypeSize(t), 1
  {
    SizeOfParts(t);
    if t.Named? then (if t.name in subst then subst[t.name] else t)
    else WithParts(t, SubstituteAll(subst, Parts(t)))
  }

  function SubstituteAll(subst: Substitution, ts: seq<Type>): (r: seq<Type>)
    ensures |r| == |ts|
    decreases TypesSize(ts), 0
  {
    if ts == [] then [] else [Substitute(subst, ts[0])] + SubstituteAll(subst, ts[1..])
  }

  /** A type with every name replaced by what it stands for, down to some depth of definitions.
      `kind` is the outermost constructor. */
  datatype Shape =
    | Composite(kind: Type, parts: seq<Shape>)
    | StructShape(fields: seq<string>, parts: seq<Shape>)
    | EnumShape(variants: seq<(string, bool)>, parts: seq<Shape>)
    | Unknown(name: string)
    | TooDeep

  /** The outermost constructor of a type, its components blanked. */
  function Kind(t: Type): Type {
    WithParts(t, seq(|Parts(t)|, _ => Void))
  }

  function FieldNames(fields: seq<Param>): seq<string> {
    seq(|fields|, i requires 0 <= i < |fields| => fields[i].name)
  }

  /** The variants' names, and which carry a payload. */
  function VariantNames(variants: seq<EnumVariant>): seq<(string, bool)> {
    seq(|variants|, i requires 0 <= i < |variants| => (variants[i].name, variants[i].payload.Some?))
  }

  ghost function Unfold(program: seq<Item>, t: Type, depth: nat): Shape
    decreases depth, TypeSize(t), 1
  {
    SizeOfParts(t);
    match t
    case Named(name) => UnfoldName(program, name, [], depth)
    case Applied(name, args) => UnfoldName(program, name, args, depth)
    case _ => Composite(Kind(t), UnfoldAll(program, Parts(t), depth))
  }

  ghost function UnfoldAll(program: seq<Item>, ts: seq<Type>, depth: nat): (r: seq<Shape>)
    ensures |r| == |ts|
    decreases depth, TypesSize(ts), 0
  {
    if ts == [] then [] else [Unfold(program, ts[0], depth)] + UnfoldAll(program, ts[1..], depth)
  }

  ghost function UnfoldName(program: seq<Item>, name: string, args: seq<Type>, depth: nat): Shape
    decreases depth, 0, 0
  {
    if depth == 0 then TooDeep
    else match FindType(program, name)
      case Some(StructItem(def)) =>
        if |def.typeParams| != |args| then Unknown(name)
        else StructShape(FieldNames(def.fields),
                         UnfoldAll(program, SubstituteAll(Bind(def.typeParams, args), ParamTypes(def.fields)), depth - 1))
      case Some(EnumItem(def)) =>
        if |def.typeParams| != |args| then Unknown(name)
        else EnumShape(VariantNames(def.variants),
                       UnfoldAll(program, SubstituteAll(Bind(def.typeParams, args), PayloadTypes(def.variants)), depth - 1))
      case _ => Unknown(name)
  }

  // ---------------------------------------------------------------------------
  // Machines
  // ---------------------------------------------------------------------------

  /** The strict operations of a machine. `Strict` is a literal, an operator, a slice, an array or
      a tuple, with blanked operands. */
  datatype Operator =
    | Strict(head: Expr)
    | FunctionRef(name: string)
    | SizeOf(callee: string, shape: Shape)
    | CastTo(shape: Shape)
    | MakeStruct(shape: Shape, fields: seq<string>)
    | MakeVariant(shape: Shape, variant: string)
    | External(name: string)
    | Convert(shape: Shape)
    | Zero(shape: Shape)
    | Receive(shape: Shape)
    | FieldOf(name: string)
    | ElementOf

  /** Everything that depends on neither types nor calls. Values include the places of variables. */
  datatype Machine<!V, !S> = Machine(
    operate: (Operator, seq<V>, S) -> Option<(V, S)>,
    load: (V, S) -> Option<V>,
    store: (V, V, S) -> Option<S>,
    allocate: (V, S) -> (V, S),
    truth: V -> Option<bool>,
    elements: (V, S) -> Option<seq<V>>,
    components: V -> Option<seq<V>>,
    variant: V -> Option<(string, Option<V>)>,
    functionName: V -> Option<string>,
    external: string -> bool,
    global: string -> Option<V>)

  datatype Run<+T, +S> = Ended(value: T, state: S) | Stuck | OutOfFuel {
    predicate IsFailure() { !Ended? }

    function PropagateFailure<U>(): Run<U, S>
      requires IsFailure()
    {
      if Stuck? then Stuck else OutOfFuel
    }

    function Extract(): (T, S)
      requires Ended?
    {
      (value, state)
    }
  }

  ghost function Operate<V, S>(m: Machine<V, S>, op: Operator, vs: seq<V>, s: S): Run<V, S> {
    match m.operate(op, vs, s)
    case Some((v, s')) => Ended(v, s')
    case None => Stuck
  }

  ghost function Load<V, S>(m: Machine<V, S>, place: V, s: S): Run<V, S> {
    match m.load(place, s)
    case Some(v) => Ended(v, s)
    case None => Stuck
  }

  ghost function Store<V, S>(m: Machine<V, S>, place: V, v: V, s: S): Run<(), S> {
    match m.store(place, v, s)
    case Some(s') => Ended((), s')
    case None => Stuck
  }

  type Env<V> = map<string, V>

  ghost function PlaceOf<V, S>(m: Machine<V, S>, env: Env<V>, name: string, s: S): Run<V, S> {
    if name in env then Ended(env[name], s)
    else match m.global(name)
      case Some(place) => Ended(place, s)
      case None => Stuck
  }

  // ---------------------------------------------------------------------------
  // Expressions
  // ---------------------------------------------------------------------------

  /** A program, a machine, and what the type parameters in scope stand for. */
  datatype Context<!V, !S> = Context(program: seq<Item>, machine: Machine<V, S>, subst: Substitution)

  ghost function ShapeOf<V, S>(c: Context<V, S>, t: Type, fuel: nat): Shape {
    Unfold(c.program, Substitute(c.subst, t), fuel)
  }

  ghost function ShapesOf<V, S>(c: Context<V, S>, ts: seq<Type>, fuel: nat): seq<Shape> {
    UnfoldAll(c.program, SubstituteAll(c.subst, ts), fuel)
  }

  /** The shape of a struct or enum named in an expression. */
  ghost function NamedShape<V, S>(c: Context<V, S>, name: string, typeArgs: seq<Type>, fuel: nat): Shape {
    UnfoldName(c.program, name, SubstituteAll(c.subst, typeArgs), fuel)
  }

  /** The node without its operands. */
  function Blank(e: Expr): Expr
    requires TypesIn(e) == []
  {
    Rebuild(e, seq(|Operands(e)|, _ => IntLit(0)), [])
  }

  predicate IsPlace(e: Expr) {
    e.Var? || e.Field? || e.Index? || e.Deref?
  }

  function InitNames(fields: seq<FieldInit>): seq<string> {
    seq(|fields|, i requires 0 <= i < |fields| => fields[i].name)
  }

  ghost predicate IsPlainFunction(program: seq<Item>, name: string) {
    var f := FindFunction(program, name);
    f.Some? && f.value.proto.typeParams == []
  }

  ghost predicate IsEnum(program: seq<Item>, name: string) {
    var def := FindType(program, name);
    def.Some? && def.value.EnumItem?
  }

  predicate HasVariant(shape: Shape, name: string) {
    shape.EnumShape? && exists k :: 0 <= k < |shape.variants| && shape.variants[k].0 == name
  }

  ghost function EvalExprs<V, S>(c: Context<V, S>, env: Env<V>, s: S, es: seq<Expr>, fuel: nat): Run<seq<V>, S>
    decreases fuel, ExprsSize(es), 0
  {
    if es == [] then Ended([], s)
    else
      var (v, s1) :- EvalExpr(c, env, s, es[0], fuel);
      var (vs, s2) :- EvalExprs(c, env, s1, es[1..], fuel);
      Ended([v] + vs, s2)
  }

  ghost function EvalExpr<V, S>(c: Context<V, S>, env: Env<V>, s: S, e: Expr, fuel: nat): Run<V, S>
    decreases fuel, ExprSize(e), 1
  {
    SizeOfOperands(e);
    if IsPlace(e) then
      var (place, s1) :- EvalLvalue(c, env, s, e, fuel);
      Load(c.machine, place, s1)
    else if e.AddrOf? then
      if e.operand.Var? && IsPlainFunction(c.program, e.operand.name)
      then Operate(c.machine, FunctionRef(e.operand.name), [], s)
      else EvalPlace(c, env, s, e.operand, fuel)
    else if e.MethodCall? then
      if e.receiver.Var? && IsEnum(c.program, e.receiver.name) then
        var (vs, s1) :- EvalExprs(c, env, s, e.args, fuel);
        EvalVariant(c, s1, e.receiver.name, e.methodName, e.typeArgs, vs, fuel)
      else
        var (place, s1) :- EvalPlace(c, env, s, e.receiver, fuel);
        var (vs, s2) :- EvalExprs(c, env, s1, e.args, fuel);
        EvalMethod(c, s2, e.methodName, e.typeArgs, place, vs, fuel)
    else
      var (vs, s1) :- EvalExprs(c, env, s, Operands(e), fuel);
      if e.Call? then EvalCall(c, env, s1, e.callee, e.typeArgs, vs, fuel)
      else if e.StructInit? then
        Operate(c.machine, MakeStruct(NamedShape(c, e.struct, e.typeArgs, fuel), InitNames(e.fields)), vs, s1)
      else if e.Cast? then Operate(c.machine, CastTo(ShapeOf(c, e.target, fuel)), vs, s1)
      else Operate(c.machine, Strict(Blank(e)), vs, s1)
  }

  /** The place an expression denotes. */
  ghost function EvalLvalue<V, S>(c: Context<V, S>, env: Env<V>, s: S, e: Expr, fuel: nat): Run<V, S>
    requires IsPlace(e)
    decreases fuel, ExprSize(e), 0
  {
    match e
    case Var(name) => PlaceOf(c.machine, env, name, s)
    case Field(base, field) =>
      var (place, s1) :- EvalPlace(c, env, s, base, fuel);
      Operate(c.machine, FieldOf(field), [place], s1)
    case Index(base, index) =>
      var (place, s1) :- EvalPlace(c, env, s, base, fuel);
      var (i, s2) :- EvalExpr(c, env, s1, index, fuel);
      Operate(c.machine, ElementOf, [place, i], s2)
    case Deref(operand) => EvalExpr(c, env, s, operand, fuel)
  }

  /** The place of an expression; a value that has none is given a fresh one. */
  ghost function EvalPlace<V, S>(c: Context<V, S>, env: Env<V>, s: S, e: Expr, fuel: nat): Run<V, S>
    decreases fuel, ExprSize(e), 2
  {
    if IsPlace(e) then EvalLvalue(c, env, s, e, fuel)
    else
      var (v, s1) :- EvalExpr(c, env, s, e, fuel);
      var (place, s2) := c.machine.allocate(v, s1);
      Ended(place, s2)
  }

  /** Builtins and externs take their names from the machine; a name that is neither, nor a
      function, is a variable holding a function. */
  ghost function EvalCall<V, S>(c: Context<V, S>, env: Env<V>, s: S, callee: string, typeArgs: seq<Type>, vs: seq<V>, fuel: nat): Run<V, S>
    decreases fuel, 0, 2
  {
    if IsSizeof(callee) then
      if |typeArgs| == 1 && vs == [] then Operate(c.machine, SizeOf(callee, ShapeOf(c, typeArgs[0], fuel)), [], s)
      else Stuck
    else match FindFunction(c.program, callee)
      case Some(f) => Instantiate(c, f, s, typeArgs, vs, fuel)
      case None =>
        if typeArgs != [] then Stuck
        else if c.machine.external(callee) || callee !in env then Operate(c.machine, External(callee), vs, s)
        else
          var (v, s1) :- Load(c.machine, env[callee], s);
          match c.machine.functionName(v)
          case Some(name) =>
            // A function value comes from `&f`, where `f` is never an instance.
            if Reserved(name) || !IsPlainFunction(c.program, name) then Stuck
            else Instantiate(c, FindFunction(c.program, name).value, s1, [], vs, fuel)
          case None => Stuck
  }

  ghost function EvalVariant<V, S>(c: Context<V, S>, s: S, enum: string, variant: string, typeArgs: seq<Type>, vs: seq<V>, fuel: nat): Run<V, S> {
    var shape := NamedShape(c, enum, typeArgs, fuel);
    if HasVariant(shape, variant) then Operate(c.machine, MakeVariant(shape, variant), vs, s)
    else if shape.TooDeep? then OutOfFuel
    else Stuck
  }

  ghost function EvalMethod<V, S>(c: Context<V, S>, s: S, name: string, typeArgs: seq<Type>, place: V, vs: seq<V>, fuel: nat): Run<V, S>
    decreases fuel, 0, 1
  {
    match FindFunction(c.program, name)
    case None => Stuck
    case Some(f) =>
      if f.proto.params == [] || |f.proto.typeParams| != |typeArgs| then Stuck
      else
        var inner := Inner(c, f, typeArgs);
        var (first, s1) :- Operate(c.machine, Receive(ShapeOf(inner, f.proto.params[0].ty, fuel)), [place], s);
        Invoke(inner, f, s1, [first] + vs, fuel)
  }

  /** The context of a function body: its type parameters stand for the type arguments. */
  ghost function Inner<V, S>(c: Context<V, S>, f: Function, typeArgs: seq<Type>): Context<V, S>
    requires |f.proto.typeParams| == |typeArgs|
  {
    c.(subst := Bind(f.proto.typeParams, SubstituteAll(c.subst, typeArgs)))
  }

  ghost function Instantiate<V, S>(c: Context<V, S>, f: Function, s: S, typeArgs: seq<Type>, vs: seq<V>, fuel: nat): Run<V, S>
    decreases fuel, 0, 1
  {
    if |f.proto.typeParams| != |typeArgs| then Stuck else Invoke(Inner(c, f, typeArgs), f, s, vs, fuel)
  }

  ghost function BindParams<V, S>(m: Machine<V, S>, names: seq<string>, shapes: seq<Shape>, vs: seq<V>, env: Env<V>, s: S): Run<Env<V>, S>
    requires |names| == |vs| == |shapes|
  {
    if names == [] then Ended(env, s)
    else
      var (v, s1) :- Operate(m, Convert(shapes[0]), [vs[0]], s);
      var (place, s2) := m.allocate(v, s1);
      BindParams(m, names[1..], shapes[1..], vs[1..], env[names[0] := place], s2)
  }

  ghost function Invoke<V, S>(c: Context<V, S>, f: Function, s: S, vs: seq<V>, fuel: nat): Run<V, S>
    decreases fuel, 0, 0
  {
    if fuel == 0 then OutOfFuel
    else if |vs| != |f.proto.params| then Stuck
    else
      var (env, s1) :- BindParams(c.machine, FieldNames(f.proto.params), ShapesOf(c, ParamTypes(f.proto.params), fuel), vs, map[], s);
      var result := ShapeOf(c, f.proto.ret, fuel);
      match ExecStmts(c, env, s1, f.body.stmts, fuel - 1)
      case Returned(Some(v), s2) => Operate(c.machine, Convert(result), [v], s2)
      case Returned(None, s2) => Operate(c.machine, Zero(result), [], s2)
      case Next(_, s2) => Operate(c.machine, Zero(result), [], s2)
      case NoFuel => OutOfFuel
      case _ => Stuck
  }

  // ---------------------------------------------------------------------------
  // Statements
  // ---------------------------------------------------------------------------

  datatype Flow<V, S> =
    | Next(env: Env<V>, state: S)
    | Returned(value: Option<V>, state: S)
    | Broke(state: S)
    | Continued(state: S)
    | Wrong
    | NoFuel

  ghost function NoFlow<T, V, S>(r: Run<T, S>): Flow<V, S>
    requires r.IsFailure()
  {
    if r.Stuck? then Wrong else NoFuel
  }

  /** Declares a variable holding the value, if there is one. */
  ghost function Declare<V, S>(m: Machine<V, S>, env: Env<V>, name: string, r: Run<V, S>): Flow<V, S> {
    if r.IsFailure() then NoFlow(r)
    else
      var (place, s) := m.allocate(r.value, r.state);
      Next(env[name := place], s)
  }

  ghost function DeclareAll<V, S>(m: Machine<V, S>, env: Env<V>, s: S, names: seq<string>, vs: seq<V>): Flow<V, S>
    requires |names| == |vs|
    decreases |names|
  {
    if names == [] then Next(env, s)
    else
      var (place, s1) := m.allocate(vs[0], s);
      DeclareAll(m, env[names[0] := place], s1, names[1..], vs[1..])
  }

  /** The flow after a block, whose variables go out of scope. */
  function LeaveBlock<V, S>(env: Env<V>, flow: Flow<V, S>): Flow<V, S> {
    if flow.Next? then Next(env, flow.state) else flow
  }

  /** The first arm for the variant. */
  function SelectArm(arms: seq<Arm>, variant: string): (k: nat)
    ensures k <= |arms|
  {
    if arms == [] || arms[0].pattern.Wildcard? || arms[0].pattern.variant == variant then 0
    else 1 + SelectArm(arms[1..], variant)
  }

  ghost function ExecStmts<V, S>(c: Context<V, S>, env: Env<V>, s: S, ss: seq<Stmt>, fuel: nat): Flow<V, S>
    decreases fuel, StmtsSize(ss), 0
  {
    if ss == [] then Next(env, s)
    else
      match ExecStmt(c, env, s, ss[0], fuel)
      case Next(env', s') => ExecStmts(c, env', s', ss[1..], fuel)
      case flow => flow
  }

  ghost function ExecBlock<V, S>(c: Context<V, S>, env: Env<V>, s: S, b: Block, fuel: nat): Flow<V, S>
    decreases fuel, StmtsSize(b.stmts), 1
  {
    LeaveBlock(env, ExecStmts(c, env, s, b.stmts, fuel))
  }

  ghost function EvalLet<V, S>(c: Context<V, S>, env: Env<V>, s: S, ty: Option<Type>, init: Option<Expr>, fuel: nat): Run<V, S>
    decreases fuel, ExprsSize(OptionList(init)), 0
  {
    match (ty, init)
    case (None, None) => Stuck
    case (Some(t), None) => Operate(c.machine, Zero(ShapeOf(c, t, fuel)), [], s)
    case (None, Some(e)) =>
      assert OptionList(init)[0] == e;
      EvalExpr(c, env, s, e, fuel)
    case (Some(t), Some(e)) =>
      assert OptionList(init)[0] == e;
      var (v, s1) :- EvalExpr(c, env, s, e, fuel);
      Operate(c.machine, Convert(ShapeOf(c, t, fuel)), [v], s1)
  }

  ghost function ExecStmt<V, S>(c: Context<V, S>, env: Env<V>, s: S, stmt: Stmt, fuel: nat): Flow<V, S>
    decreases fuel, StmtSize(stmt), 1
  {
    SizeOfStmtParts(stmt);
    match stmt
    case Return(None) => Returned(None, s)
    case Return(Some(e)) =>
      assert StmtExprs(stmt)[0] == e;
      var r := EvalExpr(c, env, s, e, fuel);
      if r.Ended? then Returned(Some(r.value), r.state) else NoFlow(r)
    case ExprStmt(e) =>
      var r := EvalExpr(c, env, s, e, fuel);
      if r.Ended? then Next(env, r.state) else NoFlow(r)
    case Let(name, ty, init) => Declare(c.machine, env, name, EvalLet(c, env, s, ty, init, fuel))
    case LetTuple(names, source) =>
      var r := EvalExpr(c, env, s, source, fuel);
      if r.IsFailure() then NoFlow(r)
      else (match c.machine.components(r.value)
        case Some(vs) => if |vs| == |names| then DeclareAll(c.machine, env, r.state, names, vs) else Wrong
        case None => Wrong)
    case Assign(target, rhs) =>
      var r := EvalExpr(c, env, s, rhs, fuel);
      if r.IsFailure() then NoFlow(r)
      else
        var place := PlaceOf(c.machine, env, target, r.state);
        if place.IsFailure() then NoFlow(place)
        else
          var done := Store(c.machine, place.value, r.value, place.state);
          if done.Ended? then Next(env, done.state) else NoFlow(done)
    case AssignIndex(place, rhs) =>
      var p := EvalPlace(c, env, s, place, fuel);
      if p.IsFailure() then NoFlow(p)
      else
        var r := EvalExpr(c, env, p.state, rhs, fuel);
        if r.IsFailure() then NoFlow(r)
        else
          var done := Store(c.machine, p.value, r.value, r.state);
          if done.Ended? then Next(env, done.state) else NoFlow(done)
    case If(cond, thn, els) =>
      var r := EvalExpr(c, env, s, cond, fuel);
      if r.IsFailure() then NoFlow(r)
      else (match c.machine.truth(r.value)
        case Some(true) => ExecBlock(c, env, r.state, thn, fuel)
        case Some(false) => if els.Some? then ExecBlock(c, env, r.state, els.value, fuel) else Next(env, r.state)
        case None => Wrong)
    case While(cond, body) =>
      var r := EvalExpr(c, env, s, cond, fuel);
      if r.IsFailure() then NoFlow(r)
      else (match c.machine.truth(r.value)
        case Some(true) =>
          (match ExecBlock(c, env, r.state, body, fuel)
           case Broke(s') => Next(env, s')
           case Next(_, s') => if fuel == 0 then NoFuel else ExecStmt(c, env, s', stmt, fuel - 1)
           case Continued(s') => if fuel == 0 then NoFuel else ExecStmt(c, env, s', stmt, fuel - 1)
           case flow => flow)
        case Some(false) => Next(env, r.state)
        case None => Wrong)
    case For(variable, iter, body) =>
      var r := EvalExpr(c, env, s, iter, fuel);
      if r.IsFailure() then NoFlow(r)
      else (match c.machine.elements(r.value, r.state)
        case Some(vs) => ExecFor(c, env, r.state, variable, vs, body, fuel)
        case None => Wrong)
    case Switch(scrutinee, arms) =>
      var r := EvalExpr(c, env, s, scrutinee, fuel);
      if r.IsFailure() then NoFlow(r)
      else (match c.machine.variant(r.value)
        case Some((variant, payload)) => ExecArm(c, env, r.state, arms, variant, payload, fuel)
        case None => Wrong)
    case Defer(_) => Wrong
    case Break => Broke(s)
    case Continue => Continued(s)
  }

  ghost function ExecFor<V, S>(c: Context<V, S>, env: Env<V>, s: S, variable: string, vs: seq<V>, body: Block, fuel: nat): Flow<V, S>
    decreases fuel, 1 + StmtsSize(body.stmts), 1 + |vs|
  {
    if vs == [] then Next(env, s)
    else
      var (place, s1) := c.machine.allocate(vs[0], s);
      match ExecStmts(c, env[variable := place], s1, body.stmts, fuel)
      case Broke(s') => Next(env, s')
      case Next(_, s') => ExecFor(c, env, s', variable, vs[1..], body, fuel)
      case Continued(s') => ExecFor(c, env, s', variable, vs[1..], body, fuel)
      case flow => flow
  }

  ghost function ExecArm<V, S>(c: Context<V, S>, env: Env<V>, s: S, arms: seq<Arm>, variant: string, payload: Option<V>, fuel: nat): Flow<V, S>
    decreases fuel, BlocksSize(ArmBodies(arms)), 0
  {
    var k := SelectArm(arms, variant);
    if k == |arms| then Wrong
    else
      BlockSizeAt(ArmBodies(arms), k);
      var pattern := arms[k].pattern;
      if pattern.Variant? && pattern.binding.Some? then
        if payload.None? then Wrong
        else
          var (place, s1) := c.machine.allocate(payload.value, s);
          LeaveBlock(env, ExecStmts(c, env[pattern.binding.value := place], s1, arms[k].body.stmts, fuel))
      else ExecBlock(c, env, s, arms[k].body, fuel)
  }

  lemma {:induction false} BlockSizeAt(bs: seq<Block>, k: nat)
    requires k < |bs|
    ensures StmtsSize(bs[k].stmts) + 1 <= BlocksSize(bs)
  {
    if k > 0 {
      BlockSizeAt(bs[1..], k - 1);
    }
  }

  /** Calling a plain function by name, from outside the program. */
  ghost function RunFunction<V, S>(program: seq<Item>, m: Machine<V, S>, name: string, vs: seq<V>, s: S, fuel: nat): Run<V, S> {
    if IsPlainFunction(program, name)
    then Invoke(Context(program, m, map[]), FindFunction(program, name).value, s, vs, fuel)
    else Stuck
  }
}
