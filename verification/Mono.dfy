/** Monomorphisation: the rewriting of a generic program into a plain one.

    Every function here threads the monomorphiser's bookkeeping (`State`) explicitly; class
    `Monomorphizer` in MonoClass.dfy updates it in place and is proved to compute the same.
    The recursion needs no bound on the number of instances: expanding a template makes it
    active, an active template is never expanded again, and everything else visits a smaller
    node, which is the measure (`Idle`, node size) of every function below. */
module Mono {
  import opened Ast
  import opened Wrappers
  import opened Names

  const MaxInstances: nat := 256

  datatype Error =
    | DuplicateDefinition(name: string)
    | DuplicateTypeParam(param: string, name: string)
    | GenericExtern(name: string)
    | NotGenericType(name: string)
    | NotGenericFunction(name: string)
    | WrongArity(name: string, expected: nat, got: nat)
    | ExpandsRecursively(name: string)
    | TooManyInstances
    | MalformedSizeof(callee: string)
    | NeedsTypeArguments(name: string)
    | NotGeneric(name: string)

  datatype Templates = Templates(
    functions: map<string, Function>, structs: map<string, StructDef>, enums: map<string, EnumDef>)

  datatype State = State(
    instantiatedFunctions: set<string>,
    instantiatedTypes: set<string>,
    activeFunctions: set<string>,
    activeTypes: set<string>,
    generatedFunctions: seq<Function>,
    generatedTypes: seq<Item>)

  const Start: State := State({}, {}, {}, {}, [], [])

  /** A value with the new state, or an error, which ends the whole run. */
  datatype Outcome<+T> = Done(value: T, st: State) | Fail(error: Error) {
    predicate IsFailure() { Fail? }

    function PropagateFailure<U>(): Outcome<U>
      requires Fail?
    {
      Fail(error)
    }

    function Extract(): (T, State)
      requires Done?
    {
      (value, st)
    }
  }

  type Substitution = map<string, Type>

  function Bind(params: seq<string>, args: seq<Type>): Substitution
    requires |params| == |args|
  {
    if params == [] then map[] else map[params[0] := args[0]] + Bind(params[1..], args[1..])
  }

  // ---------------------------------------------------------------------------
  // Definitions as type lists
  // ---------------------------------------------------------------------------

  function WithParamTypes(params: seq<Param>, ts: seq<Type>): (r: seq<Param>)
    requires |ts| == |params|
    ensures |r| == |params| && ParamTypes(r) == ts
    ensures forall i | 0 <= i < |r| :: r[i].name == params[i].name
  {
    seq(|params|, i requires 0 <= i < |params| => Param(params[i].name, ts[i]))
  }

  function WithPayloadTypes(variants: seq<EnumVariant>, ts: seq<Type>): (r: seq<EnumVariant>)
    requires |ts| == |PayloadTypes(variants)|
    ensures |r| == |variants|
  {
    if variants == [] then []
    else if variants[0].payload.None? then [variants[0]] + WithPayloadTypes(variants[1..], ts)
    else [EnumVariant(variants[0].name, Some(ts[0]))] + WithPayloadTypes(variants[1..], ts[1..])
  }

  function SignatureTypes(proto: Prototype): seq<Type> {
    ParamTypes(proto.params) + [proto.ret]
  }

  function WithSignatureTypes(proto: Prototype, ts: seq<Type>): (r: Prototype)
    requires |ts| == |SignatureTypes(proto)|
    ensures SignatureTypes(r) == ts
  {
    var n := |proto.params|;
    proto.(params := WithParamTypes(proto.params, ts[..n]), ret := ts[n])
  }

  // ---------------------------------------------------------------------------
  // Rewriting
  // ---------------------------------------------------------------------------

  /** How many templates may still be expanded. */
  ghost function Idle(tpl: Templates, st: State): nat {
    |tpl.functions.Keys - st.activeFunctions| + |TypeTemplateNames(tpl) - st.activeTypes|
  }

  ghost function TypeTemplateNames(tpl: Templates): (names: set<string>)
    ensures forall name :: name in names <==> IsTypeTemplate(tpl, name)
  {
    tpl.structs.Keys + tpl.enums.Keys
  }

  ghost predicate SameActive(st: State, st': State) {
    st'.activeFunctions == st.activeFunctions && st'.activeTypes == st.activeTypes
  }

  function RewriteType(tpl: Templates, st: State, subst: Substitution, t: Type): (r: Outcome<Type>)
    ensures r.Done? ==> SameActive(st, r.st) && Idle(tpl, r.st) == Idle(tpl, st)
    decreases Idle(tpl, st), TypeSize(t), 1
  {
    SizeOfParts(t);
    match t
    case Named(name) => Done(if name in subst then subst[name] else t, st)
    case Applied(name, args) =>
      var (args', st1) :- RewriteTypes(tpl, st, subst, args);
      var (concrete, st2) :- InstantiateType(tpl, st1, name, args');
      Done(Named(concrete), st2)
    case _ =>
      var (parts, st1) :- RewriteTypes(tpl, st, subst, Parts(t));
      Done(WithParts(t, parts), st1)
  }

  function RewriteTypes(tpl: Templates, st: State, subst: Substitution, ts: seq<Type>): (r: Outcome<seq<Type>>)
    ensures r.Done? ==> SameActive(st, r.st) && Idle(tpl, r.st) == Idle(tpl, st) && |r.value| == |ts|
    decreases Idle(tpl, st), TypesSize(ts), 0
  {
    if ts == [] then Done([], st)
    else
      var (first, st1) :- RewriteType(tpl, st, subst, ts[0]);
      var (rest, st2) :- RewriteTypes(tpl, st1, subst, ts[1..]);
      Done([first] + rest, st2)
  }

  predicate WithinLimit(st: State) {
    |st.instantiatedFunctions| + |st.instantiatedTypes| <= MaxInstances
  }

  predicate IsTypeTemplate(tpl: Templates, name: string) {
    name in tpl.structs || name in tpl.enums
  }

  function TypeParamsOf(tpl: Templates, name: string): seq<string>
    requires IsTypeTemplate(tpl, name)
  {
    if name in tpl.structs then tpl.structs[name].typeParams else tpl.enums[name].typeParams
  }

  /** The name of the instance; its definition is generated the first time it is asked for. */
  function InstantiateType(tpl: Templates, st: State, name: string, args: seq<Type>): (r: Outcome<string>)
    ensures r.Done? ==> SameActive(st, r.st) && Idle(tpl, r.st) == Idle(tpl, st)
    decreases Idle(tpl, st), 0, 0
  {
    if !IsTypeTemplate(tpl, name) then Fail(NotGenericType(name))
    else
      var params := TypeParamsOf(tpl, name);
      if |params| != |args| then Fail(WrongArity(name, |params|, |args|))
      else
        var concrete := Mangle(name, args);
        if concrete in st.instantiatedTypes then Done(concrete, st)
        else if name in st.activeTypes then Fail(ExpandsRecursively(name))
        else
          var st1 := BeginType(st, name, concrete);
          if !WithinLimit(st1) then Fail(TooManyInstances)
          else
            TypeActivated(tpl, st, name, concrete);
            var (def, st2) :- RewriteTypeDef(tpl, st1, Bind(params, args), name, concrete);
            Done(concrete, EndType(st2, name, def))
  }

  function BeginType(st: State, name: string, concrete: string): State {
    st.(instantiatedTypes := st.instantiatedTypes + {concrete}, activeTypes := st.activeTypes + {name})
  }

  function EndType(st: State, name: string, def: Item): State {
    st.(generatedTypes := st.generatedTypes + [def], activeTypes := st.activeTypes - {name})
  }

  lemma TypeActivated(tpl: Templates, st: State, name: string, concrete: string)
    requires IsTypeTemplate(tpl, name)
    requires name !in st.activeTypes
    ensures Idle(tpl, BeginType(st, name, concrete)) < Idle(tpl, st)
  {
    var all := TypeTemplateNames(tpl);
    var fewer := all - (st.activeTypes + {name});
    assert name !in fewer;
    assert all - st.activeTypes == fewer + {name};
  }

  lemma FunctionActivated(tpl: Templates, st: State, name: string, concrete: string)
    requires name in tpl.functions && name !in st.activeFunctions
    ensures Idle(tpl, BeginFunction(st, name, concrete)) < Idle(tpl, st)
  {
    var all := tpl.functions.Keys;
    var fewer := all - (st.activeFunctions + {name});
    assert name !in fewer;
    assert all - st.activeFunctions == fewer + {name};
  }

  ghost function TypeDefSize(tpl: Templates, name: string): nat
    requires IsTypeTemplate(tpl, name)
  {
    1 + if name in tpl.structs then TypesSize(ParamTypes(tpl.structs[name].fields))
        else TypesSize(PayloadTypes(tpl.enums[name].variants))
  }

  /** The definition of an instance of template `name`, called `concrete`. */
  function RewriteTypeDef(tpl: Templates, st: State, subst: Substitution, name: string, concrete: string): (r: Outcome<Item>)
    requires IsTypeTemplate(tpl, name)
    ensures r.Done? ==> SameActive(st, r.st) && Idle(tpl, r.st) == Idle(tpl, st)
    decreases Idle(tpl, st), TypeDefSize(tpl, name), 1
  {
    if name in tpl.structs then
      var (def, st1) :- RewriteStruct(tpl, st, subst, tpl.structs[name]);
      Done(StructItem(def.(name := concrete, typeParams := [])), st1)
    else
      var (def, st1) :- RewriteEnum(tpl, st, subst, tpl.enums[name]);
      Done(EnumItem(def.(name := concrete, typeParams := [])), st1)
  }

  function RewriteStruct(tpl: Templates, st: State, subst: Substitution, def: StructDef): (r: Outcome<StructDef>)
    ensures r.Done? ==> SameActive(st, r.st) && Idle(tpl, r.st) == Idle(tpl, st)
    decreases Idle(tpl, st), 1 + TypesSize(ParamTypes(def.fields)), 0
  {
    var (ts, st1) :- RewriteTypes(tpl, st, subst, ParamTypes(def.fields));
    Done(def.(fields := WithParamTypes(def.fields, ts)), st1)
  }

  function RewriteEnum(tpl: Templates, st: State, subst: Substitution, def: EnumDef): (r: Outcome<EnumDef>)
    ensures r.Done? ==> SameActive(st, r.st) && Idle(tpl, r.st) == Idle(tpl, st)
    decreases Idle(tpl, st), 1 + TypesSize(PayloadTypes(def.variants)), 0
  {
    var (ts, st1) :- RewriteTypes(tpl, st, subst, PayloadTypes(def.variants));
    Done(def.(variants := WithPayloadTypes(def.variants, ts)), st1)
  }

  function InstantiateFunction(tpl: Templates, st: State, name: string, args: seq<Type>): (r: Outcome<string>)
    ensures r.Done? ==> SameActive(st, r.st) && Idle(tpl, r.st) == Idle(tpl, st)
    decreases Idle(tpl, st), 0, 0
  {
    if name !in tpl.functions then Fail(NotGenericFunction(name))
    else
      var template := tpl.functions[name];
      var params := template.proto.typeParams;
      if |params| != |args| then Fail(WrongArity(name, |params|, |args|))
      else
        var concrete := Mangle(name, args);
        if concrete in st.instantiatedFunctions then Done(concrete, st)
        else if name in st.activeFunctions then Fail(ExpandsRecursively(name))
        else
          var st1 := BeginFunction(st, name, concrete);
          if !WithinLimit(st1) then Fail(TooManyInstances)
          else
            FunctionActivated(tpl, st, name, concrete);
            var (def, st2) :- RewriteFunction(tpl, st1, Bind(params, args), Renamed(template, concrete));
            Done(concrete, EndFunction(st2, name, def))
  }

  function BeginFunction(st: State, name: string, concrete: string): State {
    st.(instantiatedFunctions := st.instantiatedFunctions + {concrete}, activeFunctions := st.activeFunctions + {name})
  }

  function EndFunction(st: State, name: string, def: Function): State {
    st.(generatedFunctions := st.generatedFunctions + [def], activeFunctions := st.activeFunctions - {name})
  }

  /** The template as a plain function under a new name. */
  function Renamed(template: Function, concrete: string): Function {
    template.(proto := template.proto.(name := concrete, typeParams := []))
  }

  function RewriteFunction(tpl: Templates, st: State, subst: Substitution, f: Function): (r: Outcome<Function>)
    ensures r.Done? ==> SameActive(st, r.st) && Idle(tpl, r.st) == Idle(tpl, st)
    decreases Idle(tpl, st), 1 + TypesSize(SignatureTypes(f.proto)) + StmtsSize(f.body.stmts), 0
  {
    var (ts, st1) :- RewriteTypes(tpl, st, subst, SignatureTypes(f.proto));
    var (stmts, st2) :- RewriteStmts(tpl, st1, subst, f.body.stmts);
    Done(Function(WithSignatureTypes(f.proto, ts), Block(stmts)), st2)
  }

  function RewriteStmts(tpl: Templates, st: State, subst: Substitution, ss: seq<Stmt>): (r: Outcome<seq<Stmt>>)
    ensures r.Done? ==> SameActive(st, r.st) && Idle(tpl, r.st) == Idle(tpl, st) && |r.value| == |ss|
    decreases Idle(tpl, st), StmtsSize(ss), 0
  {
    if ss == [] then Done([], st)
    else
      var (first, st1) :- RewriteStmt(tpl, st, subst, ss[0]);
      var (rest, st2) :- RewriteStmts(tpl, st1, subst, ss[1..]);
      Done([first] + rest, st2)
  }

  function RewriteStmt(tpl: Templates, st: State, subst: Substitution, s: Stmt): (r: Outcome<Stmt>)
    ensures r.Done? ==> SameActive(st, r.st) && Idle(tpl, r.st) == Idle(tpl, st)
    decreases Idle(tpl, st), StmtSize(s), 1
  {
    SizeOfStmtParts(s);
    var (types, st1) :- RewriteTypes(tpl, st, subst, StmtTypes(s));
    var (exprs, st2) :- RewriteExprs(tpl, st1, subst, StmtExprs(s));
    var (blocks, st3) :- RewriteBlocks(tpl, st2, subst, StmtBlocks(s));
    Done(RebuildStmt(s, types, exprs, blocks), st3)
  }

  function RewriteBlocks(tpl: Templates, st: State, subst: Substitution, bs: seq<Block>): (r: Outcome<seq<Block>>)
    ensures r.Done? ==> SameActive(st, r.st) && Idle(tpl, r.st) == Idle(tpl, st) && |r.value| == |bs|
    decreases Idle(tpl, st), BlocksSize(bs), 0
  {
    if bs == [] then Done([], st)
    else
      var (first, st1) :- RewriteStmts(tpl, st, subst, bs[0].stmts);
      var (rest, st2) :- RewriteBlocks(tpl, st1, subst, bs[1..]);
      Done([Block(first)] + rest, st2)
  }

  function RewriteExprs(tpl: Templates, st: State, subst: Substitution, es: seq<Expr>): (r: Outcome<seq<Expr>>)
    ensures r.Done? ==> SameActive(st, r.st) && Idle(tpl, r.st) == Idle(tpl, st) && |r.value| == |es|
    decreases Idle(tpl, st), ExprsSize(es), 0
  {
    if es == [] then Done([], st)
    else
      var (first, st1) :- RewriteExpr(tpl, st, subst, es[0]);
      var (rest, st2) :- RewriteExprs(tpl, st1, subst, es[1..]);
      Done([first] + rest, st2)
  }

  predicate IsSizeof(callee: string) {
    callee == "sizeof" || callee == "alignof"
  }

  function RewriteExpr(tpl: Templates, st: State, subst: Substitution, e: Expr): (r: Outcome<Expr>)
    ensures r.Done? ==> SameActive(st, r.st) && Idle(tpl, r.st) == Idle(tpl, st)
    decreases Idle(tpl, st), ExprSize(e), 1
  {
    SizeOfOperands(e);
    var (operands, st1) :- RewriteExprs(tpl, st, subst, Operands(e));
    var (types, st2) :- RewriteTypes(tpl, st1, subst, TypesIn(e));
    match e
    case Call(callee, _, _) => RewriteCall(tpl, st2, callee, types, operands)
    case MethodCall(receiver, name, _, _) =>
      RewriteMethodCall(tpl, st2, subst, receiver, name, types, operands)
    case StructInit(name, _, fields) =>
      RewriteStructInit(tpl, st2, name, types, WithFieldValues(fields, operands))
    case _ => Done(Rebuild(e, operands, types), st2)
  }

  function RewriteCall(tpl: Templates, st: State, callee: string, types: seq<Type>, args: seq<Expr>): (r: Outcome<Expr>)
    ensures r.Done? ==> SameActive(st, r.st) && Idle(tpl, r.st) == Idle(tpl, st)
    decreases Idle(tpl, st), 0, 1
  {
    if IsSizeof(callee) then
      if |types| != 1 || args != [] then Fail(MalformedSizeof(callee))
      else Done(Call(callee, types, args), st)
    else if callee in tpl.functions then
      if types == [] then Fail(NeedsTypeArguments(callee))
      else
        var (concrete, st1) :- InstantiateFunction(tpl, st, callee, types);
        Done(Call(concrete, [], args), st1)
    else if types != [] then Fail(NotGeneric(callee))
    else Done(Call(callee, [], args), st)
  }

  /** `Option.Some[int](x)` constructs an enum value when the receiver names an enum template;
      otherwise `x.f[int](y)` calls the function `f`. */
  function RewriteMethodCall(tpl: Templates, st: State, subst: Substitution, receiver: Expr, name: string,
                             types: seq<Type>, args: seq<Expr>): (r: Outcome<Expr>)
    ensures r.Done? ==> SameActive(st, r.st) && Idle(tpl, r.st) == Idle(tpl, st)
    decreases Idle(tpl, st), 1 + ExprSize(receiver), 0
  {
    if receiver.Var? && receiver.name in tpl.enums then
      if types == [] then Fail(NeedsTypeArguments(receiver.name))
      else
        var (concrete, st1) :- InstantiateType(tpl, st, receiver.name, types);
        Done(MethodCall(Var(concrete), name, [], args), st1)
    else if name in tpl.functions then
      if receiver.Var? && types == [] then Fail(NeedsTypeArguments(name))
      else
        var (concrete, st1) :- InstantiateFunction(tpl, st, name, types);
        var (receiver', st2) :- RewriteExpr(tpl, st1, subst, receiver);
        Done(MethodCall(receiver', concrete, [], args), st2)
    else if types != [] then Fail(NotGeneric(name))
    else
      var (receiver', st1) :- RewriteExpr(tpl, st, subst, receiver);
      Done(MethodCall(receiver', name, [], args), st1)
  }

  function RewriteStructInit(tpl: Templates, st: State, name: string, types: seq<Type>, fields: seq<FieldInit>): (r: Outcome<Expr>)
    ensures r.Done? ==> SameActive(st, r.st) && Idle(tpl, r.st) == Idle(tpl, st)
    decreases Idle(tpl, st), 0, 1
  {
    if name in tpl.structs then
      if types == [] then Fail(NeedsTypeArguments(name))
      else
        var (concrete, st1) :- InstantiateType(tpl, st, name, types);
        Done(StructInit(concrete, [], fields), st1)
    else if types != [] then Fail(NotGeneric(name))
    else Done(StructInit(name, [], fields), st)
  }

  // ---------------------------------------------------------------------------
  // Whole programs
  // ---------------------------------------------------------------------------

  function FunctionTemplates(items: seq<Item>): map<string, Function> {
    if items == [] then map[]
    else (match items[0]
          case FunctionItem(f) => if f.proto.typeParams != [] then map[f.proto.name := f] else map[]
          case _ => map[]) + FunctionTemplates(items[1..])
  }

  function StructTemplates(items: seq<Item>): map<string, StructDef> {
    if items == [] then map[]
    else (match items[0]
          case StructItem(def) => if def.typeParams != [] then map[def.name := def] else map[]
          case _ => map[]) + StructTemplates(items[1..])
  }

  function EnumTemplates(items: seq<Item>): map<string, EnumDef> {
    if items == [] then map[]
    else (match items[0]
          case EnumItem(def) => if def.typeParams != [] then map[def.name := def] else map[]
          case _ => map[]) + EnumTemplates(items[1..])
  }

  function TemplatesOf(items: seq<Item>): Templates {
    Templates(FunctionTemplates(items), StructTemplates(items), EnumTemplates(items))
  }

  /** The first function or type defined twice. */
  function DuplicateIn(items: seq<Item>, functions: set<string>, types: set<string>): Option<string> {
    if items == [] then None
    else match items[0]
      case FunctionItem(f) =>
        if f.proto.name in functions then Some(f.proto.name)
        else DuplicateIn(items[1..], functions + {f.proto.name}, types)
      case StructItem(def) =>
        if def.name in types then Some(def.name)
        else DuplicateIn(items[1..], functions, types + {def.name})
      case EnumItem(def) =>
        if def.name in types then Some(def.name)
        else DuplicateIn(items[1..], functions, types + {def.name})
      case _ => DuplicateIn(items[1..], functions, types)
  }

  function TypeParamsOfItem(item: Item): (string, seq<string>) {
    match item
    case FunctionItem(f) => (f.proto.name, f.proto.typeParams)
    case StructItem(def) => (def.name, def.typeParams)
    case EnumItem(def) => (def.name, def.typeParams)
    case _ => ("", [])
  }

  function RepeatedParam(params: seq<string>, seen: set<string>): Option<string> {
    if params == [] then None
    else if params[0] in seen then Some(params[0])
    else RepeatedParam(params[1..], seen + {params[0]})
  }

  function RepeatedTypeParam(items: seq<Item>): Option<Error> {
    if items == [] then None
    else
      var (name, params) := TypeParamsOfItem(items[0]);
      match RepeatedParam(params, {})
      case Some(param) => Some(DuplicateTypeParam(param, name))
      case None => RepeatedTypeParam(items[1..])
  }

  function RewriteItems(tpl: Templates, st: State, items: seq<Item>): (r: Outcome<seq<Item>>)
    ensures r.Done? ==> SameActive(st, r.st) && Idle(tpl, r.st) == Idle(tpl, st)
    decreases |items|
  {
    if items == [] then Done([], st)
    else
      var (first, st1) :- RewriteItem(tpl, st, items[0]);
      var (rest, st2) :- RewriteItems(tpl, st1, items[1..]);
      Done(first + rest, st2)
  }

  /** A plain item rewritten; templates disappear. */
  function RewriteItem(tpl: Templates, st: State, item: Item): (r: Outcome<seq<Item>>)
    ensures r.Done? ==> SameActive(st, r.st) && Idle(tpl, r.st) == Idle(tpl, st)
  {
    match item
    case FunctionItem(f) =>
      if f.proto.typeParams != [] then Done([], st)
      else
        var (f', st1) :- RewriteFunction(tpl, st, map[], f);
        Done([FunctionItem(f')], st1)
    case StructItem(def) =>
      if def.typeParams != [] then Done([], st)
      else
        var (def', st1) :- RewriteStruct(tpl, st, map[], def);
        Done([StructItem(def')], st1)
    case EnumItem(def) =>
      if def.typeParams != [] then Done([], st)
      else
        var (def', st1) :- RewriteEnum(tpl, st, map[], def);
        Done([EnumItem(def')], st1)
    case ExternItem(proto) =>
      if proto.typeParams != [] then Fail(GenericExtern(proto.name)) else Done([item], st)
    case StaticItem(global) =>
      var (ty, st1) :- RewriteType(tpl, st, map[], global.ty);
      var (init, st2) :- RewriteExprs(tpl, st1, map[], OptionList(global.init));
      Done([StaticItem(global.(ty := ty, init := if init == [] then None else Some(init[0])))], st2)
    case ImportItem(_) => Done([item], st)
  }

  function FunctionItems(fs: seq<Function>): (items: seq<Item>)
    ensures |items| == |fs|
  {
    seq(|fs|, i requires 0 <= i < |fs| => FunctionItem(fs[i]))
  }

  datatype Result<+T> = Ok(value: T) | Err(error: Error) {
    predicate IsFailure() { Err? }

    function PropagateFailure<U>(): Result<U>
      requires Err?
    {
      Err(error)
    }

    function Extract(): T
      requires Ok?
    {
      value
    }
  }

  function Collect(items: seq<Item>): Result<Templates> {
    match DuplicateIn(items, {}, {})
    case Some(name) => Err(DuplicateDefinition(name))
    case None =>
      match RepeatedTypeParam(items)
      case Some(error) => Err(error)
      case None => Ok(TemplatesOf(items))
  }

  /** The rewritten program: generated types, the plain items, generated functions. */
  function Monomorphize(items: seq<Item>): Result<seq<Item>> {
    match Collect(items)
    case Err(error) => Err(error)
    case Ok(tpl) =>
      match RewriteItems(tpl, Start, items)
      case Fail(error) => Err(error)
      case Done(output, st) => Ok(st.generatedTypes + output + FunctionItems(st.generatedFunctions))
  }
}
