/** What monomorphisation produces, as a function of the source alone.

    `Flat...` is the rewritten tree, with no bookkeeping: an applied type or a call with type
    arguments becomes the name of its instance. `...Insts` is the set of instances the tree
    refers to. MonoSound.dfy proves that a successful run returns exactly the flat tree and
    has defined exactly one instance for every name in it. */
module MonoFlat {
  import opened Ast
  import opened Names
  import opened Mono

  /** A template applied to rewritten type arguments. */
  datatype Instance = FunctionInst(template: string, args: seq<Type>) | TypeInst(template: string, args: seq<Type>)

  // ---------------------------------------------------------------------------
  // Types
  // ---------------------------------------------------------------------------

  function FlatType(subst: Substitution, t: Type): Type
    decreases TypeSize(t), 1
  {
    SizeOfParts(t);
    match t
    case Named(name) => if name in subst then subst[name] else t
    case Applied(name, args) => Named(Mangle(name, FlatTypes(subst, args)))
    case _ => WithParts(t, FlatTypes(subst, Parts(t)))
  }

  function FlatTypes(subst: Substitution, ts: seq<Type>): (r: seq<Type>)
    ensures |r| == |ts|
    decreases TypesSize(ts), 0
  {
    if ts == [] then [] else [FlatType(subst, ts[0])] + FlatTypes(subst, ts[1..])
  }

  function TypeInsts(subst: Substitution, t: Type): set<Instance>
    decreases TypeSize(t), 1
  {
    SizeOfParts(t);
    TypesInsts(subst, Parts(t)) +
    if t.Applied? then {TypeInst(t.template, FlatTypes(subst, t.args))} else {}
  }

  function TypesInsts(subst: Substitution, ts: seq<Type>): set<Instance>
    decreases TypesSize(ts), 0
  {
    if ts == [] then {} else TypeInsts(subst, ts[0]) + TypesInsts(subst, ts[1..])
  }

  // ---------------------------------------------------------------------------
  // Expressions
  // ---------------------------------------------------------------------------

  /** The receiver is an enum template, so the node constructs an enum value. */
  predicate ConstructsInstance(tpl: Templates, receiver: Expr) {
    receiver.Var? && receiver.name in tpl.enums
  }

  /** A node with flat operands and types, given the flat receiver of a method call. */
  function FlatHead(tpl: Templates, e: Expr, operands: seq<Expr>, types: seq<Type>, receiver: Expr): Expr
    requires |operands| == |Operands(e)| && |types| == |TypesIn(e)|
  {
    match e
    case Call(callee, _, _) =>
      if IsSizeof(callee) then Call(callee, types, operands)
      else Call(if callee in tpl.functions then Mangle(callee, types) else callee, [], operands)
    case MethodCall(source, name, _, _) =>
      if ConstructsInstance(tpl, source) then MethodCall(Var(Mangle(source.name, types)), name, [], operands)
      else MethodCall(receiver, if name in tpl.functions then Mangle(name, types) else name, [], operands)
    case StructInit(name, _, fields) =>
      StructInit(if name in tpl.structs then Mangle(name, types) else name, [], WithFieldValues(fields, operands))
    case _ => Rebuild(e, operands, types)
  }

  function FlatExpr(tpl: Templates, subst: Substitution, e: Expr): Expr
    decreases ExprSize(e), 1
  {
    SizeOfOperands(e);
    FlatHead(tpl, e, FlatExprs(tpl, subst, Operands(e)), FlatTypes(subst, TypesIn(e)),
             if e.MethodCall? then FlatExpr(tpl, subst, e.receiver) else e)
  }

  function FlatExprs(tpl: Templates, subst: Substitution, es: seq<Expr>): (r: seq<Expr>)
    ensures |r| == |es|
    decreases ExprsSize(es), 0
  {
    if es == [] then [] else [FlatExpr(tpl, subst, es[0])] + FlatExprs(tpl, subst, es[1..])
  }

  /** The instance a node itself refers to. */
  function HeadInsts(tpl: Templates, e: Expr, types: seq<Type>): set<Instance> {
    match e
    case Call(callee, _, _) =>
      if !IsSizeof(callee) && callee in tpl.functions then {FunctionInst(callee, types)} else {}
    case MethodCall(receiver, name, _, _) =>
      if ConstructsInstance(tpl, receiver) then {TypeInst(receiver.name, types)}
      else if name in tpl.functions then {FunctionInst(name, types)} else {}
    case StructInit(name, _, _) => if name in tpl.structs then {TypeInst(name, types)} else {}
    case _ => {}
  }

  function ExprInsts(tpl: Templates, subst: Substitution, e: Expr): set<Instance>
    decreases ExprSize(e), 1
  {
    SizeOfOperands(e);
    (ExprsInsts(tpl, subst, Operands(e)) + TypesInsts(subst, TypesIn(e))) + NodeInsts(tpl, subst, e)
  }

  /** What the node refers to beside its operands and types. */
  function NodeInsts(tpl: Templates, subst: Substitution, e: Expr): set<Instance>
    decreases ExprSize(e), 0
  {
    SizeOfOperands(e);
    HeadInsts(tpl, e, FlatTypes(subst, TypesIn(e))) +
    if e.MethodCall? && !ConstructsInstance(tpl, e.receiver) then ExprInsts(tpl, subst, e.receiver) else {}
  }

  function ExprsInsts(tpl: Templates, subst: Substitution, es: seq<Expr>): set<Instance>
    decreases ExprsSize(es), 0
  {
    if es == [] then {} else ExprInsts(tpl, subst, es[0]) + ExprsInsts(tpl, subst, es[1..])
  }

  /** Type arguments are given to templates, and to nothing else but `sizeof`/`alignof`. */
  predicate WellAppliedHead(tpl: Templates, e: Expr) {
    match e
    case Call(callee, typeArgs, args) =>
      if IsSizeof(callee) then |typeArgs| == 1 && args == []
      else (callee in tpl.functions <==> typeArgs != [])
    case MethodCall(receiver, name, typeArgs, _) =>
      if ConstructsInstance(tpl, receiver) then typeArgs != []
      else name !in tpl.functions ==> typeArgs == []
    case StructInit(name, typeArgs, _) => name in tpl.structs <==> typeArgs != []
    case _ => true
  }

  predicate WellApplied(tpl: Templates, e: Expr)
    decreases ExprSize(e), 1
  {
    SizeOfOperands(e);
    && WellAppliedHead(tpl, e)
    && AllWellApplied(tpl, Operands(e))
    && (e.MethodCall? && !ConstructsInstance(tpl, e.receiver) ==> WellApplied(tpl, e.receiver))
  }

  predicate AllWellApplied(tpl: Templates, es: seq<Expr>)
    decreases ExprsSize(es), 0
  {
    es == [] || (WellApplied(tpl, es[0]) && AllWellApplied(tpl, es[1..]))
  }

  // ---------------------------------------------------------------------------
  // Statements
  // ---------------------------------------------------------------------------

  function FlatStmt(tpl: Templates, subst: Substitution, s: Stmt): Stmt
    decreases StmtSize(s), 1
  {
    SizeOfStmtParts(s);
    RebuildStmt(s, FlatTypes(subst, StmtTypes(s)), FlatExprs(tpl, subst, StmtExprs(s)),
                FlatBlocks(tpl, subst, StmtBlocks(s)))
  }

  function FlatStmts(tpl: Templates, subst: Substitution, ss: seq<Stmt>): (r: seq<Stmt>)
    ensures |r| == |ss|
    decreases StmtsSize(ss), 0
  {
    if ss == [] then [] else [FlatStmt(tpl, subst, ss[0])] + FlatStmts(tpl, subst, ss[1..])
  }

  function FlatBlock(tpl: Templates, subst: Substitution, b: Block): Block
    decreases StmtsSize(b.stmts), 1
  {
    Block(FlatStmts(tpl, subst, b.stmts))
  }

  function FlatBlocks(tpl: Templates, subst: Substitution, bs: seq<Block>): (r: seq<Block>)
    ensures |r| == |bs|
    decreases BlocksSize(bs), 0
  {
    if bs == [] then [] else [FlatBlock(tpl, subst, bs[0])] + FlatBlocks(tpl, subst, bs[1..])
  }

  function StmtInsts(tpl: Templates, subst: Substitution, s: Stmt): set<Instance>
    decreases StmtSize(s), 1
  {
    SizeOfStmtParts(s);
    TypesInsts(subst, StmtTypes(s)) + (ExprsInsts(tpl, subst, StmtExprs(s)) + BlocksInsts(tpl, subst, StmtBlocks(s)))
  }

  function StmtsInsts(tpl: Templates, subst: Substitution, ss: seq<Stmt>): set<Instance>
    decreases StmtsSize(ss), 0
  {
    if ss == [] then {} else StmtInsts(tpl, subst, ss[0]) + StmtsInsts(tpl, subst, ss[1..])
  }

  function BlocksInsts(tpl: Templates, subst: Substitution, bs: seq<Block>): set<Instance>
    decreases BlocksSize(bs), 0
  {
    if bs == [] then {} else StmtsInsts(tpl, subst, bs[0].stmts) + BlocksInsts(tpl, subst, bs[1..])
  }

  predicate WellAppliedStmt(tpl: Templates, s: Stmt)
    decreases StmtSize(s), 1
  {
    SizeOfStmtParts(s);
    AllWellApplied(tpl, StmtExprs(s)) && WellAppliedBlocks(tpl, StmtBlocks(s))
  }

  predicate WellAppliedStmts(tpl: Templates, ss: seq<Stmt>)
    decreases StmtsSize(ss), 0
  {
    ss == [] || (WellAppliedStmt(tpl, ss[0]) && WellAppliedStmts(tpl, ss[1..]))
  }

  predicate WellAppliedBlocks(tpl: Templates, bs: seq<Block>)
    decreases BlocksSize(bs), 0
  {
    bs == [] || (WellAppliedStmts(tpl, bs[0].stmts) && WellAppliedBlocks(tpl, bs[1..]))
  }

  // ---------------------------------------------------------------------------
  // Definitions
  // ---------------------------------------------------------------------------

  function FlatFunction(tpl: Templates, subst: Substitution, f: Function): Function {
    Function(WithSignatureTypes(f.proto, FlatTypes(subst, SignatureTypes(f.proto))), FlatBlock(tpl, subst, f.body))
  }

  function FunctionInsts(tpl: Templates, subst: Substitution, f: Function): set<Instance> {
    TypesInsts(subst, SignatureTypes(f.proto)) + StmtsInsts(tpl, subst, f.body.stmts)
  }

  function FlatStruct(subst: Substitution, def: StructDef): StructDef {
    def.(fields := WithParamTypes(def.fields, FlatTypes(subst, ParamTypes(def.fields))))
  }

  function FlatEnum(subst: Substitution, def: EnumDef): EnumDef {
    def.(variants := WithPayloadTypes(def.variants, FlatTypes(subst, PayloadTypes(def.variants))))
  }

  /** The instance names a template, with the right number of arguments. */
  predicate Good(tpl: Templates, i: Instance) {
    match i
    case FunctionInst(name, args) => name in tpl.functions && |tpl.functions[name].proto.typeParams| == |args|
    case TypeInst(name, args) => IsTypeTemplate(tpl, name) && |TypeParamsOf(tpl, name)| == |args|
  }

  function InstanceName(i: Instance): string {
    Mangle(i.template, i.args)
  }

  function ArgsOf(tpl: Templates, i: Instance): Substitution
    requires Good(tpl, i)
  {
    if i.FunctionInst? then Bind(tpl.functions[i.template].proto.typeParams, i.args)
    else Bind(TypeParamsOf(tpl, i.template), i.args)
  }

  /** The definition of a function instance: its template, flattened under its arguments. */
  function FunctionOf(tpl: Templates, i: Instance): Function
    requires i.FunctionInst? && Good(tpl, i)
  {
    FlatFunction(tpl, ArgsOf(tpl, i), Renamed(tpl.functions[i.template], InstanceName(i)))
  }

  /** The definition of a type instance. */
  function TypeDefOf(tpl: Templates, i: Instance): Item
    requires i.TypeInst? && Good(tpl, i)
  {
    if i.template in tpl.structs then
      StructItem(FlatStruct(ArgsOf(tpl, i), tpl.structs[i.template]).(name := InstanceName(i), typeParams := []))
    else
      EnumItem(FlatEnum(ArgsOf(tpl, i), tpl.enums[i.template]).(name := InstanceName(i), typeParams := []))
  }

  /** What the definition of an instance refers to. */
  function DefinitionInsts(tpl: Templates, i: Instance): set<Instance>
    requires Good(tpl, i)
  {
    if i.FunctionInst? then FunctionInsts(tpl, ArgsOf(tpl, i), tpl.functions[i.template])
    else if i.template in tpl.structs then TypesInsts(ArgsOf(tpl, i), ParamTypes(tpl.structs[i.template].fields))
    else TypesInsts(ArgsOf(tpl, i), PayloadTypes(tpl.enums[i.template].variants))
  }

  // ---------------------------------------------------------------------------
  // Programs whose instances have distinct names
  // ---------------------------------------------------------------------------

  /** No unexpanded generic type. */
  predicate PlainType(t: Type)
    decreases TypeSize(t), 1
  {
    SizeOfParts(t);
    !t.Applied? && AllPlain(Parts(t))
  }

  predicate AllPlain(ts: seq<Type>)
    decreases TypesSize(ts), 0
  {
    ts == [] || (PlainType(ts[0]) && AllPlain(ts[1..]))
  }

  predicate TupleFree(t: Type)
    decreases TypeSize(t), 1
  {
    SizeOfParts(t);
    !t.Tuple? && AllTupleFree(Parts(t))
  }

  predicate AllTupleFree(ts: seq<Type>)
    decreases TypesSize(ts), 0
  {
    ts == [] || (TupleFree(ts[0]) && AllTupleFree(ts[1..]))
  }

  /** No tuple is passed as a type argument, and no name looks like an instance name. */
  predicate TidyType(t: Type)
    decreases TypeSize(t), 1
  {
    SizeOfParts(t);
    && (t.Named? ==> !Reserved(t.name))
    && (t.Applied? ==> !Reserved(t.template) && AllTupleFree(t.args))
    && AllTidyTypes(Parts(t))
  }

  predicate AllTidyTypes(ts: seq<Type>)
    decreases TypesSize(ts), 0
  {
    ts == [] || (TidyType(ts[0]) && AllTidyTypes(ts[1..]))
  }

  predicate TidyHead(e: Expr) {
    match e
    case Var(name) => !Reserved(name)
    case Call(callee, typeArgs, _) => !Reserved(callee) && (IsSizeof(callee) || AllTupleFree(typeArgs))
    case MethodCall(_, name, typeArgs, _) => !Reserved(name) && AllTupleFree(typeArgs)
    case StructInit(name, typeArgs, _) => !Reserved(name) && AllTupleFree(typeArgs)
    case _ => true
  }

  predicate TidyExpr(e: Expr)
    decreases ExprSize(e), 1
  {
    SizeOfOperands(e);
    && TidyHead(e)
    && AllTidyExprs(Operands(e))
    && AllTidyTypes(TypesIn(e))
    && (e.MethodCall? ==> TidyExpr(e.receiver))
  }

  predicate AllTidyExprs(es: seq<Expr>)
    decreases ExprsSize(es), 0
  {
    es == [] || (TidyExpr(es[0]) && AllTidyExprs(es[1..]))
  }

  predicate TidyStmt(s: Stmt)
    decreases StmtSize(s), 1
  {
    SizeOfStmtParts(s);
    AllTidyTypes(StmtTypes(s)) && AllTidyExprs(StmtExprs(s)) && TidyBlocks(StmtBlocks(s))
    && (s.Assign? ==> !Reserved(s.target))
  }

  predicate TidyStmts(ss: seq<Stmt>)
    decreases StmtsSize(ss), 0
  {
    ss == [] || (TidyStmt(ss[0]) && TidyStmts(ss[1..]))
  }

  predicate TidyBlocks(bs: seq<Block>)
    decreases BlocksSize(bs), 0
  {
    bs == [] || (TidyStmts(bs[0].stmts) && TidyBlocks(bs[1..]))
  }

  predicate TidyFunction(f: Function) {
    !Reserved(f.proto.name) && AllTidyTypes(SignatureTypes(f.proto)) && TidyStmts(f.body.stmts)
  }

  predicate TidyItem(item: Item) {
    match item
    case ExternItem(proto) => !Reserved(proto.name)
    case FunctionItem(f) => TidyFunction(f)
    case StructItem(def) => !Reserved(def.name) && AllTidyTypes(ParamTypes(def.fields))
    case EnumItem(def) =>
      && !Reserved(def.name)
      && AllTidyTypes(PayloadTypes(def.variants))
      && (forall variant | variant in def.variants :: !Reserved(variant.name))
    case StaticItem(global) => TidyType(global.ty) && AllTidyExprs(OptionList(global.init))
    case ImportItem(_) => true
  }

  predicate Tidy(items: seq<Item>) {
    forall item | item in items :: TidyItem(item)
  }

  /** A rewritten type argument; tuple-free in a tidy program. */
  predicate ArgOk(tidy: bool, t: Type) {
    if tidy then Keyable(t) else PlainType(t)
  }

  predicate ArgsOk(tidy: bool, ts: seq<Type>) {
    forall t | t in ts :: ArgOk(tidy, t)
  }

  predicate SubstOk(tidy: bool, subst: Substitution) {
    forall x | x in subst :: ArgOk(tidy, subst[x])
  }

  lemma {:induction false} FlatTypesOk(tidy: bool, subst: Substitution, ts: seq<Type>)
    requires SubstOk(tidy, subst) && (tidy ==> AllTupleFree(ts))
    ensures tidy ==> AllKeyable(FlatTypes(subst, ts))
    ensures !tidy ==> AllPlain(FlatTypes(subst, ts))
    ensures ArgsOk(tidy, FlatTypes(subst, ts))
    decreases TypesSize(ts), 0
  {
    if ts != [] {
      FlatTypeOk(tidy, subst, ts[0]);
      FlatTypesOk(tidy, subst, ts[1..]);
    }
  }

  lemma {:induction false} FlatTypeOk(tidy: bool, subst: Substitution, t: Type)
    requires SubstOk(tidy, subst) && (tidy ==> TupleFree(t))
    ensures ArgOk(tidy, FlatType(subst, t))
    decreases TypeSize(t), 1
  {
    SizeOfParts(t);
    FlatTypesOk(tidy, subst, Parts(t));
    match t
    case Fn(params, ret) =>
      var flat := FlatTypes(subst, Parts(t));
      assert flat == flat[..|params|] + [flat[|params|]];
      if tidy { KeyableAppend(flat[..|params|], flat[|params|]); }
    case _ =>
  }

  lemma {:induction false} KeyableAppend(ts: seq<Type>, t: Type)
    requires AllKeyable(ts + [t])
    ensures AllKeyable(ts) && Keyable(t)
  {
    if ts != [] {
      assert (ts + [t])[1..] == ts[1..] + [t];
      KeyableAppend(ts[1..], t);
    }
  }

  lemma {:induction false} BindOk(tidy: bool, params: seq<string>, args: seq<Type>)
    requires |params| == |args| && ArgsOk(tidy, args)
    ensures SubstOk(tidy, Bind(params, args))
  {
    if params != [] {
      BindOk(tidy, params[1..], args[1..]);
    }
  }
}
