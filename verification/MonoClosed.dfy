/** Whole programs: what a successful monomorphisation guarantees of its output.

    Nothing is in progress any more, so the instantiated names are exactly the names defined, at
    most 256 of them, each once; no applied type and no type argument is left (but for the plain
    argument of `sizeof`/`alignof`); and every instance the output refers to is defined in it,
    by its own template under its own arguments. */
module MonoClosed {
  import opened Ast
  import opened Wrappers
  import opened Names
  import opened Mono
  import opened MonoFlat
  import opened MonoSound

  // ---------------------------------------------------------------------------
  // Items
  // ---------------------------------------------------------------------------

  predicate IsTemplate(item: Item) {
    TypeParamsOfItem(item).1 != []
  }

  /** A plain item flattened; templates disappear. */
  function FlatItem(tpl: Templates, item: Item): seq<Item> {
    if IsTemplate(item) then []
    else match item
      case FunctionItem(f) => [FunctionItem(FlatFunction(tpl, map[], f))]
      case StructItem(def) => [StructItem(FlatStruct(map[], def))]
      case EnumItem(def) => [EnumItem(FlatEnum(map[], def))]
      case StaticItem(global) => [StaticItem(FlatStatic(tpl, global))]
      case _ => [item]
  }

  function FlatStatic(tpl: Templates, global: Static): Static {
    var init := FlatExprs(tpl, map[], OptionList(global.init));
    global.(ty := FlatType(map[], global.ty), init := if init == [] then None else Some(init[0]))
  }

  function FlatItems(tpl: Templates, items: seq<Item>): seq<Item> {
    if items == [] then [] else FlatItem(tpl, items[0]) + FlatItems(tpl, items[1..])
  }

  function ItemInsts(tpl: Templates, item: Item): set<Instance> {
    if IsTemplate(item) then {}
    else match item
      case FunctionItem(f) => FunctionInsts(tpl, map[], f)
      case StructItem(def) => TypesInsts(map[], ParamTypes(def.fields))
      case EnumItem(def) => TypesInsts(map[], PayloadTypes(def.variants))
      case StaticItem(global) => TypeInsts(map[], global.ty) + ExprsInsts(tpl, map[], OptionList(global.init))
      case _ => {}
  }

  function ItemsInsts(tpl: Templates, items: seq<Item>): set<Instance> {
    if items == [] then {} else ItemInsts(tpl, items[0]) + ItemsInsts(tpl, items[1..])
  }

  /** Type arguments are applied to templates only, throughout the item. */
  predicate WellAppliedItem(tpl: Templates, item: Item) {
    IsTemplate(item) || match item
      case FunctionItem(f) => WellAppliedStmts(tpl, f.body.stmts)
      case StaticItem(global) => AllWellApplied(tpl, OptionList(global.init))
      case ExternItem(proto) => proto.typeParams == []
      case _ => true
  }

  lemma SoundItem(tidy: bool, tpl: Templates, st: State, item: Item)
    requires Inv(tidy, tpl, st) && TemplatesOk(tidy, tpl) && (tidy ==> TidyItem(item))
    ensures
      var r := RewriteItem(tpl, st, item);
      r.Done? ==>
        && r.value == FlatItem(tpl, item)
        && WellAppliedItem(tpl, item)
        && Inv(tidy, tpl, r.st) && Sound(tidy, tpl, st, r.st, ItemInsts(tpl, item))
  {
    hide Idle, Inv, Sound, TemplatesOk, FlatStatic, FunctionInsts, TypesInsts, ExprsInsts;
    SoundStay(tidy, tpl, st);
    if !IsTemplate(item) {
      match item
      case FunctionItem(f) => SoundFunction(tidy, tpl, st, map[], f);
      case StructItem(def) => SoundTypes(tidy, tpl, st, map[], ParamTypes(def.fields));
      case EnumItem(def) => SoundTypes(tidy, tpl, st, map[], PayloadTypes(def.variants));
      case StaticItem(global) => SoundStatic(tidy, tpl, st, global);
      case _ =>
    }
  }

  lemma SoundStatic(tidy: bool, tpl: Templates, st: State, global: Static)
    requires Inv(tidy, tpl, st) && TemplatesOk(tidy, tpl) && (tidy ==> TidyItem(StaticItem(global)))
    ensures
      var r := RewriteItem(tpl, st, StaticItem(global));
      r.Done? ==>
        && r.value == FlatItem(tpl, StaticItem(global))
        && WellAppliedItem(tpl, StaticItem(global))
        && Inv(tidy, tpl, r.st) && Sound(tidy, tpl, st, r.st, ItemInsts(tpl, StaticItem(global)))
  {
    hide Idle, Inv, Sound, TemplatesOk, FlatType, FlatExprs, TypeInsts, ExprsInsts, AllWellApplied, TidyType, AllTidyExprs, RewriteType, RewriteExprs;
    SoundType(tidy, tpl, st, map[], global.ty);
    var r1 := RewriteType(tpl, st, map[], global.ty);
    if r1.Done? {
      SoundExprs(tidy, tpl, r1.st, map[], OptionList(global.init));
      var r2 := RewriteExprs(tpl, r1.st, map[], OptionList(global.init));
      if r2.Done? {
        SoundThen(tidy, tpl, st, r1.st, r2.st, TypeInsts(map[], global.ty), ExprsInsts(tpl, map[], OptionList(global.init)));
      }
    }
  }

  lemma {:induction false} SoundItems(tidy: bool, tpl: Templates, st: State, items: seq<Item>)
    requires Inv(tidy, tpl, st) && TemplatesOk(tidy, tpl) && (tidy ==> Tidy(items))
    ensures
      var r := RewriteItems(tpl, st, items);
      r.Done? ==>
        && r.value == FlatItems(tpl, items)
        && (forall item | item in items :: WellAppliedItem(tpl, item))
        && Inv(tidy, tpl, r.st) && Sound(tidy, tpl, st, r.st, ItemsInsts(tpl, items))
    decreases |items|
  {
    hide Idle, Inv, Sound, TemplatesOk, WellAppliedItem, FlatItem, ItemInsts;
    if items == [] {
      SoundStay(tidy, tpl, st);
    } else {
      SoundItem(tidy, tpl, st, items[0]);
      var r1 := RewriteItem(tpl, st, items[0]);
      if r1.Done? {
        SoundItems(tidy, tpl, r1.st, items[1..]);
        var r2 := RewriteItems(tpl, r1.st, items[1..]);
        if r2.Done? {
          SoundThen(tidy, tpl, st, r1.st, r2.st, ItemInsts(tpl, items[0]), ItemsInsts(tpl, items[1..]));
        }
      }
    }
  }

  // ---------------------------------------------------------------------------
  // Nothing generic is left
  // ---------------------------------------------------------------------------

  predicate PlainHead(e: Expr) {
    match e
    case Call(callee, typeArgs, _) => IsSizeof(callee) || typeArgs == []
    case MethodCall(_, _, typeArgs, _) => typeArgs == []
    case StructInit(_, typeArgs, _) => typeArgs == []
    case _ => true
  }

  predicate PlainExpr(e: Expr)
    decreases ExprSize(e), 1
  {
    SizeOfOperands(e);
    PlainHead(e) && AllPlain(TypesIn(e)) && AllPlainExprs(Operands(e)) && (e.MethodCall? ==> PlainExpr(e.receiver))
  }

  predicate AllPlainExprs(es: seq<Expr>)
    decreases ExprsSize(es), 0
  {
    es == [] || (PlainExpr(es[0]) && AllPlainExprs(es[1..]))
  }

  predicate PlainStmt(s: Stmt)
    decreases StmtSize(s), 1
  {
    SizeOfStmtParts(s);
    AllPlain(StmtTypes(s)) && AllPlainExprs(StmtExprs(s)) && PlainBlocks(StmtBlocks(s))
  }

  predicate PlainStmts(ss: seq<Stmt>)
    decreases StmtsSize(ss), 0
  {
    ss == [] || (PlainStmt(ss[0]) && PlainStmts(ss[1..]))
  }

  predicate PlainBlocks(bs: seq<Block>)
    decreases BlocksSize(bs), 0
  {
    bs == [] || (PlainStmts(bs[0].stmts) && PlainBlocks(bs[1..]))
  }

  predicate PlainItem(item: Item) {
    match item
    case FunctionItem(f) =>
      f.proto.typeParams == [] && AllPlain(SignatureTypes(f.proto)) && PlainStmts(f.body.stmts)
    case StructItem(def) => def.typeParams == [] && AllPlain(ParamTypes(def.fields))
    case EnumItem(def) => def.typeParams == [] && AllPlain(PayloadTypes(def.variants))
    case StaticItem(global) => PlainType(global.ty) && AllPlainExprs(OptionList(global.init))
    case ExternItem(_) => true
    case ImportItem(_) => true
  }

  lemma {:induction false} FlatExprPlain(tpl: Templates, subst: Substitution, e: Expr)
    requires SubstOk(false, subst)
    ensures PlainExpr(FlatExpr(tpl, subst, e))
    decreases ExprSize(e), 1
  {
    SizeOfOperands(e);
    FlatExprsPlain(tpl, subst, Operands(e));
    FlatTypesOk(false, subst, TypesIn(e));
    if e.MethodCall? {
      FlatExprPlain(tpl, subst, e.receiver);
    }
    HeadPlain(tpl, e, FlatExprs(tpl, subst, Operands(e)), FlatTypes(subst, TypesIn(e)),
              if e.MethodCall? then FlatExpr(tpl, subst, e.receiver) else e);
  }

  lemma HeadPlain(tpl: Templates, e: Expr, operands: seq<Expr>, types: seq<Type>, receiver: Expr)
    requires |operands| == |Operands(e)| && |types| == |TypesIn(e)|
    requires AllPlainExprs(operands) && AllPlain(types) && (e.MethodCall? ==> PlainExpr(receiver))
    ensures PlainExpr(FlatHead(tpl, e, operands, types, receiver))
  {
    match e
    case MethodCall(source, _, _, _) =>
      if ConstructsInstance(tpl, source) { assert PlainExpr(Var(Mangle(source.name, types))); }
    case _ =>
  }

  lemma {:induction false} FlatExprsPlain(tpl: Templates, subst: Substitution, es: seq<Expr>)
    requires SubstOk(false, subst)
    ensures AllPlainExprs(FlatExprs(tpl, subst, es))
    decreases ExprsSize(es), 0
  {
    if es != [] {
      FlatExprPlain(tpl, subst, es[0]);
      FlatExprsPlain(tpl, subst, es[1..]);
    }
  }

  lemma {:induction false} FlatStmtsPlain(tpl: Templates, subst: Substitution, ss: seq<Stmt>)
    requires SubstOk(false, subst)
    ensures PlainStmts(FlatStmts(tpl, subst, ss))
    decreases StmtsSize(ss), 0
  {
    if ss != [] {
      FlatStmtPlain(tpl, subst, ss[0]);
      FlatStmtsPlain(tpl, subst, ss[1..]);
    }
  }

  lemma {:induction false} FlatStmtPlain(tpl: Templates, subst: Substitution, s: Stmt)
    requires SubstOk(false, subst)
    ensures PlainStmt(FlatStmt(tpl, subst, s))
    decreases StmtSize(s), 1
  {
    SizeOfStmtParts(s);
    FlatTypesOk(false, subst, StmtTypes(s));
    FlatExprsPlain(tpl, subst, StmtExprs(s));
    FlatBlocksPlain(tpl, subst, StmtBlocks(s));
  }

  lemma {:induction false} FlatBlocksPlain(tpl: Templates, subst: Substitution, bs: seq<Block>)
    requires SubstOk(false, subst)
    ensures PlainBlocks(FlatBlocks(tpl, subst, bs))
    decreases BlocksSize(bs), 0
  {
    if bs != [] {
      FlatStmtsPlain(tpl, subst, bs[0].stmts);
      FlatBlocksPlain(tpl, subst, bs[1..]);
    }
  }

  lemma FlatFunctionPlain(tpl: Templates, subst: Substitution, f: Function)
    requires SubstOk(false, subst) && f.proto.typeParams == []
    ensures PlainItem(FunctionItem(FlatFunction(tpl, subst, f)))
  {
    FlatTypesOk(false, subst, SignatureTypes(f.proto));
    FlatStmtsPlain(tpl, subst, f.body.stmts);
  }

  lemma {:induction false} PayloadsAfter(variants: seq<EnumVariant>, ts: seq<Type>)
    requires |ts| == |PayloadTypes(variants)|
    ensures PayloadTypes(WithPayloadTypes(variants, ts)) == ts
  {
    if variants != [] {
      if variants[0].payload.None? {
        PayloadsAfter(variants[1..], ts);
      } else {
        PayloadsAfter(variants[1..], ts[1..]);
        assert [ts[0]] + ts[1..] == ts;
      }
    }
  }

  lemma FlatDefsPlain(subst: Substitution, s: StructDef, e: EnumDef)
    requires SubstOk(false, subst)
    ensures AllPlain(ParamTypes(FlatStruct(subst, s).fields))
    ensures AllPlain(PayloadTypes(FlatEnum(subst, e).variants))
  {
    FlatTypesOk(false, subst, ParamTypes(s.fields));
    FlatTypesOk(false, subst, PayloadTypes(e.variants));
    PayloadsAfter(e.variants, FlatTypes(subst, PayloadTypes(e.variants)));
  }

  lemma FlatItemPlain(tpl: Templates, item: Item)
    ensures forall flat | flat in FlatItem(tpl, item) :: PlainItem(flat)
  {
    if !IsTemplate(item) {
      match item
      case FunctionItem(f) => FlatFunctionPlain(tpl, map[], f);
      case StructItem(def) => FlatDefsPlain(map[], def, EnumDef("", [], []));
      case EnumItem(def) => FlatDefsPlain(map[], StructDef("", [], []), def);
      case StaticItem(global) =>
        FlatTypeOk(false, map[], global.ty);
        FlatExprsPlain(tpl, map[], OptionList(global.init));
        assert OptionList(FlatStatic(tpl, global).init) == FlatExprs(tpl, map[], OptionList(global.init));
      case _ =>
    }
  }

  lemma {:induction false} FlatItemsPlain(tpl: Templates, items: seq<Item>)
    ensures forall flat | flat in FlatItems(tpl, items) :: PlainItem(flat)
  {
    if items != [] {
      FlatItemPlain(tpl, items[0]);
      FlatItemsPlain(tpl, items[1..]);
    }
  }

  lemma GeneratedPlain(tpl: Templates, i: Instance)
    requires Good(tpl, i) && ArgsOk(false, i.args)
    ensures i.FunctionInst? ==> PlainItem(FunctionItem(FunctionOf(tpl, i)))
    ensures i.TypeInst? ==> PlainItem(TypeDefOf(tpl, i))
  {
    if i.FunctionInst? {
      BindOk(false, tpl.functions[i.template].proto.typeParams, i.args);
      FlatFunctionPlain(tpl, ArgsOf(tpl, i), Renamed(tpl.functions[i.template], InstanceName(i)));
    } else {
      BindOk(false, TypeParamsOf(tpl, i.template), i.args);
      if i.template in tpl.structs {
        FlatDefsPlain(ArgsOf(tpl, i), tpl.structs[i.template], EnumDef("", [], []));
      } else {
        FlatDefsPlain(ArgsOf(tpl, i), StructDef("", [], []), tpl.enums[i.template]);
      }
    }
  }

  // ---------------------------------------------------------------------------
  // The theorems
  // ---------------------------------------------------------------------------

  /** The books at the end of a successful run. */
  function FinalState(items: seq<Item>): State
    requires Monomorphize(items).Ok?
  {
    RewriteItems(TemplatesOf(items), Start, items).st
  }

  lemma StartInv(tidy: bool, tpl: Templates)
    ensures Inv(tidy, tpl, Start)
  {
    assert InProgress({}, []) == {};
    assert FunctionNames([]) == [] && TypeNames([]) == [];
  }

  lemma NothingInProgress(instantiated: set<string>, defined: seq<string>)
    requires Ledger(instantiated, {}, defined)
    ensures forall name :: name in instantiated <==> name in defined
    ensures |defined| == |instantiated|
  {
    assert InProgress(instantiated, defined) == {};
    forall name | name in instantiated
      ensures name in defined
    {
      assert name !in InProgress(instantiated, defined);
    }
    assert instantiated == (set name | name in defined);
    DistinctCount(defined);
  }

  lemma {:induction false} DistinctCount(names: seq<string>)
    requires Distinct(names)
    ensures |set name | name in names| == |names|
  {
    if names != [] {
      var rest := names[..|names| - 1];
      var last := names[|names| - 1];
      DistinctCount(rest);
      assert (set name | name in names) == (set name | name in rest) + {last};
    }
  }

  /** A successful run in the terms of its flat output: the books are closed and everything the
      output refers to is defined. `tidy` programs keep their instances' arguments tuple-free. */
  lemma RunSound(tidy: bool, items: seq<Item>)
    requires Monomorphize(items).Ok? && (tidy ==> Tidy(items))
    ensures
      var tpl, st := TemplatesOf(items), FinalState(items);
      && Monomorphize(items).value
         == st.generatedTypes + FlatItems(tpl, items) + FunctionItems(st.generatedFunctions)
      && Inv(tidy, tpl, st) && Sound(tidy, tpl, Start, st, ItemsInsts(tpl, items))
      && (forall item | item in items :: WellAppliedItem(tpl, item))
  {
    var tpl := TemplatesOf(items);
    StartInv(tidy, tpl);
    if tidy { TidyTemplates(items); }
    SoundItems(tidy, tpl, Start, items);
  }

  lemma {:induction false} TidyTemplates(items: seq<Item>)
    requires Tidy(items)
    ensures TemplatesOk(true, TemplatesOf(items))
  {
    if items != [] {
      var tpl, rest := TemplatesOf(items), TemplatesOf(items[1..]);
      TidyTemplates(items[1..]);
      assert TidyItem(items[0]);
    }
  }

  /** Nothing is active at the end; the instantiated names are exactly the generated ones, each
      generated once, and at most 256 in all. */
  lemma BooksClosed(items: seq<Item>)
    requires Monomorphize(items).Ok?
    ensures
      var st := FinalState(items);
      var functions, types := FunctionNames(st.generatedFunctions), TypeNames(st.generatedTypes);
      && st.activeFunctions == {} && st.activeTypes == {}
      && Distinct(functions) && Distinct(types)
      && (forall name :: name in st.instantiatedFunctions <==> name in functions)
      && (forall name :: name in st.instantiatedTypes <==> name in types)
      && |functions| + |types| <= 256
  {
    var st := FinalState(items);
    RunSound(false, items);
    NothingInProgress(st.instantiatedFunctions, FunctionNames(st.generatedFunctions));
    NothingInProgress(st.instantiatedTypes, TypeNames(st.generatedTypes));
  }

  lemma TypeItemPlain(tpl: Templates, st: State, item: Item)
    requires Inv(false, tpl, st) && item in st.generatedTypes
    ensures PlainItem(item)
  {
    var i :| DefinesType(false, tpl, st, item, i);
    GeneratedPlain(tpl, i);
  }

  lemma FunctionItemPlain(tpl: Templates, st: State, item: Item)
    requires Inv(false, tpl, st) && item in FunctionItems(st.generatedFunctions)
    ensures PlainItem(item)
  {
    var k :| 0 <= k < |st.generatedFunctions| && item == FunctionItem(st.generatedFunctions[k]);
    var f := st.generatedFunctions[k];
    assert f in st.generatedFunctions;
    var i :| DefinesFunction(false, tpl, st, f, i);
    GeneratedPlain(tpl, i);
  }

  /** No applied type and no type argument is left, outside extern prototypes and the plain
      argument of `sizeof`/`alignof`. */
  lemma OutputPlain(items: seq<Item>)
    requires Monomorphize(items).Ok?
    ensures forall item | item in Monomorphize(items).value :: PlainItem(item)
  {
    var tpl, st := TemplatesOf(items), FinalState(items);
    RunSound(false, items);
    FlatItemsPlain(tpl, items);
    hide Inv, Demanded, PlainItem, Monomorphize;
    forall item | item in Monomorphize(items).value
      ensures PlainItem(item)
    {
      if item in st.generatedTypes {
        TypeItemPlain(tpl, st, item);
      } else if item in FunctionItems(st.generatedFunctions) {
        FunctionItemPlain(tpl, st, item);
      }
    }
  }

  predicate OnlyAt(names: seq<string>, k: nat, name: string) {
    k < |names| && names[k] == name && forall j | 0 <= j < |names| && j != k :: names[j] != name
  }

  /** The instance's name has exactly one definition, which is the instance's own. */
  ghost predicate DefinedOnce(tpl: Templates, st: State, i: Instance) {
    && Good(tpl, i)
    && if i.FunctionInst? then
         exists k: nat :: OnlyAt(FunctionNames(st.generatedFunctions), k, InstanceName(i))
           && st.generatedFunctions[k] == FunctionOf(tpl, i)
       else
         exists k: nat :: OnlyAt(TypeNames(st.generatedTypes), k, InstanceName(i))
           && st.generatedTypes[k] == TypeDefOf(tpl, i)
  }

  /** In a tidy program the one definition under an instance's name is that instance's own. */
  lemma RegisteredIsDefined(tpl: Templates, st: State, i: Instance)
    requires Inv(true, tpl, st) && st.activeFunctions == {} && st.activeTypes == {}
    requires Demanded(true, tpl, st, {i})
    ensures DefinedOnce(tpl, st, i)
  {
    assert i in {i};
    if i.FunctionInst? {
      FunctionIsDefined(tpl, st, i);
    } else {
      TypeIsDefined(tpl, st, i);
    }
  }

  lemma FunctionIsDefined(tpl: Templates, st: State, i: Instance)
    requires Inv(true, tpl, st) && st.activeFunctions == {}
    requires i.FunctionInst? && Good(tpl, i) && ArgsOk(true, i.args) && Registered(st, i)
    ensures DefinedOnce(tpl, st, i)
  {
    hide Defines, ArgsOk, FunctionOf, DefinesFunction;
    var names := FunctionNames(st.generatedFunctions);
    NothingInProgress(st.instantiatedFunctions, names);
    var k := OnlyIndex(names, InstanceName(i));
    var f := st.generatedFunctions[k];
    assert f == FunctionOf(tpl, i) by { FunctionDefinition(tpl, st, f, i); }
  }

  lemma FunctionDefinition(tpl: Templates, st: State, f: Function, i: Instance)
    requires Defines(true, tpl, st) && f in st.generatedFunctions
    requires i.FunctionInst? && Good(tpl, i) && ArgsOk(true, i.args) && f.proto.name == InstanceName(i)
    ensures DefinesFunction(true, tpl, st, f, i) && f == FunctionOf(tpl, i)
  {
    var j :| DefinesFunction(true, tpl, st, f, j);
    SameInstance(tpl, i, j);
  }

  lemma TypeIsDefined(tpl: Templates, st: State, i: Instance)
    requires Inv(true, tpl, st) && st.activeTypes == {}
    requires i.TypeInst? && Good(tpl, i) && ArgsOk(true, i.args) && Registered(st, i)
    ensures DefinedOnce(tpl, st, i)
  {
    hide Defines, ArgsOk, TypeDefOf, DefinesType;
    var names := TypeNames(st.generatedTypes);
    NothingInProgress(st.instantiatedTypes, names);
    var k := OnlyIndex(names, InstanceName(i));
    var def := st.generatedTypes[k];
    assert def == TypeDefOf(tpl, i) by { TypeDefinition(tpl, st, def, i); }
  }

  lemma TypeDefinition(tpl: Templates, st: State, def: Item, i: Instance)
    requires Defines(true, tpl, st) && def in st.generatedTypes
    requires i.TypeInst? && Good(tpl, i) && ArgsOk(true, i.args) && TypeItemName(def) == InstanceName(i)
    ensures DefinesType(true, tpl, st, def, i) && def == TypeDefOf(tpl, i)
  {
    var j :| DefinesType(true, tpl, st, def, j);
    SameInstance(tpl, i, j);
  }

  lemma OnlyIndex(names: seq<string>, name: string) returns (k: nat)
    requires name in names && Distinct(names)
    ensures OnlyAt(names, k, name)
  {
    k :| 0 <= k < |names| && names[k] == name;
    assert forall j | 0 <= j < |names| && j != k :: names[j] != names[k];
  }

  lemma SameInstance(tpl: Templates, i: Instance, j: Instance)
    requires Good(tpl, i) && Good(tpl, j) && ArgsOk(true, i.args) && ArgsOk(true, j.args)
    requires i.FunctionInst? == j.FunctionInst? && InstanceName(i) == InstanceName(j)
    ensures i == j
  {
    AllKeyableArgs(i.args);
    AllKeyableArgs(j.args);
    InstanceOfMangle(i.template, i.args, i.template);
    InstanceOfMangle(j.template, j.args, i.template);
    MangleInjective(i.template, i.args, j.template, j.args);
  }

  lemma {:induction false} AllKeyableArgs(ts: seq<Type>)
    requires ArgsOk(true, ts)
    ensures AllKeyable(ts)
  {
    if ts != [] {
      assert ArgOk(true, ts[0]);
      AllKeyableArgs(ts[1..]);
    }
  }

  /** Every instance the rewritten items or a generated definition refer to is defined exactly
      once, by its own template under its own arguments. */
  lemma OutputClosed(items: seq<Item>, i: Instance)
    requires Monomorphize(items).Ok? && Tidy(items)
    requires
      var tpl, st := TemplatesOf(items), FinalState(items);
      || i in ItemsInsts(tpl, items)
      || exists j :: DefinedOnce(tpl, st, j) && i in DefinitionInsts(tpl, j) && ArgsOk(true, j.args)
    ensures DefinedOnce(TemplatesOf(items), FinalState(items), i)
  {
    var tpl, st := TemplatesOf(items), FinalState(items);
    RunSound(true, items);
    if i !in ItemsInsts(tpl, items) {
      var j :| DefinedOnce(tpl, st, j) && i in DefinitionInsts(tpl, j) && ArgsOk(true, j.args);
      DefinitionDemands(tpl, st, j, i);
    }
    RegisteredIsDefined(tpl, st, i);
  }

  lemma DefinitionDemands(tpl: Templates, st: State, j: Instance, i: Instance)
    requires Inv(true, tpl, st) && Good(tpl, j) && ArgsOk(true, j.args) && DefinedOnce(tpl, st, j)
    requires i in DefinitionInsts(tpl, j)
    ensures Demanded(true, tpl, st, {i})
  {
    if j.FunctionInst? {
      var k: nat :| OnlyAt(FunctionNames(st.generatedFunctions), k, InstanceName(j))
        && st.generatedFunctions[k] == FunctionOf(tpl, j);
      FunctionDefinition(tpl, st, st.generatedFunctions[k], j);
    } else {
      var k: nat :| OnlyAt(TypeNames(st.generatedTypes), k, InstanceName(j))
        && st.generatedTypes[k] == TypeDefOf(tpl, j);
      TypeDefinition(tpl, st, st.generatedTypes[k], j);
    }
  }
}
