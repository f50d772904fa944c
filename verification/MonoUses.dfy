/** The instances that a piece of program refers to, in the order in which the rewriting comes across
    them. */
module MonoUses {
  import opened Ast
  import opened Mono
  import opened MonoFlat
  import opened MonoClosed

  type Uses = seq<Instance>

  function TypeUses(subst: Substitution, t: Type): Uses
    decreases TypeSize(t), 1
  {
    SizeOfParts(t);
    TypesUses(subst, Parts(t)) + if t.Applied? then [TypeInst(t.template, FlatTypes(subst, t.args))] else []
  }

  function TypesUses(subst: Substitution, ts: seq<Type>): Uses
    decreases TypesSize(ts), 0
  {
    if ts == [] then [] else TypeUses(subst, ts[0]) + TypesUses(subst, ts[1..])
  }

  /** The instance that a node itself refers to. */
  function HeadUses(tpl: Templates, e: Expr, types: seq<Type>): Uses {
    match e
    case Call(callee, _, _) =>
      if !IsSizeof(callee) && callee in tpl.functions then [FunctionInst(callee, types)] else []
    case MethodCall(receiver, name, _, _) =>
      if ConstructsInstance(tpl, receiver) then [TypeInst(receiver.name, types)]
      else if name in tpl.functions then [FunctionInst(name, types)] else []
    case StructInit(name, _, _) => if name in tpl.structs then [TypeInst(name, types)] else []
    case _ => []
  }

  /** A receiver is rewritten after the call itself. */
  function NodeUses(tpl: Templates, subst: Substitution, e: Expr): Uses
    decreases ExprSize(e), 0
  {
    SizeOfOperands(e);
    HeadUses(tpl, e, FlatTypes(subst, TypesIn(e))) +
    if e.MethodCall? && !ConstructsInstance(tpl, e.receiver) then ExprUses(tpl, subst, e.receiver) else []
  }

  function ExprUses(tpl: Templates, subst: Substitution, e: Expr): Uses
    decreases ExprSize(e), 1
  {
    SizeOfOperands(e);
    (ExprsUses(tpl, subst, Operands(e)) + TypesUses(subst, TypesIn(e))) + NodeUses(tpl, subst, e)
  }

  function ExprsUses(tpl: Templates, subst: Substitution, es: seq<Expr>): Uses
    decreases ExprsSize(es), 0
  {
    if es == [] then [] else ExprUses(tpl, subst, es[0]) + ExprsUses(tpl, subst, es[1..])
  }

  function StmtUses(tpl: Templates, subst: Substitution, s: Stmt): Uses
    decreases StmtSize(s), 1
  {
    SizeOfStmtParts(s);
    TypesUses(subst, StmtTypes(s)) + (ExprsUses(tpl, subst, StmtExprs(s)) + BlocksUses(tpl, subst, StmtBlocks(s)))
  }

  function StmtsUses(tpl: Templates, subst: Substitution, ss: seq<Stmt>): Uses
    decreases StmtsSize(ss), 0
  {
    if ss == [] then [] else StmtUses(tpl, subst, ss[0]) + StmtsUses(tpl, subst, ss[1..])
  }

  function BlocksUses(tpl: Templates, subst: Substitution, bs: seq<Block>): Uses
    decreases BlocksSize(bs), 0
  {
    if bs == [] then [] else StmtsUses(tpl, subst, bs[0].stmts) + BlocksUses(tpl, subst, bs[1..])
  }

  function FunctionUses(tpl: Templates, subst: Substitution, f: Function): Uses {
    TypesUses(subst, SignatureTypes(f.proto)) + StmtsUses(tpl, subst, f.body.stmts)
  }

  /** What the definition of an instance refers to. */
  function DefinitionUses(tpl: Templates, i: Instance): Uses
    requires Good(tpl, i)
  {
    if i.FunctionInst? then FunctionUses(tpl, ArgsOf(tpl, i), tpl.functions[i.template])
    else TypesUses(ArgsOf(tpl, i), FieldTypes(tpl, i.template))
  }

  function FieldTypes(tpl: Templates, name: string): seq<Type>
    requires IsTypeTemplate(tpl, name)
  {
    if name in tpl.structs then ParamTypes(tpl.structs[name].fields) else PayloadTypes(tpl.enums[name].variants)
  }

  function ItemUses(tpl: Templates, item: Item): Uses {
    if IsTemplate(item) then []
    else match item
      case FunctionItem(f) => FunctionUses(tpl, map[], f)
      case StructItem(def) => TypesUses(map[], ParamTypes(def.fields))
      case EnumItem(def) => TypesUses(map[], PayloadTypes(def.variants))
      case StaticItem(global) => TypeUses(map[], global.ty) + ExprsUses(tpl, map[], OptionList(global.init))
      case _ => []
  }

  function ItemsUses(tpl: Templates, items: seq<Item>): Uses {
    if items == [] then [] else ItemUses(tpl, items[0]) + ItemsUses(tpl, items[1..])
  }

  // ---------------------------------------------------------------------------
  // Without the order, these are the instances demanded
  // ---------------------------------------------------------------------------

  ghost predicate Lists(us: Uses, insts: set<Instance>) {
    forall i :: i in us <==> i in insts
  }

  lemma {:induction false} TypeUsesListed(subst: Substitution, t: Type)
    ensures Lists(TypeUses(subst, t), TypeInsts(subst, t))
    decreases TypeSize(t), 1
  {
    SizeOfParts(t);
    TypesUsesListed(subst, Parts(t));
  }

  lemma {:induction false} TypesUsesListed(subst: Substitution, ts: seq<Type>)
    ensures Lists(TypesUses(subst, ts), TypesInsts(subst, ts))
    decreases TypesSize(ts), 0
  {
    if ts != [] {
      TypeUsesListed(subst, ts[0]);
      TypesUsesListed(subst, ts[1..]);
    }
  }

  lemma {:induction false} ExprUsesListed(tpl: Templates, subst: Substitution, e: Expr)
    ensures Lists(ExprUses(tpl, subst, e), ExprInsts(tpl, subst, e))
    decreases ExprSize(e), 1
  {
    SizeOfOperands(e);
    ExprsUsesListed(tpl, subst, Operands(e));
    TypesUsesListed(subst, TypesIn(e));
    NodeUsesListed(tpl, subst, e);
    hide NodeUses, NodeInsts, ExprsUses, ExprsInsts, TypesUses, TypesInsts;
  }

  lemma {:induction false} NodeUsesListed(tpl: Templates, subst: Substitution, e: Expr)
    ensures Lists(NodeUses(tpl, subst, e), NodeInsts(tpl, subst, e))
    decreases ExprSize(e), 0
  {
    SizeOfOperands(e);
    hide FlatTypes;
    if e.MethodCall? && !ConstructsInstance(tpl, e.receiver) {
      ExprUsesListed(tpl, subst, e.receiver);
    }
    hide ExprUses, ExprInsts;
  }

  lemma {:induction false} ExprsUsesListed(tpl: Templates, subst: Substitution, es: seq<Expr>)
    ensures Lists(ExprsUses(tpl, subst, es), ExprsInsts(tpl, subst, es))
    decreases ExprsSize(es), 0
  {
    if es != [] {
      ExprUsesListed(tpl, subst, es[0]);
      ExprsUsesListed(tpl, subst, es[1..]);
    }
  }

  lemma {:induction false} StmtUsesListed(tpl: Templates, subst: Substitution, s: Stmt)
    ensures Lists(StmtUses(tpl, subst, s), StmtInsts(tpl, subst, s))
    decreases StmtSize(s), 1
  {
    SizeOfStmtParts(s);
    TypesUsesListed(subst, StmtTypes(s));
    ExprsUsesListed(tpl, subst, StmtExprs(s));
    BlocksUsesListed(tpl, subst, StmtBlocks(s));
    hide BlocksUses, BlocksInsts, ExprsUses, ExprsInsts, TypesUses, TypesInsts, StmtTypes, StmtExprs, StmtBlocks;
  }

  lemma {:induction false} StmtsUsesListed(tpl: Templates, subst: Substitution, ss: seq<Stmt>)
    ensures Lists(StmtsUses(tpl, subst, ss), StmtsInsts(tpl, subst, ss))
    decreases StmtsSize(ss), 0
  {
    if ss != [] {
      StmtUsesListed(tpl, subst, ss[0]);
      StmtsUsesListed(tpl, subst, ss[1..]);
    }
  }

  lemma {:induction false} BlocksUsesListed(tpl: Templates, subst: Substitution, bs: seq<Block>)
    ensures Lists(BlocksUses(tpl, subst, bs), BlocksInsts(tpl, subst, bs))
    decreases BlocksSize(bs), 0
  {
    if bs != [] {
      StmtsUsesListed(tpl, subst, bs[0].stmts);
      BlocksUsesListed(tpl, subst, bs[1..]);
    }
  }

  lemma FunctionUsesListed(tpl: Templates, subst: Substitution, f: Function)
    ensures Lists(FunctionUses(tpl, subst, f), FunctionInsts(tpl, subst, f))
  {
    TypesUsesListed(subst, SignatureTypes(f.proto));
    StmtsUsesListed(tpl, subst, f.body.stmts);
  }

  lemma DefinitionUsesListed(tpl: Templates, i: Instance)
    requires Good(tpl, i)
    ensures Lists(DefinitionUses(tpl, i), DefinitionInsts(tpl, i))
  {
    if i.FunctionInst? {
      FunctionUsesListed(tpl, ArgsOf(tpl, i), tpl.functions[i.template]);
    } else {
      TypesUsesListed(ArgsOf(tpl, i), FieldTypes(tpl, i.template));
    }
  }

  lemma {:induction false} ItemsUsesListed(tpl: Templates, items: seq<Item>)
    ensures Lists(ItemsUses(tpl, items), ItemsInsts(tpl, items))
    decreases |items|
  {
    if items != [] {
      ItemUsesListed(tpl, items[0]);
      ItemsUsesListed(tpl, items[1..]);
      hide ItemUses, ItemInsts;
    }
  }

  lemma ItemUsesListed(tpl: Templates, item: Item)
    ensures Lists(ItemUses(tpl, item), ItemInsts(tpl, item))
  {
    if !IsTemplate(item) {
      match item
      case FunctionItem(f) => FunctionUsesListed(tpl, map[], f);
      case StructItem(def) => TypesUsesListed(map[], ParamTypes(def.fields));
      case EnumItem(def) => TypesUsesListed(map[], PayloadTypes(def.variants));
      case StaticItem(global) =>
        TypeUsesListed(map[], global.ty);
        ExprsUsesListed(tpl, map[], OptionList(global.init));
      case _ =>
    }
    hide TypeUses, TypesUses, ExprsUses, FunctionUses, TypeInsts, TypesInsts, ExprsInsts, FunctionInsts;
  }
}
