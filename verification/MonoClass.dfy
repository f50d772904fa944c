/** The monomorphiser as it runs: one object whose books are updated in place.

    Every method is proved to return what the function of the same name in Mono.dfy returns, and
    to leave the books as that function says. After an error the run is over, so nothing is said
    of the books. */
module MonoClass {
  import opened Ast
  import opened Wrappers
  import opened Names
  import Mono
  import opened MonoTypes = Mono

  /** A method's result and final books against the outcome specified for it. */
  ghost predicate Matches<T>(spec: Outcome<T>, r: Result<T>, books: State) {
    match spec
    case Done(value, st) => r == Ok(value) && books == st
    case Fail(error) => r == Err(error)
  }

  /** An outcome for the rest of a list, after `done` elements have been rewritten. */
  ghost function After<T>(done: seq<T>, rest: Outcome<seq<T>>): Outcome<seq<T>> {
    match rest
    case Done(values, st) => Done(done + values, st)
    case Fail(error) => Fail(error)
  }

  lemma AfterNext<T>(done: seq<T>, first: T, rest: Outcome<seq<T>>)
    ensures After(done, After([first], rest)) == After(done + [first], rest)
  {
    if rest.Done? {
      assert done + ([first] + rest.value) == (done + [first]) + rest.value;
    }
  }

  lemma AfterNothing<T>(rest: Outcome<seq<T>>)
    ensures After([], rest) == rest
  {
    if rest.Done? {
      assert [] + rest.value == rest.value;
    }
  }

  /** One round of the loop over a list. */
  lemma RewriteTypesStep(tpl: Templates, st: State, subst: Substitution, ts: seq<Type>, i: nat, done: seq<Type>)
    requires i < |ts|
    ensures TypesSize(ts[i..]) == 1 + TypeSize(ts[i]) + TypesSize(ts[i + 1..])
    ensures
      var first := Mono.RewriteType(tpl, st, subst, ts[i]);
      var rest := Mono.RewriteTypes(tpl, st, subst, ts[i..]);
      match first
      case Fail(error) => After(done, rest) == Fail(error)
      case Done(value, st1) => After(done, rest) == After(done + [value], Mono.RewriteTypes(tpl, st1, subst, ts[i + 1..]))
  {
    hide Idle;
    assert ts[i..][0] == ts[i] && ts[i..][1..] == ts[i + 1..];
    var first := Mono.RewriteType(tpl, st, subst, ts[i]);
    if first.Done? {
      var rest := Mono.RewriteTypes(tpl, first.st, subst, ts[i + 1..]);
      assert Mono.RewriteTypes(tpl, st, subst, ts[i..]) == After([first.value], rest);
      AfterNext(done, first.value, rest);
    }
  }

  lemma RewriteTypesEnd(tpl: Templates, st: State, subst: Substitution, ts: seq<Type>, done: seq<Type>)
    requires ts == []
    ensures After(done, Mono.RewriteTypes(tpl, st, subst, ts)) == Done(done, st)
  {
    assert done + [] == done;
  }

  /** One round of the loop over a list. */
  lemma RewriteStmtsStep(tpl: Templates, st: State, subst: Substitution, ss: seq<Stmt>, i: nat, done: seq<Stmt>)
    requires i < |ss|
    ensures StmtsSize(ss[i..]) == 1 + StmtSize(ss[i]) + StmtsSize(ss[i + 1..])
    ensures
      var first := Mono.RewriteStmt(tpl, st, subst, ss[i]);
      var rest := Mono.RewriteStmts(tpl, st, subst, ss[i..]);
      match first
      case Fail(error) => After(done, rest) == Fail(error)
      case Done(value, st1) => After(done, rest) == After(done + [value], Mono.RewriteStmts(tpl, st1, subst, ss[i + 1..]))
  {
    hide Idle;
    assert ss[i..][0] == ss[i] && ss[i..][1..] == ss[i + 1..];
    var first := Mono.RewriteStmt(tpl, st, subst, ss[i]);
    if first.Done? {
      var rest := Mono.RewriteStmts(tpl, first.st, subst, ss[i + 1..]);
      assert Mono.RewriteStmts(tpl, st, subst, ss[i..]) == After([first.value], rest);
      AfterNext(done, first.value, rest);
    }
  }

  lemma RewriteStmtsEnd(tpl: Templates, st: State, subst: Substitution, ss: seq<Stmt>, done: seq<Stmt>)
    requires ss == []
    ensures After(done, Mono.RewriteStmts(tpl, st, subst, ss)) == Done(done, st)
  {
    assert done + [] == done;
  }

  /** One round of the loop over a list. */
  lemma RewriteBlocksStep(tpl: Templates, st: State, subst: Substitution, bs: seq<Block>, i: nat, done: seq<Block>)
    requires i < |bs|
    ensures BlocksSize(bs[i..]) == 1 + StmtsSize(bs[i].stmts) + BlocksSize(bs[i + 1..])
    ensures
      var first := Mono.RewriteStmts(tpl, st, subst, bs[i].stmts);
      var rest := Mono.RewriteBlocks(tpl, st, subst, bs[i..]);
      match first
      case Fail(error) => After(done, rest) == Fail(error)
      case Done(value, st1) => After(done, rest) == After(done + [Block(value)], Mono.RewriteBlocks(tpl, st1, subst, bs[i + 1..]))
  {
    hide Idle;
    assert bs[i..][0] == bs[i] && bs[i..][1..] == bs[i + 1..];
    var first := Mono.RewriteStmts(tpl, st, subst, bs[i].stmts);
    if first.Done? {
      var rest := Mono.RewriteBlocks(tpl, first.st, subst, bs[i + 1..]);
      assert Mono.RewriteBlocks(tpl, st, subst, bs[i..]) == After([Block(first.value)], rest);
      AfterNext(done, Block(first.value), rest);
    }
  }

  lemma RewriteBlocksEnd(tpl: Templates, st: State, subst: Substitution, bs: seq<Block>, done: seq<Block>)
    requires bs == []
    ensures After(done, Mono.RewriteBlocks(tpl, st, subst, bs)) == Done(done, st)
  {
    assert done + [] == done;
  }

  /** One round of the loop over a list. */
  lemma RewriteExprsStep(tpl: Templates, st: State, subst: Substitution, es: seq<Expr>, i: nat, done: seq<Expr>)
    requires i < |es|
    ensures ExprsSize(es[i..]) == 1 + ExprSize(es[i]) + ExprsSize(es[i + 1..])
    ensures
      var first := Mono.RewriteExpr(tpl, st, subst, es[i]);
      var rest := Mono.RewriteExprs(tpl, st, subst, es[i..]);
      match first
      case Fail(error) => After(done, rest) == Fail(error)
      case Done(value, st1) => After(done, rest) == After(done + [value], Mono.RewriteExprs(tpl, st1, subst, es[i + 1..]))
  {
    hide Idle;
    assert es[i..][0] == es[i] && es[i..][1..] == es[i + 1..];
    var first := Mono.RewriteExpr(tpl, st, subst, es[i]);
    if first.Done? {
      var rest := Mono.RewriteExprs(tpl, first.st, subst, es[i + 1..]);
      assert Mono.RewriteExprs(tpl, st, subst, es[i..]) == After([first.value], rest);
      AfterNext(done, first.value, rest);
    }
  }

  lemma RewriteExprsEnd(tpl: Templates, st: State, subst: Substitution, es: seq<Expr>, done: seq<Expr>)
    requires es == []
    ensures After(done, Mono.RewriteExprs(tpl, st, subst, es)) == Done(done, st)
  {
    assert done + [] == done;
  }

  lemma RewriteItemsStep(tpl: Templates, st: State, items: seq<Item>, i: nat, done: seq<Item>)
    requires i < |items|
    ensures
      var first := RewriteItem(tpl, st, items[i]);
      var rest := RewriteItems(tpl, st, items[i..]);
      match first
      case Fail(error) => After(done, rest) == Fail(error)
      case Done(value, st1) => After(done, rest) == After(done + value, RewriteItems(tpl, st1, items[i + 1..]))
  {
    hide Idle, RewriteItem;
    assert items[i..][0] == items[i] && items[i..][1..] == items[i + 1..];
    var first := RewriteItem(tpl, st, items[i]);
    if first.Done? {
      var rest := RewriteItems(tpl, first.st, items[i + 1..]);
      assert RewriteItems(tpl, st, items[i..]) == After(first.value, rest);
      if rest.Done? {
        assert done + (first.value + rest.value) == (done + first.value) + rest.value;
      }
    }
  }

  lemma RewriteItemsEnd(tpl: Templates, st: State, items: seq<Item>, done: seq<Item>)
    requires items == []
    ensures After(done, RewriteItems(tpl, st, items)) == Done(done, st)
  {
    assert done + [] == done;
  }

  class Monomorphizer {
    const functionTemplates: map<string, Function>
    const structTemplates: map<string, StructDef>
    const enumTemplates: map<string, EnumDef>
    var instantiatedFunctions: set<string>
    var instantiatedTypes: set<string>
    var activeFunctions: set<string>
    var activeTypes: set<string>
    var generatedFunctions: seq<Function>
    var generatedTypes: seq<Item>

    ghost function Tpl(): Templates {
      Templates(functionTemplates, structTemplates, enumTemplates)
    }

    ghost function Books(): State
      reads this
    {
      State(instantiatedFunctions, instantiatedTypes, activeFunctions, activeTypes,
            generatedFunctions, generatedTypes)
    }

    constructor (items: seq<Item>)
      ensures Tpl() == TemplatesOf(items) && Books() == Start
    {
      functionTemplates := FunctionTemplates(items);
      structTemplates := StructTemplates(items);
      enumTemplates := EnumTemplates(items);
      instantiatedFunctions, instantiatedTypes := {}, {};
      activeFunctions, activeTypes := {}, {};
      generatedFunctions, generatedTypes := [], [];
    }

    method CheckLimit() returns (r: Result<()>)
      ensures r == if WithinLimit(Books()) then Ok(()) else Err(TooManyInstances)
    {
      if |instantiatedFunctions| + |instantiatedTypes| > MaxInstances {
        return Err(TooManyInstances);
      }
      return Ok(());
    }

    method RewriteType(ty: Type, subst: Substitution) returns (r: Result<Type>)
      modifies this
      ensures Matches(Mono.RewriteType(Tpl(), old(Books()), subst, ty), r, Books())
      decreases Idle(Tpl(), Books()), TypeSize(ty), 1
    {
      hide Idle, Mono.InstantiateType, Mono.RewriteTypes;
      SizeOfParts(ty);
      if ty.Named? {
        return Ok(if ty.name in subst then subst[ty.name] else ty);
      } else if ty.Applied? {
        var args :- RewriteTypes(ty.args, subst);
        var concrete :- InstantiateType(ty.template, args);
        return Ok(Named(concrete));
      } else {
        var parts :- RewriteTypes(Parts(ty), subst);
        return Ok(WithParts(ty, parts));
      }
    }

    method RewriteTypes(ts: seq<Type>, subst: Substitution) returns (r: Result<seq<Type>>)
      modifies this
      ensures Matches(Mono.RewriteTypes(Tpl(), old(Books()), subst, ts), r, Books())
      decreases Idle(Tpl(), Books()), TypesSize(ts), 0
    {
      hide Idle, After, Mono.RewriteTypes, Mono.RewriteType, TypesSize;
      var done := [];
      ghost var spec := Mono.RewriteTypes(Tpl(), Books(), subst, ts);
      assert ts[0..] == ts;
      AfterNothing(spec);
      for i := 0 to |ts|
        invariant spec == After(done, Mono.RewriteTypes(Tpl(), Books(), subst, ts[i..]))
        invariant Idle(Tpl(), Books()) == old(Idle(Tpl(), Books())) && TypesSize(ts[i..]) <= TypesSize(ts)
      {
        RewriteTypesStep(Tpl(), Books(), subst, ts, i, done);
        var first :- RewriteType(ts[i], subst);
        done := done + [first];
      }
      RewriteTypesEnd(Tpl(), Books(), subst, ts[|ts|..], done);
      return Ok(done);
    }

    method InstantiateType(name: string, args: seq<Type>) returns (r: Result<string>)
      modifies this
      ensures Matches(Mono.InstantiateType(Tpl(), old(Books()), name, args), r, Books())
      decreases Idle(Tpl(), Books()), 0, 0
    {
      hide Idle, RewriteTypeDef, TypeDefSize;
      if name !in structTemplates && name !in enumTemplates {
        return Err(NotGenericType(name));
      }
      var params := if name in structTemplates then structTemplates[name].typeParams else enumTemplates[name].typeParams;
      if |params| != |args| {
        return Err(WrongArity(name, |params|, |args|));
      }
      var concrete := Mangle(name, args);
      if concrete in instantiatedTypes {
        return Ok(concrete);
      }
      instantiatedTypes := instantiatedTypes + {concrete};
      if name in activeTypes {
        return Err(ExpandsRecursively(name));
      }
      activeTypes := activeTypes + {name};
      var _ :- CheckLimit();
      TypeActivated(Tpl(), old(Books()), name, concrete);
      assert Books() == BeginType(old(Books()), name, concrete);
      var def :- GenerateType(name, concrete, Bind(params, args));
      generatedTypes := generatedTypes + [def];
      activeTypes := activeTypes - {name};
      return Ok(concrete);
    }

    method GenerateType(name: string, concrete: string, subst: Substitution) returns (r: Result<Item>)
      requires IsTypeTemplate(Tpl(), name)
      modifies this
      ensures Matches(RewriteTypeDef(Tpl(), old(Books()), subst, name, concrete), r, Books())
      decreases Idle(Tpl(), Books()), TypeDefSize(Tpl(), name), 1
    {
      if name in structTemplates {
        var def :- RewriteStruct(structTemplates[name], subst);
        return Ok(StructItem(def.(name := concrete, typeParams := [])));
      } else {
        var def :- RewriteEnum(enumTemplates[name], subst);
        return Ok(EnumItem(def.(name := concrete, typeParams := [])));
      }
    }

    method RewriteStruct(def: StructDef, subst: Substitution) returns (r: Result<StructDef>)
      modifies this
      ensures Matches(Mono.RewriteStruct(Tpl(), old(Books()), subst, def), r, Books())
      decreases Idle(Tpl(), Books()), 1 + TypesSize(ParamTypes(def.fields)), 0
    {
      var ts :- RewriteTypes(ParamTypes(def.fields), subst);
      return Ok(def.(fields := WithParamTypes(def.fields, ts)));
    }

    method RewriteEnum(def: EnumDef, subst: Substitution) returns (r: Result<EnumDef>)
      modifies this
      ensures Matches(Mono.RewriteEnum(Tpl(), old(Books()), subst, def), r, Books())
      decreases Idle(Tpl(), Books()), 1 + TypesSize(PayloadTypes(def.variants)), 0
    {
      var ts :- RewriteTypes(PayloadTypes(def.variants), subst);
      return Ok(def.(variants := WithPayloadTypes(def.variants, ts)));
    }

    method InstantiateFunction(name: string, args: seq<Type>) returns (r: Result<string>)
      modifies this
      ensures Matches(Mono.InstantiateFunction(Tpl(), old(Books()), name, args), r, Books())
      decreases Idle(Tpl(), Books()), 0, 0
    {
      hide Idle, Mono.RewriteFunction;
      if name !in functionTemplates {
        return Err(NotGenericFunction(name));
      }
      var template := functionTemplates[name];
      var params := template.proto.typeParams;
      if |params| != |args| {
        return Err(WrongArity(name, |params|, |args|));
      }
      var concrete := Mangle(name, args);
      if concrete in instantiatedFunctions {
        return Ok(concrete);
      }
      instantiatedFunctions := instantiatedFunctions + {concrete};
      if name in activeFunctions {
        return Err(ExpandsRecursively(name));
      }
      activeFunctions := activeFunctions + {name};
      var _ :- CheckLimit();
      FunctionActivated(Tpl(), old(Books()), name, concrete);
      assert Books() == BeginFunction(old(Books()), name, concrete);
      var def :- RewriteFunction(Renamed(template, concrete), Bind(params, args));
      generatedFunctions := generatedFunctions + [def];
      activeFunctions := activeFunctions - {name};
      return Ok(concrete);
    }

    method RewriteFunction(f: Function, subst: Substitution) returns (r: Result<Function>)
      modifies this
      ensures Matches(Mono.RewriteFunction(Tpl(), old(Books()), subst, f), r, Books())
      decreases Idle(Tpl(), Books()), 1 + TypesSize(SignatureTypes(f.proto)) + StmtsSize(f.body.stmts), 0
    {
      var ts :- RewriteTypes(SignatureTypes(f.proto), subst);
      var stmts :- RewriteStmts(f.body.stmts, subst);
      return Ok(Function(WithSignatureTypes(f.proto, ts), Block(stmts)));
    }

    method RewriteStmts(ss: seq<Stmt>, subst: Substitution) returns (r: Result<seq<Stmt>>)
      modifies this
      ensures Matches(Mono.RewriteStmts(Tpl(), old(Books()), subst, ss), r, Books())
      decreases Idle(Tpl(), Books()), StmtsSize(ss), 0
    {
      hide Idle, After, Mono.RewriteStmts, Mono.RewriteStmt, StmtsSize;
      var done := [];
      ghost var spec := Mono.RewriteStmts(Tpl(), Books(), subst, ss);
      assert ss[0..] == ss;
      AfterNothing(spec);
      for i := 0 to |ss|
        invariant spec == After(done, Mono.RewriteStmts(Tpl(), Books(), subst, ss[i..]))
        invariant Idle(Tpl(), Books()) == old(Idle(Tpl(), Books())) && StmtsSize(ss[i..]) <= StmtsSize(ss)
      {
        RewriteStmtsStep(Tpl(), Books(), subst, ss, i, done);
        var first :- RewriteStmt(ss[i], subst);
        done := done + [first];
      }
      RewriteStmtsEnd(Tpl(), Books(), subst, ss[|ss|..], done);
      return Ok(done);
    }

    method RewriteStmt(s: Stmt, subst: Substitution) returns (r: Result<Stmt>)
      modifies this
      ensures Matches(Mono.RewriteStmt(Tpl(), old(Books()), subst, s), r, Books())
      decreases Idle(Tpl(), Books()), StmtSize(s), 1
    {
      hide Idle, Mono.RewriteTypes, Mono.RewriteExprs, Mono.RewriteBlocks, RebuildStmt, StmtTypes, StmtExprs, StmtBlocks;
      SizeOfStmtParts(s);
      hide StmtSize;
      var types :- RewriteTypes(StmtTypes(s), subst);
      var exprs :- RewriteExprs(StmtExprs(s), subst);
      var blocks :- RewriteBlocks(StmtBlocks(s), subst);
      return Ok(RebuildStmt(s, types, exprs, blocks));
    }

    method RewriteBlocks(bs: seq<Block>, subst: Substitution) returns (r: Result<seq<Block>>)
      modifies this
      ensures Matches(Mono.RewriteBlocks(Tpl(), old(Books()), subst, bs), r, Books())
      decreases Idle(Tpl(), Books()), BlocksSize(bs), 0
    {
      hide Idle, After, Mono.RewriteBlocks, Mono.RewriteStmts, BlocksSize;
      var done := [];
      ghost var spec := Mono.RewriteBlocks(Tpl(), Books(), subst, bs);
      assert bs[0..] == bs;
      AfterNothing(spec);
      for i := 0 to |bs|
        invariant spec == After(done, Mono.RewriteBlocks(Tpl(), Books(), subst, bs[i..]))
        invariant Idle(Tpl(), Books()) == old(Idle(Tpl(), Books())) && BlocksSize(bs[i..]) <= BlocksSize(bs)
      {
        RewriteBlocksStep(Tpl(), Books(), subst, bs, i, done);
        var first :- RewriteStmts(bs[i].stmts, subst);
        done := done + [Block(first)];
      }
      RewriteBlocksEnd(Tpl(), Books(), subst, bs[|bs|..], done);
      return Ok(done);
    }

    method RewriteExprs(es: seq<Expr>, subst: Substitution) returns (r: Result<seq<Expr>>)
      modifies this
      ensures Matches(Mono.RewriteExprs(Tpl(), old(Books()), subst, es), r, Books())
      decreases Idle(Tpl(), Books()), ExprsSize(es), 0
    {
      hide Idle, After, Mono.RewriteExprs, Mono.RewriteExpr, ExprsSize;
      var done := [];
      ghost var spec := Mono.RewriteExprs(Tpl(), Books(), subst, es);
      assert es[0..] == es;
      AfterNothing(spec);
      for i := 0 to |es|
        invariant spec == After(done, Mono.RewriteExprs(Tpl(), Books(), subst, es[i..]))
        invariant Idle(Tpl(), Books()) == old(Idle(Tpl(), Books())) && ExprsSize(es[i..]) <= ExprsSize(es)
      {
        RewriteExprsStep(Tpl(), Books(), subst, es, i, done);
        var first :- RewriteExpr(es[i], subst);
        done := done + [first];
      }
      RewriteExprsEnd(Tpl(), Books(), subst, es[|es|..], done);
      return Ok(done);
    }

    method RewriteExpr(e: Expr, subst: Substitution) returns (r: Result<Expr>)
      modifies this
      ensures Matches(Mono.RewriteExpr(Tpl(), old(Books()), subst, e), r, Books())
      decreases Idle(Tpl(), Books()), ExprSize(e), 1
    {
      hide Idle, Mono.RewriteCall, Mono.RewriteMethodCall, Mono.RewriteStructInit, Mono.RewriteExprs, Mono.RewriteTypes;
      SizeOfOperands(e);
      var operands :- RewriteExprs(Operands(e), subst);
      var types :- RewriteTypes(TypesIn(e), subst);
      if e.Call? {
        r := RewriteCall(e.callee, types, operands);
      } else if e.MethodCall? {
        r := RewriteMethodCall(e.receiver, e.methodName, types, operands, subst);
      } else if e.StructInit? {
        r := RewriteStructInit(e.struct, types, WithFieldValues(e.fields, operands));
      } else {
        r := Ok(Rebuild(e, operands, types));
      }
    }

    method RewriteCall(callee: string, types: seq<Type>, args: seq<Expr>) returns (r: Result<Expr>)
      modifies this
      ensures Matches(Mono.RewriteCall(Tpl(), old(Books()), callee, types, args), r, Books())
      decreases Idle(Tpl(), Books()), 0, 1
    {
      if callee == "sizeof" || callee == "alignof" {
        if |types| != 1 || |args| != 0 {
          return Err(MalformedSizeof(callee));
        }
        return Ok(Call(callee, types, args));
      } else if callee in functionTemplates {
        if |types| == 0 {
          return Err(NeedsTypeArguments(callee));
        }
        var concrete :- InstantiateFunction(callee, types);
        return Ok(Call(concrete, [], args));
      } else if |types| != 0 {
        return Err(NotGeneric(callee));
      }
      return Ok(Call(callee, [], args));
    }

    method RewriteMethodCall(receiver: Expr, name: string, types: seq<Type>, args: seq<Expr>, subst: Substitution)
      returns (r: Result<Expr>)
      modifies this
      ensures Matches(Mono.RewriteMethodCall(Tpl(), old(Books()), subst, receiver, name, types, args), r, Books())
      decreases Idle(Tpl(), Books()), 1 + ExprSize(receiver), 0
    {
      hide Idle, Mono.RewriteExpr, Mono.InstantiateType, Mono.InstantiateFunction;
      if receiver.Var? && receiver.name in enumTemplates {
        if |types| == 0 {
          return Err(NeedsTypeArguments(receiver.name));
        }
        var concrete :- InstantiateType(receiver.name, types);
        return Ok(MethodCall(Var(concrete), name, [], args));
      } else if name in functionTemplates {
        if receiver.Var? && |types| == 0 {
          return Err(NeedsTypeArguments(name));
        }
        var concrete :- InstantiateFunction(name, types);
        var receiver' :- RewriteExpr(receiver, subst);
        return Ok(MethodCall(receiver', concrete, [], args));
      } else if |types| != 0 {
        return Err(NotGeneric(name));
      }
      var receiver' :- RewriteExpr(receiver, subst);
      return Ok(MethodCall(receiver', name, [], args));
    }

    method RewriteStructInit(name: string, types: seq<Type>, fields: seq<FieldInit>) returns (r: Result<Expr>)
      modifies this
      ensures Matches(Mono.RewriteStructInit(Tpl(), old(Books()), name, types, fields), r, Books())
      decreases Idle(Tpl(), Books()), 0, 1
    {
      if name in structTemplates {
        if |types| == 0 {
          return Err(NeedsTypeArguments(name));
        }
        var concrete :- InstantiateType(name, types);
        return Ok(StructInit(concrete, [], fields));
      } else if |types| != 0 {
        return Err(NotGeneric(name));
      }
      return Ok(StructInit(name, [], fields));
    }

    method RewriteItem(item: Item) returns (r: Result<seq<Item>>)
      modifies this
      ensures Matches(Mono.RewriteItem(Tpl(), old(Books()), item), r, Books())
    {
      hide Idle, Mono.RewriteFunction, Mono.RewriteStruct, Mono.RewriteEnum, Mono.RewriteType, Mono.RewriteExprs;
      match item
      case FunctionItem(f) =>
        if f.proto.typeParams != [] {
          return Ok([]);
        }
        var f' :- RewriteFunction(f, map[]);
        return Ok([FunctionItem(f')]);
      case StructItem(def) =>
        if def.typeParams != [] {
          return Ok([]);
        }
        var def' :- RewriteStruct(def, map[]);
        return Ok([StructItem(def')]);
      case EnumItem(def) =>
        if def.typeParams != [] {
          return Ok([]);
        }
        var def' :- RewriteEnum(def, map[]);
        return Ok([EnumItem(def')]);
      case ExternItem(proto) =>
        if proto.typeParams != [] {
          return Err(GenericExtern(proto.name));
        }
        return Ok([item]);
      case StaticItem(global) =>
        var ty :- RewriteType(global.ty, map[]);
        var init :- RewriteExprs(OptionList(global.init), map[]);
        return Ok([StaticItem(global.(ty := ty, init := if init == [] then None else Some(init[0])))]);
      case ImportItem(_) => return Ok([item]);
    }
  }

  /** The first name defined twice. */
  method FindDuplicate(items: seq<Item>) returns (name: Option<string>)
    ensures name == DuplicateIn(items, {}, {})
  {
    var functions, types := {}, {};
    for i := 0 to |items|
      invariant DuplicateIn(items, {}, {}) == DuplicateIn(items[i..], functions, types)
    {
      assert items[i..][0] == items[i] && items[i..][1..] == items[i + 1..];
      match items[i]
      case FunctionItem(f) =>
        if f.proto.name in functions {
          return Some(f.proto.name);
        }
        functions := functions + {f.proto.name};
      case StructItem(def) =>
        if def.name in types {
          return Some(def.name);
        }
        types := types + {def.name};
      case EnumItem(def) =>
        if def.name in types {
          return Some(def.name);
        }
        types := types + {def.name};
      case _ =>
    }
    return None;
  }

  method RunMonomorphizer(items: seq<Item>) returns (r: Result<seq<Item>>)
    ensures r == Monomorphize(items)
  {
    var duplicate := FindDuplicate(items);
    if duplicate.Some? {
      return Err(DuplicateDefinition(duplicate.value));
    }
    var repeated := RepeatedTypeParam(items);
    if repeated.Some? {
      return Err(repeated.value);
    }
    var mono := new Monomorphizer(items);
    var output := [];
    ghost var tpl := TemplatesOf(items);
    ghost var spec := RewriteItems(tpl, Start, items);
    assert items[0..] == items;
    AfterNothing(spec);
    hide After, RewriteItems, RewriteItem, Idle;
    for i := 0 to |items|
      invariant mono.Tpl() == tpl && fresh(mono)
      invariant spec == After(output, RewriteItems(tpl, mono.Books(), items[i..]))
    {
      RewriteItemsStep(tpl, mono.Books(), items, i, output);
      var rewritten :- mono.RewriteItem(items[i]);
      output := output + rewritten;
    }
    RewriteItemsEnd(tpl, mono.Books(), items[|items|..], output);
    return Ok(mono.generatedTypes + output + FunctionItems(mono.generatedFunctions));
  }
}
