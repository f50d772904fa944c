/** Monomorphisation preserves what names and types mean.

    In a tidy program, a plain function or type is found in the output under its own name,
    flattened, and an instance under its mangled name; and a type of the source unfolds, to
    every depth, to the same shape as the flat type does in the output. */
module MonoShapes {
  import opened Ast
  import opened Wrappers
  import opened Names
  import opened Mono
  import opened MonoFlat
  import opened MonoSound
  import opened MonoClosed
  import opened Meaning

  predicate Compiled(items: seq<Item>) {
    Monomorphize(items).Ok? && Tidy(items)
  }

  function Output(items: seq<Item>): seq<Item>
    requires Compiled(items)
  {
    Monomorphize(items).value
  }

  /** The instances are among those the run has defined. */
  ghost predicate Covers(items: seq<Item>, insts: set<Instance>)
    requires Compiled(items)
  {
    Demanded(true, TemplatesOf(items), FinalState(items), insts)
  }

  // ---------------------------------------------------------------------------
  // Looking up in concatenations and generated lists
  // ---------------------------------------------------------------------------

  lemma {:induction false} FindFunctionAppend(a: seq<Item>, b: seq<Item>, name: string)
    ensures FindFunction(a + b, name) ==
            if FindFunction(a, name).Some? then FindFunction(a, name) else FindFunction(b, name)
  {
    if a == [] {
      assert a + b == b;
    } else {
      assert (a + b)[1..] == a[1..] + b;
      FindFunctionAppend(a[1..], b, name);
    }
  }

  lemma {:induction false} FindTypeAppend(a: seq<Item>, b: seq<Item>, name: string)
    ensures FindType(a + b, name) == if FindType(a, name).Some? then FindType(a, name) else FindType(b, name)
  {
    if a == [] {
      assert a + b == b;
    } else {
      assert (a + b)[1..] == a[1..] + b;
      FindTypeAppend(a[1..], b, name);
    }
  }

  lemma {:induction false} NoFunctionNamed(items: seq<Item>, name: string)
    requires forall item | item in items :: !(item.FunctionItem? && item.fn.proto.name == name)
    ensures FindFunction(items, name) == None
  {
    if items != [] {
      NoFunctionNamed(items[1..], name);
    }
  }

  lemma {:induction false} NoTypeNamed(items: seq<Item>, name: string)
    requires forall item | item in items :: !DefinesTypeNamed(item, name)
    ensures FindType(items, name) == None
  {
    if items != [] {
      NoTypeNamed(items[1..], name);
    }
  }

  lemma {:induction false} FindGeneratedFunction(fs: seq<Function>, k: nat, name: string)
    requires OnlyAt(FunctionNames(fs), k, name)
    ensures FindFunction(FunctionItems(fs), name) == Some(fs[k])
  {
    assert FunctionNames(fs)[0] == fs[0].proto.name;
    if k > 0 {
      assert FunctionItems(fs)[1..] == FunctionItems(fs[1..]);
      assert FunctionNames(fs[1..]) == FunctionNames(fs)[1..];
      FindGeneratedFunction(fs[1..], k - 1, name);
    }
  }

  lemma {:induction false} FindGeneratedType(defs: seq<Item>, k: nat, name: string)
    requires OnlyAt(TypeNames(defs), k, name)
    requires forall def | def in defs :: def.StructItem? || def.EnumItem?
    ensures FindType(defs, name) == Some(defs[k])
  {
    assert TypeNames(defs)[0] == TypeItemName(defs[0]);
    assert DefinesTypeNamed(defs[0], name) <==> TypeItemName(defs[0]) == name;
    if k > 0 {
      assert TypeNames(defs[1..]) == TypeNames(defs)[1..];
      FindGeneratedType(defs[1..], k - 1, name);
    }
  }

  // ---------------------------------------------------------------------------
  // Looking up in the source
  // ---------------------------------------------------------------------------

  /** The first function of a name is the only one; it is in the template table iff it is generic. */
  lemma {:induction false} SourceFunction(items: seq<Item>, functions: set<string>, types: set<string>, name: string)
    requires DuplicateIn(items, functions, types).None?
    ensures name in functions ==> FindFunction(items, name) == None
    ensures
      var f := FindFunction(items, name);
      if f.Some? && f.value.proto.typeParams != []
      then name in FunctionTemplates(items) && FunctionTemplates(items)[name] == f.value
      else name !in FunctionTemplates(items)
  {
    if items != [] {
      match items[0]
      case FunctionItem(f) =>
        SourceFunction(items[1..], functions + {f.proto.name}, types, name);
      case StructItem(def) => SourceFunction(items[1..], functions, types + {def.name}, name);
      case EnumItem(def) => SourceFunction(items[1..], functions, types + {def.name}, name);
      case _ => SourceFunction(items[1..], functions, types, name);
    }
  }

  ghost predicate InTypeTemplates(items: seq<Item>, name: string, def: Item) {
    match def
    case StructItem(s) =>
      name in StructTemplates(items) && StructTemplates(items)[name] == s && name !in EnumTemplates(items)
    case EnumItem(e) =>
      name in EnumTemplates(items) && EnumTemplates(items)[name] == e && name !in StructTemplates(items)
    case _ => false
  }

  lemma {:induction false} SourceType(items: seq<Item>, functions: set<string>, types: set<string>, name: string)
    requires DuplicateIn(items, functions, types).None?
    ensures name in types ==> FindType(items, name) == None
    ensures
      var def := FindType(items, name);
      if def.Some? && IsTemplate(def.value) then InTypeTemplates(items, name, def.value)
      else name !in StructTemplates(items) && name !in EnumTemplates(items)
  {
    if items != [] {
      match items[0]
      case FunctionItem(f) => SourceType(items[1..], functions + {f.proto.name}, types, name);
      case StructItem(def) => SourceType(items[1..], functions, types + {def.name}, name);
      case EnumItem(def) => SourceType(items[1..], functions, types + {def.name}, name);
      case _ => SourceType(items[1..], functions, types, name);
    }
  }

  // ---------------------------------------------------------------------------
  // Looking up in the flattened items
  // ---------------------------------------------------------------------------

  function FlatFound(tpl: Templates, f: Option<Function>): Option<Function> {
    if f.Some? && f.value.proto.typeParams == [] then Some(FlatFunction(tpl, map[], f.value)) else None
  }

  function FlatTypeDef(def: Item): Item
    requires def.StructItem? || def.EnumItem?
  {
    if def.StructItem? then StructItem(FlatStruct(map[], def.structDef)) else EnumItem(FlatEnum(map[], def.enumDef))
  }

  lemma {:induction false} FlatFunctionFound(tpl: Templates, items: seq<Item>, functions: set<string>, types: set<string>, name: string)
    requires DuplicateIn(items, functions, types).None?
    ensures FindFunction(FlatItems(tpl, items), name) == FlatFound(tpl, FindFunction(items, name))
  {
    if items != [] {
      var rest := FlatItems(tpl, items[1..]);
      FindFunctionAppend(FlatItem(tpl, items[0]), rest, name);
      match items[0]
      case FunctionItem(f) =>
        SourceFunction(items[1..], functions + {f.proto.name}, types, name);
        FlatFunctionFound(tpl, items[1..], functions + {f.proto.name}, types, name);
        FindSingleFunction(FlatItem(tpl, items[0]), name);
      case StructItem(def) =>
        FlatFunctionFound(tpl, items[1..], functions, types + {def.name}, name);
        NoFunctionNamed(FlatItem(tpl, items[0]), name);
      case EnumItem(def) =>
        FlatFunctionFound(tpl, items[1..], functions, types + {def.name}, name);
        NoFunctionNamed(FlatItem(tpl, items[0]), name);
      case _ =>
        FlatFunctionFound(tpl, items[1..], functions, types, name);
        NoFunctionNamed(FlatItem(tpl, items[0]), name);
    }
  }

  lemma FindSingleFunction(items: seq<Item>, name: string)
    requires |items| <= 1
    ensures FindFunction(items, name) ==
      if |items| == 1 && items[0].FunctionItem? && items[0].fn.proto.name == name then Some(items[0].fn) else None
  {}

  lemma FindSingleType(items: seq<Item>, name: string)
    requires |items| <= 1
    ensures FindType(items, name) == if |items| == 1 && DefinesTypeNamed(items[0], name) then Some(items[0]) else None
  {}

  lemma {:induction false} FlatTypeFound(tpl: Templates, items: seq<Item>, functions: set<string>, types: set<string>, name: string)
    requires DuplicateIn(items, functions, types).None?
    ensures
      var def := FindType(items, name);
      FindType(FlatItems(tpl, items), name) ==
      if def.Some? && !IsTemplate(def.value) then Some(FlatTypeDef(def.value)) else None
  {
    if items != [] {
      var rest := FlatItems(tpl, items[1..]);
      FindTypeAppend(FlatItem(tpl, items[0]), rest, name);
      FindSingleType(FlatItem(tpl, items[0]), name);
      match items[0]
      case FunctionItem(f) => FlatTypeFound(tpl, items[1..], functions + {f.proto.name}, types, name);
      case StructItem(def) =>
        SourceType(items[1..], functions, types + {def.name}, name);
        FlatTypeFound(tpl, items[1..], functions, types + {def.name}, name);
      case EnumItem(def) =>
        SourceType(items[1..], functions, types + {def.name}, name);
        FlatTypeFound(tpl, items[1..], functions, types + {def.name}, name);
      case _ => FlatTypeFound(tpl, items[1..], functions, types, name);
    }
  }

  // ---------------------------------------------------------------------------
  // Looking up in the output
  // ---------------------------------------------------------------------------

  lemma {:induction false} FoundFunctionIsItem(items: seq<Item>, name: string)
    ensures
      var f := FindFunction(items, name);
      f.Some? ==> FunctionItem(f.value) in items && f.value.proto.name == name
  {
    if items != [] {
      FoundFunctionIsItem(items[1..], name);
    }
  }

  lemma {:induction false} FoundTypeIsItem(items: seq<Item>, name: string)
    ensures FindType(items, name).Some? ==> FindType(items, name).value in items
  {
    if items != [] {
      FoundTypeIsItem(items[1..], name);
    }
  }

  lemma {:induction false} ItemInstsIncluded(tpl: Templates, items: seq<Item>, item: Item)
    requires item in items
    ensures ItemInsts(tpl, item) <= ItemsInsts(tpl, items)
  {
    if items[0] != item {
      ItemInstsIncluded(tpl, items[1..], item);
    }
  }

  lemma {:induction false} FlatItemsUnreserved(tpl: Templates, items: seq<Item>)
    requires Tidy(items)
    ensures forall item | item in FlatItems(tpl, items) ::
      (item.FunctionItem? ==> !Reserved(item.fn.proto.name)) && !Reserved(TypeItemName(item))
  {
    if items != [] {
      assert TidyItem(items[0]);
      FlatItemsUnreserved(tpl, items[1..]);
    }
  }

  lemma GeneratedReserved(items: seq<Item>)
    requires Compiled(items)
    ensures forall f | f in FinalState(items).generatedFunctions :: Reserved(f.proto.name)
    ensures forall def | def in FinalState(items).generatedTypes ::
      (def.StructItem? || def.EnumItem?) && Reserved(TypeItemName(def))
  {
    RunSound(true, items);
    DefinedReserved(TemplatesOf(items), FinalState(items));
  }

  lemma DefinedReserved(tpl: Templates, st: State)
    requires Defines(true, tpl, st)
    ensures forall f | f in st.generatedFunctions :: Reserved(f.proto.name)
    ensures forall def | def in st.generatedTypes :: (def.StructItem? || def.EnumItem?) && Reserved(TypeItemName(def))
  {
    forall f | f in st.generatedFunctions
      ensures Reserved(f.proto.name)
    {
      var i :| DefinesFunction(true, tpl, st, f, i);
      MangleReserved(i.template, i.args);
    }
    forall def | def in st.generatedTypes
      ensures (def.StructItem? || def.EnumItem?) && Reserved(TypeItemName(def))
    {
      var i :| DefinesType(true, tpl, st, def, i);
      MangleReserved(i.template, i.args);
    }
  }

  /** The output in its three parts, with no duplicate definition in the source. */
  lemma OutputParts(items: seq<Item>)
    requires Compiled(items)
    ensures DuplicateIn(items, {}, {}).None?
    ensures
      var st := FinalState(items);
      Output(items) == (st.generatedTypes + FlatItems(TemplatesOf(items), items)) + FunctionItems(st.generatedFunctions)
  {
    hide Inv, Sound, WellAppliedItem;
    RunSound(true, items);
  }

  /** Where a name of the output is looked for. */
  lemma OutputFunction(items: seq<Item>, name: string)
    requires Compiled(items)
    ensures FindFunction(Output(items), name) ==
      if Reserved(name) then FindFunction(FunctionItems(FinalState(items).generatedFunctions), name)
      else FlatFound(TemplatesOf(items), FindFunction(items, name))
  {
    var tpl, st := TemplatesOf(items), FinalState(items);
    var flat, generated := FlatItems(tpl, items), FunctionItems(st.generatedFunctions);
    OutputParts(items);
    GeneratedReserved(items);
    assert Tidy(items);
    hide Compiled, Monomorphize, Tidy, FinalState;
    FindFunctionAppend(st.generatedTypes + flat, generated, name);
    FindFunctionAppend(st.generatedTypes, flat, name);
    NoFunctionNamed(st.generatedTypes, name);
    FlatFunctionFound(tpl, items, {}, {}, name);
    FlatItemsUnreserved(tpl, items);
    if Reserved(name) {
      NoFunctionNamed(flat, name);
    } else {
      GeneratedNames(st.generatedFunctions, name);
    }
  }

  lemma GeneratedNames(fs: seq<Function>, name: string)
    requires !Reserved(name) && forall f | f in fs :: Reserved(f.proto.name)
    ensures FindFunction(FunctionItems(fs), name) == None
  {
    forall item | item in FunctionItems(fs)
      ensures !(item.FunctionItem? && item.fn.proto.name == name)
    {
      var k :| 0 <= k < |fs| && item == FunctionItem(fs[k]);
      assert fs[k] in fs;
    }
    NoFunctionNamed(FunctionItems(fs), name);
  }

  lemma OutputType(items: seq<Item>, name: string)
    requires Compiled(items)
    ensures FindType(Output(items), name) ==
      if Reserved(name) then FindType(FinalState(items).generatedTypes, name)
      else FindType(FlatItems(TemplatesOf(items), items), name)
  {
    var tpl, st := TemplatesOf(items), FinalState(items);
    var flat, generated := FlatItems(tpl, items), FunctionItems(st.generatedFunctions);
    OutputParts(items);
    GeneratedReserved(items);
    assert Tidy(items);
    hide Compiled, Monomorphize, Tidy, FinalState;
    FindTypeAppend(st.generatedTypes + flat, generated, name);
    FindTypeAppend(st.generatedTypes, flat, name);
    NoTypeNamed(generated, name);
    FlatItemsUnreserved(tpl, items);
    if Reserved(name) {
      NoTypeNamed(flat, name);
    } else {
      NoTypeNamed(st.generatedTypes, name);
    }
  }

  /** A plain function of the source, and what is known of it. */
  ghost predicate PlainFunction(items: seq<Item>, f: Function)
    requires Compiled(items)
  {
    var tpl := TemplatesOf(items);
    && f.proto.typeParams == []
    && TidyFunction(f)
    && WellAppliedStmts(tpl, f.body.stmts)
    && Covers(items, FunctionInsts(tpl, map[], f))
  }

  /** A name that is not an instance's: a plain function is found flattened, a template is gone. */
  lemma LookupFunction(items: seq<Item>, name: string)
    requires Compiled(items) && !Reserved(name)
    ensures
      var tpl, f := TemplatesOf(items), FindFunction(items, name);
      && FindFunction(Output(items), name) == FlatFound(tpl, f)
      && (if f.Some? && f.value.proto.typeParams != [] then name in tpl.functions && tpl.functions[name] == f.value
          else name !in tpl.functions)
      && (f.Some? && f.value.proto.typeParams == [] ==> PlainFunction(items, f.value))
  {
    var tpl, f := TemplatesOf(items), FindFunction(items, name);
    OutputFunction(items, name);
    SourceFunction(items, {}, {}, name);
    if f.Some? && f.value.proto.typeParams == [] {
      FoundFunctionIsItem(items, name);
      FoundPlainFunction(items, f.value);
    }
  }

  lemma FoundPlainFunction(items: seq<Item>, f: Function)
    requires Compiled(items) && FunctionItem(f) in items && f.proto.typeParams == []
    ensures PlainFunction(items, f)
  {
    hide Inv;
    RunSound(true, items);
    assert TidyItem(FunctionItem(f)) && WellAppliedItem(TemplatesOf(items), FunctionItem(f));
    ItemInstsIncluded(TemplatesOf(items), items, FunctionItem(f));
  }

  /** An instance is found under its mangled name. */
  lemma LookupFunctionInstance(items: seq<Item>, i: Instance)
    requires Compiled(items) && Covers(items, {i}) && i.FunctionInst?
    ensures
      var tpl := TemplatesOf(items);
      && Good(tpl, i) && ArgsOk(true, i.args)
      && FindFunction(items, i.template) == Some(tpl.functions[i.template])
      && tpl.functions[i.template].proto.typeParams != []
      && FindFunction(Output(items), InstanceName(i)) == Some(FunctionOf(tpl, i))
      && TidyFunction(tpl.functions[i.template])
      && WellAppliedStmts(tpl, tpl.functions[i.template].body.stmts)
      && Covers(items, DefinitionInsts(tpl, i))
  {
    var tpl, st := TemplatesOf(items), FinalState(items);
    assert i in {i};
    RunSound(true, items);
    TidyTemplates(items);
    FunctionIsDefined(tpl, st, i);
    var k: nat :| OnlyAt(FunctionNames(st.generatedFunctions), k, InstanceName(i))
                  && st.generatedFunctions[k] == FunctionOf(tpl, i);
    FunctionDefinition(tpl, st, st.generatedFunctions[k], i);
    FindGeneratedFunction(st.generatedFunctions, k, InstanceName(i));
    MangleReserved(i.template, i.args);
    OutputFunction(items, InstanceName(i));
    SourceFunction(items, {}, {}, i.template);
  }

  /** What is known of a plain type definition of the source. */
  ghost predicate PlainTypeDef(items: seq<Item>, def: Item)
    requires Compiled(items)
  {
    match def
    case StructItem(s) =>
      s.typeParams == [] && AllTidyTypes(ParamTypes(s.fields)) && Covers(items, TypesInsts(map[], ParamTypes(s.fields)))
    case EnumItem(e) =>
      && e.typeParams == []
      && AllTidyTypes(PayloadTypes(e.variants))
      && Covers(items, TypesInsts(map[], PayloadTypes(e.variants)))
      && (forall variant | variant in e.variants :: !Reserved(variant.name))
    case _ => false
  }

  lemma LookupType(items: seq<Item>, name: string)
    requires Compiled(items) && !Reserved(name)
    ensures
      var tpl, def := TemplatesOf(items), FindType(items, name);
      && FindType(Output(items), name) ==
         (if def.Some? && !IsTemplate(def.value) then Some(FlatTypeDef(def.value)) else None)
      && (if def.Some? && IsTemplate(def.value) then InTypeTemplates(items, name, def.value)
          else !IsTypeTemplate(tpl, name))
      && (def.Some? && !IsTemplate(def.value) ==> PlainTypeDef(items, def.value))
  {
    var tpl, def := TemplatesOf(items), FindType(items, name);
    OutputType(items, name);
    SourceType(items, {}, {}, name);
    FlatTypeFound(tpl, items, {}, {}, name);
    if def.Some? && !IsTemplate(def.value) {
      FoundTypeIsItem(items, name);
      FoundPlainType(items, def.value);
    }
  }

  lemma FoundPlainType(items: seq<Item>, def: Item)
    requires Compiled(items) && def in items && !IsTemplate(def) && (def.StructItem? || def.EnumItem?)
    ensures PlainTypeDef(items, def)
  {
    hide Inv;
    RunSound(true, items);
    assert TidyItem(def);
    ItemInstsIncluded(TemplatesOf(items), items, def);
  }

  lemma LookupTypeInstance(items: seq<Item>, i: Instance)
    requires Compiled(items) && Covers(items, {i}) && i.TypeInst?
    ensures
      var tpl := TemplatesOf(items);
      && Good(tpl, i) && ArgsOk(true, i.args)
      && FindType(items, i.template).Some? && IsTemplate(FindType(items, i.template).value)
      && InTypeTemplates(items, i.template, FindType(items, i.template).value)
      && FindType(Output(items), InstanceName(i)) == Some(TypeDefOf(tpl, i))
      && TemplatesOk(true, tpl)
      && Covers(items, DefinitionInsts(tpl, i))
  {
    var tpl, st := TemplatesOf(items), FinalState(items);
    assert i in {i};
    RunSound(true, items);
    TidyTemplates(items);
    TypeIsDefined(tpl, st, i);
    var k: nat :| OnlyAt(TypeNames(st.generatedTypes), k, InstanceName(i))
                  && st.generatedTypes[k] == TypeDefOf(tpl, i);
    TypeDefinition(tpl, st, st.generatedTypes[k], i);
    GeneratedReserved(items);
    FindGeneratedType(st.generatedTypes, k, InstanceName(i));
    MangleReserved(i.template, i.args);
    OutputType(items, InstanceName(i));
    SourceType(items, {}, {}, i.template);
  }

  // ---------------------------------------------------------------------------
  // Substitution and flattening
  // ---------------------------------------------------------------------------

  /** The flat counterparts of what type parameters stand for. */
  function FlatSubst(subst: Substitution): Substitution {
    map x | x in subst :: FlatType(map[], subst[x])
  }

  lemma {:induction false} SubstituteThenFlatten(subst: Substitution, t: Type)
    ensures FlatType(map[], Substitute(subst, t)) == FlatType(FlatSubst(subst), t)
    decreases TypeSize(t), 1
  {
    SizeOfParts(t);
    SubstituteThenFlattenAll(subst, Parts(t));
  }

  lemma {:induction false} SubstituteThenFlattenAll(subst: Substitution, ts: seq<Type>)
    ensures FlatTypes(map[], SubstituteAll(subst, ts)) == FlatTypes(FlatSubst(subst), ts)
    decreases TypesSize(ts), 0
  {
    if ts != [] {
      SubstituteThenFlatten(subst, ts[0]);
      SubstituteThenFlattenAll(subst, ts[1..]);
    }
  }

  lemma {:induction false} SubstituteNothing(t: Type)
    ensures Substitute(map[], t) == t
    decreases TypeSize(t), 1
  {
    SizeOfParts(t);
    SubstituteNothingAll(Parts(t));
  }

  lemma {:induction false} SubstituteNothingAll(ts: seq<Type>)
    ensures SubstituteAll(map[], ts) == ts
    decreases TypesSize(ts), 0
  {
    if ts != [] {
      SubstituteNothing(ts[0]);
      SubstituteNothingAll(ts[1..]);
    }
  }

  lemma {:induction false} BindThenFlatten(params: seq<string>, args: seq<Type>)
    requires |params| == |args|
    ensures FlatSubst(Bind(params, args)) == Bind(params, FlatTypes(map[], args))
  {
    if params != [] {
      BindThenFlatten(params[1..], args[1..]);
    }
  }

  /** Types written in a tidy program, all of whose instances are defined. */
  ghost predicate Closed(items: seq<Item>, ts: seq<Type>)
    requires Compiled(items)
  {
    AllTidyTypes(ts) && Covers(items, TypesInsts(map[], ts))
  }

  /** Type parameters stand for such types, and for no tuples. */
  ghost predicate ClosedSubst(items: seq<Item>, subst: Substitution)
    requires Compiled(items)
  {
    forall x | x in subst ::
      TidyType(subst[x]) && TupleFree(subst[x]) && Covers(items, TypeInsts(map[], subst[x]))
  }

  lemma {:induction false} BindClosed(items: seq<Item>, params: seq<string>, args: seq<Type>)
    requires Compiled(items) && |params| == |args| && Closed(items, args) && AllTupleFree(args)
    ensures ClosedSubst(items, Bind(params, args))
  {
    if params != [] {
      BindClosed(items, params[1..], args[1..]);
    }
  }

  lemma ClosedParts(items: seq<Item>, subst: Substitution, t: Type)
    requires Compiled(items) && TidyType(t) && Covers(items, TypeInsts(subst, t))
    ensures AllTidyTypes(Parts(t)) && Covers(items, TypesInsts(subst, Parts(t)))
    ensures t.Named? ==> !Reserved(t.name)
    ensures t.Applied? ==>
      !Reserved(t.template) && AllTupleFree(t.args) && Covers(items, {TypeInst(t.template, FlatTypes(subst, t.args))})
  {}

  lemma {:induction false} SubstituteClosed(items: seq<Item>, subst: Substitution, t: Type)
    requires Compiled(items) && ClosedSubst(items, subst)
    requires TidyType(t) && Covers(items, TypeInsts(FlatSubst(subst), t))
    ensures TidyType(Substitute(subst, t)) && Covers(items, TypeInsts(map[], Substitute(subst, t)))
    ensures TupleFree(t) ==> TupleFree(Substitute(subst, t))
    decreases TypeSize(t), 1
  {
    hide Compiled, Covers, ClosedSubst, TypeInsts, TidyType, TupleFree, AllTupleFree, FlatType, FlatTypes;
    SizeOfParts(t);
    if t.Named? {
      SubstituteName(items, subst, t);
    } else {
      ClosedParts(items, FlatSubst(subst), t);
      SubstituteClosedAll(items, subst, Parts(t));
      SubstituteThenFlattenAll(subst, Parts(t));
      SubstituteComposite(items, subst, t);
    }
  }

  lemma SubstituteName(items: seq<Item>, subst: Substitution, t: Type)
    requires Compiled(items) && ClosedSubst(items, subst)
    requires t.Named? && TidyType(t)
    ensures TidyType(Substitute(subst, t)) && Covers(items, TypeInsts(map[], Substitute(subst, t)))
    ensures TupleFree(Substitute(subst, t))
  {
    hide Compiled;
    assert TypeInsts(map[], t) == {};
  }

  lemma SubstituteComposite(items: seq<Item>, subst: Substitution, t: Type)
    requires Compiled(items) && !t.Named?
    requires Closed(items, SubstituteAll(subst, Parts(t)))
    requires AllTupleFree(Parts(t)) ==> AllTupleFree(SubstituteAll(subst, Parts(t)))
    requires FlatTypes(map[], SubstituteAll(subst, Parts(t))) == FlatTypes(FlatSubst(subst), Parts(t))
    requires t.Applied? ==>
      !Reserved(t.template) && AllTupleFree(t.args)
      && Covers(items, {TypeInst(t.template, FlatTypes(FlatSubst(subst), t.args))})
    ensures TidyType(Substitute(subst, t)) && Covers(items, TypeInsts(map[], Substitute(subst, t)))
    ensures TupleFree(t) ==> TupleFree(Substitute(subst, t))
  {
    hide Compiled, Covers;
    var parts := SubstituteAll(subst, Parts(t));
    var u := Substitute(subst, t);
    assert u == WithParts(t, parts) && Parts(u) == parts;
    assert u.Applied? == t.Applied? && u.Tuple? == t.Tuple? && !u.Named?;
    CompositeClosed(items, u);
  }

  lemma CompositeClosed(items: seq<Item>, t: Type)
    requires Compiled(items) && !t.Named? && Closed(items, Parts(t))
    requires t.Applied? ==> !Reserved(t.template) && AllTupleFree(t.args) && Covers(items, {TypeInst(t.template, FlatTypes(map[], t.args))})
    ensures TidyType(t) && Covers(items, TypeInsts(map[], t))
    ensures !t.Tuple? && AllTupleFree(Parts(t)) ==> TupleFree(t)
  {}

  lemma {:induction false} SubstituteClosedAll(items: seq<Item>, subst: Substitution, ts: seq<Type>)
    requires Compiled(items) && ClosedSubst(items, subst)
    requires AllTidyTypes(ts) && Covers(items, TypesInsts(FlatSubst(subst), ts))
    ensures Closed(items, SubstituteAll(subst, ts))
    ensures AllTupleFree(ts) ==> AllTupleFree(SubstituteAll(subst, ts))
    decreases TypesSize(ts), 0
  {
    if ts != [] {
      SubstituteClosed(items, subst, ts[0]);
      SubstituteClosedAll(items, subst, ts[1..]);
      ClosedCons(items, Substitute(subst, ts[0]), SubstituteAll(subst, ts[1..]));
      hide Covers, TypesInsts, TidyType, Substitute, TupleFree, ClosedSubst, Compiled, Closed;
    }
  }

  lemma ClosedCons(items: seq<Item>, t: Type, ts: seq<Type>)
    requires Compiled(items) && TidyType(t) && Covers(items, TypeInsts(map[], t)) && Closed(items, ts)
    ensures Closed(items, [t] + ts) && AllTupleFree([t] + ts) == (TupleFree(t) && AllTupleFree(ts))
  {
    hide Compiled, TidyType, TypeInsts;
    assert ([t] + ts)[1..] == ts;
  }

  // ---------------------------------------------------------------------------
  // Shapes
  // ---------------------------------------------------------------------------

  /** A closed type unfolds to the same shape before and after, to every depth. */
  lemma {:induction false} SameShape(items: seq<Item>, t: Type, depth: nat)
    requires Compiled(items) && TidyType(t) && Covers(items, TypeInsts(map[], t))
    ensures Unfold(items, t, depth) == Unfold(Output(items), FlatType(map[], t), depth)
    decreases depth, TypeSize(t), 1
  {
    hide Compiled, Covers, Closed, TidyType, AllTupleFree;
    SizeOfParts(t);
    ClosedParts(items, map[], t);
    if t.Named? {
      SamePlainName(items, t.name, depth);
    } else if t.Applied? {
      SameInstanceName(items, t.template, t.args, depth);
    } else {
      SameShapes(items, Parts(t), depth);
      SameComposite(items, t, depth);
    }
  }

  lemma SameComposite(items: seq<Item>, t: Type, depth: nat)
    requires Compiled(items) && !t.Named? && !t.Applied?
    requires UnfoldAll(items, Parts(t), depth) == UnfoldAll(Output(items), FlatTypes(map[], Parts(t)), depth)
    ensures Unfold(items, t, depth) == Unfold(Output(items), FlatType(map[], t), depth)
  {
    hide Compiled;
    SameKind(t, FlatTypes(map[], Parts(t)));
  }

  lemma SameKind(t: Type, parts: seq<Type>)
    requires |parts| == |Parts(t)|
    ensures Kind(WithParts(t, parts)) == Kind(t)
  {}

  lemma {:induction false} SameShapes(items: seq<Item>, ts: seq<Type>, depth: nat)
    requires Compiled(items) && Closed(items, ts)
    ensures UnfoldAll(items, ts, depth) == UnfoldAll(Output(items), FlatTypes(map[], ts), depth)
    decreases depth, TypesSize(ts), 0
  {
    if ts != [] {
      SameShape(items, ts[0], depth);
      SameShapes(items, ts[1..], depth);
    }
  }

  lemma FlatFieldNames(fields: seq<Param>, ts: seq<Type>)
    requires |ts| == |fields|
    ensures FieldNames(WithParamTypes(fields, ts)) == FieldNames(fields)
  {}

  lemma {:induction false} FlatVariantNames(variants: seq<EnumVariant>, ts: seq<Type>)
    requires |ts| == |PayloadTypes(variants)|
    ensures VariantNames(WithPayloadTypes(variants, ts)) == VariantNames(variants)
  {
    if variants != [] {
      var rest := if variants[0].payload.None? then ts else ts[1..];
      FlatVariantNames(variants[1..], rest);
      var flat := WithPayloadTypes(variants, ts);
      assert flat[1..] == WithPayloadTypes(variants[1..], rest);
      assert VariantNames(flat) == [VariantNames(flat)[0]] + VariantNames(flat[1..]);
      assert VariantNames(variants) == [VariantNames(variants)[0]] + VariantNames(variants[1..]);
    }
  }

  lemma {:induction false} SamePlainName(items: seq<Item>, name: string, depth: nat)
    requires Compiled(items) && !Reserved(name)
    ensures UnfoldName(items, name, [], depth) == UnfoldName(Output(items), name, [], depth)
    decreases depth, 0, 1
  {
    hide Compiled, Covers, FlatStruct, FlatEnum, InTypeTemplates, IsTypeTemplate;
    LookupType(items, name);
    var def := FindType(items, name);
    if depth > 0 && def.Some? && !IsTemplate(def.value) {
      match def.value
      case StructItem(s) => SamePlainStruct(items, s, name, depth);
      case EnumItem(e) => SamePlainEnum(items, e, name, depth);
    }
  }

  lemma {:induction false} SamePlainStruct(items: seq<Item>, s: StructDef, name: string, depth: nat)
    requires Compiled(items) && depth > 0
    requires FindType(items, name) == Some(StructItem(s)) && PlainTypeDef(items, StructItem(s))
    requires FindType(Output(items), name) == Some(StructItem(FlatStruct(map[], s)))
    ensures UnfoldName(items, name, [], depth) == UnfoldName(Output(items), name, [], depth)
    decreases depth, 0, 0
  {
    hide Compiled, Covers;
    var ts := ParamTypes(s.fields);
    var flat := FlatTypes(map[], ts);
    SubstituteNothingAll(ts);
    SubstituteNothingAll(flat);
    SameShapes(items, ts, depth - 1);
    FlatFieldNames(s.fields, flat);
    assert Bind([], []) == map[];
  }

  lemma {:induction false} SamePlainEnum(items: seq<Item>, e: EnumDef, name: string, depth: nat)
    requires Compiled(items) && depth > 0
    requires FindType(items, name) == Some(EnumItem(e)) && PlainTypeDef(items, EnumItem(e))
    requires FindType(Output(items), name) == Some(EnumItem(FlatEnum(map[], e)))
    ensures UnfoldName(items, name, [], depth) == UnfoldName(Output(items), name, [], depth)
    decreases depth, 0, 0
  {
    hide Compiled, Covers;
    var ts := PayloadTypes(e.variants);
    var flat := FlatTypes(map[], ts);
    SubstituteNothingAll(ts);
    SubstituteNothingAll(flat);
    SameShapes(items, ts, depth - 1);
    FlatVariantNames(e.variants, flat);
    PayloadsAfter(e.variants, flat);
    assert Bind([], []) == map[];
  }

  lemma {:induction false} SameInstanceName(items: seq<Item>, name: string, args: seq<Type>, depth: nat)
    requires Compiled(items) && Closed(items, args) && AllTupleFree(args)
    requires Covers(items, {TypeInst(name, FlatTypes(map[], args))})
    ensures UnfoldName(items, name, args, depth)
            == UnfoldName(Output(items), Mangle(name, FlatTypes(map[], args)), [], depth)
    decreases depth, 0, 1
  {
    LookupTypeInstance(items, TypeInst(name, FlatTypes(map[], args)));
    if depth > 0 {
      match FindType(items, name).value
      case StructItem(s) => SameInstanceStruct(items, s, name, args, depth);
      case EnumItem(e) => SameInstanceEnum(items, e, name, args, depth);
    }
  }

  lemma {:induction false} SameInstanceStruct(items: seq<Item>, s: StructDef, name: string, args: seq<Type>, depth: nat)
    requires Compiled(items) && Closed(items, args) && AllTupleFree(args) && depth > 0
    requires FindType(items, name) == Some(StructItem(s)) && |s.typeParams| == |args|
    requires AllTidyTypes(ParamTypes(s.fields))
    requires
      var subst, ts := Bind(s.typeParams, FlatTypes(map[], args)), ParamTypes(s.fields);
      && Covers(items, TypesInsts(subst, ts))
      && FindType(Output(items), Mangle(name, FlatTypes(map[], args)))
         == Some(StructItem(FlatStruct(subst, s).(name := Mangle(name, FlatTypes(map[], args)), typeParams := [])))
    ensures UnfoldName(items, name, args, depth)
            == UnfoldName(Output(items), Mangle(name, FlatTypes(map[], args)), [], depth)
    decreases depth, 0, 0
  {
    hide Compiled, Covers, Closed, AllTupleFree, AllTidyTypes, TypesInsts, Mangle, Output, FindType;
    var ts := ParamTypes(s.fields);
    var flat := FlatTypes(Bind(s.typeParams, FlatTypes(map[], args)), ts);
    SameParts(items, s.typeParams, args, ts, depth - 1);
    FlatFieldNames(s.fields, flat);
    assert Bind([], []) == map[];
  }

  lemma {:induction false} SameInstanceEnum(items: seq<Item>, e: EnumDef, name: string, args: seq<Type>, depth: nat)
    requires Compiled(items) && Closed(items, args) && AllTupleFree(args) && depth > 0
    requires FindType(items, name) == Some(EnumItem(e)) && |e.typeParams| == |args|
    requires AllTidyTypes(PayloadTypes(e.variants))
    requires
      var subst, ts := Bind(e.typeParams, FlatTypes(map[], args)), PayloadTypes(e.variants);
      && Covers(items, TypesInsts(subst, ts))
      && FindType(Output(items), Mangle(name, FlatTypes(map[], args)))
         == Some(EnumItem(FlatEnum(subst, e).(name := Mangle(name, FlatTypes(map[], args)), typeParams := [])))
    ensures UnfoldName(items, name, args, depth)
            == UnfoldName(Output(items), Mangle(name, FlatTypes(map[], args)), [], depth)
    decreases depth, 0, 0
  {
    hide Compiled, Covers, Closed, AllTupleFree, AllTidyTypes, TypesInsts, Mangle, Output, FindType;
    var ts := PayloadTypes(e.variants);
    var flat := FlatTypes(Bind(e.typeParams, FlatTypes(map[], args)), ts);
    SameParts(items, e.typeParams, args, ts, depth - 1);
    FlatVariantNames(e.variants, flat);
    PayloadsAfter(e.variants, flat);
    assert Bind([], []) == map[];
  }

  /** The component types of a template's definition, under its arguments. */
  lemma {:induction false} SameParts(items: seq<Item>, params: seq<string>, args: seq<Type>, ts: seq<Type>, depth: nat)
    requires Compiled(items) && Closed(items, args) && AllTupleFree(args) && |params| == |args|
    requires AllTidyTypes(ts) && Covers(items, TypesInsts(Bind(params, FlatTypes(map[], args)), ts))
    ensures
      var flat := FlatTypes(Bind(params, FlatTypes(map[], args)), ts);
      UnfoldAll(items, SubstituteAll(Bind(params, args), ts), depth)
      == UnfoldAll(Output(items), SubstituteAll(map[], flat), depth)
    decreases depth, TypesSize(SubstituteAll(Bind(params, args), ts)), 1
  {
    var subst := Bind(params, args);
    BindThenFlatten(params, args);
    BindClosed(items, params, args);
    SubstituteClosedAll(items, subst, ts);
    SubstituteThenFlattenAll(subst, ts);
    SameShapes(items, SubstituteAll(subst, ts), depth);
    SubstituteNothingAll(FlatTypes(FlatSubst(subst), ts));
  }

  lemma SameShapeUnder(items: seq<Item>, subst: Substitution, t: Type, depth: nat)
    requires Compiled(items) && ClosedSubst(items, subst)
    requires TidyType(t) && Covers(items, TypeInsts(FlatSubst(subst), t))
    ensures Unfold(items, Substitute(subst, t), depth)
            == Unfold(Output(items), Substitute(map[], FlatType(FlatSubst(subst), t)), depth)
  {
    SubstituteClosed(items, subst, t);
    SubstituteThenFlatten(subst, t);
    SameShape(items, Substitute(subst, t), depth);
    SubstituteNothing(FlatType(FlatSubst(subst), t));
  }

  /** Types in the scope of type parameters. */
  lemma SameShapesUnder(items: seq<Item>, subst: Substitution, ts: seq<Type>, depth: nat)
    requires Compiled(items) && ClosedSubst(items, subst)
    requires AllTidyTypes(ts) && Covers(items, TypesInsts(FlatSubst(subst), ts))
    ensures UnfoldAll(items, SubstituteAll(subst, ts), depth)
            == UnfoldAll(Output(items), SubstituteAll(map[], FlatTypes(FlatSubst(subst), ts)), depth)
  {
    SubstituteClosedAll(items, subst, ts);
    SubstituteThenFlattenAll(subst, ts);
    SameShapes(items, SubstituteAll(subst, ts), depth);
    SubstituteNothingAll(FlatTypes(FlatSubst(subst), ts));
  }
}
