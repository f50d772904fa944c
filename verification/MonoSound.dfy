/** A successful run returns the flat program, and keeps its books.

    `Inv` holds before and after every step: the instantiated names are the names defined so far
    together with one name in progress per active template, no name is defined twice, and a
    definition refers only to instantiated names. */
module MonoSound {
  import opened Ast
  import opened Names
  import opened Mono
  import opened MonoFlat

  // ---------------------------------------------------------------------------
  // The invariant
  // ---------------------------------------------------------------------------

  function FunctionNames(fs: seq<Function>): (names: seq<string>)
    ensures |names| == |fs|
  {
    seq(|fs|, i requires 0 <= i < |fs| => fs[i].proto.name)
  }

  function TypeItemName(item: Item): string {
    match item
    case StructItem(def) => def.name
    case EnumItem(def) => def.name
    case _ => ""
  }

  function TypeNames(items: seq<Item>): (names: seq<string>)
    ensures |names| == |items|
  {
    seq(|items|, i requires 0 <= i < |items| => TypeItemName(items[i]))
  }

  predicate Distinct(names: seq<string>) {
    forall i, j | 0 <= i < j < |names| :: names[i] != names[j]
  }

  /** The names of instances whose definition is still being rewritten. */
  function InProgress(instantiated: set<string>, defined: seq<string>): set<string> {
    set name | name in instantiated && name !in defined
  }

  ghost predicate InstanceOfActive(name: string, active: set<string>) {
    exists template, args :: template in active && name == Mangle(template, args)
  }

  /** The instantiated names are the defined ones, each defined once, and one in progress for
      each active template. */
  ghost predicate Ledger(instantiated: set<string>, active: set<string>, defined: seq<string>) {
    && Distinct(defined)
    && (forall name | name in defined :: name in instantiated)
    && |InProgress(instantiated, defined)| == |active|
    && (forall name | name in InProgress(instantiated, defined) :: InstanceOfActive(name, active))
  }

  ghost predicate Registered(st: State, i: Instance) {
    if i.FunctionInst? then InstanceName(i) in st.instantiatedFunctions
    else InstanceName(i) in st.instantiatedTypes
  }

  ghost predicate Demanded(tidy: bool, tpl: Templates, st: State, insts: set<Instance>) {
    forall i | i in insts :: Good(tpl, i) && ArgsOk(tidy, i.args) && Registered(st, i)
  }

  ghost predicate DefinesFunction(tidy: bool, tpl: Templates, st: State, f: Function, i: Instance) {
    && i.FunctionInst? && Good(tpl, i) && ArgsOk(tidy, i.args)
    && f == FunctionOf(tpl, i)
    && WellAppliedStmts(tpl, tpl.functions[i.template].body.stmts)
    && Demanded(tidy, tpl, st, DefinitionInsts(tpl, i))
  }

  ghost predicate DefinesType(tidy: bool, tpl: Templates, st: State, def: Item, i: Instance) {
    && i.TypeInst? && Good(tpl, i) && ArgsOk(tidy, i.args)
    && def == TypeDefOf(tpl, i)
    && Demanded(tidy, tpl, st, DefinitionInsts(tpl, i))
  }

  ghost predicate Defines(tidy: bool, tpl: Templates, st: State) {
    && (forall f | f in st.generatedFunctions :: exists i :: DefinesFunction(tidy, tpl, st, f, i))
    && (forall def | def in st.generatedTypes :: exists i :: DefinesType(tidy, tpl, st, def, i))
  }

  ghost predicate Inv(tidy: bool, tpl: Templates, st: State) {
    && Ledger(st.instantiatedFunctions, st.activeFunctions, FunctionNames(st.generatedFunctions))
    && Ledger(st.instantiatedTypes, st.activeTypes, TypeNames(st.generatedTypes))
    && Defines(tidy, tpl, st)
    && WithinLimit(st)
  }

  /** How a completed step changes the books: definitions and names are only added, and the
      instances in progress are those of before. */
  ghost predicate Step(st: State, st': State) {
    && SameActive(st, st')
    && st.instantiatedFunctions <= st'.instantiatedFunctions
    && st.instantiatedTypes <= st'.instantiatedTypes
    && st.generatedFunctions <= st'.generatedFunctions
    && st.generatedTypes <= st'.generatedTypes
    && InProgress(st'.instantiatedFunctions, FunctionNames(st'.generatedFunctions))
       == InProgress(st.instantiatedFunctions, FunctionNames(st.generatedFunctions))
    && InProgress(st'.instantiatedTypes, TypeNames(st'.generatedTypes))
       == InProgress(st.instantiatedTypes, TypeNames(st.generatedTypes))
  }

  lemma StepTransitive(a: State, b: State, c: State)
    requires Step(a, b) && Step(b, c)
    ensures Step(a, c)
  {}

  lemma StillDemanded(tidy: bool, tpl: Templates, st: State, st': State, insts: set<Instance>)
    requires Demanded(tidy, tpl, st, insts)
    requires st.instantiatedFunctions <= st'.instantiatedFunctions
    requires st.instantiatedTypes <= st'.instantiatedTypes
    ensures Demanded(tidy, tpl, st', insts)
  {}

  lemma StillDefines(tidy: bool, tpl: Templates, st: State, st': State)
    requires Defines(tidy, tpl, st)
    requires st.instantiatedFunctions <= st'.instantiatedFunctions
    requires st.instantiatedTypes <= st'.instantiatedTypes
    requires st'.generatedFunctions == st.generatedFunctions && st'.generatedTypes == st.generatedTypes
    ensures Defines(tidy, tpl, st')
  {
    forall f | f in st'.generatedFunctions
      ensures exists i :: DefinesFunction(tidy, tpl, st', f, i)
    {
      var i :| DefinesFunction(tidy, tpl, st, f, i);
      StillDemanded(tidy, tpl, st, st', DefinitionInsts(tpl, i));
      assert DefinesFunction(tidy, tpl, st', f, i);
    }
    forall def | def in st'.generatedTypes
      ensures exists i :: DefinesType(tidy, tpl, st', def, i)
    {
      var i :| DefinesType(tidy, tpl, st, def, i);
      StillDemanded(tidy, tpl, st, st', DefinitionInsts(tpl, i));
      assert DefinesType(tidy, tpl, st', def, i);
    }
  }

  lemma LedgerBegin(instantiated: set<string>, active: set<string>, defined: seq<string>, template: string, args: seq<Type>)
    requires Ledger(instantiated, active, defined)
    requires Mangle(template, args) !in instantiated && template !in active
    ensures Ledger(instantiated + {Mangle(template, args)}, active + {template}, defined)
    ensures InProgress(instantiated + {Mangle(template, args)}, defined)
            == InProgress(instantiated, defined) + {Mangle(template, args)}
  {
    var concrete := Mangle(template, args);
    var before := InProgress(instantiated, defined);
    assert InProgress(instantiated + {concrete}, defined) == before + {concrete};
    forall name | name in before + {concrete}
      ensures InstanceOfActive(name, active + {template})
    {
      if name in before {
        var n, a :| n in active && name == Mangle(n, a);
        assert n in active + {template};
      } else {
        assert template in active + {template};
      }
    }
  }

  /** Defining an instance in progress takes it out of progress. */
  lemma LedgerEnd(instantiated: set<string>, defined: seq<string>, name: string)
    requires Distinct(defined) && (forall n | n in defined :: n in instantiated)
    requires name in InProgress(instantiated, defined)
    ensures Distinct(defined + [name]) && (forall n | n in defined + [name] :: n in instantiated)
    ensures InProgress(instantiated, defined + [name]) == InProgress(instantiated, defined) - {name}
  {}

  // ---------------------------------------------------------------------------
  // Soundness of every rewriting function
  // ---------------------------------------------------------------------------

  predicate TemplatesOk(tidy: bool, tpl: Templates) {
    tidy ==>
      && (forall name | name in tpl.functions :: TidyFunction(tpl.functions[name]))
      && (forall name | name in tpl.structs :: AllTidyTypes(ParamTypes(tpl.structs[name].fields)))
      && (forall name | name in tpl.enums :: AllTidyTypes(PayloadTypes(tpl.enums[name].variants)))
  }

  predicate Context(tidy: bool, tpl: Templates, subst: Substitution) {
    TemplatesOk(tidy, tpl) && SubstOk(tidy, subst)
  }

  /** A step from `st` to `st'` that referred to `insts`. */
  ghost predicate Sound(tidy: bool, tpl: Templates, st: State, st': State, insts: set<Instance>) {
    Step(st, st') && Demanded(tidy, tpl, st', insts)
  }

  lemma SoundThen(tidy: bool, tpl: Templates, a: State, b: State, c: State, x: set<Instance>, y: set<Instance>)
    requires Sound(tidy, tpl, a, b, x) && Sound(tidy, tpl, b, c, y)
    ensures Sound(tidy, tpl, a, c, x + y)
  {
    StepTransitive(a, b, c);
    StillDemanded(tidy, tpl, b, c, x);
  }

  lemma SoundStay(tidy: bool, tpl: Templates, st: State)
    ensures Sound(tidy, tpl, st, st, {})
  {}

  lemma SoundAlready(tidy: bool, tpl: Templates, st: State, i: Instance)
    requires Good(tpl, i) && ArgsOk(tidy, i.args) && Registered(st, i)
    ensures Sound(tidy, tpl, st, st, {i})
  {}

  lemma {:induction false} SoundType(tidy: bool, tpl: Templates, st: State, subst: Substitution, t: Type)
    requires Inv(tidy, tpl, st)
    requires Context(tidy, tpl, subst) && (tidy ==> TidyType(t))
    ensures
      var r := RewriteType(tpl, st, subst, t);
      r.Done? ==> r.value == FlatType(subst, t) && Inv(tidy, tpl, r.st) && Sound(tidy, tpl, st, r.st, TypeInsts(subst, t))
    decreases Idle(tpl, st), TypeSize(t), 1
  {
    hide Idle, Inv, Sound, TemplatesOk, SubstOk, ArgsOk;
    SizeOfParts(t);
    if t.Applied? {
      SoundApplied(tidy, tpl, st, subst, t.template, t.args);
    } else {
      SoundTypes(tidy, tpl, st, subst, Parts(t));
      assert TypeInsts(subst, t) == TypesInsts(subst, Parts(t));
    }
  }

  lemma {:induction false} SoundApplied(tidy: bool, tpl: Templates, st: State, subst: Substitution, name: string, args: seq<Type>)
    requires Inv(tidy, tpl, st)
    requires Context(tidy, tpl, subst) && (tidy ==> AllTidyTypes(args) && AllTupleFree(args))
    ensures
      var t := Applied(name, args);
      var r := RewriteType(tpl, st, subst, t);
      r.Done? ==> r.value == FlatType(subst, t) && Inv(tidy, tpl, r.st) && Sound(tidy, tpl, st, r.st, TypeInsts(subst, t))
    decreases Idle(tpl, st), TypesSize(args), 1
  {
    hide Idle, Inv, Sound, TemplatesOk, SubstOk, ArgsOk, AllTidyTypes, AllTupleFree, TypesInsts, FlatTypes;
    SoundTypes(tidy, tpl, st, subst, args);
    var r := RewriteTypes(tpl, st, subst, args);
    if r.Done? {
      FlatTypesOk(tidy, subst, args);
      SoundInstantiateType(tidy, tpl, r.st, name, r.value);
      var r2 := InstantiateType(tpl, r.st, name, r.value);
      if r2.Done? {
        SoundThen(tidy, tpl, st, r.st, r2.st, TypesInsts(subst, args), {TypeInst(name, r.value)});
      }
    }
  }

  lemma {:induction false} SoundTypes(tidy: bool, tpl: Templates, st: State, subst: Substitution, ts: seq<Type>)
    requires Inv(tidy, tpl, st)
    requires Context(tidy, tpl, subst) && (tidy ==> AllTidyTypes(ts))
    ensures
      var r := RewriteTypes(tpl, st, subst, ts);
      r.Done? ==> r.value == FlatTypes(subst, ts) && Inv(tidy, tpl, r.st) && Sound(tidy, tpl, st, r.st, TypesInsts(subst, ts))
    decreases Idle(tpl, st), TypesSize(ts), 0
  {
    hide Idle, Inv, Sound, TemplatesOk, SubstOk, ArgsOk;
    if ts == [] {
      SoundStay(tidy, tpl, st);
    } else {
      SoundType(tidy, tpl, st, subst, ts[0]);
      var r1 := RewriteType(tpl, st, subst, ts[0]);
      if r1.Done? {
        SoundTypes(tidy, tpl, r1.st, subst, ts[1..]);
        var r2 := RewriteTypes(tpl, r1.st, subst, ts[1..]);
        if r2.Done? {
          SoundThen(tidy, tpl, st, r1.st, r2.st, TypeInsts(subst, ts[0]), TypesInsts(subst, ts[1..]));
        }
      }
    }
  }

  lemma {:induction false} SoundInstantiateType(tidy: bool, tpl: Templates, st: State, name: string, args: seq<Type>)
    requires Inv(tidy, tpl, st)
    requires TemplatesOk(tidy, tpl) && ArgsOk(tidy, args)
    ensures
      var r := InstantiateType(tpl, st, name, args);
      r.Done? ==> r.value == Mangle(name, args) && Inv(tidy, tpl, r.st) && Sound(tidy, tpl, st, r.st, {TypeInst(name, args)})
    decreases Idle(tpl, st), 0, 0
  {
    hide Idle, Inv, Sound;
    var r := InstantiateType(tpl, st, name, args);
    var concrete := Mangle(name, args);
    var i := TypeInst(name, args);
    if r.Done? && concrete in st.instantiatedTypes {
      SoundAlready(tidy, tpl, st, i);
    } else if r.Done? {
      var st1 := BeginType(st, name, concrete);
      BeginTypeInv(tidy, tpl, st, name, args);
      TypeActivated(tpl, st, name, concrete);
      assert Good(tpl, i);
      SoundTypeDef(tidy, tpl, st1, i);
      var r1 := RewriteTypeDef(tpl, st1, ArgsOf(tpl, i), name, concrete);
      EndTypeSound(tidy, tpl, st, r1.st, i, r1.value);
    }
  }

  lemma BeginTypeInv(tidy: bool, tpl: Templates, st: State, name: string, args: seq<Type>)
    requires Inv(tidy, tpl, st)
    requires Mangle(name, args) !in st.instantiatedTypes && name !in st.activeTypes
    ensures
      var st1 := BeginType(st, name, Mangle(name, args));
      && (WithinLimit(st1) ==> Inv(tidy, tpl, st1))
      && InProgress(st1.instantiatedTypes, TypeNames(st1.generatedTypes))
         == InProgress(st.instantiatedTypes, TypeNames(st.generatedTypes)) + {Mangle(name, args)}
  {
    var st1 := BeginType(st, name, Mangle(name, args));
    LedgerBegin(st.instantiatedTypes, st.activeTypes, TypeNames(st.generatedTypes), name, args);
    StillDefines(tidy, tpl, st, st1);
  }

  lemma EndTypeSound(tidy: bool, tpl: Templates, st: State, st2: State, i: Instance, def: Item)
    requires Inv(tidy, tpl, st) && i.TypeInst? && Good(tpl, i) && ArgsOk(tidy, i.args)
    requires InstanceName(i) !in st.instantiatedTypes && i.template !in st.activeTypes
    requires
      var st1 := BeginType(st, i.template, InstanceName(i));
      WithinLimit(st1) && Inv(tidy, tpl, st2) && Sound(tidy, tpl, st1, st2, DefinitionInsts(tpl, i))
    requires def == TypeDefOf(tpl, i)
    ensures Inv(tidy, tpl, EndType(st2, i.template, def)) && Sound(tidy, tpl, st, EndType(st2, i.template, def), {i})
  {
    var st3 := EndType(st2, i.template, def);
    BeginTypeInv(tidy, tpl, st, i.template, i.args);
    EndTypeDefines(tidy, tpl, st2, i, def);
    EndTypeStep(st, st2, i.template, def, InstanceName(i));
    assert Demanded(tidy, tpl, st3, {i});
  }

  lemma EndTypeStep(st: State, st2: State, template: string, def: Item, concrete: string)
    requires Ledger(st.instantiatedTypes, st.activeTypes, TypeNames(st.generatedTypes))
    requires Ledger(st2.instantiatedTypes, st2.activeTypes, TypeNames(st2.generatedTypes))
    requires concrete !in st.instantiatedTypes && template !in st.activeTypes && TypeItemName(def) == concrete
    requires InProgress(st.instantiatedTypes + {concrete}, TypeNames(st.generatedTypes))
             == InProgress(st.instantiatedTypes, TypeNames(st.generatedTypes)) + {concrete}
    requires Step(BeginType(st, template, concrete), st2)
    ensures
      var st3 := EndType(st2, template, def);
      Step(st, st3) && Ledger(st3.instantiatedTypes, st3.activeTypes, TypeNames(st3.generatedTypes))
  {
    hide Ledger, InProgress;
    assert st.activeTypes + {template} - {template} == st.activeTypes;
    var st3 := EndType(st2, template, def);
    LedgerAround(st.instantiatedTypes, st.activeTypes, TypeNames(st.generatedTypes),
                 st2.instantiatedTypes, st2.activeTypes, TypeNames(st2.generatedTypes), concrete);
    assert TypeNames(st3.generatedTypes) == TypeNames(st2.generatedTypes) + [concrete];
  }

  /** The books before and after the definition of `name`, which was the only one in progress
      that was not in progress before. */
  lemma LedgerAround(instantiated: set<string>, active: set<string>, defined: seq<string>,
                     instantiated': set<string>, active': set<string>, defined': seq<string>, name: string)
    requires Ledger(instantiated, active, defined) && name !in instantiated
    requires Ledger(instantiated', active', defined')
    requires InProgress(instantiated', defined') == InProgress(instantiated, defined) + {name}
    ensures Ledger(instantiated', active, defined' + [name])
    ensures InProgress(instantiated', defined' + [name]) == InProgress(instantiated, defined)
  {
    LedgerEnd(instantiated', defined', name);
    assert InProgress(instantiated, defined) + {name} - {name} == InProgress(instantiated, defined);
  }

  lemma EndTypeDefines(tidy: bool, tpl: Templates, st: State, i: Instance, def: Item)
    requires Defines(tidy, tpl, st)
    requires DefinesType(tidy, tpl, st, def, i)
    ensures Defines(tidy, tpl, EndType(st, i.template, def))
  {
    var st' := EndType(st, i.template, def);
    var middle := st'.(generatedTypes := st.generatedTypes);
    StillDefines(tidy, tpl, st, middle);
    forall d | d in st'.generatedTypes
      ensures exists j :: DefinesType(tidy, tpl, st', d, j)
    {
      if d in st.generatedTypes {
        var j :| DefinesType(tidy, tpl, middle, d, j);
        SameBooksDefines(tidy, tpl, middle, st', d, j);
      } else {
        SameBooksDefines(tidy, tpl, st, st', d, i);
      }
    }
    forall f | f in st'.generatedFunctions
      ensures exists j :: DefinesFunction(tidy, tpl, st', f, j)
    {
      var j :| DefinesFunction(tidy, tpl, middle, f, j);
      StillDemanded(tidy, tpl, middle, st', DefinitionInsts(tpl, j));
      assert DefinesFunction(tidy, tpl, st', f, j);
    }
  }

  lemma SameBooksDefines(tidy: bool, tpl: Templates, st: State, st': State, d: Item, j: Instance)
    requires DefinesType(tidy, tpl, st, d, j)
    requires st'.instantiatedFunctions == st.instantiatedFunctions && st'.instantiatedTypes == st.instantiatedTypes
    ensures DefinesType(tidy, tpl, st', d, j)
  {
    StillDemanded(tidy, tpl, st, st', DefinitionInsts(tpl, j));
  }

  lemma {:induction false} SoundTypeDef(tidy: bool, tpl: Templates, st: State, i: Instance)
    requires Inv(tidy, tpl, st) && i.TypeInst? && Good(tpl, i) && ArgsOk(tidy, i.args)
    requires TemplatesOk(tidy, tpl)
    ensures
      var r := RewriteTypeDef(tpl, st, ArgsOf(tpl, i), i.template, InstanceName(i));
      r.Done? ==> r.value == TypeDefOf(tpl, i) && Inv(tidy, tpl, r.st) && Sound(tidy, tpl, st, r.st, DefinitionInsts(tpl, i))
    decreases Idle(tpl, st), TypeDefSize(tpl, i.template), 0
  {
    hide Idle, Inv, Sound;
    BindOk(tidy, TypeParamsOf(tpl, i.template), i.args);
    if i.template in tpl.structs {
      SoundTypes(tidy, tpl, st, ArgsOf(tpl, i), ParamTypes(tpl.structs[i.template].fields));
    } else {
      SoundTypes(tidy, tpl, st, ArgsOf(tpl, i), PayloadTypes(tpl.enums[i.template].variants));
    }
  }

  lemma {:induction false} SoundInstantiateFunction(tidy: bool, tpl: Templates, st: State, name: string, args: seq<Type>)
    requires Inv(tidy, tpl, st)
    requires TemplatesOk(tidy, tpl) && ArgsOk(tidy, args)
    ensures
      var r := InstantiateFunction(tpl, st, name, args);
      r.Done? ==> r.value == Mangle(name, args) && Inv(tidy, tpl, r.st) && Sound(tidy, tpl, st, r.st, {FunctionInst(name, args)})
    decreases Idle(tpl, st), 0, 0
  {
    hide Idle, Inv, Sound;
    var r := InstantiateFunction(tpl, st, name, args);
    var concrete := Mangle(name, args);
    var i := FunctionInst(name, args);
    if r.Done? && concrete in st.instantiatedFunctions {
      SoundAlready(tidy, tpl, st, i);
    } else if r.Done? {
      var st1 := BeginFunction(st, name, concrete);
      BeginFunctionInv(tidy, tpl, st, name, args);
      FunctionActivated(tpl, st, name, concrete);
      var template := Renamed(tpl.functions[name], concrete);
      BindOk(tidy, tpl.functions[name].proto.typeParams, args);
      assert Good(tpl, i) && SignatureTypes(template.proto) == SignatureTypes(tpl.functions[name].proto);
      SoundFunction(tidy, tpl, st1, ArgsOf(tpl, i), template);
      var r1 := RewriteFunction(tpl, st1, ArgsOf(tpl, i), template);
      EndFunctionSound(tidy, tpl, st, r1.st, i, r1.value);
    }
  }

  lemma BeginFunctionInv(tidy: bool, tpl: Templates, st: State, name: string, args: seq<Type>)
    requires Inv(tidy, tpl, st)
    requires Mangle(name, args) !in st.instantiatedFunctions && name !in st.activeFunctions
    ensures
      var st1 := BeginFunction(st, name, Mangle(name, args));
      && (WithinLimit(st1) ==> Inv(tidy, tpl, st1))
      && InProgress(st1.instantiatedFunctions, FunctionNames(st1.generatedFunctions))
         == InProgress(st.instantiatedFunctions, FunctionNames(st.generatedFunctions)) + {Mangle(name, args)}
  {
    var st1 := BeginFunction(st, name, Mangle(name, args));
    LedgerBegin(st.instantiatedFunctions, st.activeFunctions, FunctionNames(st.generatedFunctions), name, args);
    StillDefines(tidy, tpl, st, st1);
  }

  lemma EndFunctionSound(tidy: bool, tpl: Templates, st: State, st2: State, i: Instance, def: Function)
    requires Inv(tidy, tpl, st) && i.FunctionInst? && Good(tpl, i) && ArgsOk(tidy, i.args)
    requires InstanceName(i) !in st.instantiatedFunctions && i.template !in st.activeFunctions
    requires
      var st1 := BeginFunction(st, i.template, InstanceName(i));
      WithinLimit(st1) && Inv(tidy, tpl, st2) && Sound(tidy, tpl, st1, st2, DefinitionInsts(tpl, i))
    requires def == FunctionOf(tpl, i)
    requires WellAppliedStmts(tpl, tpl.functions[i.template].body.stmts)
    ensures Inv(tidy, tpl, EndFunction(st2, i.template, def)) && Sound(tidy, tpl, st, EndFunction(st2, i.template, def), {i})
  {
    var st3 := EndFunction(st2, i.template, def);
    BeginFunctionInv(tidy, tpl, st, i.template, i.args);
    EndFunctionDefines(tidy, tpl, st2, i, def);
    EndFunctionStep(st, st2, i.template, def, InstanceName(i));
    assert Demanded(tidy, tpl, st3, {i});
  }

  lemma EndFunctionStep(st: State, st2: State, template: string, def: Function, concrete: string)
    requires Ledger(st.instantiatedFunctions, st.activeFunctions, FunctionNames(st.generatedFunctions))
    requires Ledger(st2.instantiatedFunctions, st2.activeFunctions, FunctionNames(st2.generatedFunctions))
    requires concrete !in st.instantiatedFunctions && template !in st.activeFunctions && def.proto.name == concrete
    requires InProgress(st.instantiatedFunctions + {concrete}, FunctionNames(st.generatedFunctions))
             == InProgress(st.instantiatedFunctions, FunctionNames(st.generatedFunctions)) + {concrete}
    requires Step(BeginFunction(st, template, concrete), st2)
    ensures
      var st3 := EndFunction(st2, template, def);
      Step(st, st3) && Ledger(st3.instantiatedFunctions, st3.activeFunctions, FunctionNames(st3.generatedFunctions))
  {
    hide Ledger, InProgress;
    assert st.activeFunctions + {template} - {template} == st.activeFunctions;
    var st3 := EndFunction(st2, template, def);
    LedgerAround(st.instantiatedFunctions, st.activeFunctions, FunctionNames(st.generatedFunctions),
                 st2.instantiatedFunctions, st2.activeFunctions, FunctionNames(st2.generatedFunctions), concrete);
    assert FunctionNames(st3.generatedFunctions) == FunctionNames(st2.generatedFunctions) + [concrete];
  }

  lemma EndFunctionDefines(tidy: bool, tpl: Templates, st: State, i: Instance, def: Function)
    requires Defines(tidy, tpl, st)
    requires DefinesFunction(tidy, tpl, st, def, i)
    ensures Defines(tidy, tpl, EndFunction(st, i.template, def))
  {
    var st' := EndFunction(st, i.template, def);
    var middle := st'.(generatedFunctions := st.generatedFunctions);
    StillDefines(tidy, tpl, st, middle);
    forall f | f in st'.generatedFunctions
      ensures exists j :: DefinesFunction(tidy, tpl, st', f, j)
    {
      if f in st.generatedFunctions {
        var j :| DefinesFunction(tidy, tpl, st, f, j);
        StillDemanded(tidy, tpl, st, st', DefinitionInsts(tpl, j));
        assert DefinesFunction(tidy, tpl, st', f, j);
      } else {
        StillDemanded(tidy, tpl, st, st', DefinitionInsts(tpl, i));
        assert DefinesFunction(tidy, tpl, st', f, i);
      }
    }
    forall d | d in st'.generatedTypes
      ensures exists j :: DefinesType(tidy, tpl, st', d, j)
    {
      var j :| DefinesType(tidy, tpl, middle, d, j);
      SameBooksDefines(tidy, tpl, middle, st', d, j);
    }
  }

  lemma {:induction false} SoundFunction(tidy: bool, tpl: Templates, st: State, subst: Substitution, f: Function)
    requires Inv(tidy, tpl, st)
    requires Context(tidy, tpl, subst) && (tidy ==> AllTidyTypes(SignatureTypes(f.proto)) && TidyStmts(f.body.stmts))
    ensures
      var r := RewriteFunction(tpl, st, subst, f);
      r.Done? ==>
        && r.value == FlatFunction(tpl, subst, f)
        && WellAppliedStmts(tpl, f.body.stmts)
        && Inv(tidy, tpl, r.st) && Sound(tidy, tpl, st, r.st, FunctionInsts(tpl, subst, f))
    decreases Idle(tpl, st), 1 + TypesSize(SignatureTypes(f.proto)) + StmtsSize(f.body.stmts), 0
  {
    hide Idle, Inv, Sound, TemplatesOk, SubstOk, ArgsOk;
    SoundTypes(tidy, tpl, st, subst, SignatureTypes(f.proto));
    var r1 := RewriteTypes(tpl, st, subst, SignatureTypes(f.proto));
    if r1.Done? {
      SoundStmts(tidy, tpl, r1.st, subst, f.body.stmts);
      var r2 := RewriteStmts(tpl, r1.st, subst, f.body.stmts);
      if r2.Done? {
        SoundThen(tidy, tpl, st, r1.st, r2.st, TypesInsts(subst, SignatureTypes(f.proto)), StmtsInsts(tpl, subst, f.body.stmts));
      }
    }
  }

  lemma {:induction false} SoundStmts(tidy: bool, tpl: Templates, st: State, subst: Substitution, ss: seq<Stmt>)
    requires Inv(tidy, tpl, st)
    requires Context(tidy, tpl, subst) && (tidy ==> TidyStmts(ss))
    ensures
      var r := RewriteStmts(tpl, st, subst, ss);
      r.Done? ==>
        && r.value == FlatStmts(tpl, subst, ss)
        && WellAppliedStmts(tpl, ss)
        && Inv(tidy, tpl, r.st) && Sound(tidy, tpl, st, r.st, StmtsInsts(tpl, subst, ss))
    decreases Idle(tpl, st), StmtsSize(ss), 0
  {
    hide Idle, Inv, Sound, TemplatesOk, SubstOk, ArgsOk;
    if ss == [] {
      SoundStay(tidy, tpl, st);
    } else {
      SoundStmt(tidy, tpl, st, subst, ss[0]);
      var r1 := RewriteStmt(tpl, st, subst, ss[0]);
      if r1.Done? {
        SoundStmts(tidy, tpl, r1.st, subst, ss[1..]);
        var r2 := RewriteStmts(tpl, r1.st, subst, ss[1..]);
        if r2.Done? {
          SoundThen(tidy, tpl, st, r1.st, r2.st, StmtInsts(tpl, subst, ss[0]), StmtsInsts(tpl, subst, ss[1..]));
        }
      }
    }
  }

  lemma {:induction false} SoundStmt(tidy: bool, tpl: Templates, st: State, subst: Substitution, s: Stmt)
    requires Inv(tidy, tpl, st)
    requires Context(tidy, tpl, subst) && (tidy ==> TidyStmt(s))
    ensures
      var r := RewriteStmt(tpl, st, subst, s);
      r.Done? ==>
        && r.value == FlatStmt(tpl, subst, s)
        && WellAppliedStmt(tpl, s)
        && Inv(tidy, tpl, r.st) && Sound(tidy, tpl, st, r.st, StmtInsts(tpl, subst, s))
    decreases Idle(tpl, st), StmtSize(s), 1
  {
    hide Idle, Inv, Sound, TemplatesOk, SubstOk, ArgsOk, FlatTypes, FlatExprs, FlatBlocks, TypesInsts, ExprsInsts, BlocksInsts;
    SizeOfStmtParts(s);
    UnfoldStmt(tpl, subst, s);
    hide FlatStmt, StmtInsts, WellAppliedStmt, AllWellApplied, WellAppliedBlocks, RebuildStmt, StmtTypes, StmtExprs, StmtBlocks;
    SoundTypes(tidy, tpl, st, subst, StmtTypes(s));
    var r1 := RewriteTypes(tpl, st, subst, StmtTypes(s));
    if r1.Done? {
      SoundStmtExprs(tidy, tpl, r1.st, subst, s);
      var r2 := RewriteExprs(tpl, r1.st, subst, StmtExprs(s));
      if r2.Done? {
        var r3 := RewriteBlocks(tpl, r2.st, subst, StmtBlocks(s));
        if r3.Done? {
          SoundThen(tidy, tpl, st, r1.st, r3.st, TypesInsts(subst, StmtTypes(s)),
                    ExprsInsts(tpl, subst, StmtExprs(s)) + BlocksInsts(tpl, subst, StmtBlocks(s)));
        }
      }
    }
  }

  lemma UnfoldStmt(tpl: Templates, subst: Substitution, s: Stmt)
    ensures FlatStmt(tpl, subst, s) ==
      RebuildStmt(s, FlatTypes(subst, StmtTypes(s)), FlatExprs(tpl, subst, StmtExprs(s)), FlatBlocks(tpl, subst, StmtBlocks(s)))
    ensures StmtInsts(tpl, subst, s) == TypesInsts(subst, StmtTypes(s))
      + (ExprsInsts(tpl, subst, StmtExprs(s)) + BlocksInsts(tpl, subst, StmtBlocks(s)))
    ensures WellAppliedStmt(tpl, s) <==> AllWellApplied(tpl, StmtExprs(s)) && WellAppliedBlocks(tpl, StmtBlocks(s))
  {}

  /** The expressions and blocks of a statement. */
  lemma {:induction false} SoundStmtExprs(tidy: bool, tpl: Templates, st: State, subst: Substitution, s: Stmt)
    requires Inv(tidy, tpl, st)
    requires Context(tidy, tpl, subst) && (tidy ==> TidyStmt(s))
    ensures
      var r2 := RewriteExprs(tpl, st, subst, StmtExprs(s));
      r2.Done? ==>
        var r3 := RewriteBlocks(tpl, r2.st, subst, StmtBlocks(s));
        r3.Done? ==>
          && r2.value == FlatExprs(tpl, subst, StmtExprs(s)) && r3.value == FlatBlocks(tpl, subst, StmtBlocks(s))
          && AllWellApplied(tpl, StmtExprs(s)) && WellAppliedBlocks(tpl, StmtBlocks(s))
          && Inv(tidy, tpl, r3.st)
          && Sound(tidy, tpl, st, r3.st, ExprsInsts(tpl, subst, StmtExprs(s)) + BlocksInsts(tpl, subst, StmtBlocks(s)))
    decreases Idle(tpl, st), StmtSize(s), 0
  {
    hide Idle, Inv, Sound, TemplatesOk, SubstOk, ArgsOk, FlatExprs, FlatBlocks, ExprsInsts, BlocksInsts;
    SizeOfStmtParts(s);
    SoundExprs(tidy, tpl, st, subst, StmtExprs(s));
    var r2 := RewriteExprs(tpl, st, subst, StmtExprs(s));
    if r2.Done? {
      SoundBlocks(tidy, tpl, r2.st, subst, StmtBlocks(s));
      var r3 := RewriteBlocks(tpl, r2.st, subst, StmtBlocks(s));
      if r3.Done? {
        SoundThen(tidy, tpl, st, r2.st, r3.st, ExprsInsts(tpl, subst, StmtExprs(s)), BlocksInsts(tpl, subst, StmtBlocks(s)));
      }
    }
  }

  lemma {:induction false} SoundBlocks(tidy: bool, tpl: Templates, st: State, subst: Substitution, bs: seq<Block>)
    requires Inv(tidy, tpl, st)
    requires Context(tidy, tpl, subst) && (tidy ==> TidyBlocks(bs))
    ensures
      var r := RewriteBlocks(tpl, st, subst, bs);
      r.Done? ==>
        && r.value == FlatBlocks(tpl, subst, bs)
        && WellAppliedBlocks(tpl, bs)
        && Inv(tidy, tpl, r.st) && Sound(tidy, tpl, st, r.st, BlocksInsts(tpl, subst, bs))
    decreases Idle(tpl, st), BlocksSize(bs), 0
  {
    hide Idle, Inv, Sound, TemplatesOk, SubstOk, ArgsOk;
    if bs == [] {
      SoundStay(tidy, tpl, st);
    } else {
      SoundStmts(tidy, tpl, st, subst, bs[0].stmts);
      var r1 := RewriteStmts(tpl, st, subst, bs[0].stmts);
      if r1.Done? {
        SoundBlocks(tidy, tpl, r1.st, subst, bs[1..]);
        var r2 := RewriteBlocks(tpl, r1.st, subst, bs[1..]);
        if r2.Done? {
          SoundThen(tidy, tpl, st, r1.st, r2.st, StmtsInsts(tpl, subst, bs[0].stmts), BlocksInsts(tpl, subst, bs[1..]));
        }
      }
    }
  }

  lemma {:induction false} SoundExprs(tidy: bool, tpl: Templates, st: State, subst: Substitution, es: seq<Expr>)
    requires Inv(tidy, tpl, st)
    requires Context(tidy, tpl, subst) && (tidy ==> AllTidyExprs(es))
    ensures
      var r := RewriteExprs(tpl, st, subst, es);
      r.Done? ==>
        && r.value == FlatExprs(tpl, subst, es)
        && AllWellApplied(tpl, es)
        && Inv(tidy, tpl, r.st) && Sound(tidy, tpl, st, r.st, ExprsInsts(tpl, subst, es))
    decreases Idle(tpl, st), ExprsSize(es), 0
  {
    hide Idle, Inv, Sound, TemplatesOk, SubstOk, ArgsOk;
    if es == [] {
      SoundStay(tidy, tpl, st);
    } else {
      SoundExpr(tidy, tpl, st, subst, es[0]);
      var r1 := RewriteExpr(tpl, st, subst, es[0]);
      if r1.Done? {
        SoundExprs(tidy, tpl, r1.st, subst, es[1..]);
        var r2 := RewriteExprs(tpl, r1.st, subst, es[1..]);
        if r2.Done? {
          SoundThen(tidy, tpl, st, r1.st, r2.st, ExprInsts(tpl, subst, es[0]), ExprsInsts(tpl, subst, es[1..]));
        }
      }
    }
  }

  lemma {:induction false} SoundExpr(tidy: bool, tpl: Templates, st: State, subst: Substitution, e: Expr)
    requires Inv(tidy, tpl, st)
    requires Context(tidy, tpl, subst) && (tidy ==> TidyExpr(e))
    ensures
      var r := RewriteExpr(tpl, st, subst, e);
      r.Done? ==>
        && r.value == FlatExpr(tpl, subst, e)
        && WellApplied(tpl, e)
        && Inv(tidy, tpl, r.st) && Sound(tidy, tpl, st, r.st, ExprInsts(tpl, subst, e))
    decreases Idle(tpl, st), ExprSize(e), 1
  {
    hide Idle, Inv, Sound, TemplatesOk, SubstOk, ArgsOk, WellApplied, FlatExpr, FlatExprs, FlatTypes, ExprsInsts, TypesInsts, NodeInsts;
    SizeOfOperands(e);
    UnfoldExpr(tpl, st, subst, e);
    TidyOperands(tidy, e);
    hide TidyExpr, ExprInsts, RewriteExpr, RewriteHead;
    SoundExprs(tidy, tpl, st, subst, Operands(e));
    var r1 := RewriteExprs(tpl, st, subst, Operands(e));
    if r1.Done? {
      SoundTypes(tidy, tpl, r1.st, subst, TypesIn(e));
      var r2 := RewriteTypes(tpl, r1.st, subst, TypesIn(e));
      if r2.Done? {
        var parts := ExprsInsts(tpl, subst, Operands(e)) + TypesInsts(subst, TypesIn(e));
        SoundThen(tidy, tpl, st, r1.st, r2.st, ExprsInsts(tpl, subst, Operands(e)), TypesInsts(subst, TypesIn(e)));
        SoundHead(tidy, tpl, r2.st, subst, e, r2.value, r1.value);
        var r := RewriteHead(tpl, r2.st, subst, e, r2.value, r1.value);
        if r.Done? {
          SoundThen(tidy, tpl, st, r2.st, r.st, parts, NodeInsts(tpl, subst, e));
        }
      }
    }
  }

  lemma TidyOperands(tidy: bool, e: Expr)
    requires tidy ==> TidyExpr(e)
    ensures tidy ==> AllTidyExprs(Operands(e)) && AllTidyTypes(TypesIn(e))
  {}

  lemma UnfoldExpr(tpl: Templates, st: State, subst: Substitution, e: Expr)
    ensures ExprInsts(tpl, subst, e)
      == (ExprsInsts(tpl, subst, Operands(e)) + TypesInsts(subst, TypesIn(e))) + NodeInsts(tpl, subst, e)
    ensures
      var r1 := RewriteExprs(tpl, st, subst, Operands(e));
      r1.Done? ==>
        var r2 := RewriteTypes(tpl, r1.st, subst, TypesIn(e));
        r2.Done? ==> RewriteExpr(tpl, st, subst, e) == RewriteHead(tpl, r2.st, subst, e, r2.value, r1.value)
  {}

  /** The last part of RewriteExpr: the node itself, once its operands and types are rewritten. */
  function RewriteHead(tpl: Templates, st: State, subst: Substitution, e: Expr, types: seq<Type>, operands: seq<Expr>): Outcome<Expr>
    requires |operands| == |Operands(e)| && |types| == |TypesIn(e)|
  {
    match e
    case Call(callee, _, _) => RewriteCall(tpl, st, callee, types, operands)
    case MethodCall(receiver, name, _, _) => RewriteMethodCall(tpl, st, subst, receiver, name, types, operands)
    case StructInit(name, _, fields) => RewriteStructInit(tpl, st, name, types, WithFieldValues(fields, operands))
    case _ => Done(Rebuild(e, operands, types), st)
  }

  lemma HeadArgsOk(tidy: bool, subst: Substitution, e: Expr)
    requires SubstOk(tidy, subst) && (tidy ==> TidyExpr(e))
    ensures e.MethodCall? || e.StructInit? || (e.Call? && !IsSizeof(e.callee)) ==>
      ArgsOk(tidy, FlatTypes(subst, TypesIn(e)))
  {
    if e.MethodCall? || e.StructInit? || (e.Call? && !IsSizeof(e.callee)) {
      FlatTypesOk(tidy, subst, TypesIn(e));
    }
  }

  /** The pieces of a node whose receiver, if any, is not visited. */
  lemma PlainHead(tpl: Templates, subst: Substitution, e: Expr, receiver: Expr)
    requires e.MethodCall? ==> ConstructsInstance(tpl, e.receiver)
    ensures WellApplied(tpl, e) <==> AllWellApplied(tpl, Operands(e)) && WellAppliedHead(tpl, e)
    ensures FlatExpr(tpl, subst, e) ==
      FlatHead(tpl, e, FlatExprs(tpl, subst, Operands(e)), FlatTypes(subst, TypesIn(e)), receiver)
    ensures NodeInsts(tpl, subst, e) == HeadInsts(tpl, e, FlatTypes(subst, TypesIn(e)))
  {}

  /** The pieces of a method call whose receiver is visited. */
  lemma VisitedReceiver(tpl: Templates, subst: Substitution, e: Expr)
    requires e.MethodCall? && !ConstructsInstance(tpl, e.receiver)
    ensures WellApplied(tpl, e) <==>
      AllWellApplied(tpl, e.args) && WellApplied(tpl, e.receiver) && WellAppliedHead(tpl, e)
    ensures FlatExpr(tpl, subst, e) ==
      FlatHead(tpl, e, FlatExprs(tpl, subst, e.args), FlatTypes(subst, e.typeArgs), FlatExpr(tpl, subst, e.receiver))
    ensures NodeInsts(tpl, subst, e)
      == HeadInsts(tpl, e, FlatTypes(subst, e.typeArgs)) + ExprInsts(tpl, subst, e.receiver)
  {}

  lemma {:induction false} SoundCall(tidy: bool, tpl: Templates, st: State, subst: Substitution, e: Expr, types: seq<Type>, args: seq<Expr>)
    requires Inv(tidy, tpl, st) && e.Call?
    requires types == FlatTypes(subst, TypesIn(e)) && args == FlatExprs(tpl, subst, e.args)
    requires AllWellApplied(tpl, e.args)
    requires Context(tidy, tpl, subst) && (tidy ==> TidyExpr(e))
    ensures
      var r := RewriteCall(tpl, st, e.callee, types, args);
      r.Done? ==>
        && r.value == FlatExpr(tpl, subst, e)
        && WellApplied(tpl, e)
        && Inv(tidy, tpl, r.st) && Sound(tidy, tpl, st, r.st, NodeInsts(tpl, subst, e))
    decreases Idle(tpl, st), 0, 1
  {
    hide Idle, Inv, Sound, TemplatesOk, SubstOk, ArgsOk, WellApplied, NodeInsts, FlatExpr, TidyExpr, FlatTypes, FlatExprs;
    PlainHead(tpl, subst, e, e);
    SoundStay(tidy, tpl, st);
    if !IsSizeof(e.callee) && e.callee in tpl.functions {
      HeadArgsOk(tidy, subst, e);
      SoundInstantiateFunction(tidy, tpl, st, e.callee, types);
    }
  }

  lemma {:induction false} SoundStructInit(tidy: bool, tpl: Templates, st: State, subst: Substitution, e: Expr, types: seq<Type>, values: seq<Expr>)
    requires Inv(tidy, tpl, st) && e.StructInit?
    requires types == FlatTypes(subst, TypesIn(e)) && values == FlatExprs(tpl, subst, Operands(e))
    requires AllWellApplied(tpl, Operands(e))
    requires Context(tidy, tpl, subst) && (tidy ==> TidyExpr(e))
    ensures
      var r := RewriteStructInit(tpl, st, e.struct, types, WithFieldValues(e.fields, values));
      r.Done? ==>
        && r.value == FlatExpr(tpl, subst, e)
        && WellApplied(tpl, e)
        && Inv(tidy, tpl, r.st) && Sound(tidy, tpl, st, r.st, NodeInsts(tpl, subst, e))
    decreases Idle(tpl, st), 0, 1
  {
    hide Idle, Inv, Sound, TemplatesOk, SubstOk, ArgsOk, WellApplied, NodeInsts, FlatExpr, TidyExpr, FlatTypes, FlatExprs;
    PlainHead(tpl, subst, e, e);
    SoundStay(tidy, tpl, st);
    HeadArgsOk(tidy, subst, e);
    SoundInstantiateType(tidy, tpl, st, e.struct, types);
  }

  lemma {:induction false} SoundConstructor(tidy: bool, tpl: Templates, st: State, subst: Substitution, e: Expr, types: seq<Type>, args: seq<Expr>)
    requires Inv(tidy, tpl, st) && e.MethodCall? && ConstructsInstance(tpl, e.receiver)
    requires types == FlatTypes(subst, TypesIn(e)) && args == FlatExprs(tpl, subst, e.args)
    requires AllWellApplied(tpl, e.args)
    requires Context(tidy, tpl, subst) && (tidy ==> TidyExpr(e))
    ensures
      var r := RewriteMethodCall(tpl, st, subst, e.receiver, e.methodName, types, args);
      r.Done? ==>
        && r.value == FlatExpr(tpl, subst, e)
        && WellApplied(tpl, e)
        && Inv(tidy, tpl, r.st) && Sound(tidy, tpl, st, r.st, NodeInsts(tpl, subst, e))
    decreases Idle(tpl, st), 0, 1
  {
    hide Idle, Inv, Sound, TemplatesOk, SubstOk, ArgsOk, WellApplied, NodeInsts, FlatExpr, TidyExpr, FlatTypes, FlatExprs;
    HeadArgsOk(tidy, subst, e);
    PlainHead(tpl, subst, e, e.receiver);
    SoundInstantiateType(tidy, tpl, st, e.receiver.name, types);
  }

  lemma {:induction false} SoundGenericMethod(tidy: bool, tpl: Templates, st: State, subst: Substitution, e: Expr, types: seq<Type>, args: seq<Expr>)
    requires Inv(tidy, tpl, st) && e.MethodCall? && !ConstructsInstance(tpl, e.receiver) && e.methodName in tpl.functions
    requires types == FlatTypes(subst, TypesIn(e)) && args == FlatExprs(tpl, subst, e.args)
    requires AllWellApplied(tpl, e.args)
    requires Context(tidy, tpl, subst) && (tidy ==> TidyExpr(e))
    ensures
      var r := RewriteMethodCall(tpl, st, subst, e.receiver, e.methodName, types, args);
      r.Done? ==>
        && r.value == FlatExpr(tpl, subst, e)
        && WellApplied(tpl, e)
        && Inv(tidy, tpl, r.st) && Sound(tidy, tpl, st, r.st, NodeInsts(tpl, subst, e))
    decreases Idle(tpl, st), 1 + ExprSize(e.receiver), 0
  {
    hide Idle, Inv, Sound, TemplatesOk, SubstOk, ArgsOk, WellApplied, NodeInsts, FlatExpr, FlatTypes, FlatExprs;
    var receiver, name := e.receiver, e.methodName;
    VisitedReceiver(tpl, subst, e);
    HeadArgsOk(tidy, subst, e);
    SoundInstantiateFunction(tidy, tpl, st, name, types);
    var r1 := InstantiateFunction(tpl, st, name, types);
    if r1.Done? {
      SoundExpr(tidy, tpl, r1.st, subst, receiver);
      var r2 := RewriteExpr(tpl, r1.st, subst, receiver);
      if r2.Done? {
        SoundThen(tidy, tpl, st, r1.st, r2.st, {FunctionInst(name, types)}, ExprInsts(tpl, subst, receiver));
      }
    }
  }

  lemma {:induction false} SoundPlainMethod(tidy: bool, tpl: Templates, st: State, subst: Substitution, e: Expr, types: seq<Type>, args: seq<Expr>)
    requires Inv(tidy, tpl, st) && e.MethodCall? && !ConstructsInstance(tpl, e.receiver) && e.methodName !in tpl.functions
    requires types == FlatTypes(subst, TypesIn(e)) && args == FlatExprs(tpl, subst, e.args)
    requires AllWellApplied(tpl, e.args)
    requires Context(tidy, tpl, subst) && (tidy ==> TidyExpr(e))
    ensures
      var r := RewriteMethodCall(tpl, st, subst, e.receiver, e.methodName, types, args);
      r.Done? ==>
        && r.value == FlatExpr(tpl, subst, e)
        && WellApplied(tpl, e)
        && Inv(tidy, tpl, r.st) && Sound(tidy, tpl, st, r.st, NodeInsts(tpl, subst, e))
    decreases Idle(tpl, st), 1 + ExprSize(e.receiver), 0
  {
    hide Idle, Inv, Sound, TemplatesOk, SubstOk, ArgsOk, WellApplied, NodeInsts, FlatExpr, FlatTypes, FlatExprs;
    var receiver, name := e.receiver, e.methodName;
    VisitedReceiver(tpl, subst, e);
    SoundExpr(tidy, tpl, st, subst, receiver);
    assert NodeInsts(tpl, subst, e) == ExprInsts(tpl, subst, receiver);
  }

  lemma {:induction false} SoundHead(tidy: bool, tpl: Templates, st: State, subst: Substitution, e: Expr, types: seq<Type>, operands: seq<Expr>)
    requires Inv(tidy, tpl, st)
    requires types == FlatTypes(subst, TypesIn(e)) && operands == FlatExprs(tpl, subst, Operands(e))
    requires AllWellApplied(tpl, Operands(e))
    requires Context(tidy, tpl, subst) && (tidy ==> TidyExpr(e))
    ensures
      var r := RewriteHead(tpl, st, subst, e, types, operands);
      r.Done? ==>
        && r.value == FlatExpr(tpl, subst, e)
        && WellApplied(tpl, e)
        && Inv(tidy, tpl, r.st) && Sound(tidy, tpl, st, r.st, NodeInsts(tpl, subst, e))
    decreases Idle(tpl, st), ExprSize(e), 0
  {
    hide Idle, Inv, Sound, TemplatesOk, SubstOk, ArgsOk;
    SizeOfOperands(e);
    SoundStay(tidy, tpl, st);
    match e
    case Call(_, _, _) => SoundCall(tidy, tpl, st, subst, e, types, operands);
    case MethodCall(receiver, _, _, _) =>
      if ConstructsInstance(tpl, receiver) {
        SoundConstructor(tidy, tpl, st, subst, e, types, operands);
      } else {
        if e.methodName in tpl.functions {
          SoundGenericMethod(tidy, tpl, st, subst, e, types, operands);
        } else {
          SoundPlainMethod(tidy, tpl, st, subst, e, types, operands);
        }
      }
    case StructInit(_, _, fields) => SoundStructInit(tidy, tpl, st, subst, e, types, operands);
    case _ => assert NodeInsts(tpl, subst, e) == {};
  }
}
