/** Rewriting succeeds exactly if its instances can be expanded one after the other: an account of the run
    that keeps nothing but the instances seen and the templates being expanded. */
module MonoExpand {
  import opened Ast
  import opened Wrappers
  import opened Names
  import opened Mono
  import opened MonoFlat
  import opened MonoSound
  import opened MonoClosed
  import opened MonoUses

  /** A template of functions or of types. */
  type Template = (bool, string)

  function TemplateOf(i: Instance): Template {
    (i.FunctionInst?, i.template)
  }

  ghost function AllTemplates(tpl: Templates): (r: set<Template>)
    ensures forall i :: Good(tpl, i) ==> TemplateOf(i) in r
  {
    (set f | f in tpl.functions :: (true, f)) + (set s | s in tpl.structs :: (false, s)) + (set e | e in tpl.enums :: (false, e))
  }

  /** The instance can be defined: its template takes the arguments, and gives type arguments to templates
      only. */
  predicate Definable(tpl: Templates, i: Instance): (r: bool)
    ensures r ==> Good(tpl, i)
  {
    Good(tpl, i) && (i.FunctionInst? ==> WellAppliedStmts(tpl, tpl.functions[i.template].body.stmts))
  }

  /** The instances seen after expanding these, unless one cannot be defined, its template is being expanded
      already, or it is the 257th. */
  ghost function Expand(tpl: Templates, active: set<Template>, seen: set<Instance>, us: Uses): Option<set<Instance>>
    decreases AllTemplates(tpl) - active, |us|
  {
    if us == [] then Some(seen)
    else if us[0] in seen then Expand(tpl, active, seen, us[1..])
    else if !Definable(tpl, us[0]) || TemplateOf(us[0]) in active || |seen| >= 256 then None
    else
      var inner := Expand(tpl, active + {TemplateOf(us[0])}, seen + {us[0]}, DefinitionUses(tpl, us[0]));
      if inner.None? then None else Expand(tpl, active, inner.value, us[1..])
  }

  lemma {:induction false} ExpandConcat(tpl: Templates, active: set<Template>, seen: set<Instance>, us: Uses, vs: Uses)
    ensures var first := Expand(tpl, active, seen, us);
      Expand(tpl, active, seen, us + vs) == if first.None? then None else Expand(tpl, active, first.value, vs)
    decreases |us|
  {
    hide Definable, DefinitionUses;
    if us == [] {
      assert us + vs == vs;
    } else {
      assert (us + vs)[0] == us[0] && (us + vs)[1..] == us[1..] + vs;
      if us[0] in seen {
        ExpandConcat(tpl, active, seen, us[1..], vs);
      } else if Definable(tpl, us[0]) && TemplateOf(us[0]) !in active && |seen| < 256 {
        var inner := Expand(tpl, active + {TemplateOf(us[0])}, seen + {us[0]}, DefinitionUses(tpl, us[0]));
        if inner.Some? {
          ExpandConcat(tpl, active, inner.value, us[1..], vs);
        }
      }
    }
  }

  lemma ExpandNothing(tpl: Templates, active: set<Template>, seen: set<Instance>)
    ensures Expand(tpl, active, seen, []) == Some(seen)
  {
  }

  // ---------------------------------------------------------------------------
  // The books of the run
  // ---------------------------------------------------------------------------

  predicate KeyableArgs(i: Instance) {
    AllKeyable(i.args)
  }

  ghost predicate NamesOf(names: set<string>, seen: set<Instance>, functions: bool) {
    (forall i | i in seen && i.FunctionInst? == functions :: InstanceName(i) in names)
    && (forall n | n in names :: exists i :: i in seen && i.FunctionInst? == functions && InstanceName(i) == n)
  }

  ghost predicate ActiveOf(names: set<string>, active: set<Template>, functions: bool) {
    forall n :: n in names <==> (functions, n) in active
  }

  /** The books hold the names of the instances seen and the templates being expanded. */
  ghost predicate Books(tpl: Templates, st: State, active: set<Template>, seen: set<Instance>) {
    && ActiveOf(st.activeFunctions, active, true) && ActiveOf(st.activeTypes, active, false)
    && NamesOf(st.instantiatedFunctions, seen, true) && NamesOf(st.instantiatedTypes, seen, false)
    && (forall i | i in seen :: Good(tpl, i) && KeyableArgs(i))
    && |st.instantiatedFunctions| + |st.instantiatedTypes| == |seen|
  }

  lemma SeenIffNamed(tpl: Templates, st: State, active: set<Template>, seen: set<Instance>, i: Instance)
    requires Books(tpl, st, active, seen) && Good(tpl, i) && KeyableArgs(i)
    ensures i in seen <==> Registered(st, i)
  {
    hide Mangle, Good, AllKeyable;
    if Registered(st, i) {
      var names := if i.FunctionInst? then st.instantiatedFunctions else st.instantiatedTypes;
      assert NamesOf(names, seen, i.FunctionInst?);
      var j :| j in seen && j.FunctionInst? == i.FunctionInst? && InstanceName(j) == InstanceName(i);
      SameName(tpl, i, j);
    }
  }

  lemma SameName(tpl: Templates, i: Instance, j: Instance)
    requires Good(tpl, i) && KeyableArgs(i) && Good(tpl, j) && KeyableArgs(j)
    requires i.FunctionInst? == j.FunctionInst? && InstanceName(i) == InstanceName(j)
    ensures i == j
  {
    InstanceOfMangle(i.template, i.args, i.template);
    InstanceOfMangle(j.template, j.args, i.template);
    hide Mangle;
    MangleInjective(i.template, i.args, j.template, j.args);
  }

  lemma ActiveMore(names: set<string>, active: set<Template>, functions: bool, name: string)
    requires ActiveOf(names, active, functions)
    ensures ActiveOf(names + {name}, active + {(functions, name)}, functions)
  {
  }

  lemma ActiveSame(names: set<string>, active: set<Template>, functions: bool, name: string)
    requires ActiveOf(names, active, functions)
    ensures ActiveOf(names, active + {(!functions, name)}, functions)
  {
  }

  lemma NamesMore(names: set<string>, seen: set<Instance>, functions: bool, i: Instance)
    requires NamesOf(names, seen, functions)
    ensures NamesOf(if i.FunctionInst? == functions then names + {InstanceName(i)} else names, seen + {i}, functions)
  {
    hide Mangle;
    var more := if i.FunctionInst? == functions then names + {InstanceName(i)} else names;
    forall n | n in more ensures exists j :: j in seen + {i} && j.FunctionInst? == functions && InstanceName(j) == n {
      if n in names {
        var j :| j in seen && j.FunctionInst? == functions && InstanceName(j) == n;
        assert j in seen + {i};
      } else {
        assert i in seen + {i};
      }
    }
  }

  /** The state in which the definition of an instance is rewritten. */
  function Begun(st: State, i: Instance): State {
    if i.FunctionInst? then BeginFunction(st, i.template, InstanceName(i)) else BeginType(st, i.template, InstanceName(i))
  }

  /** An instance is begun. */
  lemma BeginBooks(tpl: Templates, st: State, active: set<Template>, seen: set<Instance>, i: Instance)
    requires Books(tpl, st, active, seen) && Good(tpl, i) && KeyableArgs(i) && i !in seen && TemplateOf(i) !in active
    ensures Books(tpl, Begun(st, i), active + {TemplateOf(i)}, seen + {i}) && (WithinLimit(Begun(st, i)) <==> |seen| < 256)
  {
    SeenIffNamed(tpl, st, active, seen, i);
    hide Good, KeyableArgs, InstanceName, NamesOf, ActiveOf;
    BeginNames(st, seen, i);
    BeginActive(st, active, i);
    BeginCounts(st, seen, i);
    hide Begun, WithinLimit;
  }

  lemma BeginCounts(st: State, seen: set<Instance>, i: Instance)
    requires !Registered(st, i) && i !in seen && |st.instantiatedFunctions| + |st.instantiatedTypes| == |seen|
    ensures |Begun(st, i).instantiatedFunctions| + |Begun(st, i).instantiatedTypes| == |seen + {i}|
    ensures WithinLimit(Begun(st, i)) <==> |seen| < 256
  {
    hide InstanceName;
    OneMore(if i.FunctionInst? then st.instantiatedFunctions else st.instantiatedTypes, InstanceName(i));
    OneMoreSeen(seen, i);
  }

  lemma BeginNames(st: State, seen: set<Instance>, i: Instance)
    requires NamesOf(st.instantiatedFunctions, seen, true) && NamesOf(st.instantiatedTypes, seen, false)
    ensures NamesOf(Begun(st, i).instantiatedFunctions, seen + {i}, true)
    ensures NamesOf(Begun(st, i).instantiatedTypes, seen + {i}, false)
  {
    NamesMore(st.instantiatedFunctions, seen, true, i);
    NamesMore(st.instantiatedTypes, seen, false, i);
    hide NamesOf, InstanceName;
  }

  lemma BeginActive(st: State, active: set<Template>, i: Instance)
    requires ActiveOf(st.activeFunctions, active, true) && ActiveOf(st.activeTypes, active, false)
    ensures ActiveOf(Begun(st, i).activeFunctions, active + {TemplateOf(i)}, true)
    ensures ActiveOf(Begun(st, i).activeTypes, active + {TemplateOf(i)}, false)
  {
    hide InstanceName;
    if i.FunctionInst? {
      ActiveMore(st.activeFunctions, active, true, i.template);
      ActiveSame(st.activeTypes, active, false, i.template);
    } else {
      ActiveMore(st.activeTypes, active, false, i.template);
      ActiveSame(st.activeFunctions, active, true, i.template);
    }
    hide ActiveOf;
  }

  lemma OneMoreSeen(seen: set<Instance>, i: Instance)
    requires i !in seen
    ensures |seen + {i}| == |seen| + 1
  {
  }

  lemma OneMore(names: set<string>, name: string)
    requires name !in names
    ensures |names + {name}| == |names| + 1
  {
  }

  /** An instance is finished. */
  lemma EndBooks(tpl: Templates, st: State, st2: State, active: set<Template>, i: Instance, seen: set<Instance>)
    requires Books(tpl, st2, active + {TemplateOf(i)}, seen) && TemplateOf(i) !in active
    requires ActiveOf(st.activeFunctions, active, true) && ActiveOf(st.activeTypes, active, false)
    requires SameActive(if i.FunctionInst? then BeginFunction(st, i.template, "") else BeginType(st, i.template, ""), st2)
    ensures i.FunctionInst? ==> forall def :: Books(tpl, EndFunction(st2, i.template, def), active, seen)
    ensures i.TypeInst? ==> forall def :: Books(tpl, EndType(st2, i.template, def), active, seen)
  {
    hide NamesOf, Good, AllKeyable;
    if i.FunctionInst? {
      assert st2.activeFunctions - {i.template} == st.activeFunctions;
    } else {
      assert st2.activeTypes - {i.template} == st.activeTypes;
    }
  }

  /** The run and the account of it: both go on, or both fail. */
  ghost predicate Follows<T>(tpl: Templates, active: set<Template>, r: Outcome<T>, x: Option<set<Instance>>) {
    (r.Done? <==> x.Some?) && (r.Done? ==> Books(tpl, r.st, active, x.value))
  }

  /** The same where type arguments may be given to something that takes none. */
  ghost predicate FollowsIf<T>(
    tpl: Templates, active: set<Template>, ok: bool, r: Outcome<T>, x: Option<set<Instance>>) {
    (r.Done? <==> ok && x.Some?) && (r.Done? ==> Books(tpl, r.st, active, x.value))
  }

  ghost predicate Here(tpl: Templates, st: State, active: set<Template>, seen: set<Instance>) {
    Inv(true, tpl, st) && TemplatesOk(true, tpl) && Books(tpl, st, active, seen)
    && forall f | f in tpl.functions :: tpl.functions[f].proto.typeParams != []
  }

  // ---------------------------------------------------------------------------
  // Types
  // ---------------------------------------------------------------------------

  lemma {:induction false} TypeFollows(
    tpl: Templates, st: State, active: set<Template>, seen: set<Instance>, subst: Substitution, t: Type)
    requires Here(tpl, st, active, seen) && SubstOk(true, subst) && TidyType(t)
    ensures Follows(tpl, active, RewriteType(tpl, st, subst, t), Expand(tpl, active, seen, TypeUses(subst, t)))
    decreases Idle(tpl, st), TypeSize(t), 1
  {
    hide Idle, Inv, Books, TemplatesOk, SubstOk, Expand;
    SizeOfParts(t);
    TypesFollow(tpl, st, active, seen, subst, Parts(t));
    if t.Applied? {
      AppliedFollows(tpl, st, active, seen, subst, t);
    } else {
      assert TypeUses(subst, t) == TypesUses(subst, Parts(t)) + [] == TypesUses(subst, Parts(t));
    }
  }

  lemma {:induction false} AppliedFollows(
    tpl: Templates, st: State, active: set<Template>, seen: set<Instance>, subst: Substitution, t: Type)
    requires t.Applied? && Here(tpl, st, active, seen) && SubstOk(true, subst) && TidyType(t)
    requires Follows(tpl, active, RewriteTypes(tpl, st, subst, t.args), Expand(tpl, active, seen, TypesUses(subst, t.args)))
    ensures Follows(tpl, active, RewriteType(tpl, st, subst, t), Expand(tpl, active, seen, TypeUses(subst, t)))
    decreases Idle(tpl, st), TypeSize(t), 0
  {
    hide Idle, Inv, Books, TemplatesOk, SubstOk, Expand, TypesUses, FlatTypes, Sound, AllKeyable, RewriteTypes, InstantiateType;
    var i := TypeInst(t.template, FlatTypes(subst, t.args));
    var us := TypesUses(subst, t.args);
    ExpandConcat(tpl, active, seen, us, [i]);
    FlatTypesOk(true, subst, t.args);
    SoundTypes(true, tpl, st, subst, t.args);
    var r := RewriteTypes(tpl, st, subst, t.args);
    if r.Done? {
      InstanceFollows(tpl, r.st, active, Expand(tpl, active, seen, us).value, i);
    }
  }

  lemma {:induction false} TypesFollow(
    tpl: Templates, st: State, active: set<Template>, seen: set<Instance>, subst: Substitution, ts: seq<Type>)
    requires Here(tpl, st, active, seen) && SubstOk(true, subst) && AllTidyTypes(ts)
    ensures Follows(tpl, active, RewriteTypes(tpl, st, subst, ts), Expand(tpl, active, seen, TypesUses(subst, ts)))
    decreases Idle(tpl, st), TypesSize(ts), 0
  {
    hide Idle, Inv, Books, TemplatesOk, SubstOk, Expand, Sound;
    if ts == [] {
      ExpandNothing(tpl, active, seen);
    } else {
      ExpandConcat(tpl, active, seen, TypeUses(subst, ts[0]), TypesUses(subst, ts[1..]));
      TypeFollows(tpl, st, active, seen, subst, ts[0]);
      SoundType(true, tpl, st, subst, ts[0]);
      var r := RewriteType(tpl, st, subst, ts[0]);
      if r.Done? {
        TypesFollow(tpl, r.st, active, Expand(tpl, active, seen, TypeUses(subst, ts[0])).value, subst, ts[1..]);
      }
    }
  }

  /** One instance. */
  lemma {:induction false} InstanceFollows(
    tpl: Templates, st: State, active: set<Template>, seen: set<Instance>, i: Instance)
    requires Here(tpl, st, active, seen) && KeyableArgs(i)
    ensures i.TypeInst? ==>
      Follows(tpl, active, InstantiateType(tpl, st, i.template, i.args), Expand(tpl, active, seen, [i]))
    ensures i.FunctionInst? ==>
      Follows(tpl, active, InstantiateFunction(tpl, st, i.template, i.args), Expand(tpl, active, seen, [i]))
    decreases Idle(tpl, st), 0, 0
  {
    ExpandOne(tpl, active, seen, i);
    hide Idle, Inv, TemplatesOk, Expand;
    if Good(tpl, i) {
      SeenIffNamed(tpl, st, active, seen, i);
      if i !in seen && TemplateOf(i) !in active {
        BeginBooks(tpl, st, active, seen, i);
        ActiveKnown(tpl, st, active, seen);
        hide Books;
        if |seen| < 256 {
          if i.TypeInst? {
            TypeDefFollows(tpl, st, active, seen, i);
          } else {
            FunctionDefFollows(tpl, st, active, seen, i);
          }
        }
      }
    }
  }

  lemma ExpandOne(tpl: Templates, active: set<Template>, seen: set<Instance>, i: Instance)
    ensures Expand(tpl, active, seen, [i])
         == if i in seen then Some(seen)
            else if !Definable(tpl, i) || TemplateOf(i) in active || |seen| >= 256 then None
            else Expand(tpl, active + {TemplateOf(i)}, seen + {i}, DefinitionUses(tpl, i))
  {
    hide Definable, DefinitionUses, Good, AllTemplates, TemplateOf;
    var us := [i];
    assert us != [] && us[0] == i && us[1..] == [];
    ExpandFirst(tpl, active, seen, us);
    hide Expand;
    ExpandNothing(tpl, active, seen);
    if i !in seen && Definable(tpl, i) && TemplateOf(i) !in active && |seen| < 256 {
      var inner := Expand(tpl, active + {TemplateOf(i)}, seen + {i}, DefinitionUses(tpl, i));
      if inner.Some? {
        ExpandNothing(tpl, active, inner.value);
      }
    }
  }

  lemma ExpandFirst(tpl: Templates, active: set<Template>, seen: set<Instance>, us: Uses)
    requires us != []
    ensures Expand(tpl, active, seen, us)
         == if us[0] in seen then Expand(tpl, active, seen, us[1..])
            else if !Definable(tpl, us[0]) || TemplateOf(us[0]) in active || |seen| >= 256 then None
            else
              var inner := Expand(tpl, active + {TemplateOf(us[0])}, seen + {us[0]}, DefinitionUses(tpl, us[0]));
              if inner.None? then None else Expand(tpl, active, inner.value, us[1..])
  {
  }

  /** An instance that has not been seen, and may be expanded. */
  ghost predicate Fresh(tpl: Templates, st: State, active: set<Template>, seen: set<Instance>, i: Instance) {
    Good(tpl, i) && KeyableArgs(i) && i !in seen && TemplateOf(i) !in active && |seen| < 256 && !Registered(st, i)
  }

  lemma FreshStarts(tpl: Templates, st: State, active: set<Template>, seen: set<Instance>, i: Instance)
    requires Here(tpl, st, active, seen) && Fresh(tpl, st, active, seen, i)
    ensures Here(tpl, Begun(st, i), active + {TemplateOf(i)}, seen + {i}) && WithinLimit(Begun(st, i))
    ensures SubstOk(true, ArgsOf(tpl, i)) && Idle(tpl, Begun(st, i)) < Idle(tpl, st)
    ensures i.template !in if i.FunctionInst? then st.activeFunctions else st.activeTypes
  {
    BeginBooks(tpl, st, active, seen, i);
    ActiveKnown(tpl, st, active, seen);
    KeyableIsOk(i.args);
    hide Books, Inv, TemplatesOk, Idle, SubstOk, ArgsOk, AllKeyable, Mangle;
    if i.FunctionInst? {
      FunctionActivated(tpl, st, i.template, InstanceName(i));
      BeginFunctionInv(true, tpl, st, i.template, i.args);
      BindOk(true, tpl.functions[i.template].proto.typeParams, i.args);
    } else {
      TypeActivated(tpl, st, i.template, InstanceName(i));
      BeginTypeInv(true, tpl, st, i.template, i.args);
      BindOk(true, TypeParamsOf(tpl, i.template), i.args);
    }
  }

  lemma {:induction false} KeyableIsOk(ts: seq<Type>)
    requires AllKeyable(ts)
    ensures ArgsOk(true, ts)
    decreases |ts|
  {
    if ts != [] {
      KeyableIsOk(ts[1..]);
    }
  }

  lemma {:induction false} TypeDefFollows(
    tpl: Templates, st: State, active: set<Template>, seen: set<Instance>, i: Instance)
    requires i.TypeInst? && Here(tpl, st, active, seen) && Fresh(tpl, st, active, seen, i)
    ensures Follows(tpl, active, InstantiateType(tpl, st, i.template, i.args),
                    Expand(tpl, active + {TemplateOf(i)}, seen + {i}, DefinitionUses(tpl, i)))
    decreases Idle(tpl, st), 0, 0, 0
  {
    FreshStarts(tpl, st, active, seen, i);
    FieldsTidy(tpl, i.template);
    TypeStages(tpl, st, i);
    ActiveKnown(tpl, st, active, seen);
    hide Idle, Inv, TemplatesOk, Expand, Books, SubstOk, AllTidyTypes, InstantiateType, RewriteTypes, FieldTypes;
    TypesFollow(tpl, Begun(st, i), active + {TemplateOf(i)}, seen + {i}, ArgsOf(tpl, i), FieldTypes(tpl, i.template));
    var r := RewriteTypes(tpl, Begun(st, i), ArgsOf(tpl, i), FieldTypes(tpl, i.template));
    if r.Done? {
      var after := Expand(tpl, active + {TemplateOf(i)}, seen + {i}, DefinitionUses(tpl, i)).value;
      EndBooks(tpl, st, r.st, active, i, after);
    }
  }

  /** What instantiating a type comes down to. */
  lemma TypeStages(tpl: Templates, st: State, i: Instance)
    requires i.TypeInst? && Good(tpl, i) && !Registered(st, i) && i.template !in st.activeTypes && WithinLimit(Begun(st, i))
    ensures var r := InstantiateType(tpl, st, i.template, i.args);
      var ts := RewriteTypes(tpl, Begun(st, i), ArgsOf(tpl, i), FieldTypes(tpl, i.template));
      (r.Done? <==> ts.Done?) && (r.Done? ==> exists def :: r.st == EndType(ts.st, i.template, def))
  {
    DefRewrites(tpl, Begun(st, i), i);
    hide RewriteTypes, RewriteTypeDef, FieldTypes, Bind, Mangle;
  }

  lemma ActiveKnown(tpl: Templates, st: State, active: set<Template>, seen: set<Instance>)
    requires Books(tpl, st, active, seen)
    ensures ActiveOf(st.activeFunctions, active, true) && ActiveOf(st.activeTypes, active, false)
  {
  }

  lemma FieldsTidy(tpl: Templates, name: string)
    requires TemplatesOk(true, tpl) && IsTypeTemplate(tpl, name)
    ensures AllTidyTypes(FieldTypes(tpl, name))
  {
    hide AllTidyTypes;
  }

  lemma DefRewrites(tpl: Templates, st: State, i: Instance)
    requires i.TypeInst? && Good(tpl, i)
    ensures var r := RewriteTypeDef(tpl, st, ArgsOf(tpl, i), i.template, InstanceName(i));
      var ts := RewriteTypes(tpl, st, ArgsOf(tpl, i), FieldTypes(tpl, i.template));
      (r.Done? <==> ts.Done?) && (r.Done? ==> r.st == ts.st)
  {
    hide RewriteTypes;
  }

  // ---------------------------------------------------------------------------
  // Functions
  // ---------------------------------------------------------------------------

  lemma {:induction false} FunctionDefFollows(
    tpl: Templates, st: State, active: set<Template>, seen: set<Instance>, i: Instance)
    requires i.FunctionInst? && Here(tpl, st, active, seen) && Fresh(tpl, st, active, seen, i)
    ensures FollowsIf(tpl, active, Definable(tpl, i), InstantiateFunction(tpl, st, i.template, i.args),
                      Expand(tpl, active + {TemplateOf(i)}, seen + {i}, DefinitionUses(tpl, i)))
    decreases Idle(tpl, st), 0, 0, 0
  {
    var template := Renamed(tpl.functions[i.template], InstanceName(i));
    FreshStarts(tpl, st, active, seen, i);
    TemplateTidy(tpl, i.template);
    FunctionStages(tpl, st, i);
    ActiveKnown(tpl, st, active, seen);
    RenamedUses(tpl, ArgsOf(tpl, i), tpl.functions[i.template], InstanceName(i));
    hide Idle, Inv, TemplatesOk, Expand, Books, SubstOk, FunctionUses, RewriteFunction, InstantiateFunction, WellAppliedStmts,
      AllTidyTypes, TidyStmts, SignatureTypes;
    FunctionFollows(tpl, Begun(st, i), active + {TemplateOf(i)}, seen + {i}, ArgsOf(tpl, i), template);
    var r := RewriteFunction(tpl, Begun(st, i), ArgsOf(tpl, i), template);
    if r.Done? {
      var after := Expand(tpl, active + {TemplateOf(i)}, seen + {i}, DefinitionUses(tpl, i)).value;
      EndBooks(tpl, st, r.st, active, i, after);
    }
  }

  /** What instantiating a function comes down to. */
  lemma FunctionStages(tpl: Templates, st: State, i: Instance)
    requires i.FunctionInst? && Good(tpl, i) && !Registered(st, i) && i.template !in st.activeFunctions
    requires WithinLimit(Begun(st, i))
    ensures var r := InstantiateFunction(tpl, st, i.template, i.args);
      var f := RewriteFunction(tpl, Begun(st, i), ArgsOf(tpl, i), Renamed(tpl.functions[i.template], InstanceName(i)));
      (r.Done? <==> f.Done?) && (r.Done? ==> exists def :: r.st == EndFunction(f.st, i.template, def))
  {
    hide RewriteFunction, Bind, Mangle;
  }

  lemma TemplateTidy(tpl: Templates, name: string)
    requires TemplatesOk(true, tpl) && name in tpl.functions
    ensures AllTidyTypes(SignatureTypes(tpl.functions[name].proto)) && TidyStmts(tpl.functions[name].body.stmts)
  {
    hide AllTidyTypes, TidyStmts;
    assert TidyFunction(tpl.functions[name]);
  }

  lemma RenamedUses(tpl: Templates, subst: Substitution, f: Function, concrete: string)
    ensures FunctionUses(tpl, subst, Renamed(f, concrete)) == FunctionUses(tpl, subst, f)
    ensures SignatureTypes(Renamed(f, concrete).proto) == SignatureTypes(f.proto)
  {
    hide TypesUses, StmtsUses;
  }

  lemma {:induction false} FunctionFollows(
    tpl: Templates, st: State, active: set<Template>, seen: set<Instance>, subst: Substitution, f: Function)
    requires Here(tpl, st, active, seen) && SubstOk(true, subst)
    requires AllTidyTypes(SignatureTypes(f.proto)) && TidyStmts(f.body.stmts)
    ensures FollowsIf(tpl, active, WellAppliedStmts(tpl, f.body.stmts), RewriteFunction(tpl, st, subst, f),
                      Expand(tpl, active, seen, FunctionUses(tpl, subst, f)))
    decreases Idle(tpl, st), 1 + TypesSize(SignatureTypes(f.proto)) + StmtsSize(f.body.stmts), 0
  {
    hide Idle, Inv, Books, TemplatesOk, SubstOk, Expand, Sound, TypesUses, StmtsUses, RewriteTypes, RewriteStmts;
    var us := TypesUses(subst, SignatureTypes(f.proto));
    ExpandConcat(tpl, active, seen, us, StmtsUses(tpl, subst, f.body.stmts));
    TypesFollow(tpl, st, active, seen, subst, SignatureTypes(f.proto));
    SoundTypes(true, tpl, st, subst, SignatureTypes(f.proto));
    var r := RewriteTypes(tpl, st, subst, SignatureTypes(f.proto));
    if r.Done? {
      StmtsFollow(tpl, r.st, active, Expand(tpl, active, seen, us).value, subst, f.body.stmts);
    }
  }

  lemma {:induction false} StmtsFollow(
    tpl: Templates, st: State, active: set<Template>, seen: set<Instance>, subst: Substitution, ss: seq<Stmt>)
    requires Here(tpl, st, active, seen) && SubstOk(true, subst) && TidyStmts(ss)
    ensures FollowsIf(tpl, active, WellAppliedStmts(tpl, ss), RewriteStmts(tpl, st, subst, ss),
                      Expand(tpl, active, seen, StmtsUses(tpl, subst, ss)))
    decreases Idle(tpl, st), StmtsSize(ss), 0
  {
    hide Idle, Inv, Books, TemplatesOk, SubstOk, Expand, Sound;
    if ss == [] {
      ExpandNothing(tpl, active, seen);
    } else {
      var us := StmtUses(tpl, subst, ss[0]);
      ExpandConcat(tpl, active, seen, us, StmtsUses(tpl, subst, ss[1..]));
      StmtFollows(tpl, st, active, seen, subst, ss[0]);
      SoundStmt(true, tpl, st, subst, ss[0]);
      var r := RewriteStmt(tpl, st, subst, ss[0]);
      if r.Done? {
        StmtsFollow(tpl, r.st, active, Expand(tpl, active, seen, us).value, subst, ss[1..]);
      }
    }
  }

  lemma {:induction false} StmtFollows(
    tpl: Templates, st: State, active: set<Template>, seen: set<Instance>, subst: Substitution, s: Stmt)
    requires Here(tpl, st, active, seen) && SubstOk(true, subst) && TidyStmt(s)
    ensures FollowsIf(tpl, active, WellAppliedStmt(tpl, s), RewriteStmt(tpl, st, subst, s),
                      Expand(tpl, active, seen, StmtUses(tpl, subst, s)))
    decreases Idle(tpl, st), StmtSize(s), 1
  {
    SizeOfStmtParts(s);
    hide Idle, Inv, Books, TemplatesOk, SubstOk, Expand, Sound, TypesUses, ExprsUses, BlocksUses, RebuildStmt, StmtTypes, StmtExprs, StmtBlocks,
      AllWellApplied, WellAppliedBlocks;
    var us := TypesUses(subst, StmtTypes(s));
    var vs := ExprsUses(tpl, subst, StmtExprs(s)) + BlocksUses(tpl, subst, StmtBlocks(s));
    ExpandConcat(tpl, active, seen, us, vs);
    TypesFollow(tpl, st, active, seen, subst, StmtTypes(s));
    SoundTypes(true, tpl, st, subst, StmtTypes(s));
    var r := RewriteTypes(tpl, st, subst, StmtTypes(s));
    if r.Done? {
      StmtPartsFollow(tpl, r.st, active, Expand(tpl, active, seen, us).value, subst, s);
    }
  }

  /** The expressions and blocks of a statement. */
  lemma {:induction false} StmtPartsFollow(
    tpl: Templates, st: State, active: set<Template>, seen: set<Instance>, subst: Substitution, s: Stmt)
    requires Here(tpl, st, active, seen) && SubstOk(true, subst) && TidyStmt(s)
    ensures var r := RewriteExprs(tpl, st, subst, StmtExprs(s));
      var x := Expand(tpl, active, seen, ExprsUses(tpl, subst, StmtExprs(s)) + BlocksUses(tpl, subst, StmtBlocks(s)));
      if r.Fail? then !AllWellApplied(tpl, StmtExprs(s)) || x.None?
      else
        FollowsIf(tpl, active, AllWellApplied(tpl, StmtExprs(s)) && WellAppliedBlocks(tpl, StmtBlocks(s)),
                  RewriteBlocks(tpl, r.st, subst, StmtBlocks(s)), x)
    decreases Idle(tpl, st), StmtSize(s), 0
  {
    SizeOfStmtParts(s);
    hide Idle, Inv, Books, TemplatesOk, SubstOk, Expand, Sound, ExprsUses, BlocksUses, StmtTypes, StmtExprs, StmtBlocks,
      AllWellApplied, WellAppliedBlocks;
    var us := ExprsUses(tpl, subst, StmtExprs(s));
    ExpandConcat(tpl, active, seen, us, BlocksUses(tpl, subst, StmtBlocks(s)));
    ExprsFollow(tpl, st, active, seen, subst, StmtExprs(s));
    SoundExprs(true, tpl, st, subst, StmtExprs(s));
    var r := RewriteExprs(tpl, st, subst, StmtExprs(s));
    if r.Done? {
      BlocksFollow(tpl, r.st, active, Expand(tpl, active, seen, us).value, subst, StmtBlocks(s));
    }
  }

  lemma {:induction false} BlocksFollow(
    tpl: Templates, st: State, active: set<Template>, seen: set<Instance>, subst: Substitution, bs: seq<Block>)
    requires Here(tpl, st, active, seen) && SubstOk(true, subst) && TidyBlocks(bs)
    ensures FollowsIf(tpl, active, WellAppliedBlocks(tpl, bs), RewriteBlocks(tpl, st, subst, bs),
                      Expand(tpl, active, seen, BlocksUses(tpl, subst, bs)))
    decreases Idle(tpl, st), BlocksSize(bs), 0
  {
    hide Idle, Inv, Books, TemplatesOk, SubstOk, Expand, Sound;
    if bs == [] {
      ExpandNothing(tpl, active, seen);
    } else {
      var us := StmtsUses(tpl, subst, bs[0].stmts);
      ExpandConcat(tpl, active, seen, us, BlocksUses(tpl, subst, bs[1..]));
      StmtsFollow(tpl, st, active, seen, subst, bs[0].stmts);
      SoundStmts(true, tpl, st, subst, bs[0].stmts);
      var r := RewriteStmts(tpl, st, subst, bs[0].stmts);
      if r.Done? {
        BlocksFollow(tpl, r.st, active, Expand(tpl, active, seen, us).value, subst, bs[1..]);
      }
    }
  }

  // ---------------------------------------------------------------------------
  // Expressions
  // ---------------------------------------------------------------------------

  lemma {:induction false} ExprsFollow(
    tpl: Templates, st: State, active: set<Template>, seen: set<Instance>, subst: Substitution, es: seq<Expr>)
    requires Here(tpl, st, active, seen) && SubstOk(true, subst) && AllTidyExprs(es)
    ensures FollowsIf(tpl, active, AllWellApplied(tpl, es), RewriteExprs(tpl, st, subst, es),
                      Expand(tpl, active, seen, ExprsUses(tpl, subst, es)))
    decreases Idle(tpl, st), ExprsSize(es), 0
  {
    hide Idle, Inv, Books, TemplatesOk, SubstOk, Expand, Sound;
    if es == [] {
      ExpandNothing(tpl, active, seen);
    } else {
      var us := ExprUses(tpl, subst, es[0]);
      ExpandConcat(tpl, active, seen, us, ExprsUses(tpl, subst, es[1..]));
      ExprFollows(tpl, st, active, seen, subst, es[0]);
      SoundExpr(true, tpl, st, subst, es[0]);
      var r := RewriteExpr(tpl, st, subst, es[0]);
      if r.Done? {
        ExprsFollow(tpl, r.st, active, Expand(tpl, active, seen, us).value, subst, es[1..]);
      }
    }
  }

  lemma {:induction false} ExprFollows(
    tpl: Templates, st: State, active: set<Template>, seen: set<Instance>, subst: Substitution, e: Expr)
    requires Here(tpl, st, active, seen) && SubstOk(true, subst) && TidyExpr(e)
    ensures FollowsIf(tpl, active, WellApplied(tpl, e), RewriteExpr(tpl, st, subst, e),
                      Expand(tpl, active, seen, ExprUses(tpl, subst, e)))
    decreases Idle(tpl, st), ExprSize(e), 2
  {
    SizeOfOperands(e);
    UnfoldExpr(tpl, st, subst, e);
    ExprParts(tpl, st, subst, e);
    TidyOperands(true, e);
    hide Idle, Inv, Books, TemplatesOk, SubstOk, Expand, Sound, RewriteExpr, RewriteHead, ExprsUses, TypesUses, NodeUses, ExprUses, TidyExpr,
      WellApplied, AllWellApplied, WellAppliedNode;
    var us, vs := ExprsUses(tpl, subst, Operands(e)), TypesUses(subst, TypesIn(e));
    ExpandConcat(tpl, active, seen, us + vs, NodeUses(tpl, subst, e));
    ExpandConcat(tpl, active, seen, us, vs);
    ExprsFollow(tpl, st, active, seen, subst, Operands(e));
    SoundExprs(true, tpl, st, subst, Operands(e));
    var r1 := RewriteExprs(tpl, st, subst, Operands(e));
    if r1.Done? {
      var seen1 := Expand(tpl, active, seen, us).value;
      TypesFollow(tpl, r1.st, active, seen1, subst, TypesIn(e));
      SoundTypes(true, tpl, r1.st, subst, TypesIn(e));
      var r2 := RewriteTypes(tpl, r1.st, subst, TypesIn(e));
      if r2.Done? {
        HeadFollows(tpl, r2.st, active, Expand(tpl, active, seen1, vs).value, subst, e, r2.value, r1.value);
      }
    }
  }

  /** The node itself, with its receiver. */
  predicate WellAppliedNode(tpl: Templates, e: Expr) {
    WellAppliedHead(tpl, e) && (e.MethodCall? && !ConstructsInstance(tpl, e.receiver) ==> WellApplied(tpl, e.receiver))
  }

  lemma ExprParts(tpl: Templates, st: State, subst: Substitution, e: Expr)
    ensures WellApplied(tpl, e) <==> AllWellApplied(tpl, Operands(e)) && WellAppliedNode(tpl, e)
    ensures ExprUses(tpl, subst, e)
         == (ExprsUses(tpl, subst, Operands(e)) + TypesUses(subst, TypesIn(e))) + NodeUses(tpl, subst, e)
    ensures var r1 := RewriteExprs(tpl, st, subst, Operands(e));
      if r1.Fail? then RewriteExpr(tpl, st, subst, e).Fail?
      else RewriteTypes(tpl, r1.st, subst, TypesIn(e)).Fail? ==> RewriteExpr(tpl, st, subst, e).Fail?
  {
    hide RewriteExprs, RewriteTypes, ExprsUses, TypesUses, NodeUses;
  }

  lemma {:induction false} HeadFollows(
    tpl: Templates, st: State, active: set<Template>, seen: set<Instance>, subst: Substitution, e: Expr,
    types: seq<Type>, operands: seq<Expr>)
    requires Here(tpl, st, active, seen) && SubstOk(true, subst) && TidyExpr(e)
    requires types == FlatTypes(subst, TypesIn(e)) && operands == FlatExprs(tpl, subst, Operands(e))
    ensures FollowsIf(tpl, active, WellAppliedNode(tpl, e), RewriteHead(tpl, st, subst, e, types, operands),
                      Expand(tpl, active, seen, NodeUses(tpl, subst, e)))
    decreases Idle(tpl, st), ExprSize(e), 1
  {
    hide Idle, Inv, Books, TemplatesOk, SubstOk, Expand, TidyExpr, FlatTypes, FlatExprs, ArgsOk, FollowsIf, RewriteCall, RewriteMethodCall,
      RewriteStructInit, WellAppliedNode, NodeUses, Here;
    HeadArgsOk(true, subst, e);
    match e
    case Call(_, _, _) => CallFollows(tpl, st, active, seen, subst, e, types, operands);
    case MethodCall(_, _, _, _) => MethodFollows(tpl, st, active, seen, subst, e, types, operands);
    case StructInit(_, _, _) => StructFollows(tpl, st, active, seen, subst, e, types, operands);
    case _ => OtherFollows(tpl, st, active, seen, subst, e, types, operands);
  }

  lemma OtherFollows(
    tpl: Templates, st: State, active: set<Template>, seen: set<Instance>, subst: Substitution, e: Expr,
    types: seq<Type>, operands: seq<Expr>)
    requires !e.Call? && !e.MethodCall? && !e.StructInit? && Here(tpl, st, active, seen)
    requires |types| == |TypesIn(e)| && |operands| == |Operands(e)|
    ensures FollowsIf(tpl, active, WellAppliedNode(tpl, e), RewriteHead(tpl, st, subst, e, types, operands),
                      Expand(tpl, active, seen, NodeUses(tpl, subst, e)))
  {
    hide Inv, Books, TemplatesOk, Expand, WellAppliedNode, NodeUses, Rebuild;
    OtherNode(tpl, subst, e);
    ExpandNothing(tpl, active, seen);
  }

  lemma OtherNode(tpl: Templates, subst: Substitution, e: Expr)
    requires !e.Call? && !e.MethodCall? && !e.StructInit?
    ensures WellAppliedNode(tpl, e) && NodeUses(tpl, subst, e) == []
  {
    hide FlatTypes;
  }

  lemma {:induction false} CallFollows(
    tpl: Templates, st: State, active: set<Template>, seen: set<Instance>, subst: Substitution, e: Expr,
    types: seq<Type>, operands: seq<Expr>)
    requires e.Call? && Here(tpl, st, active, seen)
    requires types == FlatTypes(subst, TypesIn(e)) && |operands| == |e.args|
    requires !IsSizeof(e.callee) ==> ArgsOk(true, types)
    ensures FollowsIf(tpl, active, WellAppliedNode(tpl, e), RewriteCall(tpl, st, e.callee, types, operands),
                      Expand(tpl, active, seen, NodeUses(tpl, subst, e)))
    decreases Idle(tpl, st), 0, 1
  {
    hide Idle, Inv, Books, TemplatesOk, Expand, FlatTypes, ArgsOk, AllKeyable;
    var i := FunctionInst(e.callee, types);
    ExpandNothing(tpl, active, seen);
    if !IsSizeof(e.callee) && e.callee in tpl.functions {
      AllKeyableArgs(types);
      InstanceFollows(tpl, st, active, seen, i);
      assert NodeUses(tpl, subst, e) == [i];
    } else {
      assert NodeUses(tpl, subst, e) == [];
    }
  }

  lemma {:induction false} StructFollows(
    tpl: Templates, st: State, active: set<Template>, seen: set<Instance>, subst: Substitution, e: Expr,
    types: seq<Type>, operands: seq<Expr>)
    requires e.StructInit? && Here(tpl, st, active, seen)
    requires types == FlatTypes(subst, TypesIn(e)) && |operands| == |e.fields| && ArgsOk(true, types)
    ensures FollowsIf(tpl, active, WellAppliedNode(tpl, e),
                      RewriteStructInit(tpl, st, e.struct, types, WithFieldValues(e.fields, operands)),
                      Expand(tpl, active, seen, NodeUses(tpl, subst, e)))
    decreases Idle(tpl, st), 0, 1
  {
    hide Idle, Inv, Books, TemplatesOk, Expand, FlatTypes, ArgsOk, AllKeyable;
    var i := TypeInst(e.struct, types);
    ExpandNothing(tpl, active, seen);
    if e.struct in tpl.structs {
      AllKeyableArgs(types);
      InstanceFollows(tpl, st, active, seen, i);
      assert NodeUses(tpl, subst, e) == [i];
    } else {
      assert NodeUses(tpl, subst, e) == [];
    }
  }

  lemma {:induction false} MethodFollows(
    tpl: Templates, st: State, active: set<Template>, seen: set<Instance>, subst: Substitution, e: Expr,
    types: seq<Type>, operands: seq<Expr>)
    requires e.MethodCall? && Here(tpl, st, active, seen) && SubstOk(true, subst) && TidyExpr(e)
    requires types == FlatTypes(subst, TypesIn(e)) && |operands| == |e.args| && ArgsOk(true, types)
    ensures FollowsIf(tpl, active, WellAppliedNode(tpl, e),
                      RewriteMethodCall(tpl, st, subst, e.receiver, e.methodName, types, operands),
                      Expand(tpl, active, seen, NodeUses(tpl, subst, e)))
    decreases Idle(tpl, st), ExprSize(e), 0
  {
    hide Idle, Inv, Books, TemplatesOk, Expand, FlatTypes, ArgsOk, AllKeyable, SubstOk, FollowsIf, RewriteMethodCall, WellAppliedNode,
      NodeUses, TidyExpr;
    AllKeyableArgs(types);
    SizeOfOperands(e);
    if ConstructsInstance(tpl, e.receiver) {
      ConstructorFollows(tpl, st, active, seen, subst, e, types, operands);
    } else if e.methodName in tpl.functions {
      GenericMethodFollows(tpl, st, active, seen, subst, e, types, operands);
    } else {
      PlainMethodFollows(tpl, st, active, seen, subst, e, types, operands);
    }
  }

  lemma {:induction false} PlainMethodFollows(
    tpl: Templates, st: State, active: set<Template>, seen: set<Instance>, subst: Substitution, e: Expr,
    types: seq<Type>, operands: seq<Expr>)
    requires e.MethodCall? && Here(tpl, st, active, seen) && SubstOk(true, subst) && TidyExpr(e)
    requires !ConstructsInstance(tpl, e.receiver) && e.methodName !in tpl.functions
    requires types == FlatTypes(subst, TypesIn(e)) && |operands| == |e.args|
    ensures FollowsIf(tpl, active, WellAppliedNode(tpl, e),
                      RewriteMethodCall(tpl, st, subst, e.receiver, e.methodName, types, operands),
                      Expand(tpl, active, seen, NodeUses(tpl, subst, e)))
    decreases Idle(tpl, st), 1 + ExprSize(e.receiver), 0
  {
    PlainMethod(tpl, st, subst, e, types, operands);
    hide Idle, Inv, Books, TemplatesOk, Expand, FlatTypes, SubstOk, WellApplied, TidyExpr, NodeUses, ExprUses, RewriteMethodCall,
      RewriteExpr, WellAppliedNode;
    ReceiverTidy(e);
    ExprFollows(tpl, st, active, seen, subst, e.receiver);
  }

  lemma PlainMethod(tpl: Templates, st: State, subst: Substitution, e: Expr, types: seq<Type>, operands: seq<Expr>)
    requires e.MethodCall? && !ConstructsInstance(tpl, e.receiver) && e.methodName !in tpl.functions
    requires types == FlatTypes(subst, TypesIn(e))
    ensures NodeUses(tpl, subst, e) == ExprUses(tpl, subst, e.receiver)
    ensures WellAppliedNode(tpl, e) <==> e.typeArgs == [] && WellApplied(tpl, e.receiver)
    ensures var r := RewriteMethodCall(tpl, st, subst, e.receiver, e.methodName, types, operands);
      var self := RewriteExpr(tpl, st, subst, e.receiver);
      (r.Done? <==> e.typeArgs == [] && self.Done?) && (r.Done? ==> r.st == self.st)
  {
    hide FlatTypes, WellApplied, ExprUses, RewriteExpr;
    assert [] + ExprUses(tpl, subst, e.receiver) == ExprUses(tpl, subst, e.receiver);
  }

  lemma ReceiverTidy(e: Expr)
    requires e.MethodCall? && TidyExpr(e)
    ensures TidyExpr(e.receiver)
  {
  }

  lemma {:induction false} ConstructorFollows(
    tpl: Templates, st: State, active: set<Template>, seen: set<Instance>, subst: Substitution, e: Expr,
    types: seq<Type>, operands: seq<Expr>)
    requires e.MethodCall? && Here(tpl, st, active, seen) && ConstructsInstance(tpl, e.receiver)
    requires types == FlatTypes(subst, TypesIn(e)) && |operands| == |e.args| && AllKeyable(types)
    ensures FollowsIf(tpl, active, WellAppliedNode(tpl, e),
                      RewriteMethodCall(tpl, st, subst, e.receiver, e.methodName, types, operands),
                      Expand(tpl, active, seen, NodeUses(tpl, subst, e)))
    decreases Idle(tpl, st), 0, 1
  {
    hide Idle, Inv, Books, TemplatesOk, Expand, FlatTypes, AllKeyable;
    var i := TypeInst(e.receiver.name, types);
    InstanceFollows(tpl, st, active, seen, i);
    assert NodeUses(tpl, subst, e) == [i];
  }

  lemma {:induction false} GenericMethodFollows(
    tpl: Templates, st: State, active: set<Template>, seen: set<Instance>, subst: Substitution, e: Expr,
    types: seq<Type>, operands: seq<Expr>)
    requires e.MethodCall? && Here(tpl, st, active, seen) && SubstOk(true, subst) && TidyExpr(e)
    requires !ConstructsInstance(tpl, e.receiver) && e.methodName in tpl.functions
    requires types == FlatTypes(subst, TypesIn(e)) && |operands| == |e.args| && ArgsOk(true, types) && AllKeyable(types)
    ensures FollowsIf(tpl, active, WellAppliedNode(tpl, e),
                      RewriteMethodCall(tpl, st, subst, e.receiver, e.methodName, types, operands),
                      Expand(tpl, active, seen, NodeUses(tpl, subst, e)))
    decreases Idle(tpl, st), 1 + ExprSize(e.receiver), 0
  {
    hide Idle, Inv, Books, TemplatesOk, Expand, FlatTypes, ArgsOk, AllKeyable, SubstOk, WellApplied, Sound;
    var i := FunctionInst(e.methodName, types);
    var us := ExprUses(tpl, subst, e.receiver);
    assert NodeUses(tpl, subst, e) == [i] + us;
    ExpandConcat(tpl, active, seen, [i], us);
    ExpandOne(tpl, active, seen, i);
    InstanceFollows(tpl, st, active, seen, i);
    SoundInstantiateFunction(true, tpl, st, e.methodName, types);
    var r := InstantiateFunction(tpl, st, e.methodName, types);
    if r.Done? {
      ExprFollows(tpl, r.st, active, Expand(tpl, active, seen, [i]).value, subst, e.receiver);
    }
  }

  // ---------------------------------------------------------------------------
  // Items
  // ---------------------------------------------------------------------------

  lemma {:induction false} ItemsFollow(tpl: Templates, st: State, active: set<Template>, seen: set<Instance>, items: seq<Item>)
    requires Here(tpl, st, active, seen) && Tidy(items)
    ensures FollowsIf(tpl, active, forall item | item in items :: WellAppliedItem(tpl, item), RewriteItems(tpl, st, items),
                      Expand(tpl, active, seen, ItemsUses(tpl, items)))
    decreases |items|
  {
    hide Idle, Inv, Books, TemplatesOk, Expand, Sound, TidyItem, WellAppliedItem, RewriteItem, ItemUses;
    if items == [] {
      ExpandNothing(tpl, active, seen);
    } else {
      var us := ItemUses(tpl, items[0]);
      ExpandConcat(tpl, active, seen, us, ItemsUses(tpl, items[1..]));
      ItemFollows(tpl, st, active, seen, items[0]);
      SoundItem(true, tpl, st, items[0]);
      AllItems(tpl, items);
      var r := RewriteItem(tpl, st, items[0]);
      if r.Done? {
        ItemsFollow(tpl, r.st, active, Expand(tpl, active, seen, us).value, items[1..]);
      }
    }
  }

  lemma AllItems(tpl: Templates, items: seq<Item>)
    requires items != []
    ensures (forall item | item in items :: WellAppliedItem(tpl, item))
      <==> WellAppliedItem(tpl, items[0]) && forall item | item in items[1..] :: WellAppliedItem(tpl, item)
  {
    hide WellAppliedItem;
    assert items == [items[0]] + items[1..];
  }

  lemma ItemFollows(tpl: Templates, st: State, active: set<Template>, seen: set<Instance>, item: Item)
    requires Here(tpl, st, active, seen) && TidyItem(item)
    ensures FollowsIf(tpl, active, WellAppliedItem(tpl, item), RewriteItem(tpl, st, item),
                      Expand(tpl, active, seen, ItemUses(tpl, item)))
  {
    hide Idle, Inv, Books, TemplatesOk, Expand, SubstOk, TypesUses, FunctionUses, RewriteTypes, RewriteFunction, AllTidyTypes, TidyStmts,
      SignatureTypes, WellAppliedStmts, ItemUses, RewriteItem, WellAppliedItem;
    ExpandNothing(tpl, active, seen);
    NoSubstOk();
    if IsTemplate(item) || item.ImportItem? || item.ExternItem? {
      SilentItem(tpl, st, item);
    } else {
      match item
      case FunctionItem(f) =>
        FunctionStage(tpl, st, item);
        FunctionFollows(tpl, st, active, seen, map[], f);
      case StructItem(def) =>
        StructStage(tpl, st, item);
        TypesFollow(tpl, st, active, seen, map[], ParamTypes(def.fields));
      case EnumItem(def) =>
        EnumStage(tpl, st, item);
        TypesFollow(tpl, st, active, seen, map[], PayloadTypes(def.variants));
      case StaticItem(global) => StaticFollows(tpl, st, active, seen, global);
      case _ =>
    }
  }

  lemma NoSubstOk()
    ensures SubstOk(true, map[])
  {
  }

  // What rewriting an item comes down to.

  lemma SilentItem(tpl: Templates, st: State, item: Item)
    requires IsTemplate(item) || item.ImportItem? || item.ExternItem?
    ensures var r := RewriteItem(tpl, st, item);
      ItemUses(tpl, item) == [] && (r.Done? <==> WellAppliedItem(tpl, item)) && (r.Done? ==> r.st == st)
  {
    hide RewriteTypes, RewriteFunction, RewriteType, RewriteExprs, RewriteStruct, RewriteEnum, FunctionUses, TypesUses;
  }

  lemma FunctionStage(tpl: Templates, st: State, item: Item)
    requires !IsTemplate(item) && item.FunctionItem?
    ensures var r, f := RewriteItem(tpl, st, item), RewriteFunction(tpl, st, map[], item.fn);
      (r.Done? <==> f.Done?) && (r.Done? ==> r.st == f.st) && ItemUses(tpl, item) == FunctionUses(tpl, map[], item.fn)
      && (WellAppliedItem(tpl, item) <==> WellAppliedStmts(tpl, item.fn.body.stmts))
  {
    hide RewriteFunction, FunctionUses, WellAppliedStmts;
  }

  lemma StructStage(tpl: Templates, st: State, item: Item)
    requires !IsTemplate(item) && item.StructItem?
    ensures var types := ParamTypes(item.structDef.fields);
      var r, ts := RewriteItem(tpl, st, item), RewriteTypes(tpl, st, map[], types);
      (r.Done? <==> ts.Done?) && (r.Done? ==> r.st == ts.st) && ItemUses(tpl, item) == TypesUses(map[], types)
      && WellAppliedItem(tpl, item)
  {
    hide RewriteTypes, TypesUses;
  }

  lemma EnumStage(tpl: Templates, st: State, item: Item)
    requires !IsTemplate(item) && item.EnumItem?
    ensures var types := PayloadTypes(item.enumDef.variants);
      var r, ts := RewriteItem(tpl, st, item), RewriteTypes(tpl, st, map[], types);
      (r.Done? <==> ts.Done?) && (r.Done? ==> r.st == ts.st) && ItemUses(tpl, item) == TypesUses(map[], types)
      && WellAppliedItem(tpl, item)
  {
    hide RewriteTypes, TypesUses;
  }

  lemma StaticFollows(tpl: Templates, st: State, active: set<Template>, seen: set<Instance>, global: Static)
    requires Here(tpl, st, active, seen) && TidyItem(StaticItem(global))
    ensures FollowsIf(tpl, active, WellAppliedItem(tpl, StaticItem(global)), RewriteItem(tpl, st, StaticItem(global)),
                      Expand(tpl, active, seen, ItemUses(tpl, StaticItem(global))))
  {
    hide Idle, Inv, Books, TemplatesOk, Expand, SubstOk, Sound, TypeUses, ExprsUses, RewriteType, RewriteExprs, TidyType, AllTidyExprs,
      AllWellApplied, OptionList, RewriteItem;
    NoSubstOk();
    StaticStage(tpl, st, global);
    var us := TypeUses(map[], global.ty);
    ExpandConcat(tpl, active, seen, us, ExprsUses(tpl, map[], OptionList(global.init)));
    TypeFollows(tpl, st, active, seen, map[], global.ty);
    SoundType(true, tpl, st, map[], global.ty);
    var r := RewriteType(tpl, st, map[], global.ty);
    if r.Done? {
      ExprsFollow(tpl, r.st, active, Expand(tpl, active, seen, us).value, map[], OptionList(global.init));
    }
  }

  lemma StaticStage(tpl: Templates, st: State, global: Static)
    ensures var r, ty := RewriteItem(tpl, st, StaticItem(global)), RewriteType(tpl, st, map[], global.ty);
      if ty.Fail? then r.Fail?
      else
        var init := RewriteExprs(tpl, ty.st, map[], OptionList(global.init));
        (r.Done? <==> init.Done?) && (r.Done? ==> r.st == init.st)
  {
    hide RewriteType, RewriteExprs;
  }

  /** A program without repeated definitions is rewritten exactly if its plain items are well applied and
      the instances they use can be expanded. */
  lemma RewritesIffExpands(items: seq<Item>)
    requires Tidy(items) && Collect(items).Ok?
    ensures var tpl := TemplatesOf(items);
      Monomorphize(items).Ok?
      <==> (forall item | item in items :: WellAppliedItem(tpl, item)) && Expand(tpl, {}, {}, ItemsUses(tpl, items)).Some?
  {
    var tpl := TemplatesOf(items);
    StartInv(true, tpl);
    TidyTemplates(items);
    TemplatesAreGeneric(items);
    hide Inv, TemplatesOk, Expand, WellAppliedItem, ItemsUses, RewriteItems, TemplatesOf, Tidy;
    assert Books(tpl, Start, {}, {});
    ItemsFollow(tpl, Start, {}, {}, items);
  }

  lemma {:induction false} TemplatesAreGeneric(items: seq<Item>)
    ensures forall f | f in FunctionTemplates(items) :: FunctionTemplates(items)[f].proto.typeParams != []
    decreases |items|
  {
    if items != [] {
      TemplatesAreGeneric(items[1..]);
    }
  }
}
