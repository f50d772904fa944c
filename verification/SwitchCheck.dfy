/** What an accepted switch does: its jump table is complete, and the right arm gets the payload. */
module SwitchCheck {
  import opened Ast
  import opened Wrappers
  import opened Values
  import opened Graph
  import opened Source
  import opened Control
  import opened Names
  import opened Patterns
  import opened Lower
  import opened LowerRuns

  // ---------------------------------------------------------------------------
  // What an accepted switch does
  // ---------------------------------------------------------------------------

  /** The arm for a variant: the one that names it, or else the wildcard. */
  predicate RightArm(variants: seq<EnumVariant>, arms: seq<Arm>, tag: nat, i: nat) {
    tag < |variants| && i < |arms|
    && (NamesVariant(arms[i], variants[tag].name) || (arms[i].pattern.Wildcard? && !NamesOne(arms, variants[tag].name)))
  }

  /** An accepted switch has exactly one arm for every variant; the source chooses it and the jump
      table leads to it, not to the trap. */
  lemma SwitchIsComplete(enum: string, variants: seq<EnumVariant>, arms: seq<Arm>, tag: nat, first: nat) returns (i: nat)
    requires AcceptedSwitch(enum, variants, arms) && DistinctNames(variants) && tag < |variants|
    ensures RightArm(variants, arms, tag, i)
    ensures forall j: nat | RightArm(variants, arms, tag, j) :: j == i
    ensures SelectArm(variants, arms, tag) == Some(i)
    ensures SwitchCases(variants, arms, first).Some?
    ensures Case(SwitchCases(variants, arms, first).value, tag, Otherwise(arms, first)) == first + i
  {
    CasesExist(enum, variants, arms, first);
    CaseSelects(variants, arms, first, tag);
    var k := SomeArmMatches(enum, variants, arms, tag);
    i := SelectArm(variants, arms, tag).value;
    NamedMatches(variants, arms, tag);
    forall j: nat | RightArm(variants, arms, tag, j) ensures j == i {
      assert Matches(variants, arms[j].pattern, tag);
    }
  }

  lemma SomeArmMatches(enum: string, variants: seq<EnumVariant>, arms: seq<Arm>, tag: nat) returns (k: nat)
    requires AcceptedSwitch(enum, variants, arms) && tag < |variants|
    ensures k < |arms| && Matches(variants, arms[k].pattern, tag)
  {
    if exists i | 0 <= i < |arms| :: arms[i].pattern.Wildcard? {
      k :| k < |arms| && arms[k].pattern.Wildcard?;
    } else {
      assert NamesOne(arms, variants[tag].name);
      k :| k < |arms| && NamesVariant(arms[k], variants[tag].name);
    }
  }

  lemma NamedMatches(variants: seq<EnumVariant>, arms: seq<Arm>, tag: nat)
    requires tag < |variants|
    ensures forall k | 0 <= k < |arms| ::
      Matches(variants, arms[k].pattern, tag) <==> arms[k].pattern.Wildcard? || NamesVariant(arms[k], variants[tag].name)
  {
  }

  lemma {:induction false} CasesExist(enum: string, variants: seq<EnumVariant>, arms: seq<Arm>, first: nat)
    requires forall i | 0 <= i < |arms| && arms[i].pattern.Variant? :: PatternFits(enum, variants, arms[i].pattern)
    ensures SwitchCases(variants, arms, first).Some?
    decreases |arms|
  {
    if arms != [] {
      CasesExist(enum, variants, arms[1..], first + 1);
      if arms[0].pattern.Variant? {
        assert PatternFits(enum, variants, arms[0].pattern);
      }
    }
  }

  /** The value that a constructor makes, in the scope of the arm that its variant selects: the
      variable is bound to the payload, converted to the type of the variant. */
  lemma ConstructedIsBound(
    cx: Context, frames: Frames, trace: seq<Event>, enum: string, variant: string, args: seq<Expr>, arms: seq<Arm>)
    returns (i: nat)
    requires enum in cx.enums && DistinctNames(cx.enums[enum]) && AcceptedSwitch(enum, cx.enums[enum], arms)
    requires EvalExpr(cx, frames, trace, MethodCall(Var(enum), variant, [], args)).Got?
    ensures
      var v := EvalExpr(cx, frames, trace, MethodCall(Var(enum), variant, [], args)).value;
      var variants := cx.enums[enum];
      var tag := VariantIndex(variants, variant);
      && v.EnumVal? && v.enum == enum && tag == Some(v.tag) && RightArm(variants, arms, v.tag, i)
      && SelectArm(variants, arms, v.tag) == Some(i)
      && match variants[v.tag].payload
         case None => ArmScope(cx, arms[i].pattern, v) == Some(map[])
         case Some(ty) =>
           |args| == 1 && EvalExpr(cx, frames, trace, args[0]).Got?
           && var w := Convert(EvalExpr(cx, frames, trace, args[0]).value, ty);
              w.Some? && v.payload == w
              && ArmScope(cx, arms[i].pattern, v)
                 == Some(if arms[i].pattern.Wildcard? then map[] else map[arms[i].pattern.binding.value := w.value])
  {
    hide InstanceOf;
    var v := EvalExpr(cx, frames, trace, MethodCall(Var(enum), variant, [], args)).value;
    var variants := cx.enums[enum];
    i := SwitchIsComplete(enum, variants, arms, v.tag, 0);
    var p := arms[i].pattern;
    if p.Variant? {
      assert PatternFits(enum, variants, p);
      SameIndex(variants, p.variant, v.tag);
    }
    if v.payload.Some? {
      ConvertTwice(EvalExpr(cx, frames, trace, args[0]).value, variants[v.tag].payload.value);
    }
  }

  lemma SameIndex(variants: seq<EnumVariant>, name: string, tag: nat)
    requires DistinctNames(variants) && tag < |variants| && variants[tag].name == name
    ensures VariantIndex(variants, name) == Some(tag)
  {
  }

  lemma ConvertTwice(v: Value, t: Type)
    requires Convert(v, t).Some?
    ensures Convert(Convert(v, t).value, t) == Convert(v, t)
  {
  }

  /** The same for a value that was initialised to zero: it is the first variant, with a payload of
      zero. */
  lemma ZeroIsBound(cx: Context, enum: string, arms: seq<Arm>) returns (i: nat)
    requires enum in cx.enums && cx.enums[enum] != [] && DistinctNames(cx.enums[enum])
    requires AcceptedSwitch(enum, cx.enums[enum], arms)
    ensures
      var variants := cx.enums[enum];
      var v := EnumVal(enum, 0, None);
      Zero(cx.enums, Named(enum)) == Some(v) && SelectArm(variants, arms, 0) == Some(i) && RightArm(variants, arms, 0, i)
      && ArmScope(cx, arms[i].pattern, v)
         == if arms[i].pattern.Wildcard? || variants[0].payload.None? then Some(map[])
            else if Zero(cx.enums, variants[0].payload.value).None? then None
            else Some(map[arms[i].pattern.binding.value := Zero(cx.enums, variants[0].payload.value).value])
  {
    hide InstanceOf;
    var variants := cx.enums[enum];
    i := SwitchIsComplete(enum, variants, arms, 0, 0);
    var p := arms[i].pattern;
    if p.Variant? {
      assert PatternFits(enum, variants, p);
      SameIndex(variants, p.variant, 0);
    }
  }
}
