/** The patterns of a switch, as semantic analysis checks them against the enum and each other. */
module Patterns {
  import opened Ast
  import opened Wrappers
  import opened Values
  import opened Names
  import opened Control

  /** The pattern names a variant of the enum, and a variable exactly if the variant has a payload. */
  predicate PatternFits(enum: string, variants: seq<EnumVariant>, p: Pattern)
    requires p.Variant?
  {
    var index := VariantIndex(variants, p.variant);
    (p.enum == enum || InstanceOf(enum, p.enum)) && index.Some?
    && (variants[index.value].payload.Some? <==> p.binding.Some?)
  }

  predicate NamesVariant(arm: Arm, name: string) {
    arm.pattern.Variant? && arm.pattern.variant == name
  }

  predicate NamesOne(arms: seq<Arm>, name: string) {
    exists i | 0 <= i < |arms| :: NamesVariant(arms[i], name)
  }

  /** No two arms name the same variant. */
  predicate ArmsDistinct(arms: seq<Arm>) {
    forall i, j | 0 <= i < j < |arms| && arms[i].pattern.Variant? :: !NamesVariant(arms[j], arms[i].pattern.variant)
  }

  predicate AcceptedSwitch(enum: string, variants: seq<EnumVariant>, arms: seq<Arm>) {
    && WildcardLast(arms)
    && (forall i | 0 <= i < |arms| && arms[i].pattern.Variant? :: PatternFits(enum, variants, arms[i].pattern))
    && ArmsDistinct(arms)
    && ((exists i | 0 <= i < |arms| :: arms[i].pattern.Wildcard?)
        || forall k | 0 <= k < |variants| :: NamesOne(arms, variants[k].name))
  }

  /** The check of a switch. */
  method CheckSwitch(enum: string, variants: seq<EnumVariant>, arms: seq<Arm>) returns (ok: bool)
    ensures ok <==> AcceptedSwitch(enum, variants, arms)
  {
    var seen, wildcard;
    ok, seen, wildcard := CheckPatterns(enum, variants, arms);
    if !ok || wildcard { return; }
    for k := 0 to |variants|
      invariant forall j | 0 <= j < k :: NamesOne(arms, variants[j].name)
    {
      if variants[k].name !in seen {
        return false;
      }
    }
  }

  /** The arms, one after the other, with the variants they name. */
  method CheckPatterns(enum: string, variants: seq<EnumVariant>, arms: seq<Arm>)
    returns (ok: bool, seen: set<string>, wildcard: bool)
    ensures ok <==>
      WildcardLast(arms) && ArmsDistinct(arms)
      && forall i | 0 <= i < |arms| && arms[i].pattern.Variant? :: PatternFits(enum, variants, arms[i].pattern)
    ensures ok ==> forall name :: name in seen <==> NamesOne(arms, name)
    ensures ok ==> (wildcard <==> exists i | 0 <= i < |arms| :: arms[i].pattern.Wildcard?)
  {
    hide PatternFits, NamesOne;
    seen, wildcard := {}, false;
    NamesNone(arms);
    for i := 0 to |arms|
      invariant forall k | 0 <= k < i && arms[k].pattern.Variant? :: PatternFits(enum, variants, arms[k].pattern)
      invariant forall name :: name in seen <==> NamesOne(arms[..i], name)
      invariant ArmsDistinct(arms[..i])
      invariant forall k | 0 <= k < i && k < |arms| - 1 :: !arms[k].pattern.Wildcard?
      invariant wildcard <==> exists k | 0 <= k < i :: arms[k].pattern.Wildcard?
    {
      var p := arms[i].pattern;
      if p.Wildcard? {
        if wildcard || i + 1 != |arms| { return false, seen, wildcard; }
        wildcard := true;
      } else {
        if !PatternFits(enum, variants, p) { return false, seen, wildcard; }
        if p.variant in seen {
          SeenTwice(arms, i);
          return false, seen, wildcard;
        }
        seen := seen + {p.variant};
      }
      NamesOneMore(arms, i);
      OneMoreDistinct(arms, i);
    }
    assert arms[..|arms|] == arms;
    ok := true;
  }

  lemma NamesNone(arms: seq<Arm>)
    ensures forall name :: !NamesOne(arms[..0], name)
  {
  }

  lemma OneMoreDistinct(arms: seq<Arm>, i: nat)
    requires i < |arms| && ArmsDistinct(arms[..i])
    requires arms[i].pattern.Variant? ==> !NamesOne(arms[..i], arms[i].pattern.variant)
    ensures ArmsDistinct(arms[..i + 1])
  {
    var more := arms[..i + 1];
    forall j, k | 0 <= j < k < |more| && more[j].pattern.Variant? ensures !NamesVariant(more[k], more[j].pattern.variant) {
      assert more[j] == arms[..i][j];
      if k < i {
        assert more[k] == arms[..i][k];
      }
    }
  }

  lemma NamesOneMore(arms: seq<Arm>, i: nat)
    requires i < |arms|
    ensures forall name :: NamesOne(arms[..i + 1], name) <==> NamesOne(arms[..i], name) || NamesVariant(arms[i], name)
  {
    forall name ensures NamesOne(arms[..i + 1], name) <==> NamesOne(arms[..i], name) || NamesVariant(arms[i], name) {
      if NamesOne(arms[..i], name) {
        var k :| 0 <= k < i && NamesVariant(arms[..i][k], name);
        assert NamesVariant(arms[..i + 1][k], name);
      }
      if NamesVariant(arms[i], name) {
        assert NamesVariant(arms[..i + 1][i], name);
      }
      if NamesOne(arms[..i + 1], name) {
        var k :| 0 <= k < i + 1 && NamesVariant(arms[..i + 1][k], name);
        if k < i {
          assert NamesVariant(arms[..i][k], name);
        }
      }
    }
  }

  lemma SeenTwice(arms: seq<Arm>, i: nat)
    requires i < |arms| && arms[i].pattern.Variant? && NamesOne(arms[..i], arms[i].pattern.variant)
    ensures !ArmsDistinct(arms)
  {
    var k :| 0 <= k < i && NamesVariant(arms[..i][k], arms[i].pattern.variant);
    assert NamesVariant(arms[i], arms[k].pattern.variant);
  }

  /** A switch over an instance may name the instance or its template in a pattern, and no other enum. */
  lemma PatternNamesEnum(template: string, args: seq<Type>, variants: seq<EnumVariant>, p: Pattern)
    requires p.Variant?
    ensures PatternFits(Mangle(template, args), variants, p)
      <==> (p.enum == Mangle(template, args) || p.enum == template)
           && VariantIndex(variants, p.variant).Some?
           && (variants[VariantIndex(variants, p.variant).value].payload.Some? <==> p.binding.Some?)
  {
    hide InstanceOf, Mangle;
    InstanceOfMangle(template, args, p.enum);
  }

  /** A switch over any other enum may name only that enum. */
  lemma PatternNamesPlainEnum(enum: string, variants: seq<EnumVariant>, p: Pattern)
    requires p.Variant? && !Reserved(enum)
    ensures PatternFits(enum, variants, p) ==> p.enum == enum
  {
    InstanceIsReserved(enum, p.enum);
    hide InstanceOf;
  }

  lemma InstanceIsReserved(name: string, template: string)
    ensures InstanceOf(name, template) ==> Reserved(name)
  {
    if InstanceOf(name, template) {
      assert InstanceMark <= InstancePrefix(template) <= name;
    }
  }
}
