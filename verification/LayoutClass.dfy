/** The computation of sizes as it runs: a set of types in progress that grows and shrinks, and
    running totals. Every method is proved to return what the functions of Layout.dfy return. */
module LayoutClass {
  import opened Ast
  import opened Wrappers
  import opened Layout

  class Sizer {
    const defs: Defs
    var visiting: set<string>

    constructor (defs: Defs)
      ensures this.defs == defs && visiting == {}
    {
      this.defs := defs;
      visiting := {};
    }

    /** The size of a type from the outside. */
    method Size(t: Type) returns (r: Option<nat>)
      modifies this
      ensures r == StorageSize(defs, {}, t)
    {
      visiting := {};
      r := SizeInner(t);
    }

    /** After an error the set of types in progress is not used again. */
    method SizeInner(t: Type) returns (r: Option<nat>)
      modifies this
      ensures r == StorageSize(defs, old(visiting), t)
      ensures r.Some? ==> visiting == old(visiting)
      decreases defs.Names() - visiting, t, 1
    {
      if ScalarSize(t).Some? {
        r := ScalarSize(t);
      } else if t.Array? {
        r := SizeInner(t.element);
        if r.Some? {
          r := Some(Align8(r.value) * t.length);
        }
      } else if t.Tuple? {
        r := Total(t.elements);
      } else if t.Named? {
        r := SizeNamed(t.name);
      } else {
        r := None;
      }
    }

    method SizeNamed(name: string) returns (r: Option<nat>)
      modifies this
      ensures r == StorageSize(defs, old(visiting), Named(name))
      ensures r.Some? ==> visiting == old(visiting)
      decreases defs.Names() - visiting, Named(name), 0
    {
      if name in visiting {
        return None;
      }
      if name !in defs.enums && name !in defs.structs {
        return None;
      }
      visiting := visiting + {name};
      if name in defs.enums {
        r := Largest(PayloadTypes(defs.enums[name]));
        if r.Some? {
          r := Some(8 + Align8(Max(r.value, 1)));
        }
      } else {
        r := Total(ParamTypes(defs.structs[name]));
      }
      if r.Some? {
        visiting := visiting - {name};
      }
    }

    method Total(ts: seq<Type>) returns (r: Option<nat>)
      modifies this
      ensures r == TotalSize(defs, old(visiting), ts)
      ensures r.Some? ==> visiting == old(visiting)
      decreases defs.Names() - visiting, ts, 0
    {
      hide StorageSize;
      var total := 0;
      for i := 0 to |ts|
        invariant visiting == old(visiting)
        invariant TotalSize(defs, visiting, ts[..i]) == Some(total)
      {
        assert ts[..i + 1][..i] == ts[..i] && ts[..i + 1][i] == ts[i];
        var size := SizeInner(ts[i]);
        if size.None? {
          FailsAfter(defs, old(visiting), ts, i + 1);
          return None;
        }
        total := total + Align8(size.value);
      }
      assert ts[..|ts|] == ts;
      return Some(total);
    }

    method Largest(ts: seq<Type>) returns (r: Option<nat>)
      modifies this
      ensures r == LargestSize(defs, old(visiting), ts)
      ensures r.Some? ==> visiting == old(visiting)
      decreases defs.Names() - visiting, ts, 0
    {
      hide StorageSize;
      var largest := 0;
      for i := 0 to |ts|
        invariant visiting == old(visiting)
        invariant LargestSize(defs, visiting, ts[..i]) == Some(largest)
      {
        assert ts[..i + 1][..i] == ts[..i] && ts[..i + 1][i] == ts[i];
        var size := SizeInner(ts[i]);
        if size.None? {
          FailsAfter(defs, old(visiting), ts, i + 1);
          return None;
        }
        largest := Max(largest, size.value);
      }
      assert ts[..|ts|] == ts;
      return Some(largest);
    }

    /** The slots of every enum, in the order of the definitions. */
    method DeclareEnums(enums: seq<EnumDef>) returns (r: Option<seq<nat>>)
      modifies this
      ensures r.Some? ==> |r.value| == |enums| && forall i | 0 <= i < |enums| :: Slots(defs, enums[i].variants) == Some(r.value[i])
      ensures r.None? ==> exists i | 0 <= i < |enums| :: Slots(defs, enums[i].variants).None?
    {
      hide LargestSize;
      var slots := [];
      for i := 0 to |enums|
        invariant |slots| == i
        invariant forall k | 0 <= k < i :: Slots(defs, enums[k].variants) == Some(slots[k])
      {
        visiting := {};
        var bytes := Largest(PayloadTypes(enums[i].variants));
        if bytes.None? {
          assert Slots(defs, enums[i].variants).None?;
          return None;
        }
        slots := slots + [(Max(bytes.value, 1) + 7) / 8];
      }
      return Some(slots);
    }
  }

  /** One type without a bound spoils the whole list. */
  lemma {:induction false} FailsAfter(defs: Defs, visiting: set<string>, ts: seq<Type>, i: nat)
    requires 0 < i <= |ts| && StorageSize(defs, visiting, ts[i - 1]).None?
    ensures TotalSize(defs, visiting, ts).None? && LargestSize(defs, visiting, ts).None?
    decreases |ts|
  {
    if i < |ts| {
      assert ts[..|ts| - 1][i - 1] == ts[i - 1];
      FailsAfter(defs, visiting, ts[..|ts| - 1], i);
    }
  }
}
