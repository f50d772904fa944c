/** When monomorphisation succeeds: the uses are well applied, at most 256 instances are demanded, and no
    template is expanded inside itself for other arguments, where what counts is the first route to an
    instance in depth-first order. */
module MonoAccepts {
  import opened Ast
  import opened Wrappers
  import opened Names
  import opened Mono
  import opened MonoFlat
  import opened MonoSound
  import opened MonoClosed
  import opened MonoUses
  import opened MonoExpand
  import I = Imports
  import IO = ImportOrder
  import IT = ImportTheorems

  type Trail = seq<nat>

  // ---------------------------------------------------------------------------
  // Routes through the instances
  // ---------------------------------------------------------------------------

  /** From the first of these uses on, each step of the trail is to a use of the definition before it. */
  ghost predicate Route(tpl: Templates, from: Uses, trail: Trail, nodes: seq<Instance>)
    decreases trail
  {
    |trail| == |nodes| > 0 && trail[0] < |from| && from[trail[0]] == nodes[0]
    && (|trail| > 1 ==> Good(tpl, nodes[0]) && Route(tpl, DefinitionUses(tpl, nodes[0]), trail[1..], nodes[1..]))
  }

  ghost predicate Demands(tpl: Templates, from: Uses, i: Instance) {
    exists trail, nodes :: Route(tpl, from, trail, nodes) && nodes[|nodes| - 1] == i
  }

  predicate AllDifferent(nodes: seq<Instance>) {
    forall a, b | 0 <= a < b < |nodes| :: nodes[a] != nodes[b]
  }

  /** A route that passes no instance twice, and that is the first of those to its end. */
  ghost predicate FirstRoute(tpl: Templates, from: Uses, trail: Trail, nodes: seq<Instance>) {
    Route(tpl, from, trail, nodes) && AllDifferent(nodes)
    && forall other, others ::
         Route(tpl, from, other, others) && AllDifferent(others) && others[|others| - 1] == nodes[|nodes| - 1]
         ==> other == trail || I.Less(trail, other)
  }

  predicate TemplatesDiffer(nodes: seq<Instance>) {
    forall a, b | 0 <= a < b < |nodes| :: TemplateOf(nodes[a]) != TemplateOf(nodes[b])
  }

  /** These instances demand no others. */
  ghost predicate Closed(tpl: Templates, insts: set<Instance>) {
    forall i | i in insts && Good(tpl, i) :: DefinitionInsts(tpl, i) <= insts
  }

  ghost predicate Within(us: Uses, insts: set<Instance>) {
    forall i | i in us :: i in insts
  }

  lemma {:induction false} RouteStays(tpl: Templates, from: Uses, trail: Trail, nodes: seq<Instance>, insts: set<Instance>)
    requires Route(tpl, from, trail, nodes) && Within(from, insts) && Closed(tpl, insts)
    ensures forall i | i in nodes :: i in insts
    decreases trail
  {
    if |trail| > 1 {
      DefinitionUsesListed(tpl, nodes[0]);
      RouteStays(tpl, DefinitionUses(tpl, nodes[0]), trail[1..], nodes[1..], insts);
      assert nodes == [nodes[0]] + nodes[1..];
    }
  }

  lemma DemandsUse(tpl: Templates, from: Uses, i: Instance)
    requires i in from
    ensures Demands(tpl, from, i)
  {
    var k: nat :| k < |from| && from[k] == i;
    assert Route(tpl, from, [k], [i]);
    assert [i][|[i]| - 1] == i;
  }

  lemma {:induction false} LongerRoute(tpl: Templates, from: Uses, trail: Trail, nodes: seq<Instance>, k: nat)
    requires Route(tpl, from, trail, nodes) && Good(tpl, nodes[|nodes| - 1])
    requires k < |DefinitionUses(tpl, nodes[|nodes| - 1])|
    ensures Route(tpl, from, trail + [k], nodes + [DefinitionUses(tpl, nodes[|nodes| - 1])[k]])
    decreases trail
  {
    var last := DefinitionUses(tpl, nodes[|nodes| - 1])[k];
    assert (trail + [k])[1..] == trail[1..] + [k] && (nodes + [last])[1..] == nodes[1..] + [last];
    if |trail| > 1 {
      LongerRoute(tpl, DefinitionUses(tpl, nodes[0]), trail[1..], nodes[1..], k);
    }
  }

  lemma DemandsInside(tpl: Templates, from: Uses, i: Instance, j: Instance)
    requires Demands(tpl, from, i) && Good(tpl, i) && j in DefinitionUses(tpl, i)
    ensures Demands(tpl, from, j)
  {
    var trail, nodes :| Route(tpl, from, trail, nodes) && nodes[|nodes| - 1] == i;
    var k: nat :| k < |DefinitionUses(tpl, i)| && DefinitionUses(tpl, i)[k] == j;
    LongerRoute(tpl, from, trail, nodes, k);
    assert (nodes + [j])[|nodes + [j]| - 1] == j;
  }

  // ---------------------------------------------------------------------------
  // What has been expanded is closed
  // ---------------------------------------------------------------------------

  /** An expansion adds the uses and all they demand, all of them definable. */
  lemma {:induction false} ExpandCloses(tpl: Templates, active: set<Template>, seen: set<Instance>, us: Uses)
    requires Expand(tpl, active, seen, us).Some? && |seen| <= 256
    ensures var all := Expand(tpl, active, seen, us).value;
      seen <= all && |all| <= 256 && Within(us, all)
      && forall i | i in all - seen :: Definable(tpl, i) && Within(DefinitionUses(tpl, i), all)
    decreases AllTemplates(tpl) - active, |us|
  {
    ExpandNothing(tpl, active, seen);
    hide Definable, DefinitionUses, AllTemplates, Expand;
    if us != [] {
      ExpandFirst(tpl, active, seen, us);
      assert us == [us[0]] + us[1..];
      var i := us[0];
      if i in seen {
        ExpandCloses(tpl, active, seen, us[1..]);
      } else {
        Fewer(tpl, active, i);
        var inner := Expand(tpl, active + {TemplateOf(i)}, seen + {i}, DefinitionUses(tpl, i)).value;
        OneMoreSeen(seen, i);
        ExpandCloses(tpl, active + {TemplateOf(i)}, seen + {i}, DefinitionUses(tpl, i));
        ExpandCloses(tpl, active, inner, us[1..]);
      }
    }
  }

  lemma Fewer(tpl: Templates, active: set<Template>, i: Instance)
    requires Definable(tpl, i) && TemplateOf(i) !in active
    ensures AllTemplates(tpl) - (active + {TemplateOf(i)}) < AllTemplates(tpl) - active
  {
    assert TemplateOf(i) in AllTemplates(tpl) - active;
  }

  // ---------------------------------------------------------------------------
  // Instances as files that import each other
  // ---------------------------------------------------------------------------

  function Key(i: Instance): string {
    (if i.FunctionInst? then "f" else "t") + InstanceName(i)
  }

  /** A finite world of instances: closed, definable, and with keys that tell them apart. */
  ghost predicate World(tpl: Templates, insts: set<Instance>) {
    (forall i | i in insts :: Definable(tpl, i) && Within(DefinitionUses(tpl, i), insts))
    && (forall i, j | i in insts && j in insts && Key(i) == Key(j) :: i == j)
    && |insts| <= 256
  }

  function Imps(us: Uses): (r: seq<I.Item<()>>)
    ensures |r| == |us|
  {
    seq(|us|, k requires 0 <= k < |us| => I.Import(Key(us[k])))
  }

  ghost function DiskOf(tpl: Templates, insts: set<Instance>): I.Disk<()>
    requires World(tpl, insts)
  {
    I.Disk(map i | i in insts :: ("", Key(i)) := Key(i),
           map i | i in insts :: Key(i) := I.File("", Imps(DefinitionUses(tpl, i))))
  }

  ghost function Keys(insts: set<Instance>): set<string> {
    set i | i in insts :: Key(i)
  }

  function KeysOf(nodes: seq<Instance>): (r: seq<string>)
    ensures |r| == |nodes|
  {
    seq(|nodes|, k requires 0 <= k < |nodes| => Key(nodes[k]))
  }

  lemma OnDisk(tpl: Templates, insts: set<Instance>, i: Instance)
    requires World(tpl, insts) && i in insts
    ensures var disk := DiskOf(tpl, insts);
      ("", Key(i)) in disk.resolve && disk.resolve[("", Key(i))] == Key(i) && Key(i) in disk.resolve.Values
      && Key(i) in disk.files && disk.files[Key(i)] == I.File("", Imps(DefinitionUses(tpl, i)))
      && Good(tpl, i) && Within(DefinitionUses(tpl, i), insts)
  {
    hide Key, Imps, DefinitionUses, Definable;
    assert DiskOf(tpl, insts).resolve[("", Key(i))] == Key(i);
  }

  lemma KeySeen(tpl: Templates, insts: set<Instance>, seen: set<Instance>, i: Instance)
    requires World(tpl, insts) && seen <= insts && i in insts
    ensures Key(i) in Keys(seen) <==> i in seen
  {
    hide Key, DefinitionUses, Definable;
  }

  /** The walk over these files never fails. */
  lemma WalkEnds(tpl: Templates, insts: set<Instance>, us: Uses, k: nat, visited: set<string>)
    requires World(tpl, insts) && Within(us, insts) && k <= |us|
    ensures I.Walk(DiskOf(tpl, insts), Imps(us), k, "", visited).Done?
  {
    var disk, root := DiskOf(tpl, insts), I.File("", Imps(us));
    if I.Walk(disk, root.items, k, root.dir, visited).Failed? {
      var trail, files := IT.FailsSomewhere(disk, root, k, visited);
      FilesLoadable(tpl, insts, us);
      if files != [] {
        var i :| i in insts && Key(i) == files[|files| - 1];
        OnDisk(tpl, insts, i);
        FilesLoadable(tpl, insts, DefinitionUses(tpl, i));
      }
      assert false;
    }
  }

  lemma FilesLoadable(tpl: Templates, insts: set<Instance>, us: Uses)
    requires World(tpl, insts) && Within(us, insts)
    ensures IT.Loadable(DiskOf(tpl, insts), I.File("", Imps(us)))
  {
    hide DiskOf, Key, World;
    var disk := DiskOf(tpl, insts);
    forall k | 0 <= k < |us| ensures ("", Key(us[k])) in disk.resolve && disk.resolve[("", Key(us[k]))] in disk.files {
      assert us[k] in us;
      OnDisk(tpl, insts, us[k]);
    }
  }

  // ---------------------------------------------------------------------------
  // The expansion is the walk, with an eye on the templates
  // ---------------------------------------------------------------------------

  /** Along the trail, no template comes that is active or has come before. */
  ghost predicate Clear(tpl: Templates, active: set<Template>, from: Uses, trail: Trail)
    decreases trail
  {
    trail != [] && trail[0] < |from| && TemplateOf(from[trail[0]]) !in active
    && (|trail| > 1 ==>
          Good(tpl, from[trail[0]])
          && Clear(tpl, active + {TemplateOf(from[trail[0]])}, DefinitionUses(tpl, from[trail[0]]), trail[1..]))
  }

  ghost predicate AllClear(tpl: Templates, active: set<Template>, from: Uses, found: seq<I.Found>) {
    forall f | f in found :: Clear(tpl, active, from, f.trail)
  }

  lemma ClearFound(tpl: Templates, active: set<Template>, from: Uses, k: nat, inner: seq<I.Found>, rest: seq<I.Found>)
    requires k < |from| && Good(tpl, from[k]) && forall f | f in inner :: f.trail != []
    ensures AllClear(tpl, active, from, [I.Found(Key(from[k]), [k])] + I.DeeperFound(k, inner) + rest)
      <==> TemplateOf(from[k]) !in active
           && AllClear(tpl, active + {TemplateOf(from[k])}, DefinitionUses(tpl, from[k]), inner)
           && AllClear(tpl, active, from, rest)
  {
  }

  lemma {:induction false} TrailsStart(tpl: Templates, insts: set<Instance>, us: Uses, k: nat, visited: set<string>)
    requires World(tpl, insts) && Within(us, insts) && k <= |us|
    ensures I.Walk(DiskOf(tpl, insts), Imps(us), k, "", visited).Done?
    ensures forall f | f in I.Walk(DiskOf(tpl, insts), Imps(us), k, "", visited).found :: f.trail != []
  {
    WalkEnds(tpl, insts, us, k, visited);
    hide World, I.Walk, DiskOf;
    var disk := DiskOf(tpl, insts);
    var found := I.Walk(disk, Imps(us), k, "", visited).found;
    forall f | f in found ensures f.trail != [] {
      var n: nat :| n < |found| && found[n] == f;
      var files := IO.FoundByRoute(disk, Imps(us), k, "", visited, n);
    }
  }

  /** One step of the walk, in terms of instances. */
  lemma WalkStep(tpl: Templates, insts: set<Instance>, us: Uses, k: nat, seen: set<Instance>)
    requires World(tpl, insts) && Within(us, insts) && k < |us| && seen <= insts
    ensures var disk := DiskOf(tpl, insts); var i := us[k];
      Good(tpl, i) && Within(DefinitionUses(tpl, i), insts)
      && var r := I.Walk(disk, Imps(us), k, "", Keys(seen));
         if i in seen then r == I.Walk(disk, Imps(us), k + 1, "", Keys(seen))
         else
           var sub := I.Walk(disk, Imps(DefinitionUses(tpl, i)), 0, "", Keys(seen + {i}));
           sub.Done?
           && var rest := I.Walk(disk, Imps(us), k + 1, "", Keys(seen + {i}) + I.Files(sub.found));
              rest.Done? && r.Done?
              && r.found == [I.Found(Key(i), [k])] + I.DeeperFound(k, sub.found) + rest.found
  {
    var disk, i := DiskOf(tpl, insts), us[k];
    assert i in us;
    OnDisk(tpl, insts, i);
    KeySeen(tpl, insts, seen, i);
    WalkEnds(tpl, insts, us, k, Keys(seen));
    WalkEnds(tpl, insts, DefinitionUses(tpl, i), 0, Keys(seen + {i}));
    KeysMore(seen, i);
    hide World, DiskOf, Key, DefinitionUses;
    WalkUnfolds(disk, Imps(us), k, Keys(seen), Key(i), Imps(DefinitionUses(tpl, i)));
  }

  lemma KeysMore(seen: set<Instance>, i: Instance)
    ensures Keys(seen + {i}) == Keys(seen) + {Key(i)}
  {
    hide Key;
  }

  lemma WalkUnfolds(disk: I.Disk<()>, items: seq<I.Item<()>>, k: nat, visited: set<string>, key: string, inner: seq<I.Item<()>>)
    requires k < |items| && items[k] == I.Import(key) && ("", key) in disk.resolve && disk.resolve[("", key)] == key
    requires key in disk.files && disk.files[key] == I.File("", inner) && I.Walk(disk, items, k, "", visited).Done?
    ensures var r := I.Walk(disk, items, k, "", visited);
      if key in visited then r == I.Walk(disk, items, k + 1, "", visited)
      else
        var sub := I.Walk(disk, inner, 0, "", visited + {key});
        sub.Done?
        && var rest := I.Walk(disk, items, k + 1, "", visited + {key} + I.Files(sub.found));
           rest.Done? && r.found == [I.Found(key, [k])] + I.DeeperFound(k, sub.found) + rest.found
  {
    hide I.Files;
  }

  /** Uses from index `k` on are expanded exactly if the walk finds nothing along a trail that is not clear,
      and then the instances seen are the files found. */
  lemma {:induction false} ExpandIsWalk(
    tpl: Templates, insts: set<Instance>, active: set<Template>, seen: set<Instance>, us: Uses, k: nat)
    requires World(tpl, insts) && Within(us, insts) && k <= |us| && seen <= insts
    ensures I.Walk(DiskOf(tpl, insts), Imps(us), k, "", Keys(seen)).Done?
    ensures var x, found := Expand(tpl, active, seen, us[k..]), I.Walk(DiskOf(tpl, insts), Imps(us), k, "", Keys(seen)).found;
      (x.Some? <==> AllClear(tpl, active, us, found))
      && (x.Some? ==> x.value <= insts && Keys(x.value) == Keys(seen) + I.Files(found))
    decreases AllTemplates(tpl) - active, |us| - k
  {
    var disk := DiskOf(tpl, insts);
    WalkEnds(tpl, insts, us, k, Keys(seen));
    if k == |us| {
      WalkNothing(disk, Imps(us), Keys(seen));
      ExpandNothing(tpl, active, seen);
      assert us[k..] == [];
    } else {
      var i := us[k];
      assert i in us;
      WalkStep(tpl, insts, us, k, seen);
      ExpandFirst(tpl, active, seen, us[k..]);
      assert us[k..][0] == i && us[k..][1..] == us[k + 1..];
      DefinableHere(tpl, insts, seen, i);
      hide World, DiskOf, Expand, I.Walk, Keys, DefinitionUses, AllClear, I.Files, AllTemplates;
      if i in seen {
        ExpandIsWalk(tpl, insts, active, seen, us, k + 1);
      } else {
        ExpandStep(tpl, insts, active, seen, us, k);
      }
    }
  }

  lemma WalkNothing(disk: I.Disk<()>, items: seq<I.Item<()>>, visited: set<string>)
    ensures I.Walk(disk, items, |items|, "", visited) == I.Done([], [])
  {
  }

  lemma DefinableHere(tpl: Templates, insts: set<Instance>, seen: set<Instance>, i: Instance)
    requires World(tpl, insts) && i in insts && seen <= insts
    ensures Definable(tpl, i) && Within(DefinitionUses(tpl, i), insts) && (i !in seen ==> |seen| < 256 && seen + {i} <= insts)
  {
    hide Definable, DefinitionUses;
    if i !in seen {
      Smaller(seen, insts);
    }
  }

  lemma Smaller(a: set<Instance>, b: set<Instance>)
    requires a < b
    ensures |a| < |b|
  {
    var rest := b - a;
    assert b == a + rest && rest != {};
  }

  lemma {:induction false} ExpandStep(
    tpl: Templates, insts: set<Instance>, active: set<Template>, seen: set<Instance>, us: Uses, k: nat)
    requires World(tpl, insts) && Within(us, insts) && k < |us| && seen <= insts && us[k] !in seen
    requires Definable(tpl, us[k]) && Within(DefinitionUses(tpl, us[k]), insts) && seen + {us[k]} <= insts && |seen| < 256
    ensures I.Walk(DiskOf(tpl, insts), Imps(us), k, "", Keys(seen)).Done?
    ensures var i := us[k];
      var inner := Expand(tpl, active + {TemplateOf(i)}, seen + {i}, DefinitionUses(tpl, i));
      var found := I.Walk(DiskOf(tpl, insts), Imps(us), k, "", Keys(seen)).found;
      if TemplateOf(i) in active || inner.None? then !AllClear(tpl, active, us, found)
      else
        var x := Expand(tpl, active, inner.value, us[k + 1..]);
        (x.Some? <==> AllClear(tpl, active, us, found))
        && (x.Some? ==> x.value <= insts && Keys(x.value) == Keys(seen) + I.Files(found))
    decreases AllTemplates(tpl) - active, |us| - k, 0
  {
    hide World, DiskOf, Expand, I.Walk, Keys, DefinitionUses, I.Files, Definable, AllClear, Key, I.DeeperFound, Imps, Within,
      AllTemplates, TemplateOf;
    var i := us[k];
    var disk := DiskOf(tpl, insts);
    var uses := DefinitionUses(tpl, i);
    WalkEnds(tpl, insts, us, k, Keys(seen));
    WalkStep(tpl, insts, us, k, seen);
    TrailsStart(tpl, insts, uses, 0, Keys(seen + {i}));
    var sub := I.Walk(disk, Imps(uses), 0, "", Keys(seen + {i}));
    var rest := I.Walk(disk, Imps(us), k + 1, "", Keys(seen + {i}) + I.Files(sub.found));
    ClearFound(tpl, active, us, k, sub.found, rest.found);
    if TemplateOf(i) !in active {
      Fewer(tpl, active, i);
      assert uses[0..] == uses;
      ExpandIsWalk(tpl, insts, active + {TemplateOf(i)}, seen + {i}, uses, 0);
      var inner := Expand(tpl, active + {TemplateOf(i)}, seen + {i}, uses);
      if inner.Some? {
        ExpandIsWalk(tpl, insts, active, inner.value, us, k + 1);
        KeysFound(seen, i, k, sub.found, rest.found);
      }
    }
  }

  lemma KeysFound(seen: set<Instance>, i: Instance, k: nat, inner: seq<I.Found>, rest: seq<I.Found>)
    ensures Keys(seen) + I.Files([I.Found(Key(i), [k])] + I.DeeperFound(k, inner) + rest)
         == Keys(seen + {i}) + I.Files(inner) + I.Files(rest)
  {
    KeysMore(seen, i);
    hide Keys, Key, I.Files;
    FilesFound(k, Key(i), inner, rest);
  }

  lemma FilesFound(k: nat, key: string, inner: seq<I.Found>, rest: seq<I.Found>)
    ensures I.Files([I.Found(key, [k])] + I.DeeperFound(k, inner) + rest) == {key} + I.Files(inner) + I.Files(rest)
  {
    IO.FilesDeeper(k, inner);
    assert I.Files([I.Found(key, [k])]) == {key};
    hide I.Files;
    IO.FilesJoin([I.Found(key, [k])] + I.DeeperFound(k, inner), rest);
    IO.FilesJoin([I.Found(key, [k])], I.DeeperFound(k, inner));
  }

  // ---------------------------------------------------------------------------
  // Routes through files and through instances
  // ---------------------------------------------------------------------------

  /** A use is an import of the file of its instance. */
  lemma UseLeads(tpl: Templates, insts: set<Instance>, from: Uses, k: nat)
    requires World(tpl, insts) && Within(from, insts) && k < |from|
    ensures var disk := DiskOf(tpl, insts); var i := from[k];
      i in insts && Good(tpl, i) && Within(DefinitionUses(tpl, i), insts)
      && (forall key :: I.Leads(disk, Imps(from)[k], "", key) <==> key == Key(i))
      && Key(i) in disk.files && disk.files[Key(i)].items == Imps(DefinitionUses(tpl, i)) && disk.files[Key(i)].dir == ""
  {
    assert from[k] in from;
    OnDisk(tpl, insts, from[k]);
    hide World, DiskOf, Key, DefinitionUses;
  }

  lemma {:induction false} RouteOnDisk(tpl: Templates, insts: set<Instance>, from: Uses, trail: Trail, nodes: seq<Instance>)
    requires World(tpl, insts) && Within(from, insts) && Route(tpl, from, trail, nodes)
    ensures I.Route(DiskOf(tpl, insts), Imps(from), "", trail, KeysOf(nodes)) && forall i | i in nodes :: i in insts
    decreases trail
  {
    hide World, DiskOf, Key, DefinitionUses, I.Leads, Imps, Within, Good;
    var i := nodes[0];
    UseLeads(tpl, insts, from, trail[0]);
    assert nodes == [i] + nodes[1..];
    if |trail| > 1 {
      RouteOnDisk(tpl, insts, DefinitionUses(tpl, i), trail[1..], nodes[1..]);
      assert KeysOf(nodes)[1..] == KeysOf(nodes[1..]);
    }
  }

  lemma {:induction false} RouteOffDisk(tpl: Templates, insts: set<Instance>, from: Uses, trail: Trail, files: seq<string>)
    returns (nodes: seq<Instance>)
    requires World(tpl, insts) && Within(from, insts) && I.Route(DiskOf(tpl, insts), Imps(from), "", trail, files)
    ensures Route(tpl, from, trail, nodes) && KeysOf(nodes) == files && forall i | i in nodes :: i in insts
    decreases trail
  {
    hide World, DiskOf, Key, DefinitionUses, I.Leads, Imps, Within, Good;
    var i := from[trail[0]];
    UseLeads(tpl, insts, from, trail[0]);
    if |trail| > 1 {
      var others := RouteOffDisk(tpl, insts, DefinitionUses(tpl, i), trail[1..], files[1..]);
      nodes := [i] + others;
      assert nodes[1..] == others && files == [files[0]] + files[1..];
      KeysCons(i, others);
    } else {
      nodes := [i];
      assert files == [files[0]];
    }
  }

  lemma KeysCons(i: Instance, nodes: seq<Instance>)
    ensures KeysOf([i] + nodes) == [Key(i)] + KeysOf(nodes)
  {
    hide Key;
  }

  lemma DifferentKeys(tpl: Templates, insts: set<Instance>, nodes: seq<Instance>)
    requires World(tpl, insts) && forall i | i in nodes :: i in insts
    ensures AllDifferent(nodes) <==> I.Distinct(KeysOf(nodes))
  {
    hide Key, DefinitionUses, Definable;
    if AllDifferent(nodes) {
      forall a, b | 0 <= a < b < |nodes| ensures KeysOf(nodes)[a] != KeysOf(nodes)[b] {
        assert nodes[a] in nodes && nodes[b] in nodes;
      }
    } else {
      var a, b :| 0 <= a < b < |nodes| && nodes[a] == nodes[b];
      assert KeysOf(nodes)[a] == KeysOf(nodes)[b];
    }
  }

  /** First routes through instances are first routes through files. */
  lemma FirstOnDisk(tpl: Templates, insts: set<Instance>, from: Uses, trail: Trail, nodes: seq<Instance>)
    requires World(tpl, insts) && Within(from, insts) && FirstRoute(tpl, from, trail, nodes)
    ensures IT.FirstRoute(DiskOf(tpl, insts), I.File("", Imps(from)), trail, Key(nodes[|nodes| - 1]))
  {
    var disk, root, file := DiskOf(tpl, insts), I.File("", Imps(from)), Key(nodes[|nodes| - 1]);
    hide World, DiskOf, Key, Imps, Within, I.Route, I.Less, Route, I.Distinct, AllDifferent;
    SimpleOnDisk(tpl, insts, from, trail, nodes);
    hide IT.SimpleRoute;
    forall other, files | IT.SimpleRoute(disk, root, other, files, file) ensures IO.NotAfter(trail, other) {
      var others := SimpleOffDisk(tpl, insts, from, other, files, nodes[|nodes| - 1]);
    }
  }

  lemma SimpleOnDisk(tpl: Templates, insts: set<Instance>, from: Uses, trail: Trail, nodes: seq<Instance>)
    requires World(tpl, insts) && Within(from, insts) && Route(tpl, from, trail, nodes) && AllDifferent(nodes)
    ensures |nodes| > 0 && nodes[|nodes| - 1] in insts
    ensures IT.SimpleRoute(DiskOf(tpl, insts), I.File("", Imps(from)), trail, KeysOf(nodes), Key(nodes[|nodes| - 1]))
  {
    hide World, DiskOf, Key, Imps, Within, I.Route, I.Distinct, AllDifferent;
    RouteOnDisk(tpl, insts, from, trail, nodes);
    DifferentKeys(tpl, insts, nodes);
    assert nodes[|nodes| - 1] in nodes;
  }

  lemma SimpleOffDisk(tpl: Templates, insts: set<Instance>, from: Uses, trail: Trail, files: seq<string>, last: Instance)
    returns (nodes: seq<Instance>)
    requires World(tpl, insts) && Within(from, insts) && last in insts
    requires IT.SimpleRoute(DiskOf(tpl, insts), I.File("", Imps(from)), trail, files, Key(last))
    ensures Route(tpl, from, trail, nodes) && AllDifferent(nodes) && nodes[|nodes| - 1] == last
  {
    hide World, DiskOf, Key, Imps, Within, I.Route, I.Distinct;
    nodes := RouteOffDisk(tpl, insts, from, trail, files);
    DifferentKeys(tpl, insts, nodes);
    assert nodes[|nodes| - 1] in nodes;
    SameKey(tpl, insts, nodes[|nodes| - 1], last);
  }

  lemma SameKey(tpl: Templates, insts: set<Instance>, i: Instance, j: Instance)
    requires World(tpl, insts) && i in insts && j in insts
    ensures Key(i) == Key(j) <==> i == j
  {
    hide Key, DefinitionUses, Definable;
  }

  /** And the other way round. */
  lemma FirstOffDisk(tpl: Templates, insts: set<Instance>, from: Uses, trail: Trail, file: string) returns (nodes: seq<Instance>)
    requires World(tpl, insts) && Within(from, insts)
    requires IT.FirstRoute(DiskOf(tpl, insts), I.File("", Imps(from)), trail, file)
    ensures FirstRoute(tpl, from, trail, nodes) && Key(nodes[|nodes| - 1]) == file
  {
    hide World, DiskOf, Key, Imps, Within, I.Route, I.Less, I.Distinct, AllDifferent, DefinitionUses, Good;
    var disk, root := DiskOf(tpl, insts), I.File("", Imps(from));
    var files :| IT.SimpleRoute(disk, root, trail, files, file);
    nodes := AnyOffDisk(tpl, insts, from, trail, files, file);
    var last := nodes[|nodes| - 1];
    forall other, others |
      Route(tpl, from, other, others) && AllDifferent(others) && others[|others| - 1] == last
      ensures other == trail || I.Less(trail, other)
    {
      SimpleOnDisk(tpl, insts, from, other, others);
    }
  }

  lemma AnyOffDisk(tpl: Templates, insts: set<Instance>, from: Uses, trail: Trail, files: seq<string>, file: string)
    returns (nodes: seq<Instance>)
    requires World(tpl, insts) && Within(from, insts)
    requires IT.SimpleRoute(DiskOf(tpl, insts), I.File("", Imps(from)), trail, files, file)
    ensures Route(tpl, from, trail, nodes) && |nodes| > 0 && AllDifferent(nodes) && Key(nodes[|nodes| - 1]) == file
  {
    hide World, DiskOf, Key, Imps, Within, I.Route, I.Distinct, AllDifferent;
    nodes := RouteOffDisk(tpl, insts, from, trail, files);
    DifferentKeys(tpl, insts, nodes);
    assert KeysOf(nodes)[|nodes| - 1] == Key(nodes[|nodes| - 1]);
  }

  // ---------------------------------------------------------------------------
  // Clear trails
  // ---------------------------------------------------------------------------

  lemma {:induction false} ClearIffDiffer(tpl: Templates, active: set<Template>, from: Uses, trail: Trail, nodes: seq<Instance>)
    requires Route(tpl, from, trail, nodes)
    ensures Clear(tpl, active, from, trail)
      <==> TemplatesDiffer(nodes) && forall i | i in nodes :: TemplateOf(i) !in active
    decreases trail
  {
    hide DefinitionUses, Good;
    var n := nodes[0];
    assert nodes == [n] + nodes[1..];
    if |trail| > 1 {
      ClearIffDiffer(tpl, active + {TemplateOf(n)}, DefinitionUses(tpl, n), trail[1..], nodes[1..]);
      DifferCons(n, nodes[1..]);
    } else {
      assert nodes == [n];
    }
  }

  lemma DifferCons(n: Instance, nodes: seq<Instance>)
    ensures TemplatesDiffer([n] + nodes) <==> TemplatesDiffer(nodes) && forall i | i in nodes :: TemplateOf(i) != TemplateOf(n)
  {
    var all := [n] + nodes;
    if TemplatesDiffer(all) {
      forall i | i in nodes ensures TemplateOf(i) != TemplateOf(n) {
        var k: nat :| k < |nodes| && nodes[k] == i;
        assert all[0] == n && all[k + 1] == i && TemplateOf(all[0]) != TemplateOf(all[k + 1]);
      }
      forall a, b | 0 <= a < b < |nodes| ensures TemplateOf(nodes[a]) != TemplateOf(nodes[b]) {
        assert all[a + 1] == nodes[a] && all[b + 1] == nodes[b];
      }
    }
    if TemplatesDiffer(nodes) && forall i | i in nodes :: TemplateOf(i) != TemplateOf(n) {
      forall a, b | 0 <= a < b < |all| ensures TemplateOf(all[a]) != TemplateOf(all[b]) {
        assert all[b] == nodes[b - 1] && all[b] in nodes;
        if a > 0 {
          assert all[a] == nodes[a - 1];
        }
      }
    }
  }

  /** The walk finds nothing along trails that are not clear exactly if no first route passes two instances
      of one template. */
  lemma ClearIffFirstRoutesDiffer(tpl: Templates, insts: set<Instance>, us: Uses)
    requires World(tpl, insts) && Within(us, insts)
    ensures I.Load(DiskOf(tpl, insts), I.File("", Imps(us))).Done?
    ensures AllClear(tpl, {}, us, I.Load(DiskOf(tpl, insts), I.File("", Imps(us))).found)
      <==> forall trail, nodes | FirstRoute(tpl, us, trail, nodes) :: TemplatesDiffer(nodes)
  {
    WalkEnds(tpl, insts, us, 0, {});
    var disk, root := DiskOf(tpl, insts), I.File("", Imps(us));
    var found := I.Load(disk, root).found;
    if AllClear(tpl, {}, us, found) {
      forall trail, nodes | FirstRoute(tpl, us, trail, nodes) ensures TemplatesDiffer(nodes) {
        FirstOnDisk(tpl, insts, us, trail, nodes);
        var f := IT.FirstRouteIsTaken(disk, root, trail, Key(nodes[|nodes| - 1]));
        ClearIffDiffer(tpl, {}, us, trail, nodes);
      }
    }
    if forall trail, nodes | FirstRoute(tpl, us, trail, nodes) :: TemplatesDiffer(nodes) {
      forall f | f in found ensures Clear(tpl, {}, us, f.trail) {
        var n: nat :| n < |found| && found[n] == f;
        IT.VisitsFirstRoutes(disk, root, n);
        var nodes := FirstOffDisk(tpl, insts, us, f.trail, f.file);
        ClearIffDiffer(tpl, {}, us, f.trail, nodes);
      }
    }
  }

  // ---------------------------------------------------------------------------
  // In a tidy program, names tell instances apart
  // ---------------------------------------------------------------------------

  predicate AllKeyableUses(us: Uses) {
    forall i | i in us :: KeyableArgs(i)
  }

  lemma {:induction false} TypeUsesKeyable(subst: Substitution, t: Type)
    requires SubstOk(true, subst) && TidyType(t)
    ensures AllKeyableUses(TypeUses(subst, t))
    decreases TypeSize(t), 1
  {
    SizeOfParts(t);
    TypesUsesKeyable(subst, Parts(t));
    if t.Applied? {
      FlatTypesOk(true, subst, t.args);
    }
  }

  lemma {:induction false} TypesUsesKeyable(subst: Substitution, ts: seq<Type>)
    requires SubstOk(true, subst) && AllTidyTypes(ts)
    ensures AllKeyableUses(TypesUses(subst, ts))
    decreases TypesSize(ts), 0
  {
    hide SubstOk;
    if ts != [] {
      TypeUsesKeyable(subst, ts[0]);
      TypesUsesKeyable(subst, ts[1..]);
    }
  }

  lemma {:induction false} ExprUsesKeyable(tpl: Templates, subst: Substitution, e: Expr)
    requires SubstOk(true, subst) && TidyExpr(e)
    ensures AllKeyableUses(ExprUses(tpl, subst, e))
    decreases ExprSize(e), 1
  {
    SizeOfOperands(e);
    TidyOperands(true, e);
    hide SubstOk, ExprsUses, TypesUses, NodeUses, KeyableArgs, TidyExpr;
    ExprsUsesKeyable(tpl, subst, Operands(e));
    TypesUsesKeyable(subst, TypesIn(e));
    NodeUsesKeyable(tpl, subst, e);
  }

  lemma {:induction false} NodeUsesKeyable(tpl: Templates, subst: Substitution, e: Expr)
    requires SubstOk(true, subst) && TidyExpr(e)
    ensures AllKeyableUses(NodeUses(tpl, subst, e))
    decreases ExprSize(e), 0
  {
    SizeOfOperands(e);
    HeadArgsOk(true, subst, e);
    if e.MethodCall? {
      ReceiverTidy(e);
    }
    hide SubstOk, TidyExpr, FlatTypes, AllKeyable, ArgsOk;
    if e.MethodCall? || e.StructInit? || (e.Call? && !IsSizeof(e.callee)) {
      AllKeyableArgs(FlatTypes(subst, TypesIn(e)));
    }
    if e.MethodCall? && !ConstructsInstance(tpl, e.receiver) {
      ExprUsesKeyable(tpl, subst, e.receiver);
    }
    hide ExprUses;
  }

  lemma {:induction false} ExprsUsesKeyable(tpl: Templates, subst: Substitution, es: seq<Expr>)
    requires SubstOk(true, subst) && AllTidyExprs(es)
    ensures AllKeyableUses(ExprsUses(tpl, subst, es))
    decreases ExprsSize(es), 0
  {
    hide SubstOk, KeyableArgs;
    if es != [] {
      ExprUsesKeyable(tpl, subst, es[0]);
      ExprsUsesKeyable(tpl, subst, es[1..]);
    }
  }

  lemma {:induction false} StmtUsesKeyable(tpl: Templates, subst: Substitution, s: Stmt)
    requires SubstOk(true, subst) && TidyStmt(s)
    ensures AllKeyableUses(StmtUses(tpl, subst, s))
    decreases StmtSize(s), 1
  {
    SizeOfStmtParts(s);
    hide SubstOk, KeyableArgs, TypesUses, ExprsUses, BlocksUses, StmtTypes, StmtExprs, StmtBlocks;
    TypesUsesKeyable(subst, StmtTypes(s));
    ExprsUsesKeyable(tpl, subst, StmtExprs(s));
    BlocksUsesKeyable(tpl, subst, StmtBlocks(s));
  }

  lemma {:induction false} StmtsUsesKeyable(tpl: Templates, subst: Substitution, ss: seq<Stmt>)
    requires SubstOk(true, subst) && TidyStmts(ss)
    ensures AllKeyableUses(StmtsUses(tpl, subst, ss))
    decreases StmtsSize(ss), 0
  {
    hide SubstOk, KeyableArgs;
    if ss != [] {
      StmtUsesKeyable(tpl, subst, ss[0]);
      StmtsUsesKeyable(tpl, subst, ss[1..]);
    }
  }

  lemma {:induction false} BlocksUsesKeyable(tpl: Templates, subst: Substitution, bs: seq<Block>)
    requires SubstOk(true, subst) && TidyBlocks(bs)
    ensures AllKeyableUses(BlocksUses(tpl, subst, bs))
    decreases BlocksSize(bs), 0
  {
    hide SubstOk, KeyableArgs;
    if bs != [] {
      StmtsUsesKeyable(tpl, subst, bs[0].stmts);
      BlocksUsesKeyable(tpl, subst, bs[1..]);
    }
  }

  lemma DefinitionUsesKeyable(tpl: Templates, i: Instance)
    requires TemplatesOk(true, tpl) && Good(tpl, i) && KeyableArgs(i)
    ensures AllKeyableUses(DefinitionUses(tpl, i))
  {
    KeyableIsOk(i.args);
    if i.FunctionInst? {
      TemplateTidy(tpl, i.template);
      BindOk(true, tpl.functions[i.template].proto.typeParams, i.args);
      hide TemplatesOk, SubstOk, AllTidyTypes, TidyStmts, SignatureTypes, TypesUses, StmtsUses, ArgsOk, AllKeyable;
      TypesUsesKeyable(ArgsOf(tpl, i), SignatureTypes(tpl.functions[i.template].proto));
      StmtsUsesKeyable(tpl, ArgsOf(tpl, i), tpl.functions[i.template].body.stmts);
    } else {
      FieldsTidy(tpl, i.template);
      BindOk(true, TypeParamsOf(tpl, i.template), i.args);
      hide TemplatesOk, SubstOk, AllTidyTypes, TypesUses, ArgsOk, AllKeyable;
      TypesUsesKeyable(ArgsOf(tpl, i), FieldTypes(tpl, i.template));
    }
  }

  lemma ItemUsesKeyable(tpl: Templates, item: Item)
    requires TidyItem(item)
    ensures AllKeyableUses(ItemUses(tpl, item))
  {
    assert SubstOk(true, map[]);
    hide SubstOk, TypesUses, StmtsUses, ExprsUses, TypeUses, KeyableArgs, AllTidyTypes, TidyStmts, SignatureTypes, AllTidyExprs, TidyType;
    if !IsTemplate(item) {
      match item
      case FunctionItem(f) =>
        TypesUsesKeyable(map[], SignatureTypes(f.proto));
        StmtsUsesKeyable(tpl, map[], f.body.stmts);
      case StructItem(def) => TypesUsesKeyable(map[], ParamTypes(def.fields));
      case EnumItem(def) => TypesUsesKeyable(map[], PayloadTypes(def.variants));
      case StaticItem(global) =>
        TypeUsesKeyable(map[], global.ty);
        ExprsUsesKeyable(tpl, map[], OptionList(global.init));
      case _ =>
    }
  }

  lemma {:induction false} ItemsUsesKeyable(tpl: Templates, items: seq<Item>)
    requires Tidy(items)
    ensures AllKeyableUses(ItemsUses(tpl, items))
    decreases |items|
  {
    hide KeyableArgs, TidyItem, ItemUses;
    if items != [] {
      ItemUsesKeyable(tpl, items[0]);
      ItemsUsesKeyable(tpl, items[1..]);
    }
  }

  lemma {:induction false} RouteKeyable(tpl: Templates, from: Uses, trail: Trail, nodes: seq<Instance>)
    requires TemplatesOk(true, tpl) && AllKeyableUses(from) && Route(tpl, from, trail, nodes)
    ensures forall i | i in nodes :: KeyableArgs(i)
    decreases trail
  {
    hide TemplatesOk, KeyableArgs, DefinitionUses, Good;
    assert nodes == [nodes[0]] + nodes[1..] && nodes[0] in from;
    if |trail| > 1 {
      DefinitionUsesKeyable(tpl, nodes[0]);
      RouteKeyable(tpl, DefinitionUses(tpl, nodes[0]), trail[1..], nodes[1..]);
    }
  }

  lemma KeysApart(tpl: Templates, i: Instance, j: Instance)
    requires Good(tpl, i) && Good(tpl, j) && KeyableArgs(i) && KeyableArgs(j) && Key(i) == Key(j)
    ensures i == j
  {
    hide InstanceName, Good, KeyableArgs;
    assert Key(i)[0] == Key(j)[0] && Key(i)[1..] == InstanceName(i) && Key(j)[1..] == InstanceName(j);
    SameName(tpl, i, j);
  }

  // ---------------------------------------------------------------------------
  // The theorem
  // ---------------------------------------------------------------------------

  /** All that is demanded is among at most 256 instances. */
  ghost predicate AtMost256(tpl: Templates, from: Uses) {
    exists insts: set<Instance> :: |insts| <= 256 && Within(from, insts) && Closed(tpl, insts)
  }

  /** The demanded ones of a closed set. */
  lemma DemandedWorld(tpl: Templates, from: Uses, all: set<Instance>) returns (insts: set<Instance>)
    requires TemplatesOk(true, tpl) && AllKeyableUses(from)
    requires |all| <= 256 && Within(from, all) && Closed(tpl, all)
    requires forall i | Demands(tpl, from, i) :: Definable(tpl, i)
    ensures World(tpl, insts) && Within(from, insts)
  {
    insts := set i | i in all && Demands(tpl, from, i);
    hide TemplatesOk, DefinitionUses, Definable, Good, KeyableArgs, Demands, Key;
    forall i | i in from ensures i in insts {
      DemandsUse(tpl, from, i);
    }
    forall i | i in insts ensures Definable(tpl, i) && Within(DefinitionUses(tpl, i), insts) {
      DefinitionUsesListed(tpl, i);
      forall j | j in DefinitionUses(tpl, i) ensures j in insts {
        DemandsInside(tpl, from, i, j);
      }
    }
    forall i, j | i in insts && j in insts && Key(i) == Key(j) ensures i == j {
      DemandedKeyable(tpl, from, i);
      DemandedKeyable(tpl, from, j);
      KeysApart(tpl, i, j);
    }
    FewerOrSame(insts, all);
  }

  lemma FewerOrSame(a: set<Instance>, b: set<Instance>)
    requires a <= b
    ensures |a| <= |b|
  {
    assert b == a + (b - a);
  }

  lemma DemandedKeyable(tpl: Templates, from: Uses, i: Instance)
    requires TemplatesOk(true, tpl) && AllKeyableUses(from) && Demands(tpl, from, i)
    ensures KeyableArgs(i)
  {
    hide TemplatesOk, KeyableArgs;
    var trail, nodes :| Route(tpl, from, trail, nodes) && nodes[|nodes| - 1] == i;
    RouteKeyable(tpl, from, trail, nodes);
  }

  /** What has been expanded holds all that is demanded. */
  lemma ExpandedWorld(tpl: Templates, from: Uses)
    requires Expand(tpl, {}, {}, from).Some?
    ensures AtMost256(tpl, from) && forall i | Demands(tpl, from, i) :: Definable(tpl, i)
  {
    var all := Expand(tpl, {}, {}, from).value;
    ExpandCloses(tpl, {}, {}, from);
    hide Expand, DefinitionUses, Definable;
    forall i | i in all && Good(tpl, i) ensures DefinitionInsts(tpl, i) <= all {
      assert i in all - {};
      DefinitionUsesListed(tpl, i);
    }
    assert Closed(tpl, all);
    forall i | Demands(tpl, from, i) ensures Definable(tpl, i) {
      var trail, nodes :| Route(tpl, from, trail, nodes) && nodes[|nodes| - 1] == i;
      RouteStays(tpl, from, trail, nodes, all);
      assert i in all - {};
    }
  }

  /** Uses can be expanded exactly if all they demand is definable and at most 256 instances, and no first
      route passes two instances of one template. */
  lemma ExpandsIff(tpl: Templates, from: Uses)
    requires TemplatesOk(true, tpl) && AllKeyableUses(from)
    ensures Expand(tpl, {}, {}, from).Some?
      <==> (forall i | Demands(tpl, from, i) :: Definable(tpl, i)) && AtMost256(tpl, from)
           && forall trail, nodes | FirstRoute(tpl, from, trail, nodes) :: TemplatesDiffer(nodes)
  {
    hide TemplatesOk, Expand, Definable, Demands, FirstRoute, TemplatesDiffer, AllKeyableUses, World, AllClear;
    if Expand(tpl, {}, {}, from).Some? {
      ExpandedWorld(tpl, from);
    }
    if (forall i | Demands(tpl, from, i) :: Definable(tpl, i)) && AtMost256(tpl, from) {
      var all: set<Instance> :| |all| <= 256 && Within(from, all) && Closed(tpl, all);
      var insts := DemandedWorld(tpl, from, all);
      assert from[0..] == from && Keys({}) == {};
      ExpandIsWalk(tpl, insts, {}, {}, from, 0);
      ClearIffFirstRoutesDiffer(tpl, insts, from);
      hide I.Walk, DiskOf;
    }
  }

  // Definitions that are not repeated.

  function DefinedName(item: Item): string {
    TypeParamsOfItem(item).0
  }

  predicate SameDefinition(a: Item, b: Item) {
    DefinedName(a) == DefinedName(b)
    && ((a.FunctionItem? && b.FunctionItem?) || ((a.StructItem? || a.EnumItem?) && (b.StructItem? || b.EnumItem?)))
  }

  predicate DefinitionsDistinct(items: seq<Item>) {
    forall a, b | 0 <= a < b < |items| :: !SameDefinition(items[a], items[b])
  }

  predicate TypeParamsDistinct(items: seq<Item>) {
    forall item | item in items :: Distinct(TypeParamsOfItem(item).1)
  }

  predicate Defined(item: Item, functions: set<string>, types: set<string>) {
    DefinedName(item) in if item.FunctionItem? then functions else if item.StructItem? || item.EnumItem? then types else {}
  }

  lemma {:induction false} DuplicateIff(items: seq<Item>, functions: set<string>, types: set<string>)
    ensures DuplicateIn(items, functions, types).None?
      <==> DefinitionsDistinct(items) && forall item | item in items :: !Defined(item, functions, types)
    decreases |items|
  {
    if items != [] {
      var first := items[0];
      var functions1 := if first.FunctionItem? then functions + {DefinedName(first)} else functions;
      var types1 := if first.StructItem? || first.EnumItem? then types + {DefinedName(first)} else types;
      DuplicateIff(items[1..], functions1, types1);
      DuplicateFirst(items, functions, types);
      hide DuplicateIn;
      DistinctItems(items, functions, types, functions1, types1);
    }
  }

  lemma DuplicateFirst(items: seq<Item>, functions: set<string>, types: set<string>)
    requires items != []
    ensures var first := items[0];
      var functions1 := if first.FunctionItem? then functions + {DefinedName(first)} else functions;
      var types1 := if first.StructItem? || first.EnumItem? then types + {DefinedName(first)} else types;
      DuplicateIn(items, functions, types).None?
      <==> !Defined(first, functions, types) && DuplicateIn(items[1..], functions1, types1).None?
  {
  }

  lemma DistinctItems(items: seq<Item>, functions: set<string>, types: set<string>, functions1: set<string>, types1: set<string>)
    requires items != []
    requires var first := items[0];
      functions1 == (if first.FunctionItem? then functions + {DefinedName(first)} else functions)
      && types1 == if first.StructItem? || first.EnumItem? then types + {DefinedName(first)} else types
    ensures DefinitionsDistinct(items) && (forall item | item in items :: !Defined(item, functions, types))
      <==> !Defined(items[0], functions, types) && DefinitionsDistinct(items[1..])
           && forall item | item in items[1..] :: !Defined(item, functions1, types1)
  {
    hide DefinedName;
    var first, rest := items[0], items[1..];
    assert items == [first] + rest;
    DistinctFirst(first, rest);
    assert forall item | item in rest ::
      Defined(item, functions1, types1) <==> Defined(item, functions, types) || SameDefinition(first, item);
  }

  lemma DistinctFirst(first: Item, rest: seq<Item>)
    ensures DefinitionsDistinct([first] + rest)
      <==> DefinitionsDistinct(rest) && forall item | item in rest :: !SameDefinition(first, item)
  {
    hide SameDefinition;
    var items := [first] + rest;
    if DefinitionsDistinct(items) {
      forall a, b | 0 <= a < b < |rest| ensures !SameDefinition(rest[a], rest[b]) {
        assert items[a + 1] == rest[a] && items[b + 1] == rest[b];
      }
      forall item | item in rest ensures !SameDefinition(first, item) {
        var k: nat :| k < |rest| && rest[k] == item;
        assert items[0] == first && items[k + 1] == item;
      }
    }
    if DefinitionsDistinct(rest) && forall item | item in rest :: !SameDefinition(first, item) {
      forall a, b | 0 <= a < b < |items| ensures !SameDefinition(items[a], items[b]) {
        assert items[b] == rest[b - 1] && items[b] in rest;
        if a > 0 {
          assert items[a] == rest[a - 1];
        }
      }
    }
  }

  lemma {:induction false} RepeatedIff(params: seq<string>, seen: set<string>)
    ensures RepeatedParam(params, seen).None? <==> Distinct(params) && forall p | p in params :: p !in seen
    decreases |params|
  {
    if params != [] {
      RepeatedIff(params[1..], seen + {params[0]});
      assert params == [params[0]] + params[1..];
      if Distinct(params) {
        forall a, b | 0 <= a < b < |params[1..]| ensures params[1..][a] != params[1..][b] {
          assert params[a + 1] != params[b + 1];
        }
        forall p | p in params[1..] ensures p != params[0] {
          var k: nat :| k < |params[1..]| && params[1..][k] == p;
          assert params[0] != params[k + 1];
        }
      }
      if Distinct(params[1..]) && params[0] !in params[1..] {
        forall a, b | 0 <= a < b < |params| ensures params[a] != params[b] {
          assert params[b] == params[1..][b - 1] && params[b] in params[1..];
          if a > 0 {
            assert params[a] == params[1..][a - 1];
          }
        }
      }
    }
  }

  lemma {:induction false} RepeatedTypeParamIff(items: seq<Item>)
    ensures RepeatedTypeParam(items).None? <==> TypeParamsDistinct(items)
    decreases |items|
  {
    if items != [] {
      RepeatedIff(TypeParamsOfItem(items[0]).1, {});
      RepeatedTypeParamIff(items[1..]);
      hide RepeatedParam, TypeParamsOfItem;
      assert items == [items[0]] + items[1..];
    }
  }

  /** Monomorphisation of a tidy program succeeds exactly if no definition and no type parameter is repeated,
      the plain items and all definitions demanded give type arguments to templates, and as many as these
      take, no extern function is generic, at most 256 instances are demanded, and no first route to an
      instance passes two instances of one template. */
  lemma SucceedsIff(items: seq<Item>)
    requires Tidy(items)
    ensures var tpl := TemplatesOf(items); var from := ItemsUses(tpl, items);
      Monomorphize(items).Ok?
      <==> DefinitionsDistinct(items) && TypeParamsDistinct(items)
           && (forall item | item in items :: WellAppliedItem(tpl, item))
           && (forall i | Demands(tpl, from, i) :: Definable(tpl, i))
           && AtMost256(tpl, from)
           && forall trail, nodes | FirstRoute(tpl, from, trail, nodes) :: TemplatesDiffer(nodes)
  {
    var tpl := TemplatesOf(items);
    DuplicateIff(items, {}, {});
    RepeatedTypeParamIff(items);
    TidyTemplates(items);
    ItemsUsesKeyable(tpl, items);
    hide TemplatesOk, Expand, Definable, Demands, FirstRoute, TemplatesDiffer, AllKeyableUses, AtMost256, WellAppliedItem, ItemsUses,
      DefinitionsDistinct, TypeParamsDistinct, DuplicateIn, RepeatedTypeParam, TemplatesOf, RewriteItems, Tidy;
    assert Collect(items).Ok? <==> DefinitionsDistinct(items) && TypeParamsDistinct(items) by {
      assert forall item: Item :: !Defined(item, {}, {});
    }
    if Collect(items).Ok? {
      RewritesIffExpands(items);
      ExpandsIff(tpl, ItemsUses(tpl, items));
    }
  }

  // ---------------------------------------------------------------------------
  // The order of the items matters
  // ---------------------------------------------------------------------------

  /** `struct List[T] { next: *List[int] }`, and statics of two of its instances. */
  function TwoLists(first: Type, second: Type): seq<Item> {
    [StructItem(StructDef("List", ["T"], [Param("next", Ptr(Applied("List", [Int])))])),
     StaticItem(Static("r", Applied("List", [first]), None)),
     StaticItem(Static("s", Applied("List", [second]), None))]
  }

  /** A list of bools demands a list of ints, in the middle of its own expansion. That is an error if the
      bools come first, and none if the ints have been expanded before. */
  lemma OrderMatters()
    ensures Monomorphize(TwoLists(Int, Bool)).Ok? && Monomorphize(TwoLists(Bool, Int)).Err?
  {
    ListsExpand(Int, Bool);
    ListsExpand(Bool, Int);
    var tpl := TemplatesOf(TwoLists(Int, Bool));
    var ints, bools := TypeInst("List", [Int]), TypeInst("List", [Bool]);
    assert ints != bools;
    ListDemands(tpl, ints);
    ListDemands(tpl, bools);
    hide Definable, DefinitionUses, Expand;
    ExpandInts(tpl, ints, bools);
    ExpandBools(tpl, ints, bools);
  }

  /** All instances of the list demand the list of ints. */
  lemma ListDemands(tpl: Templates, i: Instance)
    requires tpl == TemplatesOf(TwoLists(Int, Bool)) && i.TypeInst? && i.template == "List" && |i.args| == 1
    ensures Definable(tpl, i) && DefinitionUses(tpl, i) == [TypeInst("List", [Int])]
  {
    ListTemplates(Int, Bool);
    var def := StructDef("List", ["T"], [Param("next", Ptr(Applied("List", [Int])))]);
    assert ParamTypes(def.fields) == [Ptr(Applied("List", [Int]))];
    PointerUses(ArgsOf(tpl, i));
  }

  lemma PointerUses(subst: Substitution)
    ensures TypesUses(subst, [Ptr(Applied("List", [Int]))]) == [TypeInst("List", [Int])]
  {
    hide TypeUses, TypesUses;
    var list := Applied("List", [Int]);
    ListUses(subst, Int);
    OneUse(subst, list);
    PointerUse(subst, list);
    OneUse(subst, Ptr(list));
  }

  lemma PointerUse(subst: Substitution, t: Type)
    ensures TypeUses(subst, Ptr(t)) == TypesUses(subst, [t])
  {
    hide TypesUses;
    assert Parts(Ptr(t)) == [t];
    assert TypesUses(subst, [t]) + [] == TypesUses(subst, [t]);
  }

  lemma OneUse(subst: Substitution, t: Type)
    ensures TypesUses(subst, [t]) == TypeUses(subst, t)
  {
    hide TypeUses;
    assert [t][1..] == [] && TypesUses(subst, []) == [];
  }

  lemma ListUses(subst: Substitution, t: Type)
    requires t == Int || t == Bool
    ensures TypeUses(subst, Applied("List", [t])) == [TypeInst("List", [t])]
  {
    assert Parts(t) == [] && TypesUses(subst, []) == [];
    assert TypeUses(subst, t) == [] + [];
    OneUse(subst, t);
    assert FlatTypes(subst, [t][1..]) == [] && FlatTypes(subst, []) == [];
    assert FlatType(subst, t) == t;
    assert FlatTypes(subst, [t]) == [t];
  }

  lemma ListTemplates(first: Type, second: Type)
    ensures TemplatesOf(TwoLists(first, second))
         == Templates(map[], map["List" := StructDef("List", ["T"], [Param("next", Ptr(Applied("List", [Int])))])], map[])
  {
    var items := TwoLists(first, second);
    NoTemplates(items[1..]);
    assert StructTemplates(items) == map["List" := items[0].structDef] + StructTemplates(items[1..]);
    assert FunctionTemplates(items) == map[] + FunctionTemplates(items[1..]);
    assert EnumTemplates(items) == map[] + EnumTemplates(items[1..]);
  }

  lemma {:induction false} NoTemplates(items: seq<Item>)
    requires forall item | item in items :: item.StaticItem?
    ensures FunctionTemplates(items) == map[] && StructTemplates(items) == map[] && EnumTemplates(items) == map[]
    decreases |items|
  {
    if items != [] {
      assert items[0] in items;
      NoTemplates(items[1..]);
    }
  }

  /** Both programs are rewritten exactly if the two statics can be expanded in their order. */
  lemma ListsExpand(first: Type, second: Type)
    requires first in {Int, Bool} && second in {Int, Bool}
    ensures Monomorphize(TwoLists(first, second)).Ok?
      <==> Expand(TemplatesOf(TwoLists(Int, Bool)), {}, {}, [TypeInst("List", [first]), TypeInst("List", [second])]).Some?
  {
    ListsTidy(first, second);
    ListsUses(first, second);
    ListTemplates(first, second);
    ListTemplates(Int, Bool);
    hide Expand, ItemsUses, TemplatesOf, TwoLists, Tidy, Collect, WellAppliedItem;
    RewritesIffExpands(TwoLists(first, second));
  }

  lemma ListsUses(first: Type, second: Type)
    requires first in {Int, Bool} && second in {Int, Bool}
    ensures ItemsUses(TemplatesOf(TwoLists(first, second)), TwoLists(first, second))
         == [TypeInst("List", [first]), TypeInst("List", [second])]
  {
    hide ItemUses, TypeUses, TemplatesOf, ItemsUses;
    var items := TwoLists(first, second);
    var tpl := TemplatesOf(items);
    ListUses(map[], first);
    ListUses(map[], second);
    TemplateUses(tpl, items[0]);
    StaticUses(tpl, "r", first);
    StaticUses(tpl, "s", second);
    ThreeUses(tpl, items);
  }

  lemma ThreeUses(tpl: Templates, items: seq<Item>)
    requires |items| == 3
    ensures ItemsUses(tpl, items) == ItemUses(tpl, items[0]) + ItemUses(tpl, items[1]) + ItemUses(tpl, items[2])
  {
    hide ItemUses;
    assert items[1..][0] == items[1] && items[1..][1..][0] == items[2] && items[1..][1..][1..] == [];
    assert ItemsUses(tpl, items[1..][1..]) == ItemUses(tpl, items[2]) + [];
  }

  lemma TemplateUses(tpl: Templates, item: Item)
    requires IsTemplate(item)
    ensures ItemUses(tpl, item) == []
  {
  }

  lemma StaticUses(tpl: Templates, name: string, t: Type)
    ensures ItemUses(tpl, StaticItem(Static(name, Applied("List", [t]), None))) == TypeUses(map[], Applied("List", [t]))
  {
    hide TypeUses;
    assert ExprsUses(tpl, map[], []) == [];
    assert TypeUses(map[], Applied("List", [t])) + [] == TypeUses(map[], Applied("List", [t]));
  }

  lemma ListsTidy(first: Type, second: Type)
    requires first in {Int, Bool} && second in {Int, Bool}
    ensures Tidy(TwoLists(first, second)) && Collect(TwoLists(first, second)).Ok?
    ensures forall item | item in TwoLists(first, second) :: WellAppliedItem(TemplatesOf(TwoLists(first, second)), item)
  {
    var items := TwoLists(first, second);
    hide DuplicateIn, RepeatedTypeParam, TemplatesOf, TidyItem, WellAppliedItem, Defined;
    DuplicateIff(items, {}, {});
    RepeatedTypeParamIff(items);
    NoneDefined(items);
    forall item | item in items ensures TidyItem(item) && WellAppliedItem(TemplatesOf(items), item) {
      ListItemTidy(TemplatesOf(items), item, first, second);
    }
  }

  lemma NoneDefined(items: seq<Item>)
    ensures forall item | item in items :: !Defined(item, {}, {})
  {
  }

  lemma ListItemTidy(tpl: Templates, item: Item, first: Type, second: Type)
    requires first in {Int, Bool} && second in {Int, Bool} && item in TwoLists(first, second)
    ensures TidyItem(item) && WellAppliedItem(tpl, item)
  {
    if item.StructItem? {
      PtrTidy();
      assert ParamTypes(item.structDef.fields) == [Ptr(Applied("List", [Int]))];
    } else {
      ListTypeTidy(item.global.ty.args[0]);
    }
  }

  lemma ListTypeTidy(t: Type)
    requires t in {Int, Bool}
    ensures TidyType(Applied("List", [t]))
  {
    assert Parts(t) == [];
    assert TidyType(t) && TupleFree(t);
    assert AllTidyTypes([t]) && AllTupleFree([t]) by { assert [t][1..] == []; }
  }

  lemma PtrTidy()
    ensures AllTidyTypes([Ptr(Applied("List", [Int]))])
  {
    var list := Applied("List", [Int]);
    ListTypeTidy(Int);
    assert Parts(Ptr(list)) == [list];
    assert AllTidyTypes([list]) by { assert [list][1..] == []; }
    assert TidyType(Ptr(list));
    assert [Ptr(list)][1..] == [];
  }

  lemma ExpandInts(tpl: Templates, ints: Instance, bools: Instance)
    requires Definable(tpl, ints) && Definable(tpl, bools) && ints != bools
    requires DefinitionUses(tpl, ints) == [ints] && DefinitionUses(tpl, bools) == [ints]
    ensures Expand(tpl, {}, {}, [ints, bools]).Some?
  {
    hide Definable, DefinitionUses, TemplateOf, Expand;
    assert [ints, bools] == [ints] + [bools];
    ExpandConcat(tpl, {}, {}, [ints], [bools]);
    ExpandOne(tpl, {}, {}, ints);
    ExpandOne(tpl, {TemplateOf(ints)}, {ints}, ints);
    ExpandOne(tpl, {}, {ints}, bools);
    ExpandOne(tpl, {TemplateOf(bools)}, {ints, bools}, ints);
    assert {} + {TemplateOf(ints)} == {TemplateOf(ints)} && {} + {TemplateOf(bools)} == {TemplateOf(bools)};
    assert {} + {ints} == {ints} && {ints} + {bools} == {ints, bools};
  }

  lemma ExpandBools(tpl: Templates, ints: Instance, bools: Instance)
    requires Definable(tpl, ints) && Definable(tpl, bools) && ints != bools && TemplateOf(ints) == TemplateOf(bools)
    requires DefinitionUses(tpl, bools) == [ints]
    ensures Expand(tpl, {}, {}, [bools, ints]).None?
  {
    hide Definable, DefinitionUses, TemplateOf, Expand;
    assert [bools, ints] == [bools] + [ints];
    ExpandConcat(tpl, {}, {}, [bools], [ints]);
    ExpandOne(tpl, {}, {}, bools);
    ExpandOne(tpl, {} + {TemplateOf(bools)}, {} + {bools}, ints);
  }
}
