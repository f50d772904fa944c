/** Import expansion as it runs: one list of items and one list of visited files, both growing while
    the walk recurses. It is proved to build what the walk of Imports.dfy describes. */
module ImportClass {
  import opened Imports
  import opened ImportOrder
  import opened Wrappers

  function ItemsOf<T>(out: seq<Emitted<T>>): (r: seq<T>)
    ensures |r| == |out| && forall i :: 0 <= i < |out| ==> r[i] == out[i].item
  {
    seq(|out|, i requires 0 <= i < |out| => out[i].item)
  }

  function FilesOf(found: seq<Found>): (r: seq<Path>)
    ensures |r| == |found| && forall i :: 0 <= i < |found| ==> r[i] == found[i].file
  {
    seq(|found|, i requires 0 <= i < |found| => found[i].file)
  }

  function Elements(visited: seq<Path>): set<Path> {
    set f | f in visited
  }

  lemma ElementsGrow(visited: seq<Path>, found: seq<Found>)
    ensures Elements(visited + FilesOf(found)) == Elements(visited) + Files(found)
  {
    forall p: Path ensures p in Files(found) <==> p in FilesOf(found) {
      if p in Files(found) {
        var i: nat :| i < |found| && found[i].file == p;
        assert FilesOf(found)[i] == p;
      }
      if p in FilesOf(found) {
        var i: nat :| i < |found| && FilesOf(found)[i] == p;
        assert found[i] in found;
      }
    }
  }

  lemma BeforeTwice<T>(a: seq<Emitted<T>>, f: seq<Found>, b: seq<Emitted<T>>, g: seq<Found>, rest: Tour<T>)
    ensures Before(a, f, Before(b, g, rest)) == Before(a + b, f + g, rest)
  {
    if rest.Done? {
      assert a + (b + rest.out) == a + b + rest.out;
      assert f + (g + rest.found) == f + g + rest.found;
    }
  }

  lemma BeforeNothing<T>(rest: Tour<T>)
    ensures Before([], [], rest) == rest
  {
    if rest.Done? {
      assert [] + rest.out == rest.out && [] + rest.found == rest.found;
    }
  }

  /** What one item adds to the walk. */
  function Step<T>(disk: Disk<T>, items: seq<Item<T>>, i: nat, dir: string, visited: set<Path>): Tour<T>
    requires i < |items|
  {
    if items[i].Plain? then Done([Emitted([i], items[i].item)], [])
    else if (dir, items[i].rel) !in disk.resolve then Failed(CannotResolve(items[i].rel))
    else
      var file := disk.resolve[(dir, items[i].rel)];
      if file in visited then Done([], [])
      else if file !in disk.files then Failed(CannotRead(items[i].rel))
      else
        var sub := Walk(disk, disk.files[file].items, 0, disk.files[file].dir, visited + {file});
        if sub.Failed? then sub else Done(Deeper(i, sub.out), [Found(file, [i])] + DeeperFound(i, sub.found))
  }

  lemma WalkBySteps<T>(disk: Disk<T>, items: seq<Item<T>>, i: nat, dir: string, visited: set<Path>)
    requires i < |items|
    ensures var step := Step(disk, items, i, dir, visited);
            Walk(disk, items, i, dir, visited) ==
              if step.Failed? then step
              else Before(step.out, step.found, Walk(disk, items, i + 1, dir, visited + Files(step.found)))
  {
    if Enters(disk, items, i, dir, visited) {
      var file := Target(disk, items, i, dir);
      var sub := Walk(disk, disk.files[file].items, 0, disk.files[file].dir, visited + {file});
      if sub.Done? {
        FilesDeeper(i, sub.found);
        FilesJoin([Found(file, [i])], DeeperFound(i, sub.found));
        assert Files([Found(file, [i])]) == {file};
        assert visited + ({file} + Files(sub.found)) == visited + {file} + Files(sub.found);
      }
    } else {
      assert visited + Files([]) == visited;
      BeforeNothing(Walk(disk, items, i + 1, dir, visited));
    }
  }

  lemma Appended<T>(out: seq<T>, a: seq<Emitted<T>>, b: seq<Emitted<T>>, visited: seq<Path>, f: seq<Found>, g: seq<Found>)
    ensures out + ItemsOf(a) + ItemsOf(b) == out + ItemsOf(a + b)
    ensures visited + FilesOf(f) + FilesOf(g) == visited + FilesOf(f + g)
  {
  }

  lemma Brings<T>(i: nat, file: Path, sub: Tour<T>, visited: seq<Path>)
    requires sub.Done?
    ensures ItemsOf(Deeper(i, sub.out)) == ItemsOf(sub.out)
    ensures visited + FilesOf([Found(file, [i])] + DeeperFound(i, sub.found)) == visited + [file] + FilesOf(sub.found)
  {
  }

  class Loader<T> {
    const disk: Disk<T>
    var out: seq<T>
    var visited: seq<Path>

    constructor (disk: Disk<T>)
      ensures this.disk == disk && out == [] && visited == []
    {
      this.disk := disk;
      out, visited := [], [];
    }

    /** On success the items are appended in order, and the files in the order of their first visit.
        After a failure neither list is used again. */
    method ResolveImports(items: seq<Item<T>>, dir: string) returns (fault: Option<Fault>)
      modifies this
      ensures var walk := Walk(disk, items, 0, dir, Elements(old(visited)));
              if fault.Some? then walk == Failed(fault.value)
              else walk.Done? && out == old(out) + ItemsOf(walk.out) && visited == old(visited) + FilesOf(walk.found)
      decreases disk.resolve.Values - Elements(visited), 2
    {
      ghost var whole := Walk(disk, items, 0, dir, Elements(visited));
      ghost var emitted, found := [], [];
      BeforeNothing(whole);
      var i := 0;
      while i < |items|
        invariant i <= |items|
        invariant Elements(old(visited)) <= Elements(visited)
        invariant out == old(out) + ItemsOf(emitted) && visited == old(visited) + FilesOf(found)
        invariant whole == Before(emitted, found, Walk(disk, items, i, dir, Elements(visited)))
      {
        ghost var step := Step(disk, items, i, dir, Elements(visited));
        WalkBySteps(disk, items, i, dir, Elements(visited));
        hide Walk, Step, Before, ItemsOf, FilesOf, Elements, Files;
        fault := Take(items, i, dir);
        if fault.Some? {
          return;
        }
        BeforeTwice(emitted, found, step.out, step.found, Walk(disk, items, i + 1, dir, Elements(visited)));
        Appended(old(out), emitted, step.out, old(visited), found, step.found);
        emitted, found := emitted + step.out, found + step.found;
        i := i + 1;
      }
      assert emitted + [] == emitted && found + [] == found;
      return None;
    }

    /** Takes one item: puts it out, or imports the file it names unless that was visited before. */
    method Take(items: seq<Item<T>>, i: nat, dir: string) returns (fault: Option<Fault>)
      requires i < |items|
      modifies this
      ensures var step := Step(disk, items, i, dir, Elements(old(visited)));
              if fault.Some? then step == Failed(fault.value)
              else step.Done? && out == old(out) + ItemsOf(step.out) && visited == old(visited) + FilesOf(step.found)
                   && Elements(visited) == Elements(old(visited)) + Files(step.found)
      ensures fault.None? ==> Elements(old(visited)) <= Elements(visited)
      decreases disk.resolve.Values - Elements(visited), 1
    {
      ghost var step := Step(disk, items, i, dir, Elements(visited));
      if step.Done? {
        ElementsGrow(visited, step.found);
      }
      match items[i]
      case Plain(item) =>
        out := out + [item];
        return None;
      case Import(rel) =>
        if (dir, rel) !in disk.resolve {
          return Some(CannotResolve(rel));
        }
        var file := disk.resolve[(dir, rel)];
        if file in visited {
          return None;
        }
        fault := Enter(rel, file);
        if fault.None? {
          Brings(i, file, Walk(disk, disk.files[file].items, 0, disk.files[file].dir, Elements(old(visited)) + {file}),
                 old(visited));
        }
    }

    /** Reads a file for the first time. It counts as visited from here on, also for its own imports. */
    method Enter(rel: string, file: Path) returns (fault: Option<Fault>)
      requires file !in visited && file in disk.resolve.Values
      modifies this
      ensures file !in disk.files ==> fault == Some(CannotRead(rel))
      ensures file in disk.files ==>
        var sub := Walk(disk, disk.files[file].items, 0, disk.files[file].dir, Elements(old(visited)) + {file});
        if fault.Some? then sub == Failed(fault.value)
        else sub.Done? && out == old(out) + ItemsOf(sub.out) && visited == old(visited) + [file] + FilesOf(sub.found)
      decreases disk.resolve.Values - Elements(visited), 0
    {
      visited := visited + [file];
      assert Elements(visited) == Elements(old(visited)) + {file};
      if file !in disk.files {
        return Some(CannotRead(rel));
      }
      assert file in disk.resolve.Values - Elements(old(visited));
      fault := ResolveImports(disk.files[file].items, disk.files[file].dir);
    }
  }

  /** The program that starts in a file. */
  method LoadProgram<T>(disk: Disk<T>, root: File<T>) returns (fault: Option<Fault>, program: seq<T>)
    ensures var walk := Load(disk, root);
            if fault.Some? then walk == Failed(fault.value) else walk.Done? && program == ItemsOf(walk.out)
  {
    var loader := new Loader(disk);
    assert Elements([]) == {};
    fault := loader.ResolveImports(root.items, root.dir);
    program := loader.out;
    assert fault.None? ==> program == ItemsOf(Load(disk, root).out);
  }
}
