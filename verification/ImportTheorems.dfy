/** Import expansion as a whole: when it succeeds, which files it visits, and what it puts out. */
module ImportTheorems {
  import opened Imports
  import opened ImportOrder

  /** The trail leads to the file without passing any file twice, and comes before every other trail
      that does. */
  ghost predicate FirstRoute<T>(disk: Disk<T>, root: File<T>, trail: Trail, file: Path) {
    (exists files :: SimpleRoute(disk, root, trail, files, file))
    && forall other, files :: SimpleRoute(disk, root, other, files, file) ==> NotAfter(trail, other)
  }

  ghost predicate SimpleRoute<T>(disk: Disk<T>, root: File<T>, trail: Trail, files: seq<Path>, file: Path) {
    Route(disk, root.items, root.dir, trail, files) && Distinct(files) && files[|files| - 1] == file
  }

  /** Exactly the files that imports lead to are visited, each once, the cycles of the graph
      notwithstanding. The first file is among them exactly when it can be reached from itself. */
  lemma VisitsWhatIsReachable<T>(disk: Disk<T>, root: File<T>)
    requires Load(disk, root).Done?
    ensures forall file :: file in Files(Load(disk, root).found) <==> Reaches(disk, root, file)
    ensures NoRepeats(Load(disk, root).found)
  {
    var found := Load(disk, root).found;
    FoundOnce(disk, root.items, 0, root.dir, {});
    VisitsClosed(disk, root.items, 0, root.dir, {});
    assert {} + Files(found) == Files(found);
    forall file ensures file in Files(found) <==> Reaches(disk, root, file) {
      if file in Files(found) {
        var f: Found :| f in found && f.file == file;
        var i: nat :| i < |found| && found[i] == f;
        var files := FoundByRoute(disk, root.items, 0, root.dir, {}, i);
      }
      if Reaches(disk, root, file) {
        var trail, files :| Route(disk, root.items, root.dir, trail, files) && files[|files| - 1] == file;
        assert Leads(disk, root.items[trail[0]], root.dir, files[0]);
        RouteStaysInside(disk, root.items, root.dir, trail, files, Files(found), Files(found));
      }
    }
  }

  /** Each file is visited along the route to it that comes first in depth-first order, among all the
      routes that pass no file twice. */
  lemma VisitsFirstRoutes<T>(disk: Disk<T>, root: File<T>, i: nat)
    requires Load(disk, root).Done? && i < |Load(disk, root).found|
    ensures FirstRoute(disk, root, Load(disk, root).found[i].trail, Load(disk, root).found[i].file)
  {
    var found := Load(disk, root).found;
    var f := found[i];
    var files := FoundByRoute(disk, root.items, 0, root.dir, {}, i);
    assert SimpleRoute(disk, root, f.trail, files, f.file);
    FoundOnce(disk, root.items, 0, root.dir, {});
    forall other, files | SimpleRoute(disk, root, other, files, f.file) ensures NotAfter(f.trail, other) {
      var j := FoundNoLater(disk, root.items, 0, root.dir, {}, other, files);
      assert j == i;
    }
  }

  /** Where an item stands: in the first file itself, or in a file that imports lead to, at the end of
      the first route to it. */
  ghost predicate Stands<T>(disk: Disk<T>, root: File<T>, e: Emitted<T>) {
    InFirst(root, e) || exists trail, file, j :: InReached(disk, root, trail, file, j, e)
  }

  ghost predicate InFirst<T>(root: File<T>, e: Emitted<T>) {
    |e.trail| == 1 && e.trail[0] < |root.items| && root.items[e.trail[0]] == Plain(e.item)
  }

  ghost predicate InReached<T>(disk: Disk<T>, root: File<T>, trail: Trail, file: Path, j: nat, e: Emitted<T>) {
    FirstRoute(disk, root, trail, file) && InFile(disk, Found(file, trail), j, e)
  }

  /** What is put out, said without the walk: the items that stand somewhere, each position once, in
      depth-first order. An item of the first file stands in two places exactly when the first file
      can be reached from itself. */
  lemma PutsOutInOrder<T>(disk: Disk<T>, root: File<T>)
    requires Load(disk, root).Done?
    ensures Ascending(Load(disk, root).out)
    ensures forall e :: e in Load(disk, root).out <==> Stands(disk, root, e)
  {
    var r := Load(disk, root);
    OutAscends(disk, root.items, 0, root.dir, {});
    forall e ensures e in r.out <==> Stands(disk, root, e) {
      if e in r.out {
        OutStands(disk, root, e);
      }
      if Stands(disk, root, e) {
        StandsIsPlaced(disk, root, e);
        PlacedIsOut(disk, root.items, 0, root.dir, {}, e);
      }
    }
  }

  lemma OutStands<T>(disk: Disk<T>, root: File<T>, e: Emitted<T>)
    requires Load(disk, root).Done? && e in Load(disk, root).out
    ensures Stands(disk, root, e)
  {
    var r := Load(disk, root);
    var i: nat :| i < |r.out| && r.out[i] == e;
    OutIsPlaced(disk, root.items, 0, root.dir, {}, i);
    if f: Found, j: nat :| f in r.found && InFile(disk, f, j, e) {
      var n: nat :| n < |r.found| && r.found[n] == f;
      VisitsFirstRoutes(disk, root, n);
      assert InReached(disk, root, f.trail, f.file, j, e);
    } else {
      assert InFirst(root, e);
    }
  }

  lemma StandsIsPlaced<T>(disk: Disk<T>, root: File<T>, e: Emitted<T>)
    requires Load(disk, root).Done? && Stands(disk, root, e)
    ensures Placed(disk, root.items, 0, Load(disk, root).found, e)
  {
    var r := Load(disk, root);
    if InFirst(root, e) {
      assert e.trail == [e.trail[0]];
    } else {
      var trail, file, j :| InReached(disk, root, trail, file, j, e);
      var f := FirstRouteIsTaken(disk, root, trail, file);
    }
  }

  /** First routes are unique, so the walk took this one. */
  lemma FirstRouteIsTaken<T>(disk: Disk<T>, root: File<T>, trail: Trail, file: Path) returns (f: Found)
    requires Load(disk, root).Done? && FirstRoute(disk, root, trail, file)
    ensures f in Load(disk, root).found && f == Found(file, trail)
  {
    var found := Load(disk, root).found;
    var files :| SimpleRoute(disk, root, trail, files, file);
    var i := FoundNoLater(disk, root.items, 0, root.dir, {}, trail, files);
    f := found[i];
    var others := FoundByRoute(disk, root.items, 0, root.dir, {}, i);
    assert SimpleRoute(disk, root, f.trail, others, file);
    Antisymmetric(f.trail, trail);
  }

  lemma {:induction false} Antisymmetric(a: Trail, b: Trail)
    requires NotAfter(a, b) && NotAfter(b, a)
    ensures a == b
    decreases a
  {
    if a != b {
      if a != [] && a[0] == b[0] {
        assert a == [a[0]] + a[1..] && b == [b[0]] + b[1..];
        Antisymmetric(a[1..], b[1..]);
      }
    }
  }

  // ---------------------------------------------------------------------------
  // When it succeeds
  // ---------------------------------------------------------------------------

  /** Every import of the file names a file that can be read. */
  ghost predicate Loadable<T>(disk: Disk<T>, file: File<T>) {
    forall i :: 0 <= i < |file.items| && file.items[i].Import? ==>
      (file.dir, file.items[i].rel) in disk.resolve && disk.resolve[(file.dir, file.items[i].rel)] in disk.files
  }

  /** The walk ends on every graph, and it succeeds exactly when every file it has to read can be
      read: those that the first file and the files reachable from it import. */
  lemma SucceedsIffLoadable<T>(disk: Disk<T>, root: File<T>)
    ensures Load(disk, root).Done? <==>
      Loadable(disk, root) && forall file :: Reaches(disk, root, file) ==> file in disk.files && Loadable(disk, disk.files[file])
  {
    if Load(disk, root).Done? {
      var found := Files(Load(disk, root).found);
      VisitsWhatIsReachable(disk, root);
      VisitsClosed(disk, root.items, 0, root.dir, {});
      assert {} + found == found;
      assert forall file :: file in found ==> FileClosed(disk, file, found);
    } else {
      var trail, files := FailsSomewhere(disk, root, 0, {});
      if files != [] {
        assert Reaches(disk, root, files[|files| - 1]);
      }
    }
  }

  /** A failed walk has met an import that does not lead to a readable file, in the first file or at
      the end of a route. */
  lemma {:induction false} FailsSomewhere<T>(disk: Disk<T>, root: File<T>, k: nat, visited: set<Path>)
      returns (trail: Trail, files: seq<Path>)
    requires k <= |root.items| && Walk(disk, root.items, k, root.dir, visited).Failed?
    ensures files == [] ==> !Loadable(disk, root)
    ensures files != [] ==>
      Route(disk, root.items, root.dir, trail, files) && files[|files| - 1] in disk.files
      && !Loadable(disk, disk.files[files[|files| - 1]])
    decreases disk.resolve.Values - visited, |root.items| - k
  {
    var items := root.items;
    if items[k].Plain? {
      trail, files := FailsSomewhere(disk, root, k + 1, visited);
    } else if (root.dir, items[k].rel) !in disk.resolve {
      trail, files := [], [];
    } else {
      var file := Target(disk, items, k, root.dir);
      if file in visited {
        trail, files := FailsSomewhere(disk, root, k + 1, visited);
      } else if file !in disk.files {
        trail, files := [], [];
      } else {
        var sub := Walk(disk, disk.files[file].items, 0, disk.files[file].dir, visited + {file});
        if sub.Failed? {
          trail, files := FailsSomewhere(disk, disk.files[file], 0, visited + {file});
          assert files != [] ==> ([k] + trail)[1..] == trail && ([file] + files)[1..] == files;
          trail, files := if files == [] then [k] else [k] + trail, [file] + files;
        } else {
          trail, files := FailsSomewhere(disk, root, k + 1, visited + {file} + Files(sub.found));
        }
      }
    }
  }
}
