/** What the walk of Imports.dfy visits and in which order, stated by routes alone. */
module ImportOrder {
  import opened Imports

  /** The file that an import names, when the walk gets past it. */
  function Target<T>(disk: Disk<T>, items: seq<Item<T>>, k: nat, dir: string): Path
    requires k < |items| && items[k].Import? && (dir, items[k].rel) in disk.resolve
  {
    disk.resolve[(dir, items[k].rel)]
  }

  predicate Enters<T>(disk: Disk<T>, items: seq<Item<T>>, k: nat, dir: string, visited: set<Path>) {
    k < |items| && items[k].Import? && (dir, items[k].rel) in disk.resolve
    && Target(disk, items, k, dir) !in visited && Target(disk, items, k, dir) in disk.files
  }

  function Inside<T>(disk: Disk<T>, items: seq<Item<T>>, k: nat, dir: string, visited: set<Path>): Tour<T>
    requires Enters(disk, items, k, dir, visited)
  {
    var file := Target(disk, items, k, dir);
    Walk(disk, disk.files[file].items, 0, disk.files[file].dir, visited + {file})
  }

  function VisitedAfter<T>(disk: Disk<T>, items: seq<Item<T>>, k: nat, dir: string, visited: set<Path>): set<Path>
    requires k < |items| && Walk(disk, items, k, dir, visited).Done?
  {
    if Enters(disk, items, k, dir, visited)
    then visited + {Target(disk, items, k, dir)} + Files(Inside(disk, items, k, dir, visited).found)
    else visited
  }

  /** The walk, one item at a time. */
  lemma WalkStep<T>(disk: Disk<T>, items: seq<Item<T>>, k: nat, dir: string, visited: set<Path>)
      returns (rest: Tour<T>)
    requires k < |items| && Walk(disk, items, k, dir, visited).Done?
    ensures rest == Walk(disk, items, k + 1, dir, VisitedAfter(disk, items, k, dir, visited)) && rest.Done?
    ensures var r := Walk(disk, items, k, dir, visited);
      if items[k].Plain? then r == Done([Emitted([k], items[k].item)] + rest.out, rest.found)
      else if Enters(disk, items, k, dir, visited) then
        var sub := Inside(disk, items, k, dir, visited);
        sub.Done? && r == Done(Deeper(k, sub.out) + rest.out,
                               [Found(Target(disk, items, k, dir), [k])] + DeeperFound(k, sub.found) + rest.found)
      else (dir, items[k].rel) in disk.resolve && Target(disk, items, k, dir) in visited && r == rest
  {
    hide Files;
    var r := Walk(disk, items, k, dir, visited);
    rest := Walk(disk, items, k + 1, dir, VisitedAfter(disk, items, k, dir, visited));
    if items[k].Plain? {
      assert [] + rest.found == rest.found;
    }
  }

  lemma WalkVisits<T>(disk: Disk<T>, items: seq<Item<T>>, k: nat, dir: string, visited: set<Path>)
    requires k < |items| && Walk(disk, items, k, dir, visited).Done?
    ensures var rest := Walk(disk, items, k + 1, dir, VisitedAfter(disk, items, k, dir, visited));
            rest.Done? && VisitedAfter(disk, items, k, dir, visited) + Files(rest.found)
                          == visited + Files(Walk(disk, items, k, dir, visited).found)
  {
    var rest := WalkStep(disk, items, k, dir, visited);
    hide Walk, Files;
    if Enters(disk, items, k, dir, visited) {
      FilesSplit(disk, items, k, dir, visited);
    }
  }

  lemma FilesJoin(a: seq<Found>, b: seq<Found>)
    ensures Files(a + b) == Files(a) + Files(b)
  {
    forall p: Path ensures p in Files(a + b) <==> p in Files(a) + Files(b) {
      if p in Files(a) + Files(b) {
        var f: Found :| (f in a || f in b) && f.file == p;
        assert f in a + b;
      }
    }
  }

  lemma FilesDeeper(k: nat, found: seq<Found>)
    ensures Files(DeeperFound(k, found)) == Files(found)
  {
    forall p: Path ensures p in Files(DeeperFound(k, found)) <==> p in Files(found) {
      if p in Files(found) {
        var i: nat :| i < |found| && found[i].file == p;
        assert DeeperFound(k, found)[i].file == p && DeeperFound(k, found)[i] in DeeperFound(k, found);
      }
    }
  }

  // ---------------------------------------------------------------------------
  // What is visited
  // ---------------------------------------------------------------------------

  ghost predicate Avoids(files: seq<Path>, visited: set<Path>) {
    forall f :: f in files ==> f !in visited
  }

  /** A route through different files, none of them visited, starting at index `k` or later. */
  ghost predicate FreshRoute<T>(disk: Disk<T>, items: seq<Item<T>>, k: nat, dir: string, visited: set<Path>,
                                trail: Trail, files: seq<Path>) {
    Route(disk, items, dir, trail, files) && trail[0] >= k && Distinct(files) && Avoids(files, visited)
  }

  lemma LongerRoute<T>(disk: Disk<T>, items: seq<Item<T>>, k: nat, dir: string, visited: set<Path>,
                       trail: Trail, files: seq<Path>)
    requires Enters(disk, items, k, dir, visited)
    requires var file := Target(disk, items, k, dir);
             FreshRoute(disk, disk.files[file].items, 0, disk.files[file].dir, visited + {file}, trail, files)
    ensures FreshRoute(disk, items, k, dir, visited, [k] + trail, [Target(disk, items, k, dir)] + files)
  {
    var file := Target(disk, items, k, dir);
    assert ([k] + trail)[1..] == trail && ([file] + files)[1..] == files;
    assert forall f :: f in files ==> f != file;
  }

  /** Every file found is found along a fresh route. */
  lemma {:induction false} FoundByRoute<T>(disk: Disk<T>, items: seq<Item<T>>, k: nat, dir: string,
                                           visited: set<Path>, i: nat)
      returns (files: seq<Path>)
    requires k <= |items| && Walk(disk, items, k, dir, visited).Done?
    requires i < |Walk(disk, items, k, dir, visited).found|
    ensures var f := Walk(disk, items, k, dir, visited).found[i];
            FreshRoute(disk, items, k, dir, visited, f.trail, files) && files[|files| - 1] == f.file
    decreases disk.resolve.Values - visited, |items| - k, 1
  {
    FoundAt(disk, items, k, dir, visited, i);
    var found, after := Walk(disk, items, k, dir, visited).found, VisitedAfter(disk, items, k, dir, visited);
    var rest := Walk(disk, items, k + 1, dir, after);
    hide Walk, Route, FreshRoute, Enters, Inside, VisitedAfter, Files;
    var skipped := |found| - |rest.found|;
    if i >= skipped {
      AfterGrows(disk, items, k, dir, visited);
      files := FoundByRoute(disk, items, k + 1, dir, after, i - skipped);
      EarlierRoute(disk, items, k, dir, visited, found[i].trail, files);
    } else {
      files := FoundBelow(disk, items, k, dir, visited, i);
    }
  }

  lemma {:induction false} FoundBelow<T>(disk: Disk<T>, items: seq<Item<T>>, k: nat, dir: string,
                                         visited: set<Path>, i: nat)
      returns (files: seq<Path>)
    requires k < |items| && Enters(disk, items, k, dir, visited)
    requires Inside(disk, items, k, dir, visited).Done? && i <= |Inside(disk, items, k, dir, visited).found|
    ensures var f := FoundUnder(k, Target(disk, items, k, dir), Inside(disk, items, k, dir, visited).found, i);
            FreshRoute(disk, items, k, dir, visited, f.trail, files) && files[|files| - 1] == f.file
    decreases disk.resolve.Values - visited, |items| - k, 0
  {
    InsideIsWalk(disk, items, k, dir, visited);
    var file, sub := Target(disk, items, k, dir), Inside(disk, items, k, dir, visited);
    hide Walk, Route, FreshRoute, Enters, Inside, Files;
    if i == 0 {
      files := [file];
      ShortRoute(disk, items, k, dir, visited);
    } else {
      var inner := FoundByRoute(disk, disk.files[file].items, 0, disk.files[file].dir, visited + {file}, i - 1);
      LongerRoute(disk, items, k, dir, visited, sub.found[i - 1].trail, inner);
      files := [file] + inner;
    }
  }

  lemma AfterGrows<T>(disk: Disk<T>, items: seq<Item<T>>, k: nat, dir: string, visited: set<Path>)
    requires k < |items| && Walk(disk, items, k, dir, visited).Done?
    ensures visited <= VisitedAfter(disk, items, k, dir, visited)
  {
  }

  lemma FoundAt<T>(disk: Disk<T>, items: seq<Item<T>>, k: nat, dir: string, visited: set<Path>, i: nat)
    requires k <= |items| && Walk(disk, items, k, dir, visited).Done?
    requires i < |Walk(disk, items, k, dir, visited).found|
    ensures k < |items|
    ensures var r, rest := Walk(disk, items, k, dir, visited),
                           Walk(disk, items, k + 1, dir, VisitedAfter(disk, items, k, dir, visited));
      rest.Done? && |rest.found| <= |r.found| &&
      if i >= |r.found| - |rest.found| then r.found[i] == rest.found[i - (|r.found| - |rest.found|)]
      else
        Enters(disk, items, k, dir, visited) &&
        var sub := Inside(disk, items, k, dir, visited);
        sub.Done? && i <= |sub.found| && r.found[i] == FoundUnder(k, Target(disk, items, k, dir), sub.found, i)
  {
    var rest := WalkStep(disk, items, k, dir, visited);
    var found := Walk(disk, items, k, dir, visited).found;
    hide Walk, Enters, VisitedAfter, Files;
    if Enters(disk, items, k, dir, visited) {
      var sub := Inside(disk, items, k, dir, visited);
      hide Inside, Target;
      FoundUnderAt(k, Target(disk, items, k, dir), sub.found, rest.found, i);
    }
  }

  lemma FoundUnderAt(k: nat, file: Path, inner: seq<Found>, more: seq<Found>, i: nat)
    ensures var found := [Found(file, [k])] + DeeperFound(k, inner) + more;
            if i <= |inner| then found[i] == FoundUnder(k, file, inner, i)
            else if i < |found| then found[i] == more[i - (|inner| + 1)]
            else true
  {
  }

  function FoundUnder(k: nat, file: Path, inner: seq<Found>, i: nat): Found
    requires i <= |inner|
  {
    if i == 0 then Found(file, [k]) else Found(inner[i - 1].file, [k] + inner[i - 1].trail)
  }

  lemma InsideIsWalk<T>(disk: Disk<T>, items: seq<Item<T>>, k: nat, dir: string, visited: set<Path>)
    requires Enters(disk, items, k, dir, visited)
    ensures var file := Target(disk, items, k, dir);
            file in disk.files && file in disk.resolve.Values && file !in visited &&
            Inside(disk, items, k, dir, visited)
            == Walk(disk, disk.files[file].items, 0, disk.files[file].dir, visited + {file})
  {
  }

  lemma ShortRoute<T>(disk: Disk<T>, items: seq<Item<T>>, k: nat, dir: string, visited: set<Path>)
    requires Enters(disk, items, k, dir, visited)
    ensures FreshRoute(disk, items, k, dir, visited, [k], [Target(disk, items, k, dir)])
  {
  }

  lemma EarlierRoute<T>(disk: Disk<T>, items: seq<Item<T>>, k: nat, dir: string, visited: set<Path>,
                        trail: Trail, files: seq<Path>)
    requires k < |items| && Walk(disk, items, k, dir, visited).Done?
    requires FreshRoute(disk, items, k + 1, dir, VisitedAfter(disk, items, k, dir, visited), trail, files)
    ensures FreshRoute(disk, items, k, dir, visited, trail, files)
  {
    assert visited <= VisitedAfter(disk, items, k, dir, visited);
  }

  lemma FoundIsFresh<T>(disk: Disk<T>, items: seq<Item<T>>, k: nat, dir: string, visited: set<Path>)
    requires k <= |items| && Walk(disk, items, k, dir, visited).Done?
    ensures Files(Walk(disk, items, k, dir, visited).found) !! visited
  {
    var found := Walk(disk, items, k, dir, visited).found;
    forall i | 0 <= i < |found| ensures found[i].file !in visited {
      var files := FoundByRoute(disk, items, k, dir, visited, i);
      assert files[|files| - 1] in files;
    }
  }

  ghost predicate NoRepeats(found: seq<Found>) {
    forall i, j :: 0 <= i < j < |found| ==> found[i].file != found[j].file
  }

  lemma {:induction false} FoundOnce<T>(disk: Disk<T>, items: seq<Item<T>>, k: nat, dir: string, visited: set<Path>)
    requires k <= |items| && Walk(disk, items, k, dir, visited).Done?
    ensures NoRepeats(Walk(disk, items, k, dir, visited).found)
    decreases disk.resolve.Values - visited, |items| - k
  {
    if k < |items| {
      var rest := WalkStep(disk, items, k, dir, visited);
      FoundOnce(disk, items, k + 1, dir, VisitedAfter(disk, items, k, dir, visited));
      FoundIsFresh(disk, items, k + 1, dir, VisitedAfter(disk, items, k, dir, visited));
      if Enters(disk, items, k, dir, visited) {
        var file, sub := Target(disk, items, k, dir), Inside(disk, items, k, dir, visited);
        FoundOnce(disk, disk.files[file].items, 0, disk.files[file].dir, visited + {file});
        FoundIsFresh(disk, disk.files[file].items, 0, disk.files[file].dir, visited + {file});
        OnceJoined(file, k, sub.found, rest.found);
      }
    }
  }

  lemma OnceJoined(file: Path, k: nat, inner: seq<Found>, rest: seq<Found>)
    requires NoRepeats(inner) && NoRepeats(rest)
    requires file !in Files(inner) && file !in Files(rest) && Files(inner) !! Files(rest)
    ensures NoRepeats([Found(file, [k])] + DeeperFound(k, inner) + rest)
  {
    assert forall f: Found :: f in inner ==> f.file in Files(inner) && f.file !in Files(rest);
    assert forall f: Found :: f in rest ==> f.file in Files(rest);
  }

  /** Every import from index `k` on resolves to one of these files. */
  ghost predicate Closed<T>(disk: Disk<T>, items: seq<Item<T>>, k: nat, dir: string, within: set<Path>) {
    forall i :: k <= i < |items| && items[i].Import? ==>
      (dir, items[i].rel) in disk.resolve && disk.resolve[(dir, items[i].rel)] in within
  }

  ghost predicate FileClosed<T>(disk: Disk<T>, file: Path, within: set<Path>) {
    file in disk.files && Closed(disk, disk.files[file].items, 0, disk.files[file].dir, within)
  }

  ghost predicate AllClosed<T>(disk: Disk<T>, files: set<Path>, within: set<Path>) {
    forall f :: f in files ==> FileClosed(disk, f, within)
  }

  /** Nothing that a visited file imports is left unvisited. */
  lemma {:induction false} VisitsClosed<T>(disk: Disk<T>, items: seq<Item<T>>, k: nat, dir: string, visited: set<Path>)
    requires k <= |items| && Walk(disk, items, k, dir, visited).Done?
    ensures var found := Files(Walk(disk, items, k, dir, visited).found);
            Closed(disk, items, k, dir, visited + found) && AllClosed(disk, found, visited + found)
    decreases disk.resolve.Values - visited, |items| - k
  {
    if k < |items| {
      var rest := WalkStep(disk, items, k, dir, visited);
      WalkVisits(disk, items, k, dir, visited);
      var found := Files(Walk(disk, items, k, dir, visited).found);
      VisitsClosed(disk, items, k + 1, dir, VisitedAfter(disk, items, k, dir, visited));
      if Enters(disk, items, k, dir, visited) {
        var file, sub := Target(disk, items, k, dir), Inside(disk, items, k, dir, visited);
        VisitsClosed(disk, disk.files[file].items, 0, disk.files[file].dir, visited + {file});
        FilesSplit(disk, items, k, dir, visited);
        assert FileClosed(disk, file, visited + {file} + Files(sub.found));
        assert visited + {file} + Files(sub.found) <= visited + found;
      }
    }
  }

  lemma FilesSplit<T>(disk: Disk<T>, items: seq<Item<T>>, k: nat, dir: string, visited: set<Path>)
    requires k < |items| && Walk(disk, items, k, dir, visited).Done? && Enters(disk, items, k, dir, visited)
    requires Inside(disk, items, k, dir, visited).Done?
    requires Walk(disk, items, k + 1, dir, VisitedAfter(disk, items, k, dir, visited)).Done?
    ensures Files(Walk(disk, items, k, dir, visited).found)
      == {Target(disk, items, k, dir)} + Files(Inside(disk, items, k, dir, visited).found)
         + Files(Walk(disk, items, k + 1, dir, VisitedAfter(disk, items, k, dir, visited)).found)
  {
    var rest := WalkStep(disk, items, k, dir, visited);
    var file, sub := Target(disk, items, k, dir), Inside(disk, items, k, dir, visited);
    FilesDeeper(k, sub.found);
    assert Files([Found(file, [k])]) == {file};
    hide Walk, Files;
    FilesJoin([Found(file, [k])] + DeeperFound(k, sub.found), rest.found);
    FilesJoin([Found(file, [k])], DeeperFound(k, sub.found));
  }

  /** A route that starts inside a closed set of files never leaves it. */
  lemma {:induction false} RouteStaysInside<T>(disk: Disk<T>, items: seq<Item<T>>, dir: string, trail: Trail,
                                               files: seq<Path>, inside: set<Path>, within: set<Path>)
    requires Route(disk, items, dir, trail, files)
    requires files[0] in inside && AllClosed(disk, inside, within)
    requires forall f :: f in files && f in within ==> f in inside
    ensures forall f :: f in files ==> f in inside
    decreases trail
  {
    if |trail| > 1 {
      var file := disk.files[files[0]];
      assert FileClosed(disk, files[0], within);
      assert Leads(disk, file.items[trail[1..][0]], file.dir, files[1..][0]);
      RouteStaysInside(disk, file.items, file.dir, trail[1..], files[1..], inside, within);
      assert forall f :: f in files ==> f == files[0] || f in files[1..];
    }
  }

  // ---------------------------------------------------------------------------
  // In which order
  // ---------------------------------------------------------------------------

  predicate NotAfter(a: Trail, b: Trail) {
    a == b || Less(a, b)
  }

  /** A file that a fresh route leads to is found, and no later than along that route. */
  lemma {:induction false} FoundNoLater<T>(disk: Disk<T>, items: seq<Item<T>>, k: nat, dir: string,
                                           visited: set<Path>, trail: Trail, files: seq<Path>) returns (i: nat)
    requires k <= |items| && Walk(disk, items, k, dir, visited).Done?
    requires FreshRoute(disk, items, k, dir, visited, trail, files)
    ensures i < |Walk(disk, items, k, dir, visited).found|
    ensures var f := Walk(disk, items, k, dir, visited).found[i];
            f.file == files[|files| - 1] && NotAfter(f.trail, trail)
    decreases disk.resolve.Values - visited, |items| - k, 2
  {
    RouteStarts(disk, items, k, dir, visited, trail, files);
    hide Walk, Route, FreshRoute, Enters, Inside, VisitedAfter, Files;
    var rest := WalkStep(disk, items, k, dir, visited);
    if !Enters(disk, items, k, dir, visited) {
      StartsLater(disk, items, k, dir, visited, trail, files);
      i := FoundNoLater(disk, items, k + 1, dir, visited, trail, files);
    } else if files[|files| - 1] in {Target(disk, items, k, dir)} + Files(Inside(disk, items, k, dir, visited).found) {
      i := FoundInside(disk, items, k, dir, visited, trail, files);
    } else {
      AfterEntering(disk, items, k, dir, visited);
      RouteOutside(disk, items, k, dir, visited, trail, files);
      var n := FoundNoLater(disk, items, k + 1, dir, VisitedAfter(disk, items, k, dir, visited), trail, files);
      i := FoundInRest(disk, items, k, dir, visited, n);
    }
  }

  lemma FoundInRest<T>(disk: Disk<T>, items: seq<Item<T>>, k: nat, dir: string, visited: set<Path>, n: nat)
      returns (i: nat)
    requires k < |items| && Walk(disk, items, k, dir, visited).Done?
    requires var rest := Walk(disk, items, k + 1, dir, VisitedAfter(disk, items, k, dir, visited));
             rest.Done? && n < |rest.found|
    ensures var rest := Walk(disk, items, k + 1, dir, VisitedAfter(disk, items, k, dir, visited));
            i < |Walk(disk, items, k, dir, visited).found| && Walk(disk, items, k, dir, visited).found[i] == rest.found[n]
  {
    var rest := WalkStep(disk, items, k, dir, visited);
    hide Walk, Files, Inside, Enters;
    i := |Walk(disk, items, k, dir, visited).found| - |rest.found| + n;
  }

  lemma RouteStarts<T>(disk: Disk<T>, items: seq<Item<T>>, k: nat, dir: string, visited: set<Path>,
                       trail: Trail, files: seq<Path>)
    requires FreshRoute(disk, items, k, dir, visited, trail, files)
    ensures |files| == |trail| > 0 && k <= trail[0] < |items|
  {
  }

  lemma AfterEntering<T>(disk: Disk<T>, items: seq<Item<T>>, k: nat, dir: string, visited: set<Path>)
    requires Enters(disk, items, k, dir, visited) && Walk(disk, items, k, dir, visited).Done?
    ensures VisitedAfter(disk, items, k, dir, visited)
         == visited + {Target(disk, items, k, dir)} + Files(Inside(disk, items, k, dir, visited).found)
  {
  }

  /** A fresh route cannot start with an import that the walk passes by. */
  lemma StartsLater<T>(disk: Disk<T>, items: seq<Item<T>>, k: nat, dir: string, visited: set<Path>,
                       trail: Trail, files: seq<Path>)
    requires k < |items| && Walk(disk, items, k, dir, visited).Done? && !Enters(disk, items, k, dir, visited)
    requires FreshRoute(disk, items, k, dir, visited, trail, files)
    ensures VisitedAfter(disk, items, k, dir, visited) == visited
    ensures FreshRoute(disk, items, k + 1, dir, visited, trail, files)
  {
    var rest := WalkStep(disk, items, k, dir, visited);
    assert files[0] in files;
  }

  /** If the last file of a fresh route is not visited in the first import, none of its files is. */
  lemma RouteOutside<T>(disk: Disk<T>, items: seq<Item<T>>, k: nat, dir: string,
                        visited: set<Path>, trail: Trail, files: seq<Path>)
    requires Enters(disk, items, k, dir, visited) && Inside(disk, items, k, dir, visited).Done?
    requires FreshRoute(disk, items, k, dir, visited, trail, files)
    requires files[|files| - 1]
             !in {Target(disk, items, k, dir)} + Files(Inside(disk, items, k, dir, visited).found)
    ensures var sub := Inside(disk, items, k, dir, visited);
            FreshRoute(disk, items, k + 1, dir, visited + {Target(disk, items, k, dir)} + Files(sub.found), trail, files)
  {
    var file, sub := Target(disk, items, k, dir), Inside(disk, items, k, dir, visited);
    var inside := {file} + Files(sub.found);
    VisitsClosed(disk, disk.files[file].items, 0, disk.files[file].dir, visited + {file});
    assert visited + {file} + Files(sub.found) == visited + inside;
    forall f | f in files ensures f !in inside {
      if f in inside {
        var n: nat :| n < |files| && files[n] == f;
        RouteEndsInside(disk, items, dir, trail, files, n, inside, visited + inside);
      }
    }
    assert files[0] in files;
  }

  /** Once a route is inside a closed set, its end is. */
  lemma {:induction false} RouteEndsInside<T>(disk: Disk<T>, items: seq<Item<T>>, dir: string, trail: Trail,
                                              files: seq<Path>, n: nat, inside: set<Path>, within: set<Path>)
    requires Route(disk, items, dir, trail, files) && n < |files|
    requires files[n] in inside && AllClosed(disk, inside, within)
    requires forall f :: f in files && f in within ==> f in inside
    ensures files[|files| - 1] in inside
    decreases trail
  {
    if n == 0 {
      RouteStaysInside(disk, items, dir, trail, files, inside, within);
    } else {
      var file := disk.files[files[0]];
      RouteEndsInside(disk, file.items, file.dir, trail[1..], files[1..], n - 1, inside, within);
    }
  }

  /** The case of `FoundNoLater` in which the first import finds the file. */
  lemma {:induction false} FoundInside<T>(disk: Disk<T>, items: seq<Item<T>>, k: nat, dir: string,
                                          visited: set<Path>, trail: Trail, files: seq<Path>) returns (i: nat)
    requires k <= |items| && Walk(disk, items, k, dir, visited).Done?
    requires Enters(disk, items, k, dir, visited)
    requires FreshRoute(disk, items, k, dir, visited, trail, files)
    requires files[|files| - 1]
             in {Target(disk, items, k, dir)} + Files(Inside(disk, items, k, dir, visited).found)
    ensures i < |Walk(disk, items, k, dir, visited).found|
    ensures var f := Walk(disk, items, k, dir, visited).found[i];
            f.file == files[|files| - 1] && NotAfter(f.trail, trail)
    decreases disk.resolve.Values - visited, |items| - k, 1
  {
    var found := Walk(disk, items, k, dir, visited).found;
    var rest := WalkStep(disk, items, k, dir, visited);
    var file, sub := Target(disk, items, k, dir), Inside(disk, items, k, dir, visited);
    var last := files[|files| - 1];
    RouteStarts(disk, items, k, dir, visited, trail, files);
    hide Walk, Route, FreshRoute, Enters, Inside, Files, VisitedAfter, NotAfter;
    if last == file {
      i := 0;
      assert found[0] == Found(file, [k]);
      FirstIsLeast(k, trail);
    } else if trail[0] == k {
      i := FoundDeeper(disk, items, k, dir, visited, trail, files);
      NotAfterDeeper(k, sub.found[i].trail, trail);
      i := i + 1;
      assert found[i] == Found(last, [k] + sub.found[i - 1].trail);
    } else {
      var n := IndexOf(sub.found, last);
      i := n + 1;
      EarlierStart(k, sub.found[n].trail, trail);
      assert found[i] == Found(last, [k] + sub.found[n].trail);
    }
  }

  lemma EarlierStart(k: nat, a: Trail, b: Trail)
    requires |b| > 0 && k < b[0]
    ensures NotAfter([k] + a, b)
  {
  }

  lemma IndexOf(found: seq<Found>, file: Path) returns (i: nat)
    requires file in Files(found)
    ensures i < |found| && found[i].file == file
  {
    var f: Found :| f in found && f.file == file;
    i :| i < |found| && found[i] == f;
  }

  lemma {:induction false} FoundDeeper<T>(disk: Disk<T>, items: seq<Item<T>>, k: nat, dir: string,
                                          visited: set<Path>, trail: Trail, files: seq<Path>) returns (i: nat)
    requires Enters(disk, items, k, dir, visited) && Inside(disk, items, k, dir, visited).Done?
    requires FreshRoute(disk, items, k, dir, visited, trail, files) && trail[0] == k
    requires files[|files| - 1] != Target(disk, items, k, dir)
    ensures i < |Inside(disk, items, k, dir, visited).found|
    ensures var f := Inside(disk, items, k, dir, visited).found[i];
            f.file == files[|files| - 1] && NotAfter(f.trail, trail[1..])
    decreases disk.resolve.Values - visited, |items| - k, 0
  {
    var file := Target(disk, items, k, dir);
    FreshTail(disk, items, k, dir, visited, trail, files);
    hide Route, FreshRoute, Walk;
    i := FoundNoLater(disk, disk.files[file].items, 0, disk.files[file].dir, visited + {file}, trail[1..], files[1..]);
  }

  lemma NotAfterDeeper(k: nat, a: Trail, b: Trail)
    requires |b| > 0 && b[0] == k && NotAfter(a, b[1..])
    ensures NotAfter([k] + a, b)
  {
    assert ([k] + a)[1..] == a && b == [k] + b[1..];
  }

  lemma FirstIsLeast(k: nat, trail: Trail)
    requires |trail| > 0 && k <= trail[0]
    ensures NotAfter([k], trail)
  {
    assert [k][1..] == [];
    if |trail| == 1 {
      assert trail == [trail[0]];
    }
  }

  lemma FreshTail<T>(disk: Disk<T>, items: seq<Item<T>>, k: nat, dir: string, visited: set<Path>,
                     trail: Trail, files: seq<Path>)
    requires Enters(disk, items, k, dir, visited)
    requires FreshRoute(disk, items, k, dir, visited, trail, files) && trail[0] == k
    requires files[|files| - 1] != Target(disk, items, k, dir)
    ensures |trail| == |files| > 1 && files[1..][|files| - 2] == files[|files| - 1]
    ensures var file := Target(disk, items, k, dir);
      FreshRoute(disk, disk.files[file].items, 0, disk.files[file].dir, visited + {file}, trail[1..], files[1..])
  {
    forall f | f in files[1..] ensures f in files && f != files[0] {
      var n: nat :| n < |files[1..]| && files[1..][n] == f;
      assert files[n + 1] == f;
    }
  }

  ghost predicate Ascending<T>(out: seq<Emitted<T>>) {
    forall i, j :: 0 <= i < j < |out| ==> Less(out[i].trail, out[j].trail)
  }

  ghost predicate From<T>(k: nat, out: seq<Emitted<T>>) {
    forall e :: e in out ==> |e.trail| > 0 && e.trail[0] >= k
  }

  /** What is put out comes in depth-first order, each position once. */
  lemma {:induction false} OutAscends<T>(disk: Disk<T>, items: seq<Item<T>>, k: nat, dir: string, visited: set<Path>)
    requires k <= |items| && Walk(disk, items, k, dir, visited).Done?
    ensures Ascending(Walk(disk, items, k, dir, visited).out) && From(k, Walk(disk, items, k, dir, visited).out)
    decreases disk.resolve.Values - visited, |items| - k
  {
    if k < |items| {
      var rest := WalkStep(disk, items, k, dir, visited);
      OutAscends(disk, items, k + 1, dir, VisitedAfter(disk, items, k, dir, visited));
      if items[k].Plain? {
        AscendsJoined(k, [Emitted([k], items[k].item)], rest.out);
      } else if Enters(disk, items, k, dir, visited) {
        var file, sub := Target(disk, items, k, dir), Inside(disk, items, k, dir, visited);
        OutAscends(disk, disk.files[file].items, 0, disk.files[file].dir, visited + {file});
        DeeperAscends(k, sub.out);
        AscendsJoined(k, Deeper(k, sub.out), rest.out);
      }
    }
  }

  ghost predicate At<T>(k: nat, out: seq<Emitted<T>>) {
    forall e :: e in out ==> |e.trail| > 0 && e.trail[0] == k
  }

  lemma DeeperAscends<T>(k: nat, out: seq<Emitted<T>>)
    requires Ascending(out)
    ensures Ascending(Deeper(k, out)) && At(k, Deeper(k, out))
  {
    var deep := Deeper(k, out);
    forall i, j | 0 <= i < j < |deep| ensures Less(deep[i].trail, deep[j].trail) {
      assert deep[i].trail[1..] == out[i].trail && deep[j].trail[1..] == out[j].trail;
    }
  }

  lemma AscendsJoined<T>(k: nat, a: seq<Emitted<T>>, b: seq<Emitted<T>>)
    requires Ascending(a) && At(k, a) && Ascending(b) && From(k + 1, b)
    ensures Ascending(a + b) && From(k, a + b)
  {
    var both := a + b;
    forall i, j | 0 <= i < j < |both| ensures Less(both[i].trail, both[j].trail) {
      if i < |a| <= j {
        assert both[i] in a && both[j] in b;
      }
    }
  }

  /** The item at a position of a file that was found along a trail, or of the first file. */
  ghost predicate Placed<T>(disk: Disk<T>, items: seq<Item<T>>, k: nat, found: seq<Found>, e: Emitted<T>) {
    (exists j: nat :: k <= j < |items| && items[j] == Plain(e.item) && e.trail == [j])
    || (exists f: Found, j: nat :: f in found && InFile(disk, f, j, e))
  }

  ghost predicate InFile<T>(disk: Disk<T>, f: Found, j: nat, e: Emitted<T>) {
    f.file in disk.files && j < |disk.files[f.file].items|
    && disk.files[f.file].items[j] == Plain(e.item) && e.trail == f.trail + [j]
  }

  /** What is put out belongs to the first file or to a file found. */
  lemma {:induction false} OutIsPlaced<T>(disk: Disk<T>, items: seq<Item<T>>, k: nat, dir: string,
                                          visited: set<Path>, i: nat)
    requires k <= |items| && Walk(disk, items, k, dir, visited).Done?
    requires i < |Walk(disk, items, k, dir, visited).out|
    ensures var r := Walk(disk, items, k, dir, visited); Placed(disk, items, k, r.found, r.out[i])
    decreases disk.resolve.Values - visited, |items| - k
  {
    var r := Walk(disk, items, k, dir, visited);
    var rest := WalkStep(disk, items, k, dir, visited);
    var skipped := |r.out| - |rest.out|;
    if i >= skipped {
      OutIsPlaced(disk, items, k + 1, dir, VisitedAfter(disk, items, k, dir, visited), i - skipped);
      assert r.out[i] == rest.out[i - skipped];
      assert forall f: Found :: f in rest.found ==> f in r.found;
    } else if items[k].Import? {
      var file, sub := Target(disk, items, k, dir), Inside(disk, items, k, dir, visited);
      OutIsPlaced(disk, disk.files[file].items, 0, disk.files[file].dir, visited + {file}, i);
      PlacedDeeper(disk, k, file, sub.found, rest.found, sub.out[i]);
    }
  }

  lemma PlacedDeeper<T>(disk: Disk<T>, k: nat, file: Path, inner: seq<Found>, more: seq<Found>, e: Emitted<T>)
    requires file in disk.files && Placed(disk, disk.files[file].items, 0, inner, e)
    ensures var found := [Found(file, [k])] + DeeperFound(k, inner) + more;
            exists f: Found, j: nat :: f in found && InFile(disk, f, j, Emitted([k] + e.trail, e.item))
  {
    var found := [Found(file, [k])] + DeeperFound(k, inner) + more;
    var deep := Emitted([k] + e.trail, e.item);
    if j: nat :| j < |disk.files[file].items| && disk.files[file].items[j] == Plain(e.item) && e.trail == [j] {
      assert found[0] in found && InFile(disk, found[0], j, deep);
    } else {
      var f: Found, j: nat :| f in inner && InFile(disk, f, j, e);
      var n: nat :| n < |inner| && inner[n] == f;
      assert [k] + (f.trail + [j]) == ([k] + f.trail) + [j];
      assert found[n + 1] == Found(f.file, [k] + f.trail) && found[n + 1] in found;
      assert InFile(disk, found[n + 1], j, deep);
    }
  }

  /** Conversely, every such item is put out. */
  lemma {:induction false} PlacedIsOut<T>(disk: Disk<T>, items: seq<Item<T>>, k: nat, dir: string,
                                          visited: set<Path>, e: Emitted<T>)
    requires k <= |items| && Walk(disk, items, k, dir, visited).Done?
    requires Placed(disk, items, k, Walk(disk, items, k, dir, visited).found, e)
    ensures e in Walk(disk, items, k, dir, visited).out
    decreases disk.resolve.Values - visited, |items| - k
  {
    var r := Walk(disk, items, k, dir, visited);
    if k < |items| {
      var rest := WalkStep(disk, items, k, dir, visited);
      var after := VisitedAfter(disk, items, k, dir, visited);
      if Placed(disk, items, k + 1, rest.found, e) {
        PlacedIsOut(disk, items, k + 1, dir, after, e);
      } else if items[k].Plain? {
        assert r.out[0] == Emitted([k], items[k].item);
      } else {
        assert Enters(disk, items, k, dir, visited);
        var file, sub := Target(disk, items, k, dir), Inside(disk, items, k, dir, visited);
        var inner := PlacedInside(disk, items, k, file, sub.found, rest.found, e);
        PlacedIsOut(disk, disk.files[file].items, 0, disk.files[file].dir, visited + {file}, inner);
        var n: nat :| n < |sub.out| && sub.out[n] == inner;
        assert r.out[n] == e;
      }
    }
  }

  lemma PlacedInside<T>(disk: Disk<T>, items: seq<Item<T>>, k: nat, file: Path, inner: seq<Found>, more: seq<Found>,
                        e: Emitted<T>) returns (d: Emitted<T>)
    requires k < |items| && items[k].Import? && file in disk.files
    requires Placed(disk, items, k, [Found(file, [k])] + DeeperFound(k, inner) + more, e)
    requires !Placed(disk, items, k + 1, more, e)
    ensures Placed(disk, disk.files[file].items, 0, inner, d) && e == Emitted([k] + d.trail, d.item)
  {
    var found := [Found(file, [k])] + DeeperFound(k, inner) + more;
    var f: Found, j: nat :| f in found && InFile(disk, f, j, e);
    assert f !in more;
    hide Placed;
    if f == Found(file, [k]) {
      d := Emitted([j], e.item);
      FirstIsPlaced(disk, disk.files[file].items, inner, j, d);
      assert [k] + [j] == e.trail;
    } else {
      assert f in DeeperFound(k, inner);
      var n: nat :| n < |inner| && DeeperFound(k, inner)[n] == f;
      d := Emitted(inner[n].trail + [j], e.item);
      assert InFile(disk, inner[n], j, d);
      FoundIsPlaced(disk, disk.files[file].items, inner, n, j, d);
      assert [k] + (inner[n].trail + [j]) == ([k] + inner[n].trail) + [j];
    }
  }

  lemma FirstIsPlaced<T>(disk: Disk<T>, items: seq<Item<T>>, found: seq<Found>, j: nat, e: Emitted<T>)
    requires j < |items| && items[j] == Plain(e.item) && e.trail == [j]
    ensures Placed(disk, items, 0, found, e)
  {
  }

  lemma FoundIsPlaced<T>(disk: Disk<T>, items: seq<Item<T>>, found: seq<Found>, n: nat, j: nat, e: Emitted<T>)
    requires n < |found| && InFile(disk, found[n], j, e)
    ensures Placed(disk, items, 0, found, e)
  {
    assert found[n] in found;
  }
}
