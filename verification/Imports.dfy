/** Import expansion: a depth-first walk over a file graph that may have cycles, and what order it
    puts the items in. */
module Imports {
  type Path = string

  datatype Item<T> = Import(rel: string) | Plain(item: T)

  /** A file that can be read has a directory that its own imports are relative to. */
  datatype File<T> = File(dir: string, items: seq<Item<T>>)

  /** The file system: which file a relative path names in a directory, if any, and what the files
      that can be read and parsed hold. */
  datatype Disk<T> = Disk(resolve: map<(string, string), Path>, files: map<Path, File<T>>)

  datatype Fault = CannotResolve(rel: string) | CannotRead(rel: string)

  // ---------------------------------------------------------------------------
  // The walk
  // ---------------------------------------------------------------------------

  /** Where something is: the index of the import to follow, in the file so reached the index of the
      next one, and so on. */
  type Trail = seq<nat>

  datatype Found = Found(file: Path, trail: Trail)

  datatype Emitted<T> = Emitted(trail: Trail, item: T)

  datatype Tour<T> =
    | Done(out: seq<Emitted<T>>, found: seq<Found>)
    | Failed(fault: Fault)

  function Files(found: seq<Found>): set<Path> {
    set f: Found | f in found :: f.file
  }

  function Deeper<T>(k: nat, out: seq<Emitted<T>>): (r: seq<Emitted<T>>)
    ensures |r| == |out|
    ensures forall i :: 0 <= i < |out| ==> r[i] == Emitted([k] + out[i].trail, out[i].item)
  {
    seq(|out|, i requires 0 <= i < |out| => Emitted([k] + out[i].trail, out[i].item))
  }

  function DeeperFound(k: nat, found: seq<Found>): (r: seq<Found>)
    ensures |r| == |found|
    ensures forall i :: 0 <= i < |found| ==> r[i] == Found(found[i].file, [k] + found[i].trail)
  {
    seq(|found|, i requires 0 <= i < |found| => Found(found[i].file, [k] + found[i].trail))
  }

  function Before<T>(out: seq<Emitted<T>>, found: seq<Found>, rest: Tour<T>): Tour<T> {
    if rest.Done? then Done(out + rest.out, found + rest.found) else rest
  }

  /** Expands the items from index `k` on of a file in directory `dir`. */
  function Walk<T>(disk: Disk<T>, items: seq<Item<T>>, k: nat, dir: string, visited: set<Path>): (r: Tour<T>)
    requires k <= |items|
    ensures r.Done? ==> Files(r.found) <= disk.resolve.Values
    decreases disk.resolve.Values - visited, |items| - k
  {
    if k == |items| then Done([], [])
    else if items[k].Plain? then
      Before([Emitted([k], items[k].item)], [], Walk(disk, items, k + 1, dir, visited))
    else if (dir, items[k].rel) !in disk.resolve then Failed(CannotResolve(items[k].rel))
    else
      var file := disk.resolve[(dir, items[k].rel)];
      if file in visited then Walk(disk, items, k + 1, dir, visited)
      else if file !in disk.files then Failed(CannotRead(items[k].rel))
      else
        var sub := Walk(disk, disk.files[file].items, 0, disk.files[file].dir, visited + {file});
        if sub.Failed? then sub
        else
          Before(Deeper(k, sub.out), [Found(file, [k])] + DeeperFound(k, sub.found),
                 Walk(disk, items, k + 1, dir, visited + {file} + Files(sub.found)))
  }

  /** The program that starts in a file. The file itself does not count as visited. */
  function Load<T>(disk: Disk<T>, root: File<T>): Tour<T> {
    Walk(disk, root.items, 0, root.dir, {})
  }

  // ---------------------------------------------------------------------------
  // Routes: reachability, without a notion of visiting
  // ---------------------------------------------------------------------------

  /** Following the imports along a trail leads through these files. */
  predicate Route<T>(disk: Disk<T>, items: seq<Item<T>>, dir: string, trail: Trail, files: seq<Path>)
    decreases trail
  {
    |trail| == |files| > 0 && trail[0] < |items| && Leads(disk, items[trail[0]], dir, files[0])
    && (|trail| > 1 ==>
      files[0] in disk.files &&
      Route(disk, disk.files[files[0]].items, disk.files[files[0]].dir, trail[1..], files[1..]))
  }

  predicate Leads<T>(disk: Disk<T>, item: Item<T>, dir: string, file: Path) {
    item.Import? && (dir, item.rel) in disk.resolve && disk.resolve[(dir, item.rel)] == file
  }

  predicate Distinct(files: seq<Path>) {
    forall i, j :: 0 <= i < j < |files| ==> files[i] != files[j]
  }

  ghost predicate Reaches<T>(disk: Disk<T>, from: File<T>, file: Path) {
    exists trail, files :: Route(disk, from.items, from.dir, trail, files) && files[|files| - 1] == file
  }

  /** Depth-first order of positions: what comes before an import, then what the import brings. */
  predicate Less(a: Trail, b: Trail) {
    b != [] && (a == [] || a[0] < b[0] || (a[0] == b[0] && Less(a[1..], b[1..])))
  }
}
