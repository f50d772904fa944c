/** Nested scopes, innermost last. */
module Scopes {
  import opened Wrappers

  /** The innermost scope that declares the name. */
  function Find<T>(scopes: seq<map<string, T>>, name: string): (r: Option<nat>)
    ensures r.Some? ==> r.value < |scopes| && name in scopes[r.value]
    ensures r.Some? ==> forall k | r.value < k < |scopes| :: name !in scopes[k]
    ensures r.None? ==> forall k | 0 <= k < |scopes| :: name !in scopes[k]
  {
    if scopes == [] then None
    else
      var last := |scopes| - 1;
      if name in scopes[last] then Some(last) else Find(scopes[..last], name)
  }

  function Lookup<T>(scopes: seq<map<string, T>>, name: string): Option<T> {
    var k := Find(scopes, name);
    if k.Some? then Some(scopes[k.value][name]) else None
  }

  function Update<T>(scopes: seq<map<string, T>>, k: nat, name: string, v: T): seq<map<string, T>>
    requires k < |scopes|
  {
    scopes[k := scopes[k][name := v]]
  }

  /** Adds the name to the innermost scope. */
  function Declare<T>(scopes: seq<map<string, T>>, name: string, v: T): seq<map<string, T>>
    requires scopes != []
  {
    Update(scopes, |scopes| - 1, name, v)
  }

  function Pop<T>(scopes: seq<map<string, T>>): seq<map<string, T>> {
    if scopes == [] then [] else scopes[..|scopes| - 1]
  }

  /** The scopes of one stack declare the same names as those of another. */
  predicate SameNames<S, T>(a: seq<map<string, S>>, b: seq<map<string, T>>) {
    |a| == |b| && forall k | 0 <= k < |a| :: a[k].Keys == b[k].Keys
  }

  lemma {:induction false} FindSame<S, T>(a: seq<map<string, S>>, b: seq<map<string, T>>, name: string)
    requires SameNames(a, b)
    ensures Find(a, name) == Find(b, name)
    decreases |a|
  {
    if a != [] {
      var last := |a| - 1;
      assert a[last].Keys == b[last].Keys;
      if name !in a[last] {
        FindSame(a[..last], b[..last], name);
      }
    }
  }

  lemma LookupDeclared<T>(scopes: seq<map<string, T>>, name: string, v: T, other: string)
    requires scopes != []
    ensures Lookup(Declare(scopes, name, v), other) == if other == name then Some(v) else Lookup(scopes, other)
  {
    var last := |scopes| - 1;
    assert Declare(scopes, name, v)[..last] == scopes[..last];
  }

  lemma LookupPushed<T>(scopes: seq<map<string, T>>, other: string)
    ensures Lookup(scopes + [map[]], other) == Lookup(scopes, other)
  {
    var pushed: seq<map<string, T>> := scopes + [map[]];
    assert pushed[..|scopes|] == scopes;
  }
}
