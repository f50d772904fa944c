/** Sizes of types: the bound that code generation computes for enum payloads, and the layout that
    values really have. */
module Layout {
  import opened Ast
  import opened Wrappers
  import Values

  /** The definitions of structs and enums. */
  datatype Defs = Defs(structs: map<string, seq<Param>>, enums: map<string, seq<EnumVariant>>) {
    ghost function Names(): set<string> {
      structs.Keys + enums.Keys
    }
  }

  /** The types that a value of the named type holds. */
  function Held(defs: Defs, name: string): seq<Type> {
    if name in defs.enums then PayloadTypes(defs.enums[name])
    else if name in defs.structs then ParamTypes(defs.structs[name])
    else []
  }

  // ---------------------------------------------------------------------------
  // The bound
  // ---------------------------------------------------------------------------

  function Align8(size: nat): (r: nat)
    ensures r % 8 == 0 && size <= r < size + 8
  {
    (size + 7) / 8 * 8
  }

  function Max(a: nat, b: nat): nat {
    if a >= b then a else b
  }

  function ScalarSize(t: Type): Option<nat> {
    match t
    case Bool => Some(1)
    case U8 => Some(1)
    case U16 => Some(2)
    case Int => Some(4)
    case U32 => Some(4)
    case Float => Some(8)
    case U64 => Some(8)
    case Ptr(_) => Some(8)
    case Fn(_, _) => Some(8)
    case Str => Some(16)
    case _ => None
  }

  /** Integers take the fewest bytes that hold their bits; addresses take 8, and strings have a length beside
      theirs. */
  lemma ScalarsHold(t: Type)
    ensures Values.IntegerWidth(t).Some? ==> ScalarSize(t) == Some((Values.IntegerWidth(t).value + 7) / 8)
    ensures t.Ptr? || t.Fn? || t.Float? ==> ScalarSize(t) == Some(64 / 8)
    ensures t.Str? ==> ScalarSize(t) == Some(2 * 64 / 8)
  {
  }

  /** The bound on the size of a value, if there is one. `visiting` are the types it is part of. */
  function StorageSize(defs: Defs, visiting: set<string>, t: Type): Option<nat>
    decreases defs.Names() - visiting, t, 1
  {
    if ScalarSize(t).Some? then ScalarSize(t)
    else match t
      case Array(element, length) =>
        var size := StorageSize(defs, visiting, element);
        if size.None? then None else Some(Align8(size.value) * length)
      case Tuple(elements) => TotalSize(defs, visiting, elements)
      case Named(name) => if name in visiting then None else NamedSize(defs, visiting, name)
      case _ => None
  }

  function NamedSize(defs: Defs, visiting: set<string>, name: string): Option<nat>
    requires name !in visiting
    decreases defs.Names() - visiting, Named(name), 0
  {
    if name in defs.enums then
      var payload := LargestSize(defs, visiting + {name}, PayloadTypes(defs.enums[name]));
      if payload.None? then None else Some(8 + Align8(Max(payload.value, 1)))
    else if name in defs.structs then TotalSize(defs, visiting + {name}, ParamTypes(defs.structs[name]))
    else None
  }

  /** Fields one after the other, each in whole slots. */
  function TotalSize(defs: Defs, visiting: set<string>, ts: seq<Type>): Option<nat>
    decreases defs.Names() - visiting, ts, 0
  {
    if ts == [] then Some(0)
    else
      var last := |ts| - 1;
      var total := TotalSize(defs, visiting, ts[..last]);
      var size := StorageSize(defs, visiting, ts[last]);
      if total.None? || size.None? then None else Some(total.value + Align8(size.value))
  }

  /** Payloads in the same place. */
  function LargestSize(defs: Defs, visiting: set<string>, ts: seq<Type>): Option<nat>
    decreases defs.Names() - visiting, ts, 0
  {
    if ts == [] then Some(0)
    else
      var last := |ts| - 1;
      var largest := LargestSize(defs, visiting, ts[..last]);
      var size := StorageSize(defs, visiting, ts[last]);
      if largest.None? || size.None? then None else Some(Max(largest.value, size.value))
  }

  // ---------------------------------------------------------------------------
  // Enums and the layout of values
  // ---------------------------------------------------------------------------

  /** The number of 8-byte slots for the payloads of an enum. */
  function Slots(defs: Defs, variants: seq<EnumVariant>): Option<nat> {
    var payload := LargestSize(defs, {}, PayloadTypes(variants));
    if payload.None? then None else Some((Max(payload.value, 1) + 7) / 8)
  }

  datatype Extent = Extent(size: nat, align: nat)

  predicate Alignment(a: nat) {
    a == 1 || a == 2 || a == 4 || a == 8
  }

  /** The next multiple of the alignment. */
  function AlignUp(offset: nat, align: nat): (r: nat)
    requires Alignment(align)
    ensures r % align == 0 && offset <= r < offset + align
  {
    if align == 1 then offset
    else if align == 2 then (offset + 1) / 2 * 2
    else if align == 4 then (offset + 3) / 4 * 4
    else (offset + 7) / 8 * 8
  }

  function ScalarExtent(t: Type): Extent
    requires ScalarSize(t).Some?
  {
    if t.Str? then Extent(16, 8) else Extent(ScalarSize(t).value, ScalarSize(t).value)
  }

  /** How a value is laid out: fields at the next offset of their alignment, the whole rounded up to
      the largest alignment. An enum is a 4-byte tag and its slots, which have alignment 8. */
  function Natural(defs: Defs, visiting: set<string>, t: Type): (r: Option<Extent>)
    ensures r.Some? ==> Alignment(r.value.align)
    decreases defs.Names() - visiting, t, 1
  {
    if ScalarSize(t).Some? then Some(ScalarExtent(t))
    else match t
      case Array(element, length) =>
        var e := Natural(defs, visiting, element);
        if e.None? then None else Some(Extent(AlignUp(e.value.size, e.value.align) * length, e.value.align))
      case Tuple(elements) => Finish(Fields(defs, visiting, elements))
      case Named(name) =>
        if name in visiting then None
        else if name in defs.enums then
          var slots := Slots(defs, defs.enums[name]);
          if slots.None? then None else Some(Extent(AlignUp(4, 8) + 8 * slots.value, 8))
        else if name in defs.structs then Finish(Fields(defs, visiting + {name}, ParamTypes(defs.structs[name])))
        else None
      case _ => None
  }

  /** The offset after the last field, and the largest alignment. */
  function Fields(defs: Defs, visiting: set<string>, ts: seq<Type>): (r: Option<Extent>)
    ensures r.Some? ==> Alignment(r.value.align)
    decreases defs.Names() - visiting, ts, 0
  {
    if ts == [] then Some(Extent(0, 1))
    else
      var last := |ts| - 1;
      var before := Fields(defs, visiting, ts[..last]);
      var field := Natural(defs, visiting, ts[last]);
      if before.None? || field.None? then None
      else Some(Extent(AlignUp(before.value.size, field.value.align) + field.value.size,
                       Max(before.value.align, field.value.align)))
  }

  function Finish(e: Option<Extent>): Option<Extent>
    requires e.Some? ==> Alignment(e.value.align)
  {
    if e.None? then None else Some(Extent(AlignUp(e.value.size, e.value.align), e.value.align))
  }

  // ---------------------------------------------------------------------------
  // The bound holds
  // ---------------------------------------------------------------------------

  /** A type that is part of fewer others still has its bound. */
  lemma {:induction false} SizeFewer(defs: Defs, less: set<string>, visiting: set<string>, t: Type)
    requires less <= visiting && StorageSize(defs, visiting, t).Some?
    ensures StorageSize(defs, less, t) == StorageSize(defs, visiting, t)
    decreases defs.Names() - visiting, t, 1
  {
    if ScalarSize(t).Some? {
    } else if t.Array? {
      SizeFewer(defs, less, visiting, t.element);
    } else if t.Tuple? {
      TotalFewer(defs, less, visiting, t.elements);
    } else {
      var name := t.name;
      if name in defs.enums {
        LargestFewer(defs, less + {name}, visiting + {name}, PayloadTypes(defs.enums[name]));
      } else {
        TotalFewer(defs, less + {name}, visiting + {name}, ParamTypes(defs.structs[name]));
      }
    }
  }

  lemma {:induction false} TotalFewer(defs: Defs, less: set<string>, visiting: set<string>, ts: seq<Type>)
    requires less <= visiting && TotalSize(defs, visiting, ts).Some?
    ensures TotalSize(defs, less, ts) == TotalSize(defs, visiting, ts)
    decreases defs.Names() - visiting, ts, 0
  {
    if ts != [] {
      TotalFewer(defs, less, visiting, ts[..|ts| - 1]);
      SizeFewer(defs, less, visiting, ts[|ts| - 1]);
    }
  }

  lemma {:induction false} LargestFewer(defs: Defs, less: set<string>, visiting: set<string>, ts: seq<Type>)
    requires less <= visiting && LargestSize(defs, visiting, ts).Some?
    ensures LargestSize(defs, less, ts) == LargestSize(defs, visiting, ts)
    decreases defs.Names() - visiting, ts, 0
  {
    if ts != [] {
      LargestFewer(defs, less, visiting, ts[..|ts| - 1]);
      SizeFewer(defs, less, visiting, ts[|ts| - 1]);
    }
  }

  lemma ProductMonotone(a: nat, b: nat, n: nat)
    requires a <= b
    ensures a * n <= b * n
  {
  }

  /** The offset after fields, rounded up for one more, stays below whole slots. */
  lemma AlignBelow(offset: nat, align: nat, total: nat)
    requires offset <= total && total % 8 == 0 && Alignment(align)
    ensures AlignUp(offset, align) <= total
  {
    hide AlignUp;
    var r := AlignUp(offset, align);
    if align == 8 {
      MultiplesOf8(r, total);
    } else if align == 4 {
      MultiplesOf4(r, total);
    } else if align == 2 {
      MultiplesOf2(r, total);
    }
  }

  lemma MultiplesOf8(a: nat, b: nat)
    requires a % 8 == 0 && b % 8 == 0 && a < b + 8
    ensures a <= b
  {
  }

  lemma MultiplesOf4(a: nat, b: nat)
    requires a % 4 == 0 && b % 8 == 0 && a < b + 4
    ensures a <= b
  {
  }

  lemma MultiplesOf2(a: nat, b: nat)
    requires a % 2 == 0 && b % 8 == 0 && a < b + 2
    ensures a <= b
  {
  }

  /** Where there is a bound, there is a layout, and it is no larger; for an enum they are equal. */
  lemma {:induction false} BoundHolds(defs: Defs, visiting: set<string>, t: Type)
    requires StorageSize(defs, visiting, t).Some?
    ensures Natural(defs, visiting, t).Some?
    ensures Natural(defs, visiting, t).value.size <= StorageSize(defs, visiting, t).value
    ensures t.Named? && t.name in defs.enums ==>
      Natural(defs, visiting, t).value == Extent(StorageSize(defs, visiting, t).value, 8)
    decreases defs.Names() - visiting, t, 1
  {
    if ScalarSize(t).Some? {
    } else if t.Array? {
      BoundHolds(defs, visiting, t.element);
      var size, e := StorageSize(defs, visiting, t.element).value, Natural(defs, visiting, t.element).value;
      AlignBelow(e.size, e.align, Align8(size));
      ProductMonotone(AlignUp(e.size, e.align), Align8(size), t.length);
    } else if t.Tuple? {
      FieldsBound(defs, visiting, t.elements);
      var f := Fields(defs, visiting, t.elements).value;
      AlignBelow(f.size, f.align, TotalSize(defs, visiting, t.elements).value);
    } else if t.name in defs.enums {
      var payloads := PayloadTypes(defs.enums[t.name]);
      LargestFewer(defs, {}, visiting + {t.name}, payloads);
    } else {
      var fields := ParamTypes(defs.structs[t.name]);
      FieldsBound(defs, visiting + {t.name}, fields);
      var f := Fields(defs, visiting + {t.name}, fields).value;
      AlignBelow(f.size, f.align, TotalSize(defs, visiting + {t.name}, fields).value);
    }
  }

  lemma {:induction false} FieldsBound(defs: Defs, visiting: set<string>, ts: seq<Type>)
    requires TotalSize(defs, visiting, ts).Some?
    ensures TotalSize(defs, visiting, ts).value % 8 == 0
    ensures Fields(defs, visiting, ts).Some?
    ensures Fields(defs, visiting, ts).value.size <= TotalSize(defs, visiting, ts).value
    decreases defs.Names() - visiting, ts, 0
  {
    if ts != [] {
      var last := |ts| - 1;
      FieldsBound(defs, visiting, ts[..last]);
      BoundHolds(defs, visiting, ts[last]);
      var before, field := Fields(defs, visiting, ts[..last]).value, Natural(defs, visiting, ts[last]).value;
      AlignBelow(before.size, field.align, TotalSize(defs, visiting, ts[..last]).value);
    }
  }

  /** Every payload of a declared enum fits into its slots. */
  lemma PayloadFits(defs: Defs, variants: seq<EnumVariant>, i: nat)
    requires i < |variants| && variants[i].payload.Some? && Slots(defs, variants).Some?
    ensures Natural(defs, {}, variants[i].payload.value).Some?
    ensures Natural(defs, {}, variants[i].payload.value).value.size <= 8 * Slots(defs, variants).value
  {
    var payloads := PayloadTypes(variants);
    var k := PayloadListed(variants, i);
    LargestIsLargest(defs, {}, payloads, k);
    BoundHolds(defs, {}, payloads[k]);
  }

  lemma {:induction false} PayloadListed(variants: seq<EnumVariant>, i: nat) returns (k: nat)
    requires i < |variants| && variants[i].payload.Some?
    ensures k < |PayloadTypes(variants)| && PayloadTypes(variants)[k] == variants[i].payload.value
    decreases |variants|
  {
    if i == 0 {
      k := 0;
    } else {
      k := PayloadListed(variants[1..], i - 1);
      k := k + |OptionList(variants[0].payload)|;
    }
  }

  lemma {:induction false} LargestIsLargest(defs: Defs, visiting: set<string>, ts: seq<Type>, k: nat)
    requires k < |ts| && LargestSize(defs, visiting, ts).Some?
    ensures StorageSize(defs, visiting, ts[k]).Some?
    ensures StorageSize(defs, visiting, ts[k]).value <= LargestSize(defs, visiting, ts).value
    decreases |ts|
  {
    var last := |ts| - 1;
    if k < last {
      assert ts[..last][k] == ts[k];
      LargestIsLargest(defs, visiting, ts[..last], k);
    }
  }

  /** The slots of an enum are the fewest, but at least one, that the bounds of all payloads fit into. */
  lemma SlotsAreLeast(defs: Defs, variants: seq<EnumVariant>, n: nat)
    requires Slots(defs, variants).Some?
    ensures Slots(defs, variants).value <= n
      <==> n >= 1 && forall k | 0 <= k < |PayloadTypes(variants)| ::
             StorageSize(defs, {}, PayloadTypes(variants)[k]).Some?
             && StorageSize(defs, {}, PayloadTypes(variants)[k]).value <= 8 * n
  {
    var payloads := PayloadTypes(variants);
    LargestIsLeast(defs, {}, payloads, 8 * n);
    SlotsForSize(LargestSize(defs, {}, payloads).value, n);
    hide LargestSize, StorageSize, PayloadTypes;
  }

  lemma SlotsForSize(size: nat, n: nat)
    ensures (Max(size, 1) + 7) / 8 <= n <==> n >= 1 && size <= 8 * n
  {
  }

  lemma {:induction false} LargestIsLeast(defs: Defs, visiting: set<string>, ts: seq<Type>, cap: nat)
    requires LargestSize(defs, visiting, ts).Some?
    ensures LargestSize(defs, visiting, ts).value <= cap
      <==> forall k | 0 <= k < |ts| ::
             StorageSize(defs, visiting, ts[k]).Some? && StorageSize(defs, visiting, ts[k]).value <= cap
    decreases |ts|
  {
    hide StorageSize;
    if ts != [] {
      var last := |ts| - 1;
      LargestIsLeast(defs, visiting, ts[..last], cap);
      assert forall k | 0 <= k < last :: ts[..last][k] == ts[k];
    }
  }

  /** The bound is no more than eight times the layout: a byte may take a slot, but nothing takes more. */
  lemma {:induction false} BoundIsClose(defs: Defs, visiting: set<string>, t: Type)
    requires StorageSize(defs, visiting, t).Some?
    ensures Natural(defs, visiting, t).Some?
    ensures StorageSize(defs, visiting, t).value <= 8 * Natural(defs, visiting, t).value.size
    decreases defs.Names() - visiting, t, 1
  {
    BoundHolds(defs, visiting, t);
    if ScalarSize(t).Some? {
    } else if t.Array? {
      BoundIsClose(defs, visiting, t.element);
      var size, e := StorageSize(defs, visiting, t.element).value, Natural(defs, visiting, t.element).value;
      SlotsBelow(size, AlignUp(e.size, e.align));
      ProductMonotone(Align8(size), 8 * AlignUp(e.size, e.align), t.length);
      EightTimes(AlignUp(e.size, e.align), t.length);
    } else if t.Tuple? {
      FieldsClose(defs, visiting, t.elements);
    } else if t.name in defs.structs && t.name !in defs.enums {
      FieldsClose(defs, visiting + {t.name}, ParamTypes(defs.structs[t.name]));
    }
  }

  lemma EightTimes(a: nat, n: nat)
    ensures (8 * a) * n == 8 * (a * n)
  {
  }

  lemma SlotsBelow(size: nat, layout: nat)
    requires size <= 8 * layout
    ensures Align8(size) <= 8 * layout
  {
  }

  lemma {:induction false} FieldsClose(defs: Defs, visiting: set<string>, ts: seq<Type>)
    requires TotalSize(defs, visiting, ts).Some?
    ensures Fields(defs, visiting, ts).Some?
    ensures TotalSize(defs, visiting, ts).value <= 8 * Fields(defs, visiting, ts).value.size
    decreases defs.Names() - visiting, ts, 0
  {
    FieldsBound(defs, visiting, ts);
    if ts != [] {
      var last := |ts| - 1;
      FieldsClose(defs, visiting, ts[..last]);
      BoundIsClose(defs, visiting, ts[last]);
      SlotsBelow(StorageSize(defs, visiting, ts[last]).value, Natural(defs, visiting, ts[last]).value.size);
    }
  }

  // ---------------------------------------------------------------------------
  // When there is a bound
  // ---------------------------------------------------------------------------

  /** The named types that a value of type `t` holds directly, through arrays and tuples. */
  function Mentions(t: Type): set<string>
    decreases t, 1
  {
    match t
    case Array(element, _) => Mentions(element)
    case Tuple(elements) => AllMentions(elements)
    case Named(name) => {name}
    case _ => {}
  }

  function AllMentions(ts: seq<Type>): set<string>
    decreases ts, 0
  {
    if ts == [] then {} else AllMentions(ts[..|ts| - 1]) + Mentions(ts[|ts| - 1])
  }

  /** No void and no generic type is held by value. */
  predicate Clean(t: Type)
    decreases t, 1
  {
    match t
    case Array(element, _) => Clean(element)
    case Tuple(elements) => AllClean(elements)
    case Void => false
    case Applied(_, _) => false
    case _ => true
  }

  predicate AllClean(ts: seq<Type>)
    decreases ts, 0
  {
    ts == [] || (AllClean(ts[..|ts| - 1]) && Clean(ts[|ts| - 1]))
  }

  /** The named type has a definition, and what it holds is clean. */
  predicate Sound(defs: Defs, name: string) {
    (name in defs.enums || name in defs.structs) && AllClean(Held(defs, name))
  }

  /** Each name is held by value by the one before. */
  predicate Chain(defs: Defs, path: seq<string>) {
    forall i | 0 <= i < |path| - 1 :: path[i + 1] in AllMentions(Held(defs, path[i]))
  }

  predicate NoRepeats(path: seq<string>) {
    forall i, j | 0 <= i < j < |path| :: path[i] != path[j]
  }

  /** The path leads from the types to a name that is held by value, however deep. */
  predicate Reaches(defs: Defs, mentions: set<string>, path: seq<string>) {
    path != [] && path[0] in mentions && Chain(defs, path)
  }

  /** A path that never closes a cycle and ends in a sound definition. */
  predicate GoodPath(defs: Defs, visiting: set<string>, path: seq<string>)
    requires path != []
  {
    NoRepeats(path) && (forall i | 0 <= i < |path| :: path[i] !in visiting) && Sound(defs, path[|path| - 1])
  }

  /** Everything reachable by value is defined and clean, and nothing holds itself. */
  ghost predicate FiniteByValue(defs: Defs, visiting: set<string>, mentions: set<string>) {
    forall path | Reaches(defs, mentions, path) :: GoodPath(defs, visiting, path)
  }

  /** A bound on a type is made of bounds on the names it mentions. */
  lemma {:induction false} MentionsSized(defs: Defs, visiting: set<string>, t: Type)
    ensures StorageSize(defs, visiting, t).Some? <==>
      Clean(t) && forall x | x in Mentions(t) :: StorageSize(defs, visiting, Named(x)).Some?
    decreases t, 1
  {
    if ScalarSize(t).Some? {
    } else if t.Array? {
      MentionsSized(defs, visiting, t.element);
    } else if t.Tuple? {
      TotalSized(defs, visiting, t.elements);
    }
  }

  lemma {:induction false} TotalSized(defs: Defs, visiting: set<string>, ts: seq<Type>)
    ensures TotalSize(defs, visiting, ts).Some? <==>
      AllClean(ts) && forall x | x in AllMentions(ts) :: StorageSize(defs, visiting, Named(x)).Some?
    decreases ts, 0
  {
    if ts != [] {
      TotalSized(defs, visiting, ts[..|ts| - 1]);
      MentionsSized(defs, visiting, ts[|ts| - 1]);
    }
  }

  lemma {:induction false} LargestSized(defs: Defs, visiting: set<string>, ts: seq<Type>)
    ensures LargestSize(defs, visiting, ts).Some? <==>
      AllClean(ts) && forall x | x in AllMentions(ts) :: StorageSize(defs, visiting, Named(x)).Some?
    decreases ts, 0
  {
    if ts != [] {
      LargestSized(defs, visiting, ts[..|ts| - 1]);
      MentionsSized(defs, visiting, ts[|ts| - 1]);
    }
  }

  lemma NameSized(defs: Defs, visiting: set<string>, name: string)
    ensures StorageSize(defs, visiting, Named(name)).Some? <==>
      name !in visiting && Sound(defs, name)
      && forall x | x in AllMentions(Held(defs, name)) :: StorageSize(defs, visiting + {name}, Named(x)).Some?
  {
    if name in defs.enums {
      LargestSized(defs, visiting + {name}, Held(defs, name));
    } else if name in defs.structs {
      TotalSized(defs, visiting + {name}, Held(defs, name));
    }
  }

  /** Where the names at the start have bounds, every path from them is good. */
  lemma {:induction false} SizedPathsGood(defs: Defs, visiting: set<string>, mentions: set<string>, path: seq<string>)
    requires forall x | x in mentions :: StorageSize(defs, visiting, Named(x)).Some?
    requires Reaches(defs, mentions, path)
    ensures GoodPath(defs, visiting, path)
    decreases |path|
  {
    NameSized(defs, visiting, path[0]);
    if |path| > 1 {
      var rest := path[1..];
      ChainTail(defs, path);
      SizedPathsGood(defs, visiting + {path[0]}, AllMentions(Held(defs, path[0])), rest);
      GoodStep(defs, visiting, path);
    }
  }

  lemma ChainTail(defs: Defs, path: seq<string>)
    requires |path| > 1 && Chain(defs, path)
    ensures Chain(defs, path[1..]) && path[1] in AllMentions(Held(defs, path[0]))
  {
    var rest := path[1..];
    forall i | 0 <= i < |rest| - 1 ensures rest[i + 1] in AllMentions(Held(defs, rest[i])) {
      assert rest[i] == path[i + 1] && rest[i + 1] == path[i + 1 + 1];
    }
  }

  lemma ChainStep(defs: Defs, name: string, rest: seq<string>)
    requires rest != [] && Chain(defs, rest) && rest[0] in AllMentions(Held(defs, name))
    ensures Chain(defs, [name] + rest)
  {
    var path := [name] + rest;
    forall i | 0 <= i < |path| - 1 ensures path[i + 1] in AllMentions(Held(defs, path[i])) {
      if i > 0 {
        assert path[i] == rest[i - 1] && path[i + 1] == rest[i - 1 + 1];
      }
    }
  }

  lemma GoodStep(defs: Defs, visiting: set<string>, path: seq<string>)
    requires |path| > 1 && path[0] !in visiting && GoodPath(defs, visiting + {path[0]}, path[1..])
    ensures GoodPath(defs, visiting, path)
  {
    var rest := path[1..];
    forall i, j | 0 <= i < j < |path| ensures path[i] != path[j] {
      assert path[j] == rest[j - 1];
      if i > 0 {
        assert path[i] == rest[i - 1];
      }
    }
    forall i | 0 <= i < |path| ensures path[i] !in visiting {
      if i > 0 {
        assert path[i] == rest[i - 1];
      }
    }
  }

  /** A name without a bound starts a path that is not good. */
  lemma {:induction false} UnsizedPathBad(defs: Defs, visiting: set<string>, name: string) returns (path: seq<string>)
    requires StorageSize(defs, visiting, Named(name)).None?
    ensures Reaches(defs, {name}, path) && !GoodPath(defs, visiting, path)
    decreases defs.Names() - visiting
  {
    NameSized(defs, visiting, name);
    path := [name];
    if name !in visiting && Sound(defs, name) {
      var x :| x in AllMentions(Held(defs, name)) && StorageSize(defs, visiting + {name}, Named(x)).None?;
      var rest := UnsizedPathBad(defs, visiting + {name}, x);
      path := [name] + rest;
      BadStep(defs, visiting, name, rest);
      ChainStep(defs, name, rest);
    }
  }

  lemma BadStep(defs: Defs, visiting: set<string>, name: string, rest: seq<string>)
    requires rest != [] && !GoodPath(defs, visiting + {name}, rest)
    ensures !GoodPath(defs, visiting, [name] + rest)
  {
    var path := [name] + rest;
    assert path[0] == name && path[|path| - 1] == rest[|rest| - 1];
    if GoodPath(defs, visiting, path) {
      forall i | 0 <= i < |rest| ensures rest[i] !in visiting + {name} {
        assert path[i + 1] == rest[i];
      }
      forall i, j | 0 <= i < j < |rest| ensures rest[i] != rest[j] {
        assert path[i + 1] == rest[i] && path[j + 1] == rest[j];
      }
    }
  }

  /** There is a bound exactly for the types that are finite by value. */
  lemma SizedIffFinite(defs: Defs, t: Type)
    ensures StorageSize(defs, {}, t).Some? <==> Clean(t) && FiniteByValue(defs, {}, Mentions(t))
  {
    MentionsSized(defs, {}, t);
    if StorageSize(defs, {}, t).Some? {
      forall path | Reaches(defs, Mentions(t), path) ensures GoodPath(defs, {}, path) {
        SizedPathsGood(defs, {}, Mentions(t), path);
      }
    } else if Clean(t) {
      var x :| x in Mentions(t) && StorageSize(defs, {}, Named(x)).None?;
      var path := UnsizedPathBad(defs, {}, x);
      assert Reaches(defs, Mentions(t), path);
    }
  }
}
