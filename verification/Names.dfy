/** Names of generic instances.

    An instance `f[int, *u8]` is compiled under the mangled name `__ppg_1_f_int_p_u8`. The main
    results: two instances get the same name exactly when their templates are the same and
    their arguments agree after the ends of tuples have been forgotten, so names are unique for
    tuple-free arguments, and the template of an instance can be read off its name. */
module Names {
  import opened Ast
  import opened Decimals

  // ---------------------------------------------------------------------------
  // Spelling
  // ---------------------------------------------------------------------------

  predicate NoUnderscore(word: string) {
    forall i | 0 <= i < |word| :: word[i] != '_'
  }

  /** The words separated by underscores. */
  function Join(words: seq<string>): string {
    if |words| == 0 then ""
    else if |words| == 1 then words[0]
    else words[0] + ("_" + Join(words[1..]))
  }

  function TypeKey(t: Type): string {
    match t
    case Int => "int"
    case Float => "float"
    case Bool => "bool"
    case Str => "str"
    case U8 => "u8"
    case U16 => "u16"
    case U32 => "u32"
    case U64 => "u64"
    case Void => "void"
    case Named(name) => NameKey(name)
    case Applied(name, args) => NameKey(name) + ("_" + Join(TypeKeys(args)))
    case Array(inner, length) => ("a" + Decimal(length)) + ("_" + TypeKey(inner))
    case Ptr(inner) => "p" + ("_" + TypeKey(inner))
    case Fn(params, ret) => "f" + ("_" + (Join(TypeKeys(params)) + ("_" + ("r" + ("_" + TypeKey(ret))))))
    case Tuple(elements) => "t" + ("_" + Join(TypeKeys(elements)))
  }

  function TypeKeys(ts: seq<Type>): (keys: seq<string>)
    ensures |keys| == |ts|
  {
    if ts == [] then [] else [TypeKey(ts[0])] + TypeKeys(ts[1..])
  }

  /** A name preceded by its length. */
  function LengthPrefixed(name: string): string {
    Decimal(|name|) + ("_" + name)
  }

  function NameKey(name: string): string {
    "n" + LengthPrefixed(name)
  }

  const InstanceMark: string := "__ppg_"

  /** What every instance name of `template` starts with. */
  function InstancePrefix(template: string): string {
    InstanceMark + (LengthPrefixed(template) + "_")
  }

  function Mangle(template: string, args: seq<Type>): string {
    InstancePrefix(template) + Join(TypeKeys(args))
  }

  predicate InstanceOf(concrete: string, template: string) {
    InstancePrefix(template) <= concrete
  }

  /** Names the compiler keeps for instances. */
  predicate Reserved(name: string) {
    InstanceMark <= name
  }

  // ---------------------------------------------------------------------------
  // Keys as symbol sequences
  // ---------------------------------------------------------------------------

  type BasicType = t: Type |
    t.Int? || t.Float? || t.Bool? || t.Str? || t.U8? || t.U16? || t.U32? || t.U64? || t.Void?
    witness Int

  /** The symbols a key is made of. A function type ends its parameters with `RetSym`, but
      nothing ends a tuple. `Nothing` stands for an empty parameter or element list. */
  datatype Symbol =
    | Basic(ty: BasicType) | NameSym(name: string) | ArraySym(length: nat)
    | PtrSym | FnSym | RetSym | TupleSym | Nothing

  function Spell(s: Symbol): string {
    match s
    case Basic(ty) => TypeKey(ty)
    case NameSym(name) => NameKey(name)
    case ArraySym(length) => "a" + Decimal(length)
    case PtrSym => "p"
    case FnSym => "f"
    case RetSym => "r"
    case TupleSym => "t"
    case Nothing => ""
  }

  function Symbols(t: Type): (r: seq<Symbol>)
    ensures |r| > 0
  {
    match t
    case Named(name) => [NameSym(name)]
    case Applied(name, args) => [NameSym(name)] + ListSymbols(args)
    case Array(inner, length) => [ArraySym(length)] + Symbols(inner)
    case Ptr(inner) => [PtrSym] + Symbols(inner)
    case Fn(params, ret) => [FnSym] + (ListSymbols(params) + ([RetSym] + Symbols(ret)))
    case Tuple(elements) => [TupleSym] + ListSymbols(elements)
    case _ => [Basic(t)]
  }

  function ListSymbols(ts: seq<Type>): (r: seq<Symbol>)
    ensures |r| > 0
  {
    if |ts| == 0 then [Nothing]
    else if |ts| == 1 then Symbols(ts[0])
    else Symbols(ts[0]) + ListSymbols(ts[1..])
  }

  /** The text of a symbol sequence. */
  function Text(symbols: seq<Symbol>): string {
    if |symbols| == 0 then ""
    else if |symbols| == 1 then Spell(symbols[0])
    else Spell(symbols[0]) + ("_" + Text(symbols[1..]))
  }

  lemma {:induction false} TextAppend(a: seq<Symbol>, b: seq<Symbol>)
    requires |a| > 0 && |b| > 0
    ensures Text(a + b) == Text(a) + ("_" + Text(b))
  {
    if |a| == 1 {
      assert (a + b)[1..] == b;
    } else {
      assert (a + b)[1..] == a[1..] + b;
      TextAppend(a[1..], b);
      Reassociate(Spell(a[0]), "_", Text(a[1..]), "_" + Text(b));
    }
  }

  lemma Reassociate<T>(a: seq<T>, b: seq<T>, c: seq<T>, d: seq<T>)
    ensures a + (b + (c + d)) == (a + (b + c)) + d
  {}

  lemma TextCons(s: Symbol, rest: seq<Symbol>)
    requires |rest| > 0
    ensures Text([s] + rest) == Spell(s) + ("_" + Text(rest))
  {
    assert ([s] + rest)[1..] == rest;
  }

  /** A key is the text of the type's symbols. */
  lemma {:induction false} KeyIsText(t: Type)
    ensures TypeKey(t) == Text(Symbols(t))
  {
    match t
    case Applied(name, args) =>
      ListKeyIsText(args);
      TextCons(NameSym(name), ListSymbols(args));
    case Array(inner, length) =>
      KeyIsText(inner);
      TextCons(ArraySym(length), Symbols(inner));
    case Ptr(inner) =>
      KeyIsText(inner);
      TextCons(PtrSym, Symbols(inner));
    case Fn(params, ret) =>
      ListKeyIsText(params);
      KeyIsText(ret);
      FnText(params, ret);
    case Tuple(elements) =>
      ListKeyIsText(elements);
      TextCons(TupleSym, ListSymbols(elements));
    case _ =>
  }

  lemma FnText(params: seq<Type>, ret: Type)
    ensures Text(Symbols(Fn(params, ret))) ==
            "f" + ("_" + (Text(ListSymbols(params)) + ("_" + ("r" + ("_" + Text(Symbols(ret)))))))
  {
    var result := [RetSym] + Symbols(ret);
    TextCons(RetSym, Symbols(ret));
    TextAppend(ListSymbols(params), result);
    TextCons(FnSym, ListSymbols(params) + result);
  }

  lemma {:induction false} ListKeyIsText(ts: seq<Type>)
    ensures Join(TypeKeys(ts)) == Text(ListSymbols(ts))
  {
    if |ts| == 1 {
      KeyIsText(ts[0]);
    } else if |ts| > 1 {
      KeyIsText(ts[0]);
      ListKeyIsText(ts[1..]);
      TextAppend(Symbols(ts[0]), ListSymbols(ts[1..]));
      assert TypeKeys(ts)[1..] == TypeKeys(ts[1..]);
    }
  }

  // ---------------------------------------------------------------------------
  // Unique decoding of texts
  // ---------------------------------------------------------------------------

  lemma CancelPrefix<T>(a: seq<T>, x: seq<T>, b: seq<T>, y: seq<T>)
    requires |a| == |b| && a + x == b + y
    ensures a == b && x == y
  {
    assert a == (a + x)[..|a|] && b == (b + y)[..|b|];
    assert x == (a + x)[|a|..] && y == (b + y)[|b|..];
  }

  lemma {:induction false} DecimalInjective(a: nat, b: nat)
    requires Decimal(a) == Decimal(b)
    ensures a == b
  {
    if a >= 10 {
      CancelSuffix(Decimal(a / 10), Digit(a % 10), Decimal(b / 10), Digit(b % 10));
      DecimalInjective(a / 10, b / 10);
    }
  }

  lemma CancelSuffix<T>(a: seq<T>, x: T, b: seq<T>, y: T)
    requires a + [x] == b + [y]
    ensures a == b && x == y
  {
    assert |a| == |b|;
    CancelPrefix(a, [x], b, [y]);
  }

  /** The length of the text up to its first underscore. */
  function FieldEnd(text: string): nat {
    if text == "" || text[0] == '_' then 0 else 1 + FieldEnd(text[1..])
  }

  predicate EndsField(rest: string) {
    rest == "" || rest[0] == '_'
  }

  lemma {:induction false} FieldEndOf(word: string, rest: string)
    requires NoUnderscore(word) && EndsField(rest)
    ensures FieldEnd(word + rest) == |word|
  {
    if word == "" {
      assert word + rest == rest;
    } else {
      assert (word + rest)[1..] == word[1..] + rest;
      FieldEndOf(word[1..], rest);
    }
  }

  /** A word without underscores is delimited by the end of the text or an underscore. */
  lemma WordDelimited(v: string, w: string, x: string, y: string)
    requires NoUnderscore(v) && NoUnderscore(w) && EndsField(x) && EndsField(y)
    requires v + x == w + y
    ensures v == w && x == y
  {
    FieldEndOf(v, x);
    FieldEndOf(w, y);
    CancelPrefix(v, x, w, y);
  }

  /** A length-prefixed name is delimited by its length. */
  lemma NameDelimited(m: string, n: string, x: string, y: string)
    requires LengthPrefixed(m) + x == LengthPrefixed(n) + y
    ensures m == n && x == y
  {
    var a, b := Decimal(|m|), Decimal(|n|);
    ReassociatePrefix(a, "_", m, x);
    ReassociatePrefix(b, "_", n, y);
    WordDelimited(a, b, "_" + (m + x), "_" + (n + y));
    DecimalInjective(|m|, |n|);
    CancelPrefix("_", m + x, "_", n + y);
    CancelPrefix(m, x, n, y);
  }

  lemma ReassociatePrefix<T>(a: seq<T>, b: seq<T>, c: seq<T>, d: seq<T>)
    ensures (a + (b + c)) + d == a + (b + (c + d))
  {}

  lemma SymbolDelimited(s: Symbol, t: Symbol, x: string, y: string)
    requires EndsField(x) && EndsField(y)
    requires Spell(s) + x == Spell(t) + y
    ensures s == t && x == y
  {
    FirstLetter(s, x);
    FirstLetter(t, y);
    match s
    case NameSym(m) =>
      assert t.NameSym?;
      TailOfCons('n', LengthPrefixed(m), x);
      TailOfCons('n', LengthPrefixed(t.name), y);
      NameDelimited(m, t.name, x, y);
    case ArraySym(length) =>
      assert t.ArraySym?;
      TailOfCons('a', Decimal(length), x);
      TailOfCons('a', Decimal(t.length), y);
      WordDelimited(Decimal(length), Decimal(t.length), x, y);
      DecimalInjective(length, t.length);
    case _ =>
      WordDelimited(Spell(s), Spell(t), x, y);
      WordsDistinct(s, t);
  }

  lemma TailOfCons(c: char, s: string, x: string)
    ensures (([c] + s) + x)[1..] == s + x
  {}

  predicate IsWord(s: Symbol) {
    !s.NameSym? && !s.ArraySym?
  }

  /** Only names start with `n`, only arrays with `a`. */
  lemma FirstLetter(s: Symbol, rest: string)
    requires EndsField(rest)
    ensures s.NameSym? <==> |Spell(s) + rest| > 0 && (Spell(s) + rest)[0] == 'n'
    ensures s.ArraySym? <==> |Spell(s) + rest| > 0 && (Spell(s) + rest)[0] == 'a'
    ensures IsWord(s) ==> NoUnderscore(Spell(s))
  {
    if s != Nothing {
      assert |Spell(s)| > 0;
      assert (Spell(s) + rest)[0] == Spell(s)[0];
    } else {
      assert Spell(s) + rest == rest;
    }
  }

  lemma WordsDistinct(s: Symbol, t: Symbol)
    requires IsWord(s) && IsWord(t) && Spell(s) == Spell(t)
    ensures s == t
  {
    var w := Spell(s);
    assert |w| == |Spell(t)|;
    if |w| > 1 {
      assert w[0] == Spell(t)[0] && w[1] == Spell(t)[1];
    }
  }

  function Tail(symbols: seq<Symbol>): (r: string)
    ensures EndsField(r)
  {
    if symbols == [] then "" else "_" + Text(symbols)
  }

  lemma {:induction false} TextInjective(a: seq<Symbol>, b: seq<Symbol>)
    requires |a| > 0 && |b| > 0
    requires Text(a) == Text(b)
    ensures a == b
  {
    TextSplit(a);
    TextSplit(b);
    SymbolDelimited(a[0], b[0], Tail(a[1..]), Tail(b[1..]));
    TailText(a[1..], b[1..]);
    if a[1..] != [] {
      TextInjective(a[1..], b[1..]);
    }
    SameUncons(a, b);
  }

  lemma TailText(x: seq<Symbol>, y: seq<Symbol>)
    requires Tail(x) == Tail(y)
    ensures x == [] <==> y == []
    ensures Text(x) == Text(y)
  {
    assert x == [] <==> Tail(x) == "";
    assert y == [] <==> Tail(y) == "";
    if x != [] {
      CancelPrefix("_", Text(x), "_", Text(y));
    }
  }

  lemma SameUncons<T>(a: seq<T>, b: seq<T>)
    requires |a| > 0 && |b| > 0 && a[0] == b[0] && a[1..] == b[1..]
    ensures a == b
  {
    assert a == [a[0]] + a[1..] && b == [b[0]] + b[1..];
  }

  lemma TextSplit(a: seq<Symbol>)
    requires |a| > 0
    ensures Text(a) == Spell(a[0]) + Tail(a[1..])
  {}

  lemma MangleSplit(template: string, args: seq<Type>)
    ensures Mangle(template, args) ==
            InstanceMark + (LengthPrefixed(template) + ("_" + Text(ListSymbols(args))))
  {
    ListKeyIsText(args);
    ReassociatePrefix(InstanceMark, LengthPrefixed(template), "_", Text(ListSymbols(args)));
  }

  /** Exactly when two instances share a name. */
  lemma MangleCollision(m: string, a: seq<Type>, n: string, b: seq<Type>)
    ensures Mangle(m, a) == Mangle(n, b) <==> m == n && ListSymbols(a) == ListSymbols(b)
  {
    MangleSplit(m, a);
    MangleSplit(n, b);
    if Mangle(m, a) == Mangle(n, b) {
      var x, y := "_" + Text(ListSymbols(a)), "_" + Text(ListSymbols(b));
      CancelPrefix(InstanceMark, LengthPrefixed(m) + x, InstanceMark, LengthPrefixed(n) + y);
      NameDelimited(m, n, x, y);
      CancelPrefix("_", Text(ListSymbols(a)), "_", Text(ListSymbols(b)));
      TextInjective(ListSymbols(a), ListSymbols(b));
    }
  }

  /** The template of an instance can be read off its name, whatever the arguments. */
  lemma InstanceOfMangle(m: string, args: seq<Type>, n: string)
    ensures InstanceOf(Mangle(m, args), n) <==> m == n
  {
    var whole := Mangle(m, args);
    if InstanceOf(whole, n) {
      var rest := whole[|InstancePrefix(n)|..];
      assert whole == InstancePrefix(n) + rest;
      ReassociatePrefix(InstanceMark, LengthPrefixed(n), "_", rest);
      MangleSplit(m, args);
      var x := "_" + Text(ListSymbols(args));
      CancelPrefix(InstanceMark, LengthPrefixed(m) + x, InstanceMark, LengthPrefixed(n) + ("_" + rest));
      NameDelimited(m, n, x, "_" + rest);
    }
  }

  lemma MangleReserved(template: string, args: seq<Type>)
    ensures Reserved(Mangle(template, args))
  {
    MangleSplit(template, args);
  }

  // ---------------------------------------------------------------------------
  // Tuple-free arguments
  // ---------------------------------------------------------------------------

  /** No tuple and no unexpanded generic type: what type arguments look like once rewritten, in
      a program that passes no tuple as a type argument. */
  predicate Keyable(t: Type) {
    match t
    case Tuple(_) => false
    case Applied(_, _) => false
    case Array(inner, _) => Keyable(inner)
    case Ptr(inner) => Keyable(inner)
    case Fn(params, ret) => AllKeyable(params) && Keyable(ret)
    case _ => true
  }

  predicate AllKeyable(ts: seq<Type>) {
    ts == [] || (Keyable(ts[0]) && AllKeyable(ts[1..]))
  }

  lemma CancelHead(s: Symbol, a: seq<Symbol>, x: seq<Symbol>, t: Symbol, b: seq<Symbol>, y: seq<Symbol>)
    requires ([s] + a) + x == ([t] + b) + y
    ensures s == t && a + x == b + y
  {
    assert ([s] + a) + x == [s] + (a + x) && ([t] + b) + y == [t] + (b + y);
    CancelPrefix([s], a + x, [t], b + y);
    assert [s][0] == [t][0];
  }

  function Head(t: Type): Symbol {
    Symbols(t)[0]
  }

  function Rest(t: Type): seq<Symbol> {
    Symbols(t)[1..]
  }

  /** On keyable types the symbols, and hence the keys, are prefix-free. */
  lemma {:induction false} SymbolsPrefixFree(t: Type, u: Type, x: seq<Symbol>, y: seq<Symbol>)
    requires Keyable(t) && Keyable(u)
    requires Symbols(t) + x == Symbols(u) + y
    ensures t == u && x == y
    decreases t
  {
    assert Symbols(t) == [Head(t)] + Rest(t) && Symbols(u) == [Head(u)] + Rest(u);
    CancelHead(Head(t), Rest(t), x, Head(u), Rest(u), y);
    match t
    case Array(inner, _) =>
      assert u.Array? && Rest(t) == Symbols(inner) && Rest(u) == Symbols(u.element);
      SymbolsPrefixFree(inner, u.element, x, y);
    case Ptr(inner) =>
      assert u.Ptr? && Rest(t) == Symbols(inner) && Rest(u) == Symbols(u.pointee);
      SymbolsPrefixFree(inner, u.pointee, x, y);
    case Fn(params, ret) =>
      assert u.Fn?;
      FnRest(params, ret, x);
      FnRest(u.params, u.ret, y);
      ParamsPrefixFree(params, u.params, Symbols(ret) + x, Symbols(u.ret) + y);
      SymbolsPrefixFree(ret, u.ret, x, y);
    case Tuple(_) =>
    case Applied(_, _) =>
    case _ =>
      assert Rest(t) == [] && Rest(u) == [];
      assert Rest(t) + x == x && Rest(u) + y == y;
  }

  lemma FnRest(params: seq<Type>, ret: Type, x: seq<Symbol>)
    ensures Rest(Fn(params, ret)) + x == ListSymbols(params) + ([RetSym] + (Symbols(ret) + x))
  {
    assert Rest(Fn(params, ret)) == ListSymbols(params) + ([RetSym] + Symbols(ret));
  }

  lemma Associate<T>(a: seq<T>, b: seq<T>, c: seq<T>)
    ensures (a + b) + c == a + (b + c)
  {}

  /** What follows the first of some parameters, up to the return type. */
  function AfterFirst(ts: seq<Type>): seq<Symbol>
    requires ts != []
  {
    if |ts| == 1 then [] else ListSymbols(ts[1..])
  }

  lemma FirstSymbol(ts: seq<Type>, x: seq<Symbol>)
    ensures (ListSymbols(ts) + x)[0] != RetSym
    ensures (ListSymbols(ts) + x)[0] == Nothing <==> ts == []
  {
    assert (ListSymbols(ts) + x)[0] == ListSymbols(ts)[0];
    if ts != [] {
      assert ListSymbols(ts)[0] == Head(ts[0]);
    }
  }

  lemma SplitFirst(ts: seq<Type>, x: seq<Symbol>)
    requires ts != []
    ensures ListSymbols(ts) + x == Symbols(ts[0]) + (AfterFirst(ts) + x)
  {
    if |ts| == 1 {
      assert [] + x == x;
    } else {
      Associate(Symbols(ts[0]), ListSymbols(ts[1..]), x);
    }
  }

  lemma {:induction false} ParamsPrefixFree(ts: seq<Type>, us: seq<Type>, x: seq<Symbol>, y: seq<Symbol>)
    requires AllKeyable(ts) && AllKeyable(us)
    requires ListSymbols(ts) + ([RetSym] + x) == ListSymbols(us) + ([RetSym] + y)
    ensures ts == us && x == y
    decreases ts
  {
    var x', y' := [RetSym] + x, [RetSym] + y;
    FirstSymbol(ts, x');
    FirstSymbol(us, y');
    if ts == [] {
      CancelPrefix([Nothing], x', [Nothing], y');
      CancelPrefix([RetSym], x, [RetSym], y);
    } else {
      SplitFirst(ts, x');
      SplitFirst(us, y');
      SymbolsPrefixFree(ts[0], us[0], AfterFirst(ts) + x', AfterFirst(us) + y');
      RestPrefixFree(ts, us, x, y);
    }
  }

  lemma {:induction false} RestPrefixFree(ts: seq<Type>, us: seq<Type>, x: seq<Symbol>, y: seq<Symbol>)
    requires ts != [] && us != [] && ts[0] == us[0]
    requires AllKeyable(ts) && AllKeyable(us)
    requires AfterFirst(ts) + ([RetSym] + x) == AfterFirst(us) + ([RetSym] + y)
    ensures ts == us && x == y
    decreases ts, 0
  {
    FirstSymbol(ts[1..], [RetSym] + x);
    FirstSymbol(us[1..], [RetSym] + y);
    var a, b := AfterFirst(ts) + ([RetSym] + x), AfterFirst(us) + ([RetSym] + y);
    assert |ts| == 1 <==> a[0] == RetSym;
    assert |us| == 1 <==> b[0] == RetSym;
    if |ts| == 1 {
      assert [] + ([RetSym] + x) == [RetSym] + x && [] + ([RetSym] + y) == [RetSym] + y;
      CancelPrefix([RetSym], x, [RetSym], y);
    } else {
      ParamsPrefixFree(ts[1..], us[1..], x, y);
    }
    assert ts == [ts[0]] + ts[1..] && us == [us[0]] + us[1..];
  }

  lemma {:induction false} ListSymbolsInjective(ts: seq<Type>, us: seq<Type>)
    requires AllKeyable(ts) && AllKeyable(us) && |ts| == |us|
    requires ListSymbols(ts) == ListSymbols(us)
    ensures ts == us
  {
    if ts != [] {
      assert ListSymbols(ts) == Symbols(ts[0]) + AfterFirst(ts);
      assert ListSymbols(us) == Symbols(us[0]) + AfterFirst(us);
      SymbolsPrefixFree(ts[0], us[0], AfterFirst(ts), AfterFirst(us));
      if |ts| > 1 {
        ListSymbolsInjective(ts[1..], us[1..]);
      }
      assert ts == [ts[0]] + ts[1..] && us == [us[0]] + us[1..];
    }
  }

  /** Instances of tuple-free arguments have distinct names. */
  lemma MangleInjective(m: string, a: seq<Type>, n: string, b: seq<Type>)
    requires AllKeyable(a) && AllKeyable(b)
    requires m == n ==> |a| == |b|
    requires Mangle(m, a) == Mangle(n, b)
    ensures m == n && a == b
  {
    MangleCollision(m, a, n, b);
    ListSymbolsInjective(a, b);
  }

  /** Nested tuples do collide: nothing in a key ends a tuple. */
  lemma TuplesCollide(template: string)
    ensures
      var pair := Tuple([Int, Int]);
      Mangle(template, [pair, Tuple([Int, Int, Int])]) == Mangle(template, [Tuple([Int, Int, pair]), Int])
  {
    var pair := Tuple([Int, Int]);
    var triple := Tuple([Int, Int, Int]);
    var nested := Tuple([Int, Int, pair]);
    var i := Basic(Int);
    PairSymbols(Int, Int);
    TripleSymbols(Int, Int, Int);
    TripleSymbols(Int, Int, pair);
    PairSymbols(pair, triple);
    PairSymbols(nested, Int);
    Associate(Symbols(pair), [TupleSym, i, i, i], []);
    assert Symbols(nested) == Symbols(pair) + [TupleSym, i, i];
    Associate(Symbols(pair), [TupleSym, i, i], [i]);
    MangleCollision(template, [pair, triple], template, [nested, Int]);
  }

  lemma PairSymbols(t: Type, u: Type)
    ensures ListSymbols([t, u]) == Symbols(t) + Symbols(u)
  {
    assert [t, u][1..] == [u];
  }

  lemma TripleSymbols(t: Type, u: Type, v: Type)
    ensures ListSymbols([t, u, v]) == Symbols(t) + (Symbols(u) + Symbols(v))
  {
    assert [t, u, v][1..] == [u, v];
    PairSymbols(u, v);
  }
}
