/** Reading types: every notation of a type is read as that type, and nothing else is.

    The difficulty in what follows is `name[`: the parser guesses that type arguments follow, and goes
    back if it finds no `(` or `{` after them. Brackets are balanced both in what is written and in what
    the type parser consumes, so a guess that succeeds on an index ends at the very bracket that closes
    the index, and what follows there decides. */
module RoundTrip {
  import opened Ast
  import opened Wrappers
  import opened Tokens
  import opened Parser
  import opened Notations
  import opened TextAppend

  // ---------------------------------------------------------------------------
  // Every notation is read
  // ---------------------------------------------------------------------------

  lemma BasicTypes(name: string)
    ensures BasicType(name) == if name in BASIC_TYPES then Some(BASIC_TYPES[name]) else None
  {
  }

  lemma ParseArray(length: nat, ts: seq<Token>)
    requires ParseType(ts).Parsed?
    ensures ParseType([LBracket, IntTok(length), RBracket] + ts)
         == Parsed(Array(ParseType(ts).value, length), ParseType(ts).rest)
  {
    hide ParseTupleType, ParseFnType, ParseNamedType, ParsePtrType, ParseArrayType;
    var inner := [IntTok(length), RBracket] + ts;
    AfterLength(length, ts, inner);
    assert [LBracket, IntTok(length), RBracket] + ts == [LBracket] + inner;
    ArrayStarts(inner);
  }

  lemma ArrayStarts(ts: seq<Token>)
    ensures ParseType([LBracket] + ts) == ParseArrayType(ts)
  {
    hide ParseTupleType, ParseFnType, ParseNamedType, ParsePtrType, ParseArrayType;
    assert Peek([LBracket] + ts) == LBracket && ([LBracket] + ts)[1..] == ts;
  }

  lemma AfterLength(length: nat, ts: seq<Token>, all: seq<Token>)
    requires ParseType(ts).Parsed? && all == [IntTok(length), RBracket] + ts
    ensures ParseArrayType(all) == Parsed(Array(ParseType(ts).value, length), ParseType(ts).rest)
  {
    hide ParseType;
    assert all[1..] == [RBracket] + ts;
    assert Expect(RBracket, [RBracket] + ts) == Parsed((), ts);
  }

  lemma ParseFn(ts: seq<Token>, ret: seq<Token>)
    requires ParseParamTypes(ts).Parsed? && ParseParamTypes(ts).rest == [Arrow] + ret
    requires ParseType(ret).Parsed?
    ensures ParseType([KwFn, LParen] + ts)
         == Parsed(Fn(ParseParamTypes(ts).value, ParseType(ret).value), ParseType(ret).rest)
  {
    hide ParseTupleType, ParseArrayType, ParseNamedType, ParsePtrType, ParseParamTypes;
    var all := [KwFn, LParen] + ts;
    assert all[1..] == [LParen] + ts;
    assert Expect(LParen, [LParen] + ts) == Parsed((), ts);
    assert ([Arrow] + ret)[1..] == ret;
  }

  lemma ParseTuple(ts: seq<Token>, others: seq<Token>)
    requires ParseType(ts).Parsed? && ParseType(ts).rest == [Comma] + others
    requires ParseTypesUntil(RParen, others).Parsed?
    ensures ParseType([LParen] + ts)
         == Parsed(Tuple([ParseType(ts).value] + ParseTypesUntil(RParen, others).value),
                   ParseTypesUntil(RParen, others).rest)
  {
    hide ParseFnType, ParseArrayType, ParseNamedType, ParsePtrType, ParseTypesUntil;
    assert Peek([LParen] + ts) == LParen && ([LParen] + ts)[1..] == ts;
    assert Expect(Comma, [Comma] + others) == Parsed((), others);
  }

  lemma ParseProcedure(ts: seq<Token>, rest: seq<Token>)
    requires ParseParamTypes(ts).Parsed? && ParseParamTypes(ts).rest == rest && Peek(rest) != Arrow
    ensures ParseType([KwFn, LParen] + ts) == Parsed(Fn(ParseParamTypes(ts).value, Void), rest)
  {
    hide ParseTupleType, ParseArrayType, ParseNamedType, ParsePtrType, ParseParamTypes;
    var all := [KwFn, LParen] + ts;
    assert all[1..] == [LParen] + ts;
    assert Expect(LParen, [LParen] + ts) == Parsed((), ts);
  }

  lemma ParseApplied(name: string, ts: seq<Token>)
    requires BasicType(name).None? && ParseTypesUntil(RBracket, ts).Parsed?
    ensures ParseType([Ident(name), LBracket] + ts)
         == Parsed(Applied(name, ParseTypesUntil(RBracket, ts).value), ParseTypesUntil(RBracket, ts).rest)
  {
    hide BasicType, ParseTypesUntil, ParseTupleType, ParseFnType, ParseArrayType, ParsePtrType;
    var all, args := [Ident(name), LBracket] + ts, [LBracket] + ts;
    var types := ParseTypesUntil(RBracket, ts);
    assert all[1..] == args;
    assert Expect(LBracket, args) == Parsed((), ts);
    assert ParseTypeArgs(args) == types;
    assert ParseNamedType(name, args) == Parsed(Applied(name, types.value), types.rest);
  }

  lemma ParsePtr(ts: seq<Token>)
    requires ParseType(ts).Parsed?
    ensures ParseType([Star] + ts) == Parsed(Ptr(ParseType(ts).value), ParseType(ts).rest)
  {
    hide ParseTupleType, ParseFnType, ParseArrayType, ParseNamedType;
    assert Peek([Star] + ts) == Star && ([Star] + ts)[1..] == ts;
    assert ParsePtrType(ts) == Parsed(Ptr(ParseType(ts).value), ParseType(ts).rest);
  }

  lemma ParseWord(name: string, ts: seq<Token>)
    requires name in BASIC_TYPES || Peek(ts) != LBracket
    ensures ParseType([Ident(name)] + ts) == Parsed(TypeOf(Word(name)), ts)
  {
    BasicTypes(name);
    hide BasicType, ParseTupleType, ParseFnType, ParseArrayType, ParsePtrType;
    assert ([Ident(name)] + ts)[1..] == ts;
    assert ParseNamedType(name, ts) == Parsed(TypeOf(Word(name)), ts);
  }

  /** No token that follows goes on with the type. */
  predicate AfterType(t: TypeForm, ts: seq<Token>) {
    (EndsInWord(t) ==> Peek(ts) != LBracket) && (EndsWithoutArrow(t) ==> Peek(ts) != Arrow)
  }

  /** A written type is read as what it means. */
  lemma {:induction false} TypeRoundTrip(t: TypeForm, rest: seq<Token>)
    requires ShapedType(t) && AfterType(t, rest)
    ensures ParseType(TypeText(t, rest)) == Parsed(TypeOf(t), rest)
    decreases t, 1
  {
    hide ParseType, ParseTypesUntil, ParseParamTypes, BasicType, TypesText, TypesOf, ShapedTypes;
    match t
    case Word(name) => ParseWord(name, rest);
    case Instance(template, args) =>
      BasicTypes(template);
      TypesRoundTrip(RBracket, args, rest);
      ParseApplied(template, TypesText(args, [RBracket] + rest));
    case ArrayForm(length, element) =>
      TypeRoundTrip(element, rest);
      ParseArray(length, TypeText(element, rest));
    case PtrForm(pointee) =>
      TypeRoundTrip(pointee, rest);
      ParsePtr(TypeText(pointee, rest));
    case FnForm(_, _) => FnRoundTrip(t, rest);
    case TupleForm(_) => TupleRoundTrip(t, rest);
  }

  lemma {:induction false} FnRoundTrip(t: TypeForm, rest: seq<Token>)
    requires t.FnForm? && ShapedType(t) && AfterType(t, rest)
    ensures ParseType(TypeText(t, rest)) == Parsed(TypeOf(t), rest)
    decreases t, 0
  {
    hide ParseType, ParseTypesUntil, ParseParamTypes, BasicType, TypesText, TypesOf, ShapedTypes;
    var params := TypesText(t.params, [RParen] + RetText(t.ret, rest));
    ParamTypesRoundTrip(t.params, RetText(t.ret, rest));
    if t.ret.Some? {
      TypeRoundTrip(t.ret.value, rest);
      ParseFn(params, TypeText(t.ret.value, rest));
    } else {
      ParseProcedure(params, rest);
    }
  }

  lemma {:induction false} TupleRoundTrip(t: TypeForm, rest: seq<Token>)
    requires t.TupleForm? && ShapedType(t)
    ensures ParseType(TypeText(t, rest)) == Parsed(TypeOf(t), rest)
    decreases t, 0
  {
    hide ParseType, ParseTypesUntil, ParseParamTypes, BasicType, EndsInWord;
    var others := TypesText(t.elements[1..], [RParen] + rest);
    TypeRoundTrip(t.elements[0], [Comma] + others);
    TypesRoundTrip(RParen, t.elements[1..], rest);
    ParseTuple(TypesText(t.elements, [RParen] + rest), others);
    assert TypesOf(t.elements) == [TypeOf(t.elements[0])] + TypesOf(t.elements[1..]);
  }

  lemma {:induction false} TypesRoundTrip(close: Token, types: seq<TypeForm>, rest: seq<Token>)
    requires close == RParen || close == RBracket
    requires types != [] && ShapedTypes(types)
    ensures ParseTypesUntil(close, TypesText(types, [close] + rest)) == Parsed(TypesOf(types), rest)
    decreases types, 0
  {
    hide ParseType, BasicType, TypeText, TypeOf, EndsInWord;
    if |types| == 1 {
      TypeRoundTrip(types[0], [close] + rest);
      assert TypesOf(types) == [TypeOf(types[0])];
    } else {
      var others := TypesText(types[1..], [close] + rest);
      TypeRoundTrip(types[0], [Comma] + others);
      TypesRoundTrip(close, types[1..], rest);
      assert ([Comma] + others)[1..] == others;
      assert TypesOf(types) == [TypeOf(types[0])] + TypesOf(types[1..]);
    }
  }

  lemma {:induction false} ParamTypesRoundTrip(types: seq<TypeForm>, rest: seq<Token>)
    requires ShapedTypes(types)
    ensures ParseParamTypes(TypesText(types, [RParen] + rest)) == Parsed(TypesOf(types), rest)
    decreases types, 1
  {
    hide ParseTypesUntil;
    if types != [] {
      TypesRoundTrip(RParen, types, rest);
      FirstOfTypes(types, [RParen] + rest);
    }
  }

  lemma {:induction false} FirstOfTypes(types: seq<TypeForm>, rest: seq<Token>)
    requires types != []
    ensures Peek(TypesText(types, rest)) != RParen
  {
    hide TypesText;
    assert TypesText(types, rest) == TypeText(types[0], if |types| == 1 then rest else [Comma] + TypesText(types[1..], rest))
      by { TypesStart(types, rest); }
  }

  lemma TypesStart(types: seq<TypeForm>, rest: seq<Token>)
    requires types != []
    ensures TypesText(types, rest)
         == TypeText(types[0], if |types| == 1 then rest else [Comma] + TypesText(types[1..], rest))
  {
  }

  // ---------------------------------------------------------------------------
  // Nothing else is read
  // ---------------------------------------------------------------------------

  /** `ts` is a notation of the type, with `rest` after it. */
  ghost predicate TypeWritten(t: TypeForm, value: Type, rest: seq<Token>, ts: seq<Token>) {
    ShapedType(t) && TypeOf(t) == value && TypeText(t, rest) == ts && AfterType(t, rest)
  }

  lemma {:induction false} TypeAccepted(ts: seq<Token>) returns (t: TypeForm)
    requires ParseType(ts).Parsed?
    ensures TypeWritten(t, ParseType(ts).value, ParseType(ts).rest, ts)
    decreases |ts|, 1
  {
    hide TypeWritten, ParseTupleType, ParsePtrType, ParseFnType, ParseArrayType, ParseNamedType;
    var token := Peek(ts);
    assert ts == [token] + ts[1..];
    if token == LParen {
      t := TupleAccepted(ts);
    } else if token == Star {
      t := PtrAccepted(ts);
    } else if token == KwFn {
      t := FnAccepted(ts);
    } else if token == LBracket {
      t := ArrayAccepted(ts);
    } else {
      t := NameAccepted(token.name, ts);
    }
  }

  lemma {:induction false} TupleAccepted(ts: seq<Token>) returns (t: TypeForm)
    requires Peek(ts) == LParen && ParseTupleType(ts[1..]).Parsed?
    ensures TypeWritten(t, ParseTupleType(ts[1..]).value, ParseTupleType(ts[1..]).rest, ts)
    decreases |ts|, 0
  {
    hide ParseType, ParseTypesUntil, ShapedTypes, TypesOf, TypesText, ShapedType, TypeOf, TypeText;
    var first := TypeAccepted(ts[1..]);
    var ts1 := ParseType(ts[1..]).rest;
    var others := TypesAccepted(RParen, ts1[1..]);
    var rest := ParseTypesUntil(RParen, ts1[1..]).rest;
    assert ts1 == [Comma] + ts1[1..];
    TypesCons(first, others, [RParen] + rest);
    t := TupleForm([first] + others);
    TupleWritten(t, rest);
    assert ts == [LParen] + ts[1..];
  }

  lemma TupleWritten(t: TypeForm, rest: seq<Token>)
    requires t.TupleForm? && |t.elements| >= 2 && ShapedTypes(t.elements)
    ensures ShapedType(t) && TypeOf(t) == Tuple(TypesOf(t.elements)) && AfterType(t, rest)
    ensures TypeText(t, rest) == [LParen] + TypesText(t.elements, [RParen] + rest)
  {
  }

  /** A list of types, longer by one. */
  lemma TypesCons(first: TypeForm, others: seq<TypeForm>, rest: seq<Token>)
    requires ShapedType(first) && ShapedTypes(others)
    ensures ShapedTypes([first] + others) && TypesOf([first] + others) == [TypeOf(first)] + TypesOf(others)
    ensures TypesText([first] + others, rest)
         == TypeText(first, if others == [] then rest else [Comma] + TypesText(others, rest))
  {
    hide ShapedType, TypeOf, TypeText;
    assert ([first] + others)[1..] == others;
  }

  lemma {:induction false} PtrAccepted(ts: seq<Token>) returns (t: TypeForm)
    requires Peek(ts) == Star && ParsePtrType(ts[1..]).Parsed?
    ensures TypeWritten(t, ParsePtrType(ts[1..]).value, ParsePtrType(ts[1..]).rest, ts)
    decreases |ts|, 0
  {
    hide ParseType;
    var pointee := TypeAccepted(ts[1..]);
    t := PtrForm(pointee);
    assert ts == [Star] + ts[1..];
  }

  lemma {:induction false} ArrayAccepted(ts: seq<Token>) returns (t: TypeForm)
    requires Peek(ts) == LBracket && ParseArrayType(ts[1..]).Parsed?
    ensures TypeWritten(t, ParseArrayType(ts[1..]).value, ParseArrayType(ts[1..]).rest, ts)
    decreases |ts|, 0
  {
    hide ParseType;
    var inner := ts[1..][1..][1..];
    var element := TypeAccepted(inner);
    t := ArrayForm(ts[1].value, element);
    assert ts == [LBracket, IntTok(ts[1].value), RBracket] + inner;
  }

  lemma {:induction false} NameAccepted(name: string, ts: seq<Token>) returns (t: TypeForm)
    requires Peek(ts) == Ident(name) && ParseNamedType(name, ts[1..]).Parsed?
    ensures TypeWritten(t, ParseNamedType(name, ts[1..]).value, ParseNamedType(name, ts[1..]).rest, ts)
    decreases |ts|, 0
  {
    BasicTypes(name);
    hide ParseTypesUntil, BasicType, ShapedTypes, TypesOf, TypesText;
    assert ts == [Ident(name)] + ts[1..];
    if name in BASIC_TYPES || Peek(ts[1..]) != LBracket {
      t := Word(name);
    } else {
      var args := TypesAccepted(RBracket, ts[1..][1..]);
      t := Instance(name, args);
      assert ts == [Ident(name), LBracket] + ts[1..][1..];
    }
  }

  lemma {:induction false} FnAccepted(ts: seq<Token>) returns (t: TypeForm)
    requires Peek(ts) == KwFn && ParseFnType(ts[1..]).Parsed?
    ensures TypeWritten(t, ParseFnType(ts[1..]).value, ParseFnType(ts[1..]).rest, ts)
    decreases |ts|, 0
  {
    hide ParseType, ParseTypesUntil, ShapedTypes, TypesOf, TypesText, ParseParamTypes, ShapedType, TypeOf, TypeText, EndsInWord,
      EndsWithoutArrow;
    var inner := ts[1..][1..];
    assert ts == [KwFn, LParen] + inner;
    var params := ParamsAccepted(inner);
    var after := ParseParamTypes(inner).rest;
    if Peek(after) == Arrow {
      var ret := TypeAccepted(after[1..]);
      t := FnForm(params, Some(ret));
      var rest := ParseType(after[1..]).rest;
      assert after == RetText(t.ret, rest) by { assert after == [Arrow] + after[1..]; }
      assert ParseFnType(ts[1..]) == Parsed(Fn(ParseParamTypes(inner).value, TypeOf(ret)), rest);
      FnWritten(params, Some(ret), rest);
    } else {
      t := FnForm(params, None);
      assert ParseFnType(ts[1..]) == Parsed(Fn(ParseParamTypes(inner).value, Void), after);
      FnWritten(params, None, after);
    }
  }

  lemma FnWritten(params: seq<TypeForm>, ret: Option<TypeForm>, rest: seq<Token>)
    ensures TypeText(FnForm(params, ret), rest) == [KwFn, LParen] + TypesText(params, [RParen] + RetText(ret, rest))
    ensures TypeOf(FnForm(params, ret)) == Fn(TypesOf(params), if ret.None? then Void else TypeOf(ret.value))
    ensures ShapedType(FnForm(params, ret)) <==> ShapedTypes(params) && (ret.Some? ==> ShapedType(ret.value))
    ensures EndsInWord(FnForm(params, ret)) <==> ret.Some? && EndsInWord(ret.value)
    ensures EndsWithoutArrow(FnForm(params, ret)) <==> ret.None? || EndsWithoutArrow(ret.value)
  {
  }

  lemma {:induction false} ParamsAccepted(ts: seq<Token>) returns (types: seq<TypeForm>)
    requires ParseParamTypes(ts).Parsed?
    ensures ShapedTypes(types) && TypesOf(types) == ParseParamTypes(ts).value
    ensures TypesText(types, [RParen] + ParseParamTypes(ts).rest) == ts
    decreases |ts|, 3
  {
    hide ParseTypesUntil;
    if Peek(ts) == RParen {
      types := [];
      assert ts == [RParen] + ts[1..];
    } else {
      types := TypesAccepted(RParen, ts);
    }
  }

  lemma {:induction false} TypesAccepted(close: Token, ts: seq<Token>) returns (types: seq<TypeForm>)
    requires close != Eof && ParseTypesUntil(close, ts).Parsed?
    ensures types != [] && ShapedTypes(types) && TypesOf(types) == ParseTypesUntil(close, ts).value
    ensures TypesText(types, [close] + ParseTypesUntil(close, ts).rest) == ts
    decreases |ts|, 2
  {
    hide ParseType, TypeOf, TypeText, ShapedType;
    var first := TypeAccepted(ts);
    var ts1 := ParseType(ts).rest;
    assert ts1 != [] ==> ts1 == [ts1[0]] + ts1[1..];
    if Peek(ts1) == Comma {
      var others := TypesAccepted(close, ts1[1..]);
      var rest := ParseTypesUntil(close, ts1[1..]).rest;
      hide TypesText, TypesOf, ShapedTypes;
      TypesCons(first, others, [close] + rest);
      types := [first] + others;
    } else {
      types := [first];
      assert types[1..] == [];
    }
  }

  // ---------------------------------------------------------------------------
  // Balanced brackets
  // ---------------------------------------------------------------------------

  /** The tokens after the `]` that closes the bracket around `depth` open ones. */
  function AfterClose(depth: nat, ts: seq<Token>): Option<seq<Token>>
    decreases |ts|
  {
    if ts == [] then None
    else if ts[0] == LBracket then AfterClose(depth + 1, ts[1..])
    else if ts[0] != RBracket then AfterClose(depth, ts[1..])
    else if depth == 0 then Some(ts[1..])
    else AfterClose(depth - 1, ts[1..])
  }

  lemma Skip(depth: nat, token: Token, ts: seq<Token>)
    requires token != LBracket && token != RBracket
    ensures AfterClose(depth, [token] + ts) == AfterClose(depth, ts)
  {
    assert ([token] + ts)[1..] == ts;
  }

  lemma SkipTwo(depth: nat, first: Token, second: Token, ts: seq<Token>)
    requires first != LBracket && first != RBracket && second != LBracket && second != RBracket
    ensures AfterClose(depth, [first, second] + ts) == AfterClose(depth, ts)
  {
    assert [first, second] + ts == [first] + ([second] + ts);
    Skip(depth, first, [second] + ts);
    Skip(depth, second, ts);
  }

  lemma Enter(depth: nat, ts: seq<Token>)
    ensures AfterClose(depth, [LBracket] + ts) == AfterClose(depth + 1, ts)
  {
    assert ([LBracket] + ts)[1..] == ts;
  }

  lemma Leave(depth: nat, ts: seq<Token>)
    ensures AfterClose(depth + 1, [RBracket] + ts) == AfterClose(depth, ts)
    ensures AfterClose(0, [RBracket] + ts) == Some(ts)
  {
    assert ([RBracket] + ts)[1..] == ts;
  }

  /** A written type has balanced brackets. */
  lemma {:induction false} TypeBalanced(depth: nat, t: TypeForm, rest: seq<Token>)
    ensures AfterClose(depth, TypeText(t, rest)) == AfterClose(depth, rest)
    decreases t, 1
  {
    hide AfterClose, TypesText, RetText;
    match t
    case Word(name) => Skip(depth, Ident(name), rest);
    case Instance(template, args) =>
      var inner := TypesText(args, [RBracket] + rest);
      Leave(depth, rest);
      TypesBalanced(depth + 1, args, [RBracket] + rest);
      Enter(depth, inner);
      assert TypeText(t, rest) == [Ident(template)] + ([LBracket] + inner);
      Skip(depth, Ident(template), [LBracket] + inner);
    case ArrayForm(length, element) =>
      var inner := TypeText(element, rest);
      TypeBalanced(depth, element, rest);
      assert TypeText(t, rest) == [LBracket] + ([IntTok(length)] + ([RBracket] + inner));
      Enter(depth, [IntTok(length)] + ([RBracket] + inner));
      Skip(depth + 1, IntTok(length), [RBracket] + inner);
      Leave(depth, inner);
    case PtrForm(pointee) =>
      TypeBalanced(depth, pointee, rest);
      Skip(depth, Star, TypeText(pointee, rest));
    case FnForm(params, ret) =>
      RetBalanced(depth, ret, rest);
      Skip(depth, RParen, RetText(ret, rest));
      TypesBalanced(depth, params, [RParen] + RetText(ret, rest));
      SkipTwo(depth, KwFn, LParen, TypesText(params, [RParen] + RetText(ret, rest)));
    case TupleForm(elements) =>
      Skip(depth, RParen, rest);
      TypesBalanced(depth, elements, [RParen] + rest);
      Skip(depth, LParen, TypesText(elements, [RParen] + rest));
  }

  lemma {:induction false} RetBalanced(depth: nat, ret: Option<TypeForm>, rest: seq<Token>)
    ensures AfterClose(depth, RetText(ret, rest)) == AfterClose(depth, rest)
    decreases ret, 0
  {
    hide AfterClose;
    if ret.Some? {
      TypeBalanced(depth, ret.value, rest);
      Skip(depth, Arrow, TypeText(ret.value, rest));
    }
  }

  lemma {:induction false} TypesBalanced(depth: nat, types: seq<TypeForm>, rest: seq<Token>)
    ensures AfterClose(depth, TypesText(types, rest)) == AfterClose(depth, rest)
    decreases types, 0
  {
    hide AfterClose, TypeText;
    if |types| == 1 {
      TypeBalanced(depth, types[0], rest);
    } else if |types| > 1 {
      var others := TypesText(types[1..], rest);
      TypesBalanced(depth, types[1..], rest);
      Skip(depth, Comma, others);
      TypeBalanced(depth, types[0], [Comma] + others);
    }
  }

  /** So has every list of types that can be parsed. */
  lemma ParsedTypesBalanced(close: Token, depth: nat, ts: seq<Token>)
    requires close != Eof && ParseTypesUntil(close, ts).Parsed?
    ensures AfterClose(depth, [close] + ParseTypesUntil(close, ts).rest) == AfterClose(depth, ts)
  {
    hide AfterClose, ParseTypesUntil;
    var types := TypesAccepted(close, ts);
    TypesBalanced(depth, types, [close] + ParseTypesUntil(close, ts).rest);
  }
}
