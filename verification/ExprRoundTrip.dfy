/** Every notation of an expression is read as what it means. */
module ExprRoundTrip {
  import opened Ast
  import opened Wrappers
  import opened Tokens
  import opened Parser
  import opened Notations
  import opened TextAppend
  import opened RoundTrip

  // ---------------------------------------------------------------------------
  // Brackets are balanced
  // ---------------------------------------------------------------------------

  lemma {:induction false} FormBalanced(bare: bool, open: bool, depth: nat, f: Form, rest: seq<Token>)
    requires Shaped(bare, open, f)
    ensures AfterClose(depth, Text(f, rest)) == AfterClose(depth, rest)
    decreases f, 1
  {
    hide AfterClose, FormsText, InitsText, TypeArgsText, OptionText, AllShaped, InitsShaped, ShapedTypes, HoldsTypes;
    match f
    case Lit(token) => Skip(depth, token, rest);
    case Name(name, dropped) =>
      TypeArgsBalanced(depth, dropped, rest);
      Skip(depth, Ident(name), TypeArgsText(dropped, rest));
    case Paren(inner) =>
      FormBalanced(bare, false, depth, inner, [RParen] + rest);
      Skip(depth, RParen, rest);
      Skip(depth, LParen, Text(inner, [RParen] + rest));
    case Infix(op, lhs, rhs) =>
      FormBalanced(bare, false, depth, lhs, [OpToken(op)] + Text(rhs, rest));
      Skip(depth, OpToken(op), Text(rhs, rest));
      FormBalanced(bare, open, depth, rhs, rest);
    case Prefix(token, operand) =>
      FormBalanced(bare, open, depth, operand, rest);
      Skip(depth, token, Text(operand, rest));
    case CastForm(operand, target) =>
      FormBalanced(bare, false, depth, operand, [KwAs] + TypeText(target, rest));
      Skip(depth, KwAs, TypeText(target, rest));
      TypeBalanced(depth, target, rest);
    case Member(base, field) =>
      FormBalanced(bare, false, depth, base, [Dot, Ident(field)] + rest);
      SkipTwo(depth, Dot, Ident(field), rest);
    case Bracket(base, index) =>
      IndexBalanced(bare, depth, index, rest);
      FormBalanced(bare, false, depth, base, [LBracket] + Text(index, [RBracket] + rest));
    case Range(base, lo, hi) =>
      RangeBalanced(bare, open, depth, f, rest);
      FormBalanced(bare, false, depth, base, [LBracket] + OptionText(lo, [Colon] + OptionText(hi, [RBracket] + rest)));
    case _ => CallBalanced(bare, open, depth, f, rest);
  }

  lemma {:induction false} IndexBalanced(bare: bool, depth: nat, index: Form, rest: seq<Token>)
    requires Shaped(bare, false, index)
    ensures AfterClose(depth, [LBracket] + Text(index, [RBracket] + rest)) == AfterClose(depth, rest)
    ensures AfterClose(0, Text(index, [RBracket] + rest)) == Some(rest)
    decreases index, 3
  {
    hide AfterClose, Text, Shaped;
    Enter(depth, Text(index, [RBracket] + rest));
    FormBalanced(bare, false, depth + 1, index, [RBracket] + rest);
    FormBalanced(bare, false, 0, index, [RBracket] + rest);
    Leave(depth, rest);
  }

  lemma {:induction false} RangeBalanced(bare: bool, open: bool, depth: nat, f: Form, rest: seq<Token>)
    requires f.Range? && Shaped(bare, open, f)
    ensures AfterClose(depth, [LBracket] + OptionText(f.lo, [Colon] + OptionText(f.hi, [RBracket] + rest)))
         == AfterClose(depth, rest)
    ensures AfterClose(0, OptionText(f.lo, [Colon] + OptionText(f.hi, [RBracket] + rest))) == Some(rest)
    decreases f, 0
  {
    hide AfterClose, Text, HoldsTypes;
    var end := OptionText(f.hi, [RBracket] + rest);
    Enter(depth, OptionText(f.lo, [Colon] + end));
    OptionBalanced(bare, depth + 1, f.lo, [Colon] + end);
    OptionBalanced(bare, 0, f.lo, [Colon] + end);
    Skip(depth + 1, Colon, end);
    Skip(0, Colon, end);
    OptionBalanced(bare, depth + 1, f.hi, [RBracket] + rest);
    OptionBalanced(bare, 0, f.hi, [RBracket] + rest);
    Leave(depth, rest);
  }

  lemma {:induction false} OptionBalanced(bare: bool, depth: nat, o: Option<Form>, rest: seq<Token>)
    requires o.Some? ==> Shaped(bare, false, o.value)
    ensures AfterClose(depth, OptionText(o, rest)) == AfterClose(depth, rest)
    decreases o, 0
  {
    hide AfterClose, Text, Shaped;
    if o.Some? {
      FormBalanced(bare, false, depth, o.value, rest);
    }
  }

  lemma TypeArgsBalanced(depth: nat, types: seq<TypeForm>, rest: seq<Token>)
    ensures AfterClose(depth, TypeArgsText(types, rest)) == AfterClose(depth, rest)
  {
    hide AfterClose;
    if types != [] {
      Enter(depth, TypesText(types, [RBracket] + rest));
      TypesBalanced(depth + 1, types, [RBracket] + rest);
      Leave(depth, rest);
    }
  }

  lemma {:induction false} CallBalanced(bare: bool, open: bool, depth: nat, f: Form, rest: seq<Token>)
    requires f.MethodForm? || f.CallForm? || f.StructForm? || f.ListForm? || f.TupleExprForm?
    requires Shaped(bare, open, f)
    ensures AfterClose(depth, Text(f, rest)) == AfterClose(depth, rest)
    decreases f, 0
  {
    hide AfterClose, FormsText, InitsText, TypeArgsText, AllShaped, InitsShaped, ShapedTypes;
    match f
    case MethodForm(receiver, name, typeArgs, args) =>
      var inner := [LParen] + FormsText(args, [RParen] + rest);
      ArgsBalanced(bare, depth, args, rest);
      TypeArgsBalanced(depth, typeArgs, inner);
      SkipTwo(depth, Dot, Ident(name), TypeArgsText(typeArgs, inner));
      FormBalanced(bare, false, depth, receiver, [Dot, Ident(name)] + TypeArgsText(typeArgs, inner));
    case CallForm(callee, typeArgs, args) =>
      var inner := [LParen] + FormsText(args, [RParen] + rest);
      ArgsBalanced(bare, depth, args, rest);
      TypeArgsBalanced(depth, typeArgs, inner);
      Skip(depth, Ident(callee), TypeArgsText(typeArgs, inner));
    case StructForm(name, typeArgs, fields) =>
      var inner := InitsText(fields, [RBrace] + rest);
      Skip(depth, RBrace, rest);
      InitsBalanced(bare, depth, fields, [RBrace] + rest);
      Skip(depth, LBrace, inner);
      TypeArgsBalanced(depth, typeArgs, [LBrace] + inner);
      Skip(depth, Ident(name), TypeArgsText(typeArgs, [LBrace] + inner));
    case ListForm(values) =>
      FormsBalanced(bare, depth + 1, values, [RBracket] + rest);
      Enter(depth, FormsText(values, [RBracket] + rest));
      Leave(depth, rest);
    case TupleExprForm(values) => ArgsBalanced(bare, depth, values, rest);
  }

  lemma {:induction false} ArgsBalanced(bare: bool, depth: nat, fs: seq<Form>, rest: seq<Token>)
    requires AllShaped(bare, fs)
    ensures AfterClose(depth, [LParen] + FormsText(fs, [RParen] + rest)) == AfterClose(depth, rest)
    decreases fs, 1
  {
    hide AfterClose, FormsText;
    Skip(depth, RParen, rest);
    FormsBalanced(bare, depth, fs, [RParen] + rest);
    Skip(depth, LParen, FormsText(fs, [RParen] + rest));
  }

  lemma {:induction false} FormsBalanced(bare: bool, depth: nat, fs: seq<Form>, rest: seq<Token>)
    requires AllShaped(bare, fs)
    ensures AfterClose(depth, FormsText(fs, rest)) == AfterClose(depth, rest)
    decreases fs, 0
  {
    hide AfterClose, Text, Shaped;
    if |fs| == 1 {
      FormBalanced(bare, false, depth, fs[0], rest);
    } else if |fs| > 1 {
      var others := FormsText(fs[1..], rest);
      FormsBalanced(bare, depth, fs[1..], rest);
      Skip(depth, Comma, others);
      FormBalanced(bare, false, depth, fs[0], [Comma] + others);
    }
  }

  lemma {:induction false} InitsBalanced(bare: bool, depth: nat, fields: seq<InitForm>, rest: seq<Token>)
    requires InitsShaped(bare, fields)
    ensures AfterClose(depth, InitsText(fields, rest)) == AfterClose(depth, rest)
    decreases fields, 0
  {
    hide AfterClose, InitText, InitShaped;
    if |fields| == 1 {
      InitBalanced(bare, depth, fields[0], rest);
    } else if |fields| > 1 {
      var others := InitsText(fields[1..], rest);
      InitsBalanced(bare, depth, fields[1..], rest);
      Skip(depth, Comma, others);
      InitBalanced(bare, depth, fields[0], [Comma] + others);
    }
  }

  lemma {:induction false} InitBalanced(bare: bool, depth: nat, field: InitForm, rest: seq<Token>)
    requires InitShaped(bare, field)
    ensures AfterClose(depth, InitText(field, rest)) == AfterClose(depth, rest)
    decreases field, 0
  {
    hide AfterClose, Text, Shaped;
    FormBalanced(bare, false, depth, field.value, rest);
    SkipTwo(depth, Ident(field.name), Colon, Text(field.value, rest));
  }

  // ---------------------------------------------------------------------------
  // What may follow
  // ---------------------------------------------------------------------------

  /** The body of a `for` or `switch` starts here. */
  predicate Open(bare: bool, ts: seq<Token>) {
    bare && Peek(ts) == LBrace
  }

  /** No call, no struct literal and no arrow goes on with these tokens. */
  predicate NoCall(bare: bool, ts: seq<Token>) {
    Peek(ts) !in {LParen, Arrow} && (Peek(ts) == LBrace ==> bare)
  }

  /** What follows leaves a name a name and a field a field: no bracket that is taken for type
      arguments. */
  predicate Inert(bare: bool, f: Form, ts: seq<Token>) {
    NoCall(bare, ts)
    && (f.Name? ==> if f.dropped == [] then SpeculateTypeArgs({LParen, LBrace}, ts) == ([], ts) else Peek(ts) == LBrace)
    && (f.Member? ==> SpeculateTypeArgs({LParen}, ts) == ([], ts))
    && (f.CastForm? && EndsInWord(f.target) ==> Peek(ts) != LBracket)
  }

  /** No postfix construct goes on with these tokens. */
  predicate Closed(bare: bool, ts: seq<Token>) {
    NoCall(bare, ts) && Peek(ts) !in {LBracket, Dot, KwAs}
  }

  /** Neither does a binary operator that binds more tightly than `level`. */
  predicate Below(level: nat, ts: seq<Token>) {
    Precedence(Peek(ts)).Some? ==> Precedence(Peek(ts)).value <= level
  }

  lemma InertElsewhere(bare: bool, f: Form, ts: seq<Token>)
    requires NoCall(bare, ts) && Peek(ts) != LBracket && Shaped(bare, Open(bare, ts), f)
    ensures Inert(bare, f, ts)
  {
  }

  /** A guess at type arguments cannot run past the bracket that closes the index. */
  lemma GuessEndsAtBracket(content: seq<Token>, rest: seq<Token>)
    requires AfterClose(0, content + rest) == Some(rest)
    ensures ParseTypesUntil(RBracket, content + rest).Parsed? <==> HoldsTypes(content)
    ensures HoldsTypes(content) ==> ParseTypesUntil(RBracket, content + rest).rest == rest
  {
    hide AfterClose, ParseTypesUntil, ShapedTypes;
    var all := ParseTypesUntil(RBracket, content + rest);
    if all.Parsed? {
      ParsedTypesBalanced(RBracket, 0, content + rest);
      Leave(0, all.rest);
      var ts := TypesAccepted(RBracket, content + rest);
      TypesAppend(ts, [RBracket], rest);
      SameFront(TypesText(ts, [RBracket]), content, rest);
    }
    if HoldsTypes(content) {
      var ts: seq<TypeForm> :| ts != [] && ShapedTypes(ts) && TypesText(ts, [RBracket]) == content;
      TypesAppend(ts, [RBracket], rest);
      TypesRoundTrip(RBracket, ts, rest);
    }
  }

  lemma SameFront(a: seq<Token>, b: seq<Token>, rest: seq<Token>)
    requires a + rest == b + rest
    ensures a == b
  {
    assert |a + rest| == |b + rest|;
    assert (a + rest)[..|a|] == a && (b + rest)[..|a|] == b;
  }

  lemma InertBracket(bare: bool, f: Form, content: seq<Token>, rest: seq<Token>)
    requires AfterClose(0, content + rest) == Some(rest) && NoCall(bare, rest)
    requires Shaped(bare, false, f) && TakesBracket(f)
    requires Peek(rest) == LBrace && f.Name? ==> !HoldsTypes(content)
    ensures Inert(bare, f, [LBracket] + (content + rest))
  {
    hide HoldsTypes, AfterClose, ParseTypesUntil;
    GuessEndsAtBracket(content, rest);
    if f.Name? {
      GuessAtBracket({LParen, LBrace}, content, rest);
    }
    GuessAtBracket({LParen}, content, rest);
    hide SpeculateTypeArgs, EndsInWord;
    assert f.Name? ==> f.dropped == [];
  }

  lemma GuessAtBracket(follow: set<Token>, content: seq<Token>, rest: seq<Token>)
    requires ParseTypesUntil(RBracket, content + rest).Parsed?
         ==> ParseTypesUntil(RBracket, content + rest).rest == rest && Peek(rest) !in follow
    ensures var ts := [LBracket] + (content + rest); SpeculateTypeArgs(follow, ts) == ([], ts)
  {
    hide ParseTypesUntil;
    assert ([LBracket] + (content + rest))[1..] == content + rest;
  }

  /** Written type arguments are found by the guess. */
  lemma TypeArgsFound(follow: set<Token>, types: seq<TypeForm>, ts: seq<Token>)
    requires ShapedTypes(types) && Peek(ts) in follow && Peek(ts) != LBracket
    ensures SpeculateTypeArgs(follow, TypeArgsText(types, ts)) == (TypesOf(types), ts)
  {
    hide ParseTypesUntil, ShapedTypes;
    if types != [] {
      var inner := TypesText(types, [RBracket] + ts);
      TypesRoundTrip(RBracket, types, ts);
      assert ([LBracket] + inner)[1..] == inner;
    }
  }

  /** How an expression can start. */
  predicate Starts(token: Token) {
    token.IntTok? || token.FloatTok? || token.StrTok? || token.Ident? ||
    token in {KwTrue, KwFalse, LParen, LBracket}
  }

  lemma {:induction false} FirstToken(bare: bool, open: bool, f: Form, rest: seq<Token>)
    requires Shaped(bare, open, f)
    ensures var t := Peek(Text(f, rest)); Starts(t) || IsPrefix(t)
    ensures Level(f) >= PostfixLevel ==> Starts(Peek(Text(f, rest)))
    decreases f
  {
    hide TypeArgsText, FormsText, InitsText, OptionText, HoldsTypes, AllShaped, InitsShaped, ShapedTypes;
    match f
    case Infix(op, lhs, rhs) => FirstToken(bare, false, lhs, [OpToken(op)] + Text(rhs, rest));
    case CastForm(operand, target) => FirstToken(bare, false, operand, [KwAs] + TypeText(target, rest));
    case Member(base, field) => FirstToken(bare, false, base, [Dot, Ident(field)] + rest);
    case Bracket(base, index) => FirstToken(bare, false, base, [LBracket] + Text(index, [RBracket] + rest));
    case Range(base, lo, hi) =>
      FirstToken(bare, false, base, [LBracket] + OptionText(lo, [Colon] + OptionText(hi, [RBracket] + rest)));
    case MethodForm(receiver, name, typeArgs, args) =>
      FirstToken(bare, false, receiver,
                 [Dot, Ident(name)] + TypeArgsText(typeArgs, [LParen] + FormsText(args, [RParen] + rest)));
    case _ =>
  }

  // ---------------------------------------------------------------------------
  // One step of the parser
  // ---------------------------------------------------------------------------

  lemma OperatorReads(op: BinOp)
    ensures Precedence(OpToken(op)) == Some(OpPrecedence(op)) && BinOpFrom(OpToken(op)) == op
  {
  }

  lemma PrefixReads(token: Token, operand: Expr)
    requires token in PREFIXES
    ensures IsPrefix(token) && UnaryNode(token, operand) == Some(PrefixMeaning(token, operand))
  {
  }

  lemma LoopStops(bare: bool, e: Expr, ts: seq<Token>)
    requires Closed(bare, ts)
    ensures PostfixLoop(bare, e, ts) == Parsed(e, ts)
  {
  }

  lemma LoopMember(bare: bool, e: Expr, ts: seq<Token>, next: Expr, rest: seq<Token>)
    requires ParseMember(bare, e, ts) == Parsed(next, rest)
    ensures PostfixLoop(bare, e, [Dot] + ts) == PostfixLoop(bare, next, rest)
  {
    hide ParseMember, ParseBracket, ParseType;
    assert ([Dot] + ts)[1..] == ts;
  }

  lemma LoopField(bare: bool, e: Expr, name: string, ts: seq<Token>)
    requires SpeculateTypeArgs({LParen}, ts) == ([], ts) && Peek(ts) != LParen
    ensures PostfixLoop(bare, e, [Dot, Ident(name)] + ts) == PostfixLoop(bare, Field(e, name), ts)
  {
    hide PostfixLoop, SpeculateTypeArgs;
    assert [Dot, Ident(name)] + ts == [Dot] + ([Ident(name)] + ts);
    assert ([Ident(name)] + ts)[1..] == ts;
    LoopMember(bare, e, [Ident(name)] + ts, Field(e, name), ts);
  }

  lemma LoopMethod(bare: bool, e: Expr, name: string, ts: seq<Token>, typeArgs: seq<Type>, inner: seq<Token>)
    requires SpeculateTypeArgs({LParen}, ts) == (typeArgs, [LParen] + inner)
    requires ParseArgs(bare, inner).Parsed?
    ensures PostfixLoop(bare, e, [Dot, Ident(name)] + ts)
         == PostfixLoop(bare, MethodCall(e, name, typeArgs, ParseArgs(bare, inner).value),
                        ParseArgs(bare, inner).rest)
  {
    hide PostfixLoop, SpeculateTypeArgs, ParseArgs;
    assert [Dot, Ident(name)] + ts == [Dot] + ([Ident(name)] + ts);
    assert ([Ident(name)] + ts)[1..] == ts && ([LParen] + inner)[1..] == inner;
    LoopMember(bare, e, [Ident(name)] + ts, MethodCall(e, name, typeArgs, ParseArgs(bare, inner).value),
               ParseArgs(bare, inner).rest);
  }

  lemma LoopBracket(bare: bool, e: Expr, ts: seq<Token>, next: Expr, rest: seq<Token>)
    requires ParseBracket(bare, e, ts) == Parsed(next, rest)
    ensures PostfixLoop(bare, e, [LBracket] + ts) == PostfixLoop(bare, next, rest)
  {
    hide ParseMember, ParseBracket, ParseType;
    assert ([LBracket] + ts)[1..] == ts;
  }

  lemma LoopIndex(bare: bool, e: Expr, ts: seq<Token>, index: Expr, rest: seq<Token>)
    requires Peek(ts) != Colon && ParseExpr(bare, ts) == Parsed(index, [RBracket] + rest)
    ensures PostfixLoop(bare, e, [LBracket] + ts) == PostfixLoop(bare, Index(e, index), rest)
  {
    hide ParseExpr, PostfixLoop;
    assert ([RBracket] + rest)[1..] == rest;
    LoopBracket(bare, e, ts, Index(e, index), rest);
  }

  lemma SliceEnd(bare: bool, e: Expr, lo: Option<Expr>, end: seq<Token>, hi: Option<Expr>, rest: seq<Token>)
    requires hi.None? ==> end == [RBracket] + rest
    requires hi.Some? ==> Peek(end) != RBracket && ParseExpr(bare, end) == Parsed(hi.value, [RBracket] + rest)
    ensures ParseSliceEnd(bare, e, lo, end) == Parsed(Slice(e, lo, hi), rest)
  {
    hide ParseExpr;
    assert ([RBracket] + rest)[1..] == rest;
  }

  lemma LoopSlice(bare: bool, e: Expr, ts: seq<Token>, lo: Option<Expr>, end: seq<Token>, hi: Option<Expr>, rest: seq<Token>)
    requires lo.None? ==> ts == [Colon] + end
    requires lo.Some? ==> Peek(ts) != Colon && ParseExpr(bare, ts) == Parsed(lo.value, [Colon] + end)
    requires ParseSliceEnd(bare, e, lo, end) == Parsed(Slice(e, lo, hi), rest)
    ensures PostfixLoop(bare, e, [LBracket] + ts) == PostfixLoop(bare, Slice(e, lo, hi), rest)
  {
    hide ParseExpr, PostfixLoop, ParseSliceEnd;
    assert ([Colon] + end)[1..] == end;
    LoopBracket(bare, e, ts, Slice(e, lo, hi), rest);
  }

  lemma LoopCast(bare: bool, e: Expr, ts: seq<Token>)
    requires ParseType(ts).Parsed?
    ensures PostfixLoop(bare, e, [KwAs] + ts) == PostfixLoop(bare, Cast(e, ParseType(ts).value), ParseType(ts).rest)
  {
    hide ParseType;
    assert ([KwAs] + ts)[1..] == ts;
  }

  lemma PrimaryAtom(bare: bool, f: Form, rest: seq<Token>)
    requires f.Lit? && Shaped(bare, Open(bare, rest), f)
    ensures ParsePrimary(bare, Text(f, rest)) == Parsed(Meaning(f), rest)
  {
    hide ParseArgs, ParseFields, ParseExpr, ParseExprsUntil, SpeculateTypeArgs;
    var all := [f.token] + rest;
    assert Peek(all) == f.token && all[1..] == rest;
  }

  lemma PrimaryName(bare: bool, name: string, ts: seq<Token>, rest: seq<Token>)
    requires SpeculateTypeArgs({LParen, LBrace}, ts).1 == rest && NoCall(bare, rest)
    ensures ParsePrimary(bare, [Ident(name)] + ts) == Parsed(Var(name), rest)
  {
    hide ParseArgs, ParseFields, ParseExpr, ParseExprsUntil, SpeculateTypeArgs;
    var all := [Ident(name)] + ts;
    assert Peek(all) == Ident(name) && all[1..] == ts;
  }

  lemma PrimaryCall(bare: bool, name: string, ts: seq<Token>, typeArgs: seq<Type>, inner: seq<Token>)
    requires SpeculateTypeArgs({LParen, LBrace}, ts) == (typeArgs, [LParen] + inner)
    requires ParseArgs(bare, inner).Parsed?
    ensures ParsePrimary(bare, [Ident(name)] + ts)
         == Parsed(Call(name, typeArgs, ParseArgs(bare, inner).value), ParseArgs(bare, inner).rest)
  {
    hide ParseArgs, ParseFields, ParseExpr, ParseExprsUntil, SpeculateTypeArgs;
    var all := [Ident(name)] + ts;
    assert Peek(all) == Ident(name) && all[1..] == ts && ([LParen] + inner)[1..] == inner;
  }

  lemma PrimaryStruct(bare: bool, name: string, ts: seq<Token>, typeArgs: seq<Type>, inner: seq<Token>)
    requires !bare && SpeculateTypeArgs({LParen, LBrace}, ts) == (typeArgs, [LBrace] + inner)
    requires ParseFields(bare, inner).Parsed?
    ensures ParsePrimary(bare, [Ident(name)] + ts)
         == Parsed(StructInit(name, typeArgs, ParseFields(bare, inner).value), ParseFields(bare, inner).rest)
  {
    hide ParseArgs, ParseFields, ParseExpr, ParseExprsUntil, SpeculateTypeArgs;
    var all := [Ident(name)] + ts;
    assert Peek(all) == Ident(name) && all[1..] == ts && ([LBrace] + inner)[1..] == inner;
  }

  lemma PrimaryParens(bare: bool, ts: seq<Token>, e: Expr, rest: seq<Token>)
    requires ParseExpr(bare, ts) == Parsed(e, [RParen] + rest)
    ensures ParsePrimary(bare, [LParen] + ts) == Parsed(e, rest)
  {
    hide ParseArgs, ParseFields, ParseExpr, ParseExprsUntil, SpeculateTypeArgs;
    assert ([LParen] + ts)[1..] == ts && ([RParen] + rest)[1..] == rest;
  }

  lemma PrimaryTuple(bare: bool, ts: seq<Token>, first: Expr, others: seq<Token>)
    requires ParseExpr(bare, ts) == Parsed(first, [Comma] + others)
    requires ParseExprsUntil(bare, RParen, others).Parsed?
    ensures ParsePrimary(bare, [LParen] + ts)
         == Parsed(TupleLit([first] + ParseExprsUntil(bare, RParen, others).value),
                   ParseExprsUntil(bare, RParen, others).rest)
  {
    hide ParseArgs, ParseFields, ParseExpr, ParseExprsUntil, SpeculateTypeArgs;
    assert ([LParen] + ts)[1..] == ts && ([Comma] + others)[1..] == others;
  }

  lemma PrimaryArray(bare: bool, ts: seq<Token>, values: seq<Expr>, rest: seq<Token>)
    requires values == [] ==> ts == [RBracket] + rest
    requires values != [] ==> Peek(ts) != RBracket && ParseExprsUntil(bare, RBracket, ts) == Parsed(values, rest)
    ensures ParsePrimary(bare, [LBracket] + ts) == Parsed(ArrayLit(values), rest)
  {
    hide ParseArgs, ParseFields, ParseExpr, ParseExprsUntil, SpeculateTypeArgs;
    var all := [LBracket] + ts;
    assert all[1..] == ts && ([RBracket] + rest)[1..] == rest;
  }

  lemma UnaryStep(bare: bool, token: Token, ts: seq<Token>, operand: Expr, rest: seq<Token>)
    requires token in PREFIXES && ParseUnary(bare, ts) == Parsed(operand, rest)
    ensures ParseUnary(bare, [token] + ts) == Parsed(PrefixMeaning(token, operand), rest)
  {
    PrefixReads(token, operand);
    assert ([token] + ts)[1..] == ts;
  }

  lemma BinaryStep(bare: bool, min: nat, op: BinOp, lhs: Expr, ts: seq<Token>, rhs: Expr, rest: seq<Token>)
    requires min <= OpPrecedence(op) && ParseBinary(bare, OpPrecedence(op) + 1, ts) == Parsed(rhs, rest)
    ensures BinaryLoop(bare, min, lhs, [OpToken(op)] + ts) == BinaryLoop(bare, min, Binary(op, lhs, rhs), rest)
  {
    OperatorReads(op);
    hide ParseBinary, OpPrecedence, Precedence;
    assert ([OpToken(op)] + ts)[1..] == ts;
  }

  lemma BinaryStops(bare: bool, min: nat, e: Expr, level: nat, ts: seq<Token>)
    requires Below(level, ts) && level < min
    ensures BinaryLoop(bare, min, e, ts) == Parsed(e, ts)
  {
  }

  lemma PostfixFrom(bare: bool, ts: seq<Token>, e: Expr, rest: seq<Token>)
    requires ParsePrimary(bare, ts) == Parsed(e, rest)
    ensures ParsePostfix(bare, ts) == PostfixLoop(bare, e, rest)
  {
    hide ParsePrimary, PostfixLoop;
  }

  lemma UnaryFrom(bare: bool, ts: seq<Token>, e: Expr, rest: seq<Token>)
    requires Starts(Peek(ts)) && Closed(bare, rest) && ParsePostfix(bare, ts) == PostfixLoop(bare, e, rest)
    ensures ParseUnary(bare, ts) == Parsed(e, rest)
  {
    hide ParsePostfix, PostfixLoop;
    LoopStops(bare, e, rest);
  }

  lemma BinaryFrom(bare: bool, min: nat, ts: seq<Token>, e: Expr, rest: seq<Token>)
    requires ParseUnary(bare, ts) == Parsed(e, rest)
    ensures ParseBinary(bare, min, ts) == BinaryLoop(bare, min, e, rest)
  {
    hide ParseUnary, BinaryLoop;
  }

  lemma ExprFrom(bare: bool, ts: seq<Token>)
    ensures ParseExpr(bare, ts) == ParseBinary(bare, 0, ts)
  {
  }

  /** The token that ends an expression inside a larger one. */
  predicate Ender(token: Token) {
    token in {RParen, RBracket, RBrace, Comma, Colon}
  }

  lemma EnderEnds(bare: bool, token: Token, ts: seq<Token>)
    requires Ender(token)
    ensures Closed(bare, [token] + ts) && Below(0, [token] + ts) && !Open(bare, [token] + ts)
    ensures !Starts(token) && !IsPrefix(token)
  {
  }

  lemma EnderStops(bare: bool, end: Token, e: Expr, rest: seq<Token>)
    requires Ender(end)
    ensures BinaryLoop(bare, 0, e, [end] + rest) == Parsed(e, [end] + rest)
  {
  }

  lemma OperatorFollows(bare: bool, op: BinOp, ts: seq<Token>)
    ensures Closed(bare, [OpToken(op)] + ts) && Below(OpPrecedence(op), [OpToken(op)] + ts)
    ensures !Open(bare, [OpToken(op)] + ts)
  {
  }

  lemma WeakerBelow(low: nat, high: nat, ts: seq<Token>)
    requires low <= high && Below(low, ts)
    ensures Below(high, ts)
  {
  }

  // ---------------------------------------------------------------------------
  // The round trip
  // ---------------------------------------------------------------------------

  /** An operand of a binary operator is read up to the operators around it. */
  lemma {:induction false} BinaryTrip(bare: bool, min: nat, f: Form, rest: seq<Token>)
    requires Fits(bare, Open(bare, rest), min, f) && Closed(bare, rest) && Below(Level(f), rest)
    ensures ParseBinary(bare, min, Text(f, rest)) == BinaryLoop(bare, min, Meaning(f), rest)
    decreases f, 6
  {
    hide ParseBinary, BinaryLoop, ParseUnary, Closed, Below, Precedence, OpPrecedence, Inert, Open, HoldsTypes;
    if f.Infix? {
      InfixTrip(bare, min, f, rest);
    } else {
      UnaryTrip(bare, f, rest);
      BinaryFrom(bare, min, Text(f, rest), Meaning(f), rest);
    }
  }

  lemma {:induction false} InfixTrip(bare: bool, min: nat, f: Form, rest: seq<Token>)
    requires f.Infix? && Fits(bare, Open(bare, rest), min, f) && Closed(bare, rest) && Below(Level(f), rest)
    ensures ParseBinary(bare, min, Text(f, rest)) == BinaryLoop(bare, min, Meaning(f), rest)
    decreases f, 5
  {
    var p := OpPrecedence(f.op);
    assert Fits(bare, false, p, f.lhs) && Fits(bare, Open(bare, rest), p + 1, f.rhs);
    hide ParseBinary, BinaryLoop, ParseUnary, Closed, Below, Precedence, OpPrecedence, Inert, Open, HoldsTypes, Shaped;
    var right := Text(f.rhs, rest);
    OperatorFollows(bare, f.op, right);
    WeakerBelow(p, Level(f.lhs), [OpToken(f.op)] + right);
    BinaryTrip(bare, min, f.lhs, [OpToken(f.op)] + right);
    WeakerBelow(p, Level(f.rhs), rest);
    BinaryTrip(bare, p + 1, f.rhs, rest);
    BinaryStops(bare, p + 1, Meaning(f.rhs), p, rest);
    BinaryStep(bare, min, f.op, Meaning(f.lhs), right, Meaning(f.rhs), rest);
  }

  /** An operand of a prefix operator is read whole. */
  lemma {:induction false} UnaryTrip(bare: bool, f: Form, rest: seq<Token>)
    requires Fits(bare, Open(bare, rest), UnaryLevel, f) && Closed(bare, rest)
    ensures ParseUnary(bare, Text(f, rest)) == Parsed(Meaning(f), rest)
    decreases f, 3
  {
    InertElsewhere(bare, f, rest);
    FirstToken(bare, Open(bare, rest), f, rest);
    hide ParseUnary, ParsePostfix, PostfixLoop, Inert, IsPrefix, Starts, UnaryNode, HoldsTypes, Open, Closed, PrefixMeaning,
      OpPrecedence;
    if f.Prefix? {
      UnaryTrip(bare, f.operand, rest);
      UnaryStep(bare, f.token, Text(f.operand, rest), Meaning(f.operand), rest);
    } else {
      PostfixTrip(bare, f, rest);
      UnaryFrom(bare, Text(f, rest), Meaning(f), rest);
    }
  }

  /** An operand of a postfix construct is read whole, and the loop goes on after it. */
  lemma {:induction false} PostfixTrip(bare: bool, f: Form, rest: seq<Token>)
    requires Fits(bare, Open(bare, rest), PostfixLevel, f) && Inert(bare, f, rest)
    ensures ParsePostfix(bare, Text(f, rest)) == PostfixLoop(bare, Meaning(f), rest)
    decreases f, 2
  {
    assert NoCall(bare, rest);
    hide ParsePostfix, PostfixLoop, ParseExpr, Inert, Open, HoldsTypes, Shaped, Text, Meaning, OpPrecedence, NoCall;
    match f
    case Lit(_) => LitTrip(bare, f, rest);
    case Name(_, _) => NameTrip(bare, f, rest);
    case Paren(_) => ParenTrip(bare, f, rest);
    case CastForm(_, _) => CastTrip(bare, f, rest);
    case Member(_, _) => MemberTrip(bare, f, rest);
    case Bracket(_, _) => BracketTrip(bare, f, rest);
    case Range(_, _, _) => RangeTrip(bare, f, rest);
    case MethodForm(_, _, _, _) => MethodTrip(bare, f, rest);
    case CallForm(_, _, _) => CallTrip(bare, f, rest);
    case StructForm(_, _, _) => StructTrip(bare, f, rest);
    case ListForm(_) => ListTrip(bare, f, rest);
    case TupleExprForm(_) => TupleTrip(bare, f, rest);
    case _ =>
  }

  lemma LitTrip(bare: bool, f: Form, rest: seq<Token>)
    requires f.Lit? && Shaped(bare, Open(bare, rest), f)
    ensures ParsePostfix(bare, Text(f, rest)) == PostfixLoop(bare, Meaning(f), rest)
  {
    hide ParsePostfix, PostfixLoop, ParsePrimary;
    PrimaryAtom(bare, f, rest);
    PostfixFrom(bare, Text(f, rest), Meaning(f), rest);
  }

  lemma NameTrip(bare: bool, f: Form, rest: seq<Token>)
    requires f.Name? && Shaped(bare, Open(bare, rest), f) && Inert(bare, f, rest)
    ensures ParsePostfix(bare, Text(f, rest)) == PostfixLoop(bare, Meaning(f), rest)
  {
    hide ParsePostfix, PostfixLoop, ParsePrimary, SpeculateTypeArgs;
    var ts := TypeArgsText(f.dropped, rest);
    if f.dropped != [] {
      TypeArgsFound({LParen, LBrace}, f.dropped, rest);
    }
    PrimaryName(bare, f.name, ts, rest);
    PostfixFrom(bare, Text(f, rest), Meaning(f), rest);
  }

  lemma {:induction false} ParenTrip(bare: bool, f: Form, rest: seq<Token>)
    requires f.Paren? && Shaped(bare, Open(bare, rest), f)
    ensures ParsePostfix(bare, Text(f, rest)) == PostfixLoop(bare, Meaning(f), rest)
    decreases f, 0
  {
    hide ParsePostfix, PostfixLoop, ParseExpr;
    ExprTrip(bare, RParen, f.inner, rest);
    PrimaryParens(bare, Text(f.inner, [RParen] + rest), Meaning(f.inner), rest);
    PostfixFrom(bare, Text(f, rest), Meaning(f), rest);
  }

  /** An expression inside a larger one. */
  lemma {:induction false} ExprTrip(bare: bool, end: Token, f: Form, rest: seq<Token>)
    requires Shaped(bare, false, f) && Ender(end)
    ensures ParseExpr(bare, Text(f, [end] + rest)) == Parsed(Meaning(f), [end] + rest)
    decreases f, 7
  {
    hide ParseExpr, ParseBinary, BinaryLoop, Shaped, Text, Closed, Below, Inert;
    EnderEnds(bare, end, rest);
    WeakerBelow(0, Level(f), [end] + rest);
    BinaryTrip(bare, 0, f, [end] + rest);
    ExprFrom(bare, Text(f, [end] + rest));
    EnderStops(bare, end, Meaning(f), rest);
  }

  lemma {:induction false} CastTrip(bare: bool, f: Form, rest: seq<Token>)
    requires f.CastForm? && Shaped(bare, Open(bare, rest), f) && Inert(bare, f, rest)
    ensures ParsePostfix(bare, Text(f, rest)) == PostfixLoop(bare, Meaning(f), rest)
    decreases f, 0
  {
    hide ParsePostfix, PostfixLoop, ParseType, ShapedType, TypeText, HoldsTypes, SpeculateTypeArgs;
    var mid := [KwAs] + TypeText(f.target, rest);
    InertElsewhere(bare, f.operand, mid);
    PostfixTrip(bare, f.operand, mid);
    TypeRoundTrip(f.target, rest);
    LoopCast(bare, Meaning(f.operand), TypeText(f.target, rest));
  }

  lemma {:induction false} MemberTrip(bare: bool, f: Form, rest: seq<Token>)
    requires f.Member? && Shaped(bare, Open(bare, rest), f) && Inert(bare, f, rest)
    ensures ParsePostfix(bare, Text(f, rest)) == PostfixLoop(bare, Meaning(f), rest)
    decreases f, 0
  {
    hide ParsePostfix, PostfixLoop, SpeculateTypeArgs, HoldsTypes;
    var mid := [Dot, Ident(f.field)] + rest;
    InertElsewhere(bare, f.base, mid);
    PostfixTrip(bare, f.base, mid);
    LoopField(bare, Meaning(f.base), f.field, rest);
  }

  lemma {:induction false} BracketTrip(bare: bool, f: Form, rest: seq<Token>)
    requires f.Bracket? && Shaped(bare, Open(bare, rest), f) && NoCall(bare, rest)
    ensures ParsePostfix(bare, Text(f, rest)) == PostfixLoop(bare, Meaning(f), rest)
    decreases f, 0
  {
    var content := Text(f.index, [RBracket]);
    FormAppend(f.index, [RBracket], rest);
    IndexBalanced(bare, 0, f.index, rest);
    hide ParsePostfix, PostfixLoop, AfterClose, HoldsTypes;
    assert Fits(bare, false, PostfixLevel, f.base) && Shaped(bare, false, f.base);
    InertBracket(bare, f.base, content, rest);
    hide Inert;
    PostfixTrip(bare, f.base, [LBracket] + (content + rest));
    IndexTrip(bare, f, rest);
  }

  lemma {:induction false} IndexTrip(bare: bool, f: Form, rest: seq<Token>)
    requires f.Bracket? && Shaped(bare, false, f.index)
    ensures PostfixLoop(bare, Meaning(f.base), [LBracket] + Text(f.index, [RBracket] + rest))
         == PostfixLoop(bare, Meaning(f), rest)
    decreases f, 0, 0
  {
    hide PostfixLoop, Text, ParseExpr, Shaped;
    ExprTrip(bare, RBracket, f.index, rest);
    FirstToken(bare, false, f.index, [RBracket] + rest);
    LoopIndex(bare, Meaning(f.base), Text(f.index, [RBracket] + rest), Meaning(f.index), rest);
  }

  lemma {:induction false} RangeTrip(bare: bool, f: Form, rest: seq<Token>)
    requires f.Range? && Shaped(bare, Open(bare, rest), f) && NoCall(bare, rest)
    ensures ParsePostfix(bare, Text(f, rest)) == PostfixLoop(bare, Meaning(f), rest)
    decreases f, 0
  {
    var content := RangeContent(f.lo, f.hi);
    ContentAppend(f.lo, f.hi, rest);
    RangeBalanced(bare, Open(bare, rest), 0, f, rest);
    hide ParsePostfix, PostfixLoop, AfterClose, HoldsTypes, OptionText, RangeContent;
    assert Fits(bare, false, PostfixLevel, f.base) && Shaped(bare, false, f.base);
    InertBracket(bare, f.base, content, rest);
    hide Inert;
    PostfixTrip(bare, f.base, [LBracket] + (content + rest));
    SliceTrip(bare, f, rest);
  }

  lemma ContentAppend(lo: Option<Form>, hi: Option<Form>, rest: seq<Token>)
    ensures OptionText(lo, [Colon] + OptionText(hi, [RBracket] + rest)) == RangeContent(lo, hi) + rest
  {
    hide OptionText;
    OptionAppend(hi, [RBracket], rest);
    Assoc([Colon], OptionText(hi, [RBracket]), rest);
    OptionAppend(lo, [Colon] + OptionText(hi, [RBracket]), rest);
  }

  lemma {:induction false} SliceTrip(bare: bool, f: Form, rest: seq<Token>)
    requires f.Range?
    requires (f.lo.Some? ==> Shaped(bare, false, f.lo.value)) && (f.hi.Some? ==> Shaped(bare, false, f.hi.value))
    ensures var inner := OptionText(f.lo, [Colon] + OptionText(f.hi, [RBracket] + rest));
            PostfixLoop(bare, Meaning(f.base), [LBracket] + inner) == PostfixLoop(bare, Meaning(f), rest)
    decreases f, 0, 0
  {
    hide PostfixLoop, Text, ParseExpr, ParseSliceEnd, Shaped;
    var end := OptionText(f.hi, [RBracket] + rest);
    var inner := OptionText(f.lo, [Colon] + end);
    if f.lo.Some? {
      ExprTrip(bare, Colon, f.lo.value, end);
      FirstToken(bare, false, f.lo.value, [Colon] + end);
    }
    if f.hi.Some? {
      ExprTrip(bare, RBracket, f.hi.value, rest);
      FirstToken(bare, false, f.hi.value, [RBracket] + rest);
    }
    SliceEnd(bare, Meaning(f.base), OptionMeaning(f.lo), end, OptionMeaning(f.hi), rest);
    LoopSlice(bare, Meaning(f.base), inner, OptionMeaning(f.lo), end, OptionMeaning(f.hi), rest);
  }

  lemma {:induction false} MethodTrip(bare: bool, f: Form, rest: seq<Token>)
    requires f.MethodForm? && Shaped(bare, Open(bare, rest), f)
    ensures ParsePostfix(bare, Text(f, rest)) == PostfixLoop(bare, Meaning(f), rest)
    decreases f, 0
  {
    hide ParsePostfix, PostfixLoop, ParseArgs, SpeculateTypeArgs, TypeArgsText, ShapedTypes, HoldsTypes, FormsText, AllShaped;
    var inner := FormsText(f.args, [RParen] + rest);
    var ts := TypeArgsText(f.typeArgs, [LParen] + inner);
    InertElsewhere(bare, f.receiver, [Dot, Ident(f.name)] + ts);
    PostfixTrip(bare, f.receiver, [Dot, Ident(f.name)] + ts);
    TypeArgsFound({LParen}, f.typeArgs, [LParen] + inner);
    ArgsTrip(bare, f.args, rest);
    LoopMethod(bare, Meaning(f.receiver), f.name, ts, TypesOf(f.typeArgs), inner);
  }

  lemma {:induction false} CallTrip(bare: bool, f: Form, rest: seq<Token>)
    requires f.CallForm? && Shaped(bare, Open(bare, rest), f)
    ensures ParsePostfix(bare, Text(f, rest)) == PostfixLoop(bare, Meaning(f), rest)
    decreases f, 0
  {
    hide ParsePostfix, PostfixLoop, ParsePrimary, ParseArgs, SpeculateTypeArgs, TypeArgsText, ShapedTypes, FormsText, AllShaped;
    var inner := FormsText(f.args, [RParen] + rest);
    var ts := TypeArgsText(f.typeArgs, [LParen] + inner);
    TypeArgsFound({LParen, LBrace}, f.typeArgs, [LParen] + inner);
    ArgsTrip(bare, f.args, rest);
    PrimaryCall(bare, f.callee, ts, TypesOf(f.typeArgs), inner);
    PostfixFrom(bare, [Ident(f.callee)] + ts, Meaning(f), rest);
  }

  lemma {:induction false} StructTrip(bare: bool, f: Form, rest: seq<Token>)
    requires f.StructForm? && Shaped(bare, Open(bare, rest), f)
    ensures ParsePostfix(bare, Text(f, rest)) == PostfixLoop(bare, Meaning(f), rest)
    decreases f, 0
  {
    hide ParsePostfix, PostfixLoop, ParsePrimary, ParseFields, SpeculateTypeArgs, TypeArgsText, ShapedTypes, InitsText,
      InitsShaped;
    var inner := InitsText(f.fields, [RBrace] + rest);
    var ts := TypeArgsText(f.typeArgs, [LBrace] + inner);
    TypeArgsFound({LParen, LBrace}, f.typeArgs, [LBrace] + inner);
    InitsTrip(bare, f.fields, rest);
    PrimaryStruct(bare, f.struct, ts, TypesOf(f.typeArgs), inner);
    PostfixFrom(bare, [Ident(f.struct)] + ts, Meaning(f), rest);
  }

  lemma {:induction false} ListTrip(bare: bool, f: Form, rest: seq<Token>)
    requires f.ListForm? && Shaped(bare, Open(bare, rest), f)
    ensures ParsePostfix(bare, Text(f, rest)) == PostfixLoop(bare, Meaning(f), rest)
    decreases f, 0
  {
    hide ParsePostfix, PostfixLoop, ParsePrimary, ParseExprsUntil;
    var inner := FormsText(f.values, [RBracket] + rest);
    if f.values != [] {
      ExprsTrip(bare, RBracket, f.values, rest);
      FirstOfForms(bare, f.values, [RBracket] + rest);
    }
    PrimaryArray(bare, inner, Meanings(f.values), rest);
    PostfixFrom(bare, [LBracket] + inner, Meaning(f), rest);
  }

  lemma {:induction false} TupleTrip(bare: bool, f: Form, rest: seq<Token>)
    requires f.TupleExprForm? && Shaped(bare, Open(bare, rest), f)
    ensures ParsePostfix(bare, Text(f, rest)) == PostfixLoop(bare, Meaning(f), rest)
    decreases f, 0
  {
    hide ParsePostfix, PostfixLoop, ParsePrimary, ParseExprsUntil, ParseExpr;
    var inner := FormsText(f.values, [RParen] + rest);
    var others := FormsText(f.values[1..], [RParen] + rest);
    ExprTrip(bare, Comma, f.values[0], others);
    ExprsTrip(bare, RParen, f.values[1..], rest);
    PrimaryTuple(bare, inner, Meaning(f.values[0]), others);
    assert Meanings(f.values) == [Meaning(f.values[0])] + Meanings(f.values[1..]);
    PostfixFrom(bare, [LParen] + inner, Meaning(f), rest);
  }

  lemma FirstOfForms(bare: bool, fs: seq<Form>, rest: seq<Token>)
    requires fs != [] && AllShaped(bare, fs)
    ensures var t := Peek(FormsText(fs, rest)); Starts(t) || IsPrefix(t)
  {
    hide Text, Starts, IsPrefix, Shaped;
    if |fs| == 1 {
      FirstToken(bare, false, fs[0], rest);
    } else {
      FirstToken(bare, false, fs[0], [Comma] + FormsText(fs[1..], rest));
    }
  }

  lemma {:induction false} ArgsTrip(bare: bool, fs: seq<Form>, rest: seq<Token>)
    requires AllShaped(bare, fs)
    ensures ParseArgs(bare, FormsText(fs, [RParen] + rest)) == Parsed(Meanings(fs), rest)
    decreases fs, 1
  {
    hide Text, ParseExprsUntil, Shaped, Meaning;
    if fs != [] {
      ExprsTrip(bare, RParen, fs, rest);
      FirstOfForms(bare, fs, [RParen] + rest);
    }
  }

  lemma {:induction false} ExprsTrip(bare: bool, close: Token, fs: seq<Form>, rest: seq<Token>)
    requires fs != [] && AllShaped(bare, fs) && (close == RParen || close == RBracket)
    ensures ParseExprsUntil(bare, close, FormsText(fs, [close] + rest)) == Parsed(Meanings(fs), rest)
    decreases fs, 0
  {
    hide Text, ParseExpr, Shaped, Meaning;
    if |fs| == 1 {
      ExprTrip(bare, close, fs[0], rest);
      assert Meanings(fs) == [Meaning(fs[0])];
    } else {
      var others := FormsText(fs[1..], [close] + rest);
      ExprTrip(bare, Comma, fs[0], others);
      ExprsTrip(bare, close, fs[1..], rest);
      assert ([Comma] + others)[1..] == others;
      assert Meanings(fs) == [Meaning(fs[0])] + Meanings(fs[1..]);
    }
  }

  lemma {:induction false} InitsTrip(bare: bool, fields: seq<InitForm>, rest: seq<Token>)
    requires InitsShaped(bare, fields)
    ensures ParseFields(bare, InitsText(fields, [RBrace] + rest)) == Parsed(InitMeanings(fields), rest)
    decreases fields, 1
  {
    hide ParseFieldsUntil, Text, InitShaped, InitMeaning;
    if fields != [] {
      SomeInitsTrip(bare, fields, rest);
    }
  }

  lemma {:induction false} SomeInitsTrip(bare: bool, fields: seq<InitForm>, rest: seq<Token>)
    requires fields != [] && InitsShaped(bare, fields)
    ensures ParseFieldsUntil(bare, InitsText(fields, [RBrace] + rest)) == Parsed(InitMeanings(fields), rest)
    decreases fields, 0
  {
    hide ParseExpr, InitText, InitShaped, Text, Meaning;
    if |fields| == 1 {
      InitStep(bare, fields[0], RBrace, rest);
      assert InitMeanings(fields) == [InitMeaning(fields[0])];
    } else {
      var others := InitsText(fields[1..], [RBrace] + rest);
      InitStep(bare, fields[0], Comma, others);
      SomeInitsTrip(bare, fields[1..], rest);
      assert ([Comma] + others)[1..] == others;
      assert InitMeanings(fields) == [InitMeaning(fields[0])] + InitMeanings(fields[1..]);
    }
  }

  lemma {:induction false} InitStep(bare: bool, field: InitForm, end: Token, rest: seq<Token>)
    requires InitShaped(bare, field) && Ender(end)
    ensures var ts := InitText(field, [end] + rest);
      |ts| >= 2 && ts[0] == Ident(field.name) && ts[1] == Colon &&
      ParseExpr(bare, ts[2..]) == Parsed(Meaning(field.value), [end] + rest)
    decreases field, 0
  {
    hide Text, ParseExpr, Shaped;
    ExprTrip(bare, end, field.value, rest);
    assert InitText(field, [end] + rest)[2..] == Text(field.value, [end] + rest);
  }
}
