/** What is read as an expression is a notation of it. */
module ExprAccepts {
  import opened Ast
  import opened Wrappers
  import opened Tokens
  import opened Parser
  import opened Notations
  import opened TextAppend
  import opened RoundTrip
  import opened ExprRoundTrip

  /** `ts` is a notation of the expression that may stand where `level` is wanted, with `rest` after it. */
  ghost predicate Written(bare: bool, level: nat, f: Form, e: Expr, rest: seq<Token>, ts: seq<Token>) {
    Fits(bare, Open(bare, rest), level, f) && Meaning(f) == e && Text(f, rest) == ts
  }

  /** No operator that binds as tightly as `min` comes next. */
  predicate Stops(min: nat, ts: seq<Token>) {
    Precedence(Peek(ts)).Some? ==> Precedence(Peek(ts)).value < min
  }

  /** The parser does not take the bracket that may come next for type arguments. */
  predicate Settled(f: Form, ts: seq<Token>) {
    (f.Name? && f.dropped == [] ==> SpeculateTypeArgs({LParen, LBrace}, ts).0 == [])
    && (f.CastForm? && EndsInWord(f.target) ==> Peek(ts) != LBracket)
  }

  lemma {:induction false} BinaryAccepted(bare: bool, min: nat, ts: seq<Token>) returns (f: Form)
    requires ParseBinary(bare, min, ts).Parsed? && min <= UnaryLevel
    ensures var r := ParseBinary(bare, min, ts); Written(bare, min, f, r.value, r.rest, ts) && Stops(min, r.rest)
    decreases |ts|, 4
  {
    hide ParseUnary, BinaryLoop, Shaped, Text, Meaning, Open, Stops, Precedence, OpPrecedence;
    var lhs := UnaryAccepted(bare, ts);
    var ts1 := ParseUnary(bare, ts).rest;
    TightEnough(lhs, ts1);
    hide Level;
    f := LoopAccepted(bare, min, lhs, ts1);
  }

  lemma TightEnough(f: Form, ts: seq<Token>)
    requires UnaryLevel <= Level(f)
    ensures Below(Level(f), ts)
  {
  }

  lemma {:induction false} LoopAccepted(bare: bool, min: nat, lhs: Form, ts: seq<Token>) returns (f: Form)
    requires BinaryLoop(bare, min, Meaning(lhs), ts).Parsed?
    requires Fits(bare, Open(bare, ts), min, lhs) && Below(Level(lhs), ts)
    ensures var r := BinaryLoop(bare, min, Meaning(lhs), ts);
      Written(bare, min, f, r.value, r.rest, Text(lhs, ts)) && Stops(min, r.rest)
    decreases |ts|, 0
  {
    hide ParseBinary, Fits, Text, Precedence, OpPrecedence, Level, OpToken, BinOpFrom;
    var p := Precedence(Peek(ts));
    if p.None? || p.value < min {
      f := lhs;
    } else {
      TokenOperator(Peek(ts));
      var op := BinOpFrom(ts[0]);
      var right := ParseBinary(bare, p.value + 1, ts[1..]);
      var rhs := BinaryAccepted(bare, p.value + 1, ts[1..]);
      assert ts == [OpToken(op)] + ts[1..];
      OperatorFollows(bare, op, ts[1..]);
      InfixFits(bare, min, op, lhs, rhs, right.rest, ts[1..]);
      hide Meaning;
      f := LoopAccepted(bare, min, Infix(op, lhs, rhs), right.rest);
    }
  }

  lemma TokenOperator(token: Token)
    requires Precedence(token).Some?
    ensures token != Eof && OpToken(BinOpFrom(token)) == token && OpPrecedence(BinOpFrom(token)) == Precedence(token).value
  {
  }

  lemma InfixFits(bare: bool, min: nat, op: BinOp, lhs: Form, rhs: Form, rest: seq<Token>, ts: seq<Token>)
    requires min <= OpPrecedence(op) && Fits(bare, false, min, lhs) && Below(Level(lhs), [OpToken(op)] + ts)
    requires Fits(bare, Open(bare, rest), OpPrecedence(op) + 1, rhs) && Text(rhs, rest) == ts
    requires Stops(OpPrecedence(op) + 1, rest)
    ensures var f := Infix(op, lhs, rhs);
      Fits(bare, Open(bare, rest), min, f) && Below(Level(f), rest)
      && Text(f, rest) == Text(lhs, [OpToken(op)] + ts) && Meaning(f) == Binary(op, Meaning(lhs), Meaning(rhs))
    ensures !Open(bare, [OpToken(op)] + ts)
  {
    OperatorReads(op);
    OperatorFollows(bare, op, ts);
    var f := Infix(op, lhs, rhs);
    assert Fits(bare, false, OpPrecedence(op), lhs);
  }

  lemma {:induction false} UnaryAccepted(bare: bool, ts: seq<Token>) returns (f: Form)
    requires ParseUnary(bare, ts).Parsed?
    ensures var r := ParseUnary(bare, ts); Written(bare, UnaryLevel, f, r.value, r.rest, ts)
    decreases |ts|, 3
  {
    hide ParsePostfix, Shaped, Text, Meaning, Open, PrefixMeaning, UnaryNode;
    if IsPrefix(Peek(ts)) {
      var operand := UnaryAccepted(bare, ts[1..]);
      PrefixReads(ts[0], Meaning(operand));
      f := Prefix(ts[0], operand);
      assert ts == [ts[0]] + ts[1..];
      PrefixFits(bare, Open(bare, ParseUnary(bare, ts).rest), f, ParseUnary(bare, ts).rest);
    } else {
      f := PostfixAccepted(bare, ts);
    }
  }

  lemma PrefixFits(bare: bool, open: bool, f: Form, rest: seq<Token>)
    requires f.Prefix? && f.token in PREFIXES && Fits(bare, open, UnaryLevel, f.operand)
    ensures Fits(bare, open, UnaryLevel, f) && Meaning(f) == PrefixMeaning(f.token, Meaning(f.operand))
    ensures Text(f, rest) == [f.token] + Text(f.operand, rest)
  {
  }

  lemma {:induction false} PostfixAccepted(bare: bool, ts: seq<Token>) returns (f: Form)
    requires ParsePostfix(bare, ts).Parsed?
    ensures var r := ParsePostfix(bare, ts); Written(bare, PostfixLevel, f, r.value, r.rest, ts)
    decreases |ts|, 2
  {
    hide ParsePrimary, PostfixLoop, Fits, Text, Meaning, Open, Settled;
    var base := PrimaryAccepted(bare, ts);
    f := PostfixLoopAccepted(bare, base, ParsePrimary(bare, ts).rest);
  }

  /** Postfix constructs around what was read before. */
  lemma {:induction false} PostfixLoopAccepted(bare: bool, base: Form, ts: seq<Token>) returns (f: Form)
    requires PostfixLoop(bare, Meaning(base), ts).Parsed?
    requires Fits(bare, Open(bare, ts), PostfixLevel, base) && Settled(base, ts)
    ensures var r := PostfixLoop(bare, Meaning(base), ts); Written(bare, PostfixLevel, f, r.value, r.rest, Text(base, ts))
    decreases |ts|, 1
  {
    hide ParseMember, ParseBracket, ParseType, Fits, Text, Meaning, Settled;
    assert ts != [] ==> ts == [ts[0]] + ts[1..];
    if Peek(ts) == Dot {
      var next := MemberAccepted(bare, base, ts[1..]);
      f := PostfixLoopAccepted(bare, next, ParseMember(bare, Meaning(base), ts[1..]).rest);
    } else if Peek(ts) == LBracket {
      var next := BracketAccepted(bare, base, ts[1..]);
      f := PostfixLoopAccepted(bare, next, ParseBracket(bare, Meaning(base), ts[1..]).rest);
    } else if Peek(ts) == KwAs {
      var target := TypeAccepted(ts[1..]);
      CastFits(bare, base, target, ParseType(ts[1..]).rest);
      f := PostfixLoopAccepted(bare, CastForm(base, target), ParseType(ts[1..]).rest);
    } else {
      f := base;
    }
  }

  lemma CastFits(bare: bool, base: Form, target: TypeForm, rest: seq<Token>)
    requires Fits(bare, false, PostfixLevel, base) && ShapedType(target)
    requires EndsInWord(target) ==> Peek(rest) != LBracket
    ensures var f := CastForm(base, target);
      Fits(bare, Open(bare, rest), PostfixLevel, f) && Settled(f, rest) && Meaning(f) == Cast(Meaning(base), TypeOf(target))
      && Text(f, rest) == Text(base, [KwAs] + TypeText(target, rest))
  {
    hide ShapedType, TypeText, TypeOf;
  }

  /** Type arguments that were guessed, or none. */
  lemma GuessAccepted(follow: set<Token>, ts: seq<Token>) returns (types: seq<TypeForm>)
    ensures var (args, rest) := SpeculateTypeArgs(follow, ts);
      ShapedTypes(types) && TypesOf(types) == args && TypeArgsText(types, rest) == ts
      && (types != [] ==> Peek(rest) in follow)
  {
    hide ParseTypesUntil, ShapedTypes, TypesOf, TypesText;
    var (args, rest) := SpeculateTypeArgs(follow, ts);
    if args == [] {
      types := [];
      NoTypes();
    } else {
      types := TypesAccepted(RBracket, ts[1..]);
      assert ts == [LBracket] + ts[1..];
    }
  }

  lemma NoTypes()
    ensures ShapedTypes([]) && TypesOf([]) == []
  {
  }

  lemma {:induction false} MemberAccepted(bare: bool, base: Form, ts: seq<Token>) returns (f: Form)
    requires ParseMember(bare, Meaning(base), ts).Parsed? && Fits(bare, false, PostfixLevel, base)
    ensures var r := ParseMember(bare, Meaning(base), ts);
      Written(bare, PostfixLevel, f, r.value, r.rest, Text(base, [Dot] + ts)) && Settled(f, r.rest)
    decreases |ts|, 0
  {
    hide ParseArgs, SpeculateTypeArgs, Fits, Text, Meaning, TypeArgsText, ShapedTypes, TypesOf;
    var name, ts1 := ts[0].name, ts[1..];
    var types := GuessAccepted({LParen}, ts1);
    var ts2 := SpeculateTypeArgs({LParen}, ts1).1;
    assert [Dot] + ts == [Dot, Ident(name)] + ts1;
    if Peek(ts2) == LParen {
      var args := ArgsAccepted(bare, ts2[1..]);
      assert ts2 == [LParen] + ts2[1..];
      f := MethodForm(base, name, types, args);
      MethodFits(bare, f, ParseArgs(bare, ts2[1..]).rest);
    } else {
      f := Member(base, name);
      assert types == [] && ts2 == ts1 by { NoTypeArgs(types, ts2); }
      MemberFits(bare, f, ts1);
    }
  }

  lemma NoTypeArgs(types: seq<TypeForm>, rest: seq<Token>)
    ensures types == [] ==> TypeArgsText(types, rest) == rest
  {
  }

  lemma MemberFits(bare: bool, f: Form, rest: seq<Token>)
    requires f.Member? && Fits(bare, false, PostfixLevel, f.base)
    ensures Fits(bare, Open(bare, rest), PostfixLevel, f) && Settled(f, rest)
    ensures Meaning(f) == Field(Meaning(f.base), f.field) && Text(f, rest) == Text(f.base, [Dot, Ident(f.field)] + rest)
  {
  }

  lemma MethodFits(bare: bool, f: Form, rest: seq<Token>)
    requires f.MethodForm? && Fits(bare, false, PostfixLevel, f.receiver) && ShapedTypes(f.typeArgs) && AllShaped(bare, f.args)
    ensures Fits(bare, Open(bare, rest), PostfixLevel, f) && Settled(f, rest)
    ensures Meaning(f) == MethodCall(Meaning(f.receiver), f.name, TypesOf(f.typeArgs), Meanings(f.args))
    ensures Text(f, rest)
         == Text(f.receiver, [Dot, Ident(f.name)] + TypeArgsText(f.typeArgs, [LParen] + FormsText(f.args, [RParen] + rest)))
  {
    hide ShapedTypes, AllShaped, TypesOf, Meanings;
  }

  /** An expression inside a larger one: no body follows. */
  lemma {:induction false} SubexprAccepted(bare: bool, ts: seq<Token>) returns (f: Form)
    requires ParseExpr(bare, ts).Parsed?
    ensures var r := ParseExpr(bare, ts); Written(bare, 0, f, r.value, r.rest, ts)
    decreases |ts|, 5
  {
    hide ParseBinary, Written;
    f := BinaryAccepted(bare, 0, ts);
  }

  lemma {:induction false} BracketAccepted(bare: bool, base: Form, ts: seq<Token>) returns (f: Form)
    requires ParseBracket(bare, Meaning(base), ts).Parsed? && Fits(bare, false, PostfixLevel, base)
    requires Settled(base, [LBracket] + ts)
    ensures var r := ParseBracket(bare, Meaning(base), ts);
      Written(bare, PostfixLevel, f, r.value, r.rest, Text(base, [LBracket] + ts)) && Settled(f, r.rest)
    decreases |ts|, 6
  {
    hide ParseExpr, ParseSliceEnd, Shaped, Text, Meaning, Settled;
    assert ts != [] ==> ts == [ts[0]] + ts[1..];
    if Peek(ts) == Colon {
      f := SliceAccepted(bare, base, None, ts[1..], ts);
    } else {
      var first, ts1 := ParseExpr(bare, ts).value, ParseExpr(bare, ts).rest;
      var index := SubexprAccepted(bare, ts);
      assert ts1 == [ts1[0]] + ts1[1..];
      if Peek(ts1) == Colon {
        f := SliceAccepted(bare, base, Some(index), ts1[1..], ts);
      } else {
        f := Bracket(base, index);
        BracketFits(bare, f, ts1[1..]);
      }
    }
  }

  lemma BracketFits(bare: bool, f: Form, rest: seq<Token>)
    requires f.Bracket? && Fits(bare, false, PostfixLevel, f.base) && Shaped(bare, false, f.index)
    requires Settled(f.base, [LBracket] + Text(f.index, [RBracket] + rest))
    ensures Fits(bare, Open(bare, rest), PostfixLevel, f) && Settled(f, rest)
    ensures Meaning(f) == Index(Meaning(f.base), Meaning(f.index))
    ensures Text(f, rest) == Text(f.base, [LBracket] + Text(f.index, [RBracket] + rest))
  {
    var content := Text(f.index, [RBracket]);
    FormAppend(f.index, [RBracket], rest);
    IndexBalanced(bare, 0, f.index, rest);
    hide AfterClose, HoldsTypes;
    NoTypesHeld(bare, f.base, content, rest);
    hide SpeculateTypeArgs;
  }

  /** A bracket that the parser read as one held no type arguments. */
  lemma NoTypesHeld(bare: bool, base: Form, content: seq<Token>, rest: seq<Token>)
    requires AfterClose(0, content + rest) == Some(rest) && Settled(base, [LBracket] + (content + rest))
    requires Shaped(bare, false, base)
    ensures !(Open(bare, rest) && base.Name? && HoldsTypes(content)) && TakesBracket(base)
  {
    hide AfterClose, HoldsTypes, ParseTypesUntil;
    GuessEndsAtBracket(content, rest);
    assert ([LBracket] + (content + rest))[1..] == content + rest;
  }

  /** A slice whose lower bound has been read. */
  lemma {:induction false} SliceAccepted(bare: bool, base: Form, lo: Option<Form>, ts: seq<Token>, all: seq<Token>)
      returns (f: Form)
    requires ParseSliceEnd(bare, Meaning(base), OptionMeaning(lo), ts).Parsed? && Fits(bare, false, PostfixLevel, base)
    requires (lo.Some? ==> Shaped(bare, false, lo.value)) && OptionText(lo, [Colon] + ts) == all
    requires Settled(base, [LBracket] + all)
    ensures var r := ParseSliceEnd(bare, Meaning(base), OptionMeaning(lo), ts);
      Written(bare, PostfixLevel, f, r.value, r.rest, Text(base, [LBracket] + all)) && Settled(f, r.rest)
    decreases |ts|, 6
  {
    hide ParseExpr, Shaped, Text, Meaning, Settled;
    assert ts != [] ==> ts == [ts[0]] + ts[1..];
    if Peek(ts) == RBracket {
      f := Range(base, lo, None);
      RangeFits(bare, f, ts[1..]);
    } else {
      var ts1 := ParseExpr(bare, ts).rest;
      var hi := SubexprAccepted(bare, ts);
      assert ts1 == [ts1[0]] + ts1[1..];
      f := Range(base, lo, Some(hi));
      RangeFits(bare, f, ts1[1..]);
    }
  }

  lemma RangeFits(bare: bool, f: Form, rest: seq<Token>)
    requires f.Range? && Fits(bare, false, PostfixLevel, f.base)
    requires (f.lo.Some? ==> Shaped(bare, false, f.lo.value)) && (f.hi.Some? ==> Shaped(bare, false, f.hi.value))
    requires Settled(f.base, [LBracket] + OptionText(f.lo, [Colon] + OptionText(f.hi, [RBracket] + rest)))
    ensures Fits(bare, Open(bare, rest), PostfixLevel, f) && Settled(f, rest)
    ensures Meaning(f) == Slice(Meaning(f.base), OptionMeaning(f.lo), OptionMeaning(f.hi))
    ensures Text(f, rest) == Text(f.base, [LBracket] + OptionText(f.lo, [Colon] + OptionText(f.hi, [RBracket] + rest)))
  {
    var content := RangeContent(f.lo, f.hi);
    ContentAppend(f.lo, f.hi, rest);
    RangeParts(bare, f, rest);
    hide AfterClose, HoldsTypes, OptionText, RangeContent;
    NoTypesHeld(bare, f.base, content, rest);
    hide SpeculateTypeArgs, OptionMeaning;
  }

  lemma RangeParts(bare: bool, f: Form, rest: seq<Token>)
    requires f.Range?
    requires (f.lo.Some? ==> Shaped(bare, false, f.lo.value)) && (f.hi.Some? ==> Shaped(bare, false, f.hi.value))
    ensures AfterClose(0, OptionText(f.lo, [Colon] + OptionText(f.hi, [RBracket] + rest))) == Some(rest)
  {
    hide AfterClose, Shaped;
    var end := OptionText(f.hi, [RBracket] + rest);
    OptionBalanced(bare, 0, f.lo, [Colon] + end);
    Skip(0, Colon, end);
    OptionBalanced(bare, 0, f.hi, [RBracket] + rest);
    Leave(0, rest);
  }

  lemma {:induction false} ArgsAccepted(bare: bool, ts: seq<Token>) returns (fs: seq<Form>)
    requires ParseArgs(bare, ts).Parsed?
    ensures var r := ParseArgs(bare, ts);
      AllShaped(bare, fs) && Meanings(fs) == r.value && FormsText(fs, [RParen] + r.rest) == ts
    decreases |ts|, 7
  {
    hide ParseExprsUntil;
    if Peek(ts) == RParen {
      fs := [];
      assert ts == [RParen] + ts[1..];
    } else {
      fs := ExprsAccepted(bare, RParen, ts);
    }
  }

  /** A list of expressions, longer by one. */
  lemma FormsCons(bare: bool, first: Form, others: seq<Form>, rest: seq<Token>)
    requires Shaped(bare, false, first) && AllShaped(bare, others)
    ensures AllShaped(bare, [first] + others) && Meanings([first] + others) == [Meaning(first)] + Meanings(others)
    ensures FormsText([first] + others, rest)
         == Text(first, if others == [] then rest else [Comma] + FormsText(others, rest))
  {
    hide Shaped, Meaning, Text;
    assert ([first] + others)[1..] == others;
  }

  lemma {:induction false} ExprsAccepted(bare: bool, close: Token, ts: seq<Token>) returns (fs: seq<Form>)
    requires close in {RParen, RBracket} && ParseExprsUntil(bare, close, ts).Parsed?
    ensures var r := ParseExprsUntil(bare, close, ts);
      fs != [] && AllShaped(bare, fs) && Meanings(fs) == r.value && FormsText(fs, [close] + r.rest) == ts
    decreases |ts|, 6
  {
    hide ParseExpr, Shaped, Text, Meaning;
    var first := SubexprAccepted(bare, ts);
    var ts1 := ParseExpr(bare, ts).rest;
    assert ts1 == [ts1[0]] + ts1[1..];
    var others, rest := [], ts1[1..];
    if Peek(ts1) == Comma {
      others := ExprsAccepted(bare, close, ts1[1..]);
      rest := ParseExprsUntil(bare, close, ts1[1..]).rest;
    } else {
      NoForms(bare);
    }
    hide FormsText, Meanings, AllShaped;
    FormsCons(bare, first, others, [close] + rest);
    fs := [first] + others;
  }

  lemma NoForms(bare: bool)
    ensures AllShaped(bare, []) && Meanings([]) == []
  {
  }

  lemma FieldsCons(bare: bool, first: InitForm, others: seq<InitForm>, rest: seq<Token>)
    requires InitShaped(bare, first) && InitsShaped(bare, others)
    ensures InitsShaped(bare, [first] + others)
    ensures InitMeanings([first] + others) == [InitMeaning(first)] + InitMeanings(others)
    ensures InitsText([first] + others, rest)
         == InitText(first, if others == [] then rest else [Comma] + InitsText(others, rest))
  {
    hide InitShaped, InitMeaning, InitText;
    assert ([first] + others)[1..] == others;
  }

  lemma {:induction false} FieldsAccepted(bare: bool, ts: seq<Token>) returns (fields: seq<InitForm>)
    requires ParseFieldsUntil(bare, ts).Parsed?
    ensures var r := ParseFieldsUntil(bare, ts);
      fields != [] && InitsShaped(bare, fields) && InitMeanings(fields) == r.value
      && InitsText(fields, [RBrace] + r.rest) == ts
    decreases |ts|, 6
  {
    hide ParseExpr, Shaped, Text, Meaning;
    var value := ts[1..][1..];
    var f := SubexprAccepted(bare, value);
    var first := InitForm(ts[0].name, f);
    var ts3 := ParseExpr(bare, value).rest;
    assert ts3 == [ts3[0]] + ts3[1..];
    assert ts == [Ident(ts[0].name), Colon] + value;
    var others, rest := [], ts3[1..];
    if Peek(ts3) == Comma {
      others := FieldsAccepted(bare, ts3[1..]);
      rest := ParseFieldsUntil(bare, ts3[1..]).rest;
    } else {
      NoFields(bare);
    }
    hide InitsText, InitMeanings, InitsShaped;
    FieldsCons(bare, first, others, [RBrace] + rest);
    fields := [first] + others;
  }

  lemma NoFields(bare: bool)
    ensures InitsShaped(bare, []) && InitMeanings([]) == []
  {
  }

  lemma {:induction false} PrimaryAccepted(bare: bool, ts: seq<Token>) returns (f: Form)
    requires ParsePrimary(bare, ts).Parsed?
    ensures var r := ParsePrimary(bare, ts); Written(bare, PostfixLevel, f, r.value, r.rest, ts) && Settled(f, r.rest)
    decreases |ts|, 1
  {
    hide ParseName, ParseParens, ParseArrayLit, Written, Settled;
    assert ts == [ts[0]] + ts[1..];
    if Peek(ts).Ident? {
      f := NameAccepted(bare, ts[0].name, ts[1..]);
    } else if Peek(ts) == LParen {
      f := ParensAccepted(bare, ts[1..]);
    } else if Peek(ts) == LBracket {
      f := ListAccepted(bare, ts[1..]);
    } else {
      f := Lit(ts[0]);
      LitFits(bare, ts[0], ts[1..]);
    }
  }

  lemma LitFits(bare: bool, token: Token, rest: seq<Token>)
    requires token.IntTok? || token.FloatTok? || token.StrTok? || token.KwTrue? || token.KwFalse?
    ensures Written(bare, PostfixLevel, Lit(token), LitMeaning(token), rest, [token] + rest)
    ensures Settled(Lit(token), rest)
    ensures ParsePrimary(bare, [token] + rest) == Parsed(LitMeaning(token), rest)
  {
    assert ([token] + rest)[1..] == rest;
  }

  lemma {:induction false} ParensAccepted(bare: bool, ts: seq<Token>) returns (f: Form)
    requires ParseParens(bare, ts).Parsed?
    ensures var r := ParseParens(bare, ts);
      Written(bare, PostfixLevel, f, r.value, r.rest, [LParen] + ts) && Settled(f, r.rest)
    decreases |ts|, 7
  {
    hide ParseExpr, ParseExprsUntil, Shaped, Text, Meaning;
    var first := SubexprAccepted(bare, ts);
    var ts1 := ParseExpr(bare, ts).rest;
    assert ts1 == [ts1[0]] + ts1[1..];
    if Peek(ts1) == Comma {
      var others := ExprsAccepted(bare, RParen, ts1[1..]);
      var rest := ParseExprsUntil(bare, RParen, ts1[1..]).rest;
      FormsCons(bare, first, others, [RParen] + rest);
      f := TupleExprForm([first] + others);
      TupleFits(bare, f, rest);
    } else {
      f := Paren(first);
      ParenFits(bare, first, ts1[1..]);
    }
  }

  lemma ParenFits(bare: bool, f: Form, rest: seq<Token>)
    requires Shaped(bare, false, f)
    ensures Written(bare, PostfixLevel, Paren(f), Meaning(f), rest, [LParen] + Text(f, [RParen] + rest))
    ensures Settled(Paren(f), rest)
  {
  }

  lemma TupleFits(bare: bool, f: Form, rest: seq<Token>)
    requires f.TupleExprForm? && |f.values| >= 2 && AllShaped(bare, f.values)
    ensures Written(bare, PostfixLevel, f, TupleLit(Meanings(f.values)), rest, [LParen] + FormsText(f.values, [RParen] + rest))
    ensures Settled(f, rest)
  {
  }

  lemma {:induction false} ListAccepted(bare: bool, ts: seq<Token>) returns (f: Form)
    requires ParseArrayLit(bare, ts).Parsed?
    ensures var r := ParseArrayLit(bare, ts);
      Written(bare, PostfixLevel, f, r.value, r.rest, [LBracket] + ts) && Settled(f, r.rest)
    decreases |ts|, 7
  {
    hide ParseExprsUntil;
    var values := [];
    if Peek(ts) == RBracket {
      assert ts == [RBracket] + ts[1..];
    } else {
      values := ExprsAccepted(bare, RBracket, ts);
    }
    f := ListForm(values);
    ListFits(bare, f, ParseArrayLit(bare, ts).rest);
  }

  lemma ListFits(bare: bool, f: Form, rest: seq<Token>)
    requires f.ListForm? && AllShaped(bare, f.values)
    ensures Written(bare, PostfixLevel, f, ArrayLit(Meanings(f.values)), rest, [LBracket] + FormsText(f.values, [RBracket] + rest))
    ensures Settled(f, rest)
  {
  }

  lemma {:induction false} NameAccepted(bare: bool, name: string, ts: seq<Token>) returns (f: Form)
    requires ParseName(bare, name, ts).Parsed?
    ensures var r := ParseName(bare, name, ts);
      Written(bare, PostfixLevel, f, r.value, r.rest, [Ident(name)] + ts) && Settled(f, r.rest)
    decreases |ts|, 2
  {
    hide ParseArgs, ParseFields, SpeculateTypeArgs, ShapedTypes, TypesOf, TypeArgsText, AllShaped, Meanings, FormsText,
      InitsShaped, InitMeanings, InitsText;
    var follow := {LParen, LBrace};
    var types := GuessAccepted(follow, ts);
    var (typeArgs, ts1) := SpeculateTypeArgs(follow, ts);
    assert ts1 != [] ==> ts1 == [ts1[0]] + ts1[1..];
    if Peek(ts1) == LParen {
      var args := ArgsAccepted(bare, ts1[1..]);
      f := CallForm(name, types, args);
      CallFits(bare, f, ParseArgs(bare, ts1[1..]).rest);
    } else if !bare && Peek(ts1) == LBrace {
      var fields := InitsAccepted(bare, ts1[1..]);
      f := StructForm(name, types, fields);
      StructFits(bare, f, ParseFields(bare, ts1[1..]).rest);
    } else {
      f := Name(name, types);
      NameFits(bare, f, ts1);
      NoTypeArgs(types, ts1);
    }
  }

  lemma CallFits(bare: bool, f: Form, rest: seq<Token>)
    requires f.CallForm? && ShapedTypes(f.typeArgs) && AllShaped(bare, f.args)
    ensures Settled(f, rest)
    ensures Written(bare, PostfixLevel, f, Call(f.callee, TypesOf(f.typeArgs), Meanings(f.args)), rest,
                    [Ident(f.callee)] + TypeArgsText(f.typeArgs, [LParen] + FormsText(f.args, [RParen] + rest)))
  {
  }

  lemma StructFits(bare: bool, f: Form, rest: seq<Token>)
    requires f.StructForm? && !bare && ShapedTypes(f.typeArgs) && InitsShaped(bare, f.fields)
    ensures Settled(f, rest)
    ensures Written(bare, PostfixLevel, f, StructInit(f.struct, TypesOf(f.typeArgs), InitMeanings(f.fields)), rest,
                    [Ident(f.struct)] + TypeArgsText(f.typeArgs, [LBrace] + InitsText(f.fields, [RBrace] + rest)))
  {
  }

  lemma NameFits(bare: bool, f: Form, rest: seq<Token>)
    requires f.Name? && ShapedTypes(f.dropped) && (f.dropped == [] || Open(bare, rest))
    ensures Written(bare, PostfixLevel, f, Var(f.name), rest, [Ident(f.name)] + TypeArgsText(f.dropped, rest))
  {
  }

  lemma {:induction false} InitsAccepted(bare: bool, ts: seq<Token>) returns (fields: seq<InitForm>)
    requires ParseFields(bare, ts).Parsed?
    ensures var r := ParseFields(bare, ts);
      InitsShaped(bare, fields) && InitMeanings(fields) == r.value && InitsText(fields, [RBrace] + r.rest) == ts
    decreases |ts|, 7
  {
    hide ParseFieldsUntil;
    if Peek(ts) == RBrace {
      fields := [];
      assert ts == [RBrace] + ts[1..];
    } else {
      fields := FieldsAccepted(bare, ts);
    }
  }
}
