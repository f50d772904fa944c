/** The parser as it runs: a cursor over the tokens, loops instead of recursion over lists, and a
    saved position to go back to when a guess at type arguments was wrong. Every method is proved
    to leave the tree and the position that the functions of Parser.dfy describe; after a failure
    the run is over and nothing is said of the position. */
module ParserClass {
  import opened Ast
  import opened Wrappers
  import opened Tokens
  import opened Parser

  /** A method's result and the tokens it left against the parse specified for it. */
  ghost predicate Matches<T>(p: Parse<T>, o: Option<T>, rest: seq<Token>) {
    match p
    case Parsed(value, end) => o == Some(value) && rest == end
    case Failed => o == None
  }

  /** A list already read, in front of what is still to be read. */
  ghost function Prefixed<T>(front: seq<T>, p: Parse<seq<T>>): Parse<seq<T>> {
    match p
    case Failed => Failed
    case Parsed(value, rest) => Parsed(front + value, rest)
  }

  lemma PrefixedTwice<T>(front: seq<T>, x: T, p: Parse<seq<T>>)
    ensures Prefixed(front, Prefixed([x], p)) == Prefixed(front + [x], p)
  {
    if p.Parsed? {
      assert front + ([x] + p.value) == (front + [x]) + p.value;
    }
  }

  lemma PrefixedParsed<T>(front: seq<T>, value: seq<T>, rest: seq<Token>)
    ensures Prefixed(front, Parsed(value, rest)) == Parsed(front + value, rest)
  {
  }

  lemma PrefixedFailed<T>(front: seq<T>)
    ensures Prefixed(front, Failed) == Failed
  {
  }

  lemma PrefixedNothing<T>(p: Parse<seq<T>>)
    ensures Prefixed([], p) == p
  {
    if p.Parsed? {
      assert [] + p.value == p.value;
    }
  }

  lemma UnfoldTypes(close: Token, ts: seq<Token>)
    requires close != Eof
    ensures
      var whole := ParseTypesUntil(close, ts); var first := ParseType(ts);
      if first.Parsed? && Peek(first.rest) == Comma then
        whole == Prefixed([first.value], ParseTypesUntil(close, first.rest[1..]))
      else if first.Parsed? && Peek(first.rest) == close then whole == Parsed([first.value], first.rest[1..])
      else whole == Failed
  {
    hide ParseType;
  }

  /** One round of the loop over a list of types. */
  lemma TypesRound(close: Token, front: seq<Type>, ts: seq<Token>)
    requires close != Eof
    ensures
      var whole := Prefixed(front, ParseTypesUntil(close, ts)); var first := ParseType(ts);
      if first.Parsed? && Peek(first.rest) == Comma then
        whole == Prefixed(front + [first.value], ParseTypesUntil(close, first.rest[1..]))
      else if first.Parsed? && Peek(first.rest) == close then
        whole == Parsed(front + [first.value], first.rest[1..])
      else whole == Failed
  {
    hide ParseType, Prefixed;
    UnfoldTypes(close, ts);
    var first := ParseType(ts);
    if first.Parsed? && Peek(first.rest) == Comma {
      PrefixedTwice(front, first.value, ParseTypesUntil(close, first.rest[1..]));
    } else if first.Parsed? {
      PrefixedParsed(front, [first.value], Advance(first.rest));
    }
    PrefixedFailed(front);
  }

  lemma UnfoldExprs(bare: bool, close: Token, ts: seq<Token>)
    requires close != Eof
    ensures
      var whole := ParseExprsUntil(bare, close, ts); var first := ParseExpr(bare, ts);
      if first.Parsed? && Peek(first.rest) == Comma then
        whole == Prefixed([first.value], ParseExprsUntil(bare, close, first.rest[1..]))
      else if first.Parsed? && Peek(first.rest) == close then whole == Parsed([first.value], first.rest[1..])
      else whole == Failed
  {
    hide ParseExpr;
  }

  /** One round of the loop over a list of expressions. */
  lemma ExprsRound(bare: bool, close: Token, front: seq<Expr>, ts: seq<Token>)
    requires close != Eof
    ensures
      var whole := Prefixed(front, ParseExprsUntil(bare, close, ts)); var first := ParseExpr(bare, ts);
      if first.Parsed? && Peek(first.rest) == Comma then
        whole == Prefixed(front + [first.value], ParseExprsUntil(bare, close, first.rest[1..]))
      else if first.Parsed? && Peek(first.rest) == close then
        whole == Parsed(front + [first.value], first.rest[1..])
      else whole == Failed
  {
    hide ParseExpr, Prefixed;
    UnfoldExprs(bare, close, ts);
    var first := ParseExpr(bare, ts);
    if first.Parsed? && Peek(first.rest) == Comma {
      PrefixedTwice(front, first.value, ParseExprsUntil(bare, close, first.rest[1..]));
    } else if first.Parsed? {
      PrefixedParsed(front, [first.value], Advance(first.rest));
    }
    PrefixedFailed(front);
  }

  /** One round of the loop over field initialisers. */
  lemma FieldsRound(bare: bool, front: seq<FieldInit>, ts: seq<Token>)
    ensures
      var whole := Prefixed(front, ParseFieldsUntil(bare, ts));
      if !Peek(ts).Ident? || Peek(ts[1..]) != Colon then whole == Failed
      else
        var value := ParseExpr(bare, ts[1..][1..]);
        if value.Parsed? && Peek(value.rest) == Comma then
          whole == Prefixed(front + [FieldInit(ts[0].name, value.value)], ParseFieldsUntil(bare, value.rest[1..]))
        else if value.Parsed? && Peek(value.rest) == RBrace then
          whole == Parsed(front + [FieldInit(ts[0].name, value.value)], value.rest[1..])
        else whole == Failed
  {
    hide ParseExpr, Prefixed;
    UnfoldFields(bare, ts);
    if Peek(ts).Ident? && Peek(ts[1..]) == Colon {
      var value := ParseExpr(bare, ts[1..][1..]);
      if value.Parsed? && Peek(value.rest) == Comma {
        PrefixedTwice(front, FieldInit(ts[0].name, value.value), ParseFieldsUntil(bare, value.rest[1..]));
      } else if value.Parsed? {
        PrefixedParsed(front, [FieldInit(ts[0].name, value.value)], Advance(value.rest));
      }
    }
    PrefixedFailed(front);
  }

  lemma UnfoldFields(bare: bool, ts: seq<Token>)
    ensures
      var whole := ParseFieldsUntil(bare, ts);
      if !Peek(ts).Ident? || Peek(ts[1..]) != Colon then whole == Failed
      else
        var value := ParseExpr(bare, ts[1..][1..]);
        if value.Parsed? && Peek(value.rest) == Comma then
          whole == Prefixed([FieldInit(ts[0].name, value.value)], ParseFieldsUntil(bare, value.rest[1..]))
        else if value.Parsed? && Peek(value.rest) == RBrace then
          whole == Parsed([FieldInit(ts[0].name, value.value)], value.rest[1..])
        else whole == Failed
  {
    hide ParseExpr;
  }

  /** One round of the loop over binary operators. */
  lemma BinaryRound(bare: bool, min: nat, lhs: Expr, ts: seq<Token>)
    ensures
      var whole := BinaryLoop(bare, min, lhs, ts); var p := Precedence(Peek(ts));
      if p.None? || p.value < min then whole == Parsed(lhs, ts)
      else
        ts != [] &&
        var rhs := ParseBinary(bare, p.value + 1, ts[1..]);
        if rhs.Failed? then whole == Failed
        else whole == BinaryLoop(bare, min, Binary(BinOpFrom(ts[0]), lhs, rhs.value), rhs.rest)
  {
    hide ParseBinary;
  }

  /** What one round of the loop over postfix constructs does: it stops, fails or goes on. */
  ghost predicate ConstructRead(
    bare: bool, e: Expr, ts: seq<Token>, more: bool, next: Option<Expr>, rest: seq<Token>)
  {
    var whole := PostfixLoop(bare, e, ts);
    if !more then rest == ts && whole == Parsed(e, ts)
    else if next.None? then whole == Failed
    else |rest| < |ts| && whole == PostfixLoop(bare, next.value, rest)
  }

  lemma DotRound(bare: bool, e: Expr, ts: seq<Token>, next: Option<Expr>, rest: seq<Token>)
    requires Peek(ts) == Dot && Matches(ParseMember(bare, e, ts[1..]), next, rest)
    ensures ConstructRead(bare, e, ts, true, next, rest)
  {
    hide ParseMember, ParseBracket, ParseType;
  }

  lemma BracketRound(bare: bool, e: Expr, ts: seq<Token>, next: Option<Expr>, rest: seq<Token>)
    requires Peek(ts) == LBracket && Matches(ParseBracket(bare, e, ts[1..]), next, rest)
    ensures ConstructRead(bare, e, ts, true, next, rest)
  {
    hide ParseMember, ParseBracket, ParseType;
  }

  lemma CastRound(bare: bool, e: Expr, ts: seq<Token>, next: Option<Expr>, rest: seq<Token>)
    requires Peek(ts) == KwAs && Matches(CastTo(e, ParseType(ts[1..])), next, rest)
    ensures ConstructRead(bare, e, ts, true, next, rest)
  {
    hide ParseMember, ParseBracket, ParseType;
  }

  lemma NoConstruct(bare: bool, e: Expr, ts: seq<Token>)
    requires Peek(ts) != Dot && Peek(ts) != LBracket && Peek(ts) != KwAs
    ensures ConstructRead(bare, e, ts, false, None, ts)
  {
  }

  ghost function CastTo(e: Expr, target: Parse<Type>): Parse<Expr> {
    if target.Failed? then Failed else Parsed(Cast(e, target.value), target.rest)
  }

  lemma PrefixHasNode(token: Token, operand: Expr)
    requires IsPrefix(token)
    ensures UnaryNode(token, operand).Some?
  {
  }

  class RecursiveDescent {
    const tokens: seq<Token>
    var pos: nat
    var noStructInit: bool

    /** The lexer ends its output with Eof. */
    ghost predicate Valid()
      reads this
    {
      pos < |tokens| && tokens[|tokens| - 1] == Eof
    }

    /** What is still to be read, without the final Eof. */
    ghost function Rest(): (ts: seq<Token>)
      requires Valid()
      reads this
    {
      tokens[pos..|tokens| - 1]
    }

    constructor (tokens: seq<Token>)
      requires tokens != [] && tokens[|tokens| - 1] == Eof
      ensures Valid() && !noStructInit && this.tokens == tokens && Rest() == tokens[..|tokens| - 1]
    {
      this.tokens := tokens;
      pos := 0;
      noStructInit := false;
    }

    function Look(): (t: Token)
      requires Valid()
      reads this
      ensures t == Peek(Rest())
    {
      tokens[pos]
    }

    method Next() returns (t: Token)
      requires Valid()
      modifies this`pos
      ensures Valid() && t == Peek(old(Rest())) && Rest() == Advance(old(Rest()))
    {
      t := tokens[pos];
      if pos + 1 < |tokens| {
        pos := pos + 1;
      }
    }

    method Eat(token: Token) returns (eaten: bool)
      requires Valid() && token != Eof
      modifies this`pos
      ensures Valid() && eaten == (Peek(old(Rest())) == token)
      ensures Rest() == if eaten then old(Rest())[1..] else old(Rest())
    {
      eaten := Look() == token;
      if eaten {
        var _ := Next();
      }
    }

    method ExpectToken(token: Token) returns (r: Option<()>)
      requires Valid() && token != Eof
      modifies this`pos
      ensures Valid() && Matches(Expect(token, old(Rest())), r, Rest())
    {
      if Look() != token {
        return None;
      }
      var _ := Next();
      return Some(());
    }

    method ExpectName() returns (r: Option<string>)
      requires Valid()
      modifies this`pos
      ensures Valid() && Matches(ExpectIdent(old(Rest())), r, Rest())
    {
      var t := Next();
      return if t.Ident? then Some(t.name) else None;
    }

    // -------------------------------------------------------------------------
    // Types
    // -------------------------------------------------------------------------

    method ReadType() returns (r: Option<Type>)
      requires Valid()
      modifies this`pos
      ensures Valid() && Matches(ParseType(old(Rest())), r, Rest())
      decreases |Rest()|, 1
    {
      hide Rest, ParseTupleType, ParsePtrType, ParseFnType, ParseArrayType, ParseNamedType;
      var t := Next();
      if t == LParen {
        r := ReadTupleType();
      } else if t == Star {
        r := ReadPtrType();
      } else if t == KwFn {
        r := ReadFnType();
      } else if t == LBracket {
        r := ReadArrayType();
      } else if t.Ident? {
        r := ReadNamedType(t.name);
      } else {
        r := None;
      }
    }

    method ReadTupleType() returns (r: Option<Type>)
      requires Valid()
      modifies this`pos
      ensures Valid() && Matches(ParseTupleType(old(Rest())), r, Rest())
      decreases |Rest()|, 2
    {
      hide Rest, ParseType, ParseTypesUntil;
      var first := ReadType();
      if first.None? { return None; }
      var comma := ExpectToken(Comma);
      if comma.None? { return None; }
      var others := ReadTypesUntil(RParen);
      if others.None? { return None; }
      return Some(Tuple([first.value] + others.value));
    }

    method ReadPtrType() returns (r: Option<Type>)
      requires Valid()
      modifies this`pos
      ensures Valid() && Matches(ParsePtrType(old(Rest())), r, Rest())
      decreases |Rest()|, 2
    {
      hide Rest, ParseType;
      var pointee := ReadType();
      return if pointee.Some? then Some(Ptr(pointee.value)) else None;
    }

    method ReadFnType() returns (r: Option<Type>)
      requires Valid()
      modifies this`pos
      ensures Valid() && Matches(ParseFnType(old(Rest())), r, Rest())
      decreases |Rest()|, 0
    {
      hide Rest, ParseType, ParseParamTypes;
      var open := ExpectToken(LParen);
      if open.None? { return None; }
      var params := ReadParamTypes();
      if params.None? { return None; }
      var arrow := Eat(Arrow);
      if !arrow { return Some(Fn(params.value, Void)); }
      var ret := ReadType();
      return if ret.Some? then Some(Fn(params.value, ret.value)) else None;
    }

    method ReadParamTypes() returns (r: Option<seq<Type>>)
      requires Valid()
      modifies this`pos
      ensures Valid() && Matches(ParseParamTypes(old(Rest())), r, Rest())
      decreases |Rest()|, 3
    {
      hide Rest, ParseTypesUntil;
      var empty := Eat(RParen);
      if empty { return Some([]); }
      r := ReadTypesUntil(RParen);
    }

    method ReadArrayType() returns (r: Option<Type>)
      requires Valid()
      modifies this`pos
      ensures Valid() && Matches(ParseArrayType(old(Rest())), r, Rest())
      decreases |Rest()|, 0
    {
      hide Rest, ParseType;
      if !Look().IntTok? { return None; }
      var length := Next();
      var close := ExpectToken(RBracket);
      if close.None? { return None; }
      var element := ReadType();
      return if element.Some? then Some(Array(element.value, length.value)) else None;
    }

    method ReadNamedType(name: string) returns (r: Option<Type>)
      requires Valid()
      modifies this`pos
      ensures Valid() && Matches(ParseNamedType(name, old(Rest())), r, Rest())
      decreases |Rest()|, 2
    {
      hide Rest, BasicType, ParseTypeArgs;
      var basic := BasicType(name);
      if basic.Some? { return basic; }
      if Look() != LBracket { return Some(Named(name)); }
      var args := ReadTypeArgs();
      return if args.Some? then Some(Applied(name, args.value)) else None;
    }

    method ReadTypeArgs() returns (r: Option<seq<Type>>)
      requires Valid()
      modifies this`pos
      ensures Valid() && Matches(ParseTypeArgs(old(Rest())), r, Rest())
      decreases |Rest()|, 0
    {
      hide Rest, ParseTypesUntil;
      var open := ExpectToken(LBracket);
      if open.None? { return None; }
      r := ReadTypesUntil(RBracket);
    }

    method ReadTypesUntil(close: Token) returns (r: Option<seq<Type>>)
      requires Valid() && close != Eof && close != Comma
      modifies this`pos
      ensures Valid() && Matches(ParseTypesUntil(close, old(Rest())), r, Rest())
      decreases |Rest()|, 2
    {
      hide Rest, ParseType, ParseTypesUntil;
      ghost var start := Rest();
      var types := [];
      PrefixedNothing(ParseTypesUntil(close, start));
      while true
        invariant Valid() && |Rest()| <= |start|
        invariant Prefixed(types, ParseTypesUntil(close, Rest())) == ParseTypesUntil(close, start)
        decreases |Rest()|
      {
        TypesRound(close, types, Rest());
        var t := ReadType();
        if t.None? { return None; }
        types := types + [t.value];
        var comma := Eat(Comma);
        if !comma {
          var end := ExpectToken(close);
          return if end.Some? then Some(types) else None;
        }
      }
    }

    /** Guesses that `[` opens type arguments, and takes the guess back if `follow` does not come. */
    method GuessTypeArgs(follow: set<Token>) returns (args: seq<Type>)
      requires Valid()
      modifies this`pos
      ensures Valid() && SpeculateTypeArgs(follow, old(Rest())) == (args, Rest())
    {
      hide ParseTypeArgs;
      var saved := pos;
      args := [];
      if Look() == LBracket {
        var guess := ReadTypeArgs();
        if guess.Some? && Look() in follow {
          args := guess.value;
        } else {
          pos := saved;
        }
      }
    }

    // -------------------------------------------------------------------------
    // Expressions
    // -------------------------------------------------------------------------

    method ReadExpr() returns (r: Option<Expr>)
      requires Valid()
      modifies this`pos
      ensures Valid() && Matches(ParseExpr(noStructInit, old(Rest())), r, Rest())
      decreases |Rest()|, 5
    {
      hide Rest, ParseBinary;
      r := ReadBinary(0);
    }

    method ReadBinary(min: nat) returns (r: Option<Expr>)
      requires Valid()
      modifies this`pos
      ensures Valid() && Matches(ParseBinary(noStructInit, min, old(Rest())), r, Rest())
      decreases |Rest()|, 4
    {
      hide Rest, ParseUnary, BinaryLoop, Precedence;
      ghost var start := Rest();
      r := ReadUnary();
      if r.None? { return; }
      var lhs := r.value;
      while true
        invariant Valid() && |Rest()| < |start|
        invariant BinaryLoop(noStructInit, min, lhs, Rest()) == ParseBinary(noStructInit, min, start)
        decreases |Rest()|
      {
        BinaryRound(noStructInit, min, lhs, Rest());
        var p := Precedence(Look());
        if p.None? || p.value < min {
          return Some(lhs);
        }
        var op := BinOpFrom(Look());
        var _ := Next();
        var rhs := ReadBinary(p.value + 1);
        if rhs.None? { return None; }
        lhs := Binary(op, lhs, rhs.value);
      }
    }

    method ReadUnary() returns (r: Option<Expr>)
      requires Valid()
      modifies this`pos
      ensures Valid() && Matches(ParseUnary(noStructInit, old(Rest())), r, Rest())
      decreases |Rest()|, 3
    {
      hide Rest, ParsePostfix, UnaryNode;
      if IsPrefix(Look()) {
        var token := Next();
        var operand := ReadUnary();
        if operand.None? { return None; }
        PrefixHasNode(token, operand.value);
        return UnaryNode(token, operand.value);
      }
      r := ReadPostfix();
    }

    method ReadPostfix() returns (r: Option<Expr>)
      requires Valid()
      modifies this`pos
      ensures Valid() && Matches(ParsePostfix(noStructInit, old(Rest())), r, Rest())
      decreases |Rest()|, 2
    {
      hide Rest, ParsePrimary, PostfixLoop;
      ghost var start := Rest();
      r := ReadPrimary();
      if r.None? { return; }
      var e := r.value;
      while true
        invariant Valid() && |Rest()| < |start|
        invariant PostfixLoop(noStructInit, e, Rest()) == ParsePostfix(noStructInit, start)
        decreases |Rest()|
      {
        var more, next := ReadPostfixConstruct(e);
        if !more { return Some(e); }
        if next.None? { return None; }
        e := next.value;
      }
    }

    /** One construct after `e`, if there is one. */
    method ReadPostfixConstruct(e: Expr) returns (more: bool, next: Option<Expr>)
      requires Valid()
      modifies this`pos
      ensures Valid() && ConstructRead(noStructInit, e, old(Rest()), more, next, Rest())
      decreases |Rest()|, 1
    {
      hide Rest, Valid, ConstructRead, ParseMember, ParseBracket, ParseType, CastTo, Matches;
      ghost var ts := Rest();
      var t := Look();
      if t == Dot {
        var _ := Next();
        next := ReadMember(e);
        DotRound(noStructInit, e, ts, next, Rest());
      } else if t == LBracket {
        var _ := Next();
        next := ReadBracket(e);
        BracketRound(noStructInit, e, ts, next, Rest());
      } else if t == KwAs {
        var _ := Next();
        next := ReadCast(e);
        CastRound(noStructInit, e, ts, next, Rest());
      } else {
        NoConstruct(noStructInit, e, ts);
        return false, None;
      }
      more := true;
    }

    method ReadCast(e: Expr) returns (r: Option<Expr>)
      requires Valid()
      modifies this`pos
      ensures Valid() && Matches(CastTo(e, ParseType(old(Rest()))), r, Rest())
      ensures r.Some? ==> |Rest()| < |old(Rest())|
      decreases |Rest()|, 2
    {
      hide Rest, ParseType;
      var target := ReadType();
      return if target.Some? then Some(Cast(e, target.value)) else None;
    }

    method ReadMember(e: Expr) returns (r: Option<Expr>)
      requires Valid()
      modifies this`pos
      ensures Valid() && Matches(ParseMember(noStructInit, e, old(Rest())), r, Rest())
      decreases |Rest()|, 0
    {
      hide Rest, ParseArgs, SpeculateTypeArgs;
      var name := ExpectName();
      if name.None? { return None; }
      var typeArgs := GuessTypeArgs({LParen});
      var open := Eat(LParen);
      if !open { return Some(Field(e, name.value)); }
      var args := ReadArgs();
      return if args.Some? then Some(MethodCall(e, name.value, typeArgs, args.value)) else None;
    }

    method ReadBracket(e: Expr) returns (r: Option<Expr>)
      requires Valid()
      modifies this`pos
      ensures Valid() && Matches(ParseBracket(noStructInit, e, old(Rest())), r, Rest())
      decreases |Rest()|, 6
    {
      hide Rest, ParseExpr, ParseSliceEnd;
      var colon := Eat(Colon);
      if colon {
        r := ReadSliceEnd(e, None);
        return;
      }
      var first := ReadExpr();
      if first.None? { return None; }
      colon := Eat(Colon);
      if colon {
        r := ReadSliceEnd(e, first);
        return;
      }
      var end := ExpectToken(RBracket);
      return if end.Some? then Some(Index(e, first.value)) else None;
    }

    method ReadSliceEnd(e: Expr, lo: Option<Expr>) returns (r: Option<Expr>)
      requires Valid()
      modifies this`pos
      ensures Valid() && Matches(ParseSliceEnd(noStructInit, e, lo, old(Rest())), r, Rest())
      decreases |Rest()|, 6
    {
      hide Rest, ParseExpr;
      var open := Eat(RBracket);
      if open { return Some(Slice(e, lo, None)); }
      var hi := ReadExpr();
      if hi.None? { return None; }
      var end := ExpectToken(RBracket);
      return if end.Some? then Some(Slice(e, lo, hi)) else None;
    }

    method ReadArgs() returns (r: Option<seq<Expr>>)
      requires Valid()
      modifies this`pos
      ensures Valid() && Matches(ParseArgs(noStructInit, old(Rest())), r, Rest())
      decreases |Rest()|, 7
    {
      hide Rest, ParseExprsUntil;
      var empty := Eat(RParen);
      if empty { return Some([]); }
      r := ReadExprsUntil(RParen);
    }

    method ReadExprsUntil(close: Token) returns (r: Option<seq<Expr>>)
      requires Valid() && close != Eof && close != Comma
      modifies this`pos
      ensures Valid() && Matches(ParseExprsUntil(noStructInit, close, old(Rest())), r, Rest())
      decreases |Rest()|, 6
    {
      hide Rest, ParseExpr, ParseExprsUntil, Prefixed;
      ghost var start := Rest();
      var es := [];
      PrefixedNothing(ParseExprsUntil(noStructInit, close, start));
      while true
        invariant Valid() && |Rest()| <= |start|
        invariant Prefixed(es, ParseExprsUntil(noStructInit, close, Rest()))
               == ParseExprsUntil(noStructInit, close, start)
        decreases |Rest()|
      {
        ghost var first := ParseExpr(noStructInit, Rest());
        ExprsRound(noStructInit, close, es, Rest());
        var e := ReadExpr();
        if e.None? { return None; }
        assert first == Parsed(e.value, Rest());
        es := es + [e.value];
        var comma := Eat(Comma);
        if !comma {
          var end := ExpectToken(close);
          return if end.Some? then Some(es) else None;
        }
      }
    }

    method ReadFields() returns (r: Option<seq<FieldInit>>)
      requires Valid()
      modifies this`pos
      ensures Valid() && Matches(ParseFields(noStructInit, old(Rest())), r, Rest())
      decreases |Rest()|, 7
    {
      hide Rest, ParseExpr, ParseFieldsUntil;
      ghost var start := Rest();
      var fields := [];
      var empty := Eat(RBrace);
      if empty { return Some([]); }
      PrefixedNothing(ParseFieldsUntil(noStructInit, start));
      while true
        invariant Valid() && |Rest()| <= |start|
        invariant Prefixed(fields, ParseFieldsUntil(noStructInit, Rest()))
               == ParseFieldsUntil(noStructInit, start)
        decreases |Rest()|
      {
        FieldsRound(noStructInit, fields, Rest());
        var name := ExpectName();
        if name.None? { return None; }
        var colon := ExpectToken(Colon);
        if colon.None? { return None; }
        var value := ReadExpr();
        if value.None? { return None; }
        fields := fields + [FieldInit(name.value, value.value)];
        var comma := Eat(Comma);
        if !comma {
          var end := ExpectToken(RBrace);
          return if end.Some? then Some(fields) else None;
        }
      }
    }

    method ReadPrimary() returns (r: Option<Expr>)
      requires Valid()
      modifies this`pos
      ensures Valid() && Matches(ParsePrimary(noStructInit, old(Rest())), r, Rest())
      decreases |Rest()|, 1
    {
      hide Rest, ParseName, ParseParens, ParseArrayLit;
      var t := Look();
      if t.IntTok? {
        var _ := Next();
        r := Some(IntLit(t.value));
      } else if t.FloatTok? {
        var _ := Next();
        r := Some(FloatLit(t.decimal));
      } else if t == KwTrue || t == KwFalse {
        var _ := Next();
        r := Some(BoolLit(t == KwTrue));
      } else if t.StrTok? {
        var _ := Next();
        r := Some(StrLit(t.text));
      } else if t.Ident? {
        var _ := Next();
        r := ReadName(t.name);
      } else if t == LParen {
        var _ := Next();
        r := ReadParens();
      } else if t == LBracket {
        var _ := Next();
        r := ReadArrayLit();
      } else {
        r := None;
      }
    }

    method ReadName(name: string) returns (r: Option<Expr>)
      requires Valid()
      modifies this`pos
      ensures Valid() && Matches(ParseName(noStructInit, name, old(Rest())), r, Rest())
      decreases |Rest()|, 8
    {
      hide Rest, ParseArgs, ParseFields, SpeculateTypeArgs;
      var typeArgs := GuessTypeArgs({LParen, LBrace});
      var open := Eat(LParen);
      if open {
        var args := ReadArgs();
        return if args.Some? then Some(Call(name, typeArgs, args.value)) else None;
      }
      open := false;
      if !noStructInit {
        open := Eat(LBrace);
      }
      if !open { return Some(Var(name)); }
      var fields := ReadFields();
      return if fields.Some? then Some(StructInit(name, typeArgs, fields.value)) else None;
    }

    method ReadParens() returns (r: Option<Expr>)
      requires Valid()
      modifies this`pos
      ensures Valid() && Matches(ParseParens(noStructInit, old(Rest())), r, Rest())
      decreases |Rest()|, 6
    {
      hide Rest, ParseExpr, ParseExprsUntil;
      var first := ReadExpr();
      if first.None? { return None; }
      var comma := Eat(Comma);
      if comma {
        var others := ReadExprsUntil(RParen);
        return if others.Some? then Some(TupleLit([first.value] + others.value)) else None;
      }
      var end := ExpectToken(RParen);
      return if end.Some? then first else None;
    }

    method ReadArrayLit() returns (r: Option<Expr>)
      requires Valid()
      modifies this`pos
      ensures Valid() && Matches(ParseArrayLit(noStructInit, old(Rest())), r, Rest())
      decreases |Rest()|, 7
    {
      hide Rest, ParseExprsUntil;
      var empty := Eat(RBracket);
      if empty { return Some(ArrayLit([])); }
      var values := ReadExprsUntil(RBracket);
      return if values.Some? then Some(ArrayLit(values.value)) else None;
    }
  }
}
