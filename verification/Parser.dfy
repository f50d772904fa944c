/** The recursive-descent parser for types and expressions, as functions from the remaining tokens
    to a tree and the tokens after it. ParserClass.dfy advances a cursor instead and is proved to
    compute the same. `bare` is the parser's `no_struct_init`, set in the headers of `for` and
    `switch`, where `{` starts the body. */
module Parser {
  import opened Ast
  import opened Wrappers
  import opened Tokens

  datatype Parse<+T> = Parsed(value: T, rest: seq<Token>) | Failed {
    predicate IsFailure() { Failed? }

    function PropagateFailure<U>(): Parse<U>
      requires Failed?
    {
      Failed
    }

    function Extract(): (T, seq<Token>)
      requires Parsed?
    {
      (value, rest)
    }
  }

  /** The tokens after `token`, which must come next. */
  function Expect(token: Token, ts: seq<Token>): (r: Parse<()>)
    requires token != Eof
    ensures r.Parsed? ==> |r.rest| < |ts|
  {
    if Peek(ts) == token then Parsed((), ts[1..]) else Failed
  }

  function ExpectIdent(ts: seq<Token>): (r: Parse<string>)
    ensures r.Parsed? ==> |r.rest| < |ts|
  {
    if Peek(ts).Ident? then Parsed(ts[0].name, ts[1..]) else Failed
  }

  // ---------------------------------------------------------------------------
  // Types
  // ---------------------------------------------------------------------------

  function BasicType(name: string): Option<Type> {
    match name
    case "int" => Some(Int)
    case "float" => Some(Float)
    case "bool" => Some(Bool)
    case "str" => Some(Str)
    case "u8" => Some(U8)
    case "u16" => Some(U16)
    case "u32" => Some(U32)
    case "u64" => Some(U64)
    case "void" => Some(Void)
    case _ => None
  }

  function ParseType(ts: seq<Token>): (r: Parse<Type>)
    ensures r.Parsed? ==> |r.rest| < |ts|
    decreases |ts|, 1
  {
    match Peek(ts)
    case LParen => ParseTupleType(ts[1..])
    case Star => ParsePtrType(ts[1..])
    case KwFn => ParseFnType(ts[1..])
    case LBracket => ParseArrayType(ts[1..])
    case Ident(name) => ParseNamedType(name, ts[1..])
    case _ => Failed
  }

  /** A tuple type, after `(`. */
  function ParseTupleType(ts: seq<Token>): (r: Parse<Type>)
    ensures r.Parsed? ==> |r.rest| < |ts|
    decreases |ts|, 2
  {
    var (first, ts1) :- ParseType(ts);
    var (_, ts2) :- Expect(Comma, ts1);
    var (others, ts3) :- ParseTypesUntil(RParen, ts2);
    Parsed(Tuple([first] + others), ts3)
  }

  /** A pointer type, after `*`. */
  function ParsePtrType(ts: seq<Token>): (r: Parse<Type>)
    ensures r.Parsed? ==> |r.rest| < |ts|
    decreases |ts|, 2
  {
    var (pointee, ts1) :- ParseType(ts);
    Parsed(Ptr(pointee), ts1)
  }

  /** A function type, after `fn`; without an arrow it returns nothing. */
  function ParseFnType(ts: seq<Token>): (r: Parse<Type>)
    ensures r.Parsed? ==> |r.rest| < |ts|
    decreases |ts|, 0
  {
    var (_, ts1) :- Expect(LParen, ts);
    var (params, ts2) :- ParseParamTypes(ts1);
    if Peek(ts2) == Arrow then
      var (ret, ts3) :- ParseType(ts2[1..]);
      Parsed(Fn(params, ret), ts3)
    else Parsed(Fn(params, Void), ts2)
  }

  /** An array type, after `[`. */
  function ParseArrayType(ts: seq<Token>): (r: Parse<Type>)
    ensures r.Parsed? ==> |r.rest| < |ts|
    decreases |ts|, 0
  {
    if !Peek(ts).IntTok? then Failed
    else
      var (_, ts1) :- Expect(RBracket, ts[1..]);
      var (element, ts2) :- ParseType(ts1);
      Parsed(Array(element, ts[0].value), ts2)
  }

  /** The type named `name`, or its instance if `[` follows. */
  function ParseNamedType(name: string, ts: seq<Token>): (r: Parse<Type>)
    ensures r.Parsed? ==> |r.rest| <= |ts|
    decreases |ts|, 2
  {
    if BasicType(name).Some? then Parsed(BasicType(name).value, ts)
    else if Peek(ts) != LBracket then Parsed(Named(name), ts)
    else
      var (args, ts1) :- ParseTypeArgs(ts);
      Parsed(Applied(name, args), ts1)
  }

  /** The parameter types of a function type, after `(`. */
  function ParseParamTypes(ts: seq<Token>): (r: Parse<seq<Type>>)
    ensures r.Parsed? ==> |r.rest| < |ts|
    decreases |ts|, 3
  {
    if Peek(ts) == RParen then Parsed([], ts[1..]) else ParseTypesUntil(RParen, ts)
  }

  function ParseTypeArgs(ts: seq<Token>): (r: Parse<seq<Type>>)
    ensures r.Parsed? ==> |r.rest| < |ts|
    decreases |ts|, 0
  {
    var (_, ts1) :- Expect(LBracket, ts);
    ParseTypesUntil(RBracket, ts1)
  }

  /** One or more types separated by commas, up to and including `close`. */
  function ParseTypesUntil(close: Token, ts: seq<Token>): (r: Parse<seq<Type>>)
    requires close != Eof
    ensures r.Parsed? ==> |r.rest| < |ts| && r.value != []
    decreases |ts|, 2
  {
    var (first, ts1) :- ParseType(ts);
    if Peek(ts1) == Comma then
      var (others, ts2) :- ParseTypesUntil(close, ts1[1..]);
      Parsed([first] + others, ts2)
    else
      var (_, ts2) :- Expect(close, ts1);
      Parsed([first], ts2)
  }

  // ---------------------------------------------------------------------------
  // Expressions
  // ---------------------------------------------------------------------------

  function Precedence(token: Token): (p: Option<nat>)
    ensures p.Some? ==> 1 <= p.value <= 9
  {
    match token
    case PipePipe => Some(1)
    case AmpAmp => Some(2)
    case Pipe => Some(3)
    case Caret => Some(4)
    case Amp => Some(5)
    case EqEq => Some(6)
    case NotEq => Some(6)
    case Less => Some(6)
    case Greater => Some(6)
    case LessEq => Some(6)
    case GreaterEq => Some(6)
    case KwIn => Some(6)
    case ShiftLeft => Some(7)
    case ShiftRight => Some(7)
    case Plus => Some(8)
    case Minus => Some(8)
    case Star => Some(9)
    case Slash => Some(9)
    case Percent => Some(9)
    case _ => None
  }

  function BinOpFrom(token: Token): BinOp
    requires Precedence(token).Some?
  {
    match token
    case Plus => Add
    case Minus => Sub
    case Star => Mul
    case Slash => Div
    case Percent => Mod
    case EqEq => Eq
    case NotEq => Ne
    case Less => Lt
    case Greater => Gt
    case LessEq => Le
    case GreaterEq => Ge
    case AmpAmp => And
    case PipePipe => Or
    case Amp => BitAnd
    case Pipe => BitOr
    case Caret => BitXor
    case ShiftLeft => Shl
    case ShiftRight => Shr
    case KwIn => In
  }

  function ParseExpr(bare: bool, ts: seq<Token>): (r: Parse<Expr>)
    ensures r.Parsed? ==> |r.rest| < |ts|
    decreases |ts|, 5
  {
    ParseBinary(bare, 0, ts)
  }

  function ParseBinary(bare: bool, min: nat, ts: seq<Token>): (r: Parse<Expr>)
    ensures r.Parsed? ==> |r.rest| < |ts|
    decreases |ts|, 4
  {
    var (lhs, ts1) :- ParseUnary(bare, ts);
    BinaryLoop(bare, min, lhs, ts1)
  }

  /** Operators that bind at least as tightly as `min`, and their right operands. */
  function BinaryLoop(bare: bool, min: nat, lhs: Expr, ts: seq<Token>): (r: Parse<Expr>)
    ensures r.Parsed? ==> |r.rest| <= |ts|
    decreases |ts|, 0
  {
    var p := Precedence(Peek(ts));
    if p.None? || p.value < min then Parsed(lhs, ts)
    else
      var (rhs, ts1) :- ParseBinary(bare, p.value + 1, ts[1..]);
      BinaryLoop(bare, min, Binary(BinOpFrom(ts[0]), lhs, rhs), ts1)
  }

  function UnaryNode(token: Token, operand: Expr): Option<Expr> {
    match token
    case Minus => Some(Unary(Neg, operand))
    case Bang => Some(Unary(Not, operand))
    case Amp => Some(AddrOf(operand))
    case Star => Some(Deref(operand))
    case Tilde => Some(Unary(BitNot, operand))
    case _ => None
  }

  predicate IsPrefix(token: Token) {
    token in {Minus, Bang, Amp, Star, Tilde}
  }

  function ParseUnary(bare: bool, ts: seq<Token>): (r: Parse<Expr>)
    ensures r.Parsed? ==> |r.rest| < |ts|
    decreases |ts|, 3
  {
    if IsPrefix(Peek(ts)) then
      var (operand, ts1) :- ParseUnary(bare, ts[1..]);
      Parsed(UnaryNode(ts[0], operand).value, ts1)
    else ParsePostfix(bare, ts)
  }

  function ParsePostfix(bare: bool, ts: seq<Token>): (r: Parse<Expr>)
    ensures r.Parsed? ==> |r.rest| < |ts|
    decreases |ts|, 2
  {
    var (e, ts1) :- ParsePrimary(bare, ts);
    PostfixLoop(bare, e, ts1)
  }

  /** Type arguments if what follows them shows that they are ones, and otherwise nothing. */
  function SpeculateTypeArgs(follow: set<Token>, ts: seq<Token>): (r: (seq<Type>, seq<Token>))
    ensures |r.1| <= |ts|
  {
    if Peek(ts) != LBracket then ([], ts)
    else match ParseTypeArgs(ts)
      case Parsed(args, rest) => if Peek(rest) in follow then (args, rest) else ([], ts)
      case Failed => ([], ts)
  }

  function PostfixLoop(bare: bool, e: Expr, ts: seq<Token>): (r: Parse<Expr>)
    ensures r.Parsed? ==> |r.rest| <= |ts|
    decreases |ts|, 1
  {
    match Peek(ts)
    case Dot =>
      var (next, ts1) :- ParseMember(bare, e, ts[1..]);
      PostfixLoop(bare, next, ts1)
    case LBracket =>
      var (next, ts1) :- ParseBracket(bare, e, ts[1..]);
      PostfixLoop(bare, next, ts1)
    case KwAs =>
      var (target, ts1) :- ParseType(ts[1..]);
      PostfixLoop(bare, Cast(e, target), ts1)
    case _ => Parsed(e, ts)
  }

  /** A field or a method call, after `.`. */
  function ParseMember(bare: bool, e: Expr, ts: seq<Token>): (r: Parse<Expr>)
    ensures r.Parsed? ==> |r.rest| < |ts|
    decreases |ts|, 0
  {
    var (name, ts1) :- ExpectIdent(ts);
    var (typeArgs, ts2) := SpeculateTypeArgs({LParen}, ts1);
    if Peek(ts2) == LParen then
      var (args, ts3) :- ParseArgs(bare, ts2[1..]);
      Parsed(MethodCall(e, name, typeArgs, args), ts3)
    else Parsed(Field(e, name), ts2)
  }

  /** An index or a slice, after `[`. */
  function ParseBracket(bare: bool, e: Expr, ts: seq<Token>): (r: Parse<Expr>)
    ensures r.Parsed? ==> |r.rest| <= |ts|
    decreases |ts|, 6
  {
    if Peek(ts) == Colon then ParseSliceEnd(bare, e, None, ts[1..])
    else
      var (first, ts1) :- ParseExpr(bare, ts);
      if Peek(ts1) == Colon then ParseSliceEnd(bare, e, Some(first), ts1[1..])
      else
        var (_, ts2) :- Expect(RBracket, ts1);
        Parsed(Index(e, first), ts2)
  }

  /** The upper bound of a slice, if any, after `:`. */
  function ParseSliceEnd(bare: bool, e: Expr, lo: Option<Expr>, ts: seq<Token>): (r: Parse<Expr>)
    ensures r.Parsed? ==> |r.rest| < |ts|
    decreases |ts|, 6
  {
    if Peek(ts) == RBracket then Parsed(Slice(e, lo, None), ts[1..])
    else
      var (hi, ts1) :- ParseExpr(bare, ts);
      var (_, ts2) :- Expect(RBracket, ts1);
      Parsed(Slice(e, lo, Some(hi)), ts2)
  }

  /** Call arguments, after `(`. */
  function ParseArgs(bare: bool, ts: seq<Token>): (r: Parse<seq<Expr>>)
    ensures r.Parsed? ==> |r.rest| < |ts|
    decreases |ts|, 7
  {
    if Peek(ts) == RParen then Parsed([], ts[1..]) else ParseExprsUntil(bare, RParen, ts)
  }

  /** One or more expressions separated by commas, up to and including `close`. */
  function ParseExprsUntil(bare: bool, close: Token, ts: seq<Token>): (r: Parse<seq<Expr>>)
    requires close != Eof
    ensures r.Parsed? ==> |r.rest| < |ts| && r.value != []
    decreases |ts|, 6
  {
    var (first, ts1) :- ParseExpr(bare, ts);
    if Peek(ts1) == Comma then
      var (others, ts2) :- ParseExprsUntil(bare, close, ts1[1..]);
      Parsed([first] + others, ts2)
    else
      var (_, ts2) :- Expect(close, ts1);
      Parsed([first], ts2)
  }

  /** Field initialisers, after `{`. */
  function ParseFields(bare: bool, ts: seq<Token>): (r: Parse<seq<FieldInit>>)
    ensures r.Parsed? ==> |r.rest| < |ts|
    decreases |ts|, 7
  {
    if Peek(ts) == RBrace then Parsed([], ts[1..]) else ParseFieldsUntil(bare, ts)
  }

  function ParseFieldsUntil(bare: bool, ts: seq<Token>): (r: Parse<seq<FieldInit>>)
    ensures r.Parsed? ==> |r.rest| < |ts|
    decreases |ts|, 6
  {
    var (name, ts1) :- ExpectIdent(ts);
    var (_, ts2) :- Expect(Colon, ts1);
    var (value, ts3) :- ParseExpr(bare, ts2);
    if Peek(ts3) == Comma then
      var (others, ts4) :- ParseFieldsUntil(bare, ts3[1..]);
      Parsed([FieldInit(name, value)] + others, ts4)
    else
      var (_, ts4) :- Expect(RBrace, ts3);
      Parsed([FieldInit(name, value)], ts4)
  }

  function ParsePrimary(bare: bool, ts: seq<Token>): (r: Parse<Expr>)
    ensures r.Parsed? ==> |r.rest| < |ts|
    decreases |ts|, 1
  {
    match Peek(ts)
    case IntTok(value) => Parsed(IntLit(value), ts[1..])
    case FloatTok(decimal) => Parsed(FloatLit(decimal), ts[1..])
    case KwTrue => Parsed(BoolLit(true), ts[1..])
    case KwFalse => Parsed(BoolLit(false), ts[1..])
    case StrTok(text) => Parsed(StrLit(text), ts[1..])
    case Ident(name) => ParseName(bare, name, ts[1..])
    case LParen => ParseParens(bare, ts[1..])
    case LBracket => ParseArrayLit(bare, ts[1..])
    case _ => Failed
  }

  /** What starts with a name: a call, a struct literal or the name alone. */
  function ParseName(bare: bool, name: string, ts: seq<Token>): (r: Parse<Expr>)
    ensures r.Parsed? ==> |r.rest| <= |ts|
    decreases |ts|, 2
  {
    var (typeArgs, ts1) := SpeculateTypeArgs({LParen, LBrace}, ts);
    if Peek(ts1) == LParen then
      var (args, ts2) :- ParseArgs(bare, ts1[1..]);
      Parsed(Call(name, typeArgs, args), ts2)
    else if !bare && Peek(ts1) == LBrace then
      var (fields, ts2) :- ParseFields(bare, ts1[1..]);
      Parsed(StructInit(name, typeArgs, fields), ts2)
    else Parsed(Var(name), ts1)
  }

  /** A tuple or an expression in parentheses, after `(`. */
  function ParseParens(bare: bool, ts: seq<Token>): (r: Parse<Expr>)
    ensures r.Parsed? ==> |r.rest| < |ts|
    decreases |ts|, 6
  {
    var (first, ts1) :- ParseExpr(bare, ts);
    if Peek(ts1) == Comma then
      var (others, ts2) :- ParseExprsUntil(bare, RParen, ts1[1..]);
      Parsed(TupleLit([first] + others), ts2)
    else
      var (_, ts2) :- Expect(RParen, ts1);
      Parsed(first, ts2)
  }

  /** An array literal, after `[`. */
  function ParseArrayLit(bare: bool, ts: seq<Token>): (r: Parse<Expr>)
    ensures r.Parsed? ==> |r.rest| < |ts|
    decreases |ts|, 7
  {
    if Peek(ts) == RBracket then Parsed(ArrayLit([]), ts[1..])
    else
      var (values, ts1) :- ParseExprsUntil(bare, RBracket, ts);
      Parsed(ArrayLit(values), ts1)
  }
}
