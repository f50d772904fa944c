/** The parser reads every notation of a type or an expression as what it means, and reads nothing
    else. */
module ParserTheorems {
  import opened Ast
  import opened Wrappers
  import opened Tokens
  import opened Parser
  import opened Notations
  import opened Printer
  import opened TextAppend
  import opened RoundTrip
  import opened ExprRoundTrip
  import opened ExprAccepts

  function TypeTokens(t: Type): seq<Token> {
    TypeText(PrintType(t), [])
  }

  function ExprTokens(e: Expr): seq<Token> {
    Text(Print(0, e), [])
  }

  // ---------------------------------------------------------------------------
  // Types
  // ---------------------------------------------------------------------------

  /** The tokens are a notation of the type, with which these others do not go on. */
  ghost predicate TypeNotation(ts: seq<Token>, t: Type, rest: seq<Token>) {
    exists f :: ShapedType(f) && TypeOf(f) == t && AfterType(f, rest) && TypeText(f, []) == ts
  }

  lemma FormOfType(ts: seq<Token>, t: Type, rest: seq<Token>) returns (f: TypeForm)
    requires TypeNotation(ts, t, rest)
    ensures ShapedType(f) && TypeOf(f) == t && AfterType(f, rest) && TypeText(f, rest) == ts + rest
  {
    f :| ShapedType(f) && TypeOf(f) == t && AfterType(f, rest) && TypeText(f, []) == ts;
    TypeAppend(f, [], rest);
    assert [] + rest == rest;
  }

  /** A type is read exactly from its notations, up to a token that does not go on with it: a bracket goes
      on with a word, and an arrow with a function that has none. */
  lemma TypeReadsNotations(ts: seq<Token>, t: Type, rest: seq<Token>)
    ensures ParseType(ts) == Parsed(t, rest) <==> exists front :: ts == front + rest && TypeNotation(front, t, rest)
  {
    hide ParseType, ShapedType, TypeOf, TypeText, AfterType;
    if ParseType(ts) == Parsed(t, rest) {
      var f := TypeAccepted(ts);
      TypeAppend(f, [], rest);
      assert [] + rest == rest;
      assert TypeNotation(TypeText(f, []), t, rest);
    }
    if exists front :: ts == front + rest && TypeNotation(front, t, rest) {
      var front :| ts == front + rest && TypeNotation(front, t, rest);
      var f := FormOfType(front, t, rest);
      TypeRoundTrip(f, rest);
    }
  }

  lemma {:induction false} PrintedArrows(t: Type)
    ensures !EndsWithoutArrow(PrintType(t))
    decreases t
  {
    match t
    case Array(element, _) => PrintedArrows(element);
    case Ptr(pointee) => PrintedArrows(pointee);
    case Fn(_, ret) => PrintedArrows(ret);
    case _ =>
  }

  /** The printed type among them, which has an arrow in each function type. */
  lemma TypeReadBack(t: Type, rest: seq<Token>)
    requires PrintableType(t) && Peek(rest) != LBracket
    ensures ParseType(TypeTokens(t) + rest) == Parsed(t, rest)
  {
    hide ParseType, ShapedType, TypeOf, TypeText;
    TypeFormFits(t);
    PrintedArrows(t);
    TypeAppend(PrintType(t), [], rest);
    assert [] + rest == rest;
    TypeRoundTrip(PrintType(t), rest);
  }

  // ---------------------------------------------------------------------------
  // Expressions
  // ---------------------------------------------------------------------------

  /** The tokens are a notation of the expression, in a header if `bare`, and there before the body if
      `open`. */
  ghost predicate Notation(bare: bool, open: bool, ts: seq<Token>, e: Expr) {
    exists f :: Shaped(bare, open, f) && Meaning(f) == e && Text(f, []) == ts
  }

  lemma FormOf(bare: bool, open: bool, ts: seq<Token>, e: Expr) returns (f: Form)
    requires Notation(bare, open, ts, e)
    ensures Shaped(bare, open, f) && Meaning(f) == e && forall rest :: Text(f, rest) == ts + rest
  {
    hide Shaped, Meaning, Text;
    f :| Shaped(bare, open, f) && Meaning(f) == e && Text(f, []) == ts;
    forall rest ensures Text(f, rest) == ts + rest {
      FormAppend(f, [], rest);
      assert [] + rest == rest;
    }
  }

  /** What the parser reads is a notation of the expression it returns, whatever follows. */
  lemma AcceptsNotations(bare: bool, ts: seq<Token>) returns (front: seq<Token>)
    requires ParseExpr(bare, ts).Parsed?
    ensures var r := ParseExpr(bare, ts); ts == front + r.rest && Notation(bare, Open(bare, r.rest), front, r.value)
  {
    hide ParseExpr, Shaped, Meaning, Text;
    var rest := ParseExpr(bare, ts).rest;
    var f := SubexprAccepted(bare, ts);
    front := Text(f, []);
    FormAppend(f, [], rest);
    assert [] + rest == rest;
  }

  /** A form is read before any tokens that do not extend it. */
  lemma FormReads(bare: bool, f: Form, rest: seq<Token>)
    requires Shaped(bare, Open(bare, rest), f) && Closed(bare, rest) && Precedence(Peek(rest)).None?
    ensures ParseExpr(bare, Text(f, rest)) == Parsed(Meaning(f), rest)
  {
    hide Text, ParseBinary, Shaped, Meaning, Closed;
    BinaryTrip(bare, 0, f, rest);
    ExprFrom(bare, Text(f, rest));
    LoopHasNoOperator(bare, Meaning(f), rest);
  }

  lemma LoopHasNoOperator(bare: bool, e: Expr, rest: seq<Token>)
    requires Precedence(Peek(rest)).None?
    ensures BinaryLoop(bare, 0, e, rest) == Parsed(e, rest)
  {
  }

  /** Before tokens that do not extend it, an expression is read exactly from its notations. */
  lemma ReadsNotations(bare: bool, ts: seq<Token>, e: Expr, rest: seq<Token>)
    requires Closed(bare, rest) && Precedence(Peek(rest)).None?
    ensures ParseExpr(bare, ts) == Parsed(e, rest)
      <==> exists front :: ts == front + rest && Notation(bare, Open(bare, rest), front, e)
  {
    hide ParseExpr, Closed, Open, Notation;
    if ParseExpr(bare, ts) == Parsed(e, rest) {
      var front := AcceptsNotations(bare, ts);
    }
    if exists front :: ts == front + rest && Notation(bare, Open(bare, rest), front, e) {
      var front :| ts == front + rest && Notation(bare, Open(bare, rest), front, e);
      var f := FormOf(bare, Open(bare, rest), front, e);
      FormReads(bare, f, rest);
    }
  }

  lemma PrintedText(bare: bool, e: Expr, rest: seq<Token>)
    requires Printable(bare, e)
    ensures Shaped(bare, false, Print(0, e)) && Meaning(Print(0, e)) == e
    ensures Text(Print(0, e), rest) == ExprTokens(e) + rest && Notation(bare, false, ExprTokens(e), e)
  {
    hide Print, Shaped, Meaning, Text, Printable;
    PrintFits(bare, 0, e);
    FormAppend(Print(0, e), [], rest);
    assert [] + rest == rest;
  }

  /** The printed expression among them. */
  lemma ExprReadBack(e: Expr, rest: seq<Token>)
    requires Printable(false, e) && Closed(false, rest) && Precedence(Peek(rest)).None?
    ensures ParseExpr(false, ExprTokens(e) + rest) == Parsed(e, rest)
  {
    hide Print, ParseExpr, Printable, Shaped, Meaning, Text;
    PrintedText(false, e, rest);
    FormReads(false, Print(0, e), rest);
  }

  /** No two expressions share a notation. */
  lemma NotationIsUnambiguous(ts: seq<Token>, d: Expr, e: Expr)
    requires Notation(false, false, ts, d) && Notation(false, false, ts, e)
    ensures d == e
  {
    hide ParseExpr, Notation;
    assert ts + [] == ts;
    ReadsNotations(false, ts, d, []);
    ReadsNotations(false, ts, e, []);
  }

  /** The expressions that have a notation, or can be the result of parsing, are the printable ones. */
  lemma WritableIffPrintable(e: Expr)
    ensures Printable(false, e) <==> exists ts :: Notation(false, false, ts, e)
    ensures Printable(false, e) <==> exists ts :: ParseExpr(false, ts) == Parsed(e, [])
  {
    hide ParseExpr, Printable, Shaped, Meaning, Text;
    if Printable(false, e) {
      PrintedText(false, e, []);
      ExprReadBack(e, []);
      assert ExprTokens(e) + [] == ExprTokens(e);
    }
    forall ts | ParseExpr(false, ts) == Parsed(e, [])
      ensures Notation(false, false, ts, e)
    {
      var front := AcceptsNotations(false, ts);
      assert front + [] == front;
    }
    forall ts | Notation(false, false, ts, e)
      ensures Printable(false, e)
    {
      var f := FormOf(false, false, ts, e);
      MeaningPrintable(false, false, f);
    }
  }

  // ---------------------------------------------------------------------------
  // Headers
  // ---------------------------------------------------------------------------

  /** A name with a bracket that could hold type arguments. */
  ghost predicate LikeTypeArgs(e: Expr) {
    match e
    case Index(base, index) => base.Var? && HoldsTypes(Text(Print(0, index), [RBracket]))
    case Slice(base, _, _) => base.Var? && HoldsTypes(RangeContent(PrintBare(e).lo, PrintBare(e).hi))
    case _ => false
  }

  /** The expression without the bracket it ends in, if that is one of a name and could hold type
      arguments. */
  ghost function Dropped(level: nat, e: Expr): Expr
    decreases e
  {
    if level > ExprLevel(e) then e
    else match e
      case Binary(op, lhs, rhs) => Binary(op, lhs, Dropped(OpPrecedence(op) + 1, rhs))
      case Unary(op, operand) => Unary(op, Dropped(UnaryLevel, operand))
      case AddrOf(operand) => AddrOf(Dropped(UnaryLevel, operand))
      case Deref(operand) => Deref(Dropped(UnaryLevel, operand))
      case Index(base, _) => if LikeTypeArgs(e) then base else e
      case Slice(base, _, _) => if LikeTypeArgs(e) then base else e
      case _ => e
  }

  /** The rightmost operand is a name with a bracket that could hold type arguments. */
  ghost predicate EndsLikeTypeArgs(level: nat, e: Expr)
    decreases e
  {
    level <= ExprLevel(e) &&
    match e
    case Binary(op, _, rhs) => EndsLikeTypeArgs(OpPrecedence(op) + 1, rhs)
    case Unary(_, operand) => EndsLikeTypeArgs(UnaryLevel, operand)
    case AddrOf(operand) => EndsLikeTypeArgs(UnaryLevel, operand)
    case Deref(operand) => EndsLikeTypeArgs(UnaryLevel, operand)
    case _ => LikeTypeArgs(e)
  }

  /** The same tokens, before a body, as a notation of the expression without that bracket. */
  lemma {:induction false} DroppedForm(level: nat, e: Expr) returns (f: Form)
    requires Printable(true, e) && level <= PostfixLevel
    ensures Fits(true, true, level, f) && Meaning(f) == Dropped(level, e)
    ensures forall rest :: Text(f, rest) == Text(Print(level, e), rest)
    decreases e
  {
    hide HoldsTypes, Shaped, OpPrecedence;
    if level > ExprLevel(e) {
      f := Print(level, e);
      PrintFits(true, level, e);
      ParenOpen(f);
    } else if e.Binary? {
      var rhs := DroppedForm(OpPrecedence(e.op) + 1, e.rhs);
      f := DroppedInfix(level, e, rhs);
    } else if e.Unary? || e.AddrOf? || e.Deref? {
      var operand := DroppedForm(UnaryLevel, e.operand);
      f := DroppedPrefix(level, e, operand);
    } else {
      f := DroppedBracket(level, e);
    }
  }

  lemma DroppedInfix(level: nat, e: Expr, rhs: Form) returns (f: Form)
    requires Printable(true, e) && e.Binary? && level <= ExprLevel(e)
    requires Fits(true, true, OpPrecedence(e.op) + 1, rhs) && Meaning(rhs) == Dropped(OpPrecedence(e.op) + 1, e.rhs)
    requires forall rest :: Text(rhs, rest) == Text(Print(OpPrecedence(e.op) + 1, e.rhs), rest)
    ensures Fits(true, true, level, f) && Meaning(f) == Dropped(level, e)
    ensures forall rest :: Text(f, rest) == Text(Print(level, e), rest)
  {
    hide HoldsTypes, Shaped, OpPrecedence;
    PrintFits(true, OpPrecedence(e.op), e.lhs);
    f := Infix(e.op, Print(OpPrecedence(e.op), e.lhs), rhs);
    InfixOpen(f);
  }

  lemma DroppedPrefix(level: nat, e: Expr, operand: Form) returns (f: Form)
    requires Printable(true, e) && (e.Unary? || e.AddrOf? || e.Deref?) && level <= ExprLevel(e)
    requires Fits(true, true, UnaryLevel, operand) && Meaning(operand) == Dropped(UnaryLevel, e.operand)
    requires forall rest :: Text(operand, rest) == Text(Print(UnaryLevel, e.operand), rest)
    ensures Fits(true, true, level, f) && Meaning(f) == Dropped(level, e)
    ensures forall rest :: Text(f, rest) == Text(Print(level, e), rest)
  {
    hide HoldsTypes, Shaped, OpPrecedence;
    f := Prefix(PrintBare(e).token, operand);
    PrefixOpen(f);
  }

  lemma ParenOpen(f: Form)
    requires f.Paren? && Shaped(true, false, f)
    ensures Shaped(true, true, f)
  {
  }

  lemma InfixOpen(f: Form)
    requires f.Infix? && Fits(true, false, OpPrecedence(f.op), f.lhs) && Fits(true, true, OpPrecedence(f.op) + 1, f.rhs)
    ensures Shaped(true, true, f)
  {
  }

  lemma PrefixOpen(f: Form)
    requires f.Prefix? && f.token in PREFIXES && Fits(true, true, UnaryLevel, f.operand)
    ensures Shaped(true, true, f)
  {
  }

  lemma DroppedBracket(level: nat, e: Expr) returns (f: Form)
    requires Printable(true, e) && level <= ExprLevel(e)
    requires !e.Binary? && !e.Unary? && !e.AddrOf? && !e.Deref?
    ensures Fits(true, true, level, f) && Meaning(f) == Dropped(level, e)
    ensures forall rest :: Text(f, rest) == Text(Print(level, e), rest)
  {
    PrintFits(true, level, e);
    f := PrintBare(e);
    if LikeTypeArgs(e) {
      PrintedName(e.base);
      var content := if f.Bracket? then Text(f.index, [RBracket]) else RangeContent(f.lo, f.hi);
      var types: seq<TypeForm> :| types != [] && ShapedTypes(types) && TypesText(types, [RBracket]) == content;
      var g := Name(e.base.name, types);
      hide HoldsTypes;
      forall rest ensures Text(g, rest) == Text(f, rest) {
        SameBracket(f, types, rest);
      }
      f := g;
    } else {
      OpensUnlikeTypes(e);
    }
  }

  lemma PrintedName(e: Expr)
    ensures if e.Var? then Print(PostfixLevel, e) == Name(e.name, []) else !Print(PostfixLevel, e).Name?
  {
  }

  lemma OpensUnlikeTypes(e: Expr)
    requires Shaped(true, false, PrintBare(e)) && !LikeTypeArgs(e)
    requires !e.Binary? && !e.Unary? && !e.AddrOf? && !e.Deref?
    ensures Shaped(true, true, PrintBare(e))
  {
    hide HoldsTypes;
    if e.Index? || e.Slice? {
      PrintedName(e.base);
    }
  }

  lemma SameBracket(f: Form, types: seq<TypeForm>, rest: seq<Token>)
    requires (f.Bracket? || f.Range?) && f.base.Name? && f.base.dropped == [] && types != []
    requires TypesText(types, [RBracket]) == if f.Bracket? then Text(f.index, [RBracket]) else RangeContent(f.lo, f.hi)
    ensures Text(Name(f.base.name, types), rest) == Text(f, rest)
  {
    TypesAppend(types, [RBracket], rest);
    if f.Bracket? {
      FormAppend(f.index, [RBracket], rest);
    } else {
      ContentAppend(f.lo, f.hi, rest);
    }
  }

  /** In the header of a `for` or `switch`, before the body, the parser reads the expression without
      such a bracket: `a[i] {` as `a`, `-a[i] {` as `-a`. */
  lemma HeaderReads(e: Expr, body: seq<Token>)
    requires Printable(true, e)
    ensures ParseExpr(true, ExprTokens(e) + ([LBrace] + body)) == Parsed(Dropped(0, e), [LBrace] + body)
  {
    hide Print, ParseExpr, Printable, Dropped, Shaped, Meaning, Text;
    var rest := [LBrace] + body;
    PrintedText(true, e, rest);
    var f := DroppedForm(0, e);
    FormReads(true, f, rest);
  }

  lemma {:induction false} DroppedIsOther(level: nat, e: Expr)
    ensures Dropped(level, e) != e <==> EndsLikeTypeArgs(level, e)
    decreases e
  {
    hide LikeTypeArgs;
    if level <= ExprLevel(e) {
      if e.Binary? {
        DroppedIsOther(OpPrecedence(e.op) + 1, e.rhs);
      } else if e.Unary? || e.AddrOf? || e.Deref? {
        DroppedIsOther(UnaryLevel, e.operand);
      } else if e.Index? || e.Slice? {
        BaseIsOther(e);
      } else {
        OnlyBrackets(e);
      }
    }
  }

  lemma BaseIsOther(e: Expr)
    requires e.Index? || e.Slice?
    ensures e.base != e
  {
    assert e.base < e;
  }

  lemma OnlyBrackets(e: Expr)
    requires !e.Index? && !e.Slice?
    ensures !LikeTypeArgs(e)
  {
  }

  /** A header expression is read back exactly when it holds no struct literal and does not end in a
      name with a bracket that could hold type arguments. */
  lemma HeaderReadBack(e: Expr, body: seq<Token>)
    requires Printable(false, e)
    ensures ParseExpr(true, ExprTokens(e) + ([LBrace] + body)) == Parsed(e, [LBrace] + body)
      <==> Printable(true, e) && !EndsLikeTypeArgs(0, e)
  {
    hide Print, ParseExpr, Printable, Dropped, EndsLikeTypeArgs, Shaped, Meaning, Text;
    var all := ExprTokens(e) + ([LBrace] + body);
    if Printable(true, e) {
      HeaderReads(e, body);
      DroppedIsOther(0, e);
    } else if ParseExpr(true, all) == Parsed(e, [LBrace] + body) {
      var f := SubexprAccepted(true, all);
      MeaningPrintable(true, true, f);
    }
  }
}
