/** The grammar of types and expressions: what may be written, token by token, and what it means.

    A form is a notation as a tree, with whatever parentheses the writer puts in. Every text takes the
    tokens that follow it (`rest`); TextAppend.dfy shows that it just puts the tokens of the form before
    them. */
module Notations {
  import opened Ast
  import opened Wrappers
  import opened Tokens

  // ---------------------------------------------------------------------------
  // Types
  // ---------------------------------------------------------------------------

  datatype TypeForm =
    | Word(name: string)
    | Instance(template: string, args: seq<TypeForm>)
    | ArrayForm(length: nat, element: TypeForm)
    | PtrForm(pointee: TypeForm)
    | FnForm(params: seq<TypeForm>, ret: Option<TypeForm>)
    | TupleForm(elements: seq<TypeForm>)

  const BASIC_TYPES: map<string, Type> := map[
    "int" := Int, "float" := Float, "bool" := Bool, "str" := Str,
    "u8" := U8, "u16" := U16, "u32" := U32, "u64" := U64, "void" := Void]

  function TypeText(t: TypeForm, rest: seq<Token>): (r: seq<Token>)
    ensures |r| > |rest|
    decreases t, 1
  {
    match t
    case Word(name) => [Ident(name)] + rest
    case Instance(template, args) => [Ident(template), LBracket] + TypesText(args, [RBracket] + rest)
    case ArrayForm(length, element) => [LBracket, IntTok(length), RBracket] + TypeText(element, rest)
    case PtrForm(pointee) => [Star] + TypeText(pointee, rest)
    case FnForm(params, ret) => [KwFn, LParen] + TypesText(params, [RParen] + RetText(ret, rest))
    case TupleForm(elements) => [LParen] + TypesText(elements, [RParen] + rest)
  }

  /** A function that returns nothing may have no arrow. */
  function RetText(ret: Option<TypeForm>, rest: seq<Token>): (r: seq<Token>)
    ensures |r| >= |rest|
    decreases ret, 0
  {
    match ret
    case None => rest
    case Some(t) => [Arrow] + TypeText(t, rest)
  }

  function TypesText(ts: seq<TypeForm>, rest: seq<Token>): (r: seq<Token>)
    ensures |r| >= |rest| + |ts|
    decreases ts, 0
  {
    if |ts| == 0 then rest
    else if |ts| == 1 then TypeText(ts[0], rest)
    else TypeText(ts[0], [Comma] + TypesText(ts[1..], rest))
  }

  /** `[T, U]`, or nothing. */
  function TypeArgsText(ts: seq<TypeForm>, rest: seq<Token>): (r: seq<Token>)
    ensures |r| >= |rest|
  {
    if ts == [] then rest else [LBracket] + TypesText(ts, [RBracket] + rest)
  }

  function TypeOf(t: TypeForm): Type
    decreases t, 1
  {
    match t
    case Word(name) => if name in BASIC_TYPES then BASIC_TYPES[name] else Named(name)
    case Instance(template, args) => Applied(template, TypesOf(args))
    case ArrayForm(length, element) => Array(TypeOf(element), length)
    case PtrForm(pointee) => Ptr(TypeOf(pointee))
    case FnForm(params, ret) => Fn(TypesOf(params), if ret.None? then Void else TypeOf(ret.value))
    case TupleForm(elements) => Tuple(TypesOf(elements))
  }

  function TypesOf(ts: seq<TypeForm>): (r: seq<Type>)
    ensures |r| == |ts|
    decreases ts, 0
  {
    if ts == [] then [] else [TypeOf(ts[0])] + TypesOf(ts[1..])
  }

  /** A tuple has at least two elements, an instance at least one argument, and a basic type has no
      instances. */
  predicate ShapedType(t: TypeForm)
    decreases t, 1
  {
    match t
    case Word(_) => true
    case Instance(template, args) => template !in BASIC_TYPES && args != [] && ShapedTypes(args)
    case ArrayForm(_, element) => ShapedType(element)
    case PtrForm(pointee) => ShapedType(pointee)
    case FnForm(params, ret) => ShapedTypes(params) && (ret.Some? ==> ShapedType(ret.value))
    case TupleForm(elements) => |elements| >= 2 && ShapedTypes(elements)
  }

  predicate ShapedTypes(ts: seq<TypeForm>)
    decreases ts, 0
  {
    ts == [] || (ShapedType(ts[0]) && ShapedTypes(ts[1..]))
  }

  /** A bracket after the type would be taken for type arguments of its last word. */
  predicate EndsInWord(t: TypeForm) {
    match t
    case Word(name) => name !in BASIC_TYPES
    case Instance(_, _) => false
    case ArrayForm(_, element) => EndsInWord(element)
    case PtrForm(pointee) => EndsInWord(pointee)
    case FnForm(_, ret) => ret.Some? && EndsInWord(ret.value)
    case TupleForm(_) => false
  }

  /** An arrow after the type would be taken for that of its last function. */
  predicate EndsWithoutArrow(t: TypeForm) {
    match t
    case ArrayForm(_, element) => EndsWithoutArrow(element)
    case PtrForm(pointee) => EndsWithoutArrow(pointee)
    case FnForm(_, ret) => ret.None? || EndsWithoutArrow(ret.value)
    case _ => false
  }

  // ---------------------------------------------------------------------------
  // Expressions
  // ---------------------------------------------------------------------------

  function OpToken(op: BinOp): Token {
    match op
    case Add => Plus
    case Sub => Minus
    case Mul => Star
    case Div => Slash
    case Mod => Percent
    case Eq => EqEq
    case Ne => NotEq
    case Lt => Less
    case Gt => Greater
    case Le => LessEq
    case Ge => GreaterEq
    case And => AmpAmp
    case Or => PipePipe
    case BitAnd => Amp
    case BitOr => Pipe
    case BitXor => Caret
    case Shl => ShiftLeft
    case Shr => ShiftRight
    case In => KwIn
  }

  /** How tightly an operator binds. */
  function OpPrecedence(op: BinOp): (p: nat)
    ensures 1 <= p <= 9
  {
    if op.Or? then 1
    else if op.And? then 2
    else if op.BitOr? then 3
    else if op.BitXor? then 4
    else if op.BitAnd? then 5
    else if op in {Eq, Ne, Lt, Gt, Le, Ge, In} then 6
    else if op in {Shl, Shr} then 7
    else if op in {Add, Sub} then 8
    else 9
  }

  const UnaryLevel: nat := 10
  const PostfixLevel: nat := 11

  const PREFIXES: set<Token> := {Minus, Bang, Amp, Star, Tilde}

  datatype Form =
    | Lit(token: Token)
    | Name(name: string, dropped: seq<TypeForm>)
    | Paren(inner: Form)
    | Infix(op: BinOp, lhs: Form, rhs: Form)
    | Prefix(token: Token, operand: Form)
    | CastForm(operand: Form, target: TypeForm)
    | Member(base: Form, field: string)
    | Bracket(base: Form, index: Form)
    | Range(base: Form, lo: Option<Form>, hi: Option<Form>)
    | MethodForm(receiver: Form, name: string, typeArgs: seq<TypeForm>, args: seq<Form>)
    | CallForm(callee: string, typeArgs: seq<TypeForm>, args: seq<Form>)
    | StructForm(struct: string, typeArgs: seq<TypeForm>, fields: seq<InitForm>)
    | ListForm(values: seq<Form>)
    | TupleExprForm(values: seq<Form>)

  datatype InitForm = InitForm(name: string, value: Form)

  function Text(f: Form, rest: seq<Token>): (r: seq<Token>)
    ensures |r| > |rest|
    decreases f, 1
  {
    match f
    case Lit(token) => [token] + rest
    case Name(name, dropped) => [Ident(name)] + TypeArgsText(dropped, rest)
    case Paren(inner) => [LParen] + Text(inner, [RParen] + rest)
    case Infix(op, lhs, rhs) => Text(lhs, [OpToken(op)] + Text(rhs, rest))
    case Prefix(token, operand) => [token] + Text(operand, rest)
    case CastForm(operand, target) => Text(operand, [KwAs] + TypeText(target, rest))
    case Member(base, field) => Text(base, [Dot, Ident(field)] + rest)
    case Bracket(base, index) => Text(base, [LBracket] + Text(index, [RBracket] + rest))
    case Range(base, lo, hi) => Text(base, [LBracket] + OptionText(lo, [Colon] + OptionText(hi, [RBracket] + rest)))
    case MethodForm(receiver, name, typeArgs, args) =>
      Text(receiver, [Dot, Ident(name)] + TypeArgsText(typeArgs, [LParen] + FormsText(args, [RParen] + rest)))
    case CallForm(callee, typeArgs, args) =>
      [Ident(callee)] + TypeArgsText(typeArgs, [LParen] + FormsText(args, [RParen] + rest))
    case StructForm(name, typeArgs, fields) =>
      [Ident(name)] + TypeArgsText(typeArgs, [LBrace] + InitsText(fields, [RBrace] + rest))
    case ListForm(values) => [LBracket] + FormsText(values, [RBracket] + rest)
    case TupleExprForm(values) => [LParen] + FormsText(values, [RParen] + rest)
  }

  function OptionText(o: Option<Form>, rest: seq<Token>): (r: seq<Token>)
    ensures |r| >= |rest|
    decreases o, 0
  {
    match o
    case None => rest
    case Some(f) => Text(f, rest)
  }

  function FormsText(fs: seq<Form>, rest: seq<Token>): (r: seq<Token>)
    ensures |r| >= |rest|
    decreases fs, 0
  {
    if |fs| == 0 then rest
    else if |fs| == 1 then Text(fs[0], rest)
    else Text(fs[0], [Comma] + FormsText(fs[1..], rest))
  }

  function InitsText(fields: seq<InitForm>, rest: seq<Token>): (r: seq<Token>)
    ensures |r| >= |rest|
    decreases fields, 0
  {
    if |fields| == 0 then rest
    else InitText(fields[0], if |fields| == 1 then rest else [Comma] + InitsText(fields[1..], rest))
  }

  function InitText(field: InitForm, rest: seq<Token>): (r: seq<Token>)
    ensures |r| > |rest|
    decreases field, 0
  {
    [Ident(field.name), Colon] + Text(field.value, rest)
  }

  // What a form means.

  function LitMeaning(token: Token): Expr {
    match token
    case IntTok(value) => IntLit(value)
    case FloatTok(decimal) => FloatLit(decimal)
    case StrTok(text) => StrLit(text)
    case _ => BoolLit(token.KwTrue?)
  }

  function PrefixMeaning(token: Token, operand: Expr): Expr {
    if token == Amp then AddrOf(operand)
    else if token == Star then Deref(operand)
    else Unary(if token == Minus then Neg else if token == Bang then Not else BitNot, operand)
  }

  function Meaning(f: Form): Expr
    decreases f, 1
  {
    match f
    case Lit(token) => LitMeaning(token)
    case Name(name, _) => Var(name)
    case Paren(inner) => Meaning(inner)
    case Infix(op, lhs, rhs) => Binary(op, Meaning(lhs), Meaning(rhs))
    case Prefix(token, operand) => PrefixMeaning(token, Meaning(operand))
    case CastForm(operand, target) => Cast(Meaning(operand), TypeOf(target))
    case Member(base, field) => Field(Meaning(base), field)
    case Bracket(base, index) => Index(Meaning(base), Meaning(index))
    case Range(base, lo, hi) => Slice(Meaning(base), OptionMeaning(lo), OptionMeaning(hi))
    case MethodForm(receiver, name, typeArgs, args) =>
      MethodCall(Meaning(receiver), name, TypesOf(typeArgs), Meanings(args))
    case CallForm(callee, typeArgs, args) => Call(callee, TypesOf(typeArgs), Meanings(args))
    case StructForm(name, typeArgs, fields) => StructInit(name, TypesOf(typeArgs), InitMeanings(fields))
    case ListForm(values) => ArrayLit(Meanings(values))
    case TupleExprForm(values) => TupleLit(Meanings(values))
  }

  function OptionMeaning(o: Option<Form>): Option<Expr>
    decreases o, 0
  {
    match o
    case None => None
    case Some(f) => Some(Meaning(f))
  }

  function Meanings(fs: seq<Form>): (r: seq<Expr>)
    ensures |r| == |fs|
    decreases fs, 0
  {
    if fs == [] then [] else [Meaning(fs[0])] + Meanings(fs[1..])
  }

  function InitMeanings(fields: seq<InitForm>): (r: seq<FieldInit>)
    ensures |r| == |fields|
    decreases fields, 0
  {
    if fields == [] then [] else [InitMeaning(fields[0])] + InitMeanings(fields[1..])
  }

  function InitMeaning(field: InitForm): FieldInit
    decreases field, 0
  {
    FieldInit(field.name, Meaning(field.value))
  }

  // Which forms may be written.

  /** How tightly the outermost construct binds. */
  function Level(f: Form): nat {
    match f
    case Infix(op, _, _) => OpPrecedence(op)
    case Prefix(_, _) => UnaryLevel
    case _ => PostfixLevel
  }

  /** Operands bind at least as tightly as their construct demands. In a header (`bare`) there are no
      struct literals, and before the body (`open`) a name may have type arguments, which are dropped;
      there a bracket that could hold type arguments is no index. */
  ghost predicate Fits(bare: bool, open: bool, level: nat, f: Form)
    decreases f, 2
  {
    level <= Level(f) && Shaped(bare, open, f)
  }

  ghost predicate Shaped(bare: bool, open: bool, f: Form)
    decreases f, 1
  {
    match f
    case Lit(token) => token.IntTok? || token.FloatTok? || token.StrTok? || token.KwTrue? || token.KwFalse?
    case Name(_, dropped) => dropped == [] || (bare && open && ShapedTypes(dropped))
    case Paren(inner) => Shaped(bare, false, inner)
    case Infix(op, lhs, rhs) =>
      Fits(bare, false, OpPrecedence(op), lhs) && Fits(bare, open, OpPrecedence(op) + 1, rhs)
    case Prefix(token, operand) => token in PREFIXES && Fits(bare, open, UnaryLevel, operand)
    case CastForm(operand, target) => Fits(bare, false, PostfixLevel, operand) && ShapedType(target)
    case Member(base, _) => Fits(bare, false, PostfixLevel, base)
    case Bracket(base, index) =>
      Fits(bare, false, PostfixLevel, base) && TakesBracket(base) && Shaped(bare, false, index)
      && !(open && base.Name? && HoldsTypes(Text(index, [RBracket])))
    case Range(base, lo, hi) =>
      Fits(bare, false, PostfixLevel, base) && TakesBracket(base)
      && (lo.Some? ==> Shaped(bare, false, lo.value)) && (hi.Some? ==> Shaped(bare, false, hi.value))
      && !(open && base.Name? && HoldsTypes(RangeContent(lo, hi)))
    case MethodForm(receiver, _, typeArgs, args) =>
      Fits(bare, false, PostfixLevel, receiver) && ShapedTypes(typeArgs) && AllShaped(bare, args)
    case CallForm(_, typeArgs, args) => ShapedTypes(typeArgs) && AllShaped(bare, args)
    case StructForm(_, typeArgs, fields) => !bare && ShapedTypes(typeArgs) && InitsShaped(bare, fields)
    case ListForm(values) => AllShaped(bare, values)
    case TupleExprForm(values) => |values| >= 2 && AllShaped(bare, values)
  }

  ghost predicate AllShaped(bare: bool, fs: seq<Form>)
    decreases fs, 0
  {
    fs == [] || (Shaped(bare, false, fs[0]) && AllShaped(bare, fs[1..]))
  }

  ghost predicate InitsShaped(bare: bool, fields: seq<InitForm>)
    decreases fields, 0
  {
    fields == [] || (InitShaped(bare, fields[0]) && InitsShaped(bare, fields[1..]))
  }

  ghost predicate InitShaped(bare: bool, field: InitForm)
    decreases field, 0
  {
    Shaped(bare, false, field.value)
  }

  /** After a cast, a bracket belongs to the type if that ends in a name. */
  predicate TakesBracket(base: Form) {
    base.CastForm? ==> !EndsInWord(base.target)
  }

  function RangeContent(lo: Option<Form>, hi: Option<Form>): seq<Token> {
    OptionText(lo, [Colon] + OptionText(hi, [RBracket]))
  }

  /** The content of a bracket, up to and with the `]`, is also a list of types. */
  ghost predicate HoldsTypes(content: seq<Token>) {
    exists ts :: ts != [] && ShapedTypes(ts) && TypesText(ts, [RBracket]) == content
  }
}
