/** The text of a form before some tokens is its own text, and then those tokens. */
module TextAppend {
  import opened Wrappers
  import opened Tokens
  import opened Notations

  lemma Assoc(front: seq<Token>, a: seq<Token>, b: seq<Token>)
    ensures front + (a + b) == (front + a) + b
  {
  }

  lemma {:induction false} TypeAppend(t: TypeForm, a: seq<Token>, b: seq<Token>)
    ensures TypeText(t, a + b) == TypeText(t, a) + b
    decreases t, 1
  {
    hide TypesText, RetText;
    match t
    case Word(name) => Assoc([Ident(name)], a, b);
    case Instance(template, args) =>
      Assoc([RBracket], a, b);
      TypesAppend(args, [RBracket] + a, b);
      Assoc([Ident(template), LBracket], TypesText(args, [RBracket] + a), b);
    case ArrayForm(length, element) =>
      TypeAppend(element, a, b);
      Assoc([LBracket, IntTok(length), RBracket], TypeText(element, a), b);
    case PtrForm(pointee) =>
      TypeAppend(pointee, a, b);
      Assoc([Star], TypeText(pointee, a), b);
    case FnForm(params, ret) =>
      RetAppend(ret, a, b);
      Assoc([RParen], RetText(ret, a), b);
      TypesAppend(params, [RParen] + RetText(ret, a), b);
      Assoc([KwFn, LParen], TypesText(params, [RParen] + RetText(ret, a)), b);
    case TupleForm(elements) =>
      Assoc([RParen], a, b);
      TypesAppend(elements, [RParen] + a, b);
      Assoc([LParen], TypesText(elements, [RParen] + a), b);
  }

  lemma {:induction false} RetAppend(ret: Option<TypeForm>, a: seq<Token>, b: seq<Token>)
    ensures RetText(ret, a + b) == RetText(ret, a) + b
    decreases ret, 0
  {
    if ret.Some? {
      TypeAppend(ret.value, a, b);
      Assoc([Arrow], TypeText(ret.value, a), b);
    }
  }

  lemma {:induction false} TypesAppend(ts: seq<TypeForm>, a: seq<Token>, b: seq<Token>)
    ensures TypesText(ts, a + b) == TypesText(ts, a) + b
    decreases ts, 0
  {
    hide TypeText;
    if |ts| == 1 {
      TypeAppend(ts[0], a, b);
    } else if |ts| > 1 {
      TypesAppend(ts[1..], a, b);
      Assoc([Comma], TypesText(ts[1..], a), b);
      TypeAppend(ts[0], [Comma] + TypesText(ts[1..], a), b);
    }
  }

  lemma TypeArgsAppend(ts: seq<TypeForm>, a: seq<Token>, b: seq<Token>)
    ensures TypeArgsText(ts, a + b) == TypeArgsText(ts, a) + b
  {
    if ts != [] {
      Assoc([RBracket], a, b);
      TypesAppend(ts, [RBracket] + a, b);
      Assoc([LBracket], TypesText(ts, [RBracket] + a), b);
    }
  }

  lemma {:induction false} FormAppend(f: Form, a: seq<Token>, b: seq<Token>)
    ensures Text(f, a + b) == Text(f, a) + b
    decreases f, 1
  {
    hide TypeText, FormsText, InitsText, TypeArgsText, OptionText;
    match f
    case Lit(token) => Assoc([token], a, b);
    case Name(name, dropped) =>
      TypeArgsAppend(dropped, a, b);
      Assoc([Ident(name)], TypeArgsText(dropped, a), b);
    case Paren(inner) =>
      Assoc([RParen], a, b);
      FormAppend(inner, [RParen] + a, b);
      Assoc([LParen], Text(inner, [RParen] + a), b);
    case Infix(op, lhs, rhs) =>
      FormAppend(rhs, a, b);
      Assoc([OpToken(op)], Text(rhs, a), b);
      FormAppend(lhs, [OpToken(op)] + Text(rhs, a), b);
    case Prefix(token, operand) =>
      FormAppend(operand, a, b);
      Assoc([token], Text(operand, a), b);
    case CastForm(operand, target) =>
      TypeAppend(target, a, b);
      Assoc([KwAs], TypeText(target, a), b);
      FormAppend(operand, [KwAs] + TypeText(target, a), b);
    case Member(base, field) =>
      Assoc([Dot, Ident(field)], a, b);
      FormAppend(base, [Dot, Ident(field)] + a, b);
    case Bracket(base, index) =>
      Assoc([RBracket], a, b);
      FormAppend(index, [RBracket] + a, b);
      Assoc([LBracket], Text(index, [RBracket] + a), b);
      FormAppend(base, [LBracket] + Text(index, [RBracket] + a), b);
    case Range(_, _, _) => RangeAppend(f, a, b);
    case _ => CallAppend(f, a, b);
  }

  lemma {:induction false} RangeAppend(f: Form, a: seq<Token>, b: seq<Token>)
    requires f.Range?
    ensures Text(f, a + b) == Text(f, a) + b
    decreases f, 0
  {
    var end := OptionText(f.hi, [RBracket] + a);
    Assoc([RBracket], a, b);
    OptionAppend(f.hi, [RBracket] + a, b);
    Assoc([Colon], end, b);
    OptionAppend(f.lo, [Colon] + end, b);
    Assoc([LBracket], OptionText(f.lo, [Colon] + end), b);
    FormAppend(f.base, [LBracket] + OptionText(f.lo, [Colon] + end), b);
  }

  lemma {:induction false} OptionAppend(o: Option<Form>, a: seq<Token>, b: seq<Token>)
    ensures OptionText(o, a + b) == OptionText(o, a) + b
    decreases o, 0
  {
    hide Text;
    if o.Some? {
      FormAppend(o.value, a, b);
    }
  }

  lemma {:induction false} CallAppend(f: Form, a: seq<Token>, b: seq<Token>)
    requires f.MethodForm? || f.CallForm? || f.StructForm? || f.ListForm? || f.TupleExprForm?
    ensures Text(f, a + b) == Text(f, a) + b
    decreases f, 0
  {
    hide FormsText, InitsText, TypeArgsText;
    match f
    case MethodForm(receiver, name, typeArgs, args) =>
      var inner := [LParen] + FormsText(args, [RParen] + a);
      ArgsAppend(LParen, RParen, args, a, b);
      TypeArgsAppend(typeArgs, inner, b);
      Assoc([Dot, Ident(name)], TypeArgsText(typeArgs, inner), b);
      FormAppend(receiver, [Dot, Ident(name)] + TypeArgsText(typeArgs, inner), b);
    case CallForm(callee, typeArgs, args) =>
      var inner := [LParen] + FormsText(args, [RParen] + a);
      ArgsAppend(LParen, RParen, args, a, b);
      TypeArgsAppend(typeArgs, inner, b);
      Assoc([Ident(callee)], TypeArgsText(typeArgs, inner), b);
    case StructForm(name, typeArgs, fields) =>
      var inner := [LBrace] + InitsText(fields, [RBrace] + a);
      Assoc([RBrace], a, b);
      InitsAppend(fields, [RBrace] + a, b);
      Assoc([LBrace], InitsText(fields, [RBrace] + a), b);
      TypeArgsAppend(typeArgs, inner, b);
      Assoc([Ident(name)], TypeArgsText(typeArgs, inner), b);
    case ListForm(values) => ArgsAppend(LBracket, RBracket, values, a, b);
    case TupleExprForm(values) => ArgsAppend(LParen, RParen, values, a, b);
  }

  lemma {:induction false} ArgsAppend(open: Token, close: Token, fs: seq<Form>, a: seq<Token>, b: seq<Token>)
    ensures [open] + FormsText(fs, [close] + (a + b)) == ([open] + FormsText(fs, [close] + a)) + b
    decreases fs, 1
  {
    Assoc([close], a, b);
    FormsAppend(fs, [close] + a, b);
    Assoc([open], FormsText(fs, [close] + a), b);
  }

  lemma {:induction false} FormsAppend(fs: seq<Form>, a: seq<Token>, b: seq<Token>)
    ensures FormsText(fs, a + b) == FormsText(fs, a) + b
    decreases fs, 0
  {
    hide Text;
    if |fs| == 1 {
      FormAppend(fs[0], a, b);
    } else if |fs| > 1 {
      FormsAppend(fs[1..], a, b);
      Assoc([Comma], FormsText(fs[1..], a), b);
      FormAppend(fs[0], [Comma] + FormsText(fs[1..], a), b);
    }
  }

  lemma {:induction false} InitsAppend(fields: seq<InitForm>, a: seq<Token>, b: seq<Token>)
    ensures InitsText(fields, a + b) == InitsText(fields, a) + b
    decreases fields, 0
  {
    hide InitText;
    if |fields| == 1 {
      InitAppend(fields[0], a, b);
    } else if |fields| > 1 {
      InitsAppend(fields[1..], a, b);
      Assoc([Comma], InitsText(fields[1..], a), b);
      InitAppend(fields[0], [Comma] + InitsText(fields[1..], a), b);
    }
  }

  lemma {:induction false} InitAppend(field: InitForm, a: seq<Token>, b: seq<Token>)
    ensures InitText(field, a + b) == InitText(field, a) + b
    decreases field, 0
  {
    hide Text;
    FormAppend(field.value, a, b);
    Assoc([Ident(field.name), Colon], Text(field.value, a), b);
  }
}
