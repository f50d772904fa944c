/** The expressions that have a notation, and one notation of each: with the parentheses that precedence
    demands and no others. */
module Printer {
  import opened Ast
  import opened Wrappers
  import opened Tokens
  import opened Notations

  // ---------------------------------------------------------------------------
  // Types
  // ---------------------------------------------------------------------------

  function BasicName(t: Type): string {
    match t
    case Int => "int"
    case Float => "float"
    case Bool => "bool"
    case Str => "str"
    case U8 => "u8"
    case U16 => "u16"
    case U32 => "u32"
    case U64 => "u64"
    case _ => "void"
  }

  /** The types that have a notation: a tuple has at least two elements, a generic type at least
      one argument, and no basic type is spelled by a name. */
  predicate PrintableType(t: Type)
    decreases t, 1
  {
    match t
    case Array(element, _) => PrintableType(element)
    case Ptr(pointee) => PrintableType(pointee)
    case Fn(params, ret) => PrintableTypes(params) && PrintableType(ret)
    case Tuple(elements) => |elements| >= 2 && PrintableTypes(elements)
    case Named(name) => name !in BASIC_TYPES
    case Applied(name, args) => name !in BASIC_TYPES && |args| >= 1 && PrintableTypes(args)
    case _ => true
  }

  predicate PrintableTypes(ts: seq<Type>)
    decreases ts, 0
  {
    ts == [] || (PrintableType(ts[0]) && PrintableTypes(ts[1..]))
  }

  function PrintType(t: Type): TypeForm
    decreases t, 1
  {
    match t
    case Array(element, length) => ArrayForm(length, PrintType(element))
    case Ptr(pointee) => PtrForm(PrintType(pointee))
    case Fn(params, ret) => FnForm(PrintTypes(params), Some(PrintType(ret)))
    case Tuple(elements) => TupleForm(PrintTypes(elements))
    case Named(name) => Word(name)
    case Applied(name, args) => Instance(name, PrintTypes(args))
    case _ => Word(BasicName(t))
  }

  function PrintTypes(ts: seq<Type>): (r: seq<TypeForm>)
    ensures |r| == |ts|
    decreases ts, 0
  {
    if ts == [] then [] else [PrintType(ts[0])] + PrintTypes(ts[1..])
  }

  lemma {:induction false} TypeFormFits(t: Type)
    requires PrintableType(t)
    ensures ShapedType(PrintType(t)) && TypeOf(PrintType(t)) == t
    decreases t, 1
  {
    hide ShapedTypes, TypesOf, PrintableTypes, PrintTypes;
    match t
    case Array(element, _) => TypeFormFits(element);
    case Ptr(pointee) => TypeFormFits(pointee);
    case Fn(params, ret) =>
      TypeFormsFit(params);
      TypeFormFits(ret);
    case Tuple(elements) => TypeFormsFit(elements);
    case Named(_) =>
    case Applied(_, args) => TypeFormsFit(args);
    case _ => BasicFits(t);
  }

  lemma BasicFits(t: Type)
    requires t.Int? || t.Float? || t.Bool? || t.Str? || t.U8? || t.U16? || t.U32? || t.U64? || t.Void?
    ensures BasicName(t) in BASIC_TYPES && BASIC_TYPES[BasicName(t)] == t
  {
  }

  lemma {:induction false} TypeFormsFit(ts: seq<Type>)
    requires PrintableTypes(ts)
    ensures ShapedTypes(PrintTypes(ts)) && TypesOf(PrintTypes(ts)) == ts
    decreases ts, 0
  {
    hide ShapedType, TypeOf, PrintType, PrintableType;
    if ts != [] {
      TypeFormFits(ts[0]);
      TypeFormsFit(ts[1..]);
      assert PrintTypes(ts)[1..] == PrintTypes(ts[1..]);
    }
  }

  lemma {:induction false} TypeOfPrintable(t: TypeForm)
    requires ShapedType(t)
    ensures PrintableType(TypeOf(t))
    decreases t, 1
  {
    hide ShapedTypes, TypesOf, PrintableTypes;
    match t
    case Word(name) => WordPrintable(name);
    case Instance(_, args) => TypesOfPrintable(args);
    case ArrayForm(_, element) => TypeOfPrintable(element);
    case PtrForm(pointee) => TypeOfPrintable(pointee);
    case FnForm(params, ret) =>
      TypesOfPrintable(params);
      if ret.Some? {
        TypeOfPrintable(ret.value);
      }
    case TupleForm(elements) => TypesOfPrintable(elements);
  }

  lemma WordPrintable(name: string)
    ensures PrintableType(TypeOf(Word(name)))
  {
  }

  lemma {:induction false} TypesOfPrintable(ts: seq<TypeForm>)
    requires ShapedTypes(ts)
    ensures PrintableTypes(TypesOf(ts))
    decreases ts, 0
  {
    hide ShapedType, TypeOf, PrintableType;
    if ts != [] {
      TypeOfPrintable(ts[0]);
      TypesOfPrintable(ts[1..]);
      assert TypesOf(ts)[1..] == TypesOf(ts[1..]);
    }
  }

  // ---------------------------------------------------------------------------
  // Expressions
  // ---------------------------------------------------------------------------

  /** The expressions that have a notation: literals are not negative, tuples have at least two
      components, and the types in them can be written. Struct literals have none in a header. */
  predicate Printable(bare: bool, e: Expr)
    decreases e, 1
  {
    match e
    case IntLit(value) => value >= 0
    case Binary(_, lhs, rhs) => Printable(bare, lhs) && Printable(bare, rhs)
    case Unary(_, operand) => Printable(bare, operand)
    case AddrOf(operand) => Printable(bare, operand)
    case Deref(operand) => Printable(bare, operand)
    case Cast(operand, target) => Printable(bare, operand) && PrintableType(target)
    case Field(base, _) => Printable(bare, base)
    case Index(base, index) => Printable(bare, base) && Printable(bare, index)
    case Slice(base, lo, hi) =>
      Printable(bare, base) && (lo.Some? ==> Printable(bare, lo.value)) && (hi.Some? ==> Printable(bare, hi.value))
    case MethodCall(receiver, _, typeArgs, args) =>
      Printable(bare, receiver) && PrintableTypes(typeArgs) && AllPrintable(bare, args)
    case Call(_, typeArgs, args) => PrintableTypes(typeArgs) && AllPrintable(bare, args)
    case StructInit(_, typeArgs, fields) => !bare && PrintableTypes(typeArgs) && PrintableFields(bare, fields)
    case ArrayLit(values) => AllPrintable(bare, values)
    case TupleLit(values) => |values| >= 2 && AllPrintable(bare, values)
    case _ => true
  }

  predicate AllPrintable(bare: bool, es: seq<Expr>)
    decreases es, 0
  {
    es == [] || (Printable(bare, es[0]) && AllPrintable(bare, es[1..]))
  }

  predicate PrintableFields(bare: bool, fields: seq<FieldInit>)
    decreases fields, 0
  {
    fields == [] || (PrintableField(bare, fields[0]) && PrintableFields(bare, fields[1..]))
  }

  predicate PrintableField(bare: bool, field: FieldInit)
    decreases field, 0
  {
    Printable(bare, field.value)
  }

  /** The level of an expression where it is printed. A cast ends in a type, which might swallow a
      following `[`, so it is put in parentheses before a postfix construct. */
  function ExprLevel(e: Expr): nat {
    match e
    case Binary(op, _, _) => OpPrecedence(op)
    case Unary(_, _) => UnaryLevel
    case AddrOf(_) => UnaryLevel
    case Deref(_) => UnaryLevel
    case Cast(_, _) => UnaryLevel
    case _ => PostfixLevel
  }

  /** The expression where at least `level` is wanted, in parentheses if it binds less tightly. */
  function Print(level: nat, e: Expr): Form
    decreases e, 2
  {
    if level <= ExprLevel(e) then PrintBare(e) else Paren(PrintBare(e))
  }

  function PrintBare(e: Expr): Form
    decreases e, 1
  {
    match e
    case IntLit(value) => Lit(IntTok(if value >= 0 then value else 0))
    case FloatLit(decimal) => Lit(FloatTok(decimal))
    case BoolLit(truth) => Lit(if truth then KwTrue else KwFalse)
    case StrLit(text) => Lit(StrTok(text))
    case Var(name) => Name(name, [])
    case Binary(op, lhs, rhs) => Infix(op, Print(OpPrecedence(op), lhs), Print(OpPrecedence(op) + 1, rhs))
    case Unary(op, operand) =>
      Prefix(if op.Neg? then Minus else if op.Not? then Bang else Tilde, Print(UnaryLevel, operand))
    case AddrOf(operand) => Prefix(Amp, Print(UnaryLevel, operand))
    case Deref(operand) => Prefix(Star, Print(UnaryLevel, operand))
    case Cast(operand, target) => CastForm(Print(PostfixLevel, operand), PrintType(target))
    case Field(base, field) => Member(Print(PostfixLevel, base), field)
    case Index(base, index) => Bracket(Print(PostfixLevel, base), Print(0, index))
    case Slice(base, lo, hi) =>
      Range(Print(PostfixLevel, base), if lo.None? then None else Some(Print(0, lo.value)),
            if hi.None? then None else Some(Print(0, hi.value)))
    case MethodCall(receiver, name, typeArgs, args) =>
      MethodForm(Print(PostfixLevel, receiver), name, PrintTypes(typeArgs), PrintAll(args))
    case Call(callee, typeArgs, args) => CallForm(callee, PrintTypes(typeArgs), PrintAll(args))
    case StructInit(name, typeArgs, fields) => StructForm(name, PrintTypes(typeArgs), PrintFields(fields))
    case ArrayLit(values) => ListForm(PrintAll(values))
    case TupleLit(values) => TupleExprForm(PrintAll(values))
  }

  function PrintAll(es: seq<Expr>): (r: seq<Form>)
    ensures |r| == |es|
    decreases es, 0
  {
    if es == [] then [] else [Print(0, es[0])] + PrintAll(es[1..])
  }

  function PrintFields(fields: seq<FieldInit>): (r: seq<InitForm>)
    ensures |r| == |fields|
    decreases fields, 0
  {
    if fields == [] then [] else [PrintField(fields[0])] + PrintFields(fields[1..])
  }

  function PrintField(field: FieldInit): InitForm
    decreases field, 0
  {
    InitForm(field.name, Print(0, field.value))
  }

  /** What is printed is a notation of the expression. */
  lemma {:induction false} PrintFits(bare: bool, level: nat, e: Expr)
    requires Printable(bare, e) && level <= PostfixLevel
    ensures Fits(bare, false, level, Print(level, e)) && Meaning(Print(level, e)) == e
    decreases e, 2
  {
    hide PrintBare, Printable, OpPrecedence;
    BareFits(bare, e);
    BareLevel(e);
    hide Level, ExprLevel;
    if level > ExprLevel(e) {
      ParenFits(bare, PrintBare(e));
    }
  }

  lemma BareLevel(e: Expr)
    ensures Level(PrintBare(e)) >= ExprLevel(e)
  {
  }

  lemma ParenFits(bare: bool, f: Form)
    requires Shaped(bare, false, f)
    ensures Fits(bare, false, PostfixLevel, Paren(f)) && Meaning(Paren(f)) == Meaning(f)
  {
  }

  lemma {:induction false} BareFits(bare: bool, e: Expr)
    requires Printable(bare, e)
    ensures Shaped(bare, false, PrintBare(e)) && Meaning(PrintBare(e)) == e
    decreases e, 1
  {
    hide Print, Fits, PrintAll, PrintFields, PrintTypes, TypesOf, Meanings, InitMeanings, AllShaped, InitsShaped,
      ShapedTypes, AllPrintable, PrintableFields, PrintableTypes, HoldsTypes;
    if e.Binary? {
      PrintFits(bare, OpPrecedence(e.op), e.lhs);
      PrintFits(bare, OpPrecedence(e.op) + 1, e.rhs);
    } else if e.Unary? || e.AddrOf? || e.Deref? {
      PrintFits(bare, UnaryLevel, e.operand);
    } else if e.Cast? {
      PrintFits(bare, PostfixLevel, e.operand);
      TypeFormFits(e.target);
    } else if e.Field? {
      PrintFits(bare, PostfixLevel, e.base);
    } else if e.Index? {
      PrintFits(bare, PostfixLevel, e.base);
      PrintFits(bare, 0, e.index);
      NoCast(e.base);
      FitsIsShaped(bare, 0, Print(0, e.index));
    } else if e.Slice? {
      SliceFits(bare, e);
    } else {
      CallFits(bare, e);
    }
  }

  lemma FitsIsShaped(bare: bool, level: nat, f: Form)
    requires Fits(bare, false, level, f)
    ensures Shaped(bare, false, f)
  {
  }

  lemma NoCast(e: Expr)
    ensures !Print(PostfixLevel, e).CastForm?
  {
  }

  lemma {:induction false} SliceFits(bare: bool, e: Expr)
    requires e.Slice? && Printable(bare, e)
    ensures Shaped(bare, false, PrintBare(e)) && Meaning(PrintBare(e)) == e
    decreases e, 0
  {
    hide Print, Fits, HoldsTypes;
    PrintFits(bare, PostfixLevel, e.base);
    NoCast(e.base);
    if e.lo.Some? {
      PrintFits(bare, 0, e.lo.value);
      FitsIsShaped(bare, 0, Print(0, e.lo.value));
    }
    if e.hi.Some? {
      PrintFits(bare, 0, e.hi.value);
      FitsIsShaped(bare, 0, Print(0, e.hi.value));
    }
  }

  lemma {:induction false} CallFits(bare: bool, e: Expr)
    requires Printable(bare, e)
    requires !e.Binary? && !e.Unary? && !e.AddrOf? && !e.Deref? && !e.Cast? && !e.Field? && !e.Index? && !e.Slice?
    ensures Shaped(bare, false, PrintBare(e)) && Meaning(PrintBare(e)) == e
    decreases e, 0
  {
    hide Print, Fits, PrintAll, PrintFields, PrintTypes, TypesOf, Meanings, InitMeanings, AllShaped, InitsShaped,
      ShapedTypes, AllPrintable, PrintableFields, PrintableTypes, HoldsTypes;
    if e.MethodCall? {
      PrintFits(bare, PostfixLevel, e.receiver);
      TypeFormsFit(e.typeArgs);
      AllFit(bare, e.args);
    } else if e.Call? {
      TypeFormsFit(e.typeArgs);
      AllFit(bare, e.args);
    } else if e.StructInit? {
      TypeFormsFit(e.typeArgs);
      FieldsFit(bare, e.fields);
    } else if e.ArrayLit? || e.TupleLit? {
      AllFit(bare, e.values);
    }
  }

  lemma {:induction false} AllFit(bare: bool, es: seq<Expr>)
    requires AllPrintable(bare, es)
    ensures AllShaped(bare, PrintAll(es)) && Meanings(PrintAll(es)) == es
    decreases es, 0
  {
    hide Print, Fits, Shaped, Meaning, Printable;
    if es != [] {
      PrintFits(bare, 0, es[0]);
      FitsIsShaped(bare, 0, Print(0, es[0]));
      AllFit(bare, es[1..]);
      assert PrintAll(es)[1..] == PrintAll(es[1..]);
    }
  }

  lemma {:induction false} FieldsFit(bare: bool, fields: seq<FieldInit>)
    requires PrintableFields(bare, fields)
    ensures InitsShaped(bare, PrintFields(fields)) && InitMeanings(PrintFields(fields)) == fields
    decreases fields, 0
  {
    hide Print, Fits, Shaped, Meaning, Printable;
    if fields != [] {
      FieldFits(bare, fields[0]);
      FieldsFit(bare, fields[1..]);
      assert PrintFields(fields)[1..] == PrintFields(fields[1..]);
    }
  }

  lemma {:induction false} FieldFits(bare: bool, field: FieldInit)
    requires PrintableField(bare, field)
    ensures InitShaped(bare, PrintField(field)) && InitMeaning(PrintField(field)) == field
    decreases field, 0
  {
    hide Print, Fits, Shaped, Meaning, Printable;
    PrintFits(bare, 0, field.value);
    FitsIsShaped(bare, 0, Print(0, field.value));
  }

  // ---------------------------------------------------------------------------
  // What has a notation is printable
  // ---------------------------------------------------------------------------

  lemma {:induction false} MeaningPrintable(bare: bool, open: bool, f: Form)
    requires Shaped(bare, open, f)
    ensures Printable(bare, Meaning(f))
    decreases f, 1
  {
    hide TypesOf, Meanings, InitMeanings, AllShaped, InitsShaped, ShapedTypes, AllPrintable, PrintableFields,
      PrintableTypes, HoldsTypes;
    match f
    case Lit(_) =>
    case Name(_, _) =>
    case Paren(inner) => MeaningPrintable(bare, false, inner);
    case Infix(_, lhs, rhs) =>
      MeaningPrintable(bare, false, lhs);
      MeaningPrintable(bare, open, rhs);
    case Prefix(_, operand) => MeaningPrintable(bare, open, operand);
    case CastForm(operand, target) =>
      MeaningPrintable(bare, false, operand);
      TypeOfPrintable(target);
    case Member(base, _) => MeaningPrintable(bare, false, base);
    case Bracket(base, index) =>
      MeaningPrintable(bare, false, base);
      MeaningPrintable(bare, false, index);
    case Range(base, lo, hi) =>
      MeaningPrintable(bare, false, base);
      if lo.Some? {
        MeaningPrintable(bare, false, lo.value);
      }
      if hi.Some? {
        MeaningPrintable(bare, false, hi.value);
      }
    case _ => CallPrintable(bare, open, f);
  }

  lemma {:induction false} CallPrintable(bare: bool, open: bool, f: Form)
    requires f.MethodForm? || f.CallForm? || f.StructForm? || f.ListForm? || f.TupleExprForm?
    requires Shaped(bare, open, f)
    ensures Printable(bare, Meaning(f))
    decreases f, 0
  {
    hide TypesOf, Meanings, InitMeanings, AllShaped, InitsShaped, ShapedTypes, AllPrintable, PrintableFields,
      PrintableTypes;
    match f
    case MethodForm(receiver, _, typeArgs, args) =>
      MeaningPrintable(bare, false, receiver);
      TypesOfPrintable(typeArgs);
      MeaningsPrintable(bare, args);
    case CallForm(_, typeArgs, args) =>
      TypesOfPrintable(typeArgs);
      MeaningsPrintable(bare, args);
    case StructForm(_, typeArgs, fields) =>
      TypesOfPrintable(typeArgs);
      InitsPrintable(bare, fields);
    case ListForm(values) => MeaningsPrintable(bare, values);
    case TupleExprForm(values) => MeaningsPrintable(bare, values);
  }

  lemma {:induction false} MeaningsPrintable(bare: bool, fs: seq<Form>)
    requires AllShaped(bare, fs)
    ensures AllPrintable(bare, Meanings(fs))
    decreases fs, 0
  {
    hide Shaped, Meaning, Printable;
    if fs != [] {
      MeaningPrintable(bare, false, fs[0]);
      MeaningsPrintable(bare, fs[1..]);
      assert Meanings(fs)[1..] == Meanings(fs[1..]);
    }
  }

  lemma {:induction false} InitsPrintable(bare: bool, fields: seq<InitForm>)
    requires InitsShaped(bare, fields)
    ensures PrintableFields(bare, InitMeanings(fields))
    decreases fields, 0
  {
    hide Shaped, Meaning, Printable;
    if fields != [] {
      InitPrintable(bare, fields[0]);
      InitsPrintable(bare, fields[1..]);
      assert InitMeanings(fields)[1..] == InitMeanings(fields[1..]);
    }
  }

  lemma {:induction false} InitPrintable(bare: bool, field: InitForm)
    requires InitShaped(bare, field)
    ensures PrintableField(bare, InitMeaning(field))
    decreases field, 0
  {
    hide Shaped, Meaning, Printable;
    MeaningPrintable(bare, false, field.value);
  }
}
