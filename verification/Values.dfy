/** The values of integer, bool and enum type, and the arithmetic that the lowered code and the
    source semantics share. A number is its bit pattern together with its type. */
module Values {
  import opened Ast
  import opened Wrappers

  type Enums = map<string, seq<EnumVariant>>

  /** In an enum value, a payload of `None` is all zero bits. */
  datatype Value =
    | Num(ty: Type, bits: nat)
    | EnumVal(enum: string, tag: nat, payload: Option<Value>)

  function IntegerWidth(t: Type): Option<nat> {
    match t
    case Bool => Some(1)
    case U8 => Some(8)
    case U16 => Some(16)
    case Int => Some(32)
    case U32 => Some(32)
    case U64 => Some(64)
    case _ => None
  }

  predicate IsUnsigned(t: Type) {
    t == U8 || t == U16 || t == U32 || t == U64
  }

  predicate IsInteger(t: Type) {
    t == Int || IsUnsigned(t)
  }

  predicate IsArithmetic(op: BinOp) {
    op in {Add, Sub, Mul, Div, Mod, BitAnd, BitOr, BitXor, Shl, Shr}
  }

  /** The type in which two integers are combined. */
  function CommonInteger(left: Type, right: Type): Type {
    var l := IntegerWidth(left);
    var r := IntegerWidth(right);
    var lw := if l.Some? then l.value else 32;
    var rw := if r.Some? then r.value else 32;
    var width := if lw >= rw then lw else rw;
    if !IsUnsigned(left) && !IsUnsigned(right) then Int
    else if width <= 8 then U8
    else if width <= 16 then U16
    else if width <= 32 then U32
    else U64
  }

  function Modulus(t: Type): (m: nat)
    ensures m > 0
  {
    match t
    case Bool => 2
    case U8 => 0x100
    case U16 => 0x1_0000
    case U64 => 0x1_0000_0000_0000_0000
    case _ => 0x1_0000_0000
  }

  function TypeOfValue(v: Value): Type {
    match v
    case Num(ty, _) => ty
    case EnumVal(enum, _, _) => Named(enum)
  }

  /** A value of type `t`, with no bit beyond its width. */
  predicate Typed(v: Value, t: Type) {
    TypeOfValue(v) == t && (v.Num? ==> IntegerWidth(t).Some? && v.bits < Modulus(t))
  }

  function Truth(b: bool): Value {
    Num(Bool, if b then 1 else 0)
  }

  function Number(n: int): Value {
    Num(Int, n % Modulus(Int))
  }

  /** The signed reading of a bit pattern. */
  function Signed(bits: nat): int {
    if bits < 0x8000_0000 then bits else bits as int - 0x1_0000_0000
  }

  /** All bits zero. */
  function Zero(enums: Enums, t: Type): Option<Value> {
    if IntegerWidth(t).Some? then Some(Num(t, 0))
    else if t.Named? && t.name in enums then Some(EnumVal(t.name, 0, None))
    else None
  }

  /** An implicit conversion: numbers are cut off or extended with zeros. */
  function Convert(v: Value, t: Type): (r: Option<Value>)
    ensures r.Some? ==> Typed(r.value, t)
  {
    match v
    case Num(_, bits) => if IntegerWidth(t).Some? then Some(Num(t, bits % Modulus(t))) else None
    case EnumVal(enum, _, _) => if t == Named(enum) then Some(v) else None
  }

  function ConvertAll(vs: seq<Value>, ts: seq<Type>): Option<seq<Value>> {
    if |vs| != |ts| then None
    else if vs == [] then Some([])
    else
      var first := Convert(vs[0], ts[0]);
      var rest := ConvertAll(vs[1..], ts[1..]);
      if first.Some? && rest.Some? then Some([first.value] + rest.value) else None
  }

  /** The conversions that are allowed to be implicit. */
  predicate Coercible(source: Type, target: Type) {
    source == target ||
    (IntegerWidth(source).Some? && IntegerWidth(target).Some? && target != Bool &&
     (var s := IntegerWidth(source).value; var t := IntegerWidth(target).value;
      s <= t || t >= 32 || s <= 32))
  }

  function Quotient(a: int, b: int): int
    requires b != 0
  {
    var q := (if a < 0 then -a else a) / (if b < 0 then -b else b);
    if (a < 0) == (b < 0) then q else -q
  }

  /** A binary operation in the type `t`. Division by zero and signed overflow of a division are
      undefined; so are shifts by the width or more. */
  function Arith(op: BinOp, t: Type, a: nat, b: nat): Option<Value> {
    var m := Modulus(t);
    var sa := if t == Int && a < m then Signed(a) else a;
    var sb := if t == Int && b < m then Signed(b) else b;
    match op
    case Add => Some(Num(t, (a + b) % m))
    case Sub => Some(Num(t, (a - b) % m))
    case Mul => Some(Num(t, (a * b) % m))
    case Div => if sb == 0 || (t == Int && sb == -1 && sa == -0x8000_0000) then None else Some(Num(t, Quotient(sa, sb) % m))
    case Mod => if sb == 0 || (t == Int && sb == -1 && sa == -0x8000_0000) then None else Some(Num(t, (sa - sb * Quotient(sa, sb)) % m))
    case Eq => Some(Truth(a == b))
    case Ne => Some(Truth(a != b))
    case Lt => Some(Truth(sa < sb))
    case Gt => Some(Truth(sa > sb))
    case Le => Some(Truth(sa <= sb))
    case Ge => Some(Truth(sa >= sb))
    case BitAnd => Some(Num(t, Bitwise(op, a, b) % m))
    case BitOr => Some(Num(t, Bitwise(op, a, b) % m))
    case BitXor => Some(Num(t, Bitwise(op, a, b) % m))
    case Shl => Shift(op, t, a, b)
    case Shr => Shift(op, t, a, b)
    case _ => None
  }

  function Bitwise(op: BinOp, a: nat, b: nat): nat
    decreases a + b
  {
    if a == 0 && b == 0 then 0
    else
      var x := a % 2 == 1;
      var y := b % 2 == 1;
      var bit := match op case BitAnd => x && y case BitOr => x || y case _ => x != y;
      2 * Bitwise(op, a / 2, b / 2) + (if bit then 1 else 0)
  }

  function Shift(op: BinOp, t: Type, a: nat, count: nat): Option<Value> {
    if count >= (if IntegerWidth(t).Some? then IntegerWidth(t).value else 0) then None
    else if op == Shl then Some(Num(t, ShiftLeft(a, count) % Modulus(t)))
    else Some(Num(t, ShiftRight(a, count) % Modulus(t)))
  }

  function ShiftLeft(a: nat, count: nat): nat
    decreases count
  {
    if count == 0 then a else ShiftLeft(2 * a, count - 1)
  }

  function ShiftRight(a: nat, count: nat): nat
    decreases count
  {
    if count == 0 then a else ShiftRight(a / 2, count - 1)
  }

  /** A binary operator applied to two values in the type `t`. */
  function ApplyBinary(op: BinOp, t: Type, a: Value, b: Value): Option<Value> {
    if !a.Num? || !b.Num? then None
    else if op == And then if a.ty == Bool && b.ty == Bool then Some(Truth(a.bits == 1 && b.bits == 1)) else None
    else if op == Or then if a.ty == Bool && b.ty == Bool then Some(Truth(a.bits == 1 || b.bits == 1)) else None
    else if op == Eq || op == Ne || (IsInteger(a.ty) && IsInteger(b.ty)) then Arith(op, t, a.bits, b.bits)
    else None
  }

  function ApplyUnary(op: UnOp, v: Value): Option<Value> {
    if !v.Num? then None
    else match op
      case Not => if v.ty == Bool then Some(Truth(v.bits != 1)) else None
      case Neg => if IsInteger(v.ty) then Some(Num(v.ty, (0 - v.bits) % Modulus(v.ty))) else None
      case BitNot => if IsInteger(v.ty) then Some(Num(v.ty, (-1 - v.bits) % Modulus(v.ty))) else None
  }

  /** What a switch binds: the payload read back as a value of type `t`. */
  function PayloadOf(enums: Enums, v: Value, t: Type): Option<Value> {
    if !v.EnumVal? then None
    else if v.payload.None? then Zero(enums, t)
    else Convert(v.payload.value, t)
  }

  // ---------------------------------------------------------------------------
  // Calls and their effects
  // ---------------------------------------------------------------------------

  datatype Event = Event(callee: string, args: seq<Value>)

  datatype Signature = Signature(params: seq<Type>, ret: Type)

  /** What a function body can refer to. `reply` stands for everything outside the function: it
      answers a call from the calls made so far. */
  datatype Context = Context(
    enums: Enums, signatures: map<string, Signature>, reply: seq<Event> -> Value)

  /** A call that returns nothing leaves a number behind. */
  function Concrete(t: Type): Type {
    if t == Void then Int else t
  }

  /** The result of a call that returns nothing is the number 0. */
  function Answer(cx: Context, sig: Signature, trace: seq<Event>): Option<Value> {
    if sig.ret == Void then Some(Number(0)) else Convert(cx.reply(trace), sig.ret)
  }

  function VariantIndex(variants: seq<EnumVariant>, name: string): (r: Option<nat>)
    ensures r.Some? ==> r.value < |variants| && variants[r.value].name == name
    ensures r.Some? ==> forall i | 0 <= i < r.value :: variants[i].name != name
    ensures r.None? ==> forall i | 0 <= i < |variants| :: variants[i].name != name
  {
    if variants == [] then None
    else if variants[0].name == name then Some(0)
    else
      var rest := VariantIndex(variants[1..], name);
      if rest.Some? then Some(rest.value + 1) else None
  }
}
