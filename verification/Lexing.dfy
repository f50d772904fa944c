/** Lexing as functions of the source text and a position in it. Letters, digits and blanks are the
    ASCII ones. */
module Lexing {
  import opened Wrappers
  import opened Tokens

  const MAX_INT: nat := 0x7fff_ffff_ffff_ffff

  datatype Problem =
    | UnterminatedComment | BadHex(digits: string) | BadInt(digits: string)
    | UnterminatedString | UnterminatedEscape | UnknownEscape(c: char) | UnexpectedCharacter(c: char)

  /** What was read and the position after it, or what is wrong with the token that starts at `at`. */
  datatype Lex<+T> = Lexed(value: T, end: nat) | Bad(problem: Problem, at: nat)

  // ---------------------------------------------------------------------------
  // Characters
  // ---------------------------------------------------------------------------

  predicate IsDigit(c: char) {
    '0' <= c <= '9'
  }

  predicate IsLetter(c: char) {
    'a' <= c <= 'z' || 'A' <= c <= 'Z'
  }

  predicate IsWordStart(c: char) {
    IsLetter(c) || c == '_'
  }

  predicate IsWordPart(c: char) {
    IsLetter(c) || IsDigit(c) || c == '_'
  }

  predicate IsHexDigit(c: char) {
    IsDigit(c) || 'a' <= c <= 'f' || 'A' <= c <= 'F'
  }

  predicate IsBlank(c: char) {
    c == ' ' || 9 <= c as int <= 13
  }

  // ---------------------------------------------------------------------------
  // Blanks and comments
  // ---------------------------------------------------------------------------

  function LineEnd(src: string, pos: nat): (end: nat)
    requires pos <= |src|
    ensures pos <= end <= |src|
    ensures pos < |src| && src[pos] != '\n' ==> pos < end
    decreases |src| - pos
  {
    if pos < |src| && src[pos] != '\n' then LineEnd(src, pos + 1) else pos
  }

  /** Where a block comment ends, from a position inside it. */
  function BlockEnd(src: string, pos: nat): (end: Option<nat>)
    requires pos <= |src|
    ensures end.Some? ==> pos + 2 <= end.value <= |src|
    decreases |src| - pos
  {
    if pos + 1 >= |src| then None
    else if src[pos] == '*' && src[pos + 1] == '/' then Some(pos + 2)
    else BlockEnd(src, pos + 1)
  }

  function Skip(src: string, pos: nat): (r: Lex<()>)
    requires pos <= |src|
    ensures if r.Lexed? then pos <= r.end <= |src| else pos <= r.at < |src|
    decreases |src| - pos
  {
    if pos < |src| && IsBlank(src[pos]) then Skip(src, pos + 1)
    else if pos + 1 < |src| && src[pos] == '/' && src[pos + 1] == '/' then
      Skip(src, LineEnd(src, pos))
    else if pos + 1 < |src| && src[pos] == '/' && src[pos + 1] == '*' then
      var end := BlockEnd(src, pos + 2);
      if end.None? then Bad(UnterminatedComment, pos) else Skip(src, end.value)
    else Lexed((), pos)
  }

  // ---------------------------------------------------------------------------
  // Words and numbers
  // ---------------------------------------------------------------------------

  function RunEnd(src: string, pos: nat, part: char -> bool): (end: nat)
    requires pos <= |src|
    ensures pos <= end <= |src|
    ensures forall i :: pos <= i < end ==> part(src[i])
    ensures end < |src| ==> !part(src[end])
    decreases |src| - pos
  {
    if pos < |src| && part(src[pos]) then RunEnd(src, pos + 1, part) else pos
  }

  function WordToken(word: string): Token {
    if word == "fn" then KwFn
    else if word == "extern" then KwExtern
    else if word == "if" then KwIf
    else if word == "else" then KwElse
    else if word == "return" then KwReturn
    else if word == "let" then KwLet
    else if word == "while" then KwWhile
    else if word == "break" then KwBreak
    else if word == "continue" then KwContinue
    else if word == "struct" then KwStruct
    else if word == "enum" then KwEnum
    else if word == "switch" then KwSwitch
    else if word == "import" then KwImport
    else if word == "static" then KwStatic
    else if word == "true" then KwTrue
    else if word == "false" then KwFalse
    else if word == "for" then KwFor
    else if word == "in" then KwIn
    else if word == "as" then KwAs
    else if word == "defer" then KwDefer
    else Ident(word)
  }

  function DigitValue(c: char): nat {
    if IsDigit(c) then (c as int - '0' as int) as nat
    else if 'a' <= c <= 'f' then (c as int - 'a' as int + 10) as nat
    else if 'A' <= c <= 'F' then (c as int - 'A' as int + 10) as nat
    else 0
  }

  function Value(digits: string, base: nat): nat {
    if digits == "" then 0
    else Value(digits[..|digits| - 1], base) * base + DigitValue(digits[|digits| - 1])
  }

  function TenTo(n: nat): (r: nat)
    ensures r > 0
  {
    if n == 0 then 1 else 10 * TenTo(n - 1)
  }

  function ReadHex(src: string, pos: nat): (r: Lex<Token>)
    requires pos + 2 <= |src|
    ensures if r.Lexed? then pos < r.end <= |src| else r.at == pos
  {
    var end := RunEnd(src, pos + 2, IsHexDigit);
    var digits := src[pos + 2..end];
    if digits == "" || Value(digits, 16) > MAX_INT then Bad(BadHex(digits), pos)
    else Lexed(IntTok(Value(digits, 16)), end)
  }

  function ReadNumber(src: string, pos: nat): (r: Lex<Token>)
    requires pos < |src| && IsDigit(src[pos])
    ensures if r.Lexed? then pos < r.end <= |src| else r.at == pos
  {
    if src[pos] == '0' && pos + 1 < |src| && (src[pos + 1] == 'x' || src[pos + 1] == 'X') then ReadHex(src, pos)
    else
      var end := RunEnd(src, pos, IsDigit);
      var digits := src[pos..end];
      if end + 1 < |src| && src[end] == '.' && IsDigit(src[end + 1]) then
        var last := RunEnd(src, end + 1, IsDigit);
        var decimals := src[end + 1..last];
        Lexed(FloatTok(Value(digits, 10) as real + Value(decimals, 10) as real / TenTo(|decimals|) as real), last)
      else if Value(digits, 10) > MAX_INT then Bad(BadInt(digits), pos)
      else Lexed(IntTok(Value(digits, 10)), end)
  }

  // ---------------------------------------------------------------------------
  // Strings
  // ---------------------------------------------------------------------------

  function Unescape(c: char): Option<char> {
    if c == 'n' then Some('\n')
    else if c == 't' then Some('\t')
    else if c == 'r' then Some('\r')
    else if c == '\\' then Some('\\')
    else if c == '"' then Some('"')
    else if c == '0' then Some('\0')
    else None
  }

  /** The rest of a string literal that starts at `start`. The end of the source closes it too. */
  function ReadString(src: string, pos: nat, start: nat): (r: Lex<string>)
    requires pos <= |src|
    ensures if r.Lexed? then pos <= r.end <= |src| else r.at == start
    decreases |src| - pos
  {
    if pos == |src| then Lexed("", pos)
    else if src[pos] == '"' then Lexed("", pos + 1)
    else if src[pos] == '\n' then Bad(UnterminatedString, start)
    else if src[pos] == '\\' then
      if pos + 1 == |src| then Bad(UnterminatedEscape, start)
      else if Unescape(src[pos + 1]).None? then Bad(UnknownEscape(src[pos + 1]), start)
      else Push(Unescape(src[pos + 1]).value, ReadString(src, pos + 2, start))
    else Push(src[pos], ReadString(src, pos + 1, start))
  }

  function Push(c: char, rest: Lex<string>): Lex<string> {
    if rest.Bad? then rest else Lexed([c] + rest.value, rest.end)
  }

  // ---------------------------------------------------------------------------
  // Operators
  // ---------------------------------------------------------------------------

  function ReadOperator(src: string, pos: nat): (r: Lex<Token>)
    requires pos < |src|
    ensures if r.Lexed? then pos < r.end <= |src| else r.at == pos
  {
    if pos + 2 < |src| && src[pos] == '.' && src[pos + 1] == '.' && src[pos + 2] == '.' then Lexed(Ellipsis, pos + 3)
    else
      var pair := if pos + 1 < |src| then Pair(src[pos], src[pos + 1]) else None;
      if pair.Some? then Lexed(pair.value, pos + 2)
      else
        var single := Single(src[pos]);
        if single.Some? then Lexed(single.value, pos + 1) else Bad(UnexpectedCharacter(src[pos]), pos)
  }

  function Pair(a: char, b: char): Option<Token> {
    if a == '-' && b == '>' then Some(Arrow)
    else if a == '=' && b == '=' then Some(EqEq)
    else if a == '!' && b == '=' then Some(NotEq)
    else if a == '<' && b == '=' then Some(LessEq)
    else if a == '<' && b == '<' then Some(ShiftLeft)
    else if a == '>' && b == '=' then Some(GreaterEq)
    else if a == '>' && b == '>' then Some(ShiftRight)
    else if a == '&' && b == '&' then Some(AmpAmp)
    else if a == '|' && b == '|' then Some(PipePipe)
    else None
  }

  function Single(c: char): Option<Token> {
    match c
    case '+' => Some(Plus)
    case '-' => Some(Minus)
    case '*' => Some(Star)
    case '/' => Some(Slash)
    case '%' => Some(Percent)
    case '=' => Some(Equals)
    case '!' => Some(Bang)
    case '<' => Some(Less)
    case '>' => Some(Greater)
    case '&' => Some(Amp)
    case '|' => Some(Pipe)
    case '^' => Some(Caret)
    case '~' => Some(Tilde)
    case '(' => Some(LParen)
    case ')' => Some(RParen)
    case '{' => Some(LBrace)
    case '}' => Some(RBrace)
    case '[' => Some(LBracket)
    case ']' => Some(RBracket)
    case ',' => Some(Comma)
    case ';' => Some(Semicolon)
    case ':' => Some(Colon)
    case '.' => Some(Dot)
    case _ => None
  }

  // ---------------------------------------------------------------------------
  // Tokens
  // ---------------------------------------------------------------------------

  /** The token that starts at a position. */
  function Read(src: string, pos: nat): (r: Lex<Token>)
    requires pos < |src|
    ensures if r.Lexed? then pos < r.end <= |src| else r.at == pos
  {
    if IsWordStart(src[pos]) then
      var end := RunEnd(src, pos + 1, IsWordPart);
      Lexed(WordToken(src[pos..end]), end)
    else if IsDigit(src[pos]) then ReadNumber(src, pos)
    else if src[pos] == '"' then
      var text := ReadString(src, pos + 1, pos);
      if text.Bad? then Bad(text.problem, text.at) else Lexed(StrTok(text.value), text.end)
    else ReadOperator(src, pos)
  }

  /** A token with the position of its first character. */
  datatype Spot = Spot(kind: Token, start: nat)

  function Next(src: string, pos: nat): (r: Lex<Spot>)
    requires pos <= |src|
    ensures if r.Lexed? then pos <= r.value.start <= r.end <= |src| else pos <= r.at < |src|
    ensures r.Lexed? && r.value.kind != Eof ==> pos < r.end
  {
    var skipped := Skip(src, pos);
    if skipped.Bad? then Bad(skipped.problem, skipped.at)
    else if skipped.end == |src| then Lexed(Spot(Eof, |src|), |src|)
    else
      var token := Read(src, skipped.end);
      if token.Bad? then Bad(token.problem, token.at)
      else
        Lexed(Spot(token.value, skipped.end), token.end)
  }

  /** All tokens from a position on, with the final Eof. */
  function Tokenize(src: string, pos: nat): Lex<seq<Spot>>
    requires pos <= |src|
    decreases |src| - pos
  {
    var first := Next(src, pos);
    if first.Bad? then Bad(first.problem, first.at)
    else if first.value.kind == Eof then Lexed([first.value], first.end)
    else
      var rest := Tokenize(src, first.end);
      if rest.Bad? then rest else Lexed([first.value] + rest.value, rest.end)
  }

  // ---------------------------------------------------------------------------
  // Lines and columns
  // ---------------------------------------------------------------------------

  /** One plus the newlines before the position. */
  function LineAt(src: string, pos: nat): nat
    requires pos <= |src|
  {
    1 + multiset(src[..pos])['\n']
  }

  /** Where the line that a position is on starts. */
  function LineStart(src: string, pos: nat): (start: nat)
    requires pos <= |src|
    ensures start <= pos
    ensures start == 0 || src[start - 1] == '\n'
    ensures forall i :: start <= i < pos ==> src[i] != '\n'
  {
    if pos == 0 || src[pos - 1] == '\n' then pos else LineStart(src, pos - 1)
  }

  /** One plus the characters since the last newline. */
  function ColumnAt(src: string, pos: nat): nat
    requires pos <= |src|
  {
    1 + pos - LineStart(src, pos)
  }
}
