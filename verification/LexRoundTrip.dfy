/** Writing tokens as text, in any notation and with blanks and comments between them, and reading
    them back. */
module LexRoundTrip {
  import opened Decimals
  import opened Wrappers
  import opened Tokens
  import opened Lexing

  // ---------------------------------------------------------------------------
  // Writing
  // ---------------------------------------------------------------------------

  /** The characters that a backslash and a letter stand for. */
  predicate Escapes(letter: char, c: char) {
    (letter, c) in {('n', '\n'), ('t', '\t'), ('r', '\r'), ('\\', '\\'), ('"', '"'), ('0', '\0')}
  }

  /** What may stand for a text between quotes: its characters, escaped or not, but a quote, a
      backslash and a newline only escaped. */
  predicate TextSpells(body: string, text: string)
    decreases |body|
  {
    if text == "" || body == "" then text == body
    else if body[0] == '\\' then |body| > 1 && Escapes(body[1], text[0]) && TextSpells(body[2..], text[1..])
    else body[0] == text[0] && body[0] !in {'"', '\n'} && TextSpells(body[1..], text[1..])
  }

  /** Decimal digits of a number, with any zeros in front. */
  predicate DecimalSpells(digits: string, n: nat)
    decreases |digits|
  {
    digits != "" && digits[|digits| - 1] == Digit(n % 10)
    && if |digits| == 1 then n < 10 else DecimalSpells(digits[..|digits| - 1], n / 10)
  }

  predicate HexDigitSpells(c: char, d: nat) {
    d < 16 && (c == "0123456789abcdef"[d] || c == "0123456789ABCDEF"[d])
  }

  /** The same with hexadecimal digits, small or capital. */
  predicate HexSpells(digits: string, n: nat)
    decreases |digits|
  {
    digits != "" && HexDigitSpells(digits[|digits| - 1], n % 16)
    && if |digits| == 1 then n < 16 else HexSpells(digits[..|digits| - 1], n / 16)
  }

  predicate IntSpells(text: string, n: nat) {
    DecimalSpells(text, n)
    || (|text| > 2 && text[0] == '0' && text[1] in {'x', 'X'} && HexSpells(text[2..], n))
  }

  function KeywordText(t: Token): string {
    match t
    case KwFn => "fn" case KwExtern => "extern" case KwIf => "if" case KwElse => "else"
    case KwReturn => "return" case KwLet => "let" case KwWhile => "while" case KwBreak => "break"
    case KwContinue => "continue" case KwStruct => "struct" case KwEnum => "enum" case KwSwitch => "switch"
    case KwImport => "import" case KwStatic => "static" case KwTrue => "true" case KwFalse => "false"
    case KwFor => "for" case KwIn => "in" case KwAs => "as" case KwDefer => "defer"
    case _ => ""
  }

  function SymbolText(t: Token): string {
    match t
    case Plus => "+" case Minus => "-" case Star => "*" case Slash => "/" case Percent => "%"
    case EqEq => "==" case NotEq => "!=" case Less => "<" case Greater => ">" case LessEq => "<="
    case GreaterEq => ">=" case Equals => "=" case Bang => "!" case Amp => "&" case AmpAmp => "&&"
    case Pipe => "|" case PipePipe => "||" case Caret => "^" case Tilde => "~" case ShiftLeft => "<<"
    case ShiftRight => ">>" case LParen => "(" case RParen => ")" case LBrace => "{" case RBrace => "}"
    case LBracket => "[" case RBracket => "]" case Comma => "," case Semicolon => ";" case Colon => ":"
    case Dot => "." case Ellipsis => "..." case Arrow => "->"
    case _ => ""
  }

  const KEYWORDS: set<string> := {
    "fn", "extern", "if", "else", "return", "let", "while", "break", "continue", "struct",
    "enum", "switch", "import", "static", "true", "false", "for", "in", "as", "defer"}

  /** The notations of a token. Floats and the end of input have none here. Names are words that are no
      keyword, and numbers fit in a signed 64-bit integer. */
  predicate Spells(text: string, t: Token) {
    match t
    case FloatTok(_) => false
    case Eof => false
    case IntTok(value) => value < 0x8000_0000_0000_0000 && IntSpells(text, value)
    case StrTok(s) => |text| >= 2 && text[0] == text[|text| - 1] == '"' && TextSpells(text[1..|text| - 1], s)
    case Ident(name) => text == name && IsWord(name) && name !in KEYWORDS
    case _ => text != "" && (text == KeywordText(t) || text == SymbolText(t))
  }

  predicate IsWord(word: string) {
    word != "" && IsWordStart(word[0]) && forall i :: 0 <= i < |word| ==> IsWordPart(word[i])
  }

  /** What may stand between two tokens. */
  datatype Gap = Blank(c: char) | LineComment(text: string) | BlockComment(text: string)

  predicate ValidGap(g: Gap) {
    match g
    case Blank(c) => IsBlank(c)
    case LineComment(text) => '\n' !in text
    case BlockComment(text) => forall i :: 0 <= i < |text| ==> !(text[i] == '*' && (text + "*/")[i + 1] == '/')
  }

  function GapText(g: Gap): (r: string)
    ensures |r| > 0
  {
    match g
    case Blank(c) => [c]
    case LineComment(text) => "//" + text + "\n"
    case BlockComment(text) => "/*" + text + "*/"
  }

  function GapsText(gaps: seq<Gap>): string {
    if gaps == [] then "" else GapText(gaps[0]) + GapsText(gaps[1..])
  }

  predicate ValidGaps(gaps: seq<Gap>) {
    forall g :: g in gaps ==> ValidGap(g)
  }

  /** A token, how it is written, and what follows it. */
  datatype Piece = Piece(token: Token, text: string, after: seq<Gap>)

  /** After each token but the last there is a blank, and comments only behind it. */
  predicate ValidPieces(pieces: seq<Piece>) {
    pieces == [] ||
      (Spells(pieces[0].text, pieces[0].token) && ValidGaps(pieces[0].after)
       && (if pieces[0].after == [] then |pieces| == 1 else pieces[0].after[0].Blank?)
       && ValidPieces(pieces[1..]))
  }

  function PiecesText(pieces: seq<Piece>): string {
    if pieces == [] then ""
    else pieces[0].text + GapsText(pieces[0].after) + PiecesText(pieces[1..])
  }

  function TokensOf(pieces: seq<Piece>): (r: seq<Token>)
    ensures |r| == |pieces| && forall i :: 0 <= i < |pieces| ==> r[i] == pieces[i].token
  {
    seq(|pieces|, i requires 0 <= i < |pieces| => pieces[i].token)
  }

  // ---------------------------------------------------------------------------
  // Reading back
  // ---------------------------------------------------------------------------

  predicate Sees(src: string, pos: nat, text: string) {
    pos + |text| <= |src| && src[pos..pos + |text|] == text
  }

  /** A token may end here. */
  predicate Breaks(src: string, pos: nat) {
    pos <= |src| && (pos < |src| ==> IsBlank(src[pos]))
  }

  /** No blank and no comment starts here. */
  predicate Settled(src: string, pos: nat) {
    pos <= |src| && (pos < |src| ==> !IsBlank(src[pos]) && !Sees(src, pos, "//") && !Sees(src, pos, "/*"))
  }

  lemma SeesParts(src: string, pos: nat, a: string, b: string)
    requires Sees(src, pos, a + b)
    ensures Sees(src, pos, a) && Sees(src, pos + |a|, b)
  {
    assert src[pos..pos + |a|] == (a + b)[..|a|] == a;
    assert src[pos + |a|..pos + |a| + |b|] == (a + b)[|a|..] == b;
  }

  lemma SeesAt(src: string, pos: nat, text: string)
    requires Sees(src, pos, text)
    ensures forall i :: pos <= i < pos + |text| ==> src[i] == text[i - pos]
  {
    forall i | pos <= i < pos + |text| ensures src[i] == text[i - pos] {
      assert src[i] == src[pos..pos + |text|][i - pos];
    }
  }

  lemma {:induction false} LineEnds(src: string, pos: nat, end: nat)
    requires pos <= end < |src| && src[end] == '\n'
    requires forall i :: pos <= i < end ==> src[i] != '\n'
    ensures LineEnd(src, pos) == end
    decreases end - pos
  {
    if pos < end {
      LineEnds(src, pos + 1, end);
    }
  }

  lemma {:induction false} BlockEnds(src: string, pos: nat, end: nat)
    requires pos <= end && end + 1 < |src| && src[end] == '*' && src[end + 1] == '/'
    requires forall i :: pos <= i < end ==> !(src[i] == '*' && src[i + 1] == '/')
    ensures BlockEnd(src, pos) == Some(end + 2)
    decreases end - pos
  {
    if pos < end {
      BlockEnds(src, pos + 1, end);
    }
  }

  lemma SkipGap(src: string, pos: nat, g: Gap)
    requires Sees(src, pos, GapText(g)) && ValidGap(g)
    ensures Skip(src, pos) == Skip(src, pos + |GapText(g)|)
  {
    SeesAt(src, pos, GapText(g));
    match g
    case Blank(c) =>
      assert src[pos] == c;
    case LineComment(text) =>
      var end := pos + 2 + |text|;
      assert src[pos] == '/' && src[pos + 1] == '/';
      assert src[end] == '\n';
      forall i | pos <= i < end ensures src[i] != '\n' {
        assert i >= pos + 2 ==> src[i] == text[i - pos - 2];
      }
      LineEnds(src, pos, end);
      assert Skip(src, end) == Skip(src, end + 1);
    case BlockComment(text) =>
      var end := pos + 2 + |text|;
      assert src[pos] == '/' && src[pos + 1] == '*';
      var rest := text + "*/";
      assert GapText(g) == "/*" + rest;
      assert src[end] == rest[|text|] && src[end + 1] == rest[|text| + 1];
      forall i | pos + 2 <= i < end ensures !(src[i] == '*' && src[i + 1] == '/') {
        var k := i - pos - 2;
        assert src[i] == rest[k] == text[k] && src[i + 1] == rest[k + 1];
      }
      BlockEnds(src, pos + 2, end);
  }

  lemma {:induction false} SkipGaps(src: string, pos: nat, gaps: seq<Gap>)
    requires Sees(src, pos, GapsText(gaps)) && ValidGaps(gaps)
    requires Settled(src, pos + |GapsText(gaps)|)
    ensures Skip(src, pos) == Lexed((), pos + |GapsText(gaps)|)
    decreases gaps
  {
    hide Skip, GapText, Settled, Sees, ValidGap;
    if gaps == [] {
      SettledSkips(src, pos);
    } else {
      assert GapsText(gaps) == GapText(gaps[0]) + GapsText(gaps[1..]);
      SeesParts(src, pos, GapText(gaps[0]), GapsText(gaps[1..]));
      SkipGap(src, pos, gaps[0]);
      SkipGaps(src, pos + |GapText(gaps[0])|, gaps[1..]);
    }
  }

  lemma SettledSkips(src: string, pos: nat)
    requires Settled(src, pos)
    ensures Skip(src, pos) == Lexed((), pos)
  {
    if pos + 1 < |src| {
      assert src[pos..pos + 2] == [src[pos], src[pos + 1]];
    }
  }

  /** A run ends where its last part is followed by something else. */
  lemma {:induction false} RunEnds(src: string, pos: nat, end: nat, part: char -> bool)
    requires pos <= end <= |src|
    requires forall i :: pos <= i < end ==> part(src[i])
    requires end < |src| ==> !part(src[end])
    ensures RunEnd(src, pos, part) == end
    decreases end - pos
  {
    if pos < end {
      RunEnds(src, pos + 1, end, part);
    }
  }

  lemma ReadWord(src: string, pos: nat, word: string)
    requires Sees(src, pos, word) && IsWord(word) && Breaks(src, pos + |word|)
    ensures Read(src, pos) == Lexed(WordToken(word), pos + |word|)
  {
    SeesAt(src, pos, word);
    assert src[pos] == word[0];
    RunEnds(src, pos + 1, pos + |word|, IsWordPart);
  }

  lemma {:induction false} DecimalValue(digits: string, n: nat)
    requires DecimalSpells(digits, n)
    ensures Value(digits, 10) == n && forall i :: 0 <= i < |digits| ==> IsDigit(digits[i])
    decreases |digits|
  {
    DigitIsValue(n % 10);
    var front := digits[..|digits| - 1];
    if |digits| > 1 {
      DecimalValue(front, n / 10);
    } else {
      assert front == "";
    }
  }

  lemma DigitIsValue(d: nat)
    requires d < 10
    ensures DigitValue(Digit(d)) == d
  {
    assert d in {0, 1, 2, 3, 4, 5, 6, 7, 8, 9};
  }

  lemma {:induction false} HexValue(digits: string, n: nat)
    requires HexSpells(digits, n)
    ensures Value(digits, 16) == n && forall i :: 0 <= i < |digits| ==> IsHexDigit(digits[i])
    decreases |digits|
  {
    HexDigitIsValue(digits[|digits| - 1], n % 16);
    var front := digits[..|digits| - 1];
    hide HexDigitSpells, DigitValue, IsHexDigit;
    if |digits| > 1 {
      HexValue(front, n / 16);
    } else {
      assert front == "";
    }
  }

  lemma HexDigitIsValue(c: char, d: nat)
    requires HexDigitSpells(c, d)
    ensures DigitValue(c) == d && IsHexDigit(c)
  {
    assert d in {0, 1, 2, 3, 4, 5, 6, 7, 8, 9, 10, 11, 12, 13, 14, 15};
  }

  lemma ReadInt(src: string, pos: nat, text: string, value: nat)
    requires Sees(src, pos, text) && Breaks(src, pos + |text|)
    requires IntSpells(text, value) && value < 0x8000_0000_0000_0000
    ensures Read(src, pos) == Lexed(IntTok(value), pos + |text|)
  {
    if DecimalSpells(text, value) {
      ReadDecimal(src, pos, text, value);
    } else {
      ReadHexText(src, pos, text, value);
    }
  }

  lemma ReadDecimal(src: string, pos: nat, digits: string, value: nat)
    requires Sees(src, pos, digits) && Breaks(src, pos + |digits|)
    requires DecimalSpells(digits, value) && value < 0x8000_0000_0000_0000
    ensures Read(src, pos) == Lexed(IntTok(value), pos + |digits|)
  {
    DecimalValue(digits, value);
    hide DecimalSpells, Value;
    SeesAt(src, pos, digits);
    var end := pos + |digits|;
    RunEnds(src, pos, end, IsDigit);
    assert src[pos] == digits[0];
    assert |digits| > 1 ==> src[pos + 1] == digits[1];
    assert src[pos..end] == digits;
  }

  lemma ReadHexText(src: string, pos: nat, text: string, value: nat)
    requires Sees(src, pos, text) && Breaks(src, pos + |text|) && value < 0x8000_0000_0000_0000
    requires |text| > 2 && text[0] == '0' && text[1] in {'x', 'X'} && HexSpells(text[2..], value)
    ensures Read(src, pos) == Lexed(IntTok(value), pos + |text|)
  {
    var digits := text[2..];
    HexValue(digits, value);
    hide HexSpells, Value;
    SeesAt(src, pos, text);
    var end := pos + |text|;
    assert src[pos] == '0' && src[pos + 1] == text[1];
    forall i | pos + 2 <= i < end ensures IsHexDigit(src[i]) {
      assert src[i] == digits[i - pos - 2];
    }
    RunEnds(src, pos + 2, end, IsHexDigit);
    assert src[pos + 2..end] == src[pos..pos + |text|][2..] == digits;
  }

  lemma {:induction false} ReadBody(src: string, pos: nat, body: string, text: string, start: nat)
    requires Sees(src, pos, body + "\"") && TextSpells(body, text)
    ensures ReadString(src, pos, start) == Lexed(text, pos + |body| + 1)
    decreases |body|
  {
    hide ReadString, Sees;
    if body == "" {
      assert body + "\"" == "\"";
      ReadQuote(src, pos, start);
    } else {
      var n := if body[0] == '\\' then 2 else 1;
      var rest := body[n..] + "\"";
      assert body + "\"" == body[..n] + rest;
      SeesParts(src, pos, body[..n], rest);
      ReadChar(src, pos, body[..n], text[0], start);
      ReadBody(src, pos + n, body[n..], text[1..], start);
      assert text == [text[0]] + text[1..];
    }
  }

  lemma ReadQuote(src: string, pos: nat, start: nat)
    requires Sees(src, pos, "\"")
    ensures ReadString(src, pos, start) == Lexed("", pos + 1)
  {
    SeesAt(src, pos, "\"");
  }

  /** One character of a string literal, escaped or not. */
  lemma ReadChar(src: string, pos: nat, spelled: string, c: char, start: nat)
    requires Sees(src, pos, spelled)
    requires if |spelled| == 2 then spelled[0] == '\\' && Escapes(spelled[1], c)
             else spelled == [c] && c !in {'"', '\n', '\\'}
    ensures ReadString(src, pos, start) == Push(c, ReadString(src, pos + |spelled|, start))
  {
    SeesAt(src, pos, spelled);
    assert src[pos] == spelled[0];
    assert |spelled| == 2 ==> src[pos + 1] == spelled[1];
  }

  lemma ReadText(src: string, pos: nat, text: string, s: string)
    requires Sees(src, pos, text) && Spells(text, StrTok(s))
    ensures Read(src, pos) == Lexed(StrTok(s), pos + |text|)
  {
    var body := text[1..|text| - 1];
    assert text == "\"" + (body + "\"");
    SeesParts(src, pos, "\"", body + "\"");
    SeesAt(src, pos, "\"");
    ReadBody(src, pos + 1, body, s, pos);
  }

  lemma NoKeyword(name: string)
    requires name !in KEYWORDS
    ensures WordToken(name) == Ident(name)
  {
  }

  lemma ReadKeyword(src: string, pos: nat, t: Token)
    requires KeywordText(t) != "" && Sees(src, pos, KeywordText(t)) && Breaks(src, pos + |KeywordText(t)|)
    ensures Read(src, pos) == Lexed(t, pos + |KeywordText(t)|)
  {
    KeywordIsWord(t);
    KeywordIsKnown(t);
    hide KeywordText, Read;
    ReadWord(src, pos, KeywordText(t));
  }

  lemma KeywordIsWord(t: Token)
    requires KeywordText(t) != ""
    ensures IsWord(KeywordText(t))
  {
  }

  lemma KeywordIsKnown(t: Token)
    requires KeywordText(t) != ""
    ensures WordToken(KeywordText(t)) == t
  {
    if |KeywordText(t)| <= 3 {
      ShortKeyword(t);
    } else if |KeywordText(t)| <= 5 {
      MiddleKeyword(t);
    } else if |KeywordText(t)| <= 6 {
      LongKeyword(t);
    } else {
      LongestKeyword(t);
    }
    hide KeywordText, WordToken;
  }

  lemma ShortKeyword(t: Token)
    requires 0 < |KeywordText(t)| <= 3
    ensures WordToken(KeywordText(t)) == t
  {
  }

  lemma MiddleKeyword(t: Token)
    requires 3 < |KeywordText(t)| <= 5
    ensures WordToken(KeywordText(t)) == t
  {
  }

  lemma LongKeyword(t: Token)
    requires 5 < |KeywordText(t)| <= 6
    ensures WordToken(KeywordText(t)) == t
  {
  }

  lemma LongestKeyword(t: Token)
    requires |KeywordText(t)| > 6
    ensures WordToken(KeywordText(t)) == t
  {
  }

  lemma ReadSymbol(src: string, pos: nat, t: Token)
    requires SymbolText(t) != "" && Sees(src, pos, SymbolText(t)) && Breaks(src, pos + |SymbolText(t)|)
    ensures Read(src, pos) == Lexed(t, pos + |SymbolText(t)|)
  {
    var text := SymbolText(t);
    SeesAt(src, pos, text);
    assert src[pos] == text[0];
    assert |text| <= 3 && (|text| == 3 ==> t == Ellipsis);
    if |text| == 1 {
      OneSymbol(src, pos, t);
    } else if |text| == 2 {
      TwoSymbols(src, pos, t);
    }
  }

  lemma OneSymbol(src: string, pos: nat, t: Token)
    requires |SymbolText(t)| == 1 && pos < |src| && src[pos] == SymbolText(t)[0] && Breaks(src, pos + 1)
    ensures Read(src, pos) == Lexed(t, pos + 1)
  {
    SymbolIsSingle(t);
  }

  lemma SymbolIsSingle(t: Token)
    requires |SymbolText(t)| == 1
    ensures var c := SymbolText(t)[0];
            Single(c) == Some(t) && !IsWordStart(c) && !IsDigit(c) && c != '"'
            && forall b :: IsBlank(b) ==> Pair(c, b).None?
  {
  }

  lemma TwoSymbols(src: string, pos: nat, t: Token)
    requires |SymbolText(t)| == 2 && Sees(src, pos, SymbolText(t))
    ensures Read(src, pos) == Lexed(t, pos + 2)
  {
    SeesAt(src, pos, SymbolText(t));
    assert src[pos] == SymbolText(t)[0] && src[pos + 1] == SymbolText(t)[1];
    SymbolIsPair(t);
  }

  lemma SymbolIsPair(t: Token)
    requires |SymbolText(t)| == 2
    ensures var c, d := SymbolText(t)[0], SymbolText(t)[1];
            Pair(c, d) == Some(t) && !IsWordStart(c) && !IsDigit(c) && c != '"' && c != '.'
  {
  }

  /** A written token does not start with a blank, nor look like a comment. */
  lemma SpelledIsSettled(src: string, pos: nat, text: string, t: Token)
    requires Spells(text, t) && Sees(src, pos, text) && Breaks(src, pos + |text|)
    ensures Settled(src, pos)
  {
    FirstChar(text, t);
    hide Spells;
    SeesAt(src, pos, text);
    assert src[pos] == text[0];
    if text == "/" {
      assert pos + 2 <= |src| ==> src[pos..pos + 2][1] == src[pos + 1];
    } else {
      assert pos + 2 <= |src| ==> src[pos..pos + 2][0] == src[pos];
    }
  }

  lemma FirstChar(text: string, t: Token)
    requires Spells(text, t)
    ensures text != "" && !IsBlank(text[0]) && (text[0] == '/' ==> text == "/")
  {
    hide KeywordText, SymbolText, TextSpells, HexSpells;
    if t.IntTok? {
      if DecimalSpells(text, t.value) {
        DecimalValue(text, t.value);
      }
    } else if !t.StrTok? && !t.Ident? {
      if text == KeywordText(t) {
        KeywordIsWord(t);
      } else {
        SymbolStart(t);
      }
    }
  }

  lemma SymbolStart(t: Token)
    requires SymbolText(t) != ""
    ensures !IsBlank(SymbolText(t)[0]) && (SymbolText(t)[0] == '/' ==> SymbolText(t) == "/")
  {
  }

  /** Every token that can be written is read back, whatever follows the blank behind it. */
  lemma ReadSpelled(src: string, pos: nat, text: string, t: Token)
    requires Spells(text, t) && Sees(src, pos, text) && Breaks(src, pos + |text|)
    ensures text != "" && t != Eof && Read(src, pos) == Lexed(t, pos + |text|)
  {
    FirstChar(text, t);
    SpelledIsNotEof(text, t);
    hide Read, Sees, Breaks, KeywordText, SymbolText, IntSpells, TextSpells;
    if t.IntTok? {
      ReadInt(src, pos, text, t.value);
    } else if t.StrTok? {
      ReadText(src, pos, text, t.text);
    } else if t.Ident? {
      NoKeyword(t.name);
      ReadWord(src, pos, t.name);
    } else {
      FixedSpelling(text, t);
      hide Spells;
      if text == KeywordText(t) {
        ReadKeyword(src, pos, t);
      } else {
        ReadSymbol(src, pos, t);
      }
    }
  }

  lemma FixedSpelling(text: string, t: Token)
    requires Spells(text, t) && !t.IntTok? && !t.StrTok? && !t.Ident?
    ensures text != "" && (text == KeywordText(t) || text == SymbolText(t))
  {
    hide KeywordText, SymbolText;
  }

  /** What the lexer should find: the tokens where they were written, and the end. */
  function Spots(pieces: seq<Piece>, at: nat): seq<Spot> {
    if pieces == [] then [Spot(Eof, at)]
    else [Spot(pieces[0].token, at)]
         + Spots(pieces[1..], at + |pieces[0].text| + |GapsText(pieces[0].after)|)
  }

  /** Where a token was written, the next one is read. */
  lemma NextPiece(src: string, pos: nat, gaps: seq<Gap>, text: string, t: Token)
    requires Sees(src, pos, GapsText(gaps)) && ValidGaps(gaps) && Spells(text, t)
    requires Sees(src, pos + |GapsText(gaps)|, text) && Breaks(src, pos + |GapsText(gaps)| + |text|)
    ensures var at := pos + |GapsText(gaps)|; Next(src, pos) == Lexed(Spot(t, at), at + |text|)
  {
    hide Skip, Read, Sees, GapsText, Spells, ValidGap, Breaks, Settled;
    var at := pos + |GapsText(gaps)|;
    SpelledIsSettled(src, at, text, t);
    SkipGaps(src, pos, gaps);
    ReadSpelled(src, at, text, t);
  }

  lemma {:induction false} PieceBreaks(src: string, pos: nat, pieces: seq<Piece>)
    requires pieces != [] && ValidPieces(pieces) && Sees(src, pos, PiecesText(pieces))
    requires pos + |PiecesText(pieces)| == |src|
    ensures var at, p := pos + |pieces[0].text|, pieces[0];
            Sees(src, pos, p.text) && Sees(src, at, GapsText(p.after))
            && Sees(src, at + |GapsText(p.after)|, PiecesText(pieces[1..])) && Breaks(src, at)
  {
    hide Spells, Sees, GapsText;
    var p, rest := pieces[0], PiecesText(pieces[1..]);
    var at := pos + |p.text|;
    assert PiecesText(pieces) == p.text + (GapsText(p.after) + rest);
    SeesParts(src, pos, p.text, GapsText(p.after) + rest);
    SeesParts(src, at, GapsText(p.after), rest);
    if p.after == [] {
      NothingAfter(pieces);
    } else {
      GapsBreak(p.after);
      SeesAt(src, at, GapsText(p.after));
    }
  }

  lemma {:induction false} NothingAfter(pieces: seq<Piece>)
    requires |pieces| == 1 && pieces[0].after == []
    ensures |PiecesText(pieces)| == |pieces[0].text| && GapsText(pieces[0].after) == ""
  {
  }

  lemma {:induction false} GapsBreak(gaps: seq<Gap>)
    requires gaps != [] && gaps[0].Blank? && ValidGaps(gaps)
    ensures GapsText(gaps) != "" && IsBlank(GapsText(gaps)[0])
  {
    assert gaps[0] in gaps;
  }

  lemma {:induction false} TokenizePieces(src: string, pos: nat, gaps: seq<Gap>, pieces: seq<Piece>)
    requires ValidGaps(gaps) && ValidPieces(pieces)
    requires Sees(src, pos, GapsText(gaps)) && Sees(src, pos + |GapsText(gaps)|, PiecesText(pieces))
    requires pos + |GapsText(gaps)| + |PiecesText(pieces)| == |src|
    ensures Tokenize(src, pos) == Lexed(Spots(pieces, pos + |GapsText(gaps)|), |src|)
    decreases pieces
  {
    hide Skip, Read, Next, Sees, GapsText, Spells, ValidGap, ValidGaps;
    var at := pos + |GapsText(gaps)|;
    if pieces == [] {
      TokenizeEnd(src, pos, gaps);
    } else {
      var p := pieces[0];
      PieceBreaks(src, at, pieces);
      NextPiece(src, pos, gaps, p.text, p.token);
      PiecesEnd(pieces);
      SpelledIsNotEof(p.text, p.token);
      hide Breaks, ValidPieces;
      TokenizePieces(src, at + |p.text|, p.after, pieces[1..]);
    }
  }

  lemma TokenizeEnd(src: string, pos: nat, gaps: seq<Gap>)
    requires ValidGaps(gaps) && Sees(src, pos, GapsText(gaps)) && pos + |GapsText(gaps)| == |src|
    ensures Tokenize(src, pos) == Lexed([Spot(Eof, |src|)], |src|)
  {
    hide Skip, Read, Sees, GapsText, ValidGap;
    assert Settled(src, |src|);
    SkipGaps(src, pos, gaps);
  }

  lemma {:induction false} PiecesEnd(pieces: seq<Piece>)
    requires pieces != [] && ValidPieces(pieces)
    ensures |PiecesText(pieces)|
            == |pieces[0].text| + |GapsText(pieces[0].after)| + |PiecesText(pieces[1..])|
    ensures ValidPieces(pieces[1..]) && ValidGaps(pieces[0].after) && Spells(pieces[0].text, pieces[0].token)
  {
  }

  lemma SpelledIsNotEof(text: string, t: Token)
    requires Spells(text, t)
    ensures t != Eof
  {
  }

  /** Lexing undoes writing: any list of tokens but floats, each in any of its notations, with blanks
      and comments between them, is read back as it was, each token at the place where it was written,
      and then one Eof. */
  lemma LexUndoesWrite(gaps: seq<Gap>, pieces: seq<Piece>)
    requires ValidGaps(gaps) && ValidPieces(pieces)
    ensures var src := GapsText(gaps) + PiecesText(pieces);
            Tokenize(src, 0) == Lexed(Spots(pieces, |GapsText(gaps)|), |src|)
  {
    hide GapsText, PiecesText, Tokenize, Spots, ValidPieces;
    var src := GapsText(gaps) + PiecesText(pieces);
    assert src[0..0 + |src|] == src;
    SeesParts(src, 0, GapsText(gaps), PiecesText(pieces));
    TokenizePieces(src, 0, gaps, pieces);
  }
}
