/** What the lexer accepts is a notation of the token it returns, and what it skips are blanks and
    comments. */
module LexAccepts {
  import opened Decimals
  import opened Wrappers
  import opened Tokens
  import opened Lexing
  import opened LexRoundTrip

  /** A string literal that the end of the source cuts off, and which is accepted all the same. */
  predicate CutOff(text: string, t: Token) {
    t.StrTok? && text != "" && text[0] == '"' && TextSpells(text[1..], t.text)
  }

  /** A token is written between two positions, in one of its notations. */
  predicate Written(src: string, pos: nat, end: nat, t: Token)
    requires pos <= end <= |src|
  {
    Spells(src[pos..end], t) || (end == |src| && CutOff(src[pos..end], t))
  }

  /** The token read at a position is written there, in one of its notations. */
  lemma ReadIsSpelled(src: string, pos: nat)
    requires pos < |src| && Read(src, pos).Lexed? && !Read(src, pos).value.FloatTok?
    ensures Written(src, pos, Read(src, pos).end, Read(src, pos).value)
  {
    hide ReadNumber, ReadString, ReadOperator, WordToken, Spells, CutOff;
    if IsWordStart(src[pos]) {
      var end := RunEnd(src, pos + 1, IsWordPart);
      WordIsSpelled(src[pos..end]);
    } else if IsDigit(src[pos]) {
      NumberIsSpelled(src, pos);
    } else if src[pos] == '"' {
      StringIsSpelled(src, pos);
    } else {
      OperatorIsSpelled(src, pos);
    }
  }

  lemma WordIsSpelled(word: string)
    requires IsWord(word)
    ensures Spells(word, WordToken(word))
  {
    hide IsWord, SymbolText;
    if word in KEYWORDS {
      KeywordIsSpelled(word);
    } else {
      NoKeyword(word);
    }
  }

  lemma KeywordIsSpelled(word: string)
    requires word in KEYWORDS
    ensures KeywordText(WordToken(word)) == word && word != ""
  {
  }

  lemma NumberIsSpelled(src: string, pos: nat)
    requires pos < |src| && IsDigit(src[pos]) && ReadNumber(src, pos).Lexed? && !ReadNumber(src, pos).value.FloatTok?
    ensures Spells(src[pos..ReadNumber(src, pos).end], ReadNumber(src, pos).value)
  {
    if src[pos] == '0' && pos + 1 < |src| && (src[pos + 1] == 'x' || src[pos + 1] == 'X') {
      var end := RunEnd(src, pos + 2, IsHexDigit);
      var digits, text := src[pos + 2..end], src[pos..end];
      HexDigitsSpell(digits);
      assert text[2..] == digits && text[0] == '0' && text[1] == src[pos + 1];
    } else {
      var digits := src[pos..RunEnd(src, pos, IsDigit)];
      DigitsSpell(digits);
    }
  }

  lemma {:induction false} DigitsSpell(digits: string)
    requires digits != "" && forall i :: 0 <= i < |digits| ==> IsDigit(digits[i])
    ensures DecimalSpells(digits, Value(digits, 10))
    decreases |digits|
  {
    var front, last := digits[..|digits| - 1], digits[|digits| - 1];
    DigitIs(last);
    hide Digit, DigitValue, IsDigit;
    assert Value(digits, 10) == Value(front, 10) * 10 + DigitValue(last);
    if |digits| > 1 {
      DigitsSpell(front);
      hide DecimalSpells, Value;
      DecimalSpellsMore(front, Value(front, 10), last, DigitValue(last));
      assert front + [last] == digits;
    } else {
      assert front == "";
    }
  }

  lemma DecimalSpellsMore(front: string, n: nat, c: char, d: nat)
    requires DecimalSpells(front, n) && d < 10 && c == Digit(d)
    ensures DecimalSpells(front + [c], n * 10 + d)
  {
    DivideBack(n, 10, d);
    hide Digit;
    assert (front + [c])[..|front|] == front;
  }

  lemma DivideBack(n: nat, base: nat, d: nat)
    requires d < base && (base == 10 || base == 16)
    ensures (n * base + d) / base == n && (n * base + d) % base == d
  {
  }

  lemma DigitIs(c: char)
    requires IsDigit(c)
    ensures DigitValue(c) < 10 && Digit(DigitValue(c)) == c
  {
    assert DigitValue(c) in {0, 1, 2, 3, 4, 5, 6, 7, 8, 9};
  }

  lemma {:induction false} HexDigitsSpell(digits: string)
    requires digits != "" && forall i :: 0 <= i < |digits| ==> IsHexDigit(digits[i])
    ensures HexSpells(digits, Value(digits, 16))
    decreases |digits|
  {
    hide HexDigitSpells, DigitValue, IsHexDigit, Value, HexSpells;
    var front, last := digits[..|digits| - 1], digits[|digits| - 1];
    HexDigitIs(last);
    ValueOfMore(digits);
    if |digits| > 1 {
      HexDigitsSpell(front);
      HexSpellsMore(front, Value(front, 16), last, DigitValue(last));
      assert front + [last] == digits;
    } else {
      OneHexDigit(digits);
    }
  }

  lemma ValueOfMore(digits: string)
    requires digits != ""
    ensures Value(digits, 16) == Value(digits[..|digits| - 1], 16) * 16 + DigitValue(digits[|digits| - 1])
    ensures Value("", 16) == 0
  {
    hide DigitValue;
  }

  lemma OneHexDigit(digits: string)
    requires |digits| == 1 && IsHexDigit(digits[0])
    ensures HexSpells(digits, Value(digits, 16))
  {
    HexDigitIs(digits[0]);
    hide HexDigitSpells, DigitValue;
    assert digits[..0] == "" && Value("", 16) == 0;
    assert Value(digits, 16) == DigitValue(digits[0]);
  }

  lemma HexSpellsMore(front: string, n: nat, c: char, d: nat)
    requires HexSpells(front, n) && HexDigitSpells(c, d) && d < 16
    ensures HexSpells(front + [c], n * 16 + d)
  {
    DivideBack(n, 16, d);
    hide HexDigitSpells;
    assert (front + [c])[..|front|] == front;
  }

  lemma HexDigitIs(c: char)
    requires IsHexDigit(c)
    ensures HexDigitSpells(c, DigitValue(c)) && DigitValue(c) < 16
  {
    assert DigitValue(c) in {0, 1, 2, 3, 4, 5, 6, 7, 8, 9, 10, 11, 12, 13, 14, 15};
  }

  lemma StringIsSpelled(src: string, pos: nat)
    requires pos < |src| && src[pos] == '"' && ReadString(src, pos + 1, pos).Lexed?
    ensures Written(src, pos, ReadString(src, pos + 1, pos).end, StrTok(ReadString(src, pos + 1, pos).value))
  {
    var r := ReadString(src, pos + 1, pos);
    var closed := BodyIsSpelled(src, pos + 1, pos);
    hide ReadString, TextSpells;
    StringWritten(src, pos, r.end, r.value, closed);
  }

  lemma StringWritten(src: string, pos: nat, end: nat, s: string, closed: bool)
    requires pos < end <= |src| && src[pos] == '"'
    requires if closed then pos + 1 < end && src[end - 1] == '"' && TextSpells(src[pos + 1..end - 1], s)
             else end == |src| && TextSpells(src[pos + 1..end], s)
    ensures Written(src, pos, end, StrTok(s))
  {
    hide TextSpells;
    var text := src[pos..end];
    assert text[0] == src[pos] && text[|text| - 1] == src[end - 1];
    assert forall i :: 0 <= i < |text| ==> text[i] == src[pos + i];
    if closed {
      var body := text[1..|text| - 1];
      assert |body| == end - pos - 2 && forall i :: 0 <= i < |body| ==> body[i] == src[pos + 1 + i];
      assert body == src[pos + 1..end - 1];
    } else {
      assert text[1..] == src[pos + 1..end];
    }
  }

  lemma {:induction false} BodyIsSpelled(src: string, pos: nat, start: nat) returns (closed: bool)
    requires pos <= |src| && ReadString(src, pos, start).Lexed?
    ensures var r := ReadString(src, pos, start);
      if closed then pos < r.end && src[r.end - 1] == '"' && TextSpells(src[pos..r.end - 1], r.value)
      else r.end == |src| && TextSpells(src[pos..r.end], r.value)
    decreases |src| - pos
  {
    var r := ReadString(src, pos, start);
    if pos == |src| || src[pos] == '"' {
      BodyEnds(src, pos, start);
      closed := pos < |src|;
    } else {
      var n := if src[pos] == '\\' then 2 else 1;
      var c := ReadOne(src, pos, n, start);
      hide ReadString, TextSpells;
      closed := BodyIsSpelled(src, pos + n, start);
      var rest := ReadString(src, pos + n, start);
      BodyGrows(src, pos, n, if closed then rest.end - 1 else rest.end, c, rest.value);
    }
  }

  lemma BodyEnds(src: string, pos: nat, start: nat)
    requires pos <= |src| && (pos < |src| ==> src[pos] == '"')
    ensures var r := ReadString(src, pos, start);
      r == Lexed("", if pos < |src| then pos + 1 else pos) && TextSpells(src[pos..pos], "")
  {
  }

  lemma ReadOne(src: string, pos: nat, n: nat, start: nat) returns (c: char)
    requires pos < |src| && src[pos] != '"' && ReadString(src, pos, start).Lexed?
    requires n == if src[pos] == '\\' then 2 else 1
    ensures pos + n <= |src| && ReadString(src, pos + n, start).Lexed?
    ensures var rest := ReadString(src, pos + n, start);
            ReadString(src, pos, start) == Lexed([c] + rest.value, rest.end)
    ensures if n == 2 then src[pos] == '\\' && Escapes(src[pos + 1], c)
            else n == 1 && src[pos] == c && c !in {'"', '\n', '\\'}
  {
    c := ReadString(src, pos, start).value[0];
  }

  lemma BodyGrows(src: string, pos: nat, n: nat, end: nat, c: char, text: string)
    requires pos + n <= end <= |src| && TextSpells(src[pos + n..end], text)
    requires if n == 2 then src[pos] == '\\' && Escapes(src[pos + 1], c)
             else n == 1 && src[pos] == c && c !in {'"', '\n', '\\'}
    ensures TextSpells(src[pos..end], [c] + text)
  {
    var body := src[pos..end];
    assert body[n..] == src[pos + n..end] && ([c] + text)[1..] == text;
    assert body[0] == src[pos] && (n == 2 ==> body[1] == src[pos + 1]);
  }

  lemma OperatorIsSpelled(src: string, pos: nat)
    requires pos < |src| && ReadOperator(src, pos).Lexed?
    ensures Spells(src[pos..ReadOperator(src, pos).end], ReadOperator(src, pos).value)
  {
    var r := ReadOperator(src, pos);
    var text := src[pos..r.end];
    assert |text| == r.end - pos && forall i :: 0 <= i < |text| ==> text[i] == src[pos + i];
    if r.value == Ellipsis && r.end == pos + 3 {
      assert text == "...";
    } else if pos + 1 < |src| && Pair(src[pos], src[pos + 1]).Some? {
      PairText(src[pos], src[pos + 1]);
      assert text == [src[pos], src[pos + 1]];
    } else {
      SingleText(src[pos]);
      assert text == [src[pos]];
    }
  }

  lemma PairText(a: char, b: char)
    requires Pair(a, b).Some?
    ensures Spells([a, b], Pair(a, b).value)
  {
  }

  lemma SingleText(c: char)
    requires Single(c).Some?
    ensures Spells([c], Single(c).value)
  {
  }

  /** What is skipped are blanks and comments; at the end of the source the newline of a line comment
      may be missing. After it, neither starts. */
  lemma {:induction false} SkippedIsGaps(src: string, pos: nat) returns (gaps: seq<Gap>, open: string)
    requires pos <= |src| && Skip(src, pos).Lexed?
    ensures ValidGaps(gaps) && Settled(src, Skip(src, pos).end)
    ensures src[pos..Skip(src, pos).end] == GapsText(gaps) + open
    ensures open != "" ==> Skip(src, pos).end == |src| && |open| >= 2 && open[..2] == "//" && '\n' !in open
    decreases |src| - pos
  {
    var end := Skip(src, pos).end;
    if Settled(src, pos) {
      SettledSkips(src, pos);
      gaps, open := [], "";
    } else if UnfinishedLine(src, pos) {
      LineIsOne(src, pos);
      gaps, open := [], src[pos..];
      assert open[..2] == "//";
    } else {
      var g, next := FirstGap(src, pos);
      hide Skip, ValidGap, Settled;
      gaps, open := SkippedIsGaps(src, next);
      gaps := Earlier(src, pos, g, next, end, gaps, open);
    }
  }

  predicate UnfinishedLine(src: string, pos: nat)
    requires pos <= |src|
  {
    pos + 1 < |src| && src[pos] == '/' && src[pos + 1] == '/' && LineEnd(src, pos) == |src|
  }

  /** The first blank or comment of those skipped. */
  lemma FirstGap(src: string, pos: nat) returns (g: Gap, next: nat)
    requires pos <= |src| && Skip(src, pos).Lexed? && !Settled(src, pos) && !UnfinishedLine(src, pos)
    ensures pos < next <= |src| && Skip(src, next) == Skip(src, pos)
    ensures ValidGap(g) && src[pos..next] == GapText(g)
  {
    if IsBlank(src[pos]) {
      g, next := Blank(src[pos]), pos + 1;
    } else {
      assert src[pos..pos + 2] == [src[pos], src[pos + 1]];
      if src[pos + 1] == '/' {
        g, next := FirstLine(src, pos);
      } else {
        g, next := FirstBlock(src, pos);
      }
    }
  }

  lemma FirstLine(src: string, pos: nat) returns (g: Gap, next: nat)
    requires pos + 1 < |src| && src[pos] == '/' && src[pos + 1] == '/' && !UnfinishedLine(src, pos)
    ensures pos < next <= |src| && Skip(src, next) == Skip(src, pos)
    ensures ValidGap(g) && src[pos..next] == GapText(g)
  {
    LineIsOne(src, pos);
    var stop := LineEnd(src, pos);
    var text := src[pos + 2..stop];
    g, next := LineComment(text), stop + 1;
    assert Skip(src, pos) == Skip(src, stop) == Skip(src, stop + 1);
    assert src[pos..stop + 1] == "//" + text + "\n";
  }

  lemma FirstBlock(src: string, pos: nat) returns (g: Gap, next: nat)
    requires pos + 1 < |src| && src[pos] == '/' && src[pos + 1] == '*' && Skip(src, pos).Lexed?
    ensures pos < next <= |src| && Skip(src, next) == Skip(src, pos)
    ensures ValidGap(g) && src[pos..next] == GapText(g)
  {
    next := BlockEnd(src, pos + 2).value;
    BlockIsOne(src, pos + 2);
    var text := src[pos + 2..next - 2];
    g := BlockComment(text);
    assert Skip(src, pos) == Skip(src, next);
    hide Skip;
    assert src[pos..next] == "/*" + text + "*/";
    assert text + "*/" == src[pos + 2..next];
  }

  lemma Earlier(src: string, pos: nat, g: Gap, next: nat, end: nat, gaps: seq<Gap>, open: string)
      returns (all: seq<Gap>)
    requires pos <= next <= end <= |src| && ValidGap(g) && ValidGaps(gaps)
    requires src[pos..next] == GapText(g) && src[next..end] == GapsText(gaps) + open
    ensures ValidGaps(all) && src[pos..end] == GapsText(all) + open
  {
    hide ValidGap, GapText;
    all := [g] + gaps;
    assert all[1..] == gaps;
    assert src[pos..end] == src[pos..next] + src[next..end];
    assert GapText(g) + (GapsText(gaps) + open) == GapText(g) + GapsText(gaps) + open;
  }

  lemma {:induction false} LineIsOne(src: string, pos: nat)
    requires pos <= |src|
    ensures var end := LineEnd(src, pos);
            (forall i :: pos <= i < end ==> src[i] != '\n') && (end < |src| ==> src[end] == '\n')
    decreases |src| - pos
  {
    if pos < |src| && src[pos] != '\n' {
      LineIsOne(src, pos + 1);
    }
  }

  lemma {:induction false} BlockIsOne(src: string, pos: nat)
    requires pos <= |src| && BlockEnd(src, pos).Some?
    ensures var end := BlockEnd(src, pos).value;
      src[end - 2] == '*' && src[end - 1] == '/'
      && forall i :: pos <= i < end - 2 ==> !(src[i] == '*' && src[i + 1] == '/')
    decreases |src| - pos
  {
    if !(src[pos] == '*' && src[pos + 1] == '/') {
      BlockIsOne(src, pos + 1);
    }
  }
}
