/** The lexer as it runs: a position, a line and a column that move one character at a time. Every
    method is proved to read what the functions of Lexing.dfy say, and the line and the column to be
    those of the position throughout. */
module LexerClass {
  import opened Wrappers
  import opened Tokens
  import opened Lexing

  datatype PlacedToken = PlacedToken(kind: Token, line: nat, col: nat)

  datatype Failure = Failure(problem: Problem, line: nat, col: nat)

  datatype Outcome<T> = Fine(value: T) | Wrong(failure: Failure)

  /** A problem, with the line and the column of the token or comment that has it. */
  function Located<T>(src: string, r: Lex<T>): Failure
    requires r.Bad? && r.at <= |src|
  {
    Failure(r.problem, LineAt(src, r.at), ColumnAt(src, r.at))
  }

  lemma NextLineAndColumn(src: string, pos: nat)
    requires pos < |src|
    ensures LineAt(src, pos + 1) == LineAt(src, pos) + if src[pos] == '\n' then 1 else 0
    ensures ColumnAt(src, pos + 1) == if src[pos] == '\n' then 1 else ColumnAt(src, pos) + 1
  {
    assert src[..pos + 1] == src[..pos] + [src[pos]];
  }

  class Lexer {
    const src: string
    var pos: nat
    var line: nat
    var col: nat

    ghost predicate Valid()
      reads this
    {
      pos <= |src| && line == LineAt(src, pos) && col == ColumnAt(src, pos)
    }

    constructor (src: string)
      ensures Valid() && this.src == src && pos == 0
    {
      this.src := src;
      pos, line, col := 0, 1, 1;
    }

    function Peek(): Option<char>
      reads this
    {
      if pos < |src| then Some(src[pos]) else None
    }

    function Peek2(): Option<char>
      reads this
    {
      if pos + 1 < |src| then Some(src[pos + 1]) else None
    }

    method Advance() returns (c: Option<char>)
      requires Valid()
      modifies this
      ensures Valid() && c == old(Peek()) && pos == old(pos) + if old(pos) < |src| then 1 else 0
    {
      c := Peek();
      if c.Some? {
        NextLineAndColumn(src, pos);
        pos := pos + 1;
        if c.value == '\n' {
          line := line + 1;
          col := 1;
        } else {
          col := col + 1;
        }
      }
    }

    method SkipLine()
      requires Valid()
      modifies this
      ensures Valid() && pos == LineEnd(src, old(pos))
    {
      while pos < |src| && src[pos] != '\n'
        invariant Valid() && LineEnd(src, pos) == LineEnd(src, old(pos))
      {
        var _ := Advance();
      }
    }

    /** Skips to the end of a block comment; at the end of the source there may be none. */
    method SkipBlock() returns (closed: bool)
      requires Valid()
      modifies this
      ensures Valid() && closed == BlockEnd(src, old(pos)).Some?
      ensures closed ==> pos == BlockEnd(src, old(pos)).value
    {
      closed := false;
      while pos + 1 < |src|
        invariant Valid() && BlockEnd(src, pos) == BlockEnd(src, old(pos))
        decreases |src| - pos
      {
        if src[pos] == '*' && src[pos + 1] == '/' {
          var _ := Advance();
          var _ := Advance();
          return true;
        }
        var _ := Advance();
      }
    }

    method SkipWhitespaceAndComments() returns (r: Outcome<()>)
      requires Valid()
      modifies this
      ensures Valid()
      ensures var skipped := Skip(src, old(pos));
              if skipped.Lexed? then r == Fine(()) && pos == skipped.end else r == Wrong(Located(src, skipped))
    {
      hide LineAt, ColumnAt;
      while true
        invariant Valid() && Skip(src, pos) == Skip(src, old(pos))
        decreases |src| - pos
      {
        if pos < |src| && IsBlank(src[pos]) {
          var _ := Advance();
        } else if Peek() == Some('/') && Peek2() == Some('/') {
          SkipLine();
        } else if Peek() == Some('/') && Peek2() == Some('*') {
          var startLine, startCol := line, col;
          var _ := Advance();
          var _ := Advance();
          var closed := SkipBlock();
          if !closed {
            return Wrong(Failure(UnterminatedComment, startLine, startCol));
          }
        } else {
          return Fine(());
        }
      }
    }

    /** Collects characters while they belong to the token. */
    method TakeRun(part: char -> bool) returns (text: string)
      requires Valid()
      modifies this
      ensures Valid() && pos == RunEnd(src, old(pos), part) && text == src[old(pos)..pos]
    {
      text := "";
      while pos < |src| && part(src[pos])
        invariant Valid() && old(pos) <= pos && RunEnd(src, pos, part) == RunEnd(src, old(pos), part)
        invariant text == src[old(pos)..pos]
      {
        text := text + [src[pos]];
        assert src[old(pos)..pos + 1] == src[old(pos)..pos] + [src[pos]];
        var _ := Advance();
      }
    }

    method NextToken() returns (r: Outcome<PlacedToken>)
      requires Valid()
      modifies this
      ensures Valid()
      ensures Agrees(r, Next(src, old(pos)))
    {
      hide Skip, Read, LineAt, ColumnAt;
      ghost var skipped := Skip(src, pos);
      var skip := SkipWhitespaceAndComments();
      if skip.Wrong? {
        return Wrong(skip.failure);
      }
      var startLine, startCol := line, col;
      if pos == |src| {
        return Fine(PlacedToken(Eof, startLine, startCol));
      }
      var token := ReadToken();
      r := if token.Fine? then Fine(PlacedToken(token.value, startLine, startCol)) else Wrong(token.failure);
    }

    /** A result of the lexer is that of the specification, with lines and columns for positions; on
        success the lexer has moved behind the token. */
    ghost predicate Agrees(r: Outcome<PlacedToken>, spec: Lex<Spot>)
      reads this
    {
      match spec
      case Lexed(spot, end) =>
        spot.start <= |src| && r == Fine(PlacedAt(src, spot)) && pos == end
      case Bad(_, at) => at <= |src| && r == Wrong(Located(src, spec))
    }

    ghost predicate Reads(r: Outcome<Token>, spec: Lex<Token>)
      reads this
    {
      match spec
      case Lexed(token, end) => r == Fine(token) && pos == end
      case Bad(_, at) => at <= |src| && r == Wrong(Located(src, spec))
    }

    method ReadToken() returns (r: Outcome<Token>)
      requires Valid() && pos < |src|
      modifies this
      ensures Valid() && Reads(r, Read(src, old(pos)))
    {
      hide LineAt, ColumnAt;
      var c := src[pos];
      if IsWordStart(c) {
        var word := TakeRun(IsWordPart);
        r := Fine(WordToken(word));
      } else if IsDigit(c) {
        r := ReadNumberToken();
      } else if c == '"' {
        r := ReadStringToken();
      } else {
        r := ReadOperatorToken();
      }
    }

    method ReadNumberToken() returns (r: Outcome<Token>)
      requires Valid() && pos < |src| && IsDigit(src[pos])
      modifies this
      ensures Valid() && Reads(r, ReadNumber(src, old(pos)))
    {
      hide LineAt, ColumnAt, Value, TenTo, RunEnd;
      if src[pos] == '0' && (Peek2() == Some('x') || Peek2() == Some('X')) {
        r := ReadHexToken();
        return;
      }
      ghost var start := pos;
      var startLine, startCol := line, col;
      var digits := TakeRun(IsDigit);
      if Peek() == Some('.') && Peek2().Some? && IsDigit(Peek2().value) {
        var _ := Advance();
        var decimals := TakeRun(IsDigit);
        return Fine(FloatTok(Value(digits, 10) as real + Value(decimals, 10) as real / TenTo(|decimals|) as real));
      }
      if Value(digits, 10) > MAX_INT {
        return Wrong(Failure(BadInt(digits), startLine, startCol));
      }
      return Fine(IntTok(Value(digits, 10)));
    }

    method ReadHexToken() returns (r: Outcome<Token>)
      requires Valid() && pos + 2 <= |src|
      modifies this
      ensures Valid() && Reads(r, ReadHex(src, old(pos)))
    {
      hide LineAt, ColumnAt, Value, RunEnd;
      var startLine, startCol := line, col;
      var _ := Advance();
      var _ := Advance();
      var digits := TakeRun(IsHexDigit);
      if digits == "" || Value(digits, 16) > MAX_INT {
        return Wrong(Failure(BadHex(digits), startLine, startCol));
      }
      return Fine(IntTok(Value(digits, 16)));
    }

    method ReadStringToken() returns (r: Outcome<Token>)
      requires Valid() && pos < |src| && src[pos] == '"'
      modifies this
      ensures Valid()
      ensures var text := ReadString(src, old(pos) + 1, old(pos));
              Reads(r, if text.Bad? then Bad(text.problem, text.at) else Lexed(StrTok(text.value), text.end))
    {
      hide LineAt, ColumnAt;
      ghost var start := pos;
      var startLine, startCol := line, col;
      var _ := Advance();
      var text := "";
      OntoNothing(ReadString(src, pos, start));
      while pos < |src|
        invariant Valid() && start < pos && startLine == LineAt(src, start) && startCol == ColumnAt(src, start)
        invariant ReadString(src, start + 1, start) == Onto(text, ReadString(src, pos, start))
        decreases |src| - pos
      {
        var c := src[pos];
        OntoOne(text, c, ReadString(src, pos + 1, start));
        if c == '"' {
          assert text + "" == text;
          var _ := Advance();
          return Fine(StrTok(text));
        }
        if c == '\n' {
          return Wrong(Failure(UnterminatedString, startLine, startCol));
        }
        if c == '\\' {
          var _ := Advance();
          if pos == |src| {
            return Wrong(Failure(UnterminatedEscape, startLine, startCol));
          }
          var esc := src[pos];
          var _ := Advance();
          if Unescape(esc).None? {
            return Wrong(Failure(UnknownEscape(esc), startLine, startCol));
          }
          OntoOne(text, Unescape(esc).value, ReadString(src, pos, start));
          text := text + [Unescape(esc).value];
        } else {
          text := text + [c];
          var _ := Advance();
        }
      }
      assert text + "" == text;
      return Fine(StrTok(text));
    }

    method ReadOperatorToken() returns (r: Outcome<Token>)
      requires Valid() && pos < |src|
      modifies this
      ensures Valid() && Reads(r, ReadOperator(src, old(pos)))
    {
      hide LineAt, ColumnAt;
      var startLine, startCol, c := line, col, src[pos];
      if Single(c).None? {
        return Wrong(Failure(UnexpectedCharacter(c), startLine, startCol));
      }
      var _ := Advance();
      var second := Peek();
      if c == '.' && second == Some('.') && Peek2() == Some('.') {
        var _ := Advance();
        var _ := Advance();
        return Fine(Ellipsis);
      }
      if second.Some? && Pair(c, second.value).Some? {
        var _ := Advance();
        return Fine(Pair(c, second.value).value);
      }
      return Fine(Single(c).value);
    }
  }

  function Onto(text: string, rest: Lex<string>): Lex<string> {
    if rest.Bad? then rest else Lexed(text + rest.value, rest.end)
  }

  lemma OntoNothing(rest: Lex<string>)
    ensures Onto("", rest) == rest
  {
    if rest.Lexed? {
      assert "" + rest.value == rest.value;
    }
  }

  lemma OntoOne(text: string, c: char, rest: Lex<string>)
    ensures Onto(text, Push(c, rest)) == Onto(text + [c], rest)
  {
    if rest.Lexed? {
      assert text + ([c] + rest.value) == text + [c] + rest.value;
    }
  }

  function PlacedAt(src: string, spot: Spot): PlacedToken
    requires spot.start <= |src|
  {
    PlacedToken(spot.kind, LineAt(src, spot.start), ColumnAt(src, spot.start))
  }

  function PlacedAll(src: string, spots: seq<Spot>): (r: seq<PlacedToken>)
    requires forall s :: s in spots ==> s.start <= |src|
    ensures |r| == |spots|
  {
    seq(|spots|, i requires 0 <= i < |spots| => PlacedAt(src, spots[i]))
  }

  lemma {:induction false} SpotsInside(src: string, pos: nat)
    requires pos <= |src|
    ensures var r := Tokenize(src, pos);
            if r.Lexed? then forall s :: s in r.value ==> s.start <= |src| else r.at <= |src|
    decreases |src| - pos
  {
    hide Skip, Read;
    var first := Next(src, pos);
    if first.Lexed? && first.value.kind != Eof {
      SpotsInside(src, first.end);
    }
  }

  /** The whole source as tokens with lines and columns, up to and with the final Eof. */
  method TokenizeAll(src: string) returns (r: Outcome<seq<PlacedToken>>)
    ensures var spec := Tokenize(src, 0);
      if spec.Lexed? then (forall s :: s in spec.value ==> s.start <= |src|) && r == Fine(PlacedAll(src, spec.value))
      else spec.at <= |src| && r == Wrong(Located(src, spec))
  {
    hide Skip, Read, Next, LineAt, ColumnAt;
    SpotsInside(src, 0);
    var lexer := new Lexer(src);
    var tokens: seq<PlacedToken> := [];
    ghost var spots := [];
    BeforeNothing(Tokenize(src, 0));
    while true
      invariant lexer.Valid() && lexer.src == src
      invariant Tokenize(src, 0) == Before(spots, Tokenize(src, lexer.pos))
      invariant (forall s :: s in spots ==> s.start <= |src|) && tokens == PlacedAll(src, spots)
      decreases |src| - lexer.pos
    {
      ghost var pos := lexer.pos;
      SpotsInside(src, pos);
      var t := lexer.NextToken();
      if t.Wrong? {
        return Wrong(t.failure);
      }
      ghost var spot := Next(src, pos).value;
      BeforeOne(spots, spot, Tokenize(src, Next(src, pos).end));
      tokens := tokens + [t.value];
      spots := spots + [spot];
      if t.value.kind == Eof {
        assert Tokenize(src, pos) == Lexed([spot], Next(src, pos).end);
        assert tokens == PlacedAll(src, spots);
        return Fine(tokens);
      }
    }
  }

  function Before(spots: seq<Spot>, rest: Lex<seq<Spot>>): Lex<seq<Spot>> {
    if rest.Bad? then rest else Lexed(spots + rest.value, rest.end)
  }

  lemma BeforeNothing(rest: Lex<seq<Spot>>)
    ensures Before([], rest) == rest
  {
    if rest.Lexed? {
      assert [] + rest.value == rest.value;
    }
  }

  lemma BeforeOne(spots: seq<Spot>, spot: Spot, rest: Lex<seq<Spot>>)
    ensures Before(spots, Before([spot], rest)) == Before(spots + [spot], rest)
  {
    if rest.Lexed? {
      assert spots + ([spot] + rest.value) == spots + [spot] + rest.value;
    }
  }
}
