/** The tokens of pp source text. */
module Tokens {

  datatype Token =
    | IntTok(value: nat) | FloatTok(decimal: real) | StrTok(text: string) | Ident(name: string)
    // Keywords
    | KwFn | KwExtern | KwIf | KwElse | KwReturn | KwLet | KwWhile | KwBreak | KwContinue | KwStruct
    | KwEnum | KwSwitch | KwImport | KwStatic | KwTrue | KwFalse | KwFor | KwIn | KwAs | KwDefer
    // Operators
    | Plus | Minus | Star | Slash | Percent | EqEq | NotEq | Less | Greater | LessEq | GreaterEq
    | Equals | Bang | Amp | AmpAmp | Pipe | PipePipe | Caret | Tilde | ShiftLeft | ShiftRight
    // Punctuation
    | LParen | RParen | LBrace | RBrace | LBracket | RBracket
    | Comma | Semicolon | Colon | Dot | Ellipsis | Arrow
    | Eof

  /** The next token; the end of input repeats forever. `ts` leaves out the final Eof. */
  function Peek(ts: seq<Token>): Token {
    if ts == [] then Eof else ts[0]
  }

  function Advance(ts: seq<Token>): seq<Token> {
    if ts == [] then [] else ts[1..]
  }
}
