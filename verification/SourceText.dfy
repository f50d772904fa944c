/** From a tree to source text and back: what writing, the lexer and the parser do together. */
module SourceText {
  import opened Ast
  import opened Tokens
  import opened Lexing
  import opened LexRoundTrip
  import opened Parser
  import opened ParserTheorems

  /** The tokens that the parser gets: those of the lexer without the final Eof. */
  function Kinds(spots: seq<Spot>): (r: seq<Token>)
    ensures |r| == |spots|
  {
    seq(|spots|, i requires 0 <= i < |spots| => spots[i].kind)
  }

  lemma {:induction false} SpotKinds(pieces: seq<Piece>, at: nat)
    ensures Kinds(Spots(pieces, at)) == TokensOf(pieces) + [Eof]
    decreases pieces
  {
    hide GapsText;
    if pieces != [] {
      var next := at + |pieces[0].text| + |GapsText(pieces[0].after)|;
      SpotKinds(pieces[1..], next);
      KindsJoin(Spot(pieces[0].token, at), Spots(pieces[1..], next));
      assert TokensOf(pieces) == [pieces[0].token] + TokensOf(pieces[1..]);
      assert [pieces[0].token] + (TokensOf(pieces[1..]) + [Eof]) == TokensOf(pieces) + [Eof];
    }
  }

  lemma KindsJoin(spot: Spot, spots: seq<Spot>)
    ensures Kinds([spot] + spots) == [spot.kind] + Kinds(spots)
  {
  }

  /** An expression written as tokens in any notation, these as text in any of theirs and with any blanks
      and comments in between, then lexed and parsed, is the same expression. */
  lemma ExprFromText(e: Expr, gaps: seq<Gap>, pieces: seq<Piece>)
    requires Notation(false, false, TokensOf(pieces), e)
    requires ValidGaps(gaps) && ValidPieces(pieces)
    ensures var lexed := Tokenize(GapsText(gaps) + PiecesText(pieces), 0);
      lexed.Lexed? && Kinds(lexed.value) == TokensOf(pieces) + [Eof]
      && ParseExpr(false, Kinds(lexed.value)[..|lexed.value| - 1]) == Parsed(e, [])
  {
    hide Notation, ValidGaps, ValidPieces, Tokenize, ParseExpr, GapsText, PiecesText, Spots, Kinds;
    LexUndoesWrite(gaps, pieces);
    SpotKinds(pieces, |GapsText(gaps)|);
    var tokens := TokensOf(pieces);
    hide TokensOf;
    assert (tokens + [Eof])[..|tokens|] == tokens;
    assert tokens + [] == tokens;
    ReadsNotations(false, tokens, e, []);
  }
}
