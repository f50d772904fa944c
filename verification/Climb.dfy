/** Precedence climbing computes the one correct tree.

    A chain is a first operand and the operators that follow, each with its right operand.
    `Climb` is `parse_binary` on chains; `ParseIsClimb` shows that the parser does the same on
    tokens, and `ClimbUnique` that the result is the only tree with the right shape. */
module Climb {
  import opened Ast
  import opened Tokens
  import opened Parser
  import opened Notations

  datatype Tree<T> = Leaf(operand: T) | Node(op: BinOp, left: Tree<T>, right: Tree<T>)

  datatype Link<T> = Link(op: BinOp, operand: T)

  // The in-order yield of a tree.

  function First<T>(t: Tree<T>): T {
    match t
    case Leaf(operand) => operand
    case Node(_, left, _) => First(left)
  }

  function Links<T>(t: Tree<T>): seq<Link<T>> {
    match t
    case Leaf(_) => []
    case Node(op, left, right) => Links(left) + ([Link(op, First(right))] + Links(right))
  }

  /** Left children bind at least as tightly as their parent, right children more tightly. */
  predicate WellShaped<T>(t: Tree<T>) {
    match t
    case Leaf(_) => true
    case Node(op, left, right) =>
      WellShaped(left) && Tight(OpPrecedence(op), left) &&
      WellShaped(right) && Tight(OpPrecedence(op) + 1, right)
  }

  /** The root binds at least as tightly as `level`. */
  predicate Tight<T>(level: nat, t: Tree<T>) {
    t.Node? ==> level <= OpPrecedence(t.op)
  }

  /** The first operator binds no more tightly than `level`. */
  predicate Loose<T>(level: nat, links: seq<Link<T>>) {
    links != [] ==> OpPrecedence(links[0].op) <= level
  }

  /** The tree over as much of the chain as binds at least as tightly as `min`, and what is left. */
  function Climb<T>(min: nat, first: T, links: seq<Link<T>>): (Tree<T>, seq<Link<T>>) {
    Loop(min, Leaf(first), links)
  }

  function Loop<T>(min: nat, lhs: Tree<T>, links: seq<Link<T>>): (r: (Tree<T>, seq<Link<T>>))
    ensures |r.1| <= |links|
    decreases |links|
  {
    if links == [] || OpPrecedence(links[0].op) < min then (lhs, links)
    else
      var p := OpPrecedence(links[0].op);
      var (rhs, rest) := Loop(p + 1, Leaf(links[0].operand), links[1..]);
      Loop(min, Node(links[0].op, lhs, rhs), rest)
  }

  lemma Assoc<T>(a: seq<T>, b: seq<T>, c: seq<T>)
    ensures (a + b) + c == a + (b + c)
  {
  }

  /** The loop keeps the yield. */
  lemma {:induction false} LoopYield<T>(min: nat, lhs: Tree<T>, links: seq<Link<T>>)
    ensures var (t, rest) := Loop(min, lhs, links);
      First(t) == First(lhs) && Links(t) + rest == Links(lhs) + links
    decreases |links|
  {
    hide OpPrecedence;
    if links != [] && OpPrecedence(links[0].op) >= min {
      var op, p := links[0].op, OpPrecedence(links[0].op);
      LoopYield(p + 1, Leaf(links[0].operand), links[1..]);
      var (rhs, rest) := Loop(p + 1, Leaf(links[0].operand), links[1..]);
      LoopYield(min, Node(op, lhs, rhs), rest);
      assert Links<T>(Leaf(links[0].operand)) + links[1..] == links[1..];
      Assoc(Links(lhs), [Link(op, First(rhs))] + Links(rhs), rest);
      Assoc([Link(op, First(rhs))], Links(rhs), rest);
      assert links == [links[0]] + links[1..];
    }
  }

  /** The loop keeps the shape and stops before a weaker operator. */
  lemma {:induction false} LoopShape<T>(min: nat, lhs: Tree<T>, links: seq<Link<T>>)
    requires WellShaped(lhs) && Tight(min, lhs)
    requires lhs.Node? ==> Loose(OpPrecedence(lhs.op), links)
    ensures var (t, rest) := Loop(min, lhs, links);
      WellShaped(t) && Tight(min, t) && (rest == [] || OpPrecedence(rest[0].op) < min)
    decreases |links|
  {
    hide OpPrecedence;
    if links != [] && OpPrecedence(links[0].op) >= min {
      var op, p := links[0].op, OpPrecedence(links[0].op);
      LoopShape(p + 1, Leaf(links[0].operand), links[1..]);
      var (rhs, rest) := Loop(p + 1, Leaf(links[0].operand), links[1..]);
      LoopShape(min, Node(op, lhs, rhs), rest);
    }
  }

  /** A well-shaped tree is found again from its yield. */
  lemma {:induction false} LoopFinds<T>(min: nat, t: Tree<T>, rest: seq<Link<T>>)
    requires WellShaped(t) && Tight(min, t)
    requires t.Node? ==> Loose(OpPrecedence(t.op), rest)
    ensures Loop(min, Leaf(First(t)), Links(t) + rest) == Loop(min, t, rest)
    decreases t
  {
    hide OpPrecedence;
    match t
    case Leaf(_) => assert Links(t) + rest == rest;
    case Node(op, left, right) =>
      var p := OpPrecedence(op);
      var mid := [Link(op, First(right))] + (Links(right) + rest);
      LoopFinds(min, left, mid);
      LoopFinds(p + 1, right, rest);
      assert Links(t) + rest == Links(left) + mid by {
        Assoc(Links(left), [Link(op, First(right))] + Links(right), rest);
        Assoc([Link(op, First(right))], Links(right), rest);
      }
      assert mid[1..] == Links(right) + rest;
      assert Loop(p + 1, right, rest) == (right, rest);
  }

  /** Of all trees with a given yield, the climbed one and no other is well shaped. */
  lemma ClimbUnique<T>(first: T, links: seq<Link<T>>, t: Tree<T>)
    ensures Climb(0, first, links).1 == []
    ensures WellShaped(t) && First(t) == first && Links(t) == links <==> t == Climb(0, first, links).0
  {
    hide OpPrecedence;
    LoopYield(0, Leaf(first), links);
    LoopShape(0, Leaf(first), links);
    var (c, rest) := Climb(0, first, links);
    assert Links(c) + [] == Links(c) && [] + links == links;
    if WellShaped(t) && First(t) == first && Links(t) == links {
      LoopFinds(0, t, []);
      assert Links(t) + [] == Links(t);
    }
  }

  // ---------------------------------------------------------------------------
  // The parser climbs
  // ---------------------------------------------------------------------------

  /** The expression a tree of operands stands for. */
  function Erase(t: Tree<Expr>): Expr {
    match t
    case Leaf(operand) => operand
    case Node(op, left, right) => Binary(op, Erase(left), Erase(right))
  }

  /** Every operator and right operand from here on, whatever the precedences. */
  function ParseLinks(bare: bool, ts: seq<Token>): Parse<seq<Link<Expr>>>
    decreases |ts|
  {
    if Precedence(Peek(ts)).None? then Parsed([], ts)
    else
      var (operand, ts1) :- ParseUnary(bare, ts[1..]);
      var (links, ts2) :- ParseLinks(bare, ts1);
      Parsed([Link(BinOpFrom(ts[0]), operand)] + links, ts2)
  }

  lemma SamePrecedence(ts: seq<Token>)
    requires Precedence(Peek(ts)).Some?
    ensures ts != [] && OpPrecedence(BinOpFrom(ts[0])) == Precedence(ts[0]).value
  {
  }

  lemma BinaryLoopEnds(bare: bool, min: nat, lhs: Expr, ts: seq<Token>)
    requires Precedence(Peek(ts)).Some? ==> Precedence(Peek(ts)).value < min
    ensures BinaryLoop(bare, min, lhs, ts) == Parsed(lhs, ts)
  {
    hide Precedence;
  }

  lemma BinaryLoopTurns(bare: bool, min: nat, lhs: Expr, ts: seq<Token>)
    requires Precedence(Peek(ts)).Some? && Precedence(Peek(ts)).value >= min
    ensures ts != []
    ensures var unary := ParseUnary(bare, ts[1..]);
      if unary.Failed? then BinaryLoop(bare, min, lhs, ts).Failed?
      else
        var right := BinaryLoop(bare, Precedence(Peek(ts)).value + 1, unary.value, unary.rest);
        if right.Failed? then BinaryLoop(bare, min, lhs, ts).Failed?
        else
          var next := Binary(BinOpFrom(ts[0]), lhs, right.value);
          BinaryLoop(bare, min, lhs, ts) == BinaryLoop(bare, min, next, right.rest)
  {
    SamePrecedence(ts);
    hide Precedence, ParseUnary;
  }

  lemma LoopTurns<T>(min: nat, lhs: Tree<T>, link: Link<T>, links: seq<Link<T>>)
    requires OpPrecedence(link.op) >= min
    ensures var (rhs, rest) := Loop(OpPrecedence(link.op) + 1, Leaf(link.operand), links);
            Loop(min, lhs, [link] + links) == Loop(min, Node(link.op, lhs, rhs), rest)
  {
    assert ([link] + links)[1..] == links;
  }

  lemma {:induction false} LoopsAgree(bare: bool, min: nat, lhs: Tree<Expr>, ts: seq<Token>)
    ensures var r := BinaryLoop(bare, min, Erase(lhs), ts);
      match ParseLinks(bare, ts)
      case Failed => r.Failed? || ParseLinks(bare, r.rest).Failed?
      case Parsed(links, end) =>
        var (t, left) := Loop(min, lhs, links);
        r.Parsed? && r.value == Erase(t) && ParseLinks(bare, r.rest) == Parsed(left, end)
    decreases |ts|, 1
  {
    hide ParseUnary, Precedence, BinOpFrom, OpPrecedence, OpToken, BinaryLoop;
    var p := Precedence(Peek(ts));
    if p.None? || p.value < min {
      BinaryLoopEnds(bare, min, Erase(lhs), ts);
      if p.Some? {
        SamePrecedence(ts);
      }
    } else {
      BinaryLoopTurns(bare, min, Erase(lhs), ts);
      SamePrecedence(ts);
      var unary := ParseUnary(bare, ts[1..]);
      if unary.Parsed? {
        LoopsAgree(bare, p.value + 1, Leaf(unary.value), unary.rest);
        var links := ParseLinks(bare, unary.rest);
        if links.Parsed? {
          LoopTurns(min, lhs, Link(BinOpFrom(ts[0]), unary.value), links.value);
          GoOnWith(bare, min, p.value + 1, lhs, unary.value, BinOpFrom(ts[0]), links.value, unary.rest, ts);
        } else {
          var right := BinaryLoop(bare, p.value + 1, unary.value, unary.rest);
          if right.Parsed? {
            LoopsAgree(bare, min, Node(BinOpFrom(ts[0]), lhs, Leaf(right.value)), right.rest);
          }
        }
      }
    }
  }

  /** After an operator and its right operand, the loop goes on with what is left. */
  lemma {:induction false} GoOnWith(bare: bool, min: nat, inner: nat, lhs: Tree<Expr>, first: Expr, op: BinOp,
                                    links: seq<Link<Expr>>, rest: seq<Token>, ts: seq<Token>)
    requires |rest| < |ts|
    requires var right := BinaryLoop(bare, inner, first, rest);
      var (rhs, left) := Loop(inner, Leaf(first), links);
      right.Parsed? && |right.rest| <= |rest| && right.value == Erase(rhs)
      && ParseLinks(bare, right.rest).Parsed? && ParseLinks(bare, right.rest).value == left
    ensures var (rhs, left) := Loop(inner, Leaf(first), links);
      var right := BinaryLoop(bare, inner, first, rest);
      var r := BinaryLoop(bare, min, Binary(op, Erase(lhs), right.value), right.rest);
      var (t, more) := Loop(min, Node(op, lhs, rhs), left);
      r.Parsed? && r.value == Erase(t)
      && ParseLinks(bare, r.rest) == Parsed(more, ParseLinks(bare, right.rest).rest)
    decreases |ts|, 0
  {
    hide ParseUnary, Precedence, BinOpFrom, OpPrecedence, OpToken, BinaryLoop, ParseLinks, Loop;
    var (rhs, left) := Loop(inner, Leaf(first), links);
    var right := BinaryLoop(bare, inner, first, rest);
    LoopsAgree(bare, min, Node(op, lhs, rhs), right.rest);
  }

  /** On any tokens, parsing an expression is reading a flat chain of operands and climbing it. */
  lemma ParseIsClimb(bare: bool, ts: seq<Token>)
    ensures var r := ParseExpr(bare, ts); var first := ParseUnary(bare, ts);
      if first.Failed? || ParseLinks(bare, first.rest).Failed? then r.Failed?
      else
        var links := ParseLinks(bare, first.rest);
        r == Parsed(Erase(Climb(0, first.value, links.value).0), links.rest)
  {
    hide ParseUnary, Precedence, WellShaped, First, Links;
    var first := ParseUnary(bare, ts);
    if first.Parsed? {
      LoopsAgree(bare, 0, Leaf(first.value), first.rest);
      NothingLeft(bare, first.value, first.rest);
      var r := BinaryLoop(bare, 0, first.value, first.rest);
      if ParseLinks(bare, first.rest).Parsed? {
        ClimbUnique(first.value, ParseLinks(bare, first.rest).value, Leaf(first.value));
      }
    }
  }

  lemma {:induction false} NothingLeft(bare: bool, lhs: Expr, ts: seq<Token>)
    ensures var r := BinaryLoop(bare, 0, lhs, ts); r.Parsed? ==> Precedence(Peek(r.rest)).None?
    decreases |ts|
  {
    hide ParseBinary, Precedence, BinOpFrom;
    var p := Precedence(Peek(ts));
    if p.Some? {
      SamePrecedence(ts);
      var right := ParseBinary(bare, p.value + 1, ts[1..]);
      if right.Parsed? {
        NothingLeft(bare, Binary(BinOpFrom(ts[0]), lhs, right.value), right.rest);
      }
    }
  }
}
