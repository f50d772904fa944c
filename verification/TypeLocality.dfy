/** Parsing a type depends on the tokens of the type and the one after it, and on no more. */
module TypeLocality {
  import opened Tokens
  import opened Parser

  /** The same is read when more tokens follow, as long as `ahead` of the old ones are left to look
      at. */
  ghost predicate Local<T>(a: Parse<T>, b: Parse<T>, more: seq<Token>, ahead: nat) {
    (a.Parsed? && |a.rest| >= ahead ==> b == Parsed(a.value, a.rest + more))
    && (b.Parsed? && |b.rest| >= |more| + ahead ==> a.Parsed? && |a.rest| >= ahead)
  }

  lemma {:induction false} TypeLocal(ts: seq<Token>, more: seq<Token>)
    ensures Local(ParseType(ts), ParseType(ts + more), more, 1)
    decreases |ts|, 1
  {
    hide ParseTupleType, ParsePtrType, ParseFnType, ParseArrayType, ParseNamedType;
    if ts == [] {
      assert ts + more == more;
    } else {
      var all := ts + more;
      assert all[0] == ts[0] && all[1..] == ts[1..] + more;
      if ts[0] == LParen {
        TupleLocal(ts[1..], more);
      } else if ts[0] == Star {
        PtrLocal(ts[1..], more);
      } else if ts[0] == KwFn {
        FnLocal(ts[1..], more);
      } else if ts[0] == LBracket {
        ArrayLocal(ts[1..], more);
      } else if ts[0].Ident? {
        NamedLocal(ts[0].name, ts[1..], more);
      }
    }
  }

  lemma {:induction false} TupleLocal(ts: seq<Token>, more: seq<Token>)
    ensures Local(ParseTupleType(ts), ParseTupleType(ts + more), more, 0)
    decreases |ts|, 2
  {
    hide ParseType, ParseTypesUntil;
    TypeLocal(ts, more);
    var first := ParseType(ts);
    if first.Parsed? && first.rest != [] {
      assert (first.rest + more)[1..] == first.rest[1..] + more;
      TypesLocal(RParen, first.rest[1..], more);
    }
  }

  lemma {:induction false} PtrLocal(ts: seq<Token>, more: seq<Token>)
    ensures Local(ParsePtrType(ts), ParsePtrType(ts + more), more, 1)
    decreases |ts|, 2
  {
    hide ParseType;
    TypeLocal(ts, more);
  }

  lemma {:induction false} FnLocal(ts: seq<Token>, more: seq<Token>)
    ensures Local(ParseFnType(ts), ParseFnType(ts + more), more, 1)
    decreases |ts|, 0
  {
    hide ParseType, ParseParamTypes;
    if ts == [] {
      assert ts + more == more;
    } else {
      assert (ts + more)[0] == ts[0] && (ts + more)[1..] == ts[1..] + more;
      ParamTypesLocal(ts[1..], more);
      var params := ParseParamTypes(ts[1..]);
      if params.Parsed? && params.rest != [] {
        assert (params.rest + more)[1..] == params.rest[1..] + more;
        TypeLocal(params.rest[1..], more);
      } else if params.Parsed? {
        assert params.rest + more == more;
      }
    }
  }

  lemma {:induction false} ParamTypesLocal(ts: seq<Token>, more: seq<Token>)
    ensures Local(ParseParamTypes(ts), ParseParamTypes(ts + more), more, 0)
    decreases |ts|, 3
  {
    hide ParseTypesUntil;
    if ts == [] {
      assert ts + more == more;
      TypesLocal(RParen, ts, more);
    } else {
      assert (ts + more)[0] == ts[0] && (ts + more)[1..] == ts[1..] + more;
      TypesLocal(RParen, ts, more);
    }
  }

  lemma {:induction false} ArrayLocal(ts: seq<Token>, more: seq<Token>)
    ensures Local(ParseArrayType(ts), ParseArrayType(ts + more), more, 1)
    decreases |ts|, 0
  {
    hide ParseType;
    if |ts| < 2 {
      assert ts == [] ==> ts + more == more;
      assert |ts| == 1 ==> (ts + more)[1..] == more;
    } else {
      var all := ts + more;
      assert all[0] == ts[0] && all[1..] == ts[1..] + more && all[1..][0] == ts[1];
      assert all[1..][1..] == ts[1..][1..] + more;
      TypeLocal(ts[1..][1..], more);
    }
  }

  lemma {:induction false} NamedLocal(name: string, ts: seq<Token>, more: seq<Token>)
    ensures Local(ParseNamedType(name, ts), ParseNamedType(name, ts + more), more, 1)
    decreases |ts|, 2
  {
    hide ParseTypesUntil, BasicType;
    if ts == [] {
      assert ts + more == more;
    } else {
      assert (ts + more)[0] == ts[0] && (ts + more)[1..] == ts[1..] + more;
      if ts[0] == LBracket {
        TypesLocal(RBracket, ts[1..], more);
      }
    }
  }

  /** A list of types, by its first one and the token after it. */
  lemma TypesStep(close: Token, ts: seq<Token>)
    requires close != Eof
    ensures var first, all := ParseType(ts), ParseTypesUntil(close, ts);
      if first.Failed? || first.rest == [] then all.Failed?
      else if first.rest[0] == Comma then
        var others := ParseTypesUntil(close, first.rest[1..]);
        if others.Failed? then all.Failed? else all == Parsed([first.value] + others.value, others.rest)
      else if first.rest[0] == close then all == Parsed([first.value], first.rest[1..])
      else all.Failed?
  {
    hide ParseType;
  }

  lemma {:induction false} TypesLocal(close: Token, ts: seq<Token>, more: seq<Token>)
    requires close != Eof
    ensures Local(ParseTypesUntil(close, ts), ParseTypesUntil(close, ts + more), more, 0)
    decreases |ts|, 2
  {
    hide ParseType, ParseTypesUntil;
    TypeLocal(ts, more);
    TypesStep(close, ts);
    TypesStep(close, ts + more);
    var first := ParseType(ts);
    if first.Parsed? && first.rest != [] {
      assert (first.rest + more)[0] == first.rest[0] && (first.rest + more)[1..] == first.rest[1..] + more;
      if first.rest[0] == Comma {
        TypesLocal(close, first.rest[1..], more);
      }
    }
  }
}
