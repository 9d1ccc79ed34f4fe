/** Properties of the productions of parser.py beyond what they accept: which error each
    production raises where, the `not not` restriction, and balanced parentheses. */
module ParserFacts {
  import opened Lexemes
  import opened ParserTokens
  import opened Grammar
  import opened Productions
  import opened Acceptance

  // ---------------------------------------------------------------------------------------------
  // Guards

  /** A `termB` whose lookahead is in the FIRST set ends past its first token, whether it returns
      or raises: nothing below it raises at the position it started from. */
  lemma TermBMovesOn(toks: seq<Token>, p: nat)
    requires p <= |toks| && FirstOfExpr(La(toks, p))
    ensures p < TermBF(toks, p).pos
  {
    if La(toks, p) == Tok(LParen) {
      assert p < FactorF(toks, p).pos;
    }
  }

  /** `termA` raises its own error at its starting position exactly when the lookahead is outside
      {`(`, `id`, `Bool_exp`, `not`}; otherwise it ends past its first token. */
  lemma TermAGuard(toks: seq<Token>, p: nat)
    requires p <= |toks|
    ensures TermAF(toks, p) == Failed(InTermA, p) <==> !FirstOfExpr(La(toks, p))
    ensures FirstOfExpr(La(toks, p)) ==> p < TermAF(toks, p).pos
  {
    if FirstOfExpr(La(toks, p)) {
      TermBMovesOn(toks, p);
    }
  }

  /** `expr` raises its own error at its starting position exactly when the lookahead is outside
      {`(`, `id`, `Bool_exp`, `not`}; otherwise it ends past its first token. */
  lemma ExprGuard(toks: seq<Token>, p: nat)
    requires p <= |toks|
    ensures ExprF(toks, p) == Failed(InExpr, p) <==> !FirstOfExpr(La(toks, p))
    ensures FirstOfExpr(La(toks, p)) ==> p < ExprF(toks, p).pos
  {
    TermAGuard(toks, p);
  }

  /** `termA_tail` returns without consuming exactly on its follow set, and raises its own error
      exactly on a lookahead that is neither `or` nor in that set. */
  lemma ATailStops(toks: seq<Token>, p: nat)
    requires p <= |toks|
    ensures ATailF(toks, p) == Parsed(ANil, p) <==> EndsATail(La(toks, p))
    ensures ATailF(toks, p) == Failed(InTermATail, p) <==>
              La(toks, p) != Tok(Or) && !EndsATail(La(toks, p))
  {
    if La(toks, p) == Tok(Or) {
      assert p + 1 <= TermAF(toks, p + 1).pos;
    }
  }

  /** `termB_tail` returns without consuming exactly on its follow set, and raises its own error
      exactly on a lookahead that is neither `and` nor in that set. */
  lemma BTailStops(toks: seq<Token>, p: nat)
    requires p <= |toks|
    ensures BTailF(toks, p) == Parsed(BNil, p) <==> EndsBTail(La(toks, p))
    ensures BTailF(toks, p) == Failed(InTermBTail, p) <==>
              La(toks, p) != Tok(And) && !EndsBTail(La(toks, p))
  {
    if La(toks, p) == Tok(And) {
      assert p + 1 <= TermBF(toks, p + 1).pos;
    }
  }

  /** `stmt_list` returns normally only with the lookahead at end of input, and raises its own
      error exactly on a lookahead that starts no statement and is not the end. */
  lemma StmtListStops(toks: seq<Token>, p: nat)
    requires p <= |toks|
    ensures StmtListF(toks, p).Parsed? ==> La(toks, StmtListF(toks, p).pos) == EndOfInput
    ensures StmtListF(toks, p) == Failed(InStmtList, p) <==>
              La(toks, p) !in {Tok(Id), Tok(Print), EndOfInput}
  {
    if La(toks, p) == Tok(Id) || La(toks, p) == Tok(Print) {
      assert p < StmtF(toks, p).pos;
    }
  }

  /** `stmt` raises its own error exactly on a lookahead other than `id` and `print`; an `id`
      not followed by `=` raises the failed `match('=')` where the `=` should be. */
  lemma StmtGuard(toks: seq<Token>, p: nat)
    requires p <= |toks|
    ensures StmtF(toks, p) == Failed(InStmt, p) <==> La(toks, p) !in {Tok(Id), Tok(Print)}
    ensures La(toks, p) == Tok(Id) && La(toks, p + 1) != Tok(Assign) ==>
              StmtF(toks, p) == Failed(Mismatch(La(toks, p + 1), Assign), p + 1)
  {
    if La(toks, p) == Tok(Print) {
      assert p + 1 <= ExprF(toks, p + 1).pos;
    }
  }

  // ---------------------------------------------------------------------------------------------
  // `not` applies to one factor

  /** A factor cannot start with `not`: two `not`s in a row are rejected by `factor`, at the
      second one, wherever an expression is expected. */
  lemma NotNotRejected(toks: seq<Token>, p: nat)
    requires p + 1 <= |toks| && La(toks, p) == Tok(Not) && La(toks, p + 1) == Tok(Not)
    ensures TermBF(toks, p) == Failed(InFactor, p + 1)
    ensures ExprF(toks, p) == Failed(InFactor, p + 1)
  {
    assert TermBF(toks, p) == Failed(InFactor, p + 1);
    assert TermAF(toks, p) == Failed(InFactor, p + 1);
  }

  /** No tree renders with two `not`s in a row. */
  lemma NoNotNotInTrees(prog: seq<Stmt>, i: nat)
    requires i + 1 < |RenderProgram(prog)| && RenderProgram(prog)[i].kind == Not
    ensures RenderProgram(prog)[i + 1].kind != Not
  {
    var toks := RenderProgram(prog);
    ProgramRoundTrip(prog);
    if toks[i + 1].kind == Not {
      NotNotAnywhereRejected(toks, 0, i);
    }
  }

  /** A stream with two `not`s in a row at `i` and `i + 1` is not accepted by `stmt_list` started
      at or before `i`. Only `termB` consumes a `not`, and then `factor` fails on the next one, so
      every production started at or before `i` that returns stops at or before `i`. */
  lemma {:induction false} NotNotAnywhereRejected(toks: seq<Token>, p: nat, i: nat)
    requires p <= i && i + 1 < |toks| && toks[i].kind == Not && toks[i + 1].kind == Not
    ensures StmtListF(toks, p).Failed?
    decreases |toks| - p
  {
    var la := La(toks, p);
    if la == Tok(Id) || la == Tok(Print) {
      StmtBefore(toks, p, i);
      var s := StmtF(toks, p);
      if s.Parsed? {
        NotNotAnywhereRejected(toks, s.pos, i);
      }
    }
  }

  /** A statement started at or before a `not not` at `i` that returns stops at or before `i`. */
  lemma StmtBefore(toks: seq<Token>, p: nat, i: nat)
    requires p <= i && i + 1 < |toks| && toks[i].kind == Not && toks[i + 1].kind == Not
    ensures StmtF(toks, p).Parsed? ==> StmtF(toks, p).pos <= i
  {
    if La(toks, p) == Tok(Id) && La(toks, p + 1) == Tok(Assign) {
      ExprBefore(toks, p + 2, i);
    } else if La(toks, p) == Tok(Print) {
      ExprBefore(toks, p + 1, i);
    }
  }

  /** An expression started at or before a `not not` at `i` that returns stops at or before
      `i`; by mutual induction with the other productions. */
  lemma {:induction false} ExprBefore(toks: seq<Token>, p: nat, i: nat)
    requires p <= i && i + 1 < |toks| && toks[i].kind == Not && toks[i + 1].kind == Not
    ensures ExprF(toks, p).Parsed? ==> ExprF(toks, p).pos <= i
    decreases |toks| - p, 3
  {
    if FirstOfExpr(La(toks, p)) {
      TermABefore(toks, p, i);
      var a := TermAF(toks, p);
      if a.Parsed? {
        ATailBefore(toks, a.pos, i);
      }
    }
  }

  lemma {:induction false} ATailBefore(toks: seq<Token>, p: nat, i: nat)
    requires p <= i && i + 1 < |toks| && toks[i].kind == Not && toks[i + 1].kind == Not
    ensures ATailF(toks, p).Parsed? ==> ATailF(toks, p).pos <= i
    decreases |toks| - p, 0
  {
    if La(toks, p) == Tok(Or) {
      TermABefore(toks, p + 1, i);
      var a := TermAF(toks, p + 1);
      if a.Parsed? {
        ATailBefore(toks, a.pos, i);
      }
    }
  }

  lemma {:induction false} TermABefore(toks: seq<Token>, p: nat, i: nat)
    requires p <= i && i + 1 < |toks| && toks[i].kind == Not && toks[i + 1].kind == Not
    ensures TermAF(toks, p).Parsed? ==> TermAF(toks, p).pos <= i
    decreases |toks| - p, 2
  {
    if FirstOfExpr(La(toks, p)) {
      TermBBefore(toks, p, i);
      var b := TermBF(toks, p);
      if b.Parsed? {
        BTailBefore(toks, b.pos, i);
      }
    }
  }

  lemma {:induction false} BTailBefore(toks: seq<Token>, p: nat, i: nat)
    requires p <= i && i + 1 < |toks| && toks[i].kind == Not && toks[i + 1].kind == Not
    ensures BTailF(toks, p).Parsed? ==> BTailF(toks, p).pos <= i
    decreases |toks| - p, 0
  {
    if La(toks, p) == Tok(And) {
      TermBBefore(toks, p + 1, i);
      var b := TermBF(toks, p + 1);
      if b.Parsed? {
        BTailBefore(toks, b.pos, i);
      }
    }
  }

  lemma {:induction false} TermBBefore(toks: seq<Token>, p: nat, i: nat)
    requires p <= i && i + 1 < |toks| && toks[i].kind == Not && toks[i + 1].kind == Not
    ensures TermBF(toks, p).Parsed? ==> TermBF(toks, p).pos <= i
    decreases |toks| - p, 1
  {
    var la := La(toks, p);
    if la == Tok(LParen) || la == Tok(Id) || la == Tok(BoolExp) {
      FactorBefore(toks, p, i);
    } else if la == Tok(Not) {
      if p + 1 <= i {
        FactorBefore(toks, p + 1, i);
      }
    }
  }

  lemma {:induction false} FactorBefore(toks: seq<Token>, p: nat, i: nat)
    requires p <= i && i + 1 < |toks| && toks[i].kind == Not && toks[i + 1].kind == Not
    ensures FactorF(toks, p).Parsed? ==> FactorF(toks, p).pos <= i
    decreases |toks| - p, 0
  {
    if La(toks, p) == Tok(LParen) {
      if p + 1 <= i {
        ExprBefore(toks, p + 1, i);
      }
    }
  }

  // ---------------------------------------------------------------------------------------------
  // Balanced parentheses

  function Delta(t: Token): int {
    if t.kind == LParen then 1 else if t.kind == RParen then -1 else 0
  }

  /** Open parentheses minus closed ones. */
  function Depth(s: seq<Token>): int
    decreases |s|
  {
    if s == [] then 0 else Delta(s[0]) + Depth(s[1..])
  }

  /** As many `(` as `)`, and no prefix closes more than it opened. */
  predicate Balanced(s: seq<Token>) {
    Depth(s) == 0 && forall i :: 0 <= i <= |s| ==> Depth(s[..i]) >= 0
  }

  lemma {:induction false} DepthConcat(a: seq<Token>, b: seq<Token>)
    ensures Depth(a + b) == Depth(a) + Depth(b)
    decreases |a|
  {
    if a == [] {
      assert a + b == b;
    } else {
      assert (a + b)[0] == a[0] && (a + b)[1..] == a[1..] + b;
      DepthConcat(a[1..], b);
    }
  }

  lemma BalancedConcat(a: seq<Token>, b: seq<Token>)
    requires Balanced(a) && Balanced(b)
    ensures Balanced(a + b)
  {
    DepthConcat(a, b);
    forall i | 0 <= i <= |a + b| ensures Depth((a + b)[..i]) >= 0 {
      if i <= |a| {
        assert (a + b)[..i] == a[..i];
      } else {
        assert (a + b)[..i] == a + b[..i - |a|];
        DepthConcat(a, b[..i - |a|]);
      }
    }
  }

  lemma BalancedWrap(s: seq<Token>)
    requires Balanced(s)
    ensures Balanced([Token(LParen, "(")] + s + [Token(RParen, ")")])
  {
    var l, r := [Token(LParen, "(")], [Token(RParen, ")")];
    var w := l + s + r;
    DepthConcat(l, s);
    DepthConcat(l + s, r);
    forall i | 0 <= i <= |w| ensures Depth(w[..i]) >= 0 {
      if 1 <= i <= |s| + 1 {
        assert w[..i] == l + s[..i - 1];
        DepthConcat(l, s[..i - 1]);
      } else if i == |w| {
        assert w[..i] == w;
      }
    }
  }

  lemma BalancedPlain(t: Token)
    requires t.kind != LParen && t.kind != RParen
    ensures Balanced([t])
  {
    assert forall i :: 0 <= i <= 1 ==> [t][..i] == [] || [t][..i] == [t];
  }

  lemma {:induction false} ExprBalanced(e: Expr)
    ensures Balanced(RenderExpr(e))
    decreases e
  {
    TermABalanced(e.head);
    ATailBalanced(e.tail);
    BalancedConcat(RenderTermA(e.head), RenderATail(e.tail));
  }

  lemma {:induction false} ATailBalanced(t: ATail)
    ensures Balanced(RenderATail(t))
    decreases t
  {
    match t
    case ANil =>
      assert forall i :: 0 <= i <= 0 ==> RenderATail(t)[..i] == [];
    case AOr(a, rest) =>
      BalancedPlain(Token(Or, "or"));
      TermABalanced(a);
      ATailBalanced(rest);
      BalancedConcat([Token(Or, "or")], RenderTermA(a));
      BalancedConcat([Token(Or, "or")] + RenderTermA(a), RenderATail(rest));
  }

  lemma {:induction false} TermABalanced(a: TermA)
    ensures Balanced(RenderTermA(a))
    decreases a
  {
    TermBBalanced(a.head);
    BTailBalanced(a.tail);
    BalancedConcat(RenderTermB(a.head), RenderBTail(a.tail));
  }

  lemma {:induction false} BTailBalanced(t: BTail)
    ensures Balanced(RenderBTail(t))
    decreases t
  {
    match t
    case BNil =>
      assert forall i :: 0 <= i <= 0 ==> RenderBTail(t)[..i] == [];
    case BAnd(b, rest) =>
      BalancedPlain(Token(And, "and"));
      TermBBalanced(b);
      BTailBalanced(rest);
      BalancedConcat([Token(And, "and")], RenderTermB(b));
      BalancedConcat([Token(And, "and")] + RenderTermB(b), RenderBTail(rest));
  }

  lemma {:induction false} TermBBalanced(b: TermB)
    ensures Balanced(RenderTermB(b))
    decreases b
  {
    FactorBalanced(b.factor);
    if b.Negated? {
      BalancedPlain(Token(Not, "not"));
      BalancedConcat([Token(Not, "not")], RenderFactor(b.factor));
    }
  }

  lemma {:induction false} FactorBalanced(f: Factor)
    ensures Balanced(RenderFactor(f))
    decreases f
  {
    match f
    case Paren(e) =>
      ExprBalanced(e);
      BalancedWrap(RenderExpr(e));
    case Var(x) =>
      BalancedPlain(Token(Id, x));
    case Lit(s) =>
      BalancedPlain(Token(BoolExp, s));
  }

  lemma {:induction false} ProgramBalanced(prog: seq<Stmt>)
    ensures Balanced(RenderProgram(prog))
    decreases |prog|
  {
    if prog == [] {
      assert forall i :: 0 <= i <= 0 ==> RenderProgram(prog)[..i] == [];
    } else {
      var s := prog[0];
      var head := match s
        case Assignment(x, _) => [Token(Id, x), Token(Assign, "=")]
        case PrintStmt(_) => [Token(Print, "print")];
      var e := if s.Assignment? then s.rhs else s.arg;
      assert RenderStmt(s) == head + RenderExpr(e);
      if s.Assignment? {
        BalancedPlain(Token(Id, s.name));
        BalancedPlain(Token(Assign, "="));
        BalancedConcat([Token(Id, s.name)], [Token(Assign, "=")]);
        assert [Token(Id, s.name)] + [Token(Assign, "=")] == head;
      } else {
        BalancedPlain(Token(Print, "print"));
      }
      ExprBalanced(e);
      BalancedConcat(head, RenderExpr(e));
      ProgramBalanced(prog[1..]);
      BalancedConcat(RenderStmt(s), RenderProgram(prog[1..]));
    }
  }

  /** Unbalanced parentheses are rejected: every stream `stmt_list` accepts is balanced. */
  lemma AcceptedIsBalanced(toks: seq<Token>)
    requires WellFormed(toks)
    ensures StmtListF(toks, 0).Parsed? ==> Balanced(toks)
  {
    AcceptsExactlyPrograms(toks);
    if StmtListF(toks, 0).Parsed? {
      ProgramBalanced(StmtListF(toks, 0).tree);
    }
  }

  // ---------------------------------------------------------------------------------------------
  // Examples

  lemma Cat3(a: seq<Token>, b: seq<Token>, c: seq<Token>)
    ensures a + (b + c) == a + b + c
  {
  }

  /** An unclosed parenthesis: `print (` followed by any expression fails at the end of input,
      where `match(')')` finds `None`. */
  lemma UnclosedParenthesis(e: Expr)
    ensures var toks := [Token(Print, "print"), Token(LParen, "(")] + RenderExpr(e);
            ExprF(toks, 1) == Failed(Mismatch(EndOfInput, RParen), |toks|) &&
            StmtListF(toks, 0) == Failed(Mismatch(EndOfInput, RParen), |toks|)
  {
    var toks := [Token(Print, "print"), Token(LParen, "(")] + RenderExpr(e);
    var err, n := Mismatch(EndOfInput, RParen), |toks|;
    assert toks[2..2 + |RenderExpr(e)|] == RenderExpr(e);
    ExprComplete(e, toks, 2);
    assert FactorF(toks, 1) == Failed(err, n);
    assert TermBF(toks, 1) == Failed(err, n);
    assert TermAF(toks, 1) == Failed(err, n);
    assert ExprF(toks, 1) == Failed(err, n);
    assert StmtF(toks, 0) == Failed(err, n);
  }

  /** A closing parenthesis nothing opened: `print` and any expression followed by `)` fails in
      `stmt_list`, which finds `)` where a statement or the end should be. */
  lemma UnopenedParenthesis(e: Expr)
    ensures var toks := [Token(Print, "print")] + RenderExpr(e) + [Token(RParen, ")")];
            StmtListF(toks, 0) == Failed(InStmtList, 1 + |RenderExpr(e)|)
  {
    var toks := [Token(Print, "print")] + RenderExpr(e) + [Token(RParen, ")")];
    var q := 1 + |RenderExpr(e)|;
    assert toks[1..q] == RenderExpr(e);
    assert La(toks, q) == Tok(RParen);
    ExprComplete(e, toks, 1);
    assert StmtF(toks, 0) == Parsed(PrintStmt(e), q);
    assert StmtListF(toks, q) == Failed(InStmtList, q);
  }

  /** The rendering of `x = f or (g and h)` is the token sequence of `x = f or g and h`. */
  lemma OrAndRendering(x: string, f: Factor, g: Factor, h: Factor)
    ensures RenderProgram([Assignment(x, Expr(TermA(Plain(f), BNil),
                                              AOr(TermA(Plain(g), BAnd(Plain(h), BNil)), ANil)))]) ==
              [Token(Id, x), Token(Assign, "=")] + RenderFactor(f) + [Token(Or, "or")] +
              RenderFactor(g) + [Token(And, "and")] + RenderFactor(h)
  {
    var e := Expr(TermA(Plain(f), BNil), AOr(TermA(Plain(g), BAnd(Plain(h), BNil)), ANil));
    var rf, rg, rh := RenderFactor(f), RenderFactor(g), RenderFactor(h);
    var L, O, N := [Token(Id, x), Token(Assign, "=")], [Token(Or, "or")], [Token(And, "and")];
    assert RenderTermB(Plain(h)) == rh && RenderTermB(Plain(g)) == rg && RenderTermB(Plain(f)) == rf;
    assert RenderBTail(BAnd(Plain(h), BNil)) == N + rh;
    assert RenderTermA(TermA(Plain(g), BAnd(Plain(h), BNil))) == rg + (N + rh);
    Cat3(rg, N, rh);
    assert RenderATail(e.tail) == O + (rg + N + rh);
    assert RenderTermA(e.head) == rf;
    assert RenderExpr(e) == rf + (O + (rg + N + rh));
    Cat3(O, rg + N, rh);
    Cat3(O, rg, N);
    Cat3(rf, O + rg + N, rh);
    Cat3(rf, O + rg, N);
    Cat3(rf, O, rg);
    assert RenderProgram([Assignment(x, e)]) == L + (rf + O + rg + N + rh);
    Cat3(L, rf + O + rg + N, rh);
    Cat3(L, rf + O + rg, N);
    Cat3(L, rf + O, rg);
    Cat3(L, rf, O);
  }

  /** `x = f or g and h` groups as `f or (g and h)`, whatever the factors. */
  lemma AndGroupsTighter(x: string, f: Factor, g: Factor, h: Factor)
    ensures var toks := [Token(Id, x), Token(Assign, "=")] + RenderFactor(f) + [Token(Or, "or")] +
                        RenderFactor(g) + [Token(And, "and")] + RenderFactor(h);
            StmtListF(toks, 0) ==
              Parsed([Assignment(x, Expr(TermA(Plain(f), BNil),
                                         AOr(TermA(Plain(g), BAnd(Plain(h), BNil)), ANil)))], |toks|)
  {
    OrAndRendering(x, f, g, h);
    ProgramRoundTrip([Assignment(x, Expr(TermA(Plain(f), BNil),
                                         AOr(TermA(Plain(g), BAnd(Plain(h), BNil)), ANil)))]);
  }

  /** The rendering of `print (not f) and g` is the token sequence of `print not f and g`. */
  lemma NotAndRendering(f: Factor, g: Factor)
    ensures RenderProgram([PrintStmt(Expr(TermA(Negated(f), BAnd(Plain(g), BNil)), ANil))]) ==
              [Token(Print, "print"), Token(Not, "not")] + RenderFactor(f) + [Token(And, "and")] +
              RenderFactor(g)
  {
    var e := Expr(TermA(Negated(f), BAnd(Plain(g), BNil)), ANil);
    var rf, rg := RenderFactor(f), RenderFactor(g);
    var W, T, N := [Token(Print, "print")], [Token(Not, "not")], [Token(And, "and")];
    assert RenderTermB(Plain(g)) == rg && RenderTermB(Negated(f)) == T + rf;
    assert RenderBTail(BAnd(Plain(g), BNil)) == N + rg;
    assert RenderTermA(e.head) == T + rf + (N + rg);
    assert RenderExpr(e) == T + rf + (N + rg);
    assert RenderProgram([PrintStmt(e)]) == W + (T + rf + (N + rg));
    Cat3(W, T + rf, N + rg);
    Cat3(W, T, rf);
    assert W + T == [Token(Print, "print"), Token(Not, "not")];
    Cat3(W + T + rf, N, rg);
  }

  /** `print not f and g` groups as `(not f) and g`, whatever the factors. */
  lemma NotGroupsTighter(f: Factor, g: Factor)
    ensures var toks := [Token(Print, "print"), Token(Not, "not")] + RenderFactor(f) +
                        [Token(And, "and")] + RenderFactor(g);
            StmtListF(toks, 0) ==
              Parsed([PrintStmt(Expr(TermA(Negated(f), BAnd(Plain(g), BNil)), ANil))], |toks|)
  {
    NotAndRendering(f, g);
    ProgramRoundTrip([PrintStmt(Expr(TermA(Negated(f), BAnd(Plain(g), BNil)), ANil))]);
  }
}
