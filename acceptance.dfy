/** What parser.py accepts, stated against the trees of module Grammar.

    Soundness: what a production consumes is the rendering of the tree it returns, so an accepted
    expression is an `or`-separated list of `termA`s, each an `and`-separated list of `termB`s.
    Completeness: a production given the rendering of any tree, followed by a token on which the
    tails stop, consumes exactly that rendering and returns that tree. Together: `stmt_list`
    accepts a token stream exactly when it is the rendering of some program, and that program is
    the tree it returns. */
module Acceptance {
  import opened Lexemes
  import opened ParserTokens
  import opened Grammar
  import opened Productions

  /** The lookaheads on which both tails stop: what may follow a complete `expr`. */
  predicate EndsExpr(la: Lookahead) {
    EndsATail(la) && EndsBTail(la)
  }

  // ---------------------------------------------------------------------------------------------
  // Sequence helpers

  lemma SliceSplit(toks: seq<Token>, p: nat, a: seq<Token>, b: seq<Token>)
    requires p + |a| + |b| <= |toks| && toks[p..p + |a| + |b|] == a + b
    ensures toks[p..p + |a|] == a && toks[p + |a|..p + |a| + |b|] == b
  {
    forall i | 0 <= i < |a| ensures toks[p + i] == a[i] {
      assert toks[p..p + |a| + |b|][i] == (a + b)[i];
    }
    forall i | 0 <= i < |b| ensures toks[p + |a| + i] == b[i] {
      assert toks[p..p + |a| + |b|][|a| + i] == (a + b)[|a| + i];
    }
  }

  lemma SliceCat(toks: seq<Token>, i: nat, j: nat, k: nat)
    requires i <= j <= k <= |toks|
    ensures toks[i..k] == toks[i..j] + toks[j..k]
  {
  }

  /** The token at `p` of a stream the lexicon produced, when its kind is a `plex.TEXT` one. */
  lemma FixedAt(toks: seq<Token>, p: nat, k: Kind)
    requires WellFormed(toks) && La(toks, p) == Tok(k) && k != Id && k != BoolExp
    ensures toks[p..p + 1] == [Token(k, KindName(k))]
  {
    assert Fixed(toks[p]);
  }

  lemma SuffixCat(toks: seq<Token>, i: nat, j: nat)
    requires i <= j <= |toks|
    ensures toks[i..] == toks[i..j] + toks[j..]
  {
  }

  lemma RenderProgramCons(s: Stmt, rest: seq<Stmt>)
    ensures RenderProgram([s] + rest) == RenderStmt(s) + RenderProgram(rest)
  {
    assert ([s] + rest)[0] == s && ([s] + rest)[1..] == rest;
  }

  lemma LaOfSlice(toks: seq<Token>, p: nat, s: seq<Token>)
    requires p + |s| <= |toks| && toks[p..p + |s|] == s && |s| > 0
    ensures La(toks, p) == Tok(s[0].kind) && toks[p] == s[0]
  {
    assert toks[p..p + |s|][0] == toks[p];
  }

  // ---------------------------------------------------------------------------------------------
  // Lead tokens of renderings

  lemma FactorLead(f: Factor)
    ensures |RenderFactor(f)| > 0
    ensures RenderFactor(f)[0].kind in {LParen, Id, BoolExp}
  {
  }

  lemma TermBLead(b: TermB)
    ensures |RenderTermB(b)| > 0
    ensures FirstOfExpr(Tok(RenderTermB(b)[0].kind))
  {
    FactorLead(b.factor);
  }

  lemma TermALead(a: TermA)
    ensures |RenderTermA(a)| > 0
    ensures FirstOfExpr(Tok(RenderTermA(a)[0].kind))
  {
    TermBLead(a.head);
  }

  /** Every expression starts with a token of the FIRST set `expr` checks. */
  lemma ExprLead(e: Expr)
    ensures |RenderExpr(e)| > 0
    ensures FirstOfExpr(Tok(RenderExpr(e)[0].kind))
  {
    TermALead(e.head);
  }

  /** The check of parser.py:117 is the FIRST set of `expr` exactly: every kind in it starts some
      expression, and every expression starts with a kind in it. */
  lemma FirstSetIsExact(k: Kind)
    ensures FirstOfExpr(Tok(k)) <==> exists e :: |RenderExpr(e)| > 0 && RenderExpr(e)[0].kind == k
  {
    if FirstOfExpr(Tok(k)) {
      var x := Expr(TermA(Plain(Var("x")), BNil), ANil);
      var b := if k == LParen then Plain(Paren(x))
               else if k == Id then Plain(Var("x"))
               else if k == BoolExp then Plain(Lit("true"))
               else Negated(Var("x"));
      var e := Expr(TermA(b, BNil), ANil);
      assert |RenderExpr(e)| > 0 && RenderExpr(e)[0].kind == k;
      assert exists e' :: |RenderExpr(e')| > 0 && RenderExpr(e')[0].kind == k;
    }
    forall e | |RenderExpr(e)| > 0 && RenderExpr(e)[0].kind == k ensures FirstOfExpr(Tok(k)) {
      ExprLead(e);
    }
  }

  // ---------------------------------------------------------------------------------------------
  // Soundness: what is consumed is the rendering of the returned tree

  lemma {:induction false} ExprSound(toks: seq<Token>, p: nat)
    requires p <= |toks| && WellFormed(toks)
    ensures var r := ExprF(toks, p); r.Parsed? ==> RenderExpr(r.tree) == toks[p..r.pos]
    decreases |toks| - p, 3
  {
    if FirstOfExpr(La(toks, p)) {
      var a := TermAF(toks, p);
      if a.Parsed? {
        var t := ATailF(toks, a.pos);
        if t.Parsed? {
          TermASound(toks, p);
          ATailSound(toks, a.pos);
          SliceCat(toks, p, a.pos, t.pos);
          assert ExprF(toks, p) == Parsed(Expr(a.tree, t.tree), t.pos);
        }
      }
    }
  }

  lemma {:induction false} ATailSound(toks: seq<Token>, p: nat)
    requires p <= |toks| && WellFormed(toks)
    ensures var r := ATailF(toks, p); r.Parsed? ==> RenderATail(r.tree) == toks[p..r.pos]
    decreases |toks| - p, 0
  {
    if La(toks, p) == Tok(Or) {
      var a := TermAF(toks, p + 1);
      if a.Parsed? {
        var t := ATailF(toks, a.pos);
        if t.Parsed? {
          TermASound(toks, p + 1);
          ATailSound(toks, a.pos);
          FixedAt(toks, p, Or);
          SliceCat(toks, p, p + 1, a.pos);
          SliceCat(toks, p, a.pos, t.pos);
          assert ATailF(toks, p) == Parsed(AOr(a.tree, t.tree), t.pos);
        }
      }
    }
  }

  lemma {:induction false} TermASound(toks: seq<Token>, p: nat)
    requires p <= |toks| && WellFormed(toks)
    ensures var r := TermAF(toks, p); r.Parsed? ==> RenderTermA(r.tree) == toks[p..r.pos]
    decreases |toks| - p, 2
  {
    if FirstOfExpr(La(toks, p)) {
      var b := TermBF(toks, p);
      if b.Parsed? {
        var t := BTailF(toks, b.pos);
        if t.Parsed? {
          TermBSound(toks, p);
          BTailSound(toks, b.pos);
          SliceCat(toks, p, b.pos, t.pos);
          assert TermAF(toks, p) == Parsed(TermA(b.tree, t.tree), t.pos);
        }
      }
    }
  }

  lemma {:induction false} BTailSound(toks: seq<Token>, p: nat)
    requires p <= |toks| && WellFormed(toks)
    ensures var r := BTailF(toks, p); r.Parsed? ==> RenderBTail(r.tree) == toks[p..r.pos]
    decreases |toks| - p, 0
  {
    if La(toks, p) == Tok(And) {
      var b := TermBF(toks, p + 1);
      if b.Parsed? {
        var t := BTailF(toks, b.pos);
        if t.Parsed? {
          TermBSound(toks, p + 1);
          BTailSound(toks, b.pos);
          FixedAt(toks, p, And);
          SliceCat(toks, p, p + 1, b.pos);
          SliceCat(toks, p, b.pos, t.pos);
          assert BTailF(toks, p) == Parsed(BAnd(b.tree, t.tree), t.pos);
        }
      }
    }
  }

  lemma {:induction false} TermBSound(toks: seq<Token>, p: nat)
    requires p <= |toks| && WellFormed(toks)
    ensures var r := TermBF(toks, p); r.Parsed? ==> RenderTermB(r.tree) == toks[p..r.pos]
    decreases |toks| - p, 1
  {
    var la := La(toks, p);
    if la == Tok(LParen) || la == Tok(Id) || la == Tok(BoolExp) {
      FactorSound(toks, p);
    } else if la == Tok(Not) {
      var f := FactorF(toks, p + 1);
      if f.Parsed? {
        FactorSound(toks, p + 1);
        FixedAt(toks, p, Not);
        SliceCat(toks, p, p + 1, f.pos);
        assert TermBF(toks, p) == Parsed(Negated(f.tree), f.pos);
      }
    }
  }

  lemma {:induction false} FactorSound(toks: seq<Token>, p: nat)
    requires p <= |toks| && WellFormed(toks)
    ensures var r := FactorF(toks, p); r.Parsed? ==> RenderFactor(r.tree) == toks[p..r.pos]
    decreases |toks| - p, 0
  {
    var la := La(toks, p);
    if la == Tok(LParen) {
      var e := ExprF(toks, p + 1);
      if e.Parsed? && La(toks, e.pos) == Tok(RParen) {
        ExprSound(toks, p + 1);
        ParenSlice(toks, p, e.pos, e.tree);
        assert FactorF(toks, p) == Parsed(Paren(e.tree), e.pos + 1);
      }
    } else if la == Tok(Id) || la == Tok(BoolExp) {
      assert toks[p..p + 1] == [toks[p]];
    }
  }

  /** A parenthesised expression's rendering is the `(` at `p`, the slice the expression was
      parsed from and the `)` at `q`. */
  lemma ParenSlice(toks: seq<Token>, p: nat, q: nat, e: Expr)
    requires p + 1 <= q < |toks| && WellFormed(toks)
    requires La(toks, p) == Tok(LParen) && La(toks, q) == Tok(RParen)
    requires RenderExpr(e) == toks[p + 1..q]
    ensures RenderFactor(Paren(e)) == toks[p..q + 1]
  {
    FixedAt(toks, p, LParen);
    FixedAt(toks, q, RParen);
    SliceCat(toks, p, p + 1, q);
    SliceCat(toks, p, q, q + 1);
  }

  /** An assignment's rendering is the name at `p`, the `=` after it and the slice its
      expression was parsed from. */
  lemma AssignmentSlice(toks: seq<Token>, p: nat, q: nat, e: Expr)
    requires p + 2 <= q <= |toks| && WellFormed(toks)
    requires La(toks, p) == Tok(Id) && La(toks, p + 1) == Tok(Assign)
    requires RenderExpr(e) == toks[p + 2..q]
    ensures RenderStmt(Assignment(toks[p].text, e)) == toks[p..q]
  {
    FixedAt(toks, p + 1, Assign);
    assert toks[p..p + 1] == [Token(Id, toks[p].text)];
    SliceCat(toks, p, p + 1, p + 2);
    SliceCat(toks, p, p + 2, q);
  }

  /** A print statement's rendering is the `print` at `p` and the slice its expression was
      parsed from. */
  lemma PrintSlice(toks: seq<Token>, p: nat, q: nat, e: Expr)
    requires p + 1 <= q <= |toks| && WellFormed(toks) && La(toks, p) == Tok(Print)
    requires RenderExpr(e) == toks[p + 1..q]
    ensures RenderStmt(PrintStmt(e)) == toks[p..q]
  {
    FixedAt(toks, p, Print);
    SliceCat(toks, p, p + 1, q);
  }

  lemma StmtSound(toks: seq<Token>, p: nat)
    requires p <= |toks| && WellFormed(toks)
    ensures var r := StmtF(toks, p); r.Parsed? ==> RenderStmt(r.tree) == toks[p..r.pos]
  {
    var la := La(toks, p);
    if la == Tok(Id) && La(toks, p + 1) == Tok(Assign) {
      var e := ExprF(toks, p + 2);
      if e.Parsed? {
        ExprSound(toks, p + 2);
        AssignmentSlice(toks, p, e.pos, e.tree);
        assert StmtF(toks, p) == Parsed(Assignment(toks[p].text, e.tree), e.pos);
      }
    } else if la == Tok(Print) {
      var e := ExprF(toks, p + 1);
      if e.Parsed? {
        ExprSound(toks, p + 1);
        PrintSlice(toks, p, e.pos, e.tree);
        assert StmtF(toks, p) == Parsed(PrintStmt(e.tree), e.pos);
      }
    }
  }

  lemma {:induction false} StmtListSound(toks: seq<Token>, p: nat)
    requires p <= |toks| && WellFormed(toks)
    ensures var r := StmtListF(toks, p); r.Parsed? ==> RenderProgram(r.tree) == toks[p..]
    decreases |toks| - p
  {
    var la := La(toks, p);
    if la == Tok(Id) || la == Tok(Print) {
      var s := StmtF(toks, p);
      if s.Parsed? {
        var ss := StmtListF(toks, s.pos);
        if ss.Parsed? {
          StmtSound(toks, p);
          StmtListSound(toks, s.pos);
          assert StmtListF(toks, p) == Parsed([s.tree] + ss.tree, |toks|);
          RenderProgramCons(s.tree, ss.tree);
          SuffixCat(toks, p, s.pos);
        }
      }
    }
  }

  // ---------------------------------------------------------------------------------------------
  // One step of each production that builds a node from two parts

  lemma ExprStep(toks: seq<Token>, p: nat, a: TermA, q: nat, t: ATail, q': nat)
    requires p <= |toks| && FirstOfExpr(La(toks, p)) && q <= |toks|
    requires TermAF(toks, p) == Parsed(a, q) && ATailF(toks, q) == Parsed(t, q')
    ensures ExprF(toks, p) == Parsed(Expr(a, t), q')
  {
  }

  lemma ATailStep(toks: seq<Token>, p: nat, a: TermA, q: nat, t: ATail, q': nat)
    requires p < |toks| && La(toks, p) == Tok(Or) && q <= |toks|
    requires TermAF(toks, p + 1) == Parsed(a, q) && ATailF(toks, q) == Parsed(t, q')
    ensures ATailF(toks, p) == Parsed(AOr(a, t), q')
  {
  }

  lemma TermAStep(toks: seq<Token>, p: nat, b: TermB, q: nat, t: BTail, q': nat)
    requires p <= |toks| && FirstOfExpr(La(toks, p)) && q <= |toks|
    requires TermBF(toks, p) == Parsed(b, q) && BTailF(toks, q) == Parsed(t, q')
    ensures TermAF(toks, p) == Parsed(TermA(b, t), q')
  {
  }

  lemma BTailStep(toks: seq<Token>, p: nat, b: TermB, q: nat, t: BTail, q': nat)
    requires p < |toks| && La(toks, p) == Tok(And) && q <= |toks|
    requires TermBF(toks, p + 1) == Parsed(b, q) && BTailF(toks, q) == Parsed(t, q')
    ensures BTailF(toks, p) == Parsed(BAnd(b, t), q')
  {
  }

  lemma ATailLead(t: ATail)
    ensures RenderATail(t) != [] ==> RenderATail(t)[0] == Token(Or, "or")
  {
  }

  lemma BTailLead(t: BTail)
    ensures RenderBTail(t) != [] ==> RenderBTail(t)[0] == Token(And, "and")
  {
  }

  // ---------------------------------------------------------------------------------------------
  // Completeness: the rendering of a tree is parsed back into that tree

  /** How the rendering of an expression followed by `la` lines up with the stream: its first
      term, then its tail. */
  lemma ExprParts(e: Expr, toks: seq<Token>, p: nat)
    requires p + |RenderExpr(e)| <= |toks| && toks[p..p + |RenderExpr(e)|] == RenderExpr(e)
    requires EndsExpr(La(toks, p + |RenderExpr(e)|))
    ensures var q := p + |RenderTermA(e.head)|;
            q + |RenderATail(e.tail)| == p + |RenderExpr(e)| && FirstOfExpr(La(toks, p)) &&
            toks[p..q] == RenderTermA(e.head) && EndsBTail(La(toks, q)) &&
            toks[q..q + |RenderATail(e.tail)|] == RenderATail(e.tail)
  {
    var ra, rt := RenderTermA(e.head), RenderATail(e.tail);
    var q := p + |ra|;
    SliceSplit(toks, p, ra, rt);
    TermALead(e.head);
    LaOfSlice(toks, p, ra);
    ATailLead(e.tail);
    if rt != [] {
      LaOfSlice(toks, q, rt);
    }
  }

  lemma {:induction false} ExprComplete(e: Expr, toks: seq<Token>, p: nat)
    requires p + |RenderExpr(e)| <= |toks| && toks[p..p + |RenderExpr(e)|] == RenderExpr(e)
    requires EndsExpr(La(toks, p + |RenderExpr(e)|))
    ensures ExprF(toks, p) == Parsed(e, p + |RenderExpr(e)|)
    decreases e
  {
    ExprParts(e, toks, p);
    var q := p + |RenderTermA(e.head)|;
    TermAComplete(e.head, toks, p);
    ATailComplete(e.tail, toks, q);
    ExprStep(toks, p, e.head, q, e.tail, q + |RenderATail(e.tail)|);
  }

  /** A stream holding one token `t`, then `ra`, then `rr` from `p` on. */
  lemma LeadThenParts(toks: seq<Token>, p: nat, t: Token, ra: seq<Token>, rr: seq<Token>)
    requires p + 1 + |ra| + |rr| <= |toks| && toks[p..p + 1 + |ra| + |rr|] == [t] + ra + rr
    ensures p < |toks| && La(toks, p) == Tok(t.kind)
    ensures toks[p + 1..p + 1 + |ra|] == ra && toks[p + 1 + |ra|..p + 1 + |ra| + |rr|] == rr
    ensures rr != [] ==> La(toks, p + 1 + |ra|) == Tok(rr[0].kind)
  {
    SliceSplit(toks, p, [t] + ra, rr);
    SliceSplit(toks, p, [t], ra);
    LaOfSlice(toks, p, [t]);
    if rr != [] {
      LaOfSlice(toks, p + 1 + |ra|, rr);
    }
  }

  /** How the rendering of `or a rest` followed by `la` lines up with the stream: the parts and
      the lookaheads after each. */
  lemma ATailParts(a: TermA, rest: ATail, toks: seq<Token>, p: nat)
    requires p + |RenderATail(AOr(a, rest))| <= |toks|
    requires toks[p..p + |RenderATail(AOr(a, rest))|] == RenderATail(AOr(a, rest))
    requires EndsExpr(La(toks, p + |RenderATail(AOr(a, rest))|))
    ensures p < |toks| && La(toks, p) == Tok(Or)
    ensures var q := p + 1 + |RenderTermA(a)|;
            q + |RenderATail(rest)| == p + |RenderATail(AOr(a, rest))| &&
            toks[p + 1..q] == RenderTermA(a) && EndsBTail(La(toks, q)) &&
            toks[q..q + |RenderATail(rest)|] == RenderATail(rest)
  {
    assert RenderATail(AOr(a, rest)) == [Token(Or, "or")] + RenderTermA(a) + RenderATail(rest);
    ATailLead(rest);
    LeadThenParts(toks, p, Token(Or, "or"), RenderTermA(a), RenderATail(rest));
  }

  lemma {:induction false} ATailComplete(t: ATail, toks: seq<Token>, p: nat)
    requires p + |RenderATail(t)| <= |toks| && toks[p..p + |RenderATail(t)|] == RenderATail(t)
    requires EndsExpr(La(toks, p + |RenderATail(t)|))
    ensures ATailF(toks, p) == Parsed(t, p + |RenderATail(t)|)
    decreases t, 1
  {
    match t
    case ANil =>
    case AOr(a, rest) =>
      ATailHead(a, rest, toks, p);
      var q := p + 1 + |RenderTermA(a)|;
      ATailComplete(rest, toks, q);
      ATailStep(toks, p, a, q, rest, q + |RenderATail(rest)|);
  }

  /** On the rendering of `or a rest` at `p`, `termA` after the `or` parses `a`; the rendering
      of `rest` follows. */
  lemma ATailHead(a: TermA, rest: ATail, toks: seq<Token>, p: nat)
    requires p + |RenderATail(AOr(a, rest))| <= |toks|
    requires toks[p..p + |RenderATail(AOr(a, rest))|] == RenderATail(AOr(a, rest))
    requires EndsExpr(La(toks, p + |RenderATail(AOr(a, rest))|))
    ensures p < |toks| && La(toks, p) == Tok(Or)
    ensures var q := p + 1 + |RenderTermA(a)|;
            q + |RenderATail(rest)| == p + |RenderATail(AOr(a, rest))| &&
            TermAF(toks, p + 1) == Parsed(a, q) &&
            toks[q..q + |RenderATail(rest)|] == RenderATail(rest)
    decreases AOr(a, rest), 0
  {
    ATailParts(a, rest, toks, p);
    TermAComplete(a, toks, p + 1);
  }

  lemma {:induction false} TermAComplete(a: TermA, toks: seq<Token>, p: nat)
    requires p + |RenderTermA(a)| <= |toks| && toks[p..p + |RenderTermA(a)|] == RenderTermA(a)
    requires EndsBTail(La(toks, p + |RenderTermA(a)|))
    ensures TermAF(toks, p) == Parsed(a, p + |RenderTermA(a)|)
    decreases a
  {
    var rb, rt := RenderTermB(a.head), RenderBTail(a.tail);
    var q := p + |rb|;
    SliceSplit(toks, p, rb, rt);
    TermBLead(a.head);
    LaOfSlice(toks, p, rb);
    TermBComplete(a.head, toks, p);
    BTailComplete(a.tail, toks, q);
    TermAStep(toks, p, a.head, q, a.tail, q + |rt|);
  }

  lemma BTailParts(b: TermB, rest: BTail, toks: seq<Token>, p: nat)
    requires p + |RenderBTail(BAnd(b, rest))| <= |toks|
    requires toks[p..p + |RenderBTail(BAnd(b, rest))|] == RenderBTail(BAnd(b, rest))
    ensures p < |toks| && La(toks, p) == Tok(And)
    ensures var q := p + 1 + |RenderTermB(b)|;
            q + |RenderBTail(rest)| == p + |RenderBTail(BAnd(b, rest))| &&
            toks[p + 1..q] == RenderTermB(b) &&
            toks[q..q + |RenderBTail(rest)|] == RenderBTail(rest)
  {
    assert RenderBTail(BAnd(b, rest)) == [Token(And, "and")] + RenderTermB(b) + RenderBTail(rest);
    LeadThenParts(toks, p, Token(And, "and"), RenderTermB(b), RenderBTail(rest));
  }

  lemma {:induction false} BTailComplete(t: BTail, toks: seq<Token>, p: nat)
    requires p + |RenderBTail(t)| <= |toks| && toks[p..p + |RenderBTail(t)|] == RenderBTail(t)
    requires EndsBTail(La(toks, p + |RenderBTail(t)|))
    ensures BTailF(toks, p) == Parsed(t, p + |RenderBTail(t)|)
    decreases t, 1
  {
    match t
    case BNil =>
    case BAnd(b, rest) =>
      BTailHead(b, rest, toks, p);
      var q := p + 1 + |RenderTermB(b)|;
      BTailComplete(rest, toks, q);
      BTailStep(toks, p, b, q, rest, q + |RenderBTail(rest)|);
  }

  /** On the rendering of `and b rest` at `p`, `termB` after the `and` parses `b`; the rendering
      of `rest` follows. */
  lemma BTailHead(b: TermB, rest: BTail, toks: seq<Token>, p: nat)
    requires p + |RenderBTail(BAnd(b, rest))| <= |toks|
    requires toks[p..p + |RenderBTail(BAnd(b, rest))|] == RenderBTail(BAnd(b, rest))
    ensures p < |toks| && La(toks, p) == Tok(And)
    ensures var q := p + 1 + |RenderTermB(b)|;
            q + |RenderBTail(rest)| == p + |RenderBTail(BAnd(b, rest))| &&
            TermBF(toks, p + 1) == Parsed(b, q) &&
            toks[q..q + |RenderBTail(rest)|] == RenderBTail(rest)
    decreases BAnd(b, rest), 0
  {
    BTailParts(b, rest, toks, p);
    TermBComplete(b, toks, p + 1);
  }

  lemma {:induction false} TermBComplete(b: TermB, toks: seq<Token>, p: nat)
    requires p + |RenderTermB(b)| <= |toks| && toks[p..p + |RenderTermB(b)|] == RenderTermB(b)
    ensures TermBF(toks, p) == Parsed(b, p + |RenderTermB(b)|)
    decreases b
  {
    match b
    case Plain(f) =>
      FactorLead(f);
      LaOfSlice(toks, p, RenderFactor(f));
      FactorComplete(f, toks, p);
    case Negated(f) =>
      var rn, rf := [Token(Not, "not")], RenderFactor(f);
      SliceSplit(toks, p, rn, rf);
      LaOfSlice(toks, p, rn);
      FactorComplete(f, toks, p + 1);
  }

  lemma {:induction false} FactorComplete(f: Factor, toks: seq<Token>, p: nat)
    requires p + |RenderFactor(f)| <= |toks| && toks[p..p + |RenderFactor(f)|] == RenderFactor(f)
    ensures FactorF(toks, p) == Parsed(f, p + |RenderFactor(f)|)
    decreases f
  {
    match f
    case Paren(e) =>
      var rl, re, rr := [Token(LParen, "(")], RenderExpr(e), [Token(RParen, ")")];
      SliceSplit(toks, p, rl + re, rr);
      SliceSplit(toks, p, rl, re);
      LaOfSlice(toks, p, rl);
      LaOfSlice(toks, p + 1 + |re|, rr);
      ExprComplete(e, toks, p + 1);
    case Var(x) =>
      LaOfSlice(toks, p, RenderFactor(f));
    case Lit(s) =>
      LaOfSlice(toks, p, RenderFactor(f));
  }

  /** `stmt` on a name followed by `=`: the outcome of the expression after it. */
  lemma StmtFAssignment(toks: seq<Token>, p: nat)
    requires p + 1 < |toks| && La(toks, p) == Tok(Id) && La(toks, p + 1) == Tok(Assign)
    ensures var o := ExprF(toks, p + 2);
            StmtF(toks, p) == if o.Failed? then Failed(o.error, o.pos)
                              else Parsed(Assignment(toks[p].text, o.tree), o.pos)
  {
  }

  /** `stmt` on `print`: the outcome of the expression after it. */
  lemma StmtFPrint(toks: seq<Token>, p: nat)
    requires p < |toks| && La(toks, p) == Tok(Print)
    ensures var o := ExprF(toks, p + 1);
            StmtF(toks, p) == if o.Failed? then Failed(o.error, o.pos) else Parsed(PrintStmt(o.tree), o.pos)
  {
  }

  lemma StmtComplete(s: Stmt, toks: seq<Token>, p: nat)
    requires p + |RenderStmt(s)| <= |toks| && toks[p..p + |RenderStmt(s)|] == RenderStmt(s)
    requires EndsExpr(La(toks, p + |RenderStmt(s)|))
    ensures StmtF(toks, p) == Parsed(s, p + |RenderStmt(s)|)
  {
    match s
    case Assignment(x, e) =>
      var rh, re := [Token(Id, x), Token(Assign, "=")], RenderExpr(e);
      SliceSplit(toks, p, rh, re);
      LaOfSlice(toks, p, rh);
      LaOfSlice(toks, p + 1, rh[1..]);
      ExprComplete(e, toks, p + 2);
    case PrintStmt(e) =>
      var rh, re := [Token(Print, "print")], RenderExpr(e);
      SliceSplit(toks, p, rh, re);
      LaOfSlice(toks, p, rh);
      ExprComplete(e, toks, p + 1);
  }

  lemma StmtLead(s: Stmt)
    ensures |RenderStmt(s)| > 0 && RenderStmt(s)[0].kind in {Id, Print}
  {
  }

  /** A rendered program is empty or starts with the lead token of a statement. */
  lemma ProgramLead(prog: seq<Stmt>)
    ensures RenderProgram(prog) == [] <==> prog == []
    ensures prog != [] ==> RenderProgram(prog)[0].kind in {Id, Print}
  {
    if prog != [] {
      assert RenderProgram(prog) == RenderStmt(prog[0]) + RenderProgram(prog[1..]);
    }
  }

  lemma SuffixSplit(toks: seq<Token>, p: nat, a: seq<Token>, b: seq<Token>)
    requires p <= |toks| && toks[p..] == a + b
    ensures p + |a| <= |toks| && toks[p..p + |a|] == a && toks[p + |a|..] == b
  {
    assert toks[p..p + |a|] == toks[p..][..|a|];
    assert toks[p + |a|..] == toks[p..][|a|..];
  }

  lemma StmtListStep(toks: seq<Token>, p: nat, q: nat, prog: seq<Stmt>)
    requires p <= |toks| && (La(toks, p) == Tok(Id) || La(toks, p) == Tok(Print)) && prog != []
    requires StmtF(toks, p) == Parsed(prog[0], q) && q <= |toks| && StmtListF(toks, q) == Parsed(prog[1..], |toks|)
    ensures StmtListF(toks, p) == Parsed(prog, |toks|)
  {
    assert [prog[0]] + prog[1..] == prog;
  }

  /** A stream that continues at `p` with a statement's tokens `rs`, then with tokens `rr` that are
      empty or start another statement. */
  lemma StatementAtHead(toks: seq<Token>, p: nat, rs: seq<Token>, rr: seq<Token>)
    requires p <= |toks| && toks[p..] == rs + rr && |rs| > 0 && rs[0].kind in {Id, Print}
    requires rr != [] ==> rr[0].kind in {Id, Print}
    ensures p + |rs| <= |toks| && toks[p..p + |rs|] == rs && toks[p + |rs|..] == rr
    ensures La(toks, p) == Tok(Id) || La(toks, p) == Tok(Print)
    ensures EndsExpr(La(toks, p + |rs|))
  {
    SuffixSplit(toks, p, rs, rr);
    assert toks[p] == rs[0];
    if rr != [] {
      assert toks[p + |rs|] == rr[0];
    }
  }

  /** The pieces of a rendered non-empty program at `p`: its first statement, led by `Id` or
      `print` and followed by a token that may end an expression, then the rest. */
  lemma StmtListParts(prog: seq<Stmt>, toks: seq<Token>, p: nat)
    requires p <= |toks| && toks[p..] == RenderProgram(prog) && prog != []
    ensures var q := p + |RenderStmt(prog[0])|;
            q <= |toks| && toks[p..q] == RenderStmt(prog[0]) && toks[q..] == RenderProgram(prog[1..]) &&
            (La(toks, p) == Tok(Id) || La(toks, p) == Tok(Print)) && EndsExpr(La(toks, q))
  {
    assert RenderProgram(prog) == RenderStmt(prog[0]) + RenderProgram(prog[1..]);
    StmtLead(prog[0]);
    ProgramLead(prog[1..]);
    StatementAtHead(toks, p, RenderStmt(prog[0]), RenderProgram(prog[1..]));
  }

  /** On a rendered non-empty program at `p`, `stmt` parses its first statement; the rest of the
      stream is the rendering of the other statements. */
  lemma StmtListHead(prog: seq<Stmt>, toks: seq<Token>, p: nat)
    requires p <= |toks| && toks[p..] == RenderProgram(prog) && prog != []
    ensures var q := p + |RenderStmt(prog[0])|;
            q <= |toks| && toks[q..] == RenderProgram(prog[1..]) &&
            (La(toks, p) == Tok(Id) || La(toks, p) == Tok(Print)) && StmtF(toks, p) == Parsed(prog[0], q)
  {
    StmtListParts(prog, toks, p);
    StmtComplete(prog[0], toks, p);
  }

  lemma {:induction false} StmtListComplete(prog: seq<Stmt>, toks: seq<Token>, p: nat)
    requires p <= |toks| && toks[p..] == RenderProgram(prog)
    ensures StmtListF(toks, p) == Parsed(prog, |toks|)
    decreases |prog|
  {
    if prog == [] {
      assert |toks[p..]| == 0;
    } else {
      StmtListHead(prog, toks, p);
      var q := p + |RenderStmt(prog[0])|;
      StmtListComplete(prog[1..], toks, q);
      StmtListStep(toks, p, q, prog);
    }
  }

  // ---------------------------------------------------------------------------------------------
  // Whole programs

  /** Parsing the rendering of a program gives back that program, consuming every token. */
  lemma ProgramRoundTrip(prog: seq<Stmt>)
    ensures StmtListF(RenderProgram(prog), 0) == Parsed(prog, |RenderProgram(prog)|)
  {
    var toks := RenderProgram(prog);
    assert toks[0..] == toks;
    StmtListComplete(prog, toks, 0);
  }

  /** `stmt_list` from the first token accepts a stream the lexicon can produce exactly when the
      stream is the rendering of a program; the program it returns is that one. */
  lemma AcceptsExactlyPrograms(toks: seq<Token>)
    requires WellFormed(toks)
    ensures StmtListF(toks, 0).Parsed? <==> exists prog :: RenderProgram(prog) == toks
    ensures StmtListF(toks, 0).Parsed? ==> RenderProgram(StmtListF(toks, 0).tree) == toks
  {
    StmtListSound(toks, 0);
    assert toks[0..] == toks;
    if exists prog :: RenderProgram(prog) == toks {
      var prog :| RenderProgram(prog) == toks;
      ProgramRoundTrip(prog);
    }
  }
}
