/** Example runs of runner.py's statement layer. Each stream is shown to be the rendering of a
    program (through the translation into parser.py tokens, one grammar rule at a time), so the
    run is the one `Exec` gives that program. */
module RunnerExamples {
  import opened RunnerTokens
  import opened Runner
  import opened RunnerFacts
  import PT = ParserTokens
  import G = Grammar
  import P = Productions
  import A = Acceptance
  import PF = ParserFacts

  // ---------------------------------------------------------------------------------------------
  // Translating a stream rule by rule

  lemma TranslateCat(a: seq<Token>, b: seq<Token>)
    ensures Translate(a + b) == Translate(a) + Translate(b)
  {
  }

  /** A token in front of a stream reads as its parser.py token in front of the translation. */
  lemma KeywordPiece(t: Token, a: seq<Token>)
    ensures Translate([t] + a) == [ToParserToken(t)] + Translate(a)
  {
    TranslateCat([t], a);
  }

  /** A `TRUE` or `FALSE` token, whatever its spelling. */
  predicate IsLiteral(u: Token) {
    u.kind == TrueLit || u.kind == FalseLit
  }

  /** The factor parser.py parses from a literal token, and its value in any table. */
  function LitFactor(u: Token): (f: G.Factor)
    requires IsLiteral(u)
    ensures Translate([u]) == G.RenderFactor(f)
    ensures forall st :: G.EvalFactor(f, st) == G.Val(u.kind == TrueLit)
  {
    LiteralValue(u);
    G.Lit(ToParserToken(u).text)
  }

  lemma VarPiece(x: string)
    ensures Translate([Token(Variable, x)]) == G.RenderFactor(G.Var(x))
  {
  }

  lemma NegatedPiece(a: seq<Token>, f: G.Factor)
    requires Translate(a) == G.RenderFactor(f)
    ensures Translate([Token(Not, "not")] + a) == G.RenderTermB(G.Negated(f))
  {
    KeywordPiece(Token(Not, "not"), a);
  }

  lemma BAndPiece(a: seq<Token>, b: G.TermB)
    requires Translate(a) == G.RenderTermB(b)
    ensures Translate([Token(And, "and")] + a) == G.RenderBTail(G.BAnd(b, G.BNil))
  {
    KeywordPiece(Token(And, "and"), a);
    assert G.RenderBTail(G.BAnd(b, G.BNil)) == [PT.Token(PT.And, "and")] + G.RenderTermB(b);
  }

  lemma AOrPiece(a: seq<Token>, t: G.TermA)
    requires Translate(a) == G.RenderTermA(t)
    ensures Translate([Token(Or, "or")] + a) == G.RenderATail(G.AOr(t, G.ANil))
  {
    KeywordPiece(Token(Or, "or"), a);
    assert G.RenderATail(G.AOr(t, G.ANil)) == [PT.Token(PT.Or, "or")] + G.RenderTermA(t);
  }

  lemma TermAPiece(a: seq<Token>, b: seq<Token>, head: G.TermB, tail: G.BTail)
    requires Translate(a) == G.RenderTermB(head) && Translate(b) == G.RenderBTail(tail)
    ensures Translate(a + b) == G.RenderTermA(G.TermA(head, tail))
  {
    TranslateCat(a, b);
  }

  lemma SingleTermAPiece(a: seq<Token>, head: G.TermB)
    requires Translate(a) == G.RenderTermB(head)
    ensures Translate(a) == G.RenderTermA(G.TermA(head, G.BNil))
  {
  }

  lemma ExprPiece(a: seq<Token>, b: seq<Token>, head: G.TermA, tail: G.ATail)
    requires Translate(a) == G.RenderTermA(head) && Translate(b) == G.RenderATail(tail)
    ensures Translate(a + b) == G.RenderExpr(G.Expr(head, tail))
  {
    TranslateCat(a, b);
  }

  lemma SingleExprPiece(a: seq<Token>, head: G.TermA)
    requires Translate(a) == G.RenderTermA(head)
    ensures Translate(a) == G.RenderExpr(G.Expr(head, G.ANil))
  {
  }

  lemma AssignmentPiece(x: string, a: seq<Token>, e: G.Expr)
    requires Translate(a) == G.RenderExpr(e)
    ensures Translate([Token(Variable, x), Token(Assign, "=")] + a) == G.RenderStmt(G.Assignment(x, e))
  {
    KeywordPiece(Token(Assign, "="), a);
    KeywordPiece(Token(Variable, x), [Token(Assign, "=")] + a);
    assert [Token(Variable, x), Token(Assign, "=")] + a == [Token(Variable, x)] + ([Token(Assign, "=")] + a);
    assert [PT.Token(PT.Id, x), PT.Token(PT.Assign, "=")] + G.RenderExpr(e) ==
             [PT.Token(PT.Id, x)] + ([PT.Token(PT.Assign, "=")] + G.RenderExpr(e));
  }

  lemma PrintPiece(a: seq<Token>, e: G.Expr)
    requires Translate(a) == G.RenderExpr(e)
    ensures Translate([Token(Print, "print")] + a) == G.RenderStmt(G.PrintStmt(e))
  {
    KeywordPiece(Token(Print, "print"), a);
  }

  lemma ProgramPiece(a: seq<Token>, b: seq<Token>, s: G.Stmt, rest: seq<G.Stmt>)
    requires Translate(a) == G.RenderStmt(s) && Translate(b) == G.RenderProgram(rest)
    ensures Translate(a + b) == G.RenderProgram([s] + rest)
  {
    TranslateCat(a, b);
    A.RenderProgramCons(s, rest);
  }

  lemma LastStmtPiece(a: seq<Token>, s: G.Stmt)
    requires Translate(a) == G.RenderStmt(s)
    ensures Translate(a) == G.RenderProgram([s])
  {
    A.RenderProgramCons(s, []);
  }

  // ---------------------------------------------------------------------------------------------
  // Runs

  /** A stream that renders a program runs to the end as `Exec` runs that program. */
  lemma RunOfRendering(toks: seq<Token>, prog: seq<G.Stmt>)
    requires Translate(toks) == G.RenderProgram(prog) && G.Exec(prog, map[], []).Completed?
    ensures StmtListR(toks, Machine(0, map[], [])) ==
              Finished(Machine(|toks|, G.Exec(prog, map[], []).st, G.Exec(prog, map[], []).out))
  {
    A.ProgramRoundTrip(prog);
    RunMatchesExec(toks, Machine(0, map[], []));
  }

  /** `expr` of a single factor. */
  function Single(f: G.Factor): G.Expr {
    G.Expr(G.TermA(G.Plain(f), G.BNil), G.ANil)
  }

  /** A single factor is an expression of its own. */
  lemma SinglePiece(a: seq<Token>, f: G.Factor)
    requires Translate(a) == G.RenderFactor(f)
    ensures Translate(a) == G.RenderExpr(Single(f))
  {
    SingleTermAPiece(a, G.Plain(f));
    SingleExprPiece(a, G.TermA(G.Plain(f), G.BNil));
  }

  lemma SingleValue(f: G.Factor, st: map<string, bool>)
    ensures G.EvalExpr(Single(f), st) == G.EvalFactor(f, st)
  {
    assert G.EvalTermA(Single(f).head, st) == G.EvalFactor(f, st);
  }

  /** `print u` prints the truth value of the literal `u`. */
  lemma PrintLiteralRuns(u: Token)
    requires IsLiteral(u)
    ensures StmtListR([Token(Print, "print"), u], Machine(0, map[], [])) ==
              Finished(Machine(2, map[], [u.kind == TrueLit]))
  {
    var f := LitFactor(u);
    var prog := [G.PrintStmt(Single(f))];
    SinglePiece([u], f);
    PrintPiece([u], Single(f));
    LastStmtPiece([Token(Print, "print"), u], prog[0]);
    SingleValue(f, map[]);
    assert G.Exec(prog, map[], []) == G.Completed(map[], [u.kind == TrueLit]);
    RunOfRendering([Token(Print, "print"), u], prog);
  }

  /** The stream `x = u print x` is the rendering of the program it reads as. */
  lemma AssignThenReadRendering(x: string, u: Token)
    requires IsLiteral(u)
    ensures Translate([Token(Variable, x), Token(Assign, "="), u, Token(Print, "print"),
                       Token(Variable, x)]) ==
              G.RenderProgram([G.Assignment(x, Single(LitFactor(u))), G.PrintStmt(Single(G.Var(x)))])
  {
    var f, a, b := LitFactor(u), [Token(Variable, x), Token(Assign, "=")] + [u],
                   [Token(Print, "print")] + [Token(Variable, x)];
    assert [Token(Variable, x), Token(Assign, "="), u, Token(Print, "print"), Token(Variable, x)] == a + b;
    SinglePiece([u], f);
    AssignmentPiece(x, [u], Single(f));
    VarPiece(x);
    SinglePiece([Token(Variable, x)], G.Var(x));
    PrintPiece([Token(Variable, x)], Single(G.Var(x)));
    LastStmtPiece(b, G.PrintStmt(Single(G.Var(x))));
    ProgramPiece(a, b, G.Assignment(x, Single(f)), [G.PrintStmt(Single(G.Var(x)))]);
  }

  /** `x = u print x` binds `x` and prints its value. */
  lemma AssignThenRead(x: string, u: Token)
    requires IsLiteral(u)
    ensures StmtListR([Token(Variable, x), Token(Assign, "="), u, Token(Print, "print"),
                       Token(Variable, x)], Machine(0, map[], [])) ==
              Finished(Machine(5, map[x := u.kind == TrueLit], [u.kind == TrueLit]))
  {
    var f := LitFactor(u);
    var b := u.kind == TrueLit;
    var prog := [G.Assignment(x, Single(f)), G.PrintStmt(Single(G.Var(x)))];
    AssignThenReadRendering(x, u);
    SingleValue(f, map[]);
    SingleValue(G.Var(x), map[x := b]);
    assert prog[1..] == [G.PrintStmt(Single(G.Var(x)))] && prog[1..][1..] == [];
    assert G.Exec(prog[1..], map[x := b], []) == G.Completed(map[x := b], [b]);
    assert G.Exec(prog, map[], []) == G.Exec(prog[1..], map[x := b], []);
    RunOfRendering([Token(Variable, x), Token(Assign, "="), u, Token(Print, "print"),
                    Token(Variable, x)], prog);
  }

  /** The stream `x = u x = v print x` is the rendering of the program it reads as. */
  lemma ReassignmentRendering(x: string, u: Token, v: Token)
    requires IsLiteral(u) && IsLiteral(v)
    ensures Translate([Token(Variable, x), Token(Assign, "="), u, Token(Variable, x),
                       Token(Assign, "="), v, Token(Print, "print"), Token(Variable, x)]) ==
              G.RenderProgram([G.Assignment(x, Single(LitFactor(u))), G.Assignment(x, Single(LitFactor(v))),
                               G.PrintStmt(Single(G.Var(x)))])
  {
    var f, g := LitFactor(u), LitFactor(v);
    var a, b := [Token(Variable, x), Token(Assign, "=")] + [u], [Token(Variable, x), Token(Assign, "=")] + [v];
    var c := [Token(Print, "print")] + [Token(Variable, x)];
    assert [Token(Variable, x), Token(Assign, "="), u, Token(Variable, x), Token(Assign, "="), v,
            Token(Print, "print"), Token(Variable, x)] == a + (b + c);
    SinglePiece([u], f);
    AssignmentPiece(x, [u], Single(f));
    SinglePiece([v], g);
    AssignmentPiece(x, [v], Single(g));
    VarPiece(x);
    SinglePiece([Token(Variable, x)], G.Var(x));
    PrintPiece([Token(Variable, x)], Single(G.Var(x)));
    LastStmtPiece(c, G.PrintStmt(Single(G.Var(x))));
    ProgramPiece(b, c, G.Assignment(x, Single(g)), [G.PrintStmt(Single(G.Var(x)))]);
    ProgramPiece(a, b + c, G.Assignment(x, Single(f)), [G.Assignment(x, Single(g)), G.PrintStmt(Single(G.Var(x)))]);
  }

  /** `x = u x = v print x` prints the value of `v`: the second assignment overwrites the first. */
  lemma Reassignment(x: string, u: Token, v: Token)
    requires IsLiteral(u) && IsLiteral(v)
    ensures StmtListR([Token(Variable, x), Token(Assign, "="), u, Token(Variable, x),
                       Token(Assign, "="), v, Token(Print, "print"), Token(Variable, x)],
                      Machine(0, map[], [])) ==
              Finished(Machine(8, map[x := v.kind == TrueLit], [v.kind == TrueLit]))
  {
    var f, g := LitFactor(u), LitFactor(v);
    var a, b := u.kind == TrueLit, v.kind == TrueLit;
    var prog := [G.Assignment(x, Single(f)), G.Assignment(x, Single(g)), G.PrintStmt(Single(G.Var(x)))];
    ReassignmentRendering(x, u, v);
    SingleValue(f, map[]);
    SingleValue(g, map[x := a]);
    SingleValue(G.Var(x), map[x := b]);
    assert map[x := a][x := b] == map[x := b];
    assert prog[1..][1..] == [G.PrintStmt(Single(G.Var(x)))] && prog[1..][1..][1..] == [];
    assert G.Exec(prog[1..][1..], map[x := b], []) == G.Completed(map[x := b], [b]);
    assert G.Exec(prog[1..], map[x := a], []) == G.Exec(prog[1..][1..], map[x := b], []);
    assert G.Exec(prog, map[], []) == G.Exec(prog[1..], map[x := a], []);
    RunOfRendering([Token(Variable, x), Token(Assign, "="), u, Token(Variable, x),
                    Token(Assign, "="), v, Token(Print, "print"), Token(Variable, x)], prog);
  }

  /** `print y` with nothing assigned halts on `y`, printing nothing. */
  lemma UndefinedRead(y: string)
    ensures StmtListR([Token(Print, "print"), Token(Variable, y)], Machine(0, map[], [])) ==
              Halted(UndefinedVariable(y), Machine(2, map[], []))
  {
    var toks := [Token(Print, "print"), Token(Variable, y)];
    var prog := [G.PrintStmt(Single(G.Var(y)))];
    VarPiece(y);
    SinglePiece([Token(Variable, y)], G.Var(y));
    PrintPiece([Token(Variable, y)], Single(G.Var(y)));
    LastStmtPiece(toks, prog[0]);
    SingleValue(G.Var(y), map[]);
    A.ProgramRoundTrip(prog);
    assert toks[1].text == y;
    StmtMatchesExec(toks, Machine(0, map[], []));
  }

  /** The tree of `f or g and h`: `f or (g and h)`. */
  function OrAnd(f: G.Factor, g: G.Factor, h: G.Factor): G.Expr {
    G.Expr(G.TermA(G.Plain(f), G.BNil), G.AOr(G.TermA(G.Plain(g), G.BAnd(G.Plain(h), G.BNil)), G.ANil))
  }

  /** The stream `print u or v and w` is the rendering of `print u or (v and w)`. */
  lemma AndBeforeOrRendering(u: Token, v: Token, w: Token)
    requires IsLiteral(u) && IsLiteral(v) && IsLiteral(w)
    ensures Translate([Token(Print, "print"), u, Token(Or, "or"), v, Token(And, "and"), w]) ==
              G.RenderProgram([G.PrintStmt(OrAnd(LitFactor(u), LitFactor(v), LitFactor(w)))])
  {
    var f, g, h := LitFactor(u), LitFactor(v), LitFactor(w);
    var e := OrAnd(f, g, h);
    var vw := [v] + ([Token(And, "and")] + [w]);
    var rest := [u] + ([Token(Or, "or")] + vw);
    assert [Token(Print, "print"), u, Token(Or, "or"), v, Token(And, "and"), w] == [Token(Print, "print")] + rest;
    BAndPiece([w], G.Plain(h));
    TermAPiece([v], [Token(And, "and")] + [w], G.Plain(g), G.BAnd(G.Plain(h), G.BNil));
    AOrPiece(vw, e.tail.term);
    SingleTermAPiece([u], G.Plain(f));
    ExprPiece([u], [Token(Or, "or")] + vw, e.head, e.tail);
    PrintPiece(rest, e);
    LastStmtPiece([Token(Print, "print")] + rest, G.PrintStmt(e));
  }

  /** `print u or v and w` prints `u or (v and w)`: `and` binds tighter than `or`. */
  lemma AndBeforeOr(u: Token, v: Token, w: Token)
    requires IsLiteral(u) && IsLiteral(v) && IsLiteral(w)
    ensures StmtListR([Token(Print, "print"), u, Token(Or, "or"), v, Token(And, "and"), w],
                      Machine(0, map[], [])) ==
              Finished(Machine(6, map[], [u.kind == TrueLit || (v.kind == TrueLit && w.kind == TrueLit)]))
  {
    var f, g, h := LitFactor(u), LitFactor(v), LitFactor(w);
    var e := OrAnd(f, g, h);
    AndBeforeOrRendering(u, v, w);
    var b := u.kind == TrueLit || (v.kind == TrueLit && w.kind == TrueLit);
    assert G.EvalTermA(e.tail.term, map[]) == G.Val(v.kind == TrueLit && w.kind == TrueLit);
    assert G.EvalATail(e.tail, map[]) == G.Val(v.kind == TrueLit && w.kind == TrueLit);
    assert G.EvalTermA(e.head, map[]) == G.Val(u.kind == TrueLit);
    assert G.EvalExpr(e, map[]) == G.Val(b);
    assert G.Exec([G.PrintStmt(e)], map[], []) == G.Completed(map[], [b]);
    RunOfRendering([Token(Print, "print"), u, Token(Or, "or"), v, Token(And, "and"), w],
                   [G.PrintStmt(e)]);
  }

  /** The tree of `not f and g`: `(not f) and g`. */
  function NotAnd(f: G.Factor, g: G.Factor): G.Expr {
    G.Expr(G.TermA(G.Negated(f), G.BAnd(G.Plain(g), G.BNil)), G.ANil)
  }

  /** The stream `print not u and v` is the rendering of `print (not u) and v`. */
  lemma NotBeforeAndRendering(u: Token, v: Token)
    requires IsLiteral(u) && IsLiteral(v)
    ensures Translate([Token(Print, "print"), Token(Not, "not"), u, Token(And, "and"), v]) ==
              G.RenderProgram([G.PrintStmt(NotAnd(LitFactor(u), LitFactor(v)))])
  {
    var f, g := LitFactor(u), LitFactor(v);
    var e := NotAnd(f, g);
    var rest := ([Token(Not, "not")] + [u]) + ([Token(And, "and")] + [v]);
    assert [Token(Print, "print"), Token(Not, "not"), u, Token(And, "and"), v] == [Token(Print, "print")] + rest;
    NegatedPiece([u], f);
    BAndPiece([v], G.Plain(g));
    TermAPiece([Token(Not, "not")] + [u], [Token(And, "and")] + [v], G.Negated(f), G.BAnd(G.Plain(g), G.BNil));
    SingleExprPiece(rest, e.head);
    PrintPiece(rest, e);
    LastStmtPiece([Token(Print, "print")] + rest, G.PrintStmt(e));
  }

  /** `print not u and v` prints `(not u) and v`: `not` binds tighter than `and`. */
  lemma NotBeforeAnd(u: Token, v: Token)
    requires IsLiteral(u) && IsLiteral(v)
    ensures StmtListR([Token(Print, "print"), Token(Not, "not"), u, Token(And, "and"), v],
                      Machine(0, map[], [])) ==
              Finished(Machine(5, map[], [u.kind != TrueLit && v.kind == TrueLit]))
  {
    var f, g := LitFactor(u), LitFactor(v);
    var e := NotAnd(f, g);
    NotBeforeAndRendering(u, v);
    var b := u.kind != TrueLit && v.kind == TrueLit;
    assert G.EvalTermB(G.Negated(f), map[]) == G.Val(u.kind != TrueLit);
    assert G.EvalBTail(e.head.tail, map[]) == G.Val(v.kind == TrueLit);
    assert G.EvalTermA(e.head, map[]) == G.Val(b);
    assert G.EvalExpr(e, map[]) == G.Val(b);
    assert G.Exec([G.PrintStmt(e)], map[], []) == G.Completed(map[], [b]);
    RunOfRendering([Token(Print, "print"), Token(Not, "not"), u, Token(And, "and"), v],
                   [G.PrintStmt(e)]);
  }

  /** The stream `print (u and v` is `print (` followed by the rendering of `u and v`. */
  lemma UnbalancedRendering(u: Token, v: Token)
    requires IsLiteral(u) && IsLiteral(v)
    ensures var e := G.Expr(G.TermA(G.Plain(LitFactor(u)), G.BAnd(G.Plain(LitFactor(v)), G.BNil)), G.ANil);
            Translate([Token(Print, "print"), Token(LParen, "("), u, Token(And, "and"), v]) ==
              [PT.Token(PT.Print, "print")] + ([PT.Token(PT.LParen, "(")] + G.RenderExpr(e))
  {
    var f, g := LitFactor(u), LitFactor(v);
    var e := G.Expr(G.TermA(G.Plain(f), G.BAnd(G.Plain(g), G.BNil)), G.ANil);
    var rest := [u] + ([Token(And, "and")] + [v]);
    assert [Token(Print, "print"), Token(LParen, "("), u, Token(And, "and"), v] ==
             [Token(Print, "print")] + ([Token(LParen, "(")] + rest);
    BAndPiece([v], G.Plain(g));
    TermAPiece([u], [Token(And, "and")] + [v], G.Plain(f), G.BAnd(G.Plain(g), G.BNil));
    SingleExprPiece(rest, e.head);
    KeywordPiece(Token(LParen, "("), rest);
    KeywordPiece(Token(Print, "print"), [Token(LParen, "(")] + rest);
  }

  /** `print (u and v` halts at the end of input, where `)` was expected, having printed
      nothing. */
  lemma UnbalancedRun(u: Token, v: Token)
    requires IsLiteral(u) && IsLiteral(v)
    ensures StmtListR([Token(Print, "print"), Token(LParen, "("), u, Token(And, "and"), v],
                      Machine(0, map[], [])) ==
              Halted(Syntax(P.Mismatch(PT.EndOfInput, PT.RParen)), Machine(5, map[], []))
  {
    var toks := [Token(Print, "print"), Token(LParen, "("), u, Token(And, "and"), v];
    var e := G.Expr(G.TermA(G.Plain(LitFactor(u)), G.BAnd(G.Plain(LitFactor(v)), G.BNil)), G.ANil);
    UnbalancedRendering(u, v);
    assert [PT.Token(PT.Print, "print")] + ([PT.Token(PT.LParen, "(")] + G.RenderExpr(e)) ==
             [PT.Token(PT.Print, "print"), PT.Token(PT.LParen, "(")] + G.RenderExpr(e);
    PF.UnclosedParenthesis(e);
    PrintFails(toks, Machine(0, map[], []));
  }
}
