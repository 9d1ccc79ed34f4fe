/** What runner.py's statement layer does, stated against the meaning of programs in module
    Grammar; the defects of runner.py as written; and example runs. */
module RunnerFacts {
  import opened Lexemes
  import opened RunnerTokens
  import opened Runner
  import PT = ParserTokens
  import G = Grammar
  import P = Productions
  import A = Acceptance
  import PF = ParserFacts

  // ---------------------------------------------------------------------------------------------
  // The runner runs the program parser.py parses

  lemma LaTranslate(toks: seq<Token>, p: nat)
    ensures P.La(Translate(toks), p) == (if p < |toks| then PT.Tok(ParserKind(toks[p].kind)) else PT.EndOfInput)
  {
  }

  /** The corrected guard of `expr` is parser.py's FIRST set of `expr`, read on runner tokens. */
  lemma GuardIsFirstSet(toks: seq<Token>, p: nat)
    ensures StartsExpr(La(toks, p)) <==> P.FirstOfExpr(P.La(Translate(toks), p))
  {
    LaTranslate(toks, p);
  }

  /** An expression of the runner ends where parser.py's `expr` ends on the same tokens; it has
      a value exactly when that parse returns and the tree has a value in the current table, and
      the value is the tree's. */
  lemma ExprMatchesEval(toks: seq<Token>, p: nat, st: map<string, bool>)
    requires p <= |toks|
    ensures var o := P.ExprF(Translate(toks), p); var r := ExprR(toks, p, st);
            r.pos == o.pos &&
            (o.Parsed? && G.EvalExpr(o.tree, st).Val? ==>
               r == Evaluated(G.EvalExpr(o.tree, st).b, o.pos)) &&
            (o.Parsed? && G.EvalExpr(o.tree, st).Unbound? ==>
               r == Raised(UndefinedVariable(G.EvalExpr(o.tree, st).name), o.pos)) &&
            (o.Failed? ==> r.Raised?)
  {
    GuardIsFirstSet(toks, p);
  }

  /** A statement of the runner ends where parser.py's `stmt` ends on the same tokens; when that
      parse returns, the runner does what `ExecStmt` does with the parsed statement; when it
      raises, the runner halts with the table and output unchanged. */
  lemma StmtMatchesExec(toks: seq<Token>, m: Machine)
    requires m.pos <= |toks|
    ensures var o := P.StmtF(Translate(toks), m.pos); var run := StmtR(toks, m);
            (o.Parsed? && G.ExecStmt(o.tree, m.st, m.out).Completed? ==>
               run == Finished(Machine(o.pos, G.ExecStmt(o.tree, m.st, m.out).st,
                                       G.ExecStmt(o.tree, m.st, m.out).out))) &&
            (o.Parsed? && G.ExecStmt(o.tree, m.st, m.out).Stuck? ==>
               run == Halted(UndefinedVariable(G.ExecStmt(o.tree, m.st, m.out).name),
                             Machine(o.pos, m.st, m.out))) &&
            (o.Failed? ==> run.Halted? && run.m == m.(pos := o.pos))
  {
    LaTranslate(toks, m.pos);
    if La(toks, m.pos) == Tok(Variable) {
      AssignmentMatchesExec(toks, m);
    } else if La(toks, m.pos) == Tok(Print) {
      PrintMatchesExec(toks, m);
    }
  }

  lemma AssignmentMatchesExec(toks: seq<Token>, m: Machine)
    requires m.pos <= |toks| && La(toks, m.pos) == Tok(Variable)
    ensures var o := P.StmtF(Translate(toks), m.pos); var run := StmtR(toks, m);
            (o.Parsed? && G.ExecStmt(o.tree, m.st, m.out).Completed? ==>
               run == Finished(Machine(o.pos, G.ExecStmt(o.tree, m.st, m.out).st,
                                       G.ExecStmt(o.tree, m.st, m.out).out))) &&
            (o.Parsed? && G.ExecStmt(o.tree, m.st, m.out).Stuck? ==>
               run == Halted(UndefinedVariable(G.ExecStmt(o.tree, m.st, m.out).name),
                             Machine(o.pos, m.st, m.out))) &&
            (o.Failed? ==> run.Halted? && run.m == m.(pos := o.pos))
  {
    if La(toks, m.pos + 1) != Tok(Assign) {
      AssignmentMismatch(toks, m);
    } else {
      var o := P.ExprF(Translate(toks), m.pos + 2);
      if o.Failed? {
        AssignmentFails(toks, m);
      } else if G.EvalExpr(o.tree, m.st).Val? {
        AssignmentRuns(toks, m);
      } else {
        AssignmentSticks(toks, m);
      }
    }
  }

  lemma AssignmentMismatch(toks: seq<Token>, m: Machine)
    requires m.pos <= |toks| && La(toks, m.pos) == Tok(Variable) && La(toks, m.pos + 1) != Tok(Assign)
    ensures var o := P.StmtF(Translate(toks), m.pos);
            o.Failed? && o.pos == m.pos + 1 &&
            StmtR(toks, m) == Halted(Mismatch(La(toks, m.pos + 1), Assign), m.(pos := m.pos + 1))
  {
    LaTranslate(toks, m.pos);
    LaTranslate(toks, m.pos + 1);
  }

  lemma AssignmentFails(toks: seq<Token>, m: Machine)
    requires m.pos <= |toks| && La(toks, m.pos) == Tok(Variable) && La(toks, m.pos + 1) == Tok(Assign)
    requires P.ExprF(Translate(toks), m.pos + 2).Failed?
    ensures var o := P.StmtF(Translate(toks), m.pos);
            o.Failed? && StmtR(toks, m).Halted? && StmtR(toks, m).m == m.(pos := o.pos)
  {
    LaTranslate(toks, m.pos);
    LaTranslate(toks, m.pos + 1);
    A.StmtFAssignment(Translate(toks), m.pos);
    ExprMatchesEval(toks, m.pos + 2, m.st);
    AssignmentStep(toks, m, ExprR(toks, m.pos + 2, m.st));
  }

  lemma AssignmentRuns(toks: seq<Token>, m: Machine)
    requires m.pos <= |toks| && La(toks, m.pos) == Tok(Variable) && La(toks, m.pos + 1) == Tok(Assign)
    requires var o := P.ExprF(Translate(toks), m.pos + 2); o.Parsed? && G.EvalExpr(o.tree, m.st).Val?
    ensures var o := P.StmtF(Translate(toks), m.pos); var e := G.ExecStmt(o.tree, m.st, m.out);
            o.Parsed? && e.Completed? && StmtR(toks, m) == Finished(Machine(o.pos, e.st, e.out))
  {
    LaTranslate(toks, m.pos);
    LaTranslate(toks, m.pos + 1);
    A.StmtFAssignment(Translate(toks), m.pos);
    ExprMatchesEval(toks, m.pos + 2, m.st);
    AssignmentStep(toks, m, ExprR(toks, m.pos + 2, m.st));
    assert Translate(toks)[m.pos].text == toks[m.pos].text;
  }

  lemma AssignmentSticks(toks: seq<Token>, m: Machine)
    requires m.pos <= |toks| && La(toks, m.pos) == Tok(Variable) && La(toks, m.pos + 1) == Tok(Assign)
    requires var o := P.ExprF(Translate(toks), m.pos + 2); o.Parsed? && G.EvalExpr(o.tree, m.st).Unbound?
    ensures var o := P.StmtF(Translate(toks), m.pos); var e := G.ExecStmt(o.tree, m.st, m.out);
            o.Parsed? && e.Stuck? && StmtR(toks, m) == Halted(UndefinedVariable(e.name), Machine(o.pos, m.st, m.out))
  {
    LaTranslate(toks, m.pos);
    LaTranslate(toks, m.pos + 1);
    A.StmtFAssignment(Translate(toks), m.pos);
    ExprMatchesEval(toks, m.pos + 2, m.st);
    AssignmentStep(toks, m, ExprR(toks, m.pos + 2, m.st));
  }

  lemma PrintMatchesExec(toks: seq<Token>, m: Machine)
    requires m.pos <= |toks| && La(toks, m.pos) == Tok(Print)
    ensures var o := P.StmtF(Translate(toks), m.pos); var run := StmtR(toks, m);
            (o.Parsed? && G.ExecStmt(o.tree, m.st, m.out).Completed? ==>
               run == Finished(Machine(o.pos, G.ExecStmt(o.tree, m.st, m.out).st,
                                       G.ExecStmt(o.tree, m.st, m.out).out))) &&
            (o.Parsed? && G.ExecStmt(o.tree, m.st, m.out).Stuck? ==>
               run == Halted(UndefinedVariable(G.ExecStmt(o.tree, m.st, m.out).name),
                             Machine(o.pos, m.st, m.out))) &&
            (o.Failed? ==> run.Halted? && run.m == m.(pos := o.pos))
  {
    var o := P.ExprF(Translate(toks), m.pos + 1);
    if o.Failed? {
      PrintFails(toks, m);
    } else if G.EvalExpr(o.tree, m.st).Val? {
      PrintRuns(toks, m);
    } else {
      PrintSticks(toks, m);
    }
  }

  /** A `print` whose argument raises in parser.py halts where parser.py stopped: with `InExpr`
      when no expression starts there, and with parser.py's error otherwise. */
  lemma PrintFails(toks: seq<Token>, m: Machine)
    requires m.pos <= |toks| && La(toks, m.pos) == Tok(Print)
    requires P.ExprF(Translate(toks), m.pos + 1).Failed?
    ensures var o := P.ExprF(Translate(toks), m.pos + 1);
            P.StmtF(Translate(toks), m.pos) == P.Failed(o.error, o.pos) &&
            StmtR(toks, m) == Halted(if StartsExpr(La(toks, m.pos + 1)) then Syntax(o.error) else InExpr,
                                     m.(pos := o.pos))
  {
    LaTranslate(toks, m.pos);
    A.StmtFPrint(Translate(toks), m.pos);
    ExprMatchesEval(toks, m.pos + 1, m.st);
    GuardIsFirstSet(toks, m.pos + 1);
    PrintStep(toks, m, ExprR(toks, m.pos + 1, m.st));
  }

  lemma PrintRuns(toks: seq<Token>, m: Machine)
    requires m.pos <= |toks| && La(toks, m.pos) == Tok(Print)
    requires var o := P.ExprF(Translate(toks), m.pos + 1); o.Parsed? && G.EvalExpr(o.tree, m.st).Val?
    ensures var o := P.StmtF(Translate(toks), m.pos); var e := G.ExecStmt(o.tree, m.st, m.out);
            o.Parsed? && e.Completed? && StmtR(toks, m) == Finished(Machine(o.pos, e.st, e.out))
  {
    LaTranslate(toks, m.pos);
    A.StmtFPrint(Translate(toks), m.pos);
    ExprMatchesEval(toks, m.pos + 1, m.st);
    PrintStep(toks, m, ExprR(toks, m.pos + 1, m.st));
  }

  lemma PrintSticks(toks: seq<Token>, m: Machine)
    requires m.pos <= |toks| && La(toks, m.pos) == Tok(Print)
    requires var o := P.ExprF(Translate(toks), m.pos + 1); o.Parsed? && G.EvalExpr(o.tree, m.st).Unbound?
    ensures var o := P.StmtF(Translate(toks), m.pos); var e := G.ExecStmt(o.tree, m.st, m.out);
            o.Parsed? && e.Stuck? && StmtR(toks, m) == Halted(UndefinedVariable(e.name), Machine(o.pos, m.st, m.out))
  {
    LaTranslate(toks, m.pos);
    A.StmtFPrint(Translate(toks), m.pos);
    ExprMatchesEval(toks, m.pos + 1, m.st);
    PrintStep(toks, m, ExprR(toks, m.pos + 1, m.st));
  }

  /** Whole runs: when parser.py accepts the tokens, the runner ends exactly as `Exec` runs the
      parsed program from the same table and output: it finishes at the end with Exec's table
      and output, or halts on the same unbound name with the same table and output. When
      parser.py rejects the tokens, the runner halts. */
  lemma {:induction false} RunMatchesExec(toks: seq<Token>, m: Machine)
    requires m.pos <= |toks|
    ensures var o := P.StmtListF(Translate(toks), m.pos); var run := StmtListR(toks, m);
            (o.Parsed? && G.Exec(o.tree, m.st, m.out).Completed? ==>
               run == Finished(Machine(|toks|, G.Exec(o.tree, m.st, m.out).st,
                                       G.Exec(o.tree, m.st, m.out).out))) &&
            (o.Parsed? && G.Exec(o.tree, m.st, m.out).Stuck? ==>
               run.Halted? && run.error == UndefinedVariable(G.Exec(o.tree, m.st, m.out).name) &&
               run.m.st == G.Exec(o.tree, m.st, m.out).st &&
               run.m.out == G.Exec(o.tree, m.st, m.out).out) &&
            (o.Failed? ==> run.Halted?)
    decreases |toks| - m.pos
  {
    var T, p := Translate(toks), m.pos;
    LaTranslate(toks, p);
    var la := La(toks, p);
    if la == Tok(Variable) || la == Tok(Print) {
      StmtMatchesExec(toks, m);
      var s := P.StmtF(T, p);
      if s.Parsed? {
        var e := G.ExecStmt(s.tree, m.st, m.out);
        if e.Completed? {
          var m' := Machine(s.pos, e.st, e.out);
          RunMatchesExec(toks, m');
          var rest := P.StmtListF(T, s.pos);
          if rest.Parsed? {
            G.ExecCons(s.tree, rest.tree, m.st, m.out);
          }
        } else {
          var rest := P.StmtListF(T, s.pos);
          if rest.Parsed? {
            G.ExecCons(s.tree, rest.tree, m.st, m.out);
          }
        }
      }
    }
  }

  /** A run from the start with an empty table finishes exactly on the renderings of programs
      whose run by `Exec` gets to the end, with Exec's table and output. */
  lemma RunsPrograms(toks: seq<Token>)
    ensures var run := StmtListR(toks, Machine(0, map[], []));
            run.Finished? <==>
              exists prog :: G.RenderProgram(prog) == Translate(toks) && G.Exec(prog, map[], []).Completed?
    ensures var run := StmtListR(toks, Machine(0, map[], []));
            forall prog :: G.RenderProgram(prog) == Translate(toks) && G.Exec(prog, map[], []).Completed? ==>
              run.m.st == G.Exec(prog, map[], []).st && run.m.out == G.Exec(prog, map[], []).out
  {
    var T := Translate(toks);
    RunMatchesExec(toks, Machine(0, map[], []));
    A.AcceptsExactlyPrograms(T);
    forall prog | G.RenderProgram(prog) == T
      ensures P.StmtListF(T, 0) == P.Parsed(prog, |T|)
    {
      A.ProgramRoundTrip(prog);
    }
  }

  // ---------------------------------------------------------------------------------------------
  // Statements

  /** An assignment that runs binds the name captured before its token was consumed to the value
      of the right-hand side, overwriting an earlier binding; every other binding and the output
      stay as they were. */
  lemma AssignmentBindsOneName(toks: seq<Token>, m: Machine)
    requires m.pos <= |toks| && La(toks, m.pos) == Tok(Variable)
    requires StmtR(toks, m).Finished?
    ensures var x, m' := toks[m.pos].text, StmtR(toks, m).m;
            m'.st.Keys == m.st.Keys + {x} && m'.st[x] == ExprR(toks, m.pos + 2, m.st).value &&
            (forall y :: y in m.st && y != x ==> m'.st[y] == m.st[y]) && m'.out == m.out
  {
  }

  /** A `print` that runs leaves the table as it was and appends the value of its argument. */
  lemma PrintKeepsTable(toks: seq<Token>, m: Machine)
    requires m.pos <= |toks| && La(toks, m.pos) == Tok(Print)
    requires StmtR(toks, m).Finished?
    ensures var m' := StmtR(toks, m).m;
            m'.st == m.st && m'.out == m.out + [ExprR(toks, m.pos + 1, m.st).value]
  {
  }

  /** A statement that halts leaves the table and output as they were, and only one of `VARIABLE`
      and `print` starts a statement. */
  lemma HaltedStmtChangesNothing(toks: seq<Token>, m: Machine)
    requires m.pos <= |toks|
    ensures StmtR(toks, m).Halted? ==> StmtR(toks, m).m.st == m.st && StmtR(toks, m).m.out == m.out
    ensures StmtR(toks, m) == Halted(InStmt, m) <==> La(toks, m.pos) !in {Tok(Variable), Tok(Print)}
  {
    if La(toks, m.pos) == Tok(Print) {
      assert m.pos < ExprR(toks, m.pos + 1, m.st).pos;
    }
  }

  /** `stmt_list` of the runner finishes only at the end of input, and raises its own error
      exactly on a lookahead that starts no statement and is not the end. */
  lemma StmtListRStops(toks: seq<Token>, m: Machine)
    requires m.pos <= |toks|
    ensures StmtListR(toks, m).Finished? ==> La(toks, StmtListR(toks, m).m.pos) == EndOfInput
    ensures StmtListR(toks, m) == Halted(InStmtList, m) <==>
              La(toks, m.pos) !in {Tok(Variable), Tok(Print), EndOfInput}
  {
    if La(toks, m.pos) == Tok(Variable) || La(toks, m.pos) == Tok(Print) {
      assert m.pos < StmtR(toks, m).m.pos || StmtR(toks, m).Halted?;
    }
  }

  // ---------------------------------------------------------------------------------------------
  // runner.py as written

  /** Python truthiness of a string. */
  predicate Truthy(s: string) {
    |s| > 0
  }

  /** The guard of `expr` and `termA` as written (runner.py:105, 131): the last operand of the
      `or` chain is the string `'not'`, not a comparison with `self.la`. */
  function GuardAsWritten(la: Lookahead): (b: bool)
    ensures b
  {
    la == Tok(LParen) || la == Tok(Variable) || la == Tok(TrueLit) || la == Tok(FalseLit)
    || Truthy("not")
  }

  /** The guard as written lets `)` through, where no expression can start, so the `raise` of
      runner.py:113 and runner.py:144 is never reached; the corrected guard rejects it. */
  lemma GuardAsWrittenAdmitsParen()
    ensures GuardAsWritten(Tok(RParen)) && !StartsExpr(Tok(RParen))
    ensures GuardAsWritten(EndOfInput) && !StartsExpr(EndOfInput)
  {
  }

  /** The follow set of `termA_tail` as written (runner.py:125). */
  predicate ATailFollowAsWritten(la: Lookahead) {
    la == Tok(RParen) || la == Tok(Variable) || la == Tok(Print)
  }

  /** The follow set of `factor_tail` as written (runner.py:159). */
  predicate FactorTailFollowAsWritten(la: Lookahead) {
    la == Tok(Variable) || la == Tok(Or) || la == Tok(RParen) || la == Tok(Print)
  }

  /** `print true`: after the literal the lookahead is the end of input, which is neither `and`
      nor in the follow set of `factor_tail` (nor `or` nor in that of `termA_tail`). As written,
      then, a last expression made only of literals and operators, reached without an earlier
      error, raises at the end of input: no follow set as written holds the end of input, while
      both of parser.py's do (`EndsATail`, `EndsBTail`). With those the same program runs and
      prints its value (`RunnerExamples.PrintLiteralRuns`). */
  lemma FollowSetsAsWrittenMissEnd()
    ensures var toks := [Token(Print, "print"), Token(TrueLit, "true")];
            La(toks, 2) == EndOfInput &&
            La(toks, 2) != Tok(And) && !FactorTailFollowAsWritten(La(toks, 2)) &&
            La(toks, 2) != Tok(Or) && !ATailFollowAsWritten(La(toks, 2))
    ensures forall la :: ATailFollowAsWritten(la) ==> la != EndOfInput
    ensures forall la :: FactorTailFollowAsWritten(la) ==> la != EndOfInput
    ensures P.EndsATail(PT.EndOfInput) && P.EndsBTail(PT.EndOfInput)
  {
  }

  /** The result of a variable read in `factor`: the bound value, an unbound name, or Python's
      `NameError` when an identifier the code uses resolves in no scope. */
  datatype Read = Found(value: bool) | NotFound | NameError

  /** The names bound in the body of `factor`: its only parameter, `self` (runner.py:164). */
  const FactorLocals: set<string> := {"self"}

  /** The names bound at module level in runner.py: `plex` (line 1), `ParseError` (3),
      `MyParser` (7), `parser` (202) and `fp` (205). */
  const ModuleGlobals: set<string> := {"plex", "ParseError", "MyParser", "parser", "fp"}

  /** The builtins runner.py uses; Python has no builtin `name`. */
  const UsedBuiltins: set<string> := {"print", "open", "Exception"}

  /** The names an identifier read in the body of `factor` can resolve to: Python looks in the
      function's locals, then the module's globals, then the builtins (the class body is not a
      scope of its methods). */
  const FactorScope: set<string> := FactorLocals + ModuleGlobals + UsedBuiltins

  /** The read of runner.py:172-173 in a body whose visible names are `bound`: the test
      `name in self.st` first evaluates the identifier `name`, and only once that resolves (to the
      lexeme, as `stmt` binds it) is the table looked up. */
  function ReadIn(bound: set<string>, st: map<string, bool>, lexeme: string): (r: Read)
    ensures r == NameError <==> "name" !in bound
    ensures r.Found? <==> "name" in bound && lexeme in st
    ensures r.Found? ==> r.value == st[lexeme]
  {
    if "name" !in bound then NameError
    else if lexeme in st then Found(st[lexeme])
    else NotFound
  }

  /** A variable read as written (runner.py:171-173): `name` is none of the names `factor` can
      see, so the read raises `NameError` whatever the table holds. */
  function ReadAsWritten(st: map<string, bool>, lexeme: string): (r: Read)
    ensures r == NameError
  {
    ReadIn(FactorScope, st, lexeme)
  }

  /** As written, reading `x` fails even right after `x = true`. With `name` in scope the same
      read finds the bound value, which is what the corrected model's `EvalFactor` gives. */
  lemma ReadAsWrittenFailsOnBound()
    ensures ReadAsWritten(map["x" := true], "x") == NameError
    ensures ReadIn(FactorScope + {"name"}, map["x" := true], "x") == Found(true)
    ensures G.EvalFactor(G.Var("x"), map["x" := true]) == G.Val(true)
  {
  }
}
