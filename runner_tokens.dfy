/** The tokens of runner.py and its lexicon (`create_scanner`, runner.py:14-43).

    As for parser.py, `Classify` takes one lexeme the scanner has already cut out and returns the
    action of the first pattern in list order that matches all of it; that plex breaks ties
    between patterns matching the same longest lexeme by list order is an assumption of this
    model. Here the literals are case-insensitive (`plex.NoCase`) and a space pattern matches a
    single character. */
module RunnerTokens {
  import opened Lexemes

  /** Token kinds: `plex.TEXT` kinds are the text (`not`, `and`, `or`, `=`, `(`, `)`, `print`);
      the others are `VARIABLE`, `TRUE` and `FALSE`. */
  datatype Kind = Variable | TrueLit | FalseLit | Not | And | Or | LParen | RParen | Assign | Print

  datatype Token = Token(kind: Kind, text: string)

  /** The lookahead `la`: a token kind, or `None` once the scanner is at the end. */
  datatype Lookahead = EndOfInput | Tok(kind: Kind)

  /** `true` (runner.py:23), compared after folding case. */
  const TrueSpellings: set<string> := {"true", "t", "1"}

  /** `false` (runner.py:24), compared after folding case. */
  const FalseSpellings: set<string> := {"false", "f", "0"}

  /** `op` (runner.py:27). */
  const OperatorWords: set<string> := {"not", "and", "or"}

  datatype Lexed = Emit(token: Token) | Skip | NoMatch

  function OperatorKind(s: string): Kind
    requires s in OperatorWords
  {
    if s == "not" then Not else if s == "and" then And else Or
  }

  /** None of the spellings of the patterns before `variable` but the literals has an upper-case
      letter, so none folds onto a literal. */
  lemma FixedSpellingsFold(s: string)
    ensures s in OperatorWords + {"=", "(", ")", "print"} || (|s| == 1 && IsSpace(s[0])) ==>
              LowerAll(s) == s
  {
    if s in OperatorWords + {"=", "(", ")", "print"} || (|s| == 1 && IsSpace(s[0])) {
      LowerAllFixes(s);
    }
  }

  /** The lexicon of runner.py:34-43, tried in list order: op, true, false, assign, parenthesis,
      space (ignored), keyword, variable. */
  function Classify(s: string): (r: Lexed)
    ensures r.Emit? ==> r.token.text == s
    ensures (r.Emit? && r.token.kind in {Not, And, Or}) <==> s in OperatorWords
    ensures (r.Emit? && r.token.kind == Not) <==> s == "not"
    ensures (r.Emit? && r.token.kind == And) <==> s == "and"
    ensures (r.Emit? && r.token.kind == Or) <==> s == "or"
    ensures (r.Emit? && r.token.kind == Assign) <==> s == "="
    ensures (r.Emit? && r.token.kind == LParen) <==> s == "("
    ensures (r.Emit? && r.token.kind == RParen) <==> s == ")"
    ensures (r.Emit? && r.token.kind == TrueLit) <==> LowerAll(s) in TrueSpellings
    ensures (r.Emit? && r.token.kind == FalseLit) <==> LowerAll(s) in FalseSpellings
    ensures (r.Emit? && r.token.kind == Print) <==> s == "print"
    ensures r == Skip <==> |s| == 1 && IsSpace(s[0])
    ensures (r.Emit? && r.token.kind == Variable) <==>
              IsIdentifier(s) && s !in OperatorWords && s != "print" &&
              LowerAll(s) !in TrueSpellings + FalseSpellings
    ensures r == NoMatch <==>
              s !in OperatorWords && LowerAll(s) !in TrueSpellings + FalseSpellings &&
              s !in {"=", "(", ")", "print"} && !(|s| == 1 && IsSpace(s[0])) && !IsIdentifier(s)
  {
    FixedSpellingsFold(s);
    if s in OperatorWords then Emit(Token(OperatorKind(s), s))
    else if LowerAll(s) in TrueSpellings then Emit(Token(TrueLit, s))
    else if LowerAll(s) in FalseSpellings then Emit(Token(FalseLit, s))
    else if s == "=" then Emit(Token(Assign, s))
    else if s == "(" then Emit(Token(LParen, s))
    else if s == ")" then Emit(Token(RParen, s))
    else if |s| == 1 && IsSpace(s[0]) then Skip
    else if s == "print" then Emit(Token(Print, s))
    else if IsIdentifier(s) then Emit(Token(Variable, s))
    else NoMatch
  }

  /** Every case spelling of the literals lexes as a literal, never as a name: `t` alone and
      `TRUE` are `TRUE`, `F` and `0` are `FALSE`. */
  lemma LiteralSpellings()
    ensures Classify("t") == Emit(Token(TrueLit, "t"))
    ensures Classify("TRUE") == Emit(Token(TrueLit, "TRUE"))
    ensures Classify("tRuE") == Emit(Token(TrueLit, "tRuE"))
    ensures Classify("1") == Emit(Token(TrueLit, "1"))
    ensures Classify("F") == Emit(Token(FalseLit, "F"))
    ensures Classify("False") == Emit(Token(FalseLit, "False"))
    ensures Classify("0") == Emit(Token(FalseLit, "0"))
    ensures Classify("tr").Emit? && Classify("tr").token.kind == Variable
  {
    assert LowerAll("TRUE") == "true";
    assert LowerAll("tRuE") == "true";
    assert LowerAll("False") == "false";
    assert LowerAll("F") == "f";
    LowerAllFixes("t");
    LowerAllFixes("1");
    LowerAllFixes("0");
    LowerAllFixes("tr");
  }
}
