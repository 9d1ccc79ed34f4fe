/** The interpreter of runner.py: class `MyParser` (runner.py:7-197), the same recursive-descent
    machine as parser.py plus a symbol table `st` that assignments write into.

    The statement layer is modelled as written: `stmt_list`, `stmt` (the name is read from `val`
    before its token is consumed, then `=` is matched and `st[name]` is set to the value of the
    expression), `match`, `operator` and `boolean`. The guard of `expr` is modelled in its
    corrected form (see `GuardAsWritten`). The rest of runner.py's expression code cannot run as
    written, so the value of an expression is the one of module Grammar: the tokens are read into
    parser.py's token kinds, parsed by parser.py's productions and evaluated against `st`.
    The output of `print` statements is an output sequence. */
module Runner {
  import opened Lexemes
  import opened RunnerTokens
  import PT = ParserTokens
  import G = Grammar
  import P = Productions
  import A = Acceptance

  // ---------------------------------------------------------------------------------------------
  // Reading runner tokens as parser.py tokens

  function ParserKind(k: Kind): PT.Kind {
    match k
    case Variable => PT.Id
    case TrueLit => PT.BoolExp
    case FalseLit => PT.BoolExp
    case Not => PT.Not
    case And => PT.And
    case Or => PT.Or
    case LParen => PT.LParen
    case RParen => PT.RParen
    case Assign => PT.Assign
    case Print => PT.Print
  }

  /** A runner token as a parser.py token: a name keeps its text, a literal becomes the spelling
      of its truth value, and every other kind carries its own text. */
  function ToParserToken(t: Token): (u: PT.Token)
    ensures u.kind == ParserKind(t.kind) && PT.Fixed(u)
    ensures t.kind == Variable ==> u.text == t.text
    ensures t.kind in {TrueLit, FalseLit} ==> u.text in {"true", "false"}
  {
    match t.kind
    case Variable => PT.Token(PT.Id, t.text)
    case TrueLit => PT.Token(PT.BoolExp, "true")
    case FalseLit => PT.Token(PT.BoolExp, "false")
    case _ => PT.Token(ParserKind(t.kind), PT.KindName(ParserKind(t.kind)))
  }

  /** A literal keeps its truth value: `TRUE` reads as a literal parser.py takes for true, and
      `FALSE` as one it takes for false. */
  lemma LiteralValue(t: Token)
    ensures t.kind == TrueLit ==> G.LitValue(ToParserToken(t).text)
    ensures t.kind == FalseLit ==> !G.LitValue(ToParserToken(t).text)
  {
    assert LowerAll("true") == "true" && LowerAll("false") == "false";
  }

  function Translate(toks: seq<Token>): (r: seq<PT.Token>)
    ensures |r| == |toks| && PT.WellFormed(r)
    ensures forall i :: 0 <= i < |toks| ==> r[i] == ToParserToken(toks[i])
  {
    seq(|toks|, i requires 0 <= i < |toks| => ToParserToken(toks[i]))
  }

  // ---------------------------------------------------------------------------------------------
  // The machine as functions

  function La(toks: seq<Token>, p: nat): Lookahead {
    if p < |toks| then Tok(toks[p].kind) else EndOfInput
  }

  function TextAt(toks: seq<Token>, p: nat): string {
    if p < |toks| then toks[p].text else ""
  }

  /** The FIRST set of `expr` over runner tokens: `(`, `VARIABLE`, `TRUE`, `FALSE`, `not`. */
  predicate StartsExpr(la: Lookahead) {
    la == Tok(LParen) || la == Tok(Variable) || la == Tok(TrueLit) || la == Tok(FalseLit)
    || la == Tok(Not)
  }

  /** Why a run stopped: a failed `match`, the raising production, a syntax error inside an
      expression, or a read of a name that was never assigned. */
  datatype RunError =
    | Mismatch(found: Lookahead, expected: Kind)
    | InStmtList | InStmt | InExpr | InBoolean
    | Syntax(cause: P.ParseError)
    | UndefinedVariable(name: string)

  /** The state of a run: the cursor, the symbol table and the output so far. */
  datatype Machine = Machine(pos: nat, st: map<string, bool>, out: seq<bool>)

  datatype RunResult = Finished(m: Machine) | Halted(error: RunError, m: Machine)

  datatype ExprOutcome = Evaluated(value: bool, pos: nat) | Raised(error: RunError, pos: nat)

  /** `expr` with the FIRST-set guard of runner.py:105 corrected: the value of the expression
      that starts at `p`, and where it ends. */
  function ExprR(toks: seq<Token>, p: nat, st: map<string, bool>): (r: ExprOutcome)
    requires p <= |toks|
    ensures p <= r.pos <= |toks|
    ensures r.Evaluated? ==> p < r.pos
    ensures !StartsExpr(La(toks, p)) ==> r == Raised(InExpr, p)
  {
    if !StartsExpr(La(toks, p)) then Raised(InExpr, p)
    else match P.ExprF(Translate(toks), p)
      case Failed(e, q) => Raised(Syntax(e), q)
      case Parsed(e, q) =>
        var v := G.EvalExpr(e, st);
        if v.Unbound? then Raised(UndefinedVariable(v.name), q) else Evaluated(v.b, q)
  }

  /** `stmt` (runner.py:91-101). */
  function StmtR(toks: seq<Token>, m: Machine): (r: RunResult)
    requires m.pos <= |toks|
    ensures m.pos <= r.m.pos <= |toks|
    ensures r.Finished? ==> m.pos < r.m.pos
  {
    var p := m.pos;
    var la := La(toks, p);
    if la == Tok(Variable) then
      var name := toks[p].text;
      if La(toks, p + 1) != Tok(Assign) then Halted(Mismatch(La(toks, p + 1), Assign), m.(pos := p + 1))
      else match ExprR(toks, p + 2, m.st)
        case Raised(e, q) => Halted(e, m.(pos := q))
        case Evaluated(v, q) => Finished(Machine(q, m.st[name := v], m.out))
    else if la == Tok(Print) then
      match ExprR(toks, p + 1, m.st)
      case Raised(e, q) => Halted(e, m.(pos := q))
      case Evaluated(v, q) => Finished(Machine(q, m.st, m.out + [v]))
    else Halted(InStmt, m)
  }

  /** `stmt_list` (runner.py:81-88). */
  function StmtListR(toks: seq<Token>, m: Machine): (r: RunResult)
    requires m.pos <= |toks|
    ensures m.pos <= r.m.pos <= |toks|
    ensures r.Finished? ==> r.m.pos == |toks|
    decreases |toks| - m.pos
  {
    var la := La(toks, m.pos);
    if la == Tok(Variable) || la == Tok(Print) then
      match StmtR(toks, m)
      case Halted(e, m') => Halted(e, m')
      case Finished(m') => StmtListR(toks, m')
    else if la == EndOfInput then Finished(m)
    else Halted(InStmtList, m)
  }

  /** An assignment whose `=` is in place ends as the value of its right-hand side says. */
  lemma AssignmentStep(toks: seq<Token>, m: Machine, x: ExprOutcome)
    requires m.pos + 2 <= |toks| && La(toks, m.pos) == Tok(Variable) && La(toks, m.pos + 1) == Tok(Assign)
    requires x == ExprR(toks, m.pos + 2, m.st)
    ensures StmtR(toks, m) == if x.Raised? then Halted(x.error, m.(pos := x.pos))
                              else Finished(Machine(x.pos, m.st[toks[m.pos].text := x.value], m.out))
  {
  }

  /** A `print` ends as the value of its argument says. */
  lemma PrintStep(toks: seq<Token>, m: Machine, x: ExprOutcome)
    requires m.pos + 1 <= |toks| && La(toks, m.pos) == Tok(Print)
    requires x == ExprR(toks, m.pos + 1, m.st)
    ensures StmtR(toks, m) == if x.Raised? then Halted(x.error, m.(pos := x.pos))
                              else Finished(Machine(x.pos, m.st, m.out + [x.value]))
  {
  }

  // ---------------------------------------------------------------------------------------------
  // The object

  datatype Status = Pass | Raise(error: RunError)

  /** A method that ended with status `r` in state `m` did what `o` describes. */
  predicate Agrees(r: Status, m: Machine, o: RunResult) {
    m == o.m && (if o.Finished? then r == Pass else r == Raise(o.error))
  }

  /** The word operators `operator()` consumes (runner.py:190-195). */
  predicate IsOperator(la: Lookahead) {
    la == Tok(Or) || la == Tok(And) || la == Tok(Not)
  }

  class MyParser {
    const toks: seq<Token>
    var pos: nat
    var la: Lookahead
    var val: string
    var st: map<string, bool>
    var out: seq<bool>

    ghost predicate Valid()
      reads this
    {
      pos <= |toks| && la == La(toks, pos) && val == TextAt(toks, pos)
    }

    ghost function State(): Machine
      reads this
    {
      Machine(pos, st, out)
    }

    /** `__init__` (runner.py:11-12) and `create_scanner` (runner.py:46-49) on a given token
        stream: the symbol table starts empty and the first lookahead is read. */
    constructor (tokens: seq<Token>)
      ensures Valid() && toks == tokens && pos == 0 && st == map[] && out == []
    {
      toks := tokens;
      pos := 0;
      la, val := La(tokens, 0), TextAt(tokens, 0);
      st := map[];
      out := [];
    }

    /** `match` (runner.py:62-71). */
    method Match(t: Kind) returns (r: Status)
      requires Valid()
      modifies this
      ensures Valid() && st == old(st) && out == old(out)
      ensures old(la) == Tok(t) ==> r == Pass && pos == old(pos) + 1
      ensures old(la) != Tok(t) ==> r == Raise(Mismatch(old(la), t)) && pos == old(pos)
    {
      if la == Tok(t) {
        pos := pos + 1;
        la, val := La(toks, pos), TextAt(toks, pos);
        r := Pass;
      } else {
        r := Raise(Mismatch(la, t));
      }
    }

    /** `stmt_list` (runner.py:81-88); statement iteration is tail recursion. */
    method StmtList() returns (r: Status)
      requires Valid()
      modifies this
      ensures Valid() && Agrees(r, State(), StmtListR(toks, old(State())))
      decreases |toks| - pos
    {
      if la == Tok(Variable) || la == Tok(Print) {
        r := Stmt();
        if r.Pass? {
          r := StmtList();
        }
      } else if la == EndOfInput {
        r := Pass;
      } else {
        r := Raise(InStmtList);
      }
    }

    /** `stmt` (runner.py:91-101); its two branches are the methods below. */
    method Stmt() returns (r: Status)
      requires Valid()
      modifies this
      ensures Valid() && Agrees(r, State(), StmtR(toks, old(State())))
    {
      if la == Tok(Variable) {
        r := Assignment();
      } else if la == Tok(Print) {
        r := PrintStmt();
      } else {
        r := Raise(InStmt);
      }
    }

    /** The assignment branch of `stmt` (runner.py:92-96): the name is read from `val` before its
        token is consumed, then `=` is matched and `st[name]` is set to the value of `expr`. */
    method Assignment() returns (r: Status)
      requires Valid() && la == Tok(Variable)
      modifies this
      ensures Valid() && Agrees(r, State(), StmtR(toks, old(State())))
    {
      var name := val;
      r := Match(Variable);
      r := Match(Assign);
      if r.Pass? {
        AssignmentStep(toks, old(State()), ExprR(toks, pos, st));
        var v;
        r, v := Expr();
        if r.Pass? {
          st := st[name := v];
        }
      }
    }

    /** The `print` branch of `stmt` (runner.py:97-99): the value of `expr` is appended to the
        output. */
    method PrintStmt() returns (r: Status)
      requires Valid() && la == Tok(Print)
      modifies this
      ensures Valid() && Agrees(r, State(), StmtR(toks, old(State())))
    {
      r := Match(Print);
      PrintStep(toks, old(State()), ExprR(toks, pos, st));
      var v;
      r, v := Expr();
      if r.Pass? {
        out := out + [v];
      }
    }

    /** `expr` (runner.py:104-113) with its guard corrected, returning the value. */
    method Expr() returns (r: Status, v: bool)
      requires Valid()
      modifies this
      ensures Valid() && st == old(st) && out == old(out)
      ensures var o := ExprR(toks, old(pos), old(st));
              pos == o.pos && (if o.Evaluated? then r == Pass && v == o.value else r == Raise(o.error))
    {
      if StartsExpr(la) {
        var o := P.ExprF(Translate(toks), pos);
        pos := o.pos;
        la, val := La(toks, pos), TextAt(toks, pos);
        if o.Failed? {
          r, v := Raise(Syntax(o.error)), false;
        } else {
          var x := G.EvalExpr(o.tree, st);
          if x.Unbound? {
            r, v := Raise(UndefinedVariable(x.name)), false;
          } else {
            r, v := Pass, x.b;
          }
        }
      } else {
        r, v := Raise(InExpr), false;
      }
    }

    /** `boolean` (runner.py:180-186). */
    method Boolean() returns (r: Status)
      requires Valid()
      modifies this
      ensures Valid() && st == old(st) && out == old(out)
      ensures old(la) in {Tok(TrueLit), Tok(FalseLit)} ==> r == Pass && pos == old(pos) + 1
      ensures old(la) !in {Tok(TrueLit), Tok(FalseLit)} ==> r == Raise(InBoolean) && pos == old(pos)
    {
      if la == Tok(TrueLit) {
        r := Match(TrueLit);
      } else if la == Tok(FalseLit) {
        r := Match(FalseLit);
      } else {
        r := Raise(InBoolean);
      }
    }

    /** `operator` (runner.py:189-197): it never raises and returns nothing. */
    method Operator()
      requires Valid()
      modifies this
      ensures Valid() && st == old(st) && out == old(out)
      ensures IsOperator(old(la)) ==> pos == old(pos) + 1
      ensures !IsOperator(old(la)) ==> pos == old(pos)
    {
      if la == Tok(Or) {
        var _ := Match(Or);
      } else if la == Tok(And) {
        var _ := Match(And);
      } else if la == Tok(Not) {
        var _ := Match(Not);
      }
    }
  }

  /** `parse` (runner.py:73-79) on a fresh object: runs the program from the first token with an
      empty table; returns how it ended, where the cursor stopped, and the final table and
      output. */
  method Parse(tokens: seq<Token>) returns (r: Status, at: nat, st: map<string, bool>, out: seq<bool>)
    ensures Agrees(r, Machine(at, st, out), StmtListR(tokens, Machine(0, map[], [])))
  {
    var parser := new MyParser(tokens);
    r := parser.StmtList();
    at, st, out := parser.pos, parser.st, parser.out;
  }
}
