/** The productions of parser.py (parser.py:64-192) as functions of a token sequence and a
    cursor position.

    Each function does what the method of the same production does to the cursor: it starts at
    position `p`, and either returns normally with the cursor at `pos`, or raises a `ParseError`
    with the cursor at `pos`. It also returns the tree of what it consumed, which the source does
    not build; the class in module Parser is proved to move its cursor exactly as these functions
    say. Every production is well founded on (remaining tokens, nesting rank): a production only
    calls one of lower rank at the same position, and a production that recurses into itself or a
    higher one has consumed a token first. */
module Productions {
  import opened Lexemes
  import opened ParserTokens
  import opened Grammar

  /** `ParseError`: the raising production, or a failed `match` ("found la instead of t"). */
  datatype ParseError =
    | Mismatch(found: Lookahead, expected: Kind)
    | InStmtList | InStmt | InExpr | InTermATail | InTermA | InTermBTail | InTermB | InFactor
    | InOperator

  /** How a production ends: normally, with what it consumed, or raising; either way with the
      cursor where it stopped. */
  datatype Outcome<T> = Parsed(tree: T, pos: nat) | Failed(error: ParseError, pos: nat)

  /** The lookahead `la` when the cursor is at `p`; past the last token it is `None`. */
  function La(toks: seq<Token>, p: nat): Lookahead {
    if p < |toks| then Tok(toks[p].kind) else EndOfInput
  }

  /** The matched text `val` when the cursor is at `p`. */
  function TextAt(toks: seq<Token>, p: nat): string {
    if p < |toks| then toks[p].text else ""
  }

  /** The lead tokens `expr` and `termA` accept (parser.py:117, 138). */
  predicate FirstOfExpr(la: Lookahead) {
    la == Tok(LParen) || la == Tok(Id) || la == Tok(BoolExp) || la == Tok(Not)
  }

  /** The lookaheads on which `termA_tail` takes its empty branch (parser.py:130). */
  predicate EndsATail(la: Lookahead) {
    la == Tok(And) || la == Tok(Not) || la == Tok(RParen) || la == Tok(Id) || la == Tok(Print)
    || la == EndOfInput
  }

  /** The lookaheads on which `termB_tail` takes its empty branch (parser.py:151). */
  predicate EndsBTail(la: Lookahead) {
    la == Tok(Or) || la == Tok(Not) || la == Tok(RParen) || la == Tok(Id) || la == Tok(Print)
    || la == EndOfInput
  }

  /** `match(t)` (parser.py:64-71). */
  function MatchF(toks: seq<Token>, p: nat, t: Kind): (r: Outcome<string>)
    requires p <= |toks|
    ensures r.Parsed? <==> La(toks, p) == Tok(t)
    ensures r.Parsed? ==> r.pos == p + 1 <= |toks| && r.tree == toks[p].text
    ensures r.Failed? ==> r == Failed(Mismatch(La(toks, p), t), p)
  {
    if La(toks, p) == Tok(t) then Parsed(toks[p].text, p + 1)
    else Failed(Mismatch(La(toks, p), t), p)
  }

  /** `stmt_list` (parser.py:84-92). */
  function StmtListF(toks: seq<Token>, p: nat): (r: Outcome<seq<Stmt>>)
    requires p <= |toks|
    ensures p <= r.pos <= |toks|
    ensures r.Parsed? ==> r.pos == |toks|
    decreases |toks| - p, 1
  {
    var la := La(toks, p);
    if la == Tok(Id) || la == Tok(Print) then
      match StmtF(toks, p)
      case Failed(e, q) => Failed(e, q)
      case Parsed(s, q) =>
        match StmtListF(toks, q)
        case Failed(e, q') => Failed(e, q')
        case Parsed(ss, q') => Parsed([s] + ss, q')
    else if la == EndOfInput then Parsed([], p)
    else Failed(InStmtList, p)
  }

  /** `stmt` (parser.py:95-111). */
  function StmtF(toks: seq<Token>, p: nat): (r: Outcome<Stmt>)
    requires p <= |toks|
    ensures p <= r.pos <= |toks|
    ensures r.Parsed? ==> p < r.pos
    decreases |toks| - p, 0
  {
    var la := La(toks, p);
    if la == Tok(Id) then
      var name := toks[p].text;
      match MatchF(toks, p + 1, Assign)
      case Failed(e, q) => Failed(e, q)
      case Parsed(_, q) =>
        match ExprF(toks, q)
        case Failed(e, q') => Failed(e, q')
        case Parsed(rhs, q') => Parsed(Assignment(name, rhs), q')
    else if la == Tok(Print) then
      match ExprF(toks, p + 1)
      case Failed(e, q) => Failed(e, q)
      case Parsed(arg, q) => Parsed(PrintStmt(arg), q)
    else Failed(InStmt, p)
  }

  /** `expr` (parser.py:115-121). */
  function ExprF(toks: seq<Token>, p: nat): (r: Outcome<Expr>)
    requires p <= |toks|
    ensures p <= r.pos <= |toks|
    ensures r.Parsed? ==> p < r.pos
    decreases |toks| - p, 3
  {
    if FirstOfExpr(La(toks, p)) then
      match TermAF(toks, p)
      case Failed(e, q) => Failed(e, q)
      case Parsed(a, q) =>
        match ATailF(toks, q)
        case Failed(e, q') => Failed(e, q')
        case Parsed(t, q') => Parsed(Expr(a, t), q')
    else Failed(InExpr, p)
  }

  /** `termA_tail` (parser.py:124-133); `operator()` consumes the `or`. */
  function ATailF(toks: seq<Token>, p: nat): (r: Outcome<ATail>)
    requires p <= |toks|
    ensures p <= r.pos <= |toks|
    ensures r.Parsed? && r.tree.AOr? ==> p < r.pos
    decreases |toks| - p, 0
  {
    var la := La(toks, p);
    if la == Tok(Or) then
      match TermAF(toks, p + 1)
      case Failed(e, q) => Failed(e, q)
      case Parsed(a, q) =>
        match ATailF(toks, q)
        case Failed(e, q') => Failed(e, q')
        case Parsed(t, q') => Parsed(AOr(a, t), q')
    else if EndsATail(la) then Parsed(ANil, p)
    else Failed(InTermATail, p)
  }

  /** `termA` (parser.py:136-142). */
  function TermAF(toks: seq<Token>, p: nat): (r: Outcome<TermA>)
    requires p <= |toks|
    ensures p <= r.pos <= |toks|
    ensures r.Parsed? ==> p < r.pos
    decreases |toks| - p, 2
  {
    if FirstOfExpr(La(toks, p)) then
      match TermBF(toks, p)
      case Failed(e, q) => Failed(e, q)
      case Parsed(b, q) =>
        match BTailF(toks, q)
        case Failed(e, q') => Failed(e, q')
        case Parsed(t, q') => Parsed(TermA(b, t), q')
    else Failed(InTermA, p)
  }

  /** `termB_tail` (parser.py:145-154); `operator()` consumes the `and`. */
  function BTailF(toks: seq<Token>, p: nat): (r: Outcome<BTail>)
    requires p <= |toks|
    ensures p <= r.pos <= |toks|
    ensures r.Parsed? && r.tree.BAnd? ==> p < r.pos
    decreases |toks| - p, 0
  {
    var la := La(toks, p);
    if la == Tok(And) then
      match TermBF(toks, p + 1)
      case Failed(e, q) => Failed(e, q)
      case Parsed(b, q) =>
        match BTailF(toks, q)
        case Failed(e, q') => Failed(e, q')
        case Parsed(t, q') => Parsed(BAnd(b, t), q')
    else if EndsBTail(la) then Parsed(BNil, p)
    else Failed(InTermBTail, p)
  }

  /** `termB` (parser.py:157-165); `operator()` consumes the `not`. */
  function TermBF(toks: seq<Token>, p: nat): (r: Outcome<TermB>)
    requires p <= |toks|
    ensures p <= r.pos <= |toks|
    ensures r.Parsed? ==> p < r.pos
    decreases |toks| - p, 1
  {
    var la := La(toks, p);
    if la == Tok(LParen) || la == Tok(Id) || la == Tok(BoolExp) then
      match FactorF(toks, p)
      case Failed(e, q) => Failed(e, q)
      case Parsed(f, q) => Parsed(Plain(f), q)
    else if la == Tok(Not) then
      match FactorF(toks, p + 1)
      case Failed(e, q) => Failed(e, q)
      case Parsed(f, q) => Parsed(Negated(f), q)
    else Failed(InTermB, p)
  }

  /** `factor` (parser.py:170-192). */
  function FactorF(toks: seq<Token>, p: nat): (r: Outcome<Factor>)
    requires p <= |toks|
    ensures p <= r.pos <= |toks|
    ensures r.Parsed? ==> p < r.pos
    decreases |toks| - p, 0
  {
    var la := La(toks, p);
    if la == Tok(LParen) then
      match ExprF(toks, p + 1)
      case Failed(e, q) => Failed(e, q)
      case Parsed(inner, q) =>
        match MatchF(toks, q, RParen)
        case Failed(e, q') => Failed(e, q')
        case Parsed(_, q') => Parsed(Paren(inner), q')
    else if la == Tok(Id) then Parsed(Var(toks[p].text), p + 1)
    else if la == Tok(BoolExp) then Parsed(Lit(toks[p].text), p + 1)
    else Failed(InFactor, p)
  }
}
