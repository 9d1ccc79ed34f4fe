/** The recogniser of parser.py: class `MyParser` (parser.py:12-212).

    The object holds the token stream the scanner would deliver, the cursor into it, and the
    lookahead pair `la`/`val` that `match` overwrites on every consumed token. Each production is
    a method that only moves the cursor; a raised `ParseError` is an `Raise` status that every
    caller hands straight back, so the cursor stays where the error was raised. Every method is
    proved to end exactly as the function of the same production in module Productions says,
    which says what is accepted (module Acceptance). */
module Parser {
  import opened Lexemes
  import opened ParserTokens
  import opened Grammar
  import opened Productions
  import opened Acceptance

  /** A production returned normally, or raised `ParseError`. */
  datatype Status = Pass | Raise(error: ParseError)

  /** A method that ended with status `r` and its cursor at `pos` did what `o` describes. */
  predicate Agrees<T>(r: Status, pos: nat, o: Outcome<T>) {
    pos == o.pos && (if o.Parsed? then r == Pass else r == Raise(o.error))
  }

  /** The word operators `operator()` consumes (parser.py:197-209). */
  predicate IsOperator(la: Lookahead) {
    la == Tok(Or) || la == Tok(And) || la == Tok(Not)
  }

  class MyParser {
    const toks: seq<Token>
    var pos: nat
    var la: Lookahead
    var val: string

    /** `la`/`val` are the token at the cursor, or `None` and the empty text at the end. */
    ghost predicate Valid()
      reads this
    {
      pos <= |toks| && la == La(toks, pos) && val == TextAt(toks, pos)
    }

    /** `create_scanner` (parser.py:18-48) on a given token stream: the first lookahead is read. */
    constructor (tokens: seq<Token>)
      ensures Valid() && toks == tokens && pos == 0
    {
      toks := tokens;
      pos := 0;
      la, val := La(tokens, 0), TextAt(tokens, 0);
    }

    /** `match` (parser.py:64-71). */
    method Match(t: Kind) returns (r: Status)
      requires Valid()
      modifies this
      ensures Valid()
      ensures old(la) == Tok(t) ==> r == Pass && pos == old(pos) + 1
      ensures old(la) != Tok(t) ==> r == Raise(Mismatch(old(la), t)) && pos == old(pos)
    {
      if la == Tok(t) {
        pos := pos + 1;
        la, val := La(toks, pos), TextAt(toks, pos);
        r := Pass;
      } else {
        r := Raise(Mismatch(la, t));
      }
    }

    /** `stmt_list` (parser.py:84-92); statement iteration is tail recursion. */
    method StmtList() returns (r: Status)
      requires Valid()
      modifies this
      ensures Valid() && Agrees(r, pos, StmtListF(toks, old(pos)))
      decreases |toks| - pos, 1
    {
      if la == Tok(Id) || la == Tok(Print) {
        r := Stmt();
        if r.Pass? {
          r := StmtList();
        }
      } else if la == EndOfInput {
        r := Pass;
      } else {
        r := Raise(InStmtList);
      }
    }

    /** `stmt` (parser.py:95-111). */
    method Stmt() returns (r: Status)
      requires Valid()
      modifies this
      ensures Valid() && Agrees(r, pos, StmtF(toks, old(pos)))
      decreases |toks| - pos, 0
    {
      if la == Tok(Id) {
        r := Match(Id);
        if r.Pass? {
          r := Match(Assign);
          if r.Pass? {
            r := Expr();
          }
        }
      } else if la == Tok(Print) {
        r := Match(Print);
        if r.Pass? {
          r := Expr();
        }
      } else {
        r := Raise(InStmt);
      }
    }

    /** `expr` (parser.py:115-121). */
    method Expr() returns (r: Status)
      requires Valid()
      modifies this
      ensures Valid() && Agrees(r, pos, ExprF(toks, old(pos)))
      decreases |toks| - pos, 3
    {
      if la == Tok(LParen) || la == Tok(Id) || la == Tok(BoolExp) || la == Tok(Not) {
        r := TermA();
        if r.Pass? {
          r := TermATail();
        }
      } else {
        r := Raise(InExpr);
      }
    }

    /** `termA_tail` (parser.py:124-133). */
    method TermATail() returns (r: Status)
      requires Valid()
      modifies this
      ensures Valid() && Agrees(r, pos, ATailF(toks, old(pos)))
      decreases |toks| - pos, 0
    {
      if la == Tok(Or) {
        r := Operator();
        if r.Pass? {
          r := TermA();
          if r.Pass? {
            r := TermATail();
          }
        }
      } else if EndsATail(la) {
        r := Pass;
      } else {
        r := Raise(InTermATail);
      }
    }

    /** `termA` (parser.py:136-142). */
    method TermA() returns (r: Status)
      requires Valid()
      modifies this
      ensures Valid() && Agrees(r, pos, TermAF(toks, old(pos)))
      decreases |toks| - pos, 2
    {
      if la == Tok(LParen) || la == Tok(Id) || la == Tok(BoolExp) || la == Tok(Not) {
        r := TermB();
        if r.Pass? {
          r := TermBTail();
        }
      } else {
        r := Raise(InTermA);
      }
    }

    /** `termB_tail` (parser.py:145-154). */
    method TermBTail() returns (r: Status)
      requires Valid()
      modifies this
      ensures Valid() && Agrees(r, pos, BTailF(toks, old(pos)))
      decreases |toks| - pos, 0
    {
      if la == Tok(And) {
        r := Operator();
        if r.Pass? {
          r := TermB();
          if r.Pass? {
            r := TermBTail();
          }
        }
      } else if EndsBTail(la) {
        r := Pass;
      } else {
        r := Raise(InTermBTail);
      }
    }

    /** `termB` (parser.py:157-165). */
    method TermB() returns (r: Status)
      requires Valid()
      modifies this
      ensures Valid() && Agrees(r, pos, TermBF(toks, old(pos)))
      decreases |toks| - pos, 1
    {
      if la == Tok(LParen) || la == Tok(Id) || la == Tok(BoolExp) {
        r := Factor();
      } else if la == Tok(Not) {
        r := Operator();
        if r.Pass? {
          r := Factor();
        }
      } else {
        r := Raise(InTermB);
      }
    }

    /** `factor` (parser.py:170-192). */
    method Factor() returns (r: Status)
      requires Valid()
      modifies this
      ensures Valid() && Agrees(r, pos, FactorF(toks, old(pos)))
      decreases |toks| - pos, 0
    {
      if la == Tok(LParen) {
        r := Match(LParen);
        if r.Pass? {
          r := Expr();
          if r.Pass? {
            r := Match(RParen);
          }
        }
      } else if la == Tok(Id) {
        r := Match(Id);
      } else if la == Tok(BoolExp) {
        r := Match(BoolExp);
      } else {
        r := Raise(InFactor);
      }
    }

    /** `operator` (parser.py:195-212). */
    method Operator() returns (r: Status)
      requires Valid()
      modifies this
      ensures Valid()
      ensures IsOperator(old(la)) ==> r == Pass && pos == old(pos) + 1
      ensures !IsOperator(old(la)) ==> r == Raise(InOperator) && pos == old(pos)
    {
      if la == Tok(Or) {
        r := Match(Or);
      } else if la == Tok(And) {
        r := Match(And);
      } else if la == Tok(Not) {
        r := Match(Not);
      } else {
        r := Raise(InOperator);
      }
    }
  }

  /** `parse` (parser.py:74-81) on a given token stream: a fresh cursor at the first token, then
      `stmt_list`. It returns the status and where the cursor stopped; on a stream the lexicon
      can produce it passes exactly when the stream is the rendering of a program. */
  method Parse(tokens: seq<Token>) returns (r: Status, at: nat)
    ensures Agrees(r, at, StmtListF(tokens, 0))
    ensures r.Pass? ==> at == |tokens|
    ensures WellFormed(tokens) ==> (r.Pass? <==> exists prog :: RenderProgram(prog) == tokens)
  {
    var parser := new MyParser(tokens);
    r := parser.StmtList();
    at := parser.pos;
    if WellFormed(tokens) {
      AcceptsExactlyPrograms(tokens);
    }
  }
}
