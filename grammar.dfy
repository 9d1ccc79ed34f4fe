/** The language parser.py recognises, as trees, and what its programs mean.

    The tree types follow the productions one to one (parser.py:84-192):
      stmt_list  := stmt stmt_list | (end of input)
      stmt       := id '=' expr | 'print' expr
      expr       := termA termA_tail
      termA_tail := 'or' termA termA_tail | (empty)
      termA      := termB termB_tail
      termB_tail := 'and' termB termB_tail | (empty)
      termB      := factor | 'not' factor
      factor     := '(' expr ')' | id | Bool_exp
    so `or` is the weakest operator, `and` binds tighter and `not` applies to one factor.

    parser.py computes no values. The meaning of a program (`Exec`) is the one the language is
    designed to have: statements run in order against a symbol table from names to booleans,
    assignment binds or rebinds one name, `print` appends a value to the output, and reading an
    unbound name is an error rather than a default. */
module Grammar {
  import opened Lexemes
  import opened ParserTokens

  datatype Expr = Expr(head: TermA, tail: ATail)
  datatype ATail = ANil | AOr(term: TermA, rest: ATail)
  datatype TermA = TermA(head: TermB, tail: BTail)
  datatype BTail = BNil | BAnd(term: TermB, rest: BTail)
  datatype TermB = Plain(factor: Factor) | Negated(factor: Factor)
  datatype Factor = Paren(inner: Expr) | Var(name: string) | Lit(text: string)
  datatype Stmt = Assignment(name: string, rhs: Expr) | PrintStmt(arg: Expr)

  // ---------------------------------------------------------------------------------------------
  // Rendering a tree as the token sequence it is parsed from

  function RenderExpr(e: Expr): seq<Token>
    decreases e
  {
    RenderTermA(e.head) + RenderATail(e.tail)
  }

  function RenderATail(t: ATail): seq<Token>
    decreases t
  {
    match t
    case ANil => []
    case AOr(a, rest) => [Token(Or, "or")] + RenderTermA(a) + RenderATail(rest)
  }

  function RenderTermA(a: TermA): seq<Token>
    decreases a
  {
    RenderTermB(a.head) + RenderBTail(a.tail)
  }

  function RenderBTail(t: BTail): seq<Token>
    decreases t
  {
    match t
    case BNil => []
    case BAnd(b, rest) => [Token(And, "and")] + RenderTermB(b) + RenderBTail(rest)
  }

  function RenderTermB(b: TermB): seq<Token>
    decreases b
  {
    match b
    case Plain(f) => RenderFactor(f)
    case Negated(f) => [Token(Not, "not")] + RenderFactor(f)
  }

  function RenderFactor(f: Factor): seq<Token>
    decreases f
  {
    match f
    case Paren(e) => [Token(LParen, "(")] + RenderExpr(e) + [Token(RParen, ")")]
    case Var(x) => [Token(Id, x)]
    case Lit(s) => [Token(BoolExp, s)]
  }

  function RenderStmt(s: Stmt): seq<Token> {
    match s
    case Assignment(x, e) => [Token(Id, x), Token(Assign, "=")] + RenderExpr(e)
    case PrintStmt(e) => [Token(Print, "print")] + RenderExpr(e)
  }

  function RenderProgram(prog: seq<Stmt>): seq<Token>
    decreases |prog|
  {
    if prog == [] then [] else RenderStmt(prog[0]) + RenderProgram(prog[1..])
  }

  // ---------------------------------------------------------------------------------------------
  // Meaning

  /** The value of an expression, or the first (leftmost) name it reads that is unbound. */
  datatype Value = Val(b: bool) | Unbound(name: string)

  function OrV(x: Value, y: Value): Value {
    if x.Unbound? then x else if y.Unbound? then y else Val(x.b || y.b)
  }

  function AndV(x: Value, y: Value): Value {
    if x.Unbound? then x else if y.Unbound? then y else Val(x.b && y.b)
  }

  /** A literal means true when it is a spelling of true, case folded: `true`, `t` or `1`. */
  predicate LitValue(text: string) {
    LowerAll(text) in {"true", "t", "1"}
  }

  function EvalExpr(e: Expr, st: map<string, bool>): Value
    decreases e
  {
    OrV(EvalTermA(e.head, st), EvalATail(e.tail, st))
  }

  function EvalATail(t: ATail, st: map<string, bool>): Value
    decreases t
  {
    match t
    case ANil => Val(false)
    case AOr(a, rest) => OrV(EvalTermA(a, st), EvalATail(rest, st))
  }

  function EvalTermA(a: TermA, st: map<string, bool>): Value
    decreases a
  {
    AndV(EvalTermB(a.head, st), EvalBTail(a.tail, st))
  }

  function EvalBTail(t: BTail, st: map<string, bool>): Value
    decreases t
  {
    match t
    case BNil => Val(true)
    case BAnd(b, rest) => AndV(EvalTermB(b, st), EvalBTail(rest, st))
  }

  function EvalTermB(b: TermB, st: map<string, bool>): Value
    decreases b
  {
    match b
    case Plain(f) => EvalFactor(f, st)
    case Negated(f) =>
      var v := EvalFactor(f, st);
      if v.Unbound? then v else Val(!v.b)
  }

  function EvalFactor(f: Factor, st: map<string, bool>): Value
    decreases f
  {
    match f
    case Paren(e) => EvalExpr(e, st)
    case Var(x) => if x in st then Val(st[x]) else Unbound(x)
    case Lit(s) => Val(LitValue(s))
  }

  /** The result of running statements: the final table and output, or the unbound name that
      stopped the run with the table and output reached by then. */
  datatype ExecResult =
    | Completed(st: map<string, bool>, out: seq<bool>)
    | Stuck(name: string, st: map<string, bool>, out: seq<bool>)

  function ExecStmt(s: Stmt, st: map<string, bool>, out: seq<bool>): ExecResult {
    match s
    case Assignment(x, e) =>
      var v := EvalExpr(e, st);
      if v.Unbound? then Stuck(v.name, st, out) else Completed(st[x := v.b], out)
    case PrintStmt(e) =>
      var v := EvalExpr(e, st);
      if v.Unbound? then Stuck(v.name, st, out) else Completed(st, out + [v.b])
  }

  function Exec(prog: seq<Stmt>, st: map<string, bool>, out: seq<bool>): ExecResult
    decreases |prog|
  {
    if prog == [] then Completed(st, out)
    else match ExecStmt(prog[0], st, out)
      case Stuck(x, st', out') => Stuck(x, st', out')
      case Completed(st', out') => Exec(prog[1..], st', out')
  }

  // ---------------------------------------------------------------------------------------------
  // Names an expression reads

  function VarsExpr(e: Expr): set<string>
    decreases e
  {
    VarsTermA(e.head) + VarsATail(e.tail)
  }

  function VarsATail(t: ATail): set<string>
    decreases t
  {
    match t
    case ANil => {}
    case AOr(a, rest) => VarsTermA(a) + VarsATail(rest)
  }

  function VarsTermA(a: TermA): set<string>
    decreases a
  {
    VarsTermB(a.head) + VarsBTail(a.tail)
  }

  function VarsBTail(t: BTail): set<string>
    decreases t
  {
    match t
    case BNil => {}
    case BAnd(b, rest) => VarsTermB(b) + VarsBTail(rest)
  }

  function VarsTermB(b: TermB): set<string>
    decreases b
  {
    VarsFactor(b.factor)
  }

  function VarsFactor(f: Factor): set<string>
    decreases f
  {
    match f
    case Paren(e) => VarsExpr(e)
    case Var(x) => {x}
    case Lit(_) => {}
  }

  /** An expression has a value exactly when every name it reads is bound; otherwise the error
      names a name it reads that is unbound. */
  lemma {:induction false} ExprUnbound(e: Expr, st: map<string, bool>)
    ensures EvalExpr(e, st).Val? <==> VarsExpr(e) <= st.Keys
    ensures EvalExpr(e, st).Unbound? ==>
              EvalExpr(e, st).name in VarsExpr(e) && EvalExpr(e, st).name !in st
    decreases e
  {
    TermAUnbound(e.head, st);
    ATailUnbound(e.tail, st);
  }

  lemma {:induction false} ATailUnbound(t: ATail, st: map<string, bool>)
    ensures EvalATail(t, st).Val? <==> VarsATail(t) <= st.Keys
    ensures EvalATail(t, st).Unbound? ==>
              EvalATail(t, st).name in VarsATail(t) && EvalATail(t, st).name !in st
    decreases t
  {
    match t
    case ANil =>
    case AOr(a, rest) =>
      TermAUnbound(a, st);
      ATailUnbound(rest, st);
  }

  lemma {:induction false} TermAUnbound(a: TermA, st: map<string, bool>)
    ensures EvalTermA(a, st).Val? <==> VarsTermA(a) <= st.Keys
    ensures EvalTermA(a, st).Unbound? ==>
              EvalTermA(a, st).name in VarsTermA(a) && EvalTermA(a, st).name !in st
    decreases a
  {
    TermBUnbound(a.head, st);
    BTailUnbound(a.tail, st);
  }

  lemma {:induction false} BTailUnbound(t: BTail, st: map<string, bool>)
    ensures EvalBTail(t, st).Val? <==> VarsBTail(t) <= st.Keys
    ensures EvalBTail(t, st).Unbound? ==>
              EvalBTail(t, st).name in VarsBTail(t) && EvalBTail(t, st).name !in st
    decreases t
  {
    match t
    case BNil =>
    case BAnd(b, rest) =>
      TermBUnbound(b, st);
      BTailUnbound(rest, st);
  }

  lemma {:induction false} TermBUnbound(b: TermB, st: map<string, bool>)
    ensures EvalTermB(b, st).Val? <==> VarsTermB(b) <= st.Keys
    ensures EvalTermB(b, st).Unbound? ==>
              EvalTermB(b, st).name in VarsTermB(b) && EvalTermB(b, st).name !in st
    decreases b
  {
    FactorUnbound(b.factor, st);
  }

  lemma {:induction false} FactorUnbound(f: Factor, st: map<string, bool>)
    ensures EvalFactor(f, st).Val? <==> VarsFactor(f) <= st.Keys
    ensures EvalFactor(f, st).Unbound? ==>
              EvalFactor(f, st).name in VarsFactor(f) && EvalFactor(f, st).name !in st
    decreases f
  {
    match f
    case Paren(e) => ExprUnbound(e, st);
    case Var(x) =>
    case Lit(_) =>
  }

  // ---------------------------------------------------------------------------------------------
  // Statements

  /** An assignment runs exactly when its right-hand side has a value; it then binds its name to
      that value, overwriting an earlier binding, and leaves every other binding and the output as
      they were. Otherwise it stops on a name that is unbound, with nothing changed. */
  lemma AssignmentEffect(x: string, e: Expr, st: map<string, bool>, out: seq<bool>)
    ensures ExecStmt(Assignment(x, e), st, out).Completed? <==> VarsExpr(e) <= st.Keys
    ensures var r := ExecStmt(Assignment(x, e), st, out);
            r.Completed? ==>
              r.st.Keys == st.Keys + {x} && r.st[x] == EvalExpr(e, st).b && r.out == out &&
              forall y :: y in st && y != x ==> r.st[y] == st[y]
    ensures var r := ExecStmt(Assignment(x, e), st, out);
            r.Stuck? ==> r.name !in st && r.name in VarsExpr(e) && r.st == st && r.out == out
  {
    ExprUnbound(e, st);
  }

  /** A `print` runs exactly when its argument has a value; it then appends that value to the
      output and leaves the table as it was. Otherwise it stops on a name that is unbound. */
  lemma PrintEffect(e: Expr, st: map<string, bool>, out: seq<bool>)
    ensures ExecStmt(PrintStmt(e), st, out).Completed? <==> VarsExpr(e) <= st.Keys
    ensures var r := ExecStmt(PrintStmt(e), st, out);
            r.Completed? ==> r.st == st && r.out == out + [EvalExpr(e, st).b]
    ensures var r := ExecStmt(PrintStmt(e), st, out);
            r.Stuck? ==> r.name !in st && r.name in VarsExpr(e) && r.st == st && r.out == out
  {
    ExprUnbound(e, st);
  }

  /** A program runs its first statement and then, unless that stopped, the rest of the program
      from the table and output the first one left. */
  lemma ExecCons(s: Stmt, rest: seq<Stmt>, st: map<string, bool>, out: seq<bool>)
    ensures var e := ExecStmt(s, st, out);
            Exec([s] + rest, st, out) == if e.Stuck? then e else Exec(rest, e.st, e.out)
  {
    assert ([s] + rest)[0] == s && ([s] + rest)[1..] == rest;
  }

  /** Running two programs one after the other is running their concatenation: the second starts
      from the table and output the first leaves, unless the first got stuck, which stops the
      whole run there. */
  lemma {:induction false} ExecAppend(p: seq<Stmt>, q: seq<Stmt>, st: map<string, bool>, out: seq<bool>)
    ensures var e := Exec(p, st, out);
            Exec(p + q, st, out) == if e.Stuck? then e else Exec(q, e.st, e.out)
    decreases |p|
  {
    if p == [] {
      assert p + q == q;
    } else {
      assert p + q == [p[0]] + (p[1..] + q);
      assert p == [p[0]] + p[1..];
      ExecCons(p[0], p[1..] + q, st, out);
      ExecCons(p[0], p[1..], st, out);
      var e := ExecStmt(p[0], st, out);
      if e.Completed? {
        ExecAppend(p[1..], q, e.st, e.out);
      }
    }
  }

  /** Output is only ever appended to: whatever a run prints, stuck or not, extends what had been
      printed before it. */
  lemma {:induction false} ExecKeepsOutput(prog: seq<Stmt>, st: map<string, bool>, out: seq<bool>)
    ensures |out| <= |Exec(prog, st, out).out| && Exec(prog, st, out).out[..|out|] == out
    decreases |prog|
  {
    if prog != [] {
      var e := ExecStmt(prog[0], st, out);
      if e.Completed? {
        ExecKeepsOutput(prog[1..], e.st, e.out);
        assert e.out[..|out|] == out;
        var r := Exec(prog[1..], e.st, e.out).out;
        assert r[..|out|] == r[..|e.out|][..|out|];
      }
    }
  }
}
