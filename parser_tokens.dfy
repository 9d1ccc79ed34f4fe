/** The tokens of parser.py and its lexicon (`create_scanner`, parser.py:18-44).

    The lexicon is a prioritised list of (pattern, action) pairs. `Classify` models what the list
    does with one lexeme that the scanner has already cut out: the FIRST pattern in list order that
    matches the whole lexeme decides the action. That plex breaks ties between patterns that match
    the same longest lexeme by list order is an assumption of this model. Longest-match splitting,
    positions and file reading are not modelled. */
module ParserTokens {
  import opened Lexemes

  /** Token kinds. For `plex.TEXT` actions the kind is the matched text itself (`not`, `and`,
      `or`, `(`, `)`, `=`, `print`); literals are `Bool_exp` and identifiers `id`. */
  datatype Kind = Id | BoolExp | Not | And | Or | LParen | RParen | Assign | Print

  /** A token as the scanner returns it: `(la, val)`, the kind and the matched text. */
  datatype Token = Token(kind: Kind, text: string)

  /** The lookahead `la`: a token kind, or `None` once the scanner is at the end. */
  datatype Lookahead = EndOfInput | Tok(kind: Kind)

  /** The string the source compares `la` with. */
  function KindName(k: Kind): string {
    match k
    case Id => "id"
    case BoolExp => "Bool_exp"
    case Not => "not"
    case And => "and"
    case Or => "or"
    case LParen => "("
    case RParen => ")"
    case Assign => "="
    case Print => "print"
  }

  /** A token whose kind came from a `plex.TEXT` action carries that kind's own text. */
  predicate Fixed(t: Token) {
    t.kind == Id || t.kind == BoolExp || t.text == KindName(t.kind)
  }

  /** Every token of a stream the lexicon can produce is `Fixed` (see `Classify`). */
  predicate WellFormed(toks: seq<Token>) {
    forall i :: 0 <= i < |toks| ==> Fixed(toks[i])
  }

  /** `Bool_exp` (parser.py:27): the exact spellings, no case folding. */
  const BoolExpSpellings: set<string> :=
    {"true", "TRUE", "True", "t", "T", "false", "FALSE", "False", "f", "F", "0", "1"}

  /** `operator` (parser.py:33). */
  const OperatorWords: set<string> := {"not", "and", "or"}

  /** Spellings an identifier loses to an earlier pattern of the list. */
  const Reserved: set<string> := OperatorWords + {"print"} + BoolExpSpellings

  /** `space = plex.Rep1(plex.Any(' \n\t'))` (parser.py:34). */
  predicate IsSpaceRun(s: string) {
    |s| > 0 && forall i :: 0 <= i < |s| ==> IsSpace(s[i])
  }

  /** What the lexicon does with one lexeme: emit a token, ignore it, or match nothing
      (a `plex` scanner error). */
  datatype Lexed = Emit(token: Token) | Skip | NoMatch

  function OperatorKind(s: string): Kind
    requires s in OperatorWords
  {
    if s == "not" then Not else if s == "and" then And else Or
  }

  /** The lexicon of parser.py:36-44, tried in list order: operator, parenthesis, assign, space
      (ignored), keyword, Bool_exp, identifier. */
  function Classify(s: string): (r: Lexed)
    ensures r.Emit? ==> r.token.text == s && Fixed(r.token)
    ensures r == Skip <==> IsSpaceRun(s)
    ensures (r.Emit? && r.token.kind == Id) <==> (IsIdentifier(s) && s !in Reserved)
    ensures (r.Emit? && r.token.kind == BoolExp) <==> s in BoolExpSpellings
    ensures (r.Emit? && r.token.kind == Print) <==> s == "print"
    ensures (r.Emit? && r.token.kind in {Not, And, Or}) <==> s in OperatorWords
    ensures r == NoMatch <==>
              (s !in Reserved && s !in {"(", ")", "="} && !IsSpaceRun(s) && !IsIdentifier(s))
  {
    // a space run starts with a space, so no earlier pattern's spelling is one
    assert IsSpaceRun(s) ==> IsSpace(s[0]);
    if s in OperatorWords then Emit(Token(OperatorKind(s), s))
    else if s == "(" then Emit(Token(LParen, s))
    else if s == ")" then Emit(Token(RParen, s))
    else if s == "=" then Emit(Token(Assign, s))
    else if IsSpaceRun(s) then Skip
    else if s == "print" then Emit(Token(Print, s))
    else if s in BoolExpSpellings then Emit(Token(BoolExp, s))
    else if IsIdentifier(s) then Emit(Token(Id, s))
    else NoMatch
  }
}
