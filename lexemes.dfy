/** Character classes and lookahead shared by the two lexicons (parser.py and runner.py).
    The scanners themselves are not modelled: a lexeme is handed to a classifier whole, and a
    token stream is handed to a parser as a sequence. */
module Lexemes {

  /** `plex.Range("AZaz")`: an ASCII letter. */
  predicate IsLetter(c: char) {
    'A' <= c <= 'Z' || 'a' <= c <= 'z'
  }

  /** `plex.Range("09")`: an ASCII digit. */
  predicate IsDigit(c: char) {
    '0' <= c <= '9'
  }

  /** `plex.Any(" \t\n")`: one whitespace character of the lexicons. */
  predicate IsSpace(c: char) {
    c == ' ' || c == '\t' || c == '\n'
  }

  /** `letter + plex.Rep(letter | digit)`: an identifier starts with a letter and goes on with
      letters and digits. */
  predicate IsIdentifier(s: string) {
    |s| > 0 && IsLetter(s[0]) && forall i :: 1 <= i < |s| ==> IsLetter(s[i]) || IsDigit(s[i])
  }

  /** ASCII lower-casing, the folding `plex.NoCase` applies. */
  function Lower(c: char): (d: char)
    ensures 'A' <= c <= 'Z' ==> d as int == c as int + 32 && 'a' <= d <= 'z'
    ensures !('A' <= c <= 'Z') ==> d == c
  {
    if 'A' <= c <= 'Z' then (c as int + 32) as char else c
  }

  function LowerAll(s: string): (r: string)
    ensures |r| == |s|
    ensures forall i :: 0 <= i < |s| ==> r[i] == Lower(s[i])
  {
    seq(|s|, i requires 0 <= i < |s| => Lower(s[i]))
  }

  /** A string with no upper-case letter folds to itself. */
  lemma LowerAllFixes(s: string)
    requires forall i :: 0 <= i < |s| ==> !('A' <= s[i] <= 'Z')
    ensures LowerAll(s) == s
  {
  }

  /** Folding twice folds once: a folded string has no upper-case letter left. */
  lemma LowerAllIdempotent(s: string)
    ensures forall i :: 0 <= i < |s| ==> !('A' <= LowerAll(s)[i] <= 'Z')
    ensures LowerAll(LowerAll(s)) == LowerAll(s)
  {
    LowerAllFixes(LowerAll(s));
  }

  /** What `plex.NoCase` matches: a lexeme folds onto a lower-case word exactly when it is that
      word with any of its letters written in upper case. */
  lemma NoCaseMatches(s: string, w: string)
    requires forall i :: 0 <= i < |w| ==> !('A' <= w[i] <= 'Z')
    ensures LowerAll(s) == w <==>
              |s| == |w| &&
              forall i :: 0 <= i < |s| ==>
                s[i] == w[i] || ('a' <= w[i] <= 'z' && s[i] as int == w[i] as int - 32)
  {
    if |s| == |w| && forall i :: 0 <= i < |s| ==>
                       s[i] == w[i] || ('a' <= w[i] <= 'z' && s[i] as int == w[i] as int - 32) {
      forall i | 0 <= i < |s| ensures LowerAll(s)[i] == w[i] {
        if s[i] != w[i] {
          assert 'A' <= s[i] <= 'Z';
        }
      }
    }
  }
}
