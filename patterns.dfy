/** The two identifier patterns of the formatters, `/^\w*$/` and
    `/^(\w|-)*$/`, with Ruby's meaning of `^` and `$`: they anchor at line
    boundaries, not at the ends of the string. `\w` is taken as ASCII. */
module Patterns {

  /** `\w`: an ASCII letter, digit or underscore. */
  predicate IsWordChar(c: char) {
    ('a' <= c <= 'z') || ('A' <= c <= 'Z') || ('0' <= c <= '9') || c == '_'
  }

  /** One repetition of the pattern: `\w`, or `(\w|-)` when `hyphen` holds. */
  predicate Accepts(c: char, hyphen: bool) {
    IsWordChar(c) || (hyphen && c == '-')
  }

  /** Every character of `s` is accepted. */
  predicate AllAccepted(s: string, hyphen: bool) {
    forall i :: 0 <= i < |s| ==> Accepts(s[i], hyphen)
  }

  /** Where `^` matches: at the start of the string, or just after a newline
      that is not the last character of the string. */
  predicate BeginsLine(s: string, p: int) {
    p == 0 || (0 < p < |s| && s[p - 1] == '\n')
  }

  /** Where `$` matches: at the end of the string, or just before a newline. */
  predicate EndsLine(s: string, q: int) {
    q == |s| || (0 <= q < |s| && s[q] == '\n')
  }

  /** `s =~ /^\w*$/` (or `/^(\w|-)*$/` when `hyphen` holds): some stretch of
      `s` from a line start to a line end consists only of accepted
      characters. A string accepted as a whole is matched, newline or
      not. */
  predicate Matches(s: string, hyphen: bool)
    ensures AllAccepted(s, hyphen) ==> Matches(s, hyphen)
  {
    assert BeginsLine(s, 0) && EndsLine(s, |s|) && s[0..|s|] == s;
    exists p, q | 0 <= p <= q <= |s| :: BeginsLine(s, p) && EndsLine(s, q) && AllAccepted(s[p..q], hyphen)
  }

  /** The whole-string reading of the pattern, `/\A\w*\z/`. */
  predicate IsWord(s: string) {
    AllAccepted(s, false)
  }

  /** The whole-string reading of `/\A(\w|-)*\z/`. */
  predicate IsWordOrHyphen(s: string) {
    AllAccepted(s, true)
  }

  /** On a name without a newline the line anchors are the ends of the
      string, so the match is exactly the whole-string check. */
  lemma SingleLineMatch(s: string, hyphen: bool)
    requires '\n' !in s
    ensures Matches(s, hyphen) <==> AllAccepted(s, hyphen)
  {
    if Matches(s, hyphen) {
      var p, q :| 0 <= p <= q <= |s| && BeginsLine(s, p) && EndsLine(s, q) && AllAccepted(s[p..q], hyphen);
      assert forall i :: 0 <= i < |s| ==> s[i] != '\n';
      assert p == 0 && q == |s|;
      assert s[p..q] == s;
    }
  }

  /** The empty name matches both patterns. */
  lemma EmptyMatches(hyphen: bool)
    ensures Matches("", hyphen)
  {
    assert AllAccepted("", hyphen);
  }

  /** Every name the word pattern matches is matched by the word-or-hyphen
      pattern too. */
  lemma WordMatchImpliesHyphenMatch(s: string)
    requires Matches(s, false)
    ensures Matches(s, true)
  {
    var p, q :| 0 <= p <= q <= |s| && BeginsLine(s, p) && EndsLine(s, q) && AllAccepted(s[p..q], false);
    assert AllAccepted(s[p..q], true);
  }

  /** The line anchors let a multi-line SQL fragment through the identifier
      check when one of its lines is a bare word: here the first line
      `CASE` is, though the whole string is not an identifier. */
  lemma MultiLineFragmentMatches()
    ensures Matches("CASE\nWHEN x THEN 1 END", false)
    ensures !IsWord("CASE\nWHEN x THEN 1 END")
  {
    var s := "CASE\nWHEN x THEN 1 END";
    assert BeginsLine(s, 0) && EndsLine(s, 4) && AllAccepted(s[0..4], false);
    assert !Accepts(s[4], false);
  }

  /** A trailing newline does not open an empty last line: `"!\n"` is not
      matched, since `^` does not match after the final newline. */
  lemma TrailingNewlineOpensNoLine()
    ensures !Matches("!\n", false)
  {
    var s := "!\n";
    forall p, q | 0 <= p <= q <= |s| && BeginsLine(s, p) && EndsLine(s, q)
      ensures !AllAccepted(s[p..q], false)
    {
      assert p == 0;
      assert q == 1 || q == 2;
      assert s[p..q][0] == '!';
    }
  }
}
