/** The slug language ^[a-z0-9]+(?:[._-][a-z0-9]+)*$ that ids, namespaces and keys must match. */
module Slug {

  predicate IsAlnum(c: char) { 'a' <= c <= 'z' || '0' <= c <= '9' }

  predicate IsSeparator(c: char) { c == '.' || c == '_' || c == '-' }

  predicate IsWord(w: string) { w != "" && forall i | 0 <= i < |w| :: IsAlnum(w[i]) }

  /** A word, then any number of separators each followed by a word: the pattern as a grammar. */
  function Spell(first: string, rest: seq<(char, string)>): string {
    if rest == [] then first
    else Spell(first, rest[..|rest| - 1]) + [rest[|rest| - 1].0] + rest[|rest| - 1].1
  }

  ghost predicate Matches(s: string) {
    exists first: string, rest: seq<(char, string)> ::
      && IsWord(first) && (forall i | 0 <= i < |rest| :: IsSeparator(rest[i].0) && IsWord(rest[i].1))
      && s == Spell(first, rest)
  }

  /** The same language, one character at a time. */
  predicate IsSlug(s: string) {
    && s != "" && IsAlnum(s[0]) && IsAlnum(s[|s| - 1])
    && (forall i | 0 <= i < |s| :: IsAlnum(s[i]) || IsSeparator(s[i]))
    && forall i | 0 <= i < |s| - 1 :: IsAlnum(s[i]) || IsAlnum(s[i + 1])
  }

  lemma {:induction false} SpelledIsSlug(first: string, rest: seq<(char, string)>)
    requires IsWord(first) && forall i | 0 <= i < |rest| :: IsSeparator(rest[i].0) && IsWord(rest[i].1)
    ensures IsSlug(Spell(first, rest))
  {
    if rest != [] {
      var front, last := rest[..|rest| - 1], rest[|rest| - 1];
      SpelledIsSlug(first, front);
      AppendWord(Spell(first, front), last.0, last.1);
    }
  }

  lemma AppendWord(s: string, c: char, w: string)
    requires IsSlug(s) && IsSeparator(c) && IsWord(w)
    ensures IsSlug(s + [c] + w)
  {
    var t := s + [c] + w;
    assert forall i | 0 <= i < |s| :: t[i] == s[i];
    assert t[|s|] == c;
    assert forall i | 0 <= i < |w| :: t[|s| + 1 + i] == w[i];
  }

  /** The start of the last word: everything from there on is alphanumeric, and no earlier start is. */
  function LastWord(s: string): (k: nat)
    requires s != "" && IsAlnum(s[|s| - 1])
    ensures k < |s| && forall i | k <= i < |s| :: IsAlnum(s[i])
    ensures k > 0 ==> !IsAlnum(s[k - 1])
  {
    if |s| == 1 || !IsAlnum(s[|s| - 2]) then |s| - 1 else LastWord(s[..|s| - 1])
  }

  lemma {:induction false} SlugIsSpelled(s: string) returns (first: string, rest: seq<(char, string)>)
    requires IsSlug(s)
    ensures IsWord(first) && forall i | 0 <= i < |rest| :: IsSeparator(rest[i].0) && IsWord(rest[i].1)
    ensures s == Spell(first, rest)
    decreases |s|
  {
    var k := LastWord(s);
    if k == 0 {
      first, rest := s, [];
    } else {
      var front, c, w := s[..k - 1], s[k - 1], s[k..];
      assert IsAlnum(s[k - 1]) || IsAlnum(s[k]);
      assert k > 1 && IsAlnum(s[k - 2]);
      var f, r := SlugIsSpelled(front);
      first, rest := f, r + [(c, w)];
      assert rest[..|rest| - 1] == r;
      assert s == front + [c] + w;
    }
  }

  /** The pattern and the characterisation by characters accept the same strings. */
  lemma SlugLanguage(s: string)
    ensures Matches(s) <==> IsSlug(s)
  {
    if IsSlug(s) {
      var first, rest := SlugIsSpelled(s);
      assert s == Spell(first, rest);
    }
    if Matches(s) {
      var first: string, rest: seq<(char, string)> :|
        && IsWord(first) && (forall i | 0 <= i < |rest| :: IsSeparator(rest[i].0) && IsWord(rest[i].1))
        && s == Spell(first, rest);
      SpelledIsSlug(first, rest);
    }
  }

  /** So a slug is safe as one segment of a path: no slash, no dot-dot, no dot at either end. */
  lemma SlugIsPathSafe(s: string)
    requires Matches(s)
    ensures '/' !in s && s[0] != '.' && s[|s| - 1] != '.'
    ensures forall i | 0 <= i < |s| - 1 :: !(s[i] == '.' && s[i + 1] == '.')
  {
    SlugLanguage(s);
  }
}
