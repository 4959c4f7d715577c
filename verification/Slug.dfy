/** The slug pattern `^[a-z0-9]+(?:[._-][a-z0-9]+)*$`, as a regular expression and in plain words. */
module Slug {
  datatype Regex =
    | Class(chars: set<char>)
    | Cat(first: Regex, second: Regex)
    | Star(inner: Regex)

  /** The language of a regular expression. */
  ghost predicate Matches(re: Regex, s: string)
    decreases re, |s|
  {
    match re
    case Class(chars) => |s| == 1 && s[0] in chars
    case Cat(first, second) => exists k :: 0 <= k <= |s| && Matches(first, s[..k]) && Matches(second, s[k..])
    case Star(inner) =>
      s == [] || exists k :: 0 < k <= |s| && Matches(inner, s[..k]) && Matches(re, s[k..])
  }

  const ALNUM := set c: char | 'a' <= c <= 'z' || '0' <= c <= '9'
  const SEPARATOR := {'.', '_', '-'}

  function Plus(re: Regex): Regex {
    Cat(re, Star(re))
  }

  const WORD := Plus(Class(ALNUM))
  const SEPARATED_WORD := Cat(Class(SEPARATOR), WORD)
  const MORE_WORDS := Star(SEPARATED_WORD)
  const PATTERN := Cat(WORD, MORE_WORDS)

  /** Non-empty, only letters, digits and separators, and no separator at an end or beside another. */
  predicate IsSlug(s: string) {
    && s != []
    && (forall i :: 0 <= i < |s| ==> s[i] in ALNUM || s[i] in SEPARATOR)
    && s[0] in ALNUM && s[|s| - 1] in ALNUM
    && forall i :: 0 < i < |s| ==> s[i - 1] in ALNUM || s[i] in ALNUM
  }

  lemma {:induction false} StarOfClass(chars: set<char>, s: string)
    ensures Matches(Star(Class(chars)), s) <==> forall i :: 0 <= i < |s| ==> s[i] in chars
    decreases |s|
  {
    if s != [] {
      StarOfClass(chars, s[1..]);
      assert forall i :: 1 <= i < |s| ==> s[i] == s[1..][i - 1];
      if Matches(Star(Class(chars)), s) {
        var k :| 0 < k <= |s| && Matches(Class(chars), s[..k]) && Matches(Star(Class(chars)), s[k..]);
        assert k == 1;
      }
      if forall i :: 0 <= i < |s| ==> s[i] in chars {
        assert Matches(Class(chars), s[..1]) && Matches(Star(Class(chars)), s[1..]);
      }
    }
  }

  /** A word is a non-empty run of letters and digits. */
  lemma WordMatches(s: string)
    ensures Matches(WORD, s) <==> s != [] && forall i :: 0 <= i < |s| ==> s[i] in ALNUM
  {
    if Matches(WORD, s) {
      var k :| 0 <= k <= |s| && Matches(Class(ALNUM), s[..k]) && Matches(Star(Class(ALNUM)), s[k..]);
      StarOfClass(ALNUM, s[k..]);
      assert k == 1 && s[0] == s[..1][0];
      assert forall i :: 1 <= i < |s| ==> s[i] == s[1..][i - 1];
    }
    if s != [] && forall i :: 0 <= i < |s| ==> s[i] in ALNUM {
      StarOfClass(ALNUM, s[1..]);
      assert Matches(Class(ALNUM), s[..1]);
    }
  }

  /** A slug is a first word, and then nothing or a separator before another slug. */
  predicate AfterWord(t: string) {
    t == [] || (t[0] in SEPARATOR && IsSlug(t[1..]))
  }

  lemma SlugParts(s: string, k: nat)
    requires 0 < k <= |s| && forall i :: 0 <= i < k ==> s[i] in ALNUM
    ensures AfterWord(s[k..]) ==> IsSlug(s)
    ensures IsSlug(s) && (k < |s| ==> s[k] in SEPARATOR) ==> AfterWord(s[k..])
  {
    if k < |s| {
      var t, u := s[k..], s[k + 1..];
      assert t[1..] == u && t[0] == s[k];
      assert forall i :: 0 <= i < |u| ==> u[i] == s[k + 1 + i];
      if AfterWord(t) {
        forall i | 0 < i < |s| ensures s[i - 1] in ALNUM || s[i] in ALNUM {
          if i > k + 1 { assert u[i - k - 2] in ALNUM || u[i - k - 1] in ALNUM; }
        }
        assert forall i :: k < i < |s| ==> s[i] == u[i - k - 1];
      } else if IsSlug(s) && s[k] in SEPARATOR {
        assert k < |s| - 1 && (s[k] in ALNUM || s[k + 1] in ALNUM);
        forall i | 0 < i < |u| ensures u[i - 1] in ALNUM || u[i] in ALNUM {
          assert s[k + i] in ALNUM || s[k + 1 + i] in ALNUM;
        }
      }
    }
  }

  function FirstWord(s: string): (k: nat)
    ensures k <= |s| && (forall i :: 0 <= i < k ==> s[i] in ALNUM) && (k < |s| ==> s[k] !in ALNUM)
  {
    if s == [] || s[0] !in ALNUM then 0
    else
      assert forall i :: 1 <= i < |s| ==> s[i] == s[1..][i - 1];
      1 + FirstWord(s[1..])
  }

  lemma SeparatedWordMatches(s: string)
    ensures Matches(SEPARATED_WORD, s) <==> s != [] && s[0] in SEPARATOR && Matches(WORD, s[1..])
  {
    if Matches(SEPARATED_WORD, s) {
      var j :| 0 <= j <= |s| && Matches(Class(SEPARATOR), s[..j]) && Matches(WORD, s[j..]);
      assert j == 1 && s[..j][0] == s[0];
    }
    if s != [] && s[0] in SEPARATOR && Matches(WORD, s[1..]) {
      assert Matches(Class(SEPARATOR), s[..1]);
    }
  }

  lemma {:induction false} MoreWordsMatch(t: string)
    ensures Matches(MORE_WORDS, t) <==> AfterWord(t)
    decreases |t|
  {
    if t != [] {
      if Matches(MORE_WORDS, t) {
        var k :| 0 < k <= |t| && Matches(SEPARATED_WORD, t[..k]) && Matches(MORE_WORDS, t[k..]);
        SeparatedWordMatches(t[..k]);
        MoreWordsMatch(t[k..]);
        SlugAfterSeparator(t, k);
      }
      if AfterWord(t) {
        var n := 1 + FirstWord(t[1..]);
        SplitAfterSeparator(t, n);
        MoreWordsMatch(t[n..]);
        SeparatedWordMatches(t[..n]);
      }
    }
  }

  lemma SlugAfterSeparator(t: string, k: nat)
    requires 0 < k <= |t| && t[..k][0] in SEPARATOR && Matches(WORD, t[..k][1..]) && AfterWord(t[k..])
    ensures AfterWord(t)
  {
    hide Matches;
    var u := t[1..];
    assert t[..k][1..] == u[..k - 1] && t[k..] == u[k - 1..];
    WordMatches(u[..k - 1]);
    assert forall i :: 0 <= i < k - 1 ==> u[i] == u[..k - 1][i];
    SlugParts(u, k - 1);
  }

  lemma SplitAfterSeparator(t: string, n: nat)
    requires t != [] && AfterWord(t) && n == 1 + FirstWord(t[1..])
    ensures 1 < n <= |t| && AfterWord(t[n..])
    ensures t[..n][0] in SEPARATOR && Matches(WORD, t[..n][1..])
  {
    hide Matches;
    var u := t[1..];
    SlugParts(u, n - 1);
    assert t[n..] == u[n - 1..] && t[..n][1..] == u[..n - 1];
    WordMatches(u[..n - 1]);
  }

  /** The pattern's language is exactly the slugs. */
  lemma PatternIsSlug(s: string)
    ensures Matches(PATTERN, s) <==> IsSlug(s)
  {
    if Matches(PATTERN, s) {
      var k :| 0 <= k <= |s| && Matches(WORD, s[..k]) && Matches(MORE_WORDS, s[k..]);
      WordMatches(s[..k]);
      assert forall i :: 0 <= i < k ==> s[i] == s[..k][i];
      MoreWordsMatch(s[k..]);
      SlugParts(s, k);
    }
    if IsSlug(s) {
      var k := FirstWord(s);
      SlugParts(s, k);
      WordMatches(s[..k]);
      MoreWordsMatch(s[k..]);
      assert Matches(WORD, s[..k]) && Matches(MORE_WORDS, s[k..]);
    }
  }
}
