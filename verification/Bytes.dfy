/** Go strings as byte sequences, and `strings.TrimSpace` on them. */
module Bytes {
  newtype byte = x: int | 0 <= x < 256

  type Text = seq<byte>

  const NEWLINE: byte := 10
  const SLASH: byte := 47

  // The Unicode White_Space runes, by the length of their UTF-8 encoding.

  predicate IsSpace1(a: byte) {
    9 <= a <= 13 || a == 32
  }

  predicate IsSpace2(a: byte, b: byte) {
    a == 0xC2 && (b == 0x85 || b == 0xA0)
  }

  predicate IsSpace3(a: byte, b: byte, c: byte) {
    || (a == 0xE1 && b == 0x9A && c == 0x80)
    || (a == 0xE2 && b == 0x80 && (0x80 <= c <= 0x8A || c == 0xA8 || c == 0xA9 || c == 0xAF))
    || (a == 0xE2 && b == 0x81 && c == 0x9F)
    || (a == 0xE3 && b == 0x80 && c == 0x80)
  }

  /** The code points with the property White_Space. */
  const WHITE_SPACE: set<nat> := {
    0x09, 0x0A, 0x0B, 0x0C, 0x0D, 0x20, 0x85, 0xA0, 0x1680,
    0x2000, 0x2001, 0x2002, 0x2003, 0x2004, 0x2005, 0x2006, 0x2007, 0x2008, 0x2009, 0x200A,
    0x2028, 0x2029, 0x202F, 0x205F, 0x3000}

  predicate Continuation(b: byte) {
    0x80 <= b < 0xC0
  }

  /** UTF-8: `s` is the encoding of code point `r`. */
  predicate Encodes(s: Text, r: nat) {
    || (|s| == 1 && r < 0x80 && s[0] as nat == r)
    || (|s| == 2 && 0x80 <= r < 0x800 && Continuation(s[1]) && s[0] >= 0xC0
        && r == 64 * (s[0] as nat - 0xC0) + (s[1] as nat - 0x80))
    || (|s| == 3 && 0x800 <= r < 0x10000 && Continuation(s[1]) && Continuation(s[2]) && s[0] >= 0xE0
        && r == 4096 * (s[0] as nat - 0xE0) + 64 * (s[1] as nat - 0x80) + (s[2] as nat - 0x80))
    || (|s| == 4 && 0x10000 <= r < 0x110000 && Continuation(s[1]) && Continuation(s[2]) && Continuation(s[3])
        && s[0] >= 0xF0
        && r == 262144 * (s[0] as nat - 0xF0) + 4096 * (s[1] as nat - 0x80) + 64 * (s[2] as nat - 0x80)
                + (s[3] as nat - 0x80))
  }

  /** Exactly the encodings of these code points count as white space, at either end. */
  lemma WhiteSpaceRunes(s: Text, r: nat)
    requires Encodes(s, r)
    ensures LeadingSpace(s) == TrailingSpace(s) == if r in WHITE_SPACE then |s| else 0
  {}

  /** The length of the white-space rune `s` starts with, 0 if it starts with none. */
  function LeadingSpace(s: Text): (n: nat)
    ensures n <= |s| && n <= 3
  {
    if |s| >= 1 && IsSpace1(s[0]) then 1
    else if |s| >= 2 && IsSpace2(s[0], s[1]) then 2
    else if |s| >= 3 && IsSpace3(s[0], s[1], s[2]) then 3
    else 0
  }

  /** The length of the white-space rune `s` ends with, 0 if it ends with none. */
  function TrailingSpace(s: Text): (n: nat)
    ensures n <= |s| && n <= 3
  {
    var k := |s|;
    if k >= 1 && IsSpace1(s[k - 1]) then 1
    else if k >= 2 && IsSpace2(s[k - 2], s[k - 1]) then 2
    else if k >= 3 && IsSpace3(s[k - 3], s[k - 2], s[k - 1]) then 3
    else 0
  }

  function TrimLeft(s: Text): (r: Text)
    ensures LeadingSpace(r) == 0
    decreases |s|
  {
    var n := LeadingSpace(s);
    if n == 0 then s else TrimLeft(s[n..])
  }

  function TrimRight(s: Text): (r: Text)
    ensures r <= s && TrailingSpace(r) == 0
    decreases |s|
  {
    var n := TrailingSpace(s);
    if n == 0 then s else TrimRight(s[..|s| - n])
  }

  lemma PrefixKeepsFront(r: Text, t: Text)
    requires r <= t && LeadingSpace(t) == 0
    ensures LeadingSpace(r) == 0
  {}

  /** Neither end of the result is white space. */
  function TrimSpace(s: Text): (r: Text)
    ensures LeadingSpace(r) == 0 && TrailingSpace(r) == 0
  {
    var t := TrimLeft(s);
    PrefixKeepsFront(TrimRight(t), t);
    TrimRight(t)
  }

  lemma LeadingSpaceOfPrefix(s: Text, k: nat)
    requires LeadingSpace(s) <= k <= |s|
    ensures LeadingSpace(s[..k]) == LeadingSpace(s)
  {}

  lemma TrailingSpaceOfSuffix(s: Text, k: nat)
    requires k + TrailingSpace(s) <= |s|
    ensures TrailingSpace(s[k..]) == TrailingSpace(s)
  {}

  lemma {:induction false} TrimLeftSplits(s: Text) returns (k: nat)
    ensures k <= |s| && TrimLeft(s) == s[k..] && TrimLeft(s[..k]) == []
    decreases |s|
  {
    var n := LeadingSpace(s);
    if n == 0 {
      k := 0;
    } else {
      var i := TrimLeftSplits(s[n..]);
      k := n + i;
      assert s[n..][i..] == s[k..];
      LeadingSpaceOfPrefix(s, k);
      assert s[..k][n..] == s[n..][..i];
    }
  }

  lemma {:induction false} TrimRightSplits(s: Text) returns (k: nat)
    ensures k <= |s| && TrimRight(s) == s[..k] && TrimRight(s[k..]) == []
    decreases |s|
  {
    var n := TrailingSpace(s);
    if n == 0 {
      k := |s|;
    } else {
      var m := |s| - n;
      k := TrimRightSplits(s[..m]);
      assert s[..m][..k] == s[..k];
      TrailingSpaceOfSuffix(s, k);
      assert s[k..][..m - k] == s[..m][k..];
    }
  }

  /** What trimming removes at either end is white space: it trims to nothing by itself. */
  lemma TrimSpaceSplits(s: Text) returns (i: nat, j: nat)
    ensures i <= j <= |s| && TrimSpace(s) == s[i..j]
    ensures TrimLeft(s[..i]) == [] && TrimRight(s[j..]) == []
  {
    i := TrimLeftSplits(s);
    var k := TrimRightSplits(s[i..]);
    j := i + k;
    assert s[i..][..k] == s[i..j] && s[i..][k..] == s[j..];
  }
}
