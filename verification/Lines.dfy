/** The lines of a change log, and what the two readers of the log should find in it. */
module Lines {
  import opened Bytes

  // ----- Complete lines

  predicate IsWholeLine(u: Text) {
    u != [] && u[|u| - 1] == NEWLINE && forall i :: 0 <= i < |u| - 1 ==> u[i] != NEWLINE
  }

  /** The length of the first newline-terminated line of `s`, 0 if there is none. */
  function FirstLine(s: Text): (n: nat)
    ensures n <= |s|
    ensures n == 0 ==> forall i :: 0 <= i < |s| ==> s[i] != NEWLINE
    ensures n > 0 ==> IsWholeLine(s[..n])
  {
    if s == [] then 0
    else if s[0] == NEWLINE then 1
    else
      var n := FirstLine(s[1..]);
      assert forall i :: 1 <= i < |s| ==> s[i] == s[1..][i - 1];
      if n == 0 then 0 else assert forall i :: 1 <= i <= n ==> s[i] == s[1..][..n][i - 1]; n + 1
  }

  /** The complete lines of `s`, newlines included; an unfinished last line is left out. */
  function RawLines(s: Text): seq<Text>
    decreases |s|
  {
    var n := FirstLine(s);
    if n == 0 then [] else [s[..n]] + RawLines(s[n..])
  }

  /** `bytes.LastIndexByte`: the last position of `b` in `s`, or -1. */
  function LastIndexByte(s: Text, b: byte): (i: int)
    ensures -1 <= i < |s|
    ensures i >= 0 ==> s[i] == b
    ensures forall j :: i < j < |s| ==> s[j] != b
  {
    if s == [] then -1
    else if s[|s| - 1] == b then |s| - 1
    else LastIndexByte(s[..|s| - 1], b)
  }

  /** The offset just past the last newline of `s`, 0 if there is none. */
  function CompleteEnd(s: Text): nat {
    LastIndexByte(s, NEWLINE) + 1
  }

  /** `s` from offset `k` on; seeking past the end leaves nothing to read. */
  function From(s: Text, k: int): Text {
    if 0 <= k <= |s| then s[k..] else []
  }

  predicate AtLineStart(s: Text, k: nat) {
    k <= |s| && (k == 0 || s[k - 1] == NEWLINE)
  }

  lemma FirstLineUnique(s: Text, n: nat)
    requires 0 < n <= |s| && IsWholeLine(s[..n])
    ensures FirstLine(s) == n
  {
    hide FirstLine;
    var f := FirstLine(s);
    assert s[n - 1] == s[..n][n - 1] == NEWLINE;
    assert f > 0 && s[..f][f - 1] == s[f - 1] == NEWLINE;
  }

  lemma SliceConcat<T>(s: seq<T>, n: nat, m: nat)
    requires n + m <= |s|
    ensures s[..n] + s[n..][..m] == s[..n + m]
  {}

  lemma Assoc<T>(a: seq<T>, b: seq<T>, c: seq<T>)
    ensures a + (b + c) == (a + b) + c
  {}

  lemma RawLinesStep(s: Text)
    requires FirstLine(s) > 0
    ensures RawLines(s) == [s[..FirstLine(s)]] + RawLines(s[FirstLine(s)..])
  {
    hide FirstLine;
  }

  /** Cutting at the end of a later line leaves the first line in front, and cuts what comes after it. */
  lemma FirstLineOfFront(s: Text, k: nat)
    requires 0 < k <= |s| && s[k - 1] == NEWLINE
    ensures 0 < FirstLine(s) <= k
    ensures RawLines(s[..k]) == [s[..FirstLine(s)]] + RawLines(s[FirstLine(s)..][..k - FirstLine(s)])
  {
    hide FirstLine, RawLines;
    FirstLineWithin(s, k);
    RawLinesStep(s[..k]);
    SliceOfFront(s, FirstLine(s), k);
  }

  lemma SliceOfFront<T>(s: seq<T>, n: nat, k: nat)
    requires n <= k <= |s|
    ensures s[..k][n..] == s[n..][..k - n] && s[n..][k - n..] == s[k..]
  {}

  /** Cutting at a line start cuts the list of lines and no line. */
  lemma {:induction false} RawLinesSplit(s: Text, k: nat)
    requires AtLineStart(s, k)
    ensures RawLines(s) == RawLines(s[..k]) + RawLines(s[k..])
    decreases |s|
  {
    if k == 0 {
      assert s[..k] == [] && s[k..] == s;
    } else {
      hide FirstLine, RawLines;
      FirstLineOfFront(s, k);
      var n := FirstLine(s);
      var rest := s[n..];
      assert k > n ==> rest[k - n - 1] == s[k - 1];
      RawLinesSplit(rest, k - n);
      RawLinesStep(s);
      SliceOfFront(s, n, k);
      Assoc([s[..n]], RawLines(rest[..k - n]), RawLines(s[k..]));
    }
  }

  lemma FirstLineWithin(s: Text, k: nat)
    requires 0 < k <= |s| && s[k - 1] == NEWLINE
    ensures 0 < FirstLine(s) <= k && FirstLine(s[..k]) == FirstLine(s)
    ensures s[..k][..FirstLine(s)] == s[..FirstLine(s)]
  {
    hide FirstLine;
    var n := FirstLine(s);
    assert forall j :: 0 <= j < n ==> s[..n][j] == s[j];
    assert s[..k][..n] == s[..n];
    FirstLineUnique(s[..k], n);
  }

  lemma RawLinesOfWholeLine(u: Text)
    requires IsWholeLine(u)
    ensures RawLines(u) == [u]
  {
    assert u[..|u|] == u;
    FirstLineUnique(u, |u|);
    assert u[|u|..] == [];
  }

  lemma NoCompleteLine(s: Text)
    requires NEWLINE !in s
    ensures RawLines(s) == [] && CompleteEnd(s) == 0
  {}

  /** The last newline is where the list of lines ends. */
  lemma RawLinesEnd(s: Text)
    ensures AtLineStart(s, CompleteEnd(s))
    ensures NEWLINE !in s[CompleteEnd(s)..]
    ensures RawLines(s) == RawLines(s[..CompleteEnd(s)])
  {
    var k := CompleteEnd(s);
    RawLinesSplit(s, k);
    NoCompleteLine(s[k..]);
  }

  /** Where lines end seen from `a` is where they end seen from the start, or `a` when nothing ends after it. */
  lemma CompleteEndFrom(s: Text, a: nat)
    requires a <= |s|
    ensures a + CompleteEnd(s[a..]) == if CompleteEnd(s) > a then CompleteEnd(s) else a
  {
    var i, j := LastIndexByte(s, NEWLINE), LastIndexByte(s[a..], NEWLINE);
    if j >= 0 {
      assert s[a + j] == s[a..][j];
    }
    if i >= a {
      assert s[i] == s[a..][i - a];
    }
  }

  // ----- Lines as an inverse of concatenation

  function Flatten(parts: seq<Text>): Text {
    if parts == [] then [] else parts[0] + Flatten(parts[1..])
  }

  lemma {:induction false} RawLinesAreWhole(s: Text)
    ensures forall u <- RawLines(s) :: IsWholeLine(u)
    decreases |s|
  {
    var n := FirstLine(s);
    if n > 0 {
      RawLinesAreWhole(s[n..]);
    }
  }

  /** The complete lines put back together are the text up to its last newline. */
  lemma {:induction false} RawLinesCover(s: Text)
    ensures Flatten(RawLines(s)) == s[..CompleteEnd(s)]
    decreases |s|
  {
    hide FirstLine;
    var n := FirstLine(s);
    if n > 0 {
      var rest := s[n..];
      RawLinesCover(rest);
      assert RawLines(s)[1..] == RawLines(rest);
      assert s[n - 1] == s[..n][n - 1] == NEWLINE;
      CompleteEndFrom(s, n);
      SliceConcat(s, n, CompleteEnd(rest));
    }
  }

  /** Any whole lines followed by an unfinished one are read back as they were written. */
  lemma {:induction false} RawLinesOfFlatten(lines: seq<Text>, unfinished: Text)
    requires forall u <- lines :: IsWholeLine(u)
    requires NEWLINE !in unfinished
    ensures RawLines(Flatten(lines) + unfinished) == lines
  {
    var s := Flatten(lines) + unfinished;
    if lines == [] {
      assert s == unfinished;
      NoCompleteLine(s);
    } else {
      var n := |lines[0]|;
      assert s[..n] == lines[0];
      FirstLineUnique(s, n);
      assert s[n..] == Flatten(lines[1..]) + unfinished;
      RawLinesOfFlatten(lines[1..], unfinished);
    }
  }

  // ----- What is reported for them

  /** The trimmed lines that are not blank. */
  function NonBlank(lines: seq<Text>): seq<Text> {
    if lines == [] then [] else Kept(lines[0]) + NonBlank(lines[1..])
  }

  function Kept(raw: Text): seq<Text> {
    var line := TrimSpace(raw);
    if line == [] then [] else [line]
  }

  lemma {:induction false} NonBlankConcat(a: seq<Text>, b: seq<Text>)
    ensures NonBlank(a + b) == NonBlank(a) + NonBlank(b)
  {
    hide Kept;
    if a == [] {
      assert a + b == b;
    } else {
      NonBlankConcat(a[1..], b);
      assert (a + b)[1..] == a[1..] + b;
      Assoc(Kept(a[0]), NonBlank(a[1..]), NonBlank(b));
    }
  }

  datatype Scope = File | Subtree

  datatype Change = Change(sourcePath: Text, scope: Scope)

  /** `strings.TrimRight(s, "/")` */
  function TrimSlashes(s: Text): (r: Text)
    ensures r <= s
    ensures r == [] || r[|r| - 1] != SLASH
    ensures forall i :: |r| <= i < |s| ==> s[i] == SLASH
  {
    if s != [] && s[|s| - 1] == SLASH then TrimSlashes(s[..|s| - 1]) else s
  }

  /**
   * A trailing slash, and only that, makes a subtree change. No reported path keeps one,
   * and the path is lost altogether exactly for a line of slashes.
   */
  function ChangeFor(line: Text): (c: Change)
    ensures c.scope == Subtree <==> line != [] && line[|line| - 1] == SLASH
    ensures c.sourcePath <= line && forall i :: |c.sourcePath| <= i < |line| ==> line[i] == SLASH
    ensures c.sourcePath != [] ==> c.sourcePath[|c.sourcePath| - 1] != SLASH
    ensures c.sourcePath == [] <==> forall b <- line :: b == SLASH
  {
    if line != [] && line[|line| - 1] == SLASH
    then
      var path := TrimSlashes(line);
      assert path != [] ==> path[0] == line[0] && path[|path| - 1] in line;
      Change(path, Subtree)
    else
      assert line != [] ==> line[|line| - 1] in line;
      Change(line, File)
  }

  function ChangesFor(lines: seq<Text>): (cs: seq<Change>)
    ensures |cs| == |lines| && forall i :: 0 <= i < |lines| ==> cs[i] == ChangeFor(lines[i])
  {
    seq(|lines|, i requires 0 <= i < |lines| => ChangeFor(lines[i]))
  }

  /** The changes for the non-blank complete lines of `s`, in order. */
  function Reported(s: Text): seq<Change> {
    ChangesFor(NonBlank(RawLines(s)))
  }

  lemma ReportedNothing()
    ensures Reported([]) == []
  {
    NoCompleteLine([]);
  }

  lemma ReportedSplit(s: Text, k: nat)
    requires AtLineStart(s, k)
    ensures Reported(s) == Reported(s[..k]) + Reported(s[k..])
  {
    hide RawLines, NonBlank;
    RawLinesSplit(s, k);
    NonBlankConcat(RawLines(s[..k]), RawLines(s[k..]));
  }

  /** Reading on from where the complete lines ended misses nothing and repeats nothing. */
  lemma ReportedTelescopes(s: Text, a: nat, m: nat, e: nat)
    requires a <= m <= e <= |s|
    requires a == m || s[m - 1] == NEWLINE
    ensures Reported(s[a..e]) == Reported(s[a..m]) + Reported(s[m..e])
  {
    hide Reported;
    assert AtLineStart(s[a..e], m - a);
    ReportedSplit(s[a..e], m - a);
    assert s[a..e][..m - a] == s[a..m];
    assert s[a..e][m - a..] == s[m..e];
  }

  lemma ReportedEnd(s: Text)
    ensures Reported(s) == Reported(s[..CompleteEnd(s)])
  {
    RawLinesEnd(s);
  }

  // ----- The same, line by line

  /** The indices, in order and without exception, of the lines from `lo` to `hi` that are not blank. */
  predicate NonBlankIndices(lines: seq<Text>, lo: nat, hi: nat, indices: seq<nat>)
    requires hi <= |lines|
  {
    && (forall k :: 0 <= k < |indices| ==> lo <= indices[k] < hi && TrimSpace(lines[indices[k]]) != [])
    && (forall j, k :: 0 <= j < k < |indices| ==> indices[j] < indices[k])
    && (forall i :: lo <= i < hi && TrimSpace(lines[i]) != [] ==> i in indices)
  }

  /** One change for each of these lines, made from the line without the white space around it. */
  predicate ChangesOf(lines: seq<Text>, indices: seq<nat>, changes: seq<Change>)
    requires forall k :: 0 <= k < |indices| ==> indices[k] < |lines|
  {
    |changes| == |indices| && forall k :: 0 <= k < |indices| ==> changes[k] == ChangeFor(TrimSpace(lines[indices[k]]))
  }

  lemma IndicesOfFirst(lines: seq<Text>, lo: nat, hi: nat, rest: seq<nat>)
    requires lo < hi <= |lines| && TrimSpace(lines[lo]) != [] && NonBlankIndices(lines, lo + 1, hi, rest)
    ensures NonBlankIndices(lines, lo, hi, [lo] + rest)
  {
    hide TrimSpace;
    var indices := [lo] + rest;
    forall k | 0 <= k < |indices| ensures lo <= indices[k] < hi && TrimSpace(lines[indices[k]]) != [] {
      assert k > 0 ==> indices[k] == rest[k - 1];
    }
    forall i | lo <= i < hi && TrimSpace(lines[i]) != [] ensures i in indices {
      assert i == lo || i in rest;
    }
  }

  lemma ChangesOfFirst(lines: seq<Text>, lo: nat, rest: seq<nat>, changes: seq<Change>)
    requires lo < |lines| && forall k :: 0 <= k < |rest| ==> rest[k] < |lines|
    requires ChangesOf(lines, rest, changes)
    ensures ChangesOf(lines, [lo] + rest, [ChangeFor(TrimSpace(lines[lo]))] + changes)
  {
    hide TrimSpace, ChangeFor;
  }

  lemma ChangesForConcat(a: seq<Text>, b: seq<Text>)
    ensures ChangesFor(a + b) == ChangesFor(a) + ChangesFor(b)
  {
    hide ChangeFor;
  }

  lemma {:induction false} NonBlankPicks(lines: seq<Text>, lo: nat, hi: nat) returns (indices: seq<nat>)
    requires lo <= hi <= |lines|
    ensures NonBlankIndices(lines, lo, hi, indices)
    ensures ChangesOf(lines, indices, ChangesFor(NonBlank(lines[lo..hi])))
    decreases hi - lo
  {
    hide TrimSpace, ChangeFor, NonBlankIndices, ChangesOf;
    if lo == hi {
      indices := [];
      NothingPicked(lines, lo);
    } else {
      var rest := NonBlankPicks(lines, lo + 1, hi);
      var span := lines[lo..hi];
      assert span[0] == lines[lo] && span[1..] == lines[lo + 1..hi];
      assert NonBlank(span) == Kept(lines[lo]) + NonBlank(lines[lo + 1..hi]);
      if TrimSpace(lines[lo]) == [] {
        indices := rest;
        assert NonBlank(span) == NonBlank(lines[lo + 1..hi]);
        BlankFirst(lines, lo, hi, rest);
      } else {
        indices := [lo] + rest;
        ChangesForConcat([TrimSpace(lines[lo])], NonBlank(lines[lo + 1..hi]));
        assert ChangesFor([TrimSpace(lines[lo])]) == [ChangeFor(TrimSpace(lines[lo]))];
        assert NonBlank(span) == [TrimSpace(lines[lo])] + NonBlank(lines[lo + 1..hi]);
        IndicesOfFirst(lines, lo, hi, rest);
        IndicesInRange(lines, lo + 1, hi, rest);
        ChangesOfFirst(lines, lo, rest, ChangesFor(NonBlank(lines[lo + 1..hi])));
      }
    }
  }

  lemma IndicesInRange(lines: seq<Text>, lo: nat, hi: nat, indices: seq<nat>)
    requires hi <= |lines| && NonBlankIndices(lines, lo, hi, indices)
    ensures forall k :: 0 <= k < |indices| ==> indices[k] < |lines|
  {}

  lemma NothingPicked(lines: seq<Text>, lo: nat)
    requires lo <= |lines|
    ensures NonBlankIndices(lines, lo, lo, []) && ChangesOf(lines, [], ChangesFor(NonBlank(lines[lo..lo])))
  {}

  lemma BlankFirst(lines: seq<Text>, lo: nat, hi: nat, rest: seq<nat>)
    requires lo < hi <= |lines| && TrimSpace(lines[lo]) == [] && NonBlankIndices(lines, lo + 1, hi, rest)
    ensures NonBlankIndices(lines, lo, hi, rest)
  {}

  /** Whatever whole lines a log holds, what is reported are their trimmed texts, but for the blank ones. */
  lemma ReportedLineByLine(lines: seq<Text>, unfinished: Text) returns (indices: seq<nat>)
    requires forall u <- lines :: IsWholeLine(u)
    requires NEWLINE !in unfinished
    ensures NonBlankIndices(lines, 0, |lines|, indices)
    ensures ChangesOf(lines, indices, Reported(Flatten(lines) + unfinished))
  {
    RawLinesOfFlatten(lines, unfinished);
    indices := NonBlankPicks(lines, 0, |lines|);
    assert lines[0..|lines|] == lines;
  }

  lemma ReportedOne(raw: Text)
    requires IsWholeLine(raw) && TrimSpace(raw) != []
    ensures Reported(raw) == [ChangeFor(TrimSpace(raw))]
  {
    hide TrimSpace, ChangeFor;
    RawLinesOfWholeLine(raw);
    assert [raw][1..] == [];
    assert NonBlank([raw]) == [TrimSpace(raw)];
  }

  /** A path written as a line, and nothing else in it, is reported as that file. */
  lemma FileLine(path: Text)
    requires path != [] && 10 !in path && path[|path| - 1] != 47
    requires LeadingSpace(path) == 0 && TrailingSpace(path) == 0
    ensures Reported(path + [10]) == [Change(path, File)]
  {
    var raw := path + [10];
    assert TrimLeft(raw) == raw && raw[..|raw| - 1] == path;
    assert TrimSpace(raw) == TrimRight(raw) == TrimRight(path) == path;
    ReportedOne(raw);
  }

  lemma SlashLine(p: Text)
    requires 10 !in p && TrimSpace(p) != []
    ensures Reported(p + [47, 10]) == [ChangeFor(TrimLeft(p) + [47])]
  {
    hide TrimSpace, TrimLeft, Reported, ChangeFor;
    SlashLineTrimmed(p);
    ReportedOne(p + [47, 10]);
  }

  lemma SlashIsSubtree(q: Text)
    ensures ChangeFor(q + [47]) == Change(TrimSlashes(q), Subtree)
  {
    assert (q + [47])[..|q|] == q;
  }

  /** A line that ends with a slash is reported as a subtree: its text before the slash, trimmed in front. */
  lemma SubtreeLine(p: Text)
    requires 10 !in p && TrimSpace(p) != []
    ensures Reported(p + [47, 10]) == [Change(TrimSlashes(TrimLeft(p)), Subtree)]
    ensures LeadingSpace(p) == 0 && p[|p| - 1] != 47 ==> Reported(p + [47, 10]) == [Change(p, Subtree)]
  {
    hide TrimSpace, Reported, ChangeFor;
    SlashLine(p);
    SlashIsSubtree(TrimLeft(p));
    if LeadingSpace(p) == 0 {
      NothingToTrim(p);
    }
  }

  lemma NothingToTrim(p: Text)
    requires LeadingSpace(p) == 0
    ensures TrimLeft(p) == p && (p != [] && p[|p| - 1] != 47 ==> TrimSlashes(p) == p)
  {}

  lemma SlashLineTrimmed(p: Text)
    requires TrimSpace(p) != []
    ensures TrimLeft(p) != [] && TrimSpace(p + [47, 10]) == TrimLeft(p) + [47]
  {
    TrimLeftBeforeSlash(p);
    TrimRightAfterSlash(TrimLeft(p));
  }

  lemma {:induction false} TrimLeftBeforeSlash(p: Text)
    requires TrimLeft(p) != []
    ensures TrimLeft(p + [47, 10]) == TrimLeft(p) + [47, 10]
    decreases |p|
  {
    var n := LeadingSpace(p);
    assert LeadingSpace(p + [47, 10]) == n;
    if n > 0 {
      TrimLeftBeforeSlash(p[n..]);
      assert (p + [47, 10])[n..] == p[n..] + [47, 10];
    }
  }

  lemma TrimRightAfterSlash(q: Text)
    ensures TrimRight(q + [47, 10]) == q + [47]
  {
    var s := q + [47, 10];
    assert s[..|s| - 1] == q + [47];
    assert TrailingSpace(s) == 1 && TrailingSpace(q + [47]) == 0;
  }
}
