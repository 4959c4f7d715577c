/** The scan_source.v1 example: both readers of the change log and PollChanges itself. */
module ScanSource {
  import opened Options
  import opened Bytes
  import opened Decimal
  import opened Lines
  import opened ChangeLog

  // ----- The readers

  /** The offset just past the last complete line read from `offset`. */
  function NextOffset(s: Text, offset: nat): nat {
    offset + CompleteEnd(From(s, offset))
  }

  /** The part of `s` read so far: nothing yet when `a == b`, wherever that is. */
  function Span(s: Text, a: nat, b: nat): Text
    requires a <= b && (a < b ==> b <= |s|)
  {
    if a < b then s[a..b] else []
  }

  /** Reading stands at `b`, having come from `a`, and no line is cut there. */
  ghost predicate ReadUpTo(s: Text, a: nat, b: nat) {
    a <= b && (a < b ==> b <= |s| && s[b - 1] == NEWLINE)
  }

  /** `lines` are the non-blank complete lines from `a` up to where reading stands. */
  ghost predicate HaveRead(s: Text, a: nat, b: nat, lines: seq<Text>) {
    ReadUpTo(s, a, b) && lines == KeptLines(s, a, b)
  }

  ghost function KeptLines(s: Text, a: nat, b: nat): seq<Text>
    requires ReadUpTo(s, a, b)
  {
    NonBlank(RawLines(Span(s, a, b)))
  }

  /** All results speak of the log as the last read left it, however much it grew before that. */
  method ReadAppended(log: Log, offset: nat) returns (ok: bool, lines: seq<Text>, next: nat)
    requires log.Valid()
    modifies log
    ensures log.Valid() && old(log.content) <= log.content
    ensures ok ==> lines == NonBlank(RawLines(From(log.content, offset))) && next == NextOffset(log.content, offset)
    ensures !ok ==> lines == [] && next == offset
  {
    ok, lines, next := false, [], offset;
    var f := log.Open();
    if f == null {
      return;
    }
    var sought := f.Seek(offset);
    if !sought {
      return;
    }
    var reader := new LineReader(f);
    ok, lines, next := CollectLines(reader, offset);
  }

  method CollectLines(reader: LineReader, offset: nat) returns (ok: bool, lines: seq<Text>, next: nat)
    requires reader.Valid() && reader.Position() == offset && reader.file.log.Valid()
    modifies reader, reader.file, reader.file.log
    ensures reader.file.log.Valid() && old(reader.file.log.content) <= reader.file.log.content
    ensures ok ==> lines == NonBlank(RawLines(From(reader.file.log.content, offset)))
    ensures ok ==> next == NextOffset(reader.file.log.content, offset)
    ensures !ok ==> lines == [] && next == offset
  {
    hide *;
    lines, next := [], offset;
    NothingRead(reader.file.log.content, offset);
    while true
      invariant reader.Valid() && reader.Position() == next && reader.file.log.Valid()
      invariant old(reader.file.log.content) <= reader.file.log.content
      invariant HaveRead(reader.file.log.content, offset, next, lines)
      decreases MAX_INT64 - next
    {
      var kept, length, status := ReadLine(reader, offset, next, lines);
      if !status.Ok? {
        ok := status.EndOfFile?;
        if !ok {
          lines, next := [], offset;
        }
        return;
      }
      next := next + length;
      lines := lines + kept;
    }
  }

  /** One `ReadString` and the trimming of what it returned: a whole line more has been read, or all there is. */
  method ReadLine(reader: LineReader, ghost offset: nat, ghost next: nat, ghost lines: seq<Text>)
      returns (kept: seq<Text>, length: nat, status: ReadStatus)
    requires reader.Valid() && reader.Position() == next
    requires HaveRead(reader.file.log.content, offset, next, lines)
    modifies reader, reader.file, reader.file.log
    ensures reader.Valid() && reader.file.log.Valid()
    ensures old(reader.file.log.content) <= reader.file.log.content
    ensures status.Ok? ==>
      && 0 < length && reader.Position() == next + length <= MAX_INT64
      && HaveRead(reader.file.log.content, offset, next + length, lines + kept)
    ensures status.EndOfFile? ==>
      && lines == NonBlank(RawLines(From(reader.file.log.content, offset)))
      && next == NextOffset(reader.file.log.content, offset)
  {
    hide *;
    ghost var before := reader.file.log.content;
    var raw;
    raw, status := reader.ReadString();
    ghost var c := reader.file.log.content;
    kept, length := [], |raw|;
    match status
    case Ok =>
      HaveReadIsStable(before, c, offset, next, lines);
      kept := KeepNonBlank(raw, c, offset, next, lines);
    case EndOfFile =>
      HaveReadIsStable(before, c, offset, next, lines);
      ReadToTheEnd(c, offset, next, lines);
    case IoError =>
  }

  /** What one more whole line adds to the lines read so far: itself, trimmed, or nothing when it is blank. */
  method KeepNonBlank(raw: Text, ghost c: Text, ghost a: nat, ghost b: nat, ghost lines: seq<Text>)
      returns (kept: seq<Text>)
    requires HaveRead(c, a, b, lines) && b + |raw| <= |c|
    requires IsWholeLine(raw) && raw == c[b..b + |raw|]
    ensures HaveRead(c, a, b + |raw|, lines + kept)
  {
    var line := TrimSpace(raw);
    kept := if line == [] then [] else [line];
    ReadOneMore(c, a, b, lines, raw);
    assert kept == Kept(raw);
  }

  lemma NothingRead(c: Text, offset: nat)
    ensures HaveRead(c, offset, offset, [])
  {}

  lemma HaveReadIsStable(before: Text, c: Text, a: nat, b: nat, lines: seq<Text>)
    requires before <= c && HaveRead(before, a, b, lines)
    ensures HaveRead(c, a, b, lines)
  {
    assert Span(c, a, b) == Span(before, a, b);
  }

  /** The next whole line extends what has been read, by the line it keeps or by nothing. */
  lemma ReadOneMore(c: Text, a: nat, b: nat, lines: seq<Text>, raw: Text)
    requires HaveRead(c, a, b, lines) && b + |raw| <= |c|
    requires IsWholeLine(raw) && raw == c[b..b + |raw|]
    ensures HaveRead(c, a, b + |raw|, lines + Kept(raw))
  {
    hide RawLines, NonBlank, Kept;
    var s := c[a..b + |raw|];
    assert c[b + |raw| - 1] == raw[|raw| - 1];
    assert s[..b - a] == Span(c, a, b) && s[b - a..] == raw;
    assert AtLineStart(s, b - a) by { assert a < b ==> s[b - a - 1] == c[b - 1]; }
    LinesOfSum(s, b - a, Span(c, a, b), raw);
    RawLinesOfWholeLine(raw);
    NonBlankConcat(RawLines(Span(c, a, b)), [raw]);
    NonBlankOfOne(raw);
  }

  lemma NonBlankOfOne(raw: Text)
    ensures NonBlank([raw]) == Kept(raw)
  {
    assert [raw][1..] == [];
  }

  lemma LinesOfSum(s: Text, k: nat, front: Text, rest: Text)
    requires AtLineStart(s, k) && front == s[..k] && rest == s[k..]
    ensures RawLines(s) == RawLines(front) + RawLines(rest)
  {
    RawLinesSplit(s, k);
  }

  /** When no newline is left, everything there is to read has been read. */
  lemma ReadToTheEnd(c: Text, a: nat, b: nat, lines: seq<Text>)
    requires HaveRead(c, a, b, lines) && NEWLINE !in From(c, b)
    ensures lines == NonBlank(RawLines(From(c, a)))
    ensures NextOffset(c, a) == b
  {
    hide RawLines, NonBlank, LastIndexByte;
    var s := From(c, a);
    if a < b {
      var k := b - a;
      assert s[k - 1] == NEWLINE;
      assert s[..k] == Span(c, a, b) && s[k..] == From(c, b);
      LinesOfSum(s, k, s[..k], s[k..]);
      NoCompleteLine(s[k..]);
      assert RawLines(s) == RawLines(Span(c, a, b));
      CompleteEndFrom(s, k);
    } else {
      NoCompleteLine(s);
      NoCompleteLine([]);
    }
  }

  /** The block scanner: one pass, a fixed buffer, no lines kept. */
  method CompleteLinesEnd(log: Log) returns (ok: bool, end: nat)
    requires log.Valid()
    modifies log
    ensures log.Valid() && old(log.content) <= log.content
    ensures ok ==> end == CompleteEnd(log.content)
    ensures !ok ==> end == 0
  {
    hide LastIndexByte;
    ok, end := false, 0;
    var f := log.Open();
    if f == null {
      return;
    }
    var pos := 0;
    var buf := new byte[64 * 1024](_ => 0);
    while true
      invariant f.log == log && fresh(f) && fresh(buf) && buf.Length == 64 * 1024
      invariant log.Valid() && old(log.content) <= log.content
      invariant pos == f.pos <= |log.content|
      invariant end == CompleteEnd(log.content[..pos])
      decreases MAX_INT64 - pos
    {
      ghost var before := log.content;
      var n, status := f.Read(buf);
      ghost var c := log.content;
      assert before[..pos] == c[..pos];
      var i := LastIndexByte(buf[..n], NEWLINE);
      BlockEnd(c, pos, n);
      if i >= 0 {
        end := pos + i + 1;
      }
      pos := pos + n;
      if status.EndOfFile? {
        assert c[..pos] == c;
        ok := true;
        return;
      }
      if status.IoError? {
        end := 0;
        return;
      }
    }
  }

  /** A block moves the end of the complete lines exactly when it holds a newline. */
  lemma BlockEnd(c: Text, pos: nat, n: nat)
    requires pos + n <= |c|
    ensures CompleteEnd(c[..pos + n]) ==
            if LastIndexByte(c[pos..pos + n], NEWLINE) >= 0 then pos + LastIndexByte(c[pos..pos + n], NEWLINE) + 1
            else CompleteEnd(c[..pos])
  {
    var s := c[..pos + n];
    assert s[pos..] == c[pos..pos + n];
    CompleteEndFrom(s, pos);
    if LastIndexByte(s[pos..], NEWLINE) < 0 {
      var i := LastIndexByte(s, NEWLINE);
      var j := LastIndexByte(c[..pos], NEWLINE);
      assert forall k :: pos <= k < |s| ==> s[k] == s[pos..][k - pos];
      assert i >= 0 ==> i < pos && c[..pos][i] == s[i];
      assert j >= 0 ==> s[j] == c[..pos][j];
    }
  }

  /** The two readers agree: from any offset, reading stops where the block scanner points, or where it began. */
  lemma ReadersAgree(s: Text, offset: nat)
    ensures NextOffset(s, 0) == CompleteEnd(s)
    ensures NextOffset(s, offset) == if CompleteEnd(s) > offset then CompleteEnd(s) else offset
  {
    assert s[0..] == s;
    if offset <= |s| {
      CompleteEndFrom(s, offset);
    }
  }

  /**
   * Reads telescope: reading a log from a line start, and once it has grown on from the returned
   * offset, gives the lines and the end of one read of the grown log.
   */
  lemma ReadsTelescope(c: Text, d: Text, a: nat)
    requires c <= d && AtLineStart(c, a)
    ensures var b := NextOffset(c, a);
            && NonBlank(RawLines(From(c, a))) + NonBlank(RawLines(From(d, b))) == NonBlank(RawLines(From(d, a)))
            && NextOffset(d, b) == NextOffset(d, a)
  {
    hide RawLines, NonBlank, LastIndexByte, CompleteEnd;
    var k, front, rest := CompleteEnd(c[a..]), c[a..], d[a..];
    RawLinesEnd(front);
    assert front <= rest;
    assert AtLineStart(rest, k) by { assert k > 0 ==> rest[k - 1] == front[k - 1]; }
    assert front[..k] == rest[..k] && rest[k..] == d[a + k..];
    LinesOfSum(rest, k, rest[..k], rest[k..]);
    NonBlankConcat(RawLines(rest[..k]), RawLines(rest[k..]));
    CompleteEndPast(rest, k);
  }

  lemma CompleteEndPast(s: Text, k: nat)
    requires AtLineStart(s, k)
    ensures k + CompleteEnd(s[k..]) == CompleteEnd(s)
  {
    hide LastIndexByte;
    CompleteEndFrom(s, k);
  }

  // ----- PollChanges

  datatype PollError = NotConfigured | NotFound | StatError | OpenOrReadError

  datatype PollResult =
    | Response(nextMarker: string, changes: seq<Change>)
    | Failure(error: PollError)

  datatype Sight = Absent | Unknown | Present

  /**
   * What one poll ran into: the outcome of its stat, whether its later accesses worked, and the
   * contents of the log at the time of the stat, of the newline probe and of the last read.
   */
  datatype Trace = Trace(sight: Sight, atStat: Text, probed: bool, atProbe: Text, read: bool, atRead: Text)

  /** The log was only appended to between `before` and the poll's last access. */
  predicate Growing(before: Text, t: Trace) {
    before <= t.atStat <= t.atProbe <= t.atRead && |t.atRead| <= MAX_INT64
  }

  /** The offset a marker stands for; anything but a non-negative int64 in decimal is foreign. */
  function Offset(marker: string): Option<nat> {
    match ParseInt(marker)
    case Some(n) => if n < 0 then None else Some(n)
    case None => None
  }

  /** The answer PollChanges owes for a marker, given what it ran into. */
  function Outcome(path: Text, marker: string, t: Trace): PollResult {
    if TrimSpace(path) == [] then Failure(NotConfigured)
    else match t.sight
      case Absent => if marker == "" || marker == "0" then Response("0", []) else Failure(NotFound)
      case Unknown => Failure(StatError)
      case Present =>
        if marker == "" || Offset(marker).None? then
          if t.read then Response(FormatInt(CompleteEnd(t.atRead)), []) else Failure(OpenOrReadError)
        else
          ReadMarked(Offset(marker).value, t)
  }

  /** A marker past the end, or with anything but a newline before it, means a truncated log. */
  function ReadMarked(offset: nat, t: Trace): PollResult {
    if 0 < offset <= |t.atStat| then
      if !t.probed || |t.atProbe| < offset then Failure(OpenOrReadError)
      else if t.atProbe[offset - 1] == NEWLINE then ReadFrom(offset, t)
      else ReadFrom(0, t)
    else ReadFrom(0, t)
  }

  function ReadFrom(offset: nat, t: Trace): PollResult {
    if t.read then Response(FormatInt(NextOffset(t.atRead, offset)), Reported(From(t.atRead, offset)))
    else Failure(OpenOrReadError)
  }

  const CHANGES_FILE := "changes_file"

  /** `log` is the file the configured path names. */
  method PollChanges(log: Log, sourceConfig: map<string, Text>, marker: string)
      returns (r: PollResult, ghost t: Trace)
    requires log.Valid()
    modifies log
    ensures log.Valid() && Growing(old(log.content), t) && log.content == t.atRead
    ensures r == Outcome(if "changes_file" in sourceConfig then sourceConfig["changes_file"] else [], marker, t)
  {
    t := SeenAt(Unknown, log.content);
    var path := TrimSpace(if CHANGES_FILE in sourceConfig then sourceConfig[CHANGES_FILE] else []);
    if path == [] {
      return Failure(NotConfigured), t;
    }
    var stat := log.Stat();
    if stat.Missing? {
      t := SeenAt(Absent, log.content);
      if marker == "" || marker == "0" {
        return Response("0", []), t;
      }
      return Failure(NotFound), t;
    }
    if stat.StatFailed? {
      t := SeenAt(Unknown, log.content);
      return Failure(StatError), t;
    }
    t := SeenAt(Present, log.content);
    if marker == "" {
      r, t := ResyncToEnd(log, t);
      return;
    }
    var parsed := ParseInt(marker);
    if parsed == None || parsed.value < 0 {
      r, t := ResyncToEnd(log, t);
      return;
    }
    r, t := PollMarked(log, parsed.value, stat.size, t);
  }

  /** PollChanges from the point where the marker has been read as an offset. */
  method PollMarked(log: Log, marked: nat, size: nat, ghost t: Trace) returns (r: PollResult, ghost u: Trace)
    requires log.Valid() && t.sight == Present && size == |t.atStat|
    requires log.content == t.atStat == t.atProbe == t.atRead && t.probed
    modifies log
    ensures log.Valid() && Growing(t.atStat, u) && log.content == u.atRead
    ensures u.sight == Present && u.atStat == t.atStat
    ensures r == ReadMarked(marked, u)
  {
    u := t;
    var offset := marked;
    if offset > size {
      offset := 0;
    } else if offset > 0 {
      var ok, atLineStart := FollowsNewline(log, offset);
      u := u.(probed := ok, atProbe := log.content, atRead := log.content);
      if !ok {
        return Failure(OpenOrReadError), u;
      }
      if !atLineStart {
        offset := 0;
      }
    }
    r, u := Report(log, offset, u);
  }

  ghost function SeenAt(sight: Sight, content: Text): Trace {
    Trace(sight, content, true, content, false, content)
  }

  method Report(log: Log, offset: nat, ghost t: Trace) returns (r: PollResult, ghost u: Trace)
    requires log.Valid()
    modifies log
    ensures log.Valid() && old(log.content) <= log.content
    ensures u == t.(read := u.read, atRead := log.content)
    ensures r == ReadFrom(offset, u)
  {
    hide RawLines, NonBlank, ChangesFor, FormatInt;
    var ok, lines, next := ReadAppended(log, offset);
    u := t.(read := ok, atRead := log.content);
    if !ok {
      return Failure(OpenOrReadError), u;
    }
    var changes := AppendChanges(lines);
    r := Response(FormatInt(next), changes);
  }

  /** One change per line, in order. */
  method AppendChanges(lines: seq<Text>) returns (changes: seq<Change>)
    ensures changes == ChangesFor(lines)
  {
    hide ChangeFor;
    changes := [];
    for i := 0 to |lines|
      invariant |changes| == i && forall j :: 0 <= j < i ==> changes[j] == ChangeFor(lines[j])
    {
      changes := changes + [ChangeFor(lines[i])];
    }
  }

  method FollowsNewline(log: Log, offset: nat) returns (ok: bool, yes: bool)
    requires log.Valid() && offset > 0
    modifies log
    ensures log.Valid() && old(log.content) <= log.content
    ensures ok ==> offset <= |log.content| && yes == (log.content[offset - 1] == NEWLINE)
  {
    ok, yes := false, false;
    var f := log.Open();
    if f != null {
      var b;
      ok, b := f.ReadByteAt(offset - 1);
      yes := b == NEWLINE;
    }
  }

  method ResyncToEnd(log: Log, ghost t: Trace) returns (r: PollResult, ghost u: Trace)
    requires log.Valid()
    modifies log
    ensures log.Valid() && old(log.content) <= log.content
    ensures u == t.(read := u.read, atRead := log.content)
    ensures r == if u.read then Response(FormatInt(CompleteEnd(log.content)), []) else Failure(OpenOrReadError)
  {
    var ok, end := CompleteLinesEnd(log);
    u := t.(read := ok, atRead := log.content);
    r := if ok then Response(FormatInt(end), []) else Failure(OpenOrReadError);
  }
}
