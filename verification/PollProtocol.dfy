/**
 * Whole runs of the marker protocol: a log that other processes append to, move away and
 * replace, a plugin without state, and a host that stores the marker of every answer it accepts.
 * The host never has two polls of one source in flight.
 */
module PollProtocol {
  import opened Options
  import opened Bytes
  import opened Decimal
  import opened Lines
  import opened ChangeLog
  import opened ScanSource

  /** Since the log was last replaced or the marker cleared: nothing accepted yet, or the first accepted poll. */
  datatype Progress = Untouched | Started(first: Trace)

  /** `inherited` is the marker and `delivered` is empty when `content` begins a new epoch. */
  datatype World = World(
    content: Text, marker: string, delivered: seq<Change>, inherited: string, progress: Progress)

  datatype Step =
    | Append(more: Text)
    | Poll(path: Text, trace: Trace, accepted: bool)
    | Replace(newLog: Text)
    | ClearMarker

  predicate Possible(w: World, s: Step) {
    match s
    case Append(more) => |w.content| + |more| <= MAX_INT64
    case Poll(_, t, _) => Growing(w.content, t)
    case Replace(newLog) => |newLog| <= MAX_INT64
    case ClearMarker => true
  }

  /** A failed poll, or an answer the host could not act on, leaves the marker where it was. */
  function Next(w: World, s: Step): World {
    match s
    case Append(more) => w.(content := w.content + more)
    case Replace(newLog) => Begin(newLog, w.marker)
    case ClearMarker => Begin(w.content, "")
    case Poll(path, t, accepted) =>
      var seen := w.(content := t.atRead);
      match Outcome(path, w.marker, t)
      case Failure(_) => seen
      case Response(next, changes) =>
        if accepted then Accepted(w, t, next, changes) else seen
  }

  function Begin(content: Text, marker: string): World {
    World(content, marker, [], marker, Untouched)
  }

  predicate PossibleRun(w: World, steps: seq<Step>)
    decreases |steps|
  {
    steps == [] || (Possible(w, steps[0]) && PossibleRun(Next(w, steps[0]), steps[1..]))
  }

  function Run(w: World, steps: seq<Step>): World
    decreases |steps|
  {
    if steps == [] then w else Run(Next(w, steps[0]), steps[1..])
  }

  /**
   * Where an epoch's delivery starts, for any marker at all: at the end of what is there when the
   * marker is foreign, at the marker when the log is long enough and has a newline just before it,
   * at the first line otherwise.
   */
  function EpochStart(inherited: string, first: Trace): nat {
    if first.sight == Absent then 0
    else match Offset(inherited)
      case None => CompleteEnd(first.atRead)
      case Some(n) => if AtLineStart(first.atStat, n) then n else 0
  }

  /** What has been delivered is what lies between the epoch's start and the marker. */
  ghost predicate Consistent(w: World) {
    && |w.content| <= MAX_INT64
    && match w.progress
       case Untouched => w.delivered == [] && w.marker == w.inherited
       case Started(first) =>
         && first.atStat <= first.atProbe <= first.atRead <= w.content
         && Offset(w.marker).Some?
         && DeliveredBetween(w, EpochStart(w.inherited, first), Offset(w.marker).value)
  }

  ghost predicate DeliveredBetween(w: World, start: nat, end: nat) {
    && w.marker == FormatInt(end)
    && start <= end
    && AtLineStart(w.content, start) && AtLineStart(w.content, end)
    && w.delivered == Reported(w.content[start..end])
  }

  // ----- One poll

  lemma OffsetOfFormat(n: nat)
    requires n <= MAX_INT64
    ensures Offset(FormatInt(n)) == Some(n) && FormatInt(n) != ""
  {
    FormatParses(n);
  }

  lemma PrefixKeepsLineStart(s: Text, t: Text, k: nat)
    requires s <= t && AtLineStart(s, k)
    ensures AtLineStart(t, k)
  {}

  /** Reading from a line start reports exactly the lines up to the last newline, and stops there. */
  lemma ReadFromLineStart(c: Text, s: nat)
    requires AtLineStart(c, s)
    ensures s <= CompleteEnd(c) && AtLineStart(c, CompleteEnd(c))
    ensures NextOffset(c, s) == CompleteEnd(c)
    ensures Reported(From(c, s)) == Reported(c[s..CompleteEnd(c)])
  {
    hide Reported, LastIndexByte;
    ReadersAgree(c, s);
    ReportedEnd(c[s..]);
    SliceOfRest(c, s, CompleteEnd(c[s..]));
  }

  lemma SliceOfRest(c: Text, s: nat, k: nat)
    requires s + k <= |c|
    ensures c[s..][..k] == c[s..s + k]
  {}

  /**
   * A marker the plugin wrote for a log that was only appended to since: neither the
   * resynchronization for foreign markers nor the restart for truncated logs is ever taken.
   */
  lemma OwnMarkerIsStable(content: Text, m: nat, path: Text, t: Trace)
    requires AtLineStart(content, m) && Growing(content, t)
    ensures ParseInt(FormatInt(m)) == Some(m)
    ensures t.sight == Present && Outcome(path, FormatInt(m), t).Response? ==>
              Outcome(path, FormatInt(m), t) == ReadFrom(m, t)
    ensures t.sight == Absent && Outcome(path, FormatInt(m), t).Response? ==>
              m == 0 && Outcome(path, FormatInt(m), t) == Response("0", [])
  {
    assert m <= |content| <= |t.atStat| <= |t.atProbe| <= |t.atRead|;
    OffsetOfFormat(m);
    FormatParses(m);
    PrefixKeepsLineStart(content, t.atStat, m);
    PrefixKeepsLineStart(t.atStat, t.atProbe, m);
    if FormatInt(m) == "0" {
      OffsetOfFormat(0);
      assert FormatInt(0) == "0";
    }
  }

  /** Where an answered poll stops: a missing log counts as empty. */
  function AnswerEnd(t: Trace): nat {
    if t.sight == Absent then 0 else CompleteEnd(t.atRead)
  }

  /** The first answer of an epoch, for any inherited marker whatever. */
  lemma FirstAnswer(content: Text, marker: string, path: Text, t: Trace)
    requires Growing(content, t) && Outcome(path, marker, t).Response?
    ensures var r, s := Outcome(path, marker, t), EpochStart(marker, t);
            var e := AnswerEnd(t);
            && r.nextMarker == FormatInt(e)
            && s <= e && AtLineStart(t.atRead, s) && AtLineStart(t.atRead, e)
            && r.changes == Reported(t.atRead[s..e])
  {
    hide Reported;
    var s := EpochStart(marker, t);
    RawLinesEnd(t.atRead);
    if t.sight == Present && Offset(marker).Some? {
      FirstRead(content, marker, path, t);
      ReadFromLineStart(t.atRead, s);
    } else {
      ReportedNothing();
      assert t.atRead[s..s] == [];
      assert FormatInt(0) == "0";
    }
  }

  lemma FirstRead(content: Text, marker: string, path: Text, t: Trace)
    requires Growing(content, t) && Outcome(path, marker, t).Response?
    requires t.sight == Present && Offset(marker).Some?
    ensures t.read && AtLineStart(t.atRead, EpochStart(marker, t))
    ensures Outcome(path, marker, t) == ReadFrom(EpochStart(marker, t), t)
  {
    var n := Offset(marker).value;
    if AtLineStart(t.atStat, n) {
      PrefixKeepsLineStart(t.atStat, t.atProbe, n);
      PrefixKeepsLineStart(t.atProbe, t.atRead, n);
    }
  }

  // ----- All runs

  /** The world after the host has taken an answer. */
  function Accepted(w: World, t: Trace, next: string, changes: seq<Change>): World {
    w.(
      content := t.atRead,
      marker := next,
      delivered := w.delivered + changes,
      progress := if w.progress.Untouched? then Started(t) else w.progress)
  }

  /** An answer that reports the lines from where delivery stands to `e`, and says so, keeps the books straight. */
  lemma AcceptKeepsConsistent(w: World, t: Trace, e: nat, changes: seq<Change>)
    requires Consistent(w) && Growing(w.content, t)
    requires var s := EpochStart(if w.progress.Untouched? then w.inherited else w.marker, t);
             && s <= e && AtLineStart(t.atRead, s) && AtLineStart(t.atRead, e)
             && changes == Reported(t.atRead[s..e])
             && (w.progress.Started? ==> s == Offset(w.marker).value)
    ensures Consistent(Accepted(w, t, FormatInt(e), changes))
  {
    hide Reported, EpochStart;
    OffsetOfFormat(e);
    match w.progress
    case Untouched =>
      assert [] + changes == changes;
    case Started(first) =>
      var s, m := EpochStart(w.inherited, first), Offset(w.marker).value;
      DeliveryExtends(w.content, t.atRead, s, m, e);
  }

  lemma DeliveryExtends(content: Text, later: Text, s: nat, m: nat, e: nat)
    requires content <= later && s <= m <= e
    requires AtLineStart(content, s) && AtLineStart(content, m) && AtLineStart(later, e)
    ensures AtLineStart(later, s)
    ensures Reported(content[s..m]) + Reported(later[m..e]) == Reported(later[s..e])
  {
    assert content[s..m] == later[s..m];
    ReportedTelescopes(later, s, m, e);
  }

  /** In every state with an accepted poll, the marker is the plugin's own and delivery resumes at it. */
  lemma DeliveryResumes(w: World, path: Text, t: Trace)
    requires Consistent(w) && w.progress.Started? && Growing(w.content, t)
    requires Outcome(path, w.marker, t).Response?
    ensures EpochStart(w.marker, t) == Offset(w.marker).value
  {
    var m := Offset(w.marker).value;
    OwnMarkerIsStable(w.content, m, path, t);
    PrefixKeepsLineStart(w.content, t.atStat, m);
  }

  lemma PollKeepsConsistent(w: World, path: Text, t: Trace)
    requires Consistent(w) && Growing(w.content, t) && Outcome(path, w.marker, t).Response?
    ensures Consistent(Next(w, Poll(path, t, true)))
  {
    FirstAnswer(w.content, w.marker, path, t);
    if w.progress.Started? {
      DeliveryResumes(w, path, t);
    }
    var r, e := Outcome(path, w.marker, t), AnswerEnd(t);
    AcceptKeepsConsistent(w, t, e, r.changes);
    assert Next(w, Poll(path, t, true)) == Accepted(w, t, FormatInt(e), r.changes);
  }

  /** Growth alone changes nothing that has been delivered. */
  lemma GrowthKeepsConsistent(w: World, later: Text)
    requires Consistent(w) && w.content <= later && |later| <= MAX_INT64
    ensures Consistent(w.(content := later))
  {
    hide Reported, EpochStart;
    if w.progress.Started? {
      var start, end := EpochStart(w.inherited, w.progress.first), Offset(w.marker).value;
      PrefixKeepsLineStart(w.content, later, start);
      PrefixKeepsLineStart(w.content, later, end);
      assert w.content[start..end] == later[start..end];
    }
  }

  lemma StepKeepsConsistent(w: World, s: Step)
    requires Consistent(w) && Possible(w, s)
    ensures Consistent(Next(w, s))
  {
    match s
    case Append(more) => GrowthKeepsConsistent(w, w.content + more);
    case Replace(_) =>
    case ClearMarker =>
    case Poll(path, t, accepted) =>
      if accepted && Outcome(path, w.marker, t).Response? {
        PollKeepsConsistent(w, path, t);
      } else {
        GrowthKeepsConsistent(w, t.atRead);
      }
  }

  lemma {:induction false} RunKeepsConsistent(w: World, steps: seq<Step>)
    requires Consistent(w) && PossibleRun(w, steps)
    ensures Consistent(Run(w, steps))
    decreases |steps|
  {
    if steps != [] {
      StepKeepsConsistent(w, steps[0]);
      RunKeepsConsistent(Next(w, steps[0]), steps[1..]);
    }
  }

  /** Only appends and polls: the epoch's log grows and the marker it began with stays on record. */
  predicate OneEpoch(steps: seq<Step>) {
    forall s <- steps :: s.Append? || s.Poll?
  }

  /** The poll `first` was made of a log that began as `content` and has become `later`. */
  predicate MadeOf(first: Trace, content: Text, later: Text) {
    content <= first.atStat <= first.atProbe <= first.atRead <= later
  }

  lemma {:induction false} OneEpochGrows(w: World, steps: seq<Step>)
    requires OneEpoch(steps) && PossibleRun(w, steps)
    ensures w.content <= Run(w, steps).content
    ensures Run(w, steps).inherited == w.inherited
    ensures w.progress.Started? ==> Run(w, steps).progress == w.progress
    ensures w.progress.Untouched? && Run(w, steps).progress.Started? ==>
              MadeOf(Run(w, steps).progress.first, w.content, Run(w, steps).content)
    decreases |steps|
  {
    if steps != [] {
      assert steps[0] in steps;
      assert w.content <= Next(w, steps[0]).content;
      OneEpochGrows(Next(w, steps[0]), steps[1..]);
    }
  }

  /**
   * Exactly once. Whatever is appended, whenever, and whichever polls fail or go unrecorded: the
   * changes delivered are those of the non-blank complete lines between the first marker and the
   * current one, each once, in order.
   */
  lemma ExactlyOnce(content: Text, marker: string, steps: seq<Step>)
    requires |content| <= MAX_INT64 && OneEpoch(steps) && PossibleRun(Begin(content, marker), steps)
    ensures var w := Run(Begin(content, marker), steps);
            && content <= w.content
            && match w.progress
               case Untouched => w.delivered == [] && w.marker == marker
               case Started(first) =>
                 && MadeOf(first, content, w.content)
                 && Offset(w.marker).Some?
                 && DeliveredBetween(w, EpochStart(marker, first), Offset(w.marker).value)
  {
    RunKeepsConsistent(Begin(content, marker), steps);
    OneEpochGrows(Begin(content, marker), steps);
  }

  lemma {:induction false} RunOfSum(w: World, a: seq<Step>, b: seq<Step>)
    requires PossibleRun(w, a + b)
    ensures PossibleRun(w, a) && PossibleRun(Run(w, a), b)
    ensures Run(w, a + b) == Run(Run(w, a), b)
    decreases |a|
  {
    if a == [] {
      assert a + b == b;
    } else {
      assert (a + b)[1..] == a[1..] + b;
      RunOfSum(Next(w, a[0]), a[1..], b);
    }
  }

  /**
   * Truncation epochs. After any history, replace the log: what the new log's polls deliver is
   * again one stretch of it, starting at its first line unless, at the first answered poll, it is
   * at least as long as the marker left from before and has a newline just before it.
   */
  lemma TruncationEpochs(w: World, before: seq<Step>, newLog: Text, after: seq<Step>)
    requires Consistent(w) && OneEpoch(after) && PossibleRun(w, before + [Replace(newLog)] + after)
    ensures var held := Run(w, before).marker;
            var now := Run(w, before + [Replace(newLog)] + after);
            && newLog <= now.content
            && match now.progress
               case Untouched => now.delivered == [] && now.marker == held
               case Started(first) =>
                 && MadeOf(first, newLog, now.content)
                 && Offset(now.marker).Some?
                 && DeliveredBetween(now, EpochStart(held, first), Offset(now.marker).value)
  {
    assert before + [Replace(newLog)] + after == before + ([Replace(newLog)] + after);
    RunOfSum(w, before, [Replace(newLog)] + after);
    assert ([Replace(newLog)] + after)[1..] == after;
    ExactlyOnce(newLog, Run(w, before).marker, after);
  }

  /** Nothing is left behind: an accepted answer from a readable log reaches its last complete line. */
  lemma CaughtUp(w: World, path: Text, t: Trace)
    requires Consistent(w) && Growing(w.content, t)
    requires t.sight == Present && Outcome(path, w.marker, t).Response?
    ensures var next := Next(w, Poll(path, t, true));
            && next.marker == FormatInt(CompleteEnd(next.content))
            && NEWLINE !in next.content[CompleteEnd(next.content)..]
  {
    RawLinesEnd(t.atRead);
    FirstAnswer(w.content, w.marker, path, t);
  }

  /** The text between two line starts is a contiguous run of the log's lines. */
  lemma LineRun(s: Text, a: nat, b: nat) returns (i: nat, j: nat)
    requires a <= b && AtLineStart(s, a) && AtLineStart(s, b)
    ensures i <= j <= |RawLines(s)| && RawLines(s[a..b]) == RawLines(s)[i..j]
    ensures i == |RawLines(s[..a])| && j == |RawLines(s[..b])|
  {
    RawLinesSplit(s, b);
    RawLinesSplit(s[..b], a);
    assert s[..b][..a] == s[..a] && s[..b][a..] == s[a..b];
    i, j := |RawLines(s[..a])|, |RawLines(s[..b])|;
    assert RawLines(s)[..j] == RawLines(s[..b]);
    assert RawLines(s)[i..j] == RawLines(s)[..j][i..];
  }

  /** No fragments: for any marker string, what a poll reports are the last so many lines of the log, each whole. */
  lemma NoFragments(content: Text, path: Text, marker: string, t: Trace) returns (i: nat)
    requires Growing(content, t) && Outcome(path, marker, t).Response?
    ensures i <= |RawLines(t.atRead)|
    ensures Outcome(path, marker, t).changes == ChangesFor(NonBlank(RawLines(t.atRead)[i..]))
    ensures forall u <- RawLines(t.atRead)[i..] :: IsWholeLine(u)
  {
    RawLinesAreWhole(t.atRead);
    FirstAnswer(content, marker, path, t);
    var s, e := EpochStart(marker, t), CompleteEnd(t.atRead);
    if t.sight == Absent {
      i := LinesUpTo(t.atRead, e, e);
      assert t.atRead[0..0] == t.atRead[e..e];
    } else {
      i := LinesUpTo(t.atRead, s, e);
    }
  }

  /**
   * Every marker an answer carries is non-empty, in the plugin's own spelling, parses back to
   * itself, lies within the log and never cuts a line.
   */
  lemma EmittedMarker(content: Text, path: Text, marker: string, t: Trace) returns (e: nat)
    requires Growing(content, t) && Outcome(path, marker, t).Response?
    ensures var next := Outcome(path, marker, t).nextMarker;
            next != "" && Canonical(next) && next == FormatInt(e) && ParseInt(next) == Some(e)
    ensures AtLineStart(t.atRead, e)
  {
    FirstAnswer(content, marker, path, t);
    e := AnswerEnd(t);
    FormatIsCanonical(e);
    FormatParses(e);
  }

  lemma LinesUpTo(c: Text, s: nat, e: nat) returns (i: nat)
    requires s <= e == CompleteEnd(c) && AtLineStart(c, s)
    ensures i <= |RawLines(c)| && RawLines(c[s..e]) == RawLines(c)[i..]
    ensures i == |RawLines(c[..s])|
  {
    hide RawLines;
    RawLinesEnd(c);
    var j;
    i, j := LineRun(c, s, e);
  }

  // ----- Line by line

  /**
   * What an answer says of the log's own lines: every one from the marker's place on that is not
   * blank, in order, as the change its trimmed text stands for; nothing of a log that is not there.
   */
  lemma AnswerLineByLine(content: Text, path: Text, marker: string, t: Trace) returns (indices: seq<nat>)
    requires Growing(content, t) && t.sight == Present && Outcome(path, marker, t).Response?
    ensures var lines := RawLines(t.atRead);
            var first := match Offset(marker)
              case None => |lines|
              case Some(n) => if AtLineStart(t.atStat, n) then |RawLines(t.atRead[..n])| else 0;
            && first <= |lines| && (forall u <- lines :: IsWholeLine(u))
            && NonBlankIndices(lines, first, |lines|, indices)
            && ChangesOf(lines, indices, Outcome(path, marker, t).changes)
  {
    hide Reported, Outcome, RawLines, NonBlank;
    RawLinesAreWhole(t.atRead);
    FirstAnswer(content, marker, path, t);
    var s, e, lines := EpochStart(marker, t), CompleteEnd(t.atRead), RawLines(t.atRead);
    var i := LinesUpTo(t.atRead, s, e);
    indices := NonBlankPicks(lines, i, |lines|);
    assert lines[i..|lines|] == lines[i..];
    LinesBeforePlace(t.atRead, marker, t, i);
    ReportedIs(t.atRead[s..e]);
  }

  lemma ReportedIs(s: Text)
    ensures Reported(s) == ChangesFor(NonBlank(RawLines(s)))
  {}

  lemma LinesBeforePlace(c: Text, marker: string, t: Trace, i: nat)
    requires c == t.atRead && t.sight == Present && AtLineStart(c, EpochStart(marker, t))
    requires i == |RawLines(c[..EpochStart(marker, t)])|
    ensures i == match Offset(marker)
              case None => |RawLines(c)|
              case Some(n) => if AtLineStart(t.atStat, n) then |RawLines(c[..n])| else 0
  {
    hide RawLines;
    RawLinesEnd(c);
    NoCompleteLine([]);
    assert c[..0] == [];
  }

  /**
   * What any run has delivered, said of the log's own lines: the changes of the lines between the
   * first and the current marker, the blank ones left out.
   */
  lemma DeliveredLineByLine(content: Text, marker: string, steps: seq<Step>)
      returns (first: nat, last: nat, indices: seq<nat>)
    requires |content| <= MAX_INT64 && OneEpoch(steps) && PossibleRun(Begin(content, marker), steps)
    requires Run(Begin(content, marker), steps).progress.Started?
    ensures var w := Run(Begin(content, marker), steps);
            var lines := RawLines(w.content);
            && first <= last <= |lines| && (forall u <- lines :: IsWholeLine(u))
            && Offset(w.marker).Some? && Offset(w.marker).value <= |w.content|
            && last == |RawLines(w.content[..Offset(w.marker).value])|
            && NonBlankIndices(lines, first, last, indices) && ChangesOf(lines, indices, w.delivered)
  {
    hide Reported, RawLines, NonBlank, EpochStart;
    ExactlyOnce(content, marker, steps);
    var w := Run(Begin(content, marker), steps);
    var s, e, lines := EpochStart(marker, w.progress.first), Offset(w.marker).value, RawLines(w.content);
    RawLinesAreWhole(w.content);
    first, last := LineRun(w.content, s, e);
    indices := NonBlankPicks(lines, first, last);
    ReportedIs(w.content[s..e]);
  }

  // ----- A log that is not there, and other failures

  /** A log not yet written answers `0` to a source without a marker or with that one, and nothing else. */
  lemma MissingLog(path: Text, marker: string, t: Trace)
    requires TrimSpace(path) != [] && t.sight == Absent
    ensures Outcome(path, marker, t) ==
            if marker == "" || marker == "0" then Response("0", []) else Failure(NotFound)
  {}

  /** So a source may be created before its log: everything written later is delivered, from the first line on. */
  lemma WrittenLaterIsDelivered(marker: string, path: Text, t: Trace, later: seq<Step>)
    requires (marker == "" || marker == "0") && TrimSpace(path) != []
    requires t.sight == Absent && Growing([], t) && OneEpoch(later)
    requires PossibleRun(Next(Begin([], marker), Poll(path, t, true)), later)
    ensures var w := Run(Next(Begin([], marker), Poll(path, t, true)), later);
            && Offset(w.marker).Some? && AtLineStart(w.content, Offset(w.marker).value)
            && w.delivered == Reported(w.content[..Offset(w.marker).value])
  {
    hide Reported;
    var start, first := Begin([], marker), Poll(path, t, true);
    var steps := [first] + later;
    assert steps[0] == first && steps[1..] == later;
    ExactlyOnce([], marker, steps);
    OneEpochGrows(Next(start, first), later);
    var w := Run(start, steps);
    assert w.content[0..Offset(w.marker).value] == w.content[..Offset(w.marker).value];
  }

  /** A log that has gone missing costs nothing: the marker and what was delivered stay as they were. */
  lemma MissingLogKeepsMarker(w: World, path: Text, t: Trace, accepted: bool)
    requires w.marker != "" && w.marker != "0" && t.sight == Absent
    ensures Next(w, Poll(path, t, accepted)) == w.(content := t.atRead)
  {}

  /**
   * When a poll fails, and with which error: without a path, without a log that the marker says was
   * there, when the log cannot be looked at, and when reading it, or the byte before the marker, fails.
   */
  lemma FailsExactly(path: Text, marker: string, t: Trace)
    ensures Outcome(path, marker, t) == Failure(NotConfigured) <==> TrimSpace(path) == []
    ensures Outcome(path, marker, t) == Failure(NotFound) <==>
            TrimSpace(path) != [] && t.sight == Absent && marker != "" && marker != "0"
    ensures Outcome(path, marker, t) == Failure(StatError) <==> TrimSpace(path) != [] && t.sight == Unknown
    ensures Outcome(path, marker, t) == Failure(OpenOrReadError) <==>
            && TrimSpace(path) != [] && t.sight == Present
            && (!t.read || exists n ::
                 ParseInt(marker) == Some(n) && 0 < n <= |t.atStat| && (!t.probed || |t.atProbe| < n))
  {
    hide TrimSpace, Reported, ParseInt, FormatInt, CompleteEnd;
    assert ParseInt("") == None by { NothingParsesFromNothing(); }
  }

  lemma NothingParsesFromNothing()
    ensures ParseInt("") == None
  {}

  /** The markers that are read as an offset are the spellings of it. */
  lemma OffsetExactly(marker: string, n: nat)
    ensures Offset(marker) == Some(n) <==> n <= 0x7FFF_FFFF_FFFF_FFFF && exists sign, k :: Spells(marker, sign, k, n)
  {
    hide ParseInt, Spells;
    ParsesExactly(marker, n);
  }

  // ----- Repeating a poll, and markers from elsewhere

  /** A poll during which nothing happens and nothing fails. */
  function Quiet(content: Text): Trace {
    Trace(Present, content, true, content, true, content)
  }

  /** What polling a log with a held marker reports. */
  function Answer(marker: string, content: Text): seq<Change> {
    match Outcome([SLASH], marker, Quiet(content))
    case Response(_, changes) => changes
    case Failure(_) => []
  }

  lemma SlashIsAPath()
    ensures TrimSpace([SLASH]) == [SLASH]
  {}

  lemma AnswerFrom(marker: string, content: Text)
    requires |content| <= MAX_INT64
    ensures Answer(marker, content) ==
            match Offset(marker)
            case None => []
            case Some(n) => Reported(content[if AtLineStart(content, n) then n else 0..])
  {
    hide Reported, TrimSpace;
    SlashIsAPath();
  }

  lemma ReportedGrows(c: Text, d: Text, s: nat)
    requires c <= d && AtLineStart(c, s)
    ensures Reported(c[s..]) <= Reported(d[s..])
  {
    hide Reported, RawLines, LastIndexByte;
    var k := CompleteEnd(c[s..]);
    RawLinesEnd(c[s..]);
    ReportedEnd(c[s..]);
    assert c[s..][..k] == d[s..][..k];
    PrefixKeepsLineStart(c[s..], d[s..], k);
    ReportedSplit(d[s..], k);
  }

  lemma PresentAnswer(path: Text, marker: string, t: Trace)
    requires Growing(t.atStat, t) && t.sight == Present && Outcome(path, marker, t).Response?
    ensures AtLineStart(t.atRead, EpochStart(marker, t))
    ensures Outcome(path, marker, t).changes ==
            if Offset(marker).None? then [] else Reported(t.atRead[EpochStart(marker, t)..])
  {
    hide Reported;
    FirstAnswer(t.atStat, marker, path, t);
    if Offset(marker).Some? {
      FirstRead(t.atStat, marker, path, t);
    }
  }

  /**
   * The answer reported from a place that later polls with the same marker keep, or lost nothing by
   * leaving it. A marker within the log at the poll's stat always keeps its place; one beyond it may
   * come to lie just past a newline later, and then what comes before it must have had nothing to report.
   */
  predicate KeepsPlace(marker: string, t: Trace) {
    t.sight == Absent ||
    match Offset(marker)
    case None => true
    case Some(n) =>
      || n <= |t.atStat|
      || (if n <= |t.atRead| then !AtLineStart(t.atRead, n) || Reported(t.atRead[..n]) == []
          else Reported(t.atRead) == [])
  }

  /** What a later poll of the same log with the same marker meets, when the log is there. */
  predicate Later(path: Text, marker: string, t: Trace, u: Trace) {
    Growing(t.atRead, u) && u.sight == Present && Outcome(path, marker, u).Response?
  }

  /**
   * Repeating a poll with a held marker, while the log grows during and between the polls: the later
   * list is the earlier one and more, whatever the growth, exactly if the answer keeps its place.
   */
  lemma RepeatedPollExtends(path: Text, marker: string, t: Trace)
    requires Growing(t.atStat, t) && Outcome(path, marker, t).Response?
    ensures (forall u | Later(path, marker, t, u) ::
              Outcome(path, marker, t).changes <= Outcome(path, marker, u).changes)
            <==> KeepsPlace(marker, t)
  {
    hide Outcome, Reported, KeepsPlace;
    if KeepsPlace(marker, t) {
      forall u | Later(path, marker, t, u)
        ensures Outcome(path, marker, t).changes <= Outcome(path, marker, u).changes
      {
        RepeatedPollOn(path, marker, t, u);
      }
    } else {
      var u := LostPlace(path, marker, t);
      assert Later(path, marker, t, u);
    }
  }

  /** Where two polls with the same marker start. */
  lemma TwoPlaces(marker: string, t: Trace, u: Trace)
    requires t.sight == u.sight == Present && Growing(t.atStat, t) && Growing(t.atRead, u) && Offset(marker).Some?
    ensures var n := Offset(marker).value;
            && (n <= |t.atStat| ==> EpochStart(marker, u) == EpochStart(marker, t) <= |t.atRead|)
            && (n > |t.atStat| ==> EpochStart(marker, t) == 0)
            && (n > |t.atStat| && n <= |t.atRead| ==>
                 EpochStart(marker, u) == if AtLineStart(t.atRead, n) then n else 0)
  {}

  lemma RepeatedPollOn(path: Text, marker: string, t: Trace, u: Trace)
    requires Growing(t.atStat, t) && Outcome(path, marker, t).Response?
    requires Later(path, marker, t, u) && KeepsPlace(marker, t)
    ensures Outcome(path, marker, t).changes <= Outcome(path, marker, u).changes
  {
    hide Reported, ReadMarked;
    if t.sight == Present && Offset(marker).Some? {
      PresentAnswer(path, marker, t);
      PresentAnswer(path, marker, u);
      TwoPlaces(marker, t, u);
      hide Outcome, EpochStart, Offset;
      var n, s := Offset(marker).value, EpochStart(marker, t);
      assert t.atRead[0..] == t.atRead;
      if n <= |t.atStat| || (n <= |t.atRead| && !AtLineStart(t.atRead, n)) {
        ReportedGrows(t.atRead, u.atRead, s);
      } else if n <= |t.atRead| {
        ReportedSplit(t.atRead, n);
        ReportedGrows(t.atRead, u.atRead, n);
      }
    }
  }

  /** A later poll that finds the marker just past a newline, where the first one did not. */
  lemma LostPlace(path: Text, marker: string, t: Trace) returns (u: Trace)
    requires Growing(t.atStat, t) && Outcome(path, marker, t).Response?
    requires !KeepsPlace(marker, t)
    ensures Later(path, marker, t, u)
    ensures !(Outcome(path, marker, t).changes <= Outcome(path, marker, u).changes)
  {
    hide Reported;
    var n := Offset(marker).value;
    PresentAnswer(path, marker, t);
    assert t.atRead[0..] == t.atRead;
    var d := t.atRead;
    if n > |d| {
      var filler: Text := seq(n - |d| - 1, _ => 0) + [NEWLINE];
      d := t.atRead + filler;
      assert d[n - 1] == NEWLINE && d[n..] == [];
      ReportedNothing();
    } else {
      ReportedSplit(d, n);
    }
    u := Quiet(d);
    PresentAnswer(path, marker, u);
  }

  /**
   * Which markers resynchronize to the end whatever the log holds: those that are no non-negative
   * int64 in decimal. Spellings the plugin never writes are read as offsets all the same.
   */
  lemma ResyncExactly(marker: string)
    ensures (forall c: Text | |c| <= MAX_INT64 :: Answer(marker, c) == []) <==> Offset(marker).None?
  {
    hide Reported, Answer;
    match Offset(marker)
    case None =>
      forall c: Text | |c| <= MAX_INT64
        ensures Answer(marker, c) == []
      {
        AnswerFrom(marker, c);
      }
    case Some(n) =>
      var a: Text := [97, NEWLINE];
      var c: Text := if n == 2 then a + a else a;
      AnswerFrom(marker, c);
      var s := if AtLineStart(c, n) then n else 0;
      assert c[s..] == a;
      OneLineReported();
      assert Answer(marker, c) != [];
  }

  /** Such a spelling: the whole log is replayed for a marker this plugin never writes. */
  lemma ForeignMarkerReplays(c: Text)
    requires |c| <= MAX_INT64
    ensures !Canonical("-0") && Offset("-0") == Some(0)
    ensures Answer("-0", c) == Reported(c)
  {
    assert "0"[..0] == [] && "-0"[1..] == "0";
    assert DigitsValue("0") == 0;
    AnswerFrom("-0", c);
    assert c[0..] == c;
  }

  lemma OneLineReported()
    ensures |Reported([97, NEWLINE])| == 1
  {
    var a: Text := [97, NEWLINE];
    RawLinesOfWholeLine(a);
    assert TrimLeft(a) == a && a[..1] == [97];
    assert TrimRight(a) == TrimRight([97]) == [97];
    NonBlankOfOne(a);
  }

  // ----- The host's side

  lemma NextOfPoll(w: World, path: Text, t: Trace, accepted: bool, r: PollResult)
    requires r == Outcome(path, w.marker, t)
    ensures Next(w, Poll(path, t, accepted)) ==
            if r.Response? && accepted then Accepted(w, t, r.nextMarker, r.changes) else w.(content := t.atRead)
  {}

  /** One scan source as the host keeps it; the ghost fields record the current epoch. */
  class Source {
    const log: Log
    var marker: string
    var delivered: seq<Change>
    ghost var inherited: string
    ghost var progress: Progress

    ghost function State(): World
      reads this, log
    {
      World(log.content, marker, delivered, inherited, progress)
    }

    constructor (log: Log)
      ensures this.log == log && State() == Begin(log.content, "")
    {
      this.log := log;
      marker, delivered := "", [];
      inherited, progress := "", Untouched;
    }

    /** One poll, kept or dropped: exactly one protocol step, so every run of polls is covered above. */
    method RunPoll(sourceConfig: map<string, Text>) returns (ghost path: Text, ghost t: Trace, accepted: bool)
      requires log.Valid()
      modifies this, log
      ensures log.Valid() && Possible(old(State()), Poll(path, t, accepted))
      ensures State() == Next(old(State()), Poll(path, t, accepted))
    {
      path := if CHANGES_FILE in sourceConfig then sourceConfig[CHANGES_FILE] else [];
      ghost var w := State();
      var r;
      r, t := PollChanges(log, sourceConfig, marker);
      accepted := *;
      if r.Response? && accepted {
        marker := r.nextMarker;
        delivered := delivered + r.changes;
        progress := if progress.Untouched? then Started(t) else progress;
      }
      NextOfPoll(w, path, t, accepted, r);
    }
  }
}
