/**
 * Polls of one source that overlap: each is sent the marker stored when it starts, sees the log as
 * it grows meanwhile, and its answer may be stored in any order with those of the others.
 */
module OverlappingPolls {
  import opened Options
  import opened Bytes
  import opened Decimal
  import opened Lines
  import opened ScanSource
  import opened PollProtocol

  /** A poll under way: the marker it was sent and the log as it was at that time. */
  datatype Begun = Begun(marker: string, content: Text)

  /** `spans` records, for every stored answer, the stretch of the log that it reported. */
  datatype Busy = Busy(
    content: Text, marker: string, delivered: seq<Change>, flight: multiset<Begun>, spans: seq<(nat, nat)>)

  datatype Event =
    | Grow(more: Text)
    | Send
    | Reply(poll: Begun, path: Text, trace: Trace, accepted: bool)

  predicate CanHappen(w: Busy, e: Event) {
    match e
    case Grow(more) => |w.content| + |more| <= MAX_INT64
    case Send => true
    case Reply(poll, _, t, _) => poll in w.flight && Growing(poll.content, t) && t.atRead <= w.content
  }

  function After(w: Busy, e: Event): Busy {
    match e
    case Grow(more) => w.(content := w.content + more)
    case Send => w.(flight := w.flight + multiset{Begun(w.marker, w.content)})
    case Reply(poll, path, t, accepted) =>
      var rest := w.(flight := w.flight - multiset{poll});
      match Outcome(path, poll.marker, t)
      case Failure(_) => rest
      case Response(next, changes) =>
        if accepted then Stored(rest, next, changes, (EpochStart(poll.marker, t), AnswerEnd(t))) else rest
  }

  function Stored(w: Busy, next: string, changes: seq<Change>, span: (nat, nat)): Busy {
    w.(marker := next, delivered := w.delivered + changes, spans := w.spans + [span])
  }

  predicate CanRun(w: Busy, events: seq<Event>)
    decreases |events|
  {
    events == [] || (CanHappen(w, events[0]) && CanRun(After(w, events[0]), events[1..]))
  }

  function RunAll(w: Busy, events: seq<Event>): Busy
    decreases |events|
  {
    if events == [] then w else RunAll(After(w, events[0]), events[1..])
  }

  // ----- What has been delivered

  predicate Aligned(content: Text, span: (nat, nat)) {
    span.0 <= span.1 && AtLineStart(content, span.0) && AtLineStart(content, span.1)
  }

  predicate AllAligned(content: Text, spans: seq<(nat, nat)>) {
    forall i :: 0 <= i < |spans| ==> Aligned(content, spans[i])
  }

  /** The changes of the lines in each span, span after span. */
  function ReportedSpans(content: Text, spans: seq<(nat, nat)>): seq<Change>
    requires AllAligned(content, spans)
  {
    if spans == [] then []
    else
      var k := |spans| - 1;
      ReportedSpans(content, spans[..k]) + Reported(content[spans[k].0..spans[k].1])
  }

  predicate Covered(spans: seq<(nat, nat)>, i: nat) {
    exists j :: 0 <= j < |spans| && spans[j].0 <= i < spans[j].1
  }

  function Top(spans: seq<(nat, nat)>, start: nat): (top: nat)
    ensures start <= top
    ensures forall i :: 0 <= i < |spans| ==> spans[i].1 <= top
  {
    if spans == [] then start
    else
      var k := |spans| - 1;
      var t := Top(spans[..k], start);
      if spans[k].1 > t then spans[k].1 else t
  }

  /** A marker that is an offset within the log: no growth changes what it stands for. */
  predicate Within(marker: string, content: Text) {
    Offset(marker).Some? && Offset(marker).value <= |content|
  }

  /** The place such a marker stands for: the marker itself at a line start, the log's start otherwise. */
  function Resume(marker: string, content: Text): (k: nat)
    requires Within(marker, content)
    ensures AtLineStart(content, k)
  {
    if AtLineStart(content, Offset(marker).value) then Offset(marker).value else 0
  }

  /** A marker within the log, for a place that delivery from `start` has come by. */
  predicate Reached(marker: string, content: Text, spans: seq<(nat, nat)>, start: nat) {
    Within(marker, content) && start <= Resume(marker, content) <= Top(spans, start)
  }

  ghost predicate NoGaps(w: Busy, start: nat) {
    && |w.content| <= MAX_INT64
    && AllAligned(w.content, w.spans) && (forall i :: 0 <= i < |w.spans| ==> start <= w.spans[i].0)
    && w.delivered == ReportedSpans(w.content, w.spans)
    && (forall i :: start <= i < Top(w.spans, start) ==> Covered(w.spans, i))
    && Reached(w.marker, w.content, w.spans, start)
    && (forall b <- w.flight :: b.content <= w.content && Reached(b.marker, b.content, w.spans, start))
  }

  lemma {:induction false} ReportedSpansStable(c: Text, d: Text, spans: seq<(nat, nat)>)
    requires c <= d && AllAligned(c, spans)
    ensures AllAligned(d, spans) && ReportedSpans(d, spans) == ReportedSpans(c, spans)
  {
    hide Reported;
    assert AllAligned(d, spans);
    if spans != [] {
      var k := |spans| - 1;
      ReportedSpansStable(c, d, spans[..k]);
      assert Aligned(c, spans[k]);
      assert c[spans[k].0..spans[k].1] == d[spans[k].0..spans[k].1];
    }
  }

  lemma ReachedLater(marker: string, c: Text, d: Text, spans: seq<(nat, nat)>, span: (nat, nat), start: nat)
    requires Reached(marker, c, spans, start) && c <= d
    ensures Reached(marker, d, spans, start) && Reached(marker, d, spans + [span], start)
  {
    assert (spans + [span])[..|spans|] == spans;
  }

  lemma GrowKeepsNoGaps(w: Busy, more: Text, start: nat)
    requires NoGaps(w, start) && |w.content| + |more| <= MAX_INT64
    ensures NoGaps(w.(content := w.content + more), start)
  {
    hide Reported, ReportedSpans, Reached;
    ReportedSpansStable(w.content, w.content + more, w.spans);
    ReachedLater(w.marker, w.content, w.content + more, w.spans, (0, 0), start);
  }

  /** What an answer to a poll sent such a marker reports, whatever was stored meanwhile. */
  lemma AnswerWithin(poll: Begun, path: Text, t: Trace, spans: seq<(nat, nat)>, start: nat)
    requires Reached(poll.marker, poll.content, spans, start)
    requires Growing(poll.content, t) && Outcome(path, poll.marker, t).Response?
    ensures var s, e := EpochStart(poll.marker, t), AnswerEnd(t);
            && start <= s <= Top(spans, start) && s <= e
            && Aligned(t.atRead, (s, e))
            && Outcome(path, poll.marker, t) == Response(FormatInt(e), Reported(t.atRead[s..e]))
  {
    hide Reported, Outcome;
    FirstAnswer(poll.content, poll.marker, path, t);
    StartIsResume(poll, path, t);
  }

  /** Every answer to it starts from the same place. */
  lemma StartIsResume(poll: Begun, path: Text, t: Trace)
    requires Within(poll.marker, poll.content)
    requires Growing(poll.content, t) && Outcome(path, poll.marker, t).Response?
    ensures EpochStart(poll.marker, t) == Resume(poll.marker, poll.content)
  {
    if t.sight == Absent {
      assert Offset("0") == Some(0) by {
        OffsetOfFormat(0);
        assert FormatInt(0) == "0";
      }
    }
  }

  /** A span that starts where delivery has come by leaves no gap behind it. */
  lemma CoverageGrows(before: seq<(nat, nat)>, span: (nat, nat), start: nat)
    requires forall i :: start <= i < Top(before, start) ==> Covered(before, i)
    requires span.0 <= Top(before, start)
    ensures forall i :: start <= i < Top(before + [span], start) ==> Covered(before + [span], i)
  {
    var spans := before + [span];
    assert spans[..|before|] == before;
    forall i | start <= i < Top(spans, start) ensures Covered(spans, i) {
      if i < Top(before, start) {
        assert Covered(before, i);
        var j :| 0 <= j < |before| && before[j].0 <= i < before[j].1;
        assert spans[j] == before[j];
      } else {
        assert spans[|before|] == span;
      }
    }
  }

  lemma StoreKeepsNoGaps(w: Busy, s: nat, e: nat, start: nat)
    requires NoGaps(w, start) && Aligned(w.content, (s, e)) && start <= s <= Top(w.spans, start)
    ensures NoGaps(Stored(w, FormatInt(e), Reported(w.content[s..e]), (s, e)), start)
  {
    hide Reported, Reached, Covered, Top;
    var spans := w.spans + [(s, e)];
    assert spans[..|w.spans|] == w.spans;
    assert AllAligned(w.content, spans);
    CoverageGrows(w.spans, (s, e), start);
    ReachedNow(w.content, spans, e, start);
    forall b <- w.flight ensures Reached(b.marker, b.content, spans, start) {
      ReachedLater(b.marker, b.content, b.content, w.spans, (s, e), start);
    }
  }

  lemma ReachedNow(content: Text, spans: seq<(nat, nat)>, e: nat, start: nat)
    requires spans != [] && spans[|spans| - 1].1 == e && AtLineStart(content, e) && start <= e
    requires |content| <= MAX_INT64
    ensures Reached(FormatInt(e), content, spans, start)
  {
    OffsetOfFormat(e);
  }

  lemma EventKeepsNoGaps(w: Busy, e: Event, start: nat)
    requires NoGaps(w, start) && CanHappen(w, e)
    ensures NoGaps(After(w, e), start)
  {
    hide Reported, ReportedSpans, Reached, Outcome, EpochStart, AnswerEnd, Top;
    match e
    case Grow(more) => GrowKeepsNoGaps(w, more, start);
    case Send =>
    case Reply(poll, path, t, accepted) =>
      var rest := w.(flight := w.flight - multiset{poll});
      assert forall b <- rest.flight :: b in w.flight;
      if Outcome(path, poll.marker, t).Response? {
        AnswerWithin(poll, path, t, w.spans, start);
        var s, end := EpochStart(poll.marker, t), AnswerEnd(t);
        assert t.atRead[s..end] == w.content[s..end];
        PrefixKeepsLineStart(t.atRead, w.content, s);
        PrefixKeepsLineStart(t.atRead, w.content, end);
        StoreKeepsNoGaps(rest, s, end, start);
      }
  }

  lemma {:induction false} RunKeepsNoGaps(w: Busy, events: seq<Event>, start: nat)
    requires NoGaps(w, start) && CanRun(w, events)
    ensures NoGaps(RunAll(w, events), start)
    decreases |events|
  {
    if events != [] {
      EventKeepsNoGaps(w, events[0], start);
      RunKeepsNoGaps(After(w, events[0]), events[1..], start);
    }
  }

  // ----- Main results

  /** A stored marker, of whatever origin, and no poll under way. */
  function Idling(content: Text, marker: string): Busy {
    Busy(content, marker, [], multiset{}, [])
  }

  /**
   * At least once. From any stored marker within the log on, however polls overlap and in whatever
   * order their answers are stored, failed or dropped: what has been delivered are the lines of
   * whole stretches of the log, and together these leave no byte out between the place the marker
   * stood for and the current marker, though that may have gone back.
   */
  lemma AtLeastOnce(content: Text, marker: string, events: seq<Event>)
    requires |content| <= MAX_INT64 && Within(marker, content)
    requires CanRun(Idling(content, marker), events)
    ensures var w := RunAll(Idling(content, marker), events);
            var start := Resume(marker, content);
            && AllAligned(w.content, w.spans) && w.delivered == ReportedSpans(w.content, w.spans)
            && (forall i :: 0 <= i < |w.spans| ==> start <= w.spans[i].0)
            && Within(w.marker, w.content)
            && forall i :: start <= i < Resume(w.marker, w.content) ==> Covered(w.spans, i)
  {
    var start := Resume(marker, content);
    assert Reached(marker, content, [], start);
    RunKeepsNoGaps(Idling(content, marker), events, start);
  }

  /** No byte is left out between the first place an answer was given from and the current marker. */
  predicate Gapless(w: Busy) {
    w.spans != [] ==>
      && Offset(w.marker).Some?
      && forall i :: w.spans[0].0 <= i < Offset(w.marker).value ==> Covered(w.spans, i)
  }

  /** After an answer has been stored the marker is the end of a span, and at a line start. */
  lemma {:induction false} MarkerIsAnEnd(w: Busy, events: seq<Event>)
    requires |w.content| <= MAX_INT64 && CanRun(w, events)
    requires w.spans != [] ==> Emitted(w.marker, w.content)
    requires forall b <- w.flight :: b.content <= w.content
    ensures var v := RunAll(w, events); v.spans != [] ==> Emitted(v.marker, v.content)
    decreases |events|
  {
    if events != [] {
      EmittedByEvent(w, events[0]);
      MarkerIsAnEnd(After(w, events[0]), events[1..]);
    }
  }

  predicate Emitted(marker: string, content: Text) {
    Within(marker, content) && Resume(marker, content) == Offset(marker).value
  }

  lemma EmittedByEvent(w: Busy, e: Event)
    requires |w.content| <= MAX_INT64 && CanHappen(w, e)
    requires w.spans != [] ==> Emitted(w.marker, w.content)
    requires forall b <- w.flight :: b.content <= w.content
    ensures var v := After(w, e);
            && |v.content| <= MAX_INT64
            && (v.spans != [] ==> Emitted(v.marker, v.content))
            && forall b <- v.flight :: b.content <= v.content
  {
    hide Reported, Outcome, EpochStart, AnswerEnd;
    if e.Reply? && Outcome(e.path, e.poll.marker, e.trace).Response? {
      FirstAnswer(e.poll.content, e.poll.marker, e.path, e.trace);
      OffsetOfFormat(AnswerEnd(e.trace));
      PrefixKeepsLineStart(e.trace.atRead, w.content, AnswerEnd(e.trace));
    }
  }

  /**
   * Exactly when overlapping polls lose nothing. With a stored marker within the log, every run is
   * gapless; with one beyond its end, or none at all, some run of two overlapping polls is not.
   */
  lemma OverlapIsHarmlessExactly(content: Text, marker: string)
    requires |content| < MAX_INT64
    ensures (forall events: seq<Event> | CanRun(Idling(content, marker), events) ::
              Gapless(RunAll(Idling(content, marker), events)))
            <==> Within(marker, content)
  {
    hide CanRun, RunAll, Gapless;
    if Within(marker, content) {
      forall events: seq<Event> | CanRun(Idling(content, marker), events)
        ensures Gapless(RunAll(Idling(content, marker), events))
      {
        GaplessWithin(content, marker, events);
      }
    } else {
      var events;
      if Offset(marker).None? {
        events := ForeignMarkerLosesBytes(content, marker);
      } else {
        events := MarkerPastTheEndLosesBytes(content, marker);
      }
    }
  }

  lemma GaplessWithin(content: Text, marker: string, events: seq<Event>)
    requires |content| <= MAX_INT64 && Within(marker, content)
    requires CanRun(Idling(content, marker), events)
    ensures Gapless(RunAll(Idling(content, marker), events))
  {
    hide CanRun, RunAll;
    AtLeastOnce(content, marker, events);
    MarkerIsAnEnd(Idling(content, marker), events);
  }

  /** Two polls sent the same marker, the second answered after the log has grown by `more`. */
  function Overlap(content: Text, marker: string, more: Text): seq<Event> {
    var poll := Begun(marker, content);
    [Send, Send, Reply(poll, [SLASH], Quiet(content), true), Grow(more),
     Reply(poll, [SLASH], Quiet(content + more), true)]
  }

  lemma RunStep(w: Busy, e: Event, rest: seq<Event>)
    ensures CanRun(w, [e] + rest) <==> CanHappen(w, e) && CanRun(After(w, e), rest)
    ensures RunAll(w, [e] + rest) == RunAll(After(w, e), rest)
  {
    assert ([e] + rest)[0] == e && ([e] + rest)[1..] == rest;
  }

  /** Both answers are stored, whatever they report. */
  lemma OverlapRun(content: Text, marker: string, more: Text)
    requires |content| + |more| <= MAX_INT64
    requires Outcome([SLASH], marker, Quiet(content)).Response?
    requires Outcome([SLASH], marker, Quiet(content + more)).Response?
    ensures CanRun(Idling(content, marker), Overlap(content, marker, more))
    ensures var w := RunAll(Idling(content, marker), Overlap(content, marker, more));
            var t, u := Quiet(content), Quiet(content + more);
            var r, q := Outcome([SLASH], marker, t), Outcome([SLASH], marker, u);
            && w.content == content + more && w.marker == q.nextMarker
            && w.delivered == r.changes + q.changes
            && w.spans == [(EpochStart(marker, t), AnswerEnd(t)), (EpochStart(marker, u), AnswerEnd(u))]
  {
    hide Outcome, EpochStart, AnswerEnd, CanRun, RunAll, After, CanHappen, Overlap;
    var poll := Begun(marker, content);
    var t, u := Quiet(content), Quiet(content + more);
    var r, q := Outcome([SLASH], marker, t), Outcome([SLASH], marker, u);
    FiveSteps(content, marker, more);
    SentTwice(content, marker);
    var w2 := Busy(content, marker, [], multiset{poll, poll}, []);
    StoredReply(w2, poll, t);
    var spans := [(EpochStart(marker, t), AnswerEnd(t))];
    var w3 := After(w2, Reply(poll, [SLASH], t, true));
    assert w3 == Busy(content, r.nextMarker, r.changes, multiset{poll}, spans) by {
      assert multiset{poll, poll} - multiset{poll} == multiset{poll};
      assert [] + r.changes == r.changes && [] + spans == spans;
    }
    Grown(w3, more);
    var w4 := After(w3, Grow(more));
    assert poll in w4.flight;
    StoredReply(w4, poll, u);
  }

  lemma SentTwice(content: Text, marker: string)
    ensures CanHappen(Idling(content, marker), Send) && CanHappen(After(Idling(content, marker), Send), Send)
    ensures var poll := Begun(marker, content);
            After(After(Idling(content, marker), Send), Send) ==
            Busy(content, marker, [], multiset{poll, poll}, [])
  {
    var poll := Begun(marker, content);
    assert multiset{} + multiset{poll} + multiset{poll} == multiset{poll, poll};
  }

  lemma Grown(w: Busy, more: Text)
    ensures CanHappen(w, Grow(more)) <==> |w.content| + |more| <= MAX_INT64
    ensures After(w, Grow(more)) == w.(content := w.content + more)
  {}

  lemma StoredReply(w: Busy, poll: Begun, t: Trace)
    requires poll in w.flight && Growing(poll.content, t) && t.atRead <= w.content
    requires Outcome([SLASH], poll.marker, t).Response?
    ensures CanHappen(w, Reply(poll, [SLASH], t, true))
    ensures var r := Outcome([SLASH], poll.marker, t);
            After(w, Reply(poll, [SLASH], t, true)) ==
            Stored(w.(flight := w.flight - multiset{poll}), r.nextMarker, r.changes,
                   (EpochStart(poll.marker, t), AnswerEnd(t)))
  {
    hide Outcome, EpochStart, AnswerEnd;
  }

  /** The run spelled out event by event. */
  lemma FiveSteps(content: Text, marker: string, more: Text)
    ensures var poll := Begun(marker, content);
            var early := Reply(poll, [SLASH], Quiet(content), true);
            var late := Reply(poll, [SLASH], Quiet(content + more), true);
            var w0 := Idling(content, marker);
            var w1 := After(w0, Send);
            var w2 := After(w1, Send);
            var w3 := After(w2, early);
            var w4 := After(w3, Grow(more));
            && RunAll(w0, Overlap(content, marker, more)) == After(w4, late)
            && (CanRun(w0, Overlap(content, marker, more)) <==>
                 CanHappen(w0, Send) && CanHappen(w1, Send) && CanHappen(w2, early) &&
                 CanHappen(w3, Grow(more)) && CanHappen(w4, late))
  {
    hide CanRun, RunAll, After, CanHappen;
    var poll := Begun(marker, content);
    var early, late := Reply(poll, [SLASH], Quiet(content), true), Reply(poll, [SLASH], Quiet(content + more), true);
    var w1 := After(Idling(content, marker), Send);
    var w2 := After(w1, Send);
    var w3 := After(w2, early);
    var w4 := After(w3, Grow(more));
    NothingMore(After(w4, late));
    RunStep(w4, late, []);
    RunStep(w3, Grow(more), [late]);
    RunStep(w2, early, [Grow(more), late]);
    RunStep(w1, Send, [early, Grow(more), late]);
    RunStep(Idling(content, marker), Send, [Send, early, Grow(more), late]);
    assert [late] == [late] + [];
    assert [Grow(more), late] == [Grow(more)] + [late];
    assert [early, Grow(more), late] == [early] + [Grow(more), late];
    assert [Send, early, Grow(more), late] == [Send] + [early, Grow(more), late];
    assert Overlap(content, marker, more) == [Send] + [Send, early, Grow(more), late];
  }

  lemma NothingMore(w: Busy)
    ensures CanRun(w, []) && RunAll(w, []) == w
  {}

  /** A quiet poll of a readable log is answered, whatever its marker. */
  lemma QuietAnswer(marker: string, c: Text)
    requires |c| <= MAX_INT64
    ensures Outcome([SLASH], marker, Quiet(c)).Response?
    ensures AnswerEnd(Quiet(c)) == CompleteEnd(c)
    ensures EpochStart(marker, Quiet(c)) ==
            if Offset(marker).None? then CompleteEnd(c)
            else if AtLineStart(c, Offset(marker).value) then Offset(marker).value else 0
    ensures Outcome([SLASH], marker, Quiet(c)).nextMarker == FormatInt(CompleteEnd(c))
    ensures Outcome([SLASH], marker, Quiet(c)).changes == Answer(marker, c)
  {
    hide TrimSpace, CompleteEnd;
    SlashIsAPath();
    FirstAnswer(c, marker, [SLASH], Quiet(c));
  }

  lemma NotGapless(w: Busy, i: nat)
    requires w.spans != [] && Offset(w.marker).Some?
    requires w.spans[0].0 <= i < Offset(w.marker).value && !Covered(w.spans, i)
    ensures !Gapless(w)
  {}

  /** Without a usable marker both polls start from the end they see; what lies between the ends is lost. */
  lemma ForeignMarkerLosesBytes(content: Text, marker: string) returns (events: seq<Event>)
    requires |content| < MAX_INT64 && Offset(marker).None?
    ensures CanRun(Idling(content, marker), events) && !Gapless(RunAll(Idling(content, marker), events))
  {
    var more: Text := [NEWLINE];
    events := Overlap(content, marker, more);
    LosesBytes(content, marker, more);
  }

  /** A marker past the end is read from the start at first, and as an offset once the log has grown to it. */
  lemma MarkerPastTheEndLosesBytes(content: Text, marker: string) returns (events: seq<Event>)
    requires |content| < MAX_INT64 && Offset(marker).Some? && Offset(marker).value > |content|
    ensures CanRun(Idling(content, marker), events) && !Gapless(RunAll(Idling(content, marker), events))
  {
    var n := Offset(marker).value;
    var more: Text := seq(n - |content| - 1, _ => 0) + [NEWLINE];
    assert (content + more)[n - 1] == NEWLINE;
    events := Overlap(content, marker, more);
    LosesBytes(content, marker, more);
  }

  lemma LosesBytes(content: Text, marker: string, more: Text)
    requires |content| + |more| <= MAX_INT64 && more != [] && more[|more| - 1] == NEWLINE
    requires !Within(marker, content)
    requires Offset(marker).Some? ==> Offset(marker).value == |content + more|
    ensures CanRun(Idling(content, marker), Overlap(content, marker, more))
    ensures !Gapless(RunAll(Idling(content, marker), Overlap(content, marker, more)))
  {
    hide CanRun, RunAll, Outcome, EpochStart, AnswerEnd, LastIndexByte;
    var d := content + more;
    assert d[|d| - 1] == NEWLINE && CompleteEnd(d) == |d|;
    QuietAnswer(marker, content);
    QuietAnswer(marker, d);
    OverlapRun(content, marker, more);
    OffsetOfFormat(|d|);
    NotGapless(RunAll(Idling(content, marker), Overlap(content, marker, more)), CompleteEnd(content));
  }

  /** Such a loss: two first polls, and the line written between their answers is never delivered. */
  lemma FirstPollsMayLoseALine()
    ensures var line: Text := [97, NEWLINE];
            var w := RunAll(Idling([], ""), Overlap([], "", line));
            && CanRun(Idling([], ""), Overlap([], "", line))
            && w.marker == FormatInt(2) && w.delivered == [] && |Reported(w.content)| == 1
  {
    hide CanRun, RunAll, Outcome, EpochStart, AnswerEnd, Answer, Reported;
    var line: Text := [97, NEWLINE];
    assert [] + line == line;
    QuietAnswer("", []);
    QuietAnswer("", line);
    AnswerFrom("", []);
    AnswerFrom("", line);
    OverlapRun([], "", line);
    OneLineReported();
    assert CompleteEnd(line) == 2;
  }

  /**
   * Another: the marker 5 is left from a longer log, now replaced by one line. Of two polls the first
   * reads that line; then "aa" is written, and the second poll takes the marker for a place after it.
   */
  lemma MarkerPastTheEndMayLoseALine()
    ensures var content: Text, more: Text := [97, NEWLINE], [97, 97, NEWLINE];
            var w := RunAll(Idling(content, "5"), Overlap(content, "5", more));
            && CanRun(Idling(content, "5"), Overlap(content, "5", more))
            && w.marker == FormatInt(5) && w.delivered == Reported(content)
            && |Reported(w.content)| == |w.delivered| + 1
  {
    hide CanRun, RunAll, Outcome, EpochStart, AnswerEnd, Answer, Reported;
    var content: Text, more: Text := [97, NEWLINE], [97, 97, NEWLINE];
    var d := content + more;
    assert d == [97, NEWLINE, 97, 97, NEWLINE];
    OffsetOfFormat(5);
    assert FormatInt(5) == "5";
    QuietAnswer("5", content);
    QuietAnswer("5", d);
    AnswerFrom("5", content);
    AnswerFrom("5", d);
    OverlapRun(content, "5", more);
    assert content[0..] == content && d[5..] == [];
    ReportedNothing();
    assert CompleteEnd(d) == 5;
    ReportedSplit(d, 2);
    assert d[..2] == content && d[2..] == more;
    TwoLettersReported();
  }

  lemma TwoLettersReported()
    ensures |Reported([97, 97, NEWLINE])| == 1
  {
    var a: Text := [97, 97, NEWLINE];
    RawLinesOfWholeLine(a);
    assert TrimLeft(a) == a && a[..2] == [97, 97];
    assert TrimRight(a) == TrimRight([97, 97]) == [97, 97];
    NonBlankOfOne(a);
  }
}
