/**
 * The change-log file as the plugin meets it: another process may append to it, move it away
 * or bring it back before every single access, a read delivers any non-empty chunk, and any
 * access may fail. The contents are never rewritten here; see PollProtocol for replaced logs.
 */
module ChangeLog {
  import opened Bytes
  import opened Decimal
  import opened Lines

  datatype StatResult = Missing | StatFailed | Found(size: nat)

  datatype ReadStatus = Ok | EndOfFile | IoError

  class Log {
    var content: Text
    var present: bool

    /** File sizes fit in an int64. */
    ghost predicate Valid()
      reads this
    {
      |content| <= MAX_INT64
    }

    /** Whatever other processes do to the file between two accesses of a poll. */
    method Elapse()
      requires Valid()
      modifies this
      ensures Valid() && old(content) <= content
    {
      var appended: Text := *;
      if |content| + |appended| <= MAX_INT64 {
        content := content + appended;
      }
      present := *;
    }

    method Stat() returns (r: StatResult)
      requires Valid()
      modifies this
      ensures Valid() && old(content) <= content
      ensures r.Missing? ==> !present
      ensures r.Found? ==> r.size == |content|
    {
      Elapse();
      if * {
        r := StatFailed;
      } else {
        r := if present then Found(|content|) else Missing;
      }
    }

    /** A handle stays good when the file is moved later; opening a missing file fails. */
    method Open() returns (f: LogFile?)
      requires Valid()
      modifies this
      ensures Valid() && old(content) <= content
      ensures f != null ==> fresh(f) && f.log == this && f.pos == 0
    {
      Elapse();
      f := null;
      if present {
        if * {
          f := new LogFile(this);
        }
      }
    }
  }

  class LogFile {
    const log: Log
    var pos: nat

    constructor (log: Log)
      ensures this.log == log && pos == 0
    {
      this.log := log;
      pos := 0;
    }

    method Seek(offset: nat) returns (ok: bool)
      modifies this
      ensures ok ==> pos == offset
    {
      ok := *;
      if ok {
        pos := offset;
      }
    }

    /** Fills the front of `buf` with the next bytes, as few or as many as the file system likes. */
    method Read(buf: array<byte>) returns (n: nat, status: ReadStatus)
      requires log.Valid() && buf.Length > 0
      modifies this, log, buf
      ensures log.Valid() && old(log.content) <= log.content
      ensures n <= buf.Length && pos == old(pos) + n
      ensures n > 0 ==> pos <= |log.content| && buf[..n] == log.content[old(pos)..pos]
      ensures status.Ok? ==> n > 0
      ensures status.EndOfFile? ==> pos >= |log.content|
    {
      log.Elapse();
      n := 0;
      status := if pos < |log.content| then IoError else EndOfFile;
      if * {
        status := IoError;
      } else if pos < |log.content| {
        n :| 0 < n <= buf.Length && n <= |log.content| - pos;
        forall i | 0 <= i < n {
          buf[i] := log.content[pos + i];
        }
        assert buf[..n] == log.content[pos..pos + n];
        pos := pos + n;
        status := Ok;
        if * {
          status := if pos == |log.content| then EndOfFile else IoError;
        }
      }
    }

    /** One byte at a fixed offset, or nothing when the file ends before it or the read fails. */
    method ReadByteAt(offset: nat) returns (ok: bool, b: byte)
      requires log.Valid()
      modifies log
      ensures log.Valid() && old(log.content) <= log.content
      ensures ok ==> offset < |log.content| && b == log.content[offset]
    {
      log.Elapse();
      ok, b := false, 0;
      if offset < |log.content| {
        ok := *;
        b := log.content[offset];
      }
    }
  }

  /** What has been read up to `pos` but not yet returned is the log's own text there. */
  ghost predicate Buffers(c: Text, pos: nat, buffered: Text)
    requires |buffered| <= pos
  {
    buffered != [] ==> pos <= |c| && buffered == c[pos - |buffered|..pos]
  }

  lemma BuffersGrown(c: Text, d: Text, pos: nat, buffered: Text)
    requires |buffered| <= pos && Buffers(c, pos, buffered) && c <= d
    ensures Buffers(d, pos, buffered)
  {}

  lemma BuffersMore(c: Text, pos: nat, buffered: Text, more: Text)
    requires |buffered| <= pos && Buffers(c, pos, buffered) && pos + |more| <= |c| && more == c[pos..pos + |more|]
    ensures Buffers(c, pos + |more|, buffered + more)
  {
    var start := pos - |buffered|;
    assert c[start..pos] + c[pos..pos + |more|] == c[start..pos + |more|];
    assert buffered == c[start..pos];
  }

  /** Returning the front of the buffer leaves the rest buffered. */
  lemma BuffersFront(c: Text, pos: nat, buffered: Text, n: nat)
    requires |buffered| <= pos && Buffers(c, pos, buffered) && 0 < n <= |buffered|
    ensures Buffers(c, pos, buffered[n..]) && pos <= |c|
    ensures buffered[..n] == c[pos - |buffered|..pos - |buffered| + n]
  {}

  lemma BuffersNothing(c: Text, pos: nat)
    ensures Buffers(c, pos, [])
  {}

  /** When the file has no more to give, the buffer holds all that is left. */
  lemma BuffersRest(c: Text, pos: nat, buffered: Text)
    requires |buffered| <= pos && Buffers(c, pos, buffered) && pos >= |c|
    ensures buffered == From(c, pos - |buffered|)
  {}

  /** `bufio.Reader` as used here: bytes already read but not yet returned, and an error held back behind them. */
  class LineReader {
    const file: LogFile
    var buffered: Text
    var pending: ReadStatus

    ghost predicate Valid()
      reads this, file, file.log
    {
      && file.log.Valid()
      && |buffered| <= file.pos && Buffers(file.log.content, file.pos, buffered)
      && (pending.EndOfFile? ==> file.pos >= |file.log.content|)
    }

    /** The offset of the next byte to be returned. */
    ghost function Position(): int
      reads this, file
    {
      file.pos - |buffered|
    }

    constructor (file: LogFile)
      requires file.log.Valid()
      ensures Valid() && this.file == file && buffered == [] && pending == Ok
    {
      this.file := file;
      buffered := [];
      pending := Ok;
    }

    /** One more read into the buffer; the bytes already in it stay the log's bytes at the same place. */
    method Fill()
      requires Valid() && pending.Ok?
      modifies this, file, file.log
      ensures Valid() && Position() == old(Position())
      ensures old(file.log.content) <= file.log.content
      ensures pending.Ok? ==> old(file.pos) < file.pos <= |file.log.content|
    {
      hide Buffers;
      ghost var before := file.log.content;
      var block := new byte[4096](_ => 0);
      var n, status := file.Read(block);
      pending := status;
      BuffersGrown(before, file.log.content, file.pos - n, buffered);
      if n > 0 {
        var more := block[..n];
        BuffersMore(file.log.content, file.pos - n, buffered, more);
        buffered := buffered + more;
      }
    }

    /** `ReadString('\n')`: the next complete line, or the unfinished rest when the log ends first. */
    method ReadString() returns (raw: Text, status: ReadStatus)
      requires Valid()
      modifies this, file, file.log
      ensures Valid() && file.log.Valid() && old(file.log.content) <= file.log.content
      ensures status.Ok? ==>
        && IsWholeLine(raw) && raw != []
        && 0 <= old(Position()) && old(Position()) + |raw| == Position() <= |file.log.content| <= MAX_INT64
        && raw == file.log.content[old(Position())..Position()]
      ensures status.EndOfFile? ==>
        && NEWLINE !in raw
        && raw == From(file.log.content, old(Position()))
    {
      hide FirstLine, Buffers, From;
      while true
        invariant Valid() && Position() == old(Position())
        invariant old(file.log.content) <= file.log.content
        decreases if pending.Ok? then 1 else 0, MAX_INT64 - file.pos
      {
        var n := FirstLine(buffered);
        if n > 0 {
          BuffersFront(file.log.content, file.pos, buffered, n);
          raw, status := buffered[..n], Ok;
          buffered := buffered[n..];
          return;
        }
        if !pending.Ok? {
          if pending.EndOfFile? {
            BuffersRest(file.log.content, file.pos, buffered);
          }
          raw, status := buffered, pending;
          BuffersNothing(file.log.content, file.pos);
          buffered, pending := [], Ok;
          return;
        }
        Fill();
      }
    }
  }
}
