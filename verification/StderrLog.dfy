/** The stderr line splitter: bounded lines out of a byte stream, however it arrives. */
module StderrLog {
  import opened Wrappers

  type Byte = x: int | 0 <= x < 256

  const LF: Byte := 10
  const CR: Byte := 13
  const MAX_LINE: nat := 8192

  /** What reaches the log: the bytes of a line and whether the truncation marker follows; or a read error. */
  datatype Line = Line(bytes: seq<Byte>, cut: bool) | ReadError

  /** One read of the pipe; reading no bytes is the end of input. */
  datatype Read = Chunk(bytes: seq<Byte>) | Failed

  /* ---------- the specification ---------- */

  function DropCr(bytes: seq<Byte>): seq<Byte> {
    if bytes != [] && bytes[|bytes| - 1] == CR then bytes[..|bytes| - 1] else bytes
  }

  function Kept(segment: seq<Byte>): seq<Byte> {
    if |segment| <= MAX_LINE then segment else segment[..MAX_LINE]
  }

  /** The line logged for one segment of input between line feeds. */
  function LineOf(segment: seq<Byte>): Line {
    Line(DropCr(Kept(segment)), |segment| > MAX_LINE)
  }

  /** Input after the last line feed. */
  function Tail(input: seq<Byte>): seq<Byte> {
    if input == [] then []
    else if input[|input| - 1] == LF then []
    else Tail(input[..|input| - 1]) + [input[|input| - 1]]
  }

  /** Segments ended by a line feed, in order. */
  function Segments(input: seq<Byte>): seq<seq<Byte>> {
    if input == [] then []
    else
      var front := input[..|input| - 1];
      if input[|input| - 1] == LF then Segments(front) + [Tail(front)] else Segments(front)
  }

  function LinesOf(segments: seq<seq<Byte>>): seq<Line> {
    seq(|segments|, i requires 0 <= i < |segments| => LineOf(segments[i]))
  }

  function Rejoined(segments: seq<seq<Byte>>): seq<Byte> {
    if segments == [] then []
    else Rejoined(segments[..|segments| - 1]) + segments[|segments| - 1] + [LF]
  }

  /** Segments and tail are the input split at its line feeds. */
  lemma {:induction false} SplitIsExact(input: seq<Byte>)
    ensures Rejoined(Segments(input)) + Tail(input) == input
    ensures LF !in Tail(input) && forall segment :: segment in Segments(input) ==> LF !in segment
    decreases |input|
  {
    if input != [] {
      var front, last := input[..|input| - 1], input[|input| - 1];
      assert input == front + [last];
      SplitIsExact(front);
      if last == LF {
        var segments := Segments(front) + [Tail(front)];
        assert segments[..|segments| - 1] == Segments(front);
      } else {
        assert Rejoined(Segments(front)) + (Tail(front) + [last]) == (Rejoined(Segments(front)) + Tail(front)) + [last];
      }
    }
  }

  lemma {:induction false} SplitAppend(input: seq<Byte>, more: seq<Byte>)
    requires LF !in more
    ensures Segments(input + more) == Segments(input) && Tail(input + more) == Tail(input) + more
    decreases |more|
  {
    if more == [] {
      assert input + more == input;
    } else {
      var front := more[..|more| - 1];
      assert (input + more)[..|input + more| - 1] == input + front;
      assert (input + more)[|input + more| - 1] == more[|more| - 1];
      SplitAppend(input, front);
      assert front + [more[|more| - 1]] == more;
    }
  }

  /** There is only one way to split: any LF-free segments and tail that spell the input are these. */
  lemma {:induction false} SplitIsUnique(segments: seq<seq<Byte>>, tail: seq<Byte>)
    requires LF !in tail && forall segment :: segment in segments ==> LF !in segment
    ensures Segments(Rejoined(segments) + tail) == segments && Tail(Rejoined(segments) + tail) == tail
    decreases |segments|
  {
    if segments == [] {
      SplitAppend([], tail);
      assert Rejoined(segments) + tail == [] + tail;
    } else {
      var init, last := segments[..|segments| - 1], segments[|segments| - 1];
      SplitIsUnique(init, last);
      var ended := Rejoined(init) + last + [LF];
      assert ended[..|ended| - 1] == Rejoined(init) + last;
      assert segments == init + [last];
      SplitAppend(ended, tail);
    }
  }

  /** A line never exceeds the bound, and one is cut exactly when its segment does. */
  lemma LineIsBounded(segment: seq<Byte>)
    ensures var line := LineOf(segment);
            && |line.bytes| <= MAX_LINE
            && line.bytes <= segment
            && (line.cut <==> |segment| > MAX_LINE)
            && (!line.cut ==> line.bytes == DropCr(segment))
  {
  }

  predicate Stops(read: Read) {
    read.Failed? || read.bytes == []
  }

  /** The bytes of a stream up to its end or first failed read. */
  function BytesOf(stream: seq<Read>): seq<Byte> {
    if stream == [] || Stops(stream[0]) then [] else stream[0].bytes + BytesOf(stream[1..])
  }

  predicate EndsInFailure(stream: seq<Read>) {
    stream != [] && if Stops(stream[0]) then stream[0].Failed? else EndsInFailure(stream[1..])
  }

  /** End of input flushes a non-empty tail; a read error is logged instead of it. */
  function LoggedLines(input: seq<Byte>, failed: bool): seq<Line> {
    LinesOf(Segments(input)) +
    if failed then [ReadError] else if Tail(input) != [] then [LineOf(Tail(input))] else []
  }

  lemma LinesOfSnoc(segments: seq<seq<Byte>>, segment: seq<Byte>)
    ensures LinesOf(segments + [segment]) == LinesOf(segments) + [LineOf(segment)]
  {
  }

  /* ---------- the log of a whole stream ---------- */

  /** The logged line of one segment: its first 8192 bytes, less one final carriage return, marked if there were more. */
  ghost predicate Logs(segment: seq<Byte>, line: Line) {
    && line.Line?
    && (line.cut <==> |segment| > 8192)
    && var kept := if |segment| > 8192 then segment[..8192] else segment;
       line.bytes == if kept != [] && kept[|kept| - 1] == 13 then kept[..|kept| - 1] else kept
  }

  /** `log` is one line for each segment in order, and then what the end of the stream adds. */
  ghost predicate LogOf(segments: seq<seq<Byte>>, tail: seq<Byte>, failed: bool, log: seq<Line>) {
    && |log| == |segments| + (if failed || tail != [] then 1 else 0)
    && (forall i :: 0 <= i < |segments| ==> Logs(segments[i], log[i]))
    && (failed ==> log[|segments|] == ReadError)
    && (!failed && tail != [] ==> Logs(tail, log[|segments|]))
  }

  /** Spelled as segments each ended by a line feed and a tail without one, the input is logged as `LogOf` says. */
  lemma LoggedExactly(segments: seq<seq<Byte>>, tail: seq<Byte>, failed: bool)
    requires LF !in tail && forall segment :: segment in segments ==> LF !in segment
    ensures LogOf(segments, tail, failed, LoggedLines(Rejoined(segments) + tail, failed))
  {
    SplitIsUnique(segments, tail);
    LogsLine(tail);
    LogsLines(segments);
    var log := LoggedLines(Rejoined(segments) + tail, failed);
    assert log[..|segments|] == LinesOf(segments);
    assert forall i :: 0 <= i < |segments| ==> log[i] == LinesOf(segments)[i];
  }

  lemma LogsLine(segment: seq<Byte>)
    ensures Logs(segment, LineOf(segment))
  {
  }

  lemma LogsLines(segments: seq<seq<Byte>>)
    ensures forall i :: 0 <= i < |segments| ==> Logs(segments[i], LinesOf(segments)[i])
  {
    forall i | 0 <= i < |segments|
      ensures Logs(segments[i], LinesOf(segments)[i])
    {
      LogsLine(segments[i]);
    }
  }

  function Chunks(chunks: seq<seq<Byte>>): seq<Read> {
    seq(|chunks|, i requires 0 <= i < |chunks| => Chunk(chunks[i]))
  }

  /** Reading stops at the first empty read or failure and keeps all bytes before it, whatever follows. */
  lemma {:induction false} ReadsUntilEnd(chunks: seq<seq<Byte>>, end: seq<Read>)
    requires forall i :: 0 <= i < |chunks| ==> chunks[i] != []
    requires end != [] ==> end[0] == Failed || end[0] == Chunk([])
    ensures BytesOf(Chunks(chunks) + end) == Flatten(chunks)
    ensures EndsInFailure(Chunks(chunks) + end) <==> end != [] && end[0] == Failed
    decreases |chunks|
  {
    var stream := Chunks(chunks) + end;
    if chunks == [] {
      assert stream == end;
    } else {
      assert stream[0] == Chunk(chunks[0]);
      assert stream[1..] == Chunks(chunks[1..]) + end;
      ReadsUntilEnd(chunks[1..], end);
      FlattenCons(chunks[0], chunks[1..]);
      assert chunks == [chunks[0]] + chunks[1..];
    }
  }

  /** The log of a stream read in any chunks, ended by an empty read, a failure or not at all. */
  lemma StreamLoggedExactly(chunks: seq<seq<Byte>>, end: seq<Read>, segments: seq<seq<Byte>>, tail: seq<Byte>)
    requires forall i :: 0 <= i < |chunks| ==> chunks[i] != []
    requires end != [] ==> end[0] == Failed || end[0] == Chunk([])
    requires LF !in tail && forall segment :: segment in segments ==> LF !in segment
    requires Flatten(chunks) == Rejoined(segments) + tail
    ensures var stream := Chunks(chunks) + end;
            LogOf(segments, tail, end != [] && end[0] == Failed, LoggedLines(BytesOf(stream), EndsInFailure(stream)))
  {
    ReadsUntilEnd(chunks, end);
    LoggedExactly(segments, tail, end != [] && end[0] == Failed);
  }

  /** `Rejoined` ends every segment with the line feed byte and adds nothing else. */
  lemma {:induction false} RejoinedIsFlat(segments: seq<seq<Byte>>)
    ensures Rejoined(segments) == Flatten(seq(|segments|, i requires 0 <= i < |segments| => segments[i] + [10]))
    decreases |segments|
  {
    if segments != [] {
      var n := |segments| - 1;
      var ended := seq(|segments|, i requires 0 <= i < |segments| => segments[i] + [10]);
      RejoinedIsFlat(segments[..n]);
      assert ended[..n] == seq(n, i requires 0 <= i < n => segments[..n][i] + [10]);
      assert Rejoined(segments[..n]) + segments[n] + [LF] == Rejoined(segments[..n]) + (segments[n] + [10]);
    }
  }

  /* ---------- the splitter ---------- */

  class Splitter {
    var line: seq<Byte>
    var truncated: bool
    var logged: seq<Line>

    /** The buffer after `input`; a truncated buffer is always full. */
    ghost predicate Follows(input: seq<Byte>)
      reads this
    {
      && line == Kept(Tail(input))
      && truncated == (|Tail(input)| > MAX_LINE)
      && logged == LinesOf(Segments(input))
    }

    constructor ()
      ensures Follows([])
    {
      line, truncated, logged := [], false, [];
    }

    method Emit()
      modifies this
      ensures line == [] && truncated == old(truncated)
      ensures logged == old(logged) + [Line(DropCr(old(line)), old(truncated))]
    {
      if line != [] && line[|line| - 1] == CR {
        line := line[..|line| - 1];
      }
      logged := logged + [Line(line, truncated)];
      line := [];
    }

    method Accept(byte: Byte, ghost input: seq<Byte>)
      requires Follows(input)
      modifies this
      ensures Follows(input + [byte])
    {
      ghost var longer := input + [byte];
      assert longer[..|longer| - 1] == input;
      if byte == LF {
        Emit();
        truncated := false;
        LinesOfSnoc(Segments(input), Tail(input));
      } else if |line| < MAX_LINE {
        line := line + [byte];
      } else {
        truncated := true;
      }
    }

    method Feed(chunk: seq<Byte>, ghost input: seq<Byte>)
      requires Follows(input)
      modifies this
      ensures Follows(input + chunk)
    {
      assert input + chunk[..0] == input;
      for i := 0 to |chunk|
        invariant Follows(input + chunk[..i])
      {
        assert input + chunk[..i + 1] == input + chunk[..i] + [chunk[i]];
        Accept(chunk[i], input + chunk[..i]);
      }
      assert chunk[..|chunk|] == chunk;
    }

    method ReadAll(stream: seq<Read>) returns (failed: bool)
      requires Follows([])
      modifies this
      ensures Follows(BytesOf(stream)) && failed == EndsInFailure(stream)
    {
      ghost var input: seq<Byte> := [];
      var i := 0;
      assert stream[0..] == stream;
      while i < |stream| && !Stops(stream[i])
        invariant 0 <= i <= |stream| && Follows(input)
        invariant BytesOf(stream) == input + BytesOf(stream[i..])
        invariant EndsInFailure(stream) == EndsInFailure(stream[i..])
      {
        ghost var bytes, rest := stream[i].bytes, BytesOf(stream[i + 1..]);
        assert stream[i..][1..] == stream[i + 1..];
        Feed(stream[i].bytes, input);
        assert input + (bytes + rest) == (input + bytes) + rest;
        input := input + bytes;
        i := i + 1;
      }
      assert BytesOf(stream[i..]) == [] && BytesOf(stream) == input;
      failed := i < |stream| && stream[i].Failed?;
    }

    /** Reads until end of input or an error; what is logged depends only on the bytes read, not on the chunks. */
    method Drain(stream: seq<Read>)
      requires Follows([])
      modifies this
      ensures logged == LoggedLines(BytesOf(stream), EndsInFailure(stream))
    {
      var failed := ReadAll(stream);
      if failed {
        logged := logged + [ReadError];
      } else if line != [] || truncated {
        Emit();
      }
    }
  }
}
