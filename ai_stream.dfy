/** The client side of the AI gateway: `streamChat`, which consumes an
    event stream of chat deltas, and `invokeFunction`, a single request and
    response.  The HTTP exchange is a `Response` value handed in; the chunks
    of its body are already-decoded strings; `JSON.parse` and the property
    accesses that follow it are oracles passed as function parameters. */
module AiStream {
  import opened Wrappers
  import opened JsText

  /** `JSON.parse(json).choices?.[0]?.delta?.content` for one payload:
      `None` when `JSON.parse` or a property access throws; `Some(None)` when
      there is no string content; `Some(Some(s))` when the content is `s`. */
  type DeltaParser = string -> Option<Option<string>>

  /** `JSON.parse(text).error` for an error body: `None` when it throws,
      `Some(None)` when there is no string `error` field, `Some(Some(m))`
      when the field is `m`. */
  type ErrorParser = string -> Option<Option<string>>

  /** A fetch response: `ok` (a 2xx status) and `body`, the sequence of
      decoded chunks a reader yields, or `None` when there is no body. */
  datatype Response = Response(ok: bool, body: Option<seq<string>>)

  /** One callback invocation: `onDelta(text)` or `onDone()`. */
  datatype Event = Delta(text: string) | Done

  /** A call of `streamChat`: the callbacks it made, in order, or the
      message of the `Error` it threw. */
  datatype StreamOutcome = Completed(events: seq<Event>) | Failed(message: string)

  const RequestFailed: string := "Request failed"
  const NoResponseBody: string := "No response body"
  const DataPrefix: string := "data: "
  const DoneSentinel: string := "[DONE]"

  /** `resp.text()`: the whole body, or "" when there is none. */
  function BodyText(resp: Response): (r: string)
    ensures resp.body.None? || resp.body.value == [] ==> r == ""
  {
    if resp.body.Some? then Concat(resp.body.value) else ""
  }

  /** A body of one chunk is that chunk's text. */
  lemma BodyTextOneChunk(ok: bool, chunk: string)
    ensures BodyText(Response(ok, Some([chunk]))) == chunk
  {
    assert [chunk][1..] == [];
    assert Concat([chunk]) == chunk + Concat([]);
    assert chunk + "" == chunk;
  }

  /** The text of a body read in two parts is the first part's text followed
      by the second's, as the buffer grows by one decoded chunk at a time. */
  lemma BodyTextAppend(ok: bool, a: seq<string>, b: seq<string>)
    ensures BodyText(Response(ok, Some(a + b))) == BodyText(Response(ok, Some(a))) + BodyText(Response(ok, Some(b)))
  {
    ConcatAppend(a, b);
  }

  /** `parsed.error || "Request failed"`, with a throwing parse caught. */
  function ErrorMessage(field: Option<Option<string>>): (r: string)
    ensures r != ""
    ensures r == RequestFailed || field == Some(Some(r))
    ensures field.Some? && field.value.Some? && field.value.value != "" ==> r == field.value.value
  {
    match field
    case Some(Some(m)) => if m != "" then m else RequestFailed
    case _ => RequestFailed
  }

  // ---------------------------------------------------------------------
  // One line of the event stream

  /** What the inner loop does with one line. */
  datatype LineAction = Skip | Emit(content: string) | Finish | Malformed

  /** `if (line.endsWith("\r")) line = line.slice(0, -1)` */
  function StripCR(line: string): (r: string)
    ensures r == line || r + "\r" == line
    ensures if |line| > 0 && line[|line| - 1] == '\r' then r + "\r" == line else r == line
    ensures '\n' !in line ==> '\n' !in r
  {
    if |line| > 0 && line[|line| - 1] == '\r' then line[..|line| - 1] else line
  }

  /** The trimmed text after the `data: ` prefix. */
  function Payload(line: string): (r: string)
    requires StartsWith(line, DataPrefix)
    ensures |r| <= |line| - |DataPrefix|
    ensures r == [] || (!IsWhiteSpace(r[0]) && !IsWhiteSpace(r[|r| - 1]))
  {
    Trim(line[|DataPrefix|..])
  }

  /** The payload is `line.slice(6)` with only the white space at its two
      ends removed. */
  lemma PayloadOfLine(line: string)
    requires StartsWith(line, DataPrefix)
    ensures var body, r := line[|DataPrefix|..], Payload(line);
      var k := |TrimEnd(body)| - |r|;
      0 <= k && k + |r| <= |body| && r == body[k..k + |r|] &&
      forall i :: 0 <= i < |body| && !(k <= i < k + |r|) ==> IsWhiteSpace(body[i])
  {
    TrimRemovesOnlyWhiteSpace(line[|DataPrefix|..]);
  }

  /** The action for `raw`, the text before a newline. */
  function Interpret(raw: string, parse: DeltaParser): (a: LineAction)
    ensures a.Emit? ==> a.content != ""
  {
    var line := StripCR(raw);
    if !StartsWith(line, DataPrefix) then Skip
    else
      var json := Payload(line);
      if json == DoneSentinel then Finish
      else
        match parse(json)
        case None => Malformed
        case Some(content) =>
          if content.Some? && content.value != "" then Emit(content.value) else Skip
  }

  /** Which action a line gets: nothing for a line without the `data: `
      prefix, the end of the stream for a `[DONE]` payload, a failure for a
      payload that does not parse, and the content otherwise when it is a
      non-empty string. */
  lemma InterpretCases(raw: string, parse: DeltaParser)
    ensures var a := Interpret(raw, parse);
      var line := StripCR(raw);
      && (!StartsWith(line, DataPrefix) ==> a == Skip)
      && (StartsWith(line, DataPrefix) ==>
            && (a == Finish <==> Payload(line) == DoneSentinel)
            && (a == Malformed <==> Payload(line) != DoneSentinel && parse(Payload(line)).None?)
            && (a.Emit? <==> Payload(line) != DoneSentinel && parse(Payload(line)).Some? &&
                             parse(Payload(line)).value.Some? && parse(Payload(line)).value.value != "")
            && (a.Emit? ==> parse(Payload(line)) == Some(Some(a.content))))
  {
  }

  /** Removing a second carriage return does not change the action: the line
      put back after a failed parse, which has already lost its `\r`, is read
      the same way the next time round. */
  lemma InterpretStripped(raw: string, parse: DeltaParser)
    ensures Interpret(StripCR(raw), parse) == Interpret(raw, parse)
  {
    var l1 := StripCR(raw);
    var l2 := StripCR(l1);
    if l2 != l1 {
      assert l1 == l2 + "\r";
      if StartsWith(l1, DataPrefix) {
        assert l1[5] == ' ';
        assert |l1| > |DataPrefix|;
        assert l2[..|DataPrefix|] == l1[..|DataPrefix|];
        assert l1[|DataPrefix|..] == l2[|DataPrefix|..] + "\r";
        TrimIgnoresTrailingWhiteSpace(l2[|DataPrefix|..], '\r');
      } else if |l2| >= |DataPrefix| {
        assert l1[..|DataPrefix|] == l2[..|DataPrefix|];
      }
    }
  }

  // ---------------------------------------------------------------------
  // The whole stream, as a function of its text

  /** Why reading stopped: the text ran out of complete lines, a `[DONE]`
      line was read, or a data line failed to parse. */
  datatype Stop = EndOfText | AtSentinel | AtMalformed

  /** The deltas delivered, in order, and why delivery stopped. */
  datatype Scan = Scan(deltas: seq<string>, stop: Stop)

  /** `deltas` delivered before the deltas of `s`. */
  function After(deltas: seq<string>, s: Scan): Scan {
    Scan(deltas + s.deltas, s.stop)
  }

  /** The result of one line's action followed by the reading of the rest. */
  function Continue(a: LineAction, rest: Scan): Scan {
    match a
    case Skip => rest
    case Emit(s) => After([s], rest)
    case Finish => Scan([], AtSentinel)
    case Malformed => Scan([], AtMalformed)
  }

  /** How each line is handled; for the client, `ReaderOf(parse)`. */
  type LineReader = string -> LineAction

  /** The reader `streamChat` uses: `Interpret` with the given parser. */
  function ReaderOf(parse: DeltaParser): LineReader {
    raw => Interpret(raw, parse)
  }

  /** The newline-terminated lines of `t`, read from the front, each handled
      as `read` says; text after the last newline is never read. */
  function ScanText(t: string, read: LineReader): Scan
    decreases |t|
  {
    var idx := IndexOf(t, '\n');
    if idx < 0 then Scan([], EndOfText)
    else Continue(read(t[..idx]), ScanText(t[idx + 1..], read))
  }

  predicate NonEmptyAll(deltas: seq<string>) {
    forall k :: 0 <= k < |deltas| ==> deltas[k] != ""
  }

  /** Every delta the client delivers is a non-empty string. */
  lemma {:induction false} DeltasNonEmpty(t: string, parse: DeltaParser)
    ensures NonEmptyAll(ScanText(t, ReaderOf(parse)).deltas)
    decreases |t|
  {
    var read := ReaderOf(parse);
    var idx := IndexOf(t, '\n');
    if idx >= 0 {
      var rest := t[idx + 1..];
      DeltasNonEmpty(rest, parse);
      var act := read(t[..idx]);
      var rs := ScanText(rest, read);
      assert ScanText(t, read) == Continue(act, rs);
      if act.Emit? {
        assert act == Interpret(t[..idx], parse);
        assert NonEmptyAll([act.content] + rs.deltas);
      }
    }
  }

  /** The same reading stated over the sequence of complete lines. */
  function ScanLines(lines: seq<string>, read: LineReader): Scan {
    if lines == [] then Scan([], EndOfText)
    else Continue(read(lines[0]), ScanLines(lines[1..], read))
  }

  /** The complete lines of `t`: the text before each newline, in order. */
  function CompleteLines(t: string): seq<string>
    decreases |t|
  {
    var idx := IndexOf(t, '\n');
    if idx < 0 then [] else [t[..idx]] + CompleteLines(t[idx + 1..])
  }

  /** The complete lines are the pieces of `t.split("\n")` but the last. */
  lemma {:induction false} CompleteLinesAreSplitPieces(t: string)
    ensures var pieces := Split(t, '\n');
      CompleteLines(t) == pieces[..|pieces| - 1]
    decreases |t|
  {
    var idx := IndexOf(t, '\n');
    if idx >= 0 {
      var rest := t[idx + 1..];
      var tail := Split(rest, '\n');
      assert CompleteLines(rest) == tail[..|tail| - 1] by {
        CompleteLinesAreSplitPieces(rest);
      }
      assert Split(t, '\n') == [t[..idx]] + tail by {
        SplitAt(t, '\n');
      }
      assert ([t[..idx]] + tail)[..|tail|] == [t[..idx]] + tail[..|tail| - 1];
    }
  }

  /** So no complete line holds a newline. */
  lemma CompleteLinesHaveNoNewline(t: string)
    ensures forall k :: 0 <= k < |CompleteLines(t)| ==> '\n' !in CompleteLines(t)[k]
  {
    CompleteLinesAreSplitPieces(t);
  }

  /** `ScanText` reads exactly the complete lines of its text, in order. */
  lemma {:induction false} ScanTextReadsCompleteLines(t: string, read: LineReader)
    ensures ScanText(t, read) == ScanLines(CompleteLines(t), read)
    decreases |t|
  {
    var idx := IndexOf(t, '\n');
    if idx >= 0 {
      var rest := t[idx + 1..];
      var lines := [t[..idx]] + CompleteLines(rest);
      assert ScanLines(lines, read) == Continue(read(t[..idx]), ScanLines(CompleteLines(rest), read)) by {
        ScanLinesCons(lines, read);
        assert lines[0] == t[..idx] && lines[1..] == CompleteLines(rest);
      }
      assert ScanText(rest, read) == ScanLines(CompleteLines(rest), read) by {
        ScanTextReadsCompleteLines(rest, read);
      }
    }
  }

  lemma ScanLinesCons(lines: seq<string>, read: LineReader)
    requires lines != []
    ensures ScanLines(lines, read) == Continue(read(lines[0]), ScanLines(lines[1..], read))
  {
  }

  /** Text that is empty or ends with a newline. */
  predicate LineComplete(t: string) {
    t == [] || t[|t| - 1] == '\n'
  }

  /** The first newline of `b + x` is the first newline of `b`. */
  lemma FirstLine(b: string, x: string)
    requires '\n' in b
    ensures var idx := IndexOf(b, '\n');
      IndexOf(b + x, '\n') == idx && (b + x)[..idx] == b[..idx] && (b + x)[idx + 1..] == b[idx + 1..] + x
  {
    IndexOfAppend(b, x, '\n');
  }

  /** Reading `a + b` where `a` ends on a line boundary: if `a` stopped the
      reading, `b` is never looked at; otherwise the deltas of `b` follow
      those of `a`. */
  lemma {:induction false} ScanAppend(a: string, b: string, read: LineReader)
    requires LineComplete(a)
    ensures ScanText(a + b, read) ==
      if ScanText(a, read).stop == EndOfText then After(ScanText(a, read).deltas, ScanText(b, read))
      else ScanText(a, read)
    decreases |a|
  {
    if a == [] {
      assert a + b == b;
      assert ScanText(a, read) == Scan([], EndOfText);
      var rb := ScanText(b, read);
      assert [] + rb.deltas == rb.deltas;
      assert After([], rb) == rb;
    } else {
      assert a[|a| - 1] == '\n';
      var idx := IndexOf(a, '\n');
      var a' := a[idx + 1..];
      assert LineComplete(a') by {
        if a' != [] {
          assert a'[|a'| - 1] == a[|a| - 1];
        }
      }
      FirstLine(a, b);
      var act := read(a[..idx]);
      assert ScanText(a, read) == Continue(act, ScanText(a', read));
      assert ScanText(a + b, read) == Continue(act, ScanText(a' + b, read));
      ScanAppend(a', b, read);
      ContinueAppend(act, ScanText(a', read), ScanText(b, read));
    }
  }

  /** `Continue` and `After` combine the way the reading of `a + b` needs. */
  lemma ContinueAppend(act: LineAction, ra: Scan, rb: Scan)
    ensures Continue(act, if ra.stop == EndOfText then After(ra.deltas, rb) else ra) ==
      if Continue(act, ra).stop == EndOfText then After(Continue(act, ra).deltas, rb)
      else Continue(act, ra)
  {
    if act.Emit? {
      assert [act.content] + (ra.deltas + rb.deltas) == ([act.content] + ra.deltas) + rb.deltas;
    }
  }

  /** The line `line` followed by a newline, then `rest`, is read as `line`
      first. */
  lemma ScanLineFirst(line: string, rest: string, read: LineReader)
    requires '\n' !in line
    ensures ScanText(line + "\n" + rest, read) == Continue(read(line), ScanText(rest, read))
  {
    var t := line + "\n" + rest;
    IndexOfAfterLine(line, rest, '\n');
    assert t[..|line|] == line;
    assert t[|line| + 1..] == rest;
  }

  /** Reading `before`, then one line, then `after`, when `before` ends on a
      line boundary and did not stop the reading. */
  lemma ScanAround(before: string, line: string, after: string, read: LineReader)
    requires LineComplete(before) && ScanText(before, read).stop == EndOfText
    requires '\n' !in line
    ensures ScanText(before + line + "\n" + after, read) ==
      After(ScanText(before, read).deltas, Continue(read(line), ScanText(after, read)))
  {
    var l := line + "\n" + after;
    ScanLineFirst(line, after, read);
    AppendAssoc(before, line, after);
    ScanAppend(before, l, read);
  }

  lemma AppendAssoc(before: string, line: string, after: string)
    ensures before + line + "\n" + after == before + (line + "\n" + after)
  {
  }

  /** A `[DONE]` line ends delivery: nothing after it is read.  Any line
      whose trimmed payload is `[DONE]` counts, with or without a `\r`. */
  lemma SentinelEndsDelivery(before: string, line: string, after: string, parse: DeltaParser)
    requires LineComplete(before) && ScanText(before, ReaderOf(parse)).stop == EndOfText
    requires '\n' !in line && StartsWith(StripCR(line), DataPrefix) && Payload(StripCR(line)) == DoneSentinel
    ensures ScanText(before + line + "\n" + after, ReaderOf(parse)) ==
      Scan(ScanText(before, ReaderOf(parse)).deltas, AtSentinel)
  {
    var read := ReaderOf(parse);
    ReadFinish(line, parse);
    ScanAround(before, line, after, read);
    var d := ScanText(before, read).deltas;
    assert After(d, Continue(Finish, ScanText(after, read))) == Scan(d, AtSentinel);
  }

  /** The plain line `data: [DONE]` is such a line. */
  lemma SentinelLine()
    ensures var line := "data: [DONE]";
      '\n' !in line && StartsWith(StripCR(line), DataPrefix) && Payload(StripCR(line)) == DoneSentinel
  {
    var line := DataPrefix + DoneSentinel;
    assert line == "data: [DONE]";
    assert StripCR(line) == line;
    assert StartsWith(line, DataPrefix);
    assert line[|DataPrefix|..] == DoneSentinel;
    TrimOfTrimmed(DoneSentinel);
  }

  /** A line whose payload fails to parse ends delivery too: neither it nor
      any later line ever yields a delta. */
  lemma MalformedEndsDelivery(before: string, line: string, after: string, read: LineReader)
    requires LineComplete(before) && ScanText(before, read).stop == EndOfText
    requires '\n' !in line && read(line) == Malformed
    ensures ScanText(before + line + "\n" + after, read) ==
      Scan(ScanText(before, read).deltas, AtMalformed)
  {
    ScanAround(before, line, after, read);
    var d := ScanText(before, read).deltas;
    assert d + [] == d;
  }

  /** A line that does not start with `data: ` (after its `\r` is removed)
      yields nothing and does not stop the reading. */
  lemma NonDataLineIgnored(before: string, line: string, after: string, parse: DeltaParser)
    requires LineComplete(before) && ScanText(before, ReaderOf(parse)).stop == EndOfText
    requires '\n' !in line && !StartsWith(StripCR(line), DataPrefix)
    ensures ScanText(before + line + "\n" + after, ReaderOf(parse)) ==
      After(ScanText(before, ReaderOf(parse)).deltas, ScanText(after, ReaderOf(parse)))
  {
    assert Interpret(line, parse) == Skip;
    ScanAround(before, line, after, ReaderOf(parse));
  }

  /** Text after the last newline is never delivered. */
  lemma TrailingTextNotDelivered(t: string, tail: string, read: LineReader)
    requires LineComplete(t) && '\n' !in tail
    ensures ScanText(t + tail, read).deltas == ScanText(t, read).deltas
  {
    ScanAppend(t, tail, read);
  }

  // ---------------------------------------------------------------------
  // streamChat

  /** One `onDelta` callback per delivered delta, in order. */
  function DeltaEvents(deltas: seq<string>): (r: seq<Event>)
    ensures |r| == |deltas|
    ensures forall k :: 0 <= k < |r| ==> r[k] == Delta(deltas[k])
  {
    seq(|deltas|, k requires 0 <= k < |deltas| => Delta(deltas[k]))
  }

  /** What `streamChat` does with `resp`: the error it throws, or the
      callbacks it makes. */
  function StreamChatSpec(resp: Response, parseDelta: DeltaParser, parseError: ErrorParser): (r: StreamOutcome)
    ensures !resp.ok ==> r == Failed(ErrorMessage(parseError(BodyText(resp))))
    ensures resp.ok && resp.body.None? ==> r == Failed(NoResponseBody)
    ensures resp.ok && resp.body.Some? ==> r.Completed?
    ensures r.Completed? ==>
      |r.events| >= 1 && r.events[|r.events| - 1] == Done &&
      forall k :: 0 <= k < |r.events| - 1 ==> r.events[k].Delta? && r.events[k].text != ""
  {
    if !resp.ok then Failed(ErrorMessage(parseError(BodyText(resp))))
    else if resp.body.None? then Failed(NoResponseBody)
    else
      var text := Concat(resp.body.value);
      DeltasNonEmpty(text, parseDelta);
      Completed(DeltaEvents(ScanText(text, ReaderOf(parseDelta)).deltas) + [Done])
  }

  /** The outcome for an OK response with a body, from the reading of its
      text. */
  lemma StreamChatSpecCompleted(resp: Response, parseDelta: DeltaParser, parseError: ErrorParser)
    requires resp.ok && resp.body.Some?
    ensures StreamChatSpec(resp, parseDelta, parseError) ==
      Completed(DeltaEvents(ScanText(Concat(resp.body.value), ReaderOf(parseDelta)).deltas) + [Done])
  {
  }

  /** A buffer whose first line fails to parse. */
  ghost predicate Blocked(buffer: string, read: LineReader) {
    '\n' in buffer && read(buffer[..IndexOf(buffer, '\n')]) == Malformed
  }

  lemma BlockedScan(buffer: string, x: string, read: LineReader)
    requires Blocked(buffer, read)
    ensures ScanText(buffer + x, read) == Scan([], AtMalformed)
  {
    FirstLine(buffer, x);
  }

  /** Reading starts with an empty buffer and all the chunks to come. */
  lemma ReadingStarts(chunks: seq<string>, read: LineReader)
    ensures ScanText(Concat(chunks), read) == After([], ScanText("" + Concat(chunks[0..]), read))
  {
    assert chunks[0..] == chunks;
    assert "" + Concat(chunks) == Concat(chunks);
    var d := ScanText(Concat(chunks), read).deltas;
    assert [] + d == d;
  }

  /** Appending the next chunk to the buffer leaves the text still to be
      read unchanged. */
  lemma NextChunk(buffer: string, chunks: seq<string>, i: nat, read: LineReader)
    requires i < |chunks|
    ensures ScanText(buffer + Concat(chunks[i..]), read) ==
      ScanText((buffer + chunks[i]) + Concat(chunks[i + 1..]), read)
  {
    ConcatFrom(chunks, i);
    assert buffer + Concat(chunks[i..]) == (buffer + chunks[i]) + Concat(chunks[i + 1..]);
  }

  /** Taking the first line off the buffer. */
  lemma NextLine(buffer: string, rest: string, read: LineReader)
    requires '\n' in buffer
    ensures var idx := IndexOf(buffer, '\n');
      ScanText(buffer + rest, read) == Continue(read(buffer[..idx]), ScanText(buffer[idx + 1..] + rest, read))
  {
    FirstLine(buffer, rest);
  }

  lemma ReadSkip(raw: string, parse: DeltaParser)
    requires !StartsWith(StripCR(raw), DataPrefix)
    ensures ReaderOf(parse)(raw) == Skip
  {
  }

  lemma ReadFinish(raw: string, parse: DeltaParser)
    requires StartsWith(StripCR(raw), DataPrefix) && Payload(StripCR(raw)) == DoneSentinel
    ensures ReaderOf(parse)(raw) == Finish
  {
  }

  lemma ReadMalformed(raw: string, parse: DeltaParser)
    requires StartsWith(StripCR(raw), DataPrefix) && Payload(StripCR(raw)) != DoneSentinel
    requires parse(Payload(StripCR(raw))).None?
    ensures ReaderOf(parse)(raw) == Malformed
  {
  }

  lemma ReadContent(raw: string, parse: DeltaParser)
    requires StartsWith(StripCR(raw), DataPrefix) && Payload(StripCR(raw)) != DoneSentinel
    requires parse(Payload(StripCR(raw))).Some?
    ensures var content := parse(Payload(StripCR(raw))).value;
      ReaderOf(parse)(raw) == if content.Some? && content.value != "" then Emit(content.value) else Skip
  {
  }

  /** The line put back after a failed parse blocks the buffer. */
  lemma PutBack(raw: string, tail: string, rest: string, parse: DeltaParser)
    requires '\n' !in raw && ReaderOf(parse)(raw) == Malformed
    ensures var b := StripCR(raw) + "\n" + tail;
      Blocked(b, ReaderOf(parse)) && ScanText(b + rest, ReaderOf(parse)) == Scan([], AtMalformed)
  {
    var line := StripCR(raw);
    var b := line + "\n" + tail;
    InterpretStripped(raw, parse);
    IndexOfAfterLine(line, tail, '\n');
    assert b[..|line|] == line;
    BlockedScan(b, rest, ReaderOf(parse));
  }

  /** Once all chunks are read, what is left in the buffer yields nothing
      more. */
  lemma ReadingEnds(buffer: string, read: LineReader)
    requires '\n' !in buffer || Blocked(buffer, read)
    ensures ScanText(buffer, read).deltas == []
  {
    if '\n' in buffer {
      BlockedScan(buffer, "", read);
      assert buffer + "" == buffer;
    }
  }

  /** The inner loop of `streamChat`: takes complete lines off the front of
      `buffer` until none is left, a `[DONE]` line is read (`finished`), or
      a payload fails to parse (the line is put back).  `emitted` are the
      `onDelta` texts, in order; `rest` is the text still to arrive. */
  method DrainLines(buffer: string, parseDelta: DeltaParser, ghost rest: string)
    returns (remaining: string, emitted: seq<string>, finished: bool)
    ensures ScanText(buffer + rest, ReaderOf(parseDelta)) ==
      After(emitted, if finished then Scan([], AtSentinel) else ScanText(remaining + rest, ReaderOf(parseDelta)))
    ensures !finished ==> '\n' !in remaining || Blocked(remaining, ReaderOf(parseDelta))
  {
    ghost var read := ReaderOf(parseDelta);
    remaining, emitted, finished := buffer, [], false;
    assert [] + ScanText(buffer + rest, read).deltas == ScanText(buffer + rest, read).deltas;
    while IndexOf(remaining, '\n') != -1
      invariant ScanText(buffer + rest, read) == After(emitted, ScanText(remaining + rest, read))
      decreases |remaining|
    {
      var idx := IndexOf(remaining, '\n');
      var line := remaining[..idx];
      ghost var raw := line;
      NextLine(remaining, rest, read);
      ghost var next := ScanText(remaining[idx + 1..] + rest, read);
      remaining := remaining[idx + 1..];
      if |line| > 0 && line[|line| - 1] == '\r' {
        line := line[..|line| - 1];
      }
      assert line == StripCR(raw);
      if !StartsWith(line, DataPrefix) {
        ReadSkip(raw, parseDelta);
        continue;
      }
      var json := Trim(line[|DataPrefix|..]);
      if json == DoneSentinel {
        ReadFinish(raw, parseDelta);
        finished := true;
        return;
      }
      var parsed := parseDelta(json);
      if parsed.None? {
        // the parse threw: put the line back and wait for more text
        ReadMalformed(raw, parseDelta);
        PutBack(raw, remaining, rest, parseDelta);
        remaining := line + "\n" + remaining;
        return;
      }
      ReadContent(raw, parseDelta);
      var content := parsed.value;
      if content.Some? && content.value != "" {
        AfterEmit(emitted, content.value, next);
        emitted := emitted + [content.value];
      }
    }
  }

  /** `streamChat`: the outer loop appends each chunk to the buffer and
      drains its complete lines; `onDone` is called once, at `[DONE]` or
      when the body ends. */
  method StreamChat(resp: Response, parseDelta: DeltaParser, parseError: ErrorParser)
    returns (outcome: StreamOutcome)
    ensures outcome == StreamChatSpec(resp, parseDelta, parseError)
  {
    if !resp.ok {
      outcome := Failed(ErrorMessage(parseError(BodyText(resp))));
      return;
    }
    if resp.body.None? {
      outcome := Failed(NoResponseBody);
      return;
    }
    var chunks := resp.body.value;
    ghost var read := ReaderOf(parseDelta);
    ghost var whole := ScanText(Concat(chunks), read);
    StreamChatSpecCompleted(resp, parseDelta, parseError);
    var buffer := "";
    var delivered: seq<string> := [];
    var i := 0;
    ReadingStarts(chunks, read);
    while i < |chunks|
      invariant 0 <= i <= |chunks|
      invariant whole == After(delivered, ScanText(buffer + Concat(chunks[i..]), read))
      invariant '\n' !in buffer || Blocked(buffer, read)
    {
      NextChunk(buffer, chunks, i, read);
      buffer := buffer + chunks[i];
      i := i + 1;
      var emitted, finished;
      ghost var before := delivered;
      buffer, emitted, finished := DrainLines(buffer, parseDelta, Concat(chunks[i..]));
      delivered := delivered + emitted;
      if finished {
        AfterAfter(before, emitted, Scan([], AtSentinel));
        assert whole.deltas == delivered + [];
        assert delivered + [] == delivered;
        outcome := Completed(DeltaEvents(delivered) + [Done]);
        return;
      }
      AfterAfter(before, emitted, ScanText(buffer + Concat(chunks[i..]), read));
    }
    assert buffer + Concat(chunks[i..]) == buffer;
    ReadingEnds(buffer, read);
    assert delivered + [] == delivered;
    outcome := Completed(DeltaEvents(delivered) + [Done]);
  }

  /** How the body is cut into chunks does not matter: two bodies with the
      same text give the same callbacks. */
  lemma ChunkingIrrelevant(c1: seq<string>, c2: seq<string>, parseDelta: DeltaParser, parseError: ErrorParser)
    requires Concat(c1) == Concat(c2)
    ensures StreamChatSpec(Response(true, Some(c1)), parseDelta, parseError) ==
      StreamChatSpec(Response(true, Some(c2)), parseDelta, parseError)
  {
    StreamChatSpecCompleted(Response(true, Some(c1)), parseDelta, parseError);
    StreamChatSpecCompleted(Response(true, Some(c2)), parseDelta, parseError);
  }

  lemma AfterAfter(a: seq<string>, b: seq<string>, s: Scan)
    ensures After(a, After(b, s)) == After(a + b, s)
  {
    assert a + (b + s.deltas) == (a + b) + s.deltas;
  }

  lemma AfterEmit(out: seq<string>, d: string, s: Scan)
    ensures After(out, Continue(Emit(d), s)) == After(out + [d], s)
  {
    assert out + ([d] + s.deltas) == (out + [d]) + s.deltas;
  }

  /** `data: <json>` with a parsable payload is read as its content. */
  lemma DataLineRead(json: string, content: string, parse: DeltaParser)
    requires '\n' !in json && Trim(json) == json && json != DoneSentinel
    requires parse(json) == Some(Some(content)) && content != ""
    ensures '\n' !in DataPrefix + json && ReaderOf(parse)(DataPrefix + json) == Emit(content)
  {
    var raw := DataPrefix + json;
    assert StartsWith(raw, DataPrefix);
    assert raw[|DataPrefix|..] == json;
    if |json| > 0 {
      assert raw[|raw| - 1] == json[|json| - 1];
    }
    assert StripCR(raw) == raw;
  }

  /** A single complete line that emits `content`. */
  lemma OneLineScan(raw: string, content: string, read: LineReader)
    requires '\n' !in raw && read(raw) == Emit(content)
    ensures ScanText(raw + "\n", read) == Scan([content], EndOfText)
  {
    ScanLineFirst(raw, "", read);
    assert raw + "\n" == raw + "\n" + "";
    assert ScanText("", read) == Scan([], EndOfText);
    assert [content] + [] == [content];
  }

  /** The text of two chunks that split `t` at `k` is `t`. */
  lemma TwoChunks(t: string, k: nat)
    requires k <= |t|
    ensures Concat([t[..k], t[k..]]) == t
  {
    var parts := [t[..k], t[k..]];
    assert parts[1..] == [t[k..]] && parts[1..][1..] == [];
    assert Concat(parts[1..]) == t[k..] + Concat([]);
    assert t[..k] + t[k..] == t;
  }

  /** One complete line that yields a delta, delivered in two reads split anywhere, still yields exactly one
      delta followed by `onDone`. */
  lemma SplitLineDeliveredOnce(raw: string, content: string, k: nat, parseDelta: DeltaParser, parseError: ErrorParser)
    requires '\n' !in raw && ReaderOf(parseDelta)(raw) == Emit(content)
    requires k <= |raw| + 1
    ensures var line := raw + "\n";
      StreamChatSpec(Response(true, Some([line[..k], line[k..]])), parseDelta, parseError) ==
      Completed([Delta(content), Done])
  {
    var line := raw + "\n";
    TwoChunks(line, k);
    OneLineScan(raw, content, ReaderOf(parseDelta));
    var resp := Response(true, Some([line[..k], line[k..]]));
    StreamChatSpecCompleted(resp, parseDelta, parseError);
    assert DeltaEvents([content]) + [Done] == [Delta(content), Done];
  }

  /** The line `data: <json>` with a parsable payload, delivered in two
      reads split anywhere, yields its content once and then `onDone`. */
  lemma SplitDataLineDeliveredOnce(json: string, content: string, k: nat,
                                   parseDelta: DeltaParser, parseError: ErrorParser)
    requires '\n' !in json && Trim(json) == json && json != DoneSentinel
    requires parseDelta(json) == Some(Some(content)) && content != ""
    requires k <= |DataPrefix + json| + 1
    ensures var line := DataPrefix + json + "\n";
      StreamChatSpec(Response(true, Some([line[..k], line[k..]])), parseDelta, parseError) ==
      Completed([Delta(content), Done])
  {
    DataLineRead(json, content, parseDelta);
    SplitLineDeliveredOnce(DataPrefix + json, content, k, parseDelta, parseError);
  }

  // ---------------------------------------------------------------------
  // invokeFunction

  /** `invokeFunction`: the decoded body of an OK response, or the error
      message extracted from a failed one.  `decode` stands for
      `resp.json()` together with the caller's expected shape. */
  function InvokeFunction<T>(resp: Response, decode: string -> Result<T>, parseError: ErrorParser): (r: Result<T>)
    ensures !resp.ok ==>
              r.Err? && (r.message == RequestFailed || parseError(BodyText(resp)) == Some(Some(r.message)))
    ensures !resp.ok ==> r == Err(ErrorMessage(parseError(BodyText(resp))))
    ensures resp.ok ==> r == decode(BodyText(resp))
  {
    if !resp.ok then Err(ErrorMessage(parseError(BodyText(resp))))
    else decode(BodyText(resp))
  }

  /** For the same failed response both clients report the same message. */
  lemma SameErrorMessage<T>(resp: Response, decode: string -> Result<T>, parseError: ErrorParser, parseDelta: DeltaParser)
    requires !resp.ok
    ensures StreamChatSpec(resp, parseDelta, parseError) ==
      Failed(InvokeFunction(resp, decode, parseError).message)
  {
  }
}
