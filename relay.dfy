/**
 * The streaming half of the edge handler in src/app/api/chat.ts: read the
 * upstream's decoded text chunk by chunk, carry the unterminated tail of each
 * read in `buf`, translate every complete `data:` line into a downstream event,
 * and finish with exactly one terminal event before closing the writer.
 *
 * The decoder is the identity on text (chunks arrive decoded), `JSON.parse`
 * with the `choices[0].delta.content` lookup is the parameter `parse`, and the
 * writer is an event log with a closed flag.
 */
module Relay {
  import opened Options
  import opened Strings
  import opened Sse

  /** A downstream event; the relay writes each one as `data: <json>\n\n`. */
  datatype Event = Delta(text: string) | Done | Error(message: string)

  predicate IsTerminal(e: Event) {
    !e.Delta?
  }

  /** How the upstream body ends once its chunks are read: `read()` reports done, or it throws. */
  datatype End = Eof | Fails(message: string)

  /** The upstream body: the decoded chunks that `read()` returns, in order, then how it ends. */
  datatype Upstream = Upstream(chunks: seq<string>, end: End)

  /** What one complete line asks the relay to do. */
  datatype LineOutcome = Skip | Stop | Emit(text: string)

  /** The treatment of one complete line: `[DONE]` stops, a non-empty content string is emitted, all else is dropped. */
  function LineAction(line: string, parse: string -> Payload): (o: LineOutcome)
  {
    match DataPayload(line)
    case None => Skip
    case Some(p) =>
      if p == DoneMarker then Stop
      else match parse(p)
        case Parsed(Some(c)) => if c != "" then Emit(c) else Skip
        case _ => Skip
  }

  /** How the relay treats each complete line, as a value that the batch and stream definitions below take. */
  type LineRule = string -> LineOutcome

  function RelayRule(parse: string -> Payload): (rule: LineRule) {
    line => LineAction(line, parse)
  }

  /** The terminal event for an upstream that ends without `[DONE]`: `done`, or the error's message or 'stream error'. */
  function Terminal(end: End): (e: Event)
    ensures IsTerminal(e)
    ensures e.Error? ==> e.message != ""
    ensures e == Done <==> end == Eof
  {
    match end
    case Eof => Done
    case Fails(m) => Error(if m == "" then "stream error" else m)
  }

  /** The events a batch of complete lines produces, and whether it met `[DONE]`. */
  datatype Translation = Translation(events: seq<Event>, stopped: bool)

  ghost predicate HasStop(lines: seq<string>, rule: LineRule) {
    exists k :: 0 <= k < |lines| && rule(lines[k]) == Stop
  }

  /** Deltas only, closed by `done` exactly when the batch was stopped. */
  ghost predicate WellFormed(t: Translation) {
    if t.stopped then
      t.events != [] && t.events[|t.events| - 1] == Done
      && forall k :: 0 <= k < |t.events| - 1 ==> t.events[k].Delta?
    else
      forall k :: 0 <= k < |t.events| ==> t.events[k].Delta?
  }

  /** A rule that never asks for an empty delta. */
  ghost predicate EmitsContent(rule: LineRule) {
    forall line :: rule(line).Emit? ==> rule(line).text != ""
  }

  /** The loop over the complete lines of one read: it stops at the first `[DONE]` line. */
  function Translate(lines: seq<string>, rule: LineRule): (t: Translation)
  {
    if lines == [] then Translation([], false)
    else
      match rule(lines[0])
      case Stop => Translation([Done], true)
      case Emit(text) =>
        var rest := Translate(lines[1..], rule);
        Translation([Delta(text)] + rest.events, rest.stopped)
      case Skip => Translate(lines[1..], rule)
  }

  /**
   * A batch stops exactly when one of its lines is `[DONE]`; it writes deltas
   * only, closed by `done` when it stops, and never more events than lines.
   */
  lemma {:induction false} TranslateWellFormed(lines: seq<string>, rule: LineRule)
    ensures Translate(lines, rule).stopped <==> HasStop(lines, rule)
    ensures WellFormed(Translate(lines, rule))
    ensures EmitsContent(rule) ==> forall k :: 0 <= k < |Translate(lines, rule).events| && Translate(lines, rule).events[k].Delta? ==> Translate(lines, rule).events[k].text != ""
    ensures |Translate(lines, rule).events| <= |lines|
  {
    if lines != [] {
      TranslateWellFormed(lines[1..], rule);
      assert HasStop(lines, rule) <==> rule(lines[0]) == Stop || HasStop(lines[1..], rule) by {
        if HasStop(lines, rule) && rule(lines[0]) != Stop {
          var k :| 0 <= k < |lines| && rule(lines[k]) == Stop;
          assert lines[1..][k - 1] == lines[k];
        }
        if HasStop(lines[1..], rule) {
          var k :| 0 <= k < |lines[1..]| && rule(lines[1..][k]) == Stop;
          assert lines[k + 1] == lines[1..][k];
        }
      }
    }
  }

  /** Translating two batches in a row: the second only counts if the first did not stop. */
  lemma {:induction false} TranslateAppend(a: seq<string>, b: seq<string>, rule: LineRule)
    ensures Translate(a + b, rule) ==
      var ta := Translate(a, rule);
      if ta.stopped then ta
      else Translation(ta.events + Translate(b, rule).events, Translate(b, rule).stopped)
    decreases |a|
  {
    if a == [] {
      assert a + b == b;
    } else {
      assert (a + b)[0] == a[0];
      assert (a + b)[1..] == a[1..] + b;
      TranslateAppend(a[1..], b, rule);
    }
  }

  /** The result of one read of the relay loop. */
  datatype StepResult = StepResult(lines: seq<string>, buf: string, events: seq<Event>, stopped: bool)

  /**
   * One pass of the read loop: `buf += chunk`, split off the complete lines,
   * keep the last piece as the new `buf`, translate the complete lines.
   */
  function Step(buf: string, chunk: string, rule: LineRule): (r: StepResult)
  {
    var all := buf + chunk;
    var t := Translate(CompleteLines(all), rule);
    StepResult(CompleteLines(all), Fragment(all), t.events, t.stopped)
  }

  /**
   * The buffer invariant of one read: the old buffer and the chunk are exactly
   * the extracted lines, each with its `'\n'` restored, then the new buffer;
   * neither the lines nor the new buffer hold a `'\n'`.
   */
  lemma StepKeepsText(buf: string, chunk: string, rule: LineRule)
    ensures buf + chunk == JoinLines(Step(buf, chunk, rule).lines) + Step(buf, chunk, rule).buf
    ensures '\n' !in Step(buf, chunk, rule).buf
    ensures forall k :: 0 <= k < |Step(buf, chunk, rule).lines| ==> '\n' !in Step(buf, chunk, rule).lines[k]
  {
    SplitJoin(buf + chunk);
  }

  /** The events the relay writes when the remaining reads return `chunks` and `buf` is carried. */
  function Run(buf: string, chunks: seq<string>, end: End, rule: LineRule): (ev: seq<Event>)
    decreases |chunks|
  {
    if chunks == [] then [Terminal(end)]
    else
      var r := Step(buf, chunks[0], rule);
      if r.stopped then r.events else r.events + Run(r.buf, chunks[1..], end, rule)
  }

  /** The text the upstream sends: its chunks end to end. */
  function Concat(chunks: seq<string>): (text: string)
  {
    if chunks == [] then "" else chunks[0] + Concat(chunks[1..])
  }

  /**
   * The reference meaning of a relayed stream, defined on the whole text rather
   * than on its reads: the complete lines of the text, translated, then the
   * terminal event of the end unless `[DONE]` came first.
   */
  function Relayed(text: string, end: End, rule: LineRule): (ev: seq<Event>)
  {
    var t := Translate(CompleteLines(text), rule);
    if t.stopped then t.events else t.events + [Terminal(end)]
  }

  // ---------------------------------------------------------------------------
  // The writer and the relay loop

  /** The writable side of the response stream: what was written, and whether it was closed. */
  class Writer {
    var events: seq<Event>
    var closed: bool

    constructor ()
      ensures events == [] && !closed
    {
      events, closed := [], false;
    }

    /** `writer.write(...)`: writing to a closed stream is refused, so callers must not. */
    method Write(e: Event)
      requires !closed
      modifies this
      ensures events == old(events) + [e] && !closed
    {
      events := events + [e];
    }

    /** `writer.close()`: closing twice is refused, so callers must not. */
    method Close()
      requires !closed
      modifies this
      ensures closed && events == old(events)
    {
      closed := true;
    }
  }

  /** The events one line outcome writes. */
  function Written(a: LineOutcome): (ev: seq<Event>) {
    match a
    case Skip => []
    case Stop => [Done]
    case Emit(text) => [Delta(text)]
  }

  /**
   * The body of the line loop: trim, keep only `data:` lines, on `[DONE]` write
   * `done` and close, otherwise write the content when it parses and is non-empty.
   */
  method HandleLine(line: string, parse: string -> Payload, w: Writer) returns (stop: bool)
    requires !w.closed
    modifies w
    ensures stop <==> RelayRule(parse)(line) == Stop
    ensures w.closed == stop
    ensures w.events == old(w.events) + Written(RelayRule(parse)(line))
  {
    stop := false;
    var payload := DataPayload(line);
    if payload.None? {
      return;
    }
    if payload.value == DoneMarker {
      w.Write(Done);
      w.Close();
      stop := true;
      return;
    }
    match parse(payload.value)
    case Parsed(Some(delta)) =>
      if delta != "" {
        w.Write(Delta(delta));
      }
    case _ =>
  }

  /** Handling the first of the remaining lines: what it writes, then what the others write. */
  lemma LineStep(before: seq<Event>, after: seq<Event>, rest: seq<string>, rule: LineRule)
    requires rest != [] && after == before + Written(rule(rest[0]))
    ensures rule(rest[0]) == Stop ==> after == before + Translate(rest, rule).events && Translate(rest, rule).stopped
    ensures rule(rest[0]) != Stop ==>
      after + Translate(rest[1..], rule).events == before + Translate(rest, rule).events
      && Translate(rest[1..], rule).stopped == Translate(rest, rule).stopped
  {
    var t := Translate(rest[1..], rule);
    match rule(rest[0])
    case Stop =>
    case Skip =>
      assert after == before;
    case Emit(text) =>
      assert Translate(rest, rule) == Translation([Delta(text)] + t.events, t.stopped);
      assert after + t.events == before + ([Delta(text)] + t.events);
  }

  /** The loop over the complete lines of one read, up to and including a `[DONE]` line. */
  method HandleLines(lines: seq<string>, parse: string -> Payload, w: Writer) returns (stop: bool)
    requires !w.closed
    modifies w
    ensures stop == Translate(lines, RelayRule(parse)).stopped
    ensures w.closed == stop
    ensures w.events == old(w.events) + Translate(lines, RelayRule(parse)).events
  {
    ghost var rule := RelayRule(parse);
    ghost var whole := Translate(lines, rule);
    ghost var start := w.events;
    var rest := lines;
    while rest != []
      invariant !w.closed
      invariant w.events + Translate(rest, rule).events == start + whole.events
      invariant Translate(rest, rule).stopped == whole.stopped
      decreases |rest|
    {
      ghost var before := w.events;
      stop := HandleLine(rest[0], parse, w);
      LineStep(before, w.events, rest, rule);
      if stop {
        return;
      }
      rest := rest[1..];
    }
    stop := false;
  }

  /** One read: append the chunk to the buffer, handle its complete lines, keep the fragment. */
  method ReadOnce(buf: string, chunk: string, parse: string -> Payload, w: Writer) returns (rest: string, stop: bool)
    requires !w.closed
    modifies w
    ensures rest == Step(buf, chunk, RelayRule(parse)).buf
    ensures stop == Step(buf, chunk, RelayRule(parse)).stopped
    ensures w.closed == stop
    ensures w.events == old(w.events) + Step(buf, chunk, RelayRule(parse)).events
  {
    var lines := Split(buf + chunk);
    rest := lines[|lines| - 1];
    stop := HandleLines(lines[..|lines| - 1], parse, w);
  }

  /** What is written so far plus what the remaining reads write, one read further on. */
  lemma RunAdvance(before: seq<Event>, buf: string, chunks: seq<string>, end: End, rule: LineRule)
    requires chunks != []
    ensures var r := Step(buf, chunks[0], rule);
      before + Run(buf, chunks, end, rule)
      == if r.stopped then before + r.events else (before + r.events) + Run(r.buf, chunks[1..], end, rule)
  {
  }

  /**
   * The detached read loop: every read is appended to `buf`, the complete lines
   * are handled in order, `[DONE]` ends the loop with the writer closed, and when
   * the reads run out one terminal event is written and the writer is closed.
   */
  method Pump(up: Upstream, parse: string -> Payload, w: Writer)
    requires !w.closed && w.events == []
    modifies w
    ensures w.closed
    ensures w.events == Run("", up.chunks, up.end, RelayRule(parse))
  {
    ghost var rule := RelayRule(parse);
    var buf := "";
    var rest := up.chunks;
    while rest != []
      invariant !w.closed
      invariant w.events + Run(buf, rest, up.end, rule) == Run("", up.chunks, up.end, rule)
      decreases |rest|
    {
      RunAdvance(w.events, buf, rest, up.end, rule);
      var stop;
      buf, stop := ReadOnce(buf, rest[0], parse, w);
      if stop {
        return;
      }
      rest := rest[1..];
    }
    w.Write(Terminal(up.end));
    w.Close();
  }

  // ---------------------------------------------------------------------------
  // What the relay loop means

  /** The reference meaning, one read further on: the read's events, then the rest of the text after the new buffer. */
  lemma RelayedStep(buf: string, chunk: string, tail: string, end: End, rule: LineRule)
    ensures var r := Step(buf, chunk, rule);
      Relayed((buf + chunk) + tail, end, rule)
      == if r.stopped then r.events else r.events + Relayed(r.buf + tail, end, rule)
  {
    var all := buf + chunk;
    var r := Step(buf, chunk, rule);
    var rest := Fragment(all) + tail;
    CompleteLinesAppend(all, tail);
    TranslateAppend(CompleteLines(all), CompleteLines(rest), rule);
    var whole := Translate(CompleteLines(all + tail), rule);
    assert whole == if r.stopped then Translation(r.events, true)
      else Translation(r.events + Translate(CompleteLines(rest), rule).events, Translate(CompleteLines(rest), rule).stopped);
    if !r.stopped && !whole.stopped {
      assert whole.events + [Terminal(end)] == r.events + (Translate(CompleteLines(rest), rule).events + [Terminal(end)]);
    }
  }

  /**
   * However the upstream text is cut into reads, the relay writes the events
   * of the whole text's complete lines, then the terminal event unless
   * `[DONE]` came first; the fragment after the last `'\n'` is never read.
   */
  lemma {:induction false} RunMatchesReference(buf: string, chunks: seq<string>, end: End, rule: LineRule)
    requires '\n' !in buf
    ensures Run(buf, chunks, end, rule) == Relayed(buf + Concat(chunks), end, rule)
    decreases |chunks|
  {
    if chunks == [] {
      NoCompleteLine(buf);
      assert buf + Concat(chunks) == buf;
    } else {
      var r := Step(buf, chunks[0], rule);
      var tail := Concat(chunks[1..]);
      assert buf + Concat(chunks) == (buf + chunks[0]) + tail;
      RelayedStep(buf, chunks[0], tail, end, rule);
      if !r.stopped {
        StepKeepsText(buf, chunks[0], rule);
        RunMatchesReference(r.buf, chunks[1..], end, rule);
      }
    }
  }

  /** Two ways of cutting the same text into reads give the same events. */
  lemma ChunkingInvariance(c1: seq<string>, c2: seq<string>, end: End, rule: LineRule)
    requires Concat(c1) == Concat(c2)
    ensures Run("", c1, end, rule) == Run("", c2, end, rule)
  {
    RunMatchesReference("", c1, end, rule);
    RunMatchesReference("", c2, end, rule);
  }

  /**
   * A relayed stream is deltas followed by exactly one terminal event: `done`
   * when a `[DONE]` line was read or the upstream ended normally, an error
   * otherwise; the relay's own rule never writes an empty delta.
   */
  lemma RelayedShape(text: string, end: End, rule: LineRule)
    ensures var ev := Relayed(text, end, rule);
      ev != [] && IsTerminal(ev[|ev| - 1]) && forall k :: 0 <= k < |ev| - 1 ==> ev[k].Delta?
    ensures var ev := Relayed(text, end, rule);
      ev[|ev| - 1] == Done <==> HasStop(CompleteLines(text), rule) || end == Eof
    ensures var ev := Relayed(text, end, rule);
      EmitsContent(rule) ==> forall k :: 0 <= k < |ev| && ev[k].Delta? ==> ev[k].text != ""
  {
    TranslateWellFormed(CompleteLines(text), rule);
  }

  /** The relay's rule only emits non-empty content. */
  lemma RelayRuleEmitsContent(parse: string -> Payload)
    ensures EmitsContent(RelayRule(parse))
  {
    forall line | RelayRule(parse)(line).Emit?
      ensures RelayRule(parse)(line).text != ""
    {
    }
  }

  /**
   * A text made of complete lines and a final fragment is relayed as the
   * translation of those lines: the fragment never reaches the client.
   */
  lemma TrailingFragmentIgnored(lines: seq<string>, fragment: string, end: End, rule: LineRule)
    requires forall k :: 0 <= k < |lines| ==> '\n' !in lines[k]
    requires '\n' !in fragment
    ensures Relayed(JoinLines(lines) + fragment, end, rule) ==
      var t := Translate(lines, rule);
      if t.stopped then t.events else t.events + [Terminal(end)]
  {
    SplitOfJoin(lines, fragment);
  }

  /** A line the rule skips leaves no trace: removing it changes nothing. */
  lemma SkippedLineIsInvisible(a: seq<string>, line: string, b: seq<string>, rule: LineRule)
    requires rule(line) == Skip
    ensures Translate(a + [line] + b, rule) == Translate(a + b, rule)
  {
    TranslateAppend(a, [line] + b, rule);
    TranslateAppend(a, b, rule);
    assert a + [line] + b == a + ([line] + b);
    assert ([line] + b)[1..] == b;
  }

  /** A content line writes its delta, right after what the lines before it wrote. */
  lemma DeltaLineEmits(a: seq<string>, line: string, text: string, b: seq<string>, rule: LineRule)
    requires rule(line) == Emit(text)
    requires !Translate(a, rule).stopped
    ensures Translate(a + [line] + b, rule).events
      == Translate(a, rule).events + [Delta(text)] + Translate(b, rule).events
  {
    TranslateAppend(a, [line] + b, rule);
    assert a + [line] + b == a + ([line] + b);
    assert ([line] + b)[1..] == b;
  }

  /** A batch stops at its first `[DONE]` line, with `done` after what the lines before it wrote. */
  lemma DoneStopsBatch(a: seq<string>, line: string, b: seq<string>, rule: LineRule)
    requires rule(line) == Stop
    requires !Translate(a, rule).stopped
    ensures Translate(a + [line] + b, rule) == Translation(Translate(a, rule).events + [Done], true)
  {
    TranslateAppend(a, [line] + b, rule);
    assert a + [line] + b == a + ([line] + b);
  }

  /** The batch form of the same fact, with the `[DONE]` line found at index `k`. */
  lemma StopAt(lines: seq<string>, k: nat, rule: LineRule)
    requires k < |lines| && rule(lines[k]) == Stop
    requires !Translate(lines[..k], rule).stopped
    ensures Translate(lines, rule) == Translation(Translate(lines[..k], rule).events + [Done], true)
  {
    DoneStopsBatch(lines[..k], lines[k], lines[k + 1..], rule);
    assert lines == lines[..k] + [lines[k]] + lines[k + 1..];
  }

  /**
   * After a `[DONE]` line nothing more is written: the lines that follow it and
   * the way the upstream ends are irrelevant, and the stream ends with `done`.
   */
  lemma DoneEndsStream(lines: seq<string>, fragment: string, end: End, rule: LineRule, k: nat)
    requires k < |lines| && rule(lines[k]) == Stop
    requires !Translate(lines[..k], rule).stopped
    requires forall j :: 0 <= j < |lines| ==> '\n' !in lines[j]
    requires '\n' !in fragment
    ensures Relayed(JoinLines(lines) + fragment, end, rule) == Translate(lines[..k], rule).events + [Done]
  {
    StopAt(lines, k, rule);
    TrailingFragmentIgnored(lines, fragment, end, rule);
  }

  // ---------------------------------------------------------------------------
  // The relay's rule on the wire forms of a line

  /** `data: [DONE]` stops the relay. */
  lemma DoneLineStops(parse: string -> Payload)
    ensures LineAction("data: [DONE]", parse) == Stop
  {
    assert "data: [DONE]" == "data: " + DoneMarker;
    SpacedDataFieldPayload(DoneMarker);
  }

  /** `data: <json>` whose content is a non-empty string emits exactly that content. */
  lemma ContentLineEmits(p: string, content: string, parse: string -> Payload)
    requires IsTrimmed(p) && p != DoneMarker
    requires parse(p) == Parsed(Some(content)) && content != ""
    ensures LineAction("data: " + p, parse) == Emit(content)
  {
    SpacedDataFieldPayload(p);
  }

  /** A payload without usable content (unparseable, no content field, empty content) is dropped. */
  lemma ContentlessLineSkipped(p: string, parse: string -> Payload)
    requires IsTrimmed(p) && p != DoneMarker
    requires parse(p) == Unparseable || parse(p) == Parsed(None) || parse(p) == Parsed(Some(""))
    ensures LineAction("data: " + p, parse) == Skip
  {
    SpacedDataFieldPayload(p);
  }

  /** Blank lines, comments (`: ping`) and other fields (`event:`, `id:`) are dropped. */
  lemma NonDataLineSkipped(line: string, parse: string -> Payload)
    requires !StartsWith(Trim(line), DataPrefix)
    ensures LineAction(line, parse) == Skip
  {
  }

  // ---------------------------------------------------------------------------
  // A complete exchange

  /** A typical upstream chunk payload carrying the content `Hi`, as two pieces a read may end between. */
  const HiHead: string := "{\"choic"
  const HiTail: string := "es\":[{\"delta\":{\"content\":\"Hi\"}}]}"
  const HiPayload: string := HiHead + HiTail

  /** A content line, a blank line, `[DONE]` and a blank line, joined: the text of one event, a keep-alive and the end marker. */
  lemma HiLines(content: string)
    ensures JoinLines([content, "", "data: [DONE]", ""]) + "" == content + "\n\ndata: [DONE]\n\n"
  {
    var lines := [content, "", "data: [DONE]", ""];
    assert JoinLines(lines[3..]) == "\n";
    assert JoinLines(lines[2..]) == "data: [DONE]\n\n";
    assert JoinLines(lines[1..]) == "\ndata: [DONE]\n\n";
  }

  /** The content line of the exchange below holds no line feed. */
  lemma HiLineFree()
    ensures '\n' !in "data: " + HiPayload
  {
    NoNewlineConcat(HiHead, HiTail);
    NoNewlineConcat("data: ", HiPayload);
  }

  /** A content line, a blank line, `[DONE]` and a blank line, under any rule that reads them as the relay does. */
  lemma HiBatch(content: string, rule: LineRule)
    requires rule(content) == Emit("Hi") && rule("") == Skip && rule("data: [DONE]") == Stop
    ensures Translate([content, "", "data: [DONE]", ""], rule) == Translation([Delta("Hi"), Done], true)
  {
    var lines := [content, "", "data: [DONE]", ""];
    assert lines[1..] == ["", "data: [DONE]", ""];
    assert lines[1..][1..] == ["data: [DONE]", ""];
    assert Translate(["data: [DONE]", ""], rule) == Translation([Done], true);
    assert Translate(lines[1..], rule) == Translation([Done], true);
  }

  /**
   * One content event, a keep-alive blank line and `[DONE]`: the client sees
   * the delta `Hi` and then `done`, however the upstream ends.
   */
  lemma HiThenDone(parse: string -> Payload, end: End)
    requires parse(HiPayload) == Parsed(Some("Hi"))
    ensures Relayed("data: " + HiPayload + "\n\ndata: [DONE]\n\n", end, RelayRule(parse)) == [Delta("Hi"), Done]
  {
    var lines := ["data: " + HiPayload, "", "data: [DONE]", ""];
    HiLines("data: " + HiPayload);
    HiLineFree();
    TrailingFragmentIgnored(lines, "", end, RelayRule(parse));
    ContentLineEmits(HiPayload, "Hi", parse);
    BlankLineHasNoPayload("");
    DoneLineStops(parse);
    HiBatch("data: " + HiPayload, RelayRule(parse));
  }

  /** The same exchange with the upstream's first read ending in the middle of the JSON. */
  lemma HiThenDoneSplitRead(parse: string -> Payload, end: End)
    requires parse(HiPayload) == Parsed(Some("Hi"))
    ensures Run("", ["data: " + HiHead, HiTail + "\n\ndata: [DONE]\n\n"], end, RelayRule(parse)) == [Delta("Hi"), Done]
  {
    var chunks := ["data: " + HiHead, HiTail + "\n\ndata: [DONE]\n\n"];
    assert Concat(chunks) == "data: " + HiPayload + "\n\ndata: [DONE]\n\n" by {
      assert Concat(chunks[1..][1..]) == "";
      assert Concat(chunks[1..]) == chunks[1];
    }
    RunMatchesReference("", chunks, end, RelayRule(parse));
    assert "" + Concat(chunks) == Concat(chunks);
    HiThenDone(parse, end);
  }
}
