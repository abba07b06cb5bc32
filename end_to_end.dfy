/**
 * The relay of src/app/api/chat.ts feeding the `ask` loop of
 * src/app/chat.service.ts: each relay event goes out as one frame
 * `data: <json>\n\n`, where `<json>` is `{"delta":...}`, `{"done":true}` or
 * `{"error":...}`, and the client reads the `delta` member of each frame.
 */
module EndToEnd {
  import opened Options
  import opened Strings
  import opened Sse
  import opened Relay
  import opened ChatStore

  /** One written event: `data: ${JSON.stringify(...)}\n\n`. */
  function Frame(e: Event, encode: Event -> string): (f: string) {
    "data: " + encode(e) + "\n\n"
  }

  /** The relay's output, one frame per write. */
  function Frames(events: seq<Event>, encode: Event -> string): (r: seq<string>)
    ensures |r| == |events|
    ensures forall k :: 0 <= k < |events| ==> r[k] == Frame(events[k], encode)
  {
    seq(|events|, k requires 0 <= k < |events| => Frame(events[k], encode))
  }

  /**
   * The JSON the relay writes is one line without surrounding whitespace, and
   * the client's parse of it finds the `delta` member of delta events only.
   */
  ghost predicate Agree(encode: Event -> string, parse: string -> Payload) {
    forall e: Event :: IsTrimmed(encode(e)) && '\n' !in encode(e) && encode(e) != DoneMarker
      && parse(encode(e)) == (if e.Delta? then Parsed(Some(e.text)) else Parsed(None))
  }

  /** The text an event shows the user: a delta's text, nothing for `done` or an error. */
  function Shown(e: Event): (text: string) {
    if e.Delta? then e.text else ""
  }

  /** The texts of the deltas, in order. */
  function Deltas(events: seq<Event>): (text: string)
  {
    if events == [] then "" else Deltas(events[..|events| - 1]) + Shown(events[|events| - 1])
  }

  /** A frame's three pieces after `split('\n')`: the data line and two empty ones. */
  lemma SplitOfFrame(line: string)
    requires '\n' !in line
    ensures Split(line + "\n\n") == [line, "", ""]
  {
    assert [line, ""][1..] == [""] && [""][1..] == [];
    assert JoinLines([""]) == "\n";
    assert JoinLines([line, ""]) + "" == line + "\n\n";
    SplitOfJoin([line, ""], "");
  }

  /** The text of three lines under any rule. */
  lemma LinesTextThree(a: string, b: string, c: string, rule: DeltaRule)
    ensures LinesText([a, b, c], rule) == rule(a) + rule(b) + rule(c)
  {
    assert [a, b, c][..2] == [a, b];
    assert [a, b][..1] == [a];
    LinesTextSingle(a, rule);
  }

  /** A frame read on its own shows exactly its event's text. */
  lemma FrameShown(e: Event, encode: Event -> string, parse: string -> Payload)
    requires Agree(encode, parse)
    ensures ChunkText(Frame(e, encode), ClientRule(parse)) == Shown(e)
  {
    var line := "data: " + encode(e);
    assert '\n' !in line by {
      assert '\n' !in encode(e);
      assert forall k :: 0 <= k < |line| ==> line[k] == if k < 6 then "data: "[k] else encode(e)[k - 6];
    }
    SplitOfFrame(line);
    LinesTextThree(line, "", "", ClientRule(parse));
    ClientRuleSilent(parse);
    SpacedDataFieldPayload(encode(e));
    assert ClientRule(parse)(line) == Shown(e);
  }

  /**
   * When each read of the client returns one frame of the relay, the client's
   * text is exactly the relayed deltas, end to end.
   */
  lemma {:induction false} ClientShowsDeltas(events: seq<Event>, encode: Event -> string, parse: string -> Payload)
    requires Agree(encode, parse)
    ensures ChunksText(Frames(events, encode), ClientRule(parse)) == Deltas(events)
    decreases |events|
  {
    if events != [] {
      var init := events[..|events| - 1];
      ClientShowsDeltas(init, encode, parse);
      assert Frames(events, encode)[..|events| - 1] == Frames(init, encode);
      FrameShown(events[|events| - 1], encode, parse);
    }
  }

  /** A terminal event adds nothing to the shown text. */
  lemma DeltasOfTerminal(events: seq<Event>, e: Event)
    requires IsTerminal(e)
    ensures Deltas(events + [e]) == Deltas(events)
  {
    assert (events + [e])[..|events|] == events;
  }

  /** A 200 response whose reads are the relay's frames, one frame per read, shows exactly the deltas. */
  lemma AskShowsDeltas(events: seq<Event>, encode: Event -> string, parse: string -> Payload, statusText: string)
    requires Agree(encode, parse)
    ensures AssistantText(Response(200, statusText, Some(Upstream(Frames(events, encode), Eof))), parse) == Deltas(events)
  {
    ClientShowsDeltas(events, encode, parse);
    assert Deltas(events) + "" == Deltas(events);
  }

  /** The relayed deltas do not depend on how the upstream ended. */
  lemma RelayedDeltasIgnoreEnd(text: string, e1: End, e2: End, rule: LineRule)
    ensures Deltas(Relayed(text, e1, rule)) == Deltas(Relayed(text, e2, rule))
  {
    var t := Translate(CompleteLines(text), rule);
    if !t.stopped {
      DeltasOfTerminal(t.events, Terminal(e1));
      DeltasOfTerminal(t.events, Terminal(e2));
    }
  }

  /**
   * An upstream failure the relay reports as an `{error}` event never reaches
   * the user: the client's text is the one a normal end would give, the
   * relayed deltas alone, with no `(error)` notice.
   */
  lemma RelayErrorInvisible(text: string, message: string, rule: LineRule,
                            encode: Event -> string, parse: string -> Payload, statusText: string)
    requires Agree(encode, parse)
    ensures AssistantText(Response(200, statusText, Some(Upstream(Frames(Relayed(text, Fails(message), rule), encode), Eof))), parse)
      == Deltas(Relayed(text, Eof, rule))
  {
    AskShowsDeltas(Relayed(text, Fails(message), rule), encode, parse, statusText);
    RelayedDeltasIgnoreEnd(text, Fails(message), Eof, rule);
  }
}
