/**
 * The browser-side chat store of src/app/chat.service.ts: the conversation
 * history, the loading flag, the list edits on the history, and `ask`, which
 * posts the history to the relay and appends the streamed deltas to a fresh
 * assistant message.
 */
module ChatStore {
  import opened Options
  import opened Http
  import opened Strings
  import opened Sse
  import opened Relay

  datatype Role = System | User | Assistant

  datatype ChatMsg = ChatMsg(role: Role, content: string)

  const SystemPrompt: string := "You are DVV Assistant. Be concise and helpful."

  /** The history a new service starts with, and the one `clear` restores. */
  function Initial(): (h: seq<ChatMsg>)
    ensures |h| == 1 && h[0].role == System && h[0].content == SystemPrompt
  {
    [ChatMsg(System, SystemPrompt)]
  }

  /**
   * What `await fetch('/api/chat', ...)` gives: a rejection with its message,
   * or a response with its status, status text and, when it has one, its body
   * as the decoded reads and how the reading ends.
   */
  datatype Reply = NetworkFailure(message: string) | Response(status: nat, statusText: string, body: Option<Upstream>)

  // ---------------------------------------------------------------------------
  // The list edits, as functions on the history

  /** `history.map(m => ({ role: m.role, content: m.content }))`: a copy, message by message. */
  function Copy(h: seq<ChatMsg>): (r: seq<ChatMsg>)
    ensures |r| == |h|
    ensures forall k :: 0 <= k < |h| ==> r[k].role == h[k].role && r[k].content == h[k].content
  {
    if h == [] then [] else [ChatMsg(h[0].role, h[0].content)] + Copy(h[1..])
  }

  /** The position `appendToAssistant` targets: `index` when it is not negative, otherwise the last one. */
  function Target(h: seq<ChatMsg>, index: int): (i: int) {
    if index >= 0 then index else |h| - 1
  }

  /**
   * `appendToAssistant(index, delta)` on a history: the target's content gets
   * `delta` at its end when the target exists and is an assistant message;
   * otherwise nothing changes.
   */
  function Appended(h: seq<ChatMsg>, index: int, delta: string): (r: seq<ChatMsg>)
    ensures |r| == |h|
    ensures forall k :: 0 <= k < |h| ==> r[k].role == h[k].role
    ensures forall k :: 0 <= k < |h| && k != Target(h, index) ==> r[k] == h[k]
    ensures 0 <= Target(h, index) < |h| && h[Target(h, index)].role == Assistant ==>
      r[Target(h, index)].content == h[Target(h, index)].content + delta
    ensures !(0 <= Target(h, index) < |h|) || h[Target(h, index)].role != Assistant ==> r == h
  {
    var i := Target(h, index);
    if 0 <= i < |h| && h[i].role == Assistant then h[i := ChatMsg(Assistant, h[i].content + delta)] else h
  }

  /** Index -1 names the last message: an assistant message at the end grows by `delta`. */
  lemma AppendedToLast(h: seq<ChatMsg>, text: string, delta: string)
    ensures Appended(h + [ChatMsg(Assistant, text)], -1, delta) == h + [ChatMsg(Assistant, text + delta)]
  {
    var g := h + [ChatMsg(Assistant, text)];
    assert Target(g, -1) == |h|;
    assert g[|h| := ChatMsg(Assistant, text + delta)] == h + [ChatMsg(Assistant, text + delta)];
  }

  /** Two appends to the same message are one append of both texts. */
  lemma AppendedTwice(h: seq<ChatMsg>, index: int, a: string, b: string)
    ensures Appended(Appended(h, index, a), index, b) == Appended(h, index, a + b)
  {
    var i := Target(h, index);
    if 0 <= i < |h| && h[i].role == Assistant {
      assert (h[i].content + a) + b == h[i].content + (a + b);
    }
  }

  // ---------------------------------------------------------------------------
  // What `ask` reads from the stream

  /**
   * The text one line contributes: nothing unless its trimmed form starts
   * with `data:`; `[DONE]` is skipped; otherwise the parsed `delta` member
   * when it is a non-empty string.
   */
  function LineDelta(line: string, parse: string -> Payload): (d: string)
  {
    match DataPayload(line)
    case None => ""
    case Some(p) =>
      if p == DoneMarker then ""
      else match parse(p)
        case Parsed(Some(d)) => d
        case _ => ""
  }

  /** How the client treats each line, as a value that the text definitions below take. */
  type DeltaRule = string -> string

  function ClientRule(parse: string -> Payload): (rule: DeltaRule) {
    line => LineDelta(line, parse)
  }

  /** The text a list of lines contributes, in order. */
  function LinesText(lines: seq<string>, rule: DeltaRule): (text: string)
  {
    if lines == [] then ""
    else LinesText(lines[..|lines| - 1], rule) + rule(lines[|lines| - 1])
  }

  /** The text one read contributes: every piece of `chunk.split('\n')`, the last one included. */
  function ChunkText(chunk: string, rule: DeltaRule): (text: string) {
    LinesText(Split(chunk), rule)
  }

  /** The text all reads contribute, each read split on its own. */
  function ChunksText(chunks: seq<string>, rule: DeltaRule): (text: string)
  {
    if chunks == [] then ""
    else ChunksText(chunks[..|chunks| - 1], rule) + ChunkText(chunks[|chunks| - 1], rule)
  }

  /** The message of the error thrown on a response that is not ok or has no body. */
  function StatusError(status: nat, statusText: string): (m: string) {
    "Network/SSE error: " + Decimal(status) + " " + statusText
  }

  /** A 404 from the relay reads `Network/SSE error: 404 Not Found`. */
  lemma StatusErrorOf404()
    ensures StatusError(404, "Not Found") == "Network/SSE error: 404 Not Found"
  {
    assert Decimal(4) == "4";
    assert Decimal(40) == "40";
    assert Decimal(404) == "404";
  }

  /** The content the assistant message pushed by `ask` ends up with. */
  function AssistantText(r: Reply, parse: string -> Payload): (text: string)
  {
    match r
    case NetworkFailure(m) => "\n(error) " + m
    case Response(status, statusText, body) =>
      if !Ok(status) || body.None? then "\n(error) " + StatusError(status, statusText)
      else
        var up := body.value;
        ChunksText(up.chunks, ClientRule(parse)) + if up.end.Fails? then "\n(error) " + up.end.message else ""
  }

  /** Text of consecutive lines is the text of each part, in order. */
  lemma {:induction false} LinesTextAppend(a: seq<string>, b: seq<string>, rule: DeltaRule)
    ensures LinesText(a + b, rule) == LinesText(a, rule) + LinesText(b, rule)
    decreases |b|
  {
    if b == [] {
      assert a + b == a;
    } else {
      var init := b[..|b| - 1];
      LinesTextAppend(a, init, rule);
      assert (a + b)[..|a + b| - 1] == a + init;
      assert (a + b)[|a + b| - 1] == b[|b| - 1];
    }
  }

  /** The text of a single line. */
  lemma LinesTextSingle(line: string, rule: DeltaRule)
    ensures LinesText([line], rule) == rule(line)
  {
    assert [line][..0] == [];
  }

  /** `data: [DONE]` and blank lines contribute nothing. */
  lemma ClientRuleSilent(parse: string -> Payload)
    ensures ClientRule(parse)("data: [DONE]") == ""
    ensures ClientRule(parse)("") == ""
  {
    assert "data: [DONE]" == "data: " + DoneMarker;
    SpacedDataFieldPayload(DoneMarker);
    BlankLineHasNoPayload("");
  }

  /** Unlike the relay, the client does not stop at `[DONE]`: the line contributes nothing and the lines after it still count. */
  lemma DoneLineSkipped(a: seq<string>, b: seq<string>, parse: string -> Payload)
    ensures LinesText(a + ["data: [DONE]"] + b, ClientRule(parse))
      == LinesText(a, ClientRule(parse)) + LinesText(b, ClientRule(parse))
  {
    var rule := ClientRule(parse);
    ClientRuleSilent(parse);
    LinesTextAppend(a + ["data: [DONE]"], b, rule);
    LinesTextAppend(a, ["data: [DONE]"], rule);
    LinesTextSingle("data: [DONE]", rule);
    assert LinesText(a, rule) + "" == LinesText(a, rule);
  }

  /** A `data:` line whose payload parses to a non-empty `delta` contributes exactly that text, untrimmed. */
  lemma DeltaLineContributes(p: string, delta: string, parse: string -> Payload)
    requires IsTrimmed(p) && p != DoneMarker
    requires parse(p) == Parsed(Some(delta))
    ensures ClientRule(parse)("data: " + p) == delta
  {
    SpacedDataFieldPayload(p);
  }

  /** A text that ends with a line feed leaves no fragment. */
  lemma {:induction false} EndsWithNewline(s: string)
    requires s != [] && s[|s| - 1] == '\n'
    ensures Fragment(s) == "" && Split(s) == CompleteLines(s) + [""]
  {
    var a := s[..|s| - 1];
    assert s == a + "\n";
    CompleteLinesAppend(a, "\n");
    SplitParts(a);
    assert '\n' !in Fragment(a);
    SplitLineFree(Fragment(a), "\n");
    assert "\n"[1..] == "";
    assert Split("\n") == ["", ""];
    assert Fragment(a) + "" == Fragment(a);
    assert Split(Fragment(a) + "\n") == [Fragment(a), ""];
    SplitParts(s);
  }

  /** The text of the reads end to end, with the last read appended. */
  lemma {:induction false} ConcatSnoc(chunks: seq<string>, last: string)
    ensures Concat(chunks + [last]) == Concat(chunks) + last
    decreases |chunks|
  {
    if chunks == [] {
      assert Concat([last][1..]) == "";
      assert last + "" == last;
    } else {
      assert (chunks + [last])[1..] == chunks[1..] + [last];
      ConcatSnoc(chunks[1..], last);
    }
  }

  /**
   * When every read ends on a line feed, as when each read returns whole
   * events of the relay, reading chunk by chunk gives the same text as
   * reading the complete lines of the whole stream.
   */
  lemma {:induction false} AlignedChunksMatchWholeText(chunks: seq<string>, rule: DeltaRule)
    requires rule("") == ""
    requires forall k :: 0 <= k < |chunks| ==> chunks[k] != [] && chunks[k][|chunks[k]| - 1] == '\n'
    ensures ChunksText(chunks, rule) == LinesText(CompleteLines(Concat(chunks)), rule)
    ensures Fragment(Concat(chunks)) == ""
    decreases |chunks|
  {
    if chunks == [] {
      assert Split("") == [""];
    } else {
      var init, last := chunks[..|chunks| - 1], chunks[|chunks| - 1];
      AlignedChunksMatchWholeText(init, rule);
      assert chunks == init + [last];
      ConcatSnoc(init, last);
      var front := Concat(init);
      CompleteLinesAppend(front, last);
      assert "" + last == last;
      EndsWithNewline(last);
      LinesTextAppend(CompleteLines(front), CompleteLines(last), rule);
      LinesTextAppend(CompleteLines(last), [""], rule);
      LinesTextSingle("", rule);
      assert LinesText(CompleteLines(last), rule) + "" == LinesText(CompleteLines(last), rule);
    }
  }

  /** A typical relay event payload carrying the delta `Hi`, as two pieces a read may end between. */
  const DeltaHead: string := "{\"delta\""
  const DeltaTail: string := ":\"Hi\"}"

  /** The pieces of the two reads, and of the same text in one read. */
  lemma SplitOfHiReads()
    ensures Split("data: " + DeltaHead) == ["data: " + DeltaHead]
    ensures Split(DeltaTail + "\n") == [DeltaTail, ""]
    ensures Split("data: " + DeltaHead + DeltaTail + "\n") == ["data: " + DeltaHead + DeltaTail, ""]
  {
    var first := "data: " + DeltaHead;
    assert '\n' !in first by {
      assert forall k :: 0 <= k < |first| ==> first[k] != '\n';
    }
    NoCompleteLine(first);
    SplitParts(first);
    assert Split("\n") == ["", ""];
    assert '\n' !in DeltaTail by {
      assert forall k :: 0 <= k < |DeltaTail| ==> DeltaTail[k] != '\n';
    }
    SplitLineFree(DeltaTail, "\n");
    assert DeltaTail + "" == DeltaTail;
    var whole := "data: " + DeltaHead + DeltaTail;
    assert '\n' !in whole by {
      assert forall k :: 0 <= k < |whole| ==> whole[k] != '\n';
    }
    SplitLineFree(whole, "\n");
    assert whole + "" == whole;
  }

  /** What the client makes of each of those pieces. */
  lemma HiPiecesText(parse: string -> Payload)
    requires parse(DeltaHead) == Unparseable
    requires parse(DeltaHead + DeltaTail) == Parsed(Some("Hi"))
    ensures ClientRule(parse)("data: " + DeltaHead) == ""
    ensures ClientRule(parse)(DeltaTail) == ""
    ensures ClientRule(parse)("data: " + DeltaHead + DeltaTail) == "Hi"
  {
    SpacedDataFieldPayload(DeltaHead);
    TrimOfTrimmed(DeltaTail);
    assert !StartsWith(DeltaTail, DataPrefix) by {
      assert DeltaTail[0] != DataPrefix[0];
    }
    assert "data: " + DeltaHead + DeltaTail == "data: " + (DeltaHead + DeltaTail);
    SpacedDataFieldPayload(DeltaHead + DeltaTail);
  }

  /** The text of the two reads and of the single read, for any rule that treats their pieces as the client does. */
  lemma HiReadsText(rule: DeltaRule)
    requires rule("data: " + DeltaHead) == "" && rule(DeltaTail) == "" && rule("") == ""
    requires rule("data: " + DeltaHead + DeltaTail) == "Hi"
    ensures ChunksText(["data: " + DeltaHead, DeltaTail + "\n"], rule) == ""
    ensures ChunksText(["data: " + DeltaHead + DeltaTail + "\n"], rule) == "Hi"
  {
    SplitOfHiReads();
    var first := "data: " + DeltaHead;
    var whole := "data: " + DeltaHead + DeltaTail;
    LinesTextSingle(first, rule);
    assert LinesText([DeltaTail, ""], rule) == "" by {
      assert [DeltaTail, ""][..1] == [DeltaTail];
      LinesTextSingle(DeltaTail, rule);
    }
    assert LinesText([whole, ""], rule) == "Hi" by {
      assert [whole, ""][..1] == [whole];
      LinesTextSingle(whole, rule);
    }
    var chunks := [first, DeltaTail + "\n"];
    assert chunks[..1] == [first] && [first][..0] == [];
    assert ChunkText(first, rule) == "" && ChunkText(DeltaTail + "\n", rule) == "";
    assert ChunksText([first], rule) == "" + "";
    assert ChunksText(chunks, rule) == ChunksText([first], rule) + ChunkText(DeltaTail + "\n", rule);
    assert [whole + "\n"][..0] == [];
    assert ChunkText(whole + "\n", rule) == "Hi";
    assert ChunksText([whole + "\n"], rule) == "" + "Hi";
  }

  /**
   * Each read is split on its own, so a `data:` line cut in two by the
   * transport is lost: the first piece does not parse and the second is not a
   * `data:` line. The same text in a single read gives `Hi`.
   */
  lemma SplitDataLineIsLost(parse: string -> Payload)
    requires parse(DeltaHead) == Unparseable
    requires parse(DeltaHead + DeltaTail) == Parsed(Some("Hi"))
    ensures ChunksText(["data: " + DeltaHead, DeltaTail + "\n"], ClientRule(parse)) == ""
    ensures ChunksText(["data: " + DeltaHead + DeltaTail + "\n"], ClientRule(parse)) == "Hi"
  {
    HiPiecesText(parse);
    ClientRuleSilent(parse);
    HiReadsText(ClientRule(parse));
  }

  // ---------------------------------------------------------------------------
  // The service

  /** One more piece of a read: the message at `idx` grows by that piece's delta. */
  lemma PieceStep(h: seq<ChatMsg>, before: seq<ChatMsg>, start: seq<ChatMsg>, idx: nat, content: string,
                  pieces: seq<string>, j: nat, rule: DeltaRule)
    requires idx < |start| && j < |pieces|
    requires before == start[idx := ChatMsg(Assistant, content + LinesText(pieces[..j], rule))]
    requires h == before[idx := ChatMsg(Assistant, before[idx].content + rule(pieces[j]))]
    ensures h == start[idx := ChatMsg(Assistant, content + LinesText(pieces[..j + 1], rule))]
  {
    var sofar := LinesText(pieces[..j], rule);
    assert pieces[..j + 1][..j] == pieces[..j];
    assert (content + sofar) + rule(pieces[j]) == content + (sofar + rule(pieces[j]));
  }

  /** One more read: the message at `idx` grows by that read's text. */
  lemma ChunkStep(h: seq<ChatMsg>, before: seq<ChatMsg>, start: seq<ChatMsg>, idx: nat, content: string,
                  chunks: seq<string>, i: nat, rule: DeltaRule)
    requires idx < |start| && i < |chunks|
    requires before == start[idx := ChatMsg(Assistant, content + ChunksText(chunks[..i], rule))]
    requires h == before[idx := ChatMsg(Assistant, before[idx].content + ChunkText(chunks[i], rule))]
    ensures h == start[idx := ChatMsg(Assistant, content + ChunksText(chunks[..i + 1], rule))]
  {
    var sofar := ChunksText(chunks[..i], rule);
    assert chunks[..i + 1][..i] == chunks[..i];
    assert (content + sofar) + ChunkText(chunks[i], rule) == content + (sofar + ChunkText(chunks[i], rule));
  }

  class ChatService {
    var history: seq<ChatMsg>
    var loading: bool

    constructor ()
      ensures history == Initial() && !loading
    {
      history, loading := Initial(), false;
    }

    /** `buildMessagesForAPI`: the messages posted to the relay. */
    function BuildMessagesForAPI(): (r: seq<ChatMsg>)
      reads this
      ensures |r| == |history|
      ensures forall k :: 0 <= k < |r| ==> r[k].role == history[k].role && r[k].content == history[k].content
    {
      Copy(history)
    }

    /** `clear`: back to the system prompt alone. */
    method Clear()
      modifies this
      ensures history == Initial() && loading == old(loading)
    {
      history := Initial();
    }

    /** `pushAssistantFull`: appends an assistant message and returns its position. */
    method PushAssistantFull(text: string) returns (idx: int)
      modifies this
      ensures history == old(history) + [ChatMsg(Assistant, text)] && loading == old(loading)
      ensures idx == |history| - 1 && history[idx] == ChatMsg(Assistant, text)
    {
      history := history + [ChatMsg(Assistant, text)];
      idx := |history| - 1;
    }

    /** `appendToAssistant`: see `Appended`. */
    method AppendToAssistant(index: int, delta: string)
      modifies this
      ensures history == Appended(old(history), index, delta) && loading == old(loading)
    {
      var i := if index >= 0 then index else |history| - 1;
      if !(0 <= i < |history|) || history[i].role != Assistant {
        return;
      }
      history := history[i := ChatMsg(Assistant, history[i].content + delta)];
    }

    /**
     * The body of the piece loop: trim, keep only `data:` lines, skip `[DONE]`,
     * and append the `delta` of the parsed JSON when it is a non-empty string.
     */
    method HandlePiece(line: string, idx: nat, parse: string -> Payload)
      requires idx < |history| && history[idx].role == Assistant
      modifies this
      ensures history == old(history)[idx := ChatMsg(Assistant, old(history)[idx].content + ClientRule(parse)(line))]
      ensures loading == old(loading)
    {
      var payload := DataPayload(line);
      if payload.Some? && payload.value != DoneMarker {
        var parsed := parse(payload.value);
        if parsed.Parsed? && parsed.text.Some? && parsed.text.value != "" {
          AppendToAssistant(idx, parsed.text.value);
          return;
        }
      }
      assert ClientRule(parse)(line) == "";
      assert history[idx] == ChatMsg(Assistant, history[idx].content + "");
    }

    /** The loop over the pieces of one read, appending each piece's delta to the message at `idx`. */
    method HandleChunk(chunk: string, idx: nat, parse: string -> Payload)
      requires idx < |history| && history[idx].role == Assistant
      modifies this
      ensures history == old(history)[idx := ChatMsg(Assistant, old(history)[idx].content + ChunkText(chunk, ClientRule(parse)))]
      ensures loading == old(loading)
    {
      ghost var rule := ClientRule(parse);
      ghost var start := history;
      ghost var content := history[idx].content;
      var pieces := Split(chunk);
      var j := 0;
      assert LinesText(pieces[..0], rule) == "" && content + "" == content;
      assert start[idx] == ChatMsg(Assistant, content);
      while j < |pieces|
        invariant 0 <= j <= |pieces|
        invariant loading == old(loading)
        invariant history == start[idx := ChatMsg(Assistant, content + LinesText(pieces[..j], rule))]
      {
        ghost var before := history;
        HandlePiece(pieces[j], idx, parse);
        PieceStep(history, before, start, idx, content, pieces, j, rule);
        j := j + 1;
      }
      assert pieces[..j] == pieces;
    }

    /** The read loop of `ask`: every read, in order, handled by `HandleChunk` into the message at `idx`. */
    method ReadStream(chunks: seq<string>, idx: nat, parse: string -> Payload)
      requires idx < |history| && history[idx].role == Assistant
      modifies this
      ensures history == old(history)[idx := ChatMsg(Assistant, old(history)[idx].content + ChunksText(chunks, ClientRule(parse)))]
      ensures loading == old(loading)
    {
      ghost var rule := ClientRule(parse);
      ghost var start := history;
      ghost var content := history[idx].content;
      var i := 0;
      assert ChunksText(chunks[..0], rule) == "" && content + "" == content;
      assert start[idx] == ChatMsg(Assistant, content);
      while i < |chunks|
        invariant 0 <= i <= |chunks|
        invariant loading == old(loading)
        invariant history == start[idx := ChatMsg(Assistant, content + ChunksText(chunks[..i], rule))]
      {
        ghost var before := history;
        HandleChunk(chunks[i], idx, parse);
        ChunkStep(history, before, start, idx, content, chunks, i, rule);
        i := i + 1;
      }
      assert chunks[..i] == chunks;
    }

    /**
     * `ask`: push an empty assistant message, post the history (that message
     * included), append every delta of every read to it, and on any failure
     * append `\n(error) ` and the failure's message to the last message.
     */
    method Ask(server: seq<ChatMsg> -> Reply, parse: string -> Payload)
      modifies this
      ensures history == old(history) + [ChatMsg(Assistant,
        AssistantText(server(old(history) + [ChatMsg(Assistant, "")]), parse))]
      ensures !loading
    {
      loading := true;
      var startIdx := PushAssistantFull("");
      ghost var base := old(history);
      var r := server(BuildMessagesForAPI());
      assert BuildMessagesForAPI() == base + [ChatMsg(Assistant, "")];
      var failure: Option<string> := None;
      ghost var streamed := "";
      if r.NetworkFailure? {
        failure := Some(r.message);
      } else if !Ok(r.status) || r.body.None? {
        failure := Some(StatusError(r.status, r.statusText));
      } else {
        var up := r.body.value;
        ReadStream(up.chunks, startIdx, parse);
        streamed := ChunksText(up.chunks, ClientRule(parse));
        assert "" + streamed == streamed;
        if up.end.Fails? {
          failure := Some(up.end.message);
        }
      }
      assert history == base + [ChatMsg(Assistant, streamed)];
      assert AssistantText(r, parse) == streamed + if failure.Some? then "\n(error) " + failure.value else "" by {
        if r.NetworkFailure? || !Ok(r.status) || r.body.None? {
          assert "" + ("\n(error) " + failure.value) == "\n(error) " + failure.value;
        }
      }
      if failure.Some? {
        var note := "\n(error) " + failure.value;
        AppendedToLast(base, streamed, note);
        AppendToAssistant(-1, note);
      }
      assert streamed + "" == streamed;
      loading := false;
    }

    /** `addUserMessage`: the user's message goes at the end, then `ask` runs. */
    method AddUserMessage(text: string, server: seq<ChatMsg> -> Reply, parse: string -> Payload)
      modifies this
      ensures var sent := old(history) + [ChatMsg(User, text), ChatMsg(Assistant, "")];
        history == old(history) + [ChatMsg(User, text), ChatMsg(Assistant, AssistantText(server(sent), parse))]
      ensures !loading
    {
      history := history + [ChatMsg(User, text)];
      ghost var asked := history;
      Ask(server, parse);
      assert asked + [ChatMsg(Assistant, "")] == old(history) + [ChatMsg(User, text), ChatMsg(Assistant, "")];
      assert history == asked + [history[|asked|]];
    }
  }
}
