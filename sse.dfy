/** The part of the Fetch standard both sides rely on. */
module Http {
  /** `Response.ok`: a status in the range 200-299. */
  predicate Ok(status: nat) {
    200 <= status <= 299
  }
}

/**
 * Reading one SSE line, as both the relay (src/app/api/chat.ts) and the
 * browser-side service (src/app/chat.service.ts) do it: trim the line, keep
 * it only if it starts with `data:`, and trim what follows those five
 * characters again. This is a subset of the `data:` field rule of section
 * 9.2 of the WHATWG HTML Living Standard (server-sent events).
 */
module Sse {
  import opened Options
  import opened Strings

  /**
   * What `JSON.parse(payload)` followed by an optional-chaining lookup of the
   * text field yields: the parse throws, or it succeeds and the field is a
   * string or absent (`undefined`/`null`, which `?? ''` turns into '').
   */
  datatype Payload = Unparseable | Parsed(text: Option<string>)

  const DataPrefix: string := "data:"

  /** The marker the upstream sends as its last data line. */
  const DoneMarker: string := "[DONE]"

  predicate StartsWith(s: string, prefix: string) {
    |prefix| <= |s| && s[..|prefix|] == prefix
  }

  /** `t = line.trim()`, `t.startsWith('data:')`, `t.slice(5).trim()`. */
  function DataPayload(line: string): (p: Option<string>)
  {
    var t := Trim(line);
    if StartsWith(t, DataPrefix) then Some(Trim(t[5..])) else None
  }

  /** A line has a payload exactly when its trimmed form starts with `data:`; the payload has no surrounding whitespace. */
  lemma DataPayloadSpec(line: string)
    ensures DataPayload(line).Some? <==> StartsWith(Trim(line), DataPrefix)
    ensures DataPayload(line).Some? ==> IsTrimmed(DataPayload(line).value) && |DataPayload(line).value| + 5 <= |line|
  {
    var t := Trim(line);
    TrimSpec(line);
    if StartsWith(t, DataPrefix) {
      TrimSpec(t[5..]);
    }
  }

  /** A blank line (keep-alive, or the separator between events) carries no payload. */
  lemma BlankLineHasNoPayload(line: string)
    requires forall k :: 0 <= k < |line| ==> IsSpace(line[k])
    ensures DataPayload(line) == None
  {
    TrimEndSpec(line);
    assert TrimEnd(line) == [];
  }

  /** A `data:` line yields what follows the colon, with only surrounding whitespace removed. */
  lemma {:induction false} DataFieldPayload(p: string)
    ensures DataPayload(DataPrefix + p) == Some(Trim(p))
  {
    TrimEndKeepsPrefix(DataPrefix, p);
    var t := DataPrefix + TrimEnd(p);
    assert TrimEnd(DataPrefix + p) == t;
    assert Trim(DataPrefix + p) == t;
    assert t[..5] == DataPrefix && t[5..] == TrimEnd(p);
    TrimEndSpec(p);
    assert TrimEnd(TrimEnd(p)) == TrimEnd(p);
  }

  /** The usual wire form `data: <json>` yields the JSON text itself when it has no surrounding whitespace. */
  lemma {:induction false} SpacedDataFieldPayload(p: string)
    requires IsTrimmed(p)
    ensures DataPayload("data: " + p) == Some(p)
  {
    var q := [' '] + p;
    assert "data: " + p == DataPrefix + q;
    DataFieldPayload(q);
    assert IsSpace(' ');
    TrimDropsLeadingSpace(' ', p);
    TrimOfTrimmed(p);
    assert Trim(q) == p;
  }

  /** A CRLF line ending leaves a `\r` on each line after `split('\n')`; the payload is the same. */
  lemma CarriageReturnIgnored(line: string)
    ensures DataPayload(line + "\r") == DataPayload(line)
  {
    TrimDropsTrailingSpace(line, '\r');
  }
}
