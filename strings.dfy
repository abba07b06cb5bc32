/** The optional value used throughout the model. */
module Options {
  datatype Option<+T> = None | Some(value: T)
}

/**
 * The JavaScript string primitives both stream handlers rely on:
 * `String.prototype.trim`, `String.prototype.split('\n')` and the
 * decimal rendering of a number inside a template literal.
 */
module Strings {

  /** The ECMAScript WhiteSpace and LineTerminator code points: exactly what `trim` removes. */
  predicate IsSpace(c: char) {
    || c == '\t' || c == '\n' || c == '\U{B}' || c == '\U{C}' || c == '\r' || c == ' '
    || c == '\U{A0}' || c == '\U{1680}' || ('\U{2000}' <= c <= '\U{200A}')
    || c == '\U{2028}' || c == '\U{2029}' || c == '\U{202F}' || c == '\U{205F}'
    || c == '\U{3000}' || c == '\U{FEFF}'
  }

  /** Neither starts nor ends with whitespace. */
  predicate IsTrimmed(s: string) {
    s == [] || (!IsSpace(s[0]) && !IsSpace(s[|s| - 1]))
  }

  /** Drops the leading whitespace. */
  function TrimStart(s: string): (r: string)
  {
    if s != [] && IsSpace(s[0]) then TrimStart(s[1..]) else s
  }

  /** Drops the trailing whitespace. */
  function TrimEnd(s: string): (r: string)
  {
    if s != [] && IsSpace(s[|s| - 1]) then TrimEnd(s[..|s| - 1]) else s
  }

  /** `String.prototype.trim`. */
  function Trim(s: string): (r: string)
  {
    TrimStart(TrimEnd(s))
  }

  /** `TrimStart` keeps the longest suffix that does not start with whitespace: all it cuts is whitespace. */
  lemma {:induction false} TrimStartSpec(s: string)
    ensures |TrimStart(s)| <= |s| && TrimStart(s) == s[|s| - |TrimStart(s)|..]
    ensures TrimStart(s) == [] || !IsSpace(TrimStart(s)[0])
    ensures forall k :: 0 <= k < |s| - |TrimStart(s)| ==> IsSpace(s[k])
  {
    if s != [] && IsSpace(s[0]) {
      var tail := s[1..];
      TrimStartSpec(tail);
      var r := TrimStart(tail);
      assert TrimStart(s) == r;
      assert tail[|tail| - |r|..] == s[|s| - |r|..];
      forall k | 0 <= k < |s| - |r|
        ensures IsSpace(s[k])
      {
        if k > 0 {
          assert s[k] == tail[k - 1];
        }
      }
    }
  }

  /** `TrimEnd` keeps the longest prefix that does not end with whitespace: all it cuts is whitespace. */
  lemma {:induction false} TrimEndSpec(s: string)
    ensures |TrimEnd(s)| <= |s| && TrimEnd(s) == s[..|TrimEnd(s)|]
    ensures TrimEnd(s) == [] || !IsSpace(TrimEnd(s)[|TrimEnd(s)| - 1])
    ensures forall k :: |TrimEnd(s)| <= k < |s| ==> IsSpace(s[k])
  {
    if s != [] && IsSpace(s[|s| - 1]) {
      TrimEndSpec(s[..|s| - 1]);
    }
  }

  /** `trim` leaves no whitespace at either end, and cuts nothing but whitespace: a non-blank text stays non-empty. */
  lemma TrimSpec(s: string)
    ensures IsTrimmed(Trim(s)) && |Trim(s)| <= |s|
    ensures (exists k :: 0 <= k < |s| && !IsSpace(s[k])) ==> Trim(s) != []
  {
    var e := TrimEnd(s);
    TrimEndSpec(s);
    TrimStartSpec(e);
    var r := TrimStart(e);
    if r != [] {
      assert r == e[|e| - |r|..];
      assert r[|r| - 1] == e[|e| - 1];
    }
  }

  lemma TrimOfTrimmed(s: string)
    requires IsTrimmed(s)
    ensures Trim(s) == s
  {
    assert TrimEnd(s) == s;
  }

  lemma {:induction false} TrimIdempotent(s: string)
    ensures Trim(Trim(s)) == Trim(s)
  {
    TrimSpec(s);
    TrimOfTrimmed(Trim(s));
  }

  /** A non-blank prefix survives `TrimEnd` untouched. */
  lemma {:induction false} TrimEndKeepsPrefix(a: string, b: string)
    requires a != [] && !IsSpace(a[|a| - 1])
    ensures TrimEnd(a + b) == a + TrimEnd(b)
    decreases |b|
  {
    if b == [] {
      assert a + b == a;
    } else if IsSpace(b[|b| - 1]) {
      assert (a + b)[..|a + b| - 1] == a + b[..|b| - 1];
      TrimEndKeepsPrefix(a, b[..|b| - 1]);
    } else {
      assert (a + b)[|a + b| - 1] == b[|b| - 1];
    }
  }

  /** Trailing whitespace never survives `trim`: it covers the `\r` of a CRLF line ending. */
  lemma TrimDropsTrailingSpace(s: string, c: char)
    requires IsSpace(c)
    ensures Trim(s + [c]) == Trim(s)
  {
    var t := s + [c];
    assert t[|t| - 1] == c && t[..|t| - 1] == s;
    assert TrimEnd(t) == TrimEnd(s);
  }

  /** Leading whitespace never survives `trim`. */
  lemma {:induction false} TrimDropsLeadingSpace(c: char, s: string)
    requires IsSpace(c)
    ensures Trim([c] + s) == Trim(s)
    decreases |s|
  {
    var t := [c] + s;
    if s == [] {
      assert TrimEnd(t) == TrimEnd(t[..0]);
    } else if IsSpace(s[|s| - 1]) {
      assert t[..|t| - 1] == [c] + s[..|s| - 1];
      TrimDropsLeadingSpace(c, s[..|s| - 1]);
    } else {
      assert t[|t| - 1] == s[|s| - 1];
      assert t[1..] == s;
    }
  }

  // ---------------------------------------------------------------------------
  // split('\n')

  /** `lines.join('\n')` followed by one more `'\n'`: every line gets its terminator back. */
  function JoinLines(lines: seq<string>): (s: string)
  {
    if lines == [] then "" else lines[0] + "\n" + JoinLines(lines[1..])
  }

  /**
   * `s.split('\n')`: the pieces between the line feeds, in order; the last piece is
   * whatever follows the final `'\n'` (empty when `s` ends with one).
   */
  function Split(s: string): (r: seq<string>)
    ensures |r| >= 1
    ensures forall k :: 0 <= k < |r| ==> '\n' !in r[k]
  {
    if s == [] then [""]
    else
      var rest := Split(s[1..]);
      if s[0] == '\n' then [""] + rest
      else [[s[0]] + rest[0]] + rest[1..]
  }

  /** The pieces of `s` that were terminated by a `'\n'`. */
  function CompleteLines(s: string): (lines: seq<string>)
  {
    var r := Split(s); r[..|r| - 1]
  }

  /** What follows the last `'\n'` of `s`: the part `lines.pop()` keeps. */
  function Fragment(s: string): (f: string)
  {
    var r := Split(s); r[|r| - 1]
  }

  lemma {:induction false} JoinLinesAppend(a: seq<string>, b: seq<string>)
    ensures JoinLines(a + b) == JoinLines(a) + JoinLines(b)
    decreases |a|
  {
    if a == [] {
      assert a + b == b;
    } else {
      assert (a + b)[1..] == a[1..] + b;
      JoinLinesAppend(a[1..], b);
    }
  }

  /** Splitting loses nothing: the complete lines with their terminators, then the fragment, give back `s`. */
  lemma {:induction false} SplitJoin(s: string)
    ensures JoinLines(CompleteLines(s)) + Fragment(s) == s
  {
    if s != [] {
      var rest := Split(s[1..]);
      SplitJoin(s[1..]);
      var r := Split(s);
      if s[0] == '\n' {
        assert r[..|r| - 1] == [""] + rest[..|rest| - 1];
        assert s == [s[0]] + s[1..];
      } else if |rest| == 1 {
        assert JoinLines(rest[..0]) == "";
        assert s == [s[0]] + s[1..];
      } else {
        assert r[..|r| - 1] == [[s[0]] + rest[0]] + rest[1..|rest| - 1];
        assert rest[..|rest| - 1] == [rest[0]] + rest[1..|rest| - 1];
        assert s == [s[0]] + s[1..];
      }
    }
  }

  /** A text without line feed splits into itself. */
  lemma {:induction false} SplitLineFree(s: string, b: string)
    requires '\n' !in s
    ensures Split(s + b) == [s + Split(b)[0]] + Split(b)[1..]
    decreases |s|
  {
    if s != [] {
      assert (s + b)[1..] == s[1..] + b;
      assert s[0] in s;
      assert (s + b)[0] == s[0] != '\n';
      SplitLineFree(s[1..], b);
      var rest := Split(s[1..] + b);
      assert rest == [s[1..] + Split(b)[0]] + Split(b)[1..];
      assert Split(s + b) == [[s[0]] + rest[0]] + rest[1..];
      assert [s[0]] + (s[1..] + Split(b)[0]) == s + Split(b)[0];
    } else {
      assert s + b == b;
      assert Split(b) == [Split(b)[0]] + Split(b)[1..];
      assert s + Split(b)[0] == Split(b)[0];
    }
  }

  /** Splitting undoes joining: the inverse of SplitJoin. */
  lemma {:induction false} SplitOfJoin(lines: seq<string>, last: string)
    requires forall k :: 0 <= k < |lines| ==> '\n' !in lines[k]
    requires '\n' !in last
    ensures Split(JoinLines(lines) + last) == lines + [last]
    decreases |lines|
  {
    if lines == [] {
      SplitLineFree(last, "");
      assert Split("") == [""];
      assert last + "" == last;
      assert JoinLines(lines) + last == last;
    } else {
      var x := JoinLines(lines[1..]) + last;
      SplitOfJoin(lines[1..], last);
      assert JoinLines(lines) + last == lines[0] + ("\n" + x);
      assert '\n' !in lines[0];
      SplitLineFree(lines[0], "\n" + x);
      assert ("\n" + x)[1..] == x;
      assert Split("\n" + x) == [""] + Split(x);
      assert lines[0] + "" == lines[0];
      assert lines == [lines[0]] + lines[1..];
    }
  }

  /** `split('\n')` is the complete lines followed by the fragment. */
  lemma SplitParts(s: string)
    ensures Split(s) == CompleteLines(s) + [Fragment(s)]
  {
  }

  /** Two texts without a line feed, one after the other. */
  lemma NoNewlineConcat(a: string, b: string)
    requires '\n' !in a && '\n' !in b
    ensures '\n' !in a + b
  {
    forall k | 0 <= k < |a + b|
      ensures (a + b)[k] != '\n'
    {
      if k >= |a| {
        assert (a + b)[k] == b[k - |a|];
      }
    }
  }

  /** The complete lines of a text hold no line feed. */
  lemma CompleteLinesFree(s: string)
    ensures forall k :: 0 <= k < |CompleteLines(s)| ==> '\n' !in CompleteLines(s)[k]
  {
    var r := Split(s);
    forall k | 0 <= k < |CompleteLines(s)| ensures '\n' !in CompleteLines(s)[k] {
      assert CompleteLines(s)[k] == r[k];
    }
  }

  /** Two lists of lines without line feeds, one after the other. */
  lemma LinesFreeAppend(x: seq<string>, y: seq<string>)
    requires forall k :: 0 <= k < |x| ==> '\n' !in x[k]
    requires forall k :: 0 <= k < |y| ==> '\n' !in y[k]
    ensures forall k :: 0 <= k < |x + y| ==> '\n' !in (x + y)[k]
  {
    forall k | 0 <= k < |x + y| ensures '\n' !in (x + y)[k] {
      if k >= |x| {
        assert (x + y)[k] == y[k - |x|];
      }
    }
  }

  /** Regrouping the pieces of `a + b` when `b`'s text is re-cut together with `a`'s tail `f`. */
  lemma Regroup(front: string, f: string, b: string, mid: string, last: string)
    requires mid + last == f + b
    ensures (front + f) + b == (front + mid) + last
  {
    assert (front + f) + b == front + (f + b);
  }

  /** Both parts of a concatenation, joined back, give the concatenation. */
  lemma JoinOfAppend(a: string, b: string)
    ensures a + b == JoinLines(CompleteLines(a) + CompleteLines(Fragment(a) + b)) + Fragment(Fragment(a) + b)
  {
    var f := Fragment(a) + b;
    SplitJoin(a);
    SplitJoin(f);
    JoinLinesAppend(CompleteLines(a), CompleteLines(f));
    Regroup(JoinLines(CompleteLines(a)), Fragment(a), b, JoinLines(CompleteLines(f)), Fragment(f));
  }

  /**
   * Splitting a concatenation: the complete lines of `a`, then the split of `a`'s
   * fragment followed by `b`. This is why a carried fragment makes chunk borders invisible.
   */
  lemma SplitAppend(a: string, b: string)
    ensures Split(a + b) == CompleteLines(a) + Split(Fragment(a) + b)
  {
    var f := Fragment(a) + b;
    var all := CompleteLines(a) + CompleteLines(f);
    JoinOfAppend(a, b);
    CompleteLinesFree(a);
    CompleteLinesFree(f);
    LinesFreeAppend(CompleteLines(a), CompleteLines(f));
    assert '\n' !in Fragment(f);
    SplitOfJoin(all, Fragment(f));
    SplitParts(f);
  }

  lemma CompleteLinesAppend(a: string, b: string)
    ensures CompleteLines(a + b) == CompleteLines(a) + CompleteLines(Fragment(a) + b)
    ensures Fragment(a + b) == Fragment(Fragment(a) + b)
  {
    SplitAppend(a, b);
  }

  /** A text without line feed holds no complete line. */
  lemma NoCompleteLine(s: string)
    requires '\n' !in s
    ensures CompleteLines(s) == [] && Fragment(s) == s
  {
    SplitOfJoin([], s);
    assert JoinLines([]) + s == s;
  }

  // ---------------------------------------------------------------------------
  // Numbers in template literals

  function DigitChar(d: nat): (c: char)
    requires d < 10
  {
    "0123456789"[d]
  }

  /** The value of a string of decimal digits. */
  function DigitsValue(s: string): (v: nat)
    requires forall k :: 0 <= k < |s| ==> '0' <= s[k] <= '9'
  {
    if s == [] then 0 else 10 * DigitsValue(s[..|s| - 1]) + (s[|s| - 1] as int - '0' as int)
  }

  /** `${n}` for a non-negative integer: its decimal digits, without leading zeros. */
  function Decimal(n: nat): (s: string)
    ensures |s| >= 1 && (forall k :: 0 <= k < |s| ==> '0' <= s[k] <= '9')
    ensures DigitsValue(s) == n
    ensures s[0] == '0' ==> n == 0
    ensures n == 0 ==> s == "0"
  {
    if n < 10 then [DigitChar(n)] else Decimal(n / 10) + [DigitChar(n % 10)]
  }
}
