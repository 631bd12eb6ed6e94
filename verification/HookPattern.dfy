/**
 * packages/config/src/command-pattern.ts: how a hook matcher reads a command line. It is kept apart from the permission
 * scanner on purpose; how far the two cut a line alike is said here too.
 */
module HookPattern {
  import Glob
  import opened Scanner
  import opened Wrappers

  // ---- segments ----------------------------------------------------------------------------

  /** The length of the separator `text` begins with; 0 for none. */
  function SeparatorAt(text: string): (n: nat)
    ensures n <= |text|
  {
    if |text| >= 2 && text[0] == text[1] && (text[0] == '&' || text[0] == '|') then 2
    else if text != "" && IsOperatorChar(text[0]) then 1
    else 0
  }

  /** The segments of a line whose current segment has gathered `cur` so far, at a position inside `quote`. */
  function SegmentFrom(rest: string, quote: Quote, cur: string): (segments: seq<string>)
    ensures segments != []
    decreases |rest|
  {
    if rest == "" then [cur]
    else if quote != Bare || rest[0] == '\'' || rest[0] == '"' then
      SegmentFrom(rest[1..], AfterChar(quote, rest[0]), cur + rest[..1])
    else if SeparatorAt(rest) > 0 then [cur] + SegmentFrom(rest[SeparatorAt(rest)..], Bare, "")
    else SegmentFrom(rest[1..], Bare, cur + rest[..1])
  }

  function Segments(line: string): seq<string> {
    SegmentFrom(line, Bare, "")
  }

  /** The quote a text leaves open, begun inside `quote`. */
  function QuoteAfter(text: string, quote: Quote): Quote {
    if text == "" then quote else AfterChar(QuoteAfter(text[..|text| - 1], quote), text[|text| - 1])
  }

  lemma {:induction false} QuoteAppend(a: string, b: string, quote: Quote)
    ensures QuoteAfter(a + b, quote) == QuoteAfter(b, QuoteAfter(a, quote))
    decreases b
  {
    if b == "" {
      assert a + b == a;
    } else {
      assert (a + b)[..|a + b| - 1] == a + b[..|b| - 1];
      QuoteAppend(a, b[..|b| - 1], quote);
    }
  }

  lemma {:induction false} QuoteStep(rest: string, quote: Quote)
    requires rest != ""
    ensures QuoteAfter(rest, quote) == QuoteAfter(rest[1..], AfterChar(quote, rest[0]))
  {
    assert rest == rest[..1] + rest[1..] && rest[..1] == [rest[0]] && rest[..1][..0] == "";
    QuoteAppend(rest[..1], rest[1..], quote);
  }

  lemma {:induction false} QuoteSnoc(cur: string, ch: char, quote: Quote)
    ensures QuoteAfter(cur + [ch], quote) == AfterChar(QuoteAfter(cur, quote), ch)
  {
    assert (cur + [ch])[..|cur|] == cur;
  }

  // ---- the two splitters -------------------------------------------------------------------

  /**
   * What the hook side makes of a part of the permission scanner's: `;;` is two separators to it, with nothing between.
   */
  function HookParts(parts: seq<Part>): seq<string> {
    if parts == [] then []
    else (if parts[0].operator == ";;" then [""] else []) + [parts[0].raw] + HookParts(parts[1..])
  }

  /** The parts of a line, the first one's operator aside. */
  function AsHookSegments(parts: seq<Part>): seq<string>
    requires parts != []
  {
    [parts[0].raw] + HookParts(parts[1..])
  }

  lemma {:induction false} SeparatorsAlike(rest: string)
    ensures SeparatorAt(rest) == if |rest| >= 2 && rest[..2] == ";;" then 1 else |OperatorAt(rest)|
    ensures OperatorAt(rest) == ";;" <==> |rest| >= 2 && rest[..2] == ";;"
  {
  }

  lemma {:induction false} CutAlike(rest: string, quote: Quote, cur: string, op: string)
    requires '\\' !in rest
    ensures SegmentFrom(rest, quote, cur) == AsHookSegments(SplitFrom(rest, quote, cur, op))
    decreases |rest|, 1
  {
    if rest != "" {
      SeparatorsAlike(rest);
      if quote != Bare || rest[0] == '\'' || rest[0] == '"' || OperatorAt(rest) == "" {
        CutAlike(rest[1..], AfterChar(quote, rest[0]), cur + rest[..1], op);
      } else {
        CutAtOperator(rest, cur, op);
      }
    }
  }

  lemma {:induction false} CutAtOperator(rest: string, cur: string, op: string)
    requires '\\' !in rest && OperatorAt(rest) != ""
    ensures SegmentFrom(rest, Bare, cur) == AsHookSegments(SplitFrom(rest, Bare, cur, op))
    decreases |rest|, 0
  {
    var hit := OperatorAt(rest);
    CutAlike(rest[|hit|..], Bare, "", hit);
    PartsAtOperator(rest, cur, op);
    if hit == ";;" {
      CutTwice(rest, cur);
    } else {
      SeparatorsAlike(rest);
    }
  }

  /** A cut at an operator, as the hook side counts the parts. */
  lemma {:induction false} PartsAtOperator(rest: string, cur: string, op: string)
    requires '\\' !in rest && OperatorAt(rest) != ""
    ensures var hit := OperatorAt(rest);
            AsHookSegments(SplitFrom(rest, Bare, cur, op)) ==
            [cur] + (if hit == ";;" then [""] else []) + AsHookSegments(SplitFrom(rest[|hit|..], Bare, "", hit))
  {
    var hit := OperatorAt(rest);
    var more := SplitFrom(rest[|hit|..], Bare, "", hit);
    assert SplitFrom(rest, Bare, cur, op) == [Part(op, cur)] + more;
    assert ([Part(op, cur)] + more)[1..] == more;
  }

  lemma {:induction false} CutTwice(rest: string, cur: string)
    requires OperatorAt(rest) == ";;"
    ensures SegmentFrom(rest, Bare, cur) == [cur, ""] + SegmentFrom(rest[2..], Bare, "")
  {
    SeparatorsAlike(rest);
    assert rest[1..][1..] == rest[2..];
    SeparatorsAlike(rest[1..]);
    assert SeparatorAt(rest[1..]) == 1;
    assert SegmentFrom(rest[1..], Bare, "") == [""] + SegmentFrom(rest[2..], Bare, "");
  }

  /**
   * On a line without a backslash the two splitters cut alike, but for an unquoted `;;`, which the hook side cuts
   * twice.
   */
  lemma {:induction false} SegmentsAreParts(line: string)
    requires '\\' !in line
    ensures Segments(line) == AsHookSegments(Split(line))
    ensures |Segments(line)| == |Split(line)| <==>
            forall i :: 1 <= i < |Split(line)| ==> Split(line)[i].operator != ";;"
  {
    CutAlike(line, Bare, "", "");
    HookPartsCount(Split(line)[1..]);
  }

  lemma {:induction false} HookPartsCount(parts: seq<Part>)
    ensures |HookParts(parts)| >= |parts|
    ensures |HookParts(parts)| == |parts| <==> forall i :: 0 <= i < |parts| ==> parts[i].operator != ";;"
  {
    if parts != [] {
      HookPartsCount(parts[1..]);
      assert forall i :: 0 <= i < |parts| - 1 ==> parts[1..][i] == parts[i + 1];
    }
  }

  // ---- tokens ------------------------------------------------------------------------------

  predicate IsHookSpace(ch: char) {
    ch == ' ' || ch == '\t' || ch == '\r' || ch == '\n'
  }

  datatype Reader = Reader(tokens: seq<string>, cur: string, inToken: bool, quote: Quote)

  const Unread := Reader([], "", false, Bare)

  function ReadChar(st: Reader, ch: char): Reader {
    var quote := AfterChar(st.quote, ch);
    if st.quote != Bare then (if quote == Bare then st.(quote := Bare) else st.(cur := st.cur + [ch]))
    else if quote != Bare then st.(quote := quote, inToken := true)
    else if IsHookSpace(ch) then
      (if st.inToken then st.(tokens := st.tokens + [st.cur], cur := "", inToken := false) else st)
    else st.(cur := st.cur + [ch], inToken := true)
  }

  function ReadAll(text: string): Reader {
    if text == "" then Unread else ReadChar(ReadAll(text[..|text| - 1]), text[|text| - 1])
  }

  /** The tokens of a text; none when a quote is left open. */
  function HookTokens(text: string): Option<seq<string>> {
    var st := ReadAll(text);
    if st.quote != Bare then None else Some(if st.inToken then st.tokens + [st.cur] else st.tokens)
  }

  lemma {:induction false} ReaderTracksQuotes(text: string)
    ensures ReadAll(text).quote == QuoteAfter(text, Bare)
  {
    if text != "" {
      ReaderTracksQuotes(text[..|text| - 1]);
    }
  }

  ghost predicate AllClosedButLast(segments: seq<string>) {
    forall i :: 0 <= i < |segments| - 1 ==> QuoteAfter(segments[i], Bare) == Bare
  }

  lemma {:induction false} SegmentsClosed(rest: string, quote: Quote, cur: string)
    requires QuoteAfter(cur, Bare) == quote
    ensures var segments := SegmentFrom(rest, quote, cur);
            AllClosedButLast(segments) && QuoteAfter(segments[|segments| - 1], Bare) == QuoteAfter(rest, quote)
    decreases |rest|
  {
    if rest != "" {
      QuoteStep(rest, quote);
      if quote != Bare || rest[0] == '\'' || rest[0] == '"' || SeparatorAt(rest) == 0 {
        assert rest[..1] == [rest[0]];
        QuoteSnoc(cur, rest[0], Bare);
        SegmentsClosed(rest[1..], AfterChar(quote, rest[0]), cur + rest[..1]);
      } else {
        var n := SeparatorAt(rest);
        SegmentsClosed(rest[n..], Bare, "");
        SeparatorKeepsQuote(rest);
        ClosedBefore(cur, SegmentFrom(rest[n..], Bare, ""));
      }
    }
  }

  lemma {:induction false} ClosedBefore(cur: string, more: seq<string>)
    requires QuoteAfter(cur, Bare) == Bare && more != [] && AllClosedButLast(more)
    ensures var segments := [cur] + more;
            AllClosedButLast(segments) && segments[|segments| - 1] == more[|more| - 1]
  {
    assert forall i :: 0 < i <= |more| ==> ([cur] + more)[i] == more[i - 1];
  }

  lemma {:induction false} SeparatorKeepsQuote(rest: string)
    requires SeparatorAt(rest) > 0
    ensures QuoteAfter(rest, Bare) == QuoteAfter(rest[SeparatorAt(rest)..], Bare)
  {
    QuoteStep(rest, Bare);
    if SeparatorAt(rest) == 2 {
      QuoteStep(rest[1..], Bare);
      assert rest[1..][1..] == rest[2..];
    }
  }

  /** Only the last segment of a line can fail to tokenise, and it does exactly when the line leaves a quote open. */
  lemma {:induction false} OnlyTheLastIsPassedOver(line: string, i: nat)
    requires i < |Segments(line)|
    ensures HookTokens(Segments(line)[i]).None? <==> i == |Segments(line)| - 1 && QuoteAfter(line, Bare) != Bare
  {
    SegmentsClosed(line, Bare, "");
    ReaderTracksQuotes(Segments(line)[i]);
  }

  // ---- matching ----------------------------------------------------------------------------

  /** Position by position; a trailing bare `*` takes any number of further tokens. */
  predicate TokensMatchHook(pattern: seq<string>, tokens: seq<string>) {
    && pattern != []
    && (if pattern[|pattern| - 1] == "*" then |tokens| >= |pattern| - 1 else |tokens| == |pattern|)
    && forall i ::
           0 <= i < |pattern| && (i < |pattern| - 1 || pattern[i] != "*") ==> Glob.Matches(pattern[i], tokens[i], false)
  }

  predicate SegmentHit(pattern: seq<string>, segment: string) {
    HookTokens(segment).Some? && TokensMatchHook(pattern, HookTokens(segment).value)
  }

  predicate SomeHit(pattern: seq<string>, segments: seq<string>) {
    exists i :: 0 <= i < |segments| && SegmentHit(pattern, segments[i])
  }

  /** The pattern matches some segment of the line. */
  predicate PatternMatches(pattern: string, line: string) {
    HookTokens(pattern).Some? && SomeHit(HookTokens(pattern).value, Segments(line))
  }

  /** Where `a`, a separator and `b` meet no other separator arises. */
  predicate CleanMeeting(a: string, op: string, b: string) {
    op != "" && SeparatorAt(op + b) == |op| && (a == "" || a[|a| - 1] !in {'&', '|'})
  }

  lemma {:induction false} SameSeparator(rest: string, tail: string)
    requires rest != "" && rest[|rest| - 1] !in {'&', '|'}
    ensures SeparatorAt(rest + tail) == SeparatorAt(rest)
  {
    var all := rest + tail;
    assert all[0] == rest[0] && (|rest| >= 2 ==> all[1] == rest[1]);
    assert |rest| == 1 ==> rest[0] == rest[|rest| - 1];
  }

  lemma {:induction false} DropBefore(rest: string, tail: string, n: nat)
    requires n <= |rest|
    ensures (rest + tail)[n..] == rest[n..] + tail && (rest + tail)[..n] == rest[..n]
  {
  }

  lemma {:induction false} PutBefore(cur: string, x: seq<string>, y: seq<string>)
    ensures [cur] + (x + y) == ([cur] + x) + y
  {
  }

  lemma {:induction false} SegmentAcross(rest: string, quote: Quote, cur: string, op: string, b: string)
    requires QuoteAfter(rest, quote) == Bare && CleanMeeting(rest, op, b)
    ensures SegmentFrom(rest + (op + b), quote, cur) == SegmentFrom(rest, quote, cur) + Segments(b)
    decreases |rest|
  {
    var tail := op + b;
    if rest == "" {
      assert rest + tail == tail && tail[|op|..] == b;
    } else {
      QuoteStep(rest, quote);
      DropBefore(rest, tail, 1);
      SameSeparator(rest, tail);
      if quote != Bare || rest[0] == '\'' || rest[0] == '"' || SeparatorAt(rest) == 0 {
        SegmentAcross(rest[1..], AfterChar(quote, rest[0]), cur + rest[..1], op, b);
      } else {
        var n := SeparatorAt(rest);
        SeparatorKeepsQuote(rest);
        DropBefore(rest, tail, n);
        SegmentAcross(rest[n..], Bare, "", op, b);
        PutBefore(cur, SegmentFrom(rest[n..], Bare, ""), Segments(b));
      }
    }
  }

  /** Across a separator a hook pattern matches exactly when it matches on one side: no side hides the other. */
  lemma {:induction false} HookMatchComposes(pattern: string, a: string, op: string, b: string)
    requires QuoteAfter(a, Bare) == Bare && CleanMeeting(a, op, b)
    ensures PatternMatches(pattern, a + op + b) <==> PatternMatches(pattern, a) || PatternMatches(pattern, b)
  {
    assert a + op + b == a + (op + b);
    SegmentAcross(a, Bare, "", op, b);
    assert Segments(a + op + b) == Segments(a) + Segments(b);
    if HookTokens(pattern).Some? {
      SomeOfEither(HookTokens(pattern).value, Segments(a), Segments(b));
    }
  }

  lemma {:induction false} SomeOfEither(pattern: seq<string>, x: seq<string>, y: seq<string>)
    ensures SomeHit(pattern, x + y) <==> SomeHit(pattern, x) || SomeHit(pattern, y)
  {
    assert forall i :: 0 <= i < |y| ==> (x + y)[|x| + i] == y[i];
    if SomeHit(pattern, y) {
      var i :| 0 <= i < |y| && SegmentHit(pattern, y[i]);
      assert SegmentHit(pattern, (x + y)[|x| + i]);
    }
    if SomeHit(pattern, x) {
      var i :| 0 <= i < |x| && SegmentHit(pattern, x[i]);
      assert SegmentHit(pattern, (x + y)[i]);
    }
  }

  // ---- the loops ---------------------------------------------------------------------------

  method SegmentCommandLine(line: string) returns (out: seq<string>)
    ensures out == Segments(line)
  {
    out := [];
    var cur, quote := "", Bare;
    var i := 0;
    assert line[0..] == line;
    while i < |line|
      invariant i <= |line|
      invariant Segments(line) == out + SegmentFrom(line[i..], quote, cur)
    {
      var ch, rest := line[i], line[i..];
      assert rest[..1] == [ch] && rest[1..] == line[i + 1..];
      if quote != Bare || ch == '"' || ch == '\'' {
        cur := cur + [ch];
        quote := AfterChar(quote, ch);
        i := i + 1;
      } else {
        var n := SeparatorAt(rest);
        if n > 0 {
          assert rest[n..] == line[i + n..];
          assert out + ([cur] + SegmentFrom(rest[n..], Bare, "")) == (out + [cur]) + SegmentFrom(rest[n..], Bare, "");
          out := out + [cur];
          cur := "";
          i := i + n;
        } else {
          cur := cur + [ch];
          i := i + 1;
        }
      }
    }
    assert line[i..] == "";
    out := out + [cur];
  }

  method TokenizeHookPattern(text: string) returns (r: Option<seq<string>>)
    ensures r == HookTokens(text)
    ensures r.None? <==> QuoteAfter(text, Bare) != Bare
  {
    var st := Unread;
    var i := 0;
    while i < |text|
      invariant i <= |text| && st == ReadAll(text[..i])
    {
      assert text[..i + 1][..i] == text[..i];
      st := ReadChar(st, text[i]);
      i := i + 1;
    }
    assert text[..i] == text;
    ReaderTracksQuotes(text);
    r := if st.quote != Bare then None else Some(if st.inToken then st.tokens + [st.cur] else st.tokens);
  }

  method TokensMatchPattern(pattern: seq<string>, tokens: seq<string>) returns (r: bool)
    ensures r == TokensMatchHook(pattern, tokens)
  {
    if pattern == [] { return false; }
    var open := pattern[|pattern| - 1] == "*";
    var fixed := if open then |pattern| - 1 else |pattern|;
    if if open then |tokens| < fixed else |tokens| != fixed { return false; }
    var i := 0;
    while i < fixed
      invariant i <= fixed
      invariant forall j :: 0 <= j < i ==> Glob.Matches(pattern[j], tokens[j], false)
    {
      var hit := Glob.HookGlob(pattern[i], tokens[i]);
      if !hit { return false; }
      i := i + 1;
    }
    r := true;
  }

  method CommandPatternMatches(pattern: string, line: string) returns (r: bool)
    ensures r == PatternMatches(pattern, line)
  {
    var wanted := TokenizeHookPattern(pattern);
    if wanted.None? || wanted.value == [] { return false; }
    var segments := SegmentCommandLine(line);
    var i := 0;
    while i < |segments|
      invariant i <= |segments|
      invariant forall j :: 0 <= j < i ==> !SegmentHit(wanted.value, segments[j])
    {
      var tokens := TokenizeHookPattern(segments[i]);
      if tokens.Some? {
        var hit := TokensMatchPattern(wanted.value, tokens.value);
        if hit {
          assert SegmentHit(wanted.value, segments[i]);
          return true;
        }
      }
      i := i + 1;
    }
    r := false;
  }
}
