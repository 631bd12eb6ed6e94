/**
 * packages/agent-tools/src/scanner.ts: the shell scanner. A command line is split on operators outside quotes, each
 * part tokenised on its own, and the matchers read the segments.
 */
module Scanner {
  import Glob
  import opened Wrappers

  /** The quote a position stands in. */
  datatype Quote = Bare | Single | Double

  function AfterChar(quote: Quote, ch: char): Quote {
    match quote
    case Single => if ch == '\'' then Bare else Single
    case Double => if ch == '"' then Bare else Double
    case Bare => if ch == '\'' then Single else if ch == '"' then Double else Bare
  }

  predicate IsOperatorChar(ch: char) {
    ch == '&' || ch == '|' || ch == ';' || ch == '\n'
  }

  /** The operator `text` begins with, longest first; "" for none. */
  function OperatorAt(text: string): (op: string)
    ensures |op| <= |text| && op == text[..|op|]
    ensures op != "" <==> text != "" && IsOperatorChar(text[0])
  {
    if |text| >= 2 && text[0] == text[1] && (text[0] == '&' || text[0] == '|' || text[0] == ';') then text[..2]
    else if text != "" && IsOperatorChar(text[0]) then text[..1]
    else ""
  }

  datatype Part = Part(operator: string, raw: string)

  /** The parts of a line whose current part has gathered `cur` so far, at a position inside `quote`. */
  function SplitFrom(rest: string, quote: Quote, cur: string, op: string): (parts: seq<Part>)
    ensures |parts| > 0 && parts[0].operator == op
    decreases |rest|
  {
    if rest == "" then [Part(op, cur)]
    else if rest[0] == '\\' && quote != Single then
      if |rest| == 1 then [Part(op, cur + rest)] else SplitFrom(rest[2..], quote, cur + rest[..2], op)
    else if quote != Bare || rest[0] == '\'' || rest[0] == '"' then
      SplitFrom(rest[1..], AfterChar(quote, rest[0]), cur + rest[..1], op)
    else
      var hit := OperatorAt(rest);
      if hit != "" then [Part(op, cur)] + SplitFrom(rest[|hit|..], Bare, "", hit)
      else SplitFrom(rest[1..], Bare, cur + rest[..1], op)
  }

  function Split(line: string): seq<Part> {
    SplitFrom(line, Bare, "", "")
  }

  /** The tokeniser's state: tokens so far, the one being gathered, and what it stands in. */
  datatype Lexer = Lexer(tokens: seq<string>, cur: string, inToken: bool, quote: Quote, substitution: bool, depth: nat)

  const Fresh := Lexer([], "", false, Bare, false, 0)

  predicate IsBlank(ch: char) {
    ch == ' ' || ch == '\t' || ch == '\r'
  }

  /** One character that is not an escape, the next one in view. */
  function LexChar(st: Lexer, ch: char, opens: bool): Lexer {
    if st.quote.Single? then (if ch == '\'' then st.(quote := Bare) else st.(cur := st.cur + [ch]))
    else
      var seen := st.(substitution := st.substitution || ch == '`' || (ch == '$' && opens),
                      depth := if ch == '$' && opens then st.depth + 1 else st.depth);
      if st.quote.Double? then (if ch == '"' then seen.(quote := Bare) else seen.(cur := seen.cur + [ch]))
      else if ch == '\'' then seen.(quote := Single, inToken := true)
      else if ch == '"' then seen.(quote := Double, inToken := true)
      else if ch == '(' && seen.depth > 0 then seen.(cur := seen.cur + [ch])
      else if ch == ')' && seen.depth > 0 then seen.(depth := seen.depth - 1, cur := seen.cur + [ch])
      else if IsBlank(ch) then
        if seen.inToken then seen.(tokens := seen.tokens + [seen.cur], cur := "", inToken := false) else seen
      else seen.(cur := seen.cur + [ch], inToken := true)
  }

  function Lex(rest: string, st: Lexer): Lexer
    decreases |rest|
  {
    if rest == "" then st
    else if rest[0] == '\\' && st.quote != Single && |rest| > 1 then
      Lex(rest[2..], st.(cur := st.cur + [rest[1]], inToken := true))
    else Lex(rest[1..], LexChar(st, rest[0], |rest| > 1 && rest[1] == '('))
  }

  datatype Tokenised = Tokenised(tokens: seq<string>, error: Option<Quote>, substitution: bool)

  function Finished(st: Lexer): Tokenised {
    Tokenised(if st.inToken then st.tokens + [st.cur] else st.tokens,
              if st.quote.Bare? then None else Some(st.quote),
              st.substitution)
  }

  function Tokenise(text: string): Tokenised {
    Finished(Lex(text, Fresh))
  }

  // ---- one reading of quotes for both walks ------------------------------------------------

  /** The quote after `text`, and whether it ends in a backslash that would escape what follows. */
  function Scan(text: string, quote: Quote): (Quote, bool)
    decreases |text|
  {
    if text == "" then (quote, false)
    else if text[0] == '\\' && quote != Single then
      if |text| == 1 then (quote, true) else Scan(text[2..], quote)
    else Scan(text[1..], AfterChar(quote, text[0]))
  }

  /** Text that ends outside quotes, with nothing left to escape. */
  predicate Closed(text: string) {
    Scan(text, Bare) == (Bare, false)
  }

  lemma {:induction false} ScanAppend(a: string, b: string, quote: Quote)
    requires !Scan(a, quote).1
    ensures Scan(a + b, quote) == Scan(b, Scan(a, quote).0)
    decreases |a|
  {
    if a == "" {
      assert a + b == b;
    } else if a[0] == '\\' && quote != Single {
      assert (a + b)[2..] == a[2..] + b;
      ScanAppend(a[2..], b, quote);
    } else {
      assert (a + b)[1..] == a[1..] + b;
      ScanAppend(a[1..], b, AfterChar(quote, a[0]));
    }
  }

  lemma {:induction false} ScanOne(cur: string, quote: Quote, ch: char)
    requires Scan(cur, Bare) == (quote, false) && !(ch == '\\' && quote != Single)
    ensures Scan(cur + [ch], Bare) == (AfterChar(quote, ch), false)
  {
    ScanAppend(cur, [ch], Bare);
    assert [ch][1..] == "";
  }

  lemma {:induction false} ScanEscape(cur: string, quote: Quote, ch: char)
    requires Scan(cur, Bare) == (quote, false) && quote != Single
    ensures Scan(cur + ['\\', ch], Bare) == (quote, false)
  {
    ScanAppend(cur, ['\\', ch], Bare);
    assert ['\\', ch][2..] == "";
  }

  /** The tokeniser ends in the quote the shared reading says. */
  lemma {:induction false} LexTracksQuotes(rest: string, st: Lexer)
    ensures Lex(rest, st).quote == Scan(rest, st.quote).0
    decreases |rest|
  {
    if rest == "" {
    } else if rest[0] == '\\' && st.quote != Single {
      if |rest| > 1 {
        LexTracksQuotes(rest[2..], st.(cur := st.cur + [rest[1]], inToken := true));
      } else {
        assert rest[1..] == "";
      }
    } else {
      LexTracksQuotes(rest[1..], LexChar(st, rest[0], |rest| > 1 && rest[1] == '('));
    }
  }

  /** A position of `text` outside quotes and not escaped holds an operator character. */
  ghost predicate OperatorOutside(text: string, k: nat) {
    k < |text| && IsOperatorChar(text[k]) && Scan(text[..k], Bare) == (Bare, false)
  }

  function Join(parts: seq<Part>): string {
    if parts == [] then "" else parts[0].operator + parts[0].raw + Join(parts[1..])
  }

  // ---- splitting ---------------------------------------------------------------------------

  /** Splitting loses nothing: operators and raw texts, in order, are the line. */
  lemma {:induction false} SplitLossless(rest: string, quote: Quote, cur: string, op: string)
    ensures Join(SplitFrom(rest, quote, cur, op)) == op + cur + rest
    decreases |rest|
  {
    if rest == "" {
    } else if rest[0] == '\\' && quote != Single {
      if |rest| > 1 {
        SplitLossless(rest[2..], quote, cur + rest[..2], op);
        Regroup(op, cur, rest, 2);
      }
    } else if quote != Bare || OperatorAt(rest) == "" {
      SplitLossless(rest[1..], AfterChar(quote, rest[0]), cur + rest[..1], op);
      Regroup(op, cur, rest, 1);
    } else {
      var hit := OperatorAt(rest);
      SplitLossless(rest[|hit|..], Bare, "", hit);
      Regroup(op, cur, rest, |hit|);
      assert hit + "" + rest[|hit|..] == rest;
    }
  }

  lemma {:induction false} Regroup(op: string, cur: string, rest: string, n: nat)
    requires n <= |rest|
    ensures op + (cur + rest[..n]) + rest[n..] == op + cur + rest
  {
    assert rest == rest[..n] + rest[n..];
  }

  /**
   * No raw text holds an operator outside quotes; every part but the last ends outside quotes, with nothing to escape.
   */
  ghost predicate WellCut(part: Part) {
    forall k :: 0 <= k < |part.raw| ==> !OperatorOutside(part.raw, k)
  }

  ghost predicate NoneOutside(cur: string) {
    forall k :: 0 <= k < |cur| ==> !OperatorOutside(cur, k)
  }

  lemma {:induction false} StillNoneOutside(cur: string, quote: Quote, more: string)
    requires NoneOutside(cur) && Scan(cur, Bare) == (quote, false) && 1 <= |more| <= 2
    requires |more| == 2 ==> more[0] == '\\' && quote != Single
    requires |more| == 1 ==> quote != Bare || !IsOperatorChar(more[0])
    ensures NoneOutside(cur + more)
  {
    var all := cur + more;
    forall k | 0 <= k < |all| ensures !OperatorOutside(all, k) {
      if k < |cur| {
        assert all[..k] == cur[..k] && !OperatorOutside(cur, k);
      } else if k == |cur| {
        assert all[..k] == cur;
      } else {
        assert all[..k] == cur + [more[0]];
        ScanAppend(cur, [more[0]], Bare);
      }
    }
  }

  ghost predicate CutClean(parts: seq<Part>, end: (Quote, bool)) {
    && parts != []
    && (forall i :: 0 <= i < |parts| ==> WellCut(parts[i]))
    && (forall i :: 0 <= i < |parts| - 1 ==> Closed(parts[i].raw))
    && Scan(parts[|parts| - 1].raw, Bare) == end
  }

  lemma {:induction false} CutCleanCons(head: Part, parts: seq<Part>, end: (Quote, bool))
    requires WellCut(head) && Closed(head.raw) && CutClean(parts, end)
    ensures CutClean([head] + parts, end)
  {
  }

  lemma {:induction false} SplitCutsAtOperators(rest: string, quote: Quote, cur: string, op: string)
    requires Scan(cur, Bare) == (quote, false) && NoneOutside(cur)
    ensures CutClean(SplitFrom(rest, quote, cur, op), Scan(rest, quote))
    decreases |rest|
  {
    if rest == "" {
    } else if rest[0] == '\\' && quote != Single {
      if |rest| > 1 {
        ScanEscape(cur, quote, rest[1]);
        assert rest[..2] == ['\\', rest[1]];
        StillNoneOutside(cur, quote, rest[..2]);
        SplitCutsAtOperators(rest[2..], quote, cur + rest[..2], op);
      } else {
        ScanAppend(cur, rest, Bare);
        StillNoneOutside(cur, quote, rest);
      }
    } else if quote != Bare || OperatorAt(rest) == "" {
      assert rest[..1] == [rest[0]];
      ScanOne(cur, quote, rest[0]);
      StillNoneOutside(cur, quote, rest[..1]);
      SplitCutsAtOperators(rest[1..], AfterChar(quote, rest[0]), cur + rest[..1], op);
    } else {
      var hit := OperatorAt(rest);
      ScanOperator(rest);
      SplitCutsAtOperators(rest[|hit|..], Bare, "", hit);
      CutCleanCons(Part(op, cur), SplitFrom(rest[|hit|..], Bare, "", hit), Scan(rest, quote));
    }
  }

  /** An operator outside quotes leaves the quote as it was. */
  lemma {:induction false} ScanOperator(rest: string)
    requires OperatorAt(rest) != ""
    ensures Scan(rest, Bare) == Scan(rest[|OperatorAt(rest)|..], Bare)
  {
    var op := OperatorAt(rest);
    assert Scan(rest, Bare) == Scan(rest[1..], Bare);
    if |op| == 2 {
      assert rest[1..][1..] == rest[2..];
    }
  }

  /** Only the last part can fail to tokenise, and it does exactly when the line ends inside a quote. */
  lemma {:induction false} OnlyTheLastCanFail(line: string, i: nat)
    requires i < |Split(line)|
    ensures var parts := Split(line);
            Tokenise(parts[i].raw).error ==
              if i < |parts| - 1 || Scan(line, Bare).0 == Bare then None else Some(Scan(line, Bare).0)
  {
    SplitCutsAtOperators(line, Bare, "", "");
    LexTracksQuotes(Split(line)[i].raw, Fresh);
  }

  // ---- command substitution ----------------------------------------------------------------

  /** Somewhere outside single quotes and not escaped, `text` holds a backtick or a `$(`. */
  predicate Substitutes(text: string, quote: Quote)
    decreases |text|
  {
    if text == "" then false
    else if text[0] == '\\' && quote != Single then |text| > 1 && Substitutes(text[2..], quote)
    else
      || (quote != Single && (text[0] == '`' || (text[0] == '$' && |text| > 1 && text[1] == '(')))
      || Substitutes(text[1..], AfterChar(quote, text[0]))
  }

  lemma {:induction false} LexSeesSubstitution(rest: string, st: Lexer)
    ensures Lex(rest, st).substitution <==> st.substitution || Substitutes(rest, st.quote)
    decreases |rest|
  {
    if rest == "" {
    } else if rest[0] == '\\' && st.quote != Single {
      if |rest| > 1 {
        LexSeesSubstitution(rest[2..], st.(cur := st.cur + [rest[1]], inToken := true));
      } else {
        assert rest[1..] == "";
      }
    } else {
      LexSeesSubstitution(rest[1..], LexChar(st, rest[0], |rest| > 1 && rest[1] == '('));
    }
  }

  lemma {:induction false} SubstitutesAppend(a: string, b: string, quote: Quote)
    requires !Scan(a, quote).1 && (b == "" || b[0] != '(')
    ensures Substitutes(a + b, quote) <==> Substitutes(a, quote) || Substitutes(b, Scan(a, quote).0)
    decreases |a|
  {
    if a == "" {
      assert a + b == b;
    } else if a[0] == '\\' && quote != Single {
      assert (a + b)[2..] == a[2..] + b;
      SubstitutesAppend(a[2..], b, quote);
    } else {
      assert (a + b)[1..] == a[1..] + b;
      SubstitutesAppend(a[1..], b, AfterChar(quote, a[0]));
    }
  }

  ghost predicate SomeSubstitutes(parts: seq<Part>) {
    exists i :: 0 <= i < |parts| && Substitutes(parts[i].raw, Bare)
  }

  lemma {:induction false} MovedOver(cur: string, rest: string, n: nat)
    requires n <= |rest|
    ensures cur + rest[..n] + rest[n..] == cur + rest
  {
  }

  lemma {:induction false} SplitKeepsSubstitution(rest: string, quote: Quote, cur: string, op: string)
    requires Scan(cur, Bare) == (quote, false)
    ensures SomeSubstitutes(SplitFrom(rest, quote, cur, op)) <==> Substitutes(cur + rest, Bare)
    decreases |rest|, 1
  {
    if rest == "" {
      OnePartSubstitutes(Part(op, cur));
      assert cur + rest == cur;
    } else if rest[0] == '\\' && quote != Single {
      if |rest| > 1 {
        ScanEscape(cur, quote, rest[1]);
        assert rest[..2] == ['\\', rest[1]];
        SplitKeepsSubstitution(rest[2..], quote, cur + rest[..2], op);
        MovedOver(cur, rest, 2);
      } else {
        OnePartSubstitutes(Part(op, cur + rest));
      }
    } else if quote != Bare || rest[0] == '\'' || rest[0] == '"' || OperatorAt(rest) == "" {
      assert rest[..1] == [rest[0]];
      ScanOne(cur, quote, rest[0]);
      SplitKeepsSubstitution(rest[1..], AfterChar(quote, rest[0]), cur + rest[..1], op);
      MovedOver(cur, rest, 1);
    } else {
      CutKeepsSubstitution(rest, cur, op);
    }
  }

  lemma {:induction false} CutKeepsSubstitution(rest: string, cur: string, op: string)
    requires Scan(cur, Bare) == (Bare, false) && OperatorAt(rest) != ""
    ensures SomeSubstitutes(SplitFrom(rest, Bare, cur, op)) <==> Substitutes(cur + rest, Bare)
    decreases |rest|, 0
  {
    var hit := OperatorAt(rest);
    var more := SplitFrom(rest[|hit|..], Bare, "", hit);
    SplitKeepsSubstitution(rest[|hit|..], Bare, "", hit);
    assert "" + rest[|hit|..] == rest[|hit|..];
    SubstitutesAppend(cur, rest, Bare);
    OperatorDoesNotSubstitute(rest);
    SomeSubstitutesCons(Part(op, cur), more);
  }

  lemma {:induction false} OnePartSubstitutes(part: Part)
    ensures SomeSubstitutes([part]) <==> Substitutes(part.raw, Bare)
  {
    assert [part][0] == part;
  }

  lemma {:induction false} SomeSubstitutesCons(head: Part, more: seq<Part>)
    ensures SomeSubstitutes([head] + more) <==> Substitutes(head.raw, Bare) || SomeSubstitutes(more)
  {
    var parts := [head] + more;
    assert forall i :: 0 <= i < |more| ==> parts[i + 1] == more[i];
    if SomeSubstitutes(more) {
      var i :| 0 <= i < |more| && Substitutes(more[i].raw, Bare);
      assert Substitutes(parts[i + 1].raw, Bare);
    }
    if Substitutes(head.raw, Bare) {
      assert Substitutes(parts[0].raw, Bare);
    }
  }

  lemma {:induction false} OperatorDoesNotSubstitute(rest: string)
    requires OperatorAt(rest) != ""
    ensures Substitutes(rest, Bare) <==> Substitutes(rest[|OperatorAt(rest)|..], Bare)
  {
    assert Substitutes(rest, Bare) <==> Substitutes(rest[1..], Bare);
    if |OperatorAt(rest)| == 2 {
      assert rest[1..][1..] == rest[2..];
    }
  }

  // ---- segments ----------------------------------------------------------------------------

  /** What trimming strips. */
  predicate IsSpace(ch: char) {
    ch in {' ', '\t', '\n', '\U{000B}', '\U{000C}', '\r', '\U{00A0}', '\U{1680}', '\U{2028}', '\U{2029}', '\U{202F}',
      '\U{205F}', '\U{3000}', '\U{FEFF}'}
    || '\U{2000}' <= ch <= '\U{200A}'
  }

  predicate Blank(text: string) {
    forall i :: 0 <= i < |text| ==> IsSpace(text[i])
  }

  function LowerChar(ch: char): char {
    if 'A' <= ch <= 'Z' then (ch as int + 32) as char else ch
  }

  function Lower(text: string): string {
    seq(|text|, i requires 0 <= i < |text| => LowerChar(text[i]))
  }

  predicate IsIndirection(head: string) {
    head in {"eval", "exec", "source", ".", "xargs", "env", "nohup", "time"}
  }

  predicate IsShell(head: string) {
    head in {"sh", "bash", "zsh", "dash", "ksh", "fish", "cmd", "powershell", "pwsh"}
  }

  predicate IsInlineScriptFlag(argument: string) {
    argument in {"-c", "-Command", "/c", "/C"}
  }

  /** Digits, then `<` or `>`; or `&>`. */
  predicate IsRedirection(token: string) {
    || (|token| >= 2 && token[0] == '&' && token[1] == '>')
    || (token != "" && (token[0] == '<' || token[0] == '>'))
    || (token != "" && '0' <= token[0] <= '9' && DigitsThenAngle(token[1..]))
  }

  predicate DigitsThenAngle(token: string) {
    token != "" && (token[0] == '<' || token[0] == '>' || ('0' <= token[0] <= '9' && DigitsThenAngle(token[1..])))
  }

  function BeforeRedirection(tokens: seq<string>): seq<string> {
    if tokens == [] || IsRedirection(tokens[0]) then [] else [tokens[0]] + BeforeRedirection(tokens[1..])
  }

  datatype Reason =
    | Untokenizable(quote: Quote) | Substitution | NoCommand
    | Indirection(head: string) | ShellAlone(head: string) | InlineScript(head: string)

  /** Why a part cannot be read statically; None when it can. */
  function Classify(raw: string): Option<Reason> {
    var t := Tokenise(raw);
    var command := BeforeRedirection(t.tokens);
    if t.error.Some? then Some(Untokenizable(t.error.value))
    else if t.substitution then Some(Substitution)
    else if command == [] then if Blank(raw) then None else Some(NoCommand)
    else if IsIndirection(Lower(command[0])) then Some(Indirection(command[0]))
    else if IsShell(Lower(command[0])) then
      if |command| == 1 then Some(ShellAlone(command[0]))
      else if exists i :: 1 <= i < |command| && IsInlineScriptFlag(command[i]) then Some(InlineScript(command[0]))
      else None
    else None
  }

  datatype Segment = Segment(operator: string, raw: string, tokens: seq<string>, unconfident: Option<Reason>)

  function SegmentOf(part: Part): Segment {
    Segment(part.operator, part.raw, BeforeRedirection(Tokenise(part.raw).tokens), Classify(part.raw))
  }

  /** The segments of the parts that are not blank. */
  function RealSegments(parts: seq<Part>): seq<Segment> {
    if parts == [] then []
    else (if Blank(parts[0].raw) then [] else [SegmentOf(parts[0])]) + RealSegments(parts[1..])
  }

  function Decompose(line: string): seq<Segment> {
    var segments := RealSegments(Split(line));
    if segments != [] then segments else [Segment("", line, [], Classify(Split(line)[0].raw))]
  }

  // ---- the matchers ------------------------------------------------------------------------

  /** Token by token; the first folds case; a trailing `*` takes any number of further tokens. */
  predicate TokensMatch(pattern: seq<string>, tokens: seq<string>) {
    var trailing := pattern != [] && pattern[|pattern| - 1] == "*";
    var fixed := if trailing then pattern[..|pattern| - 1] else pattern;
    && (if trailing then |tokens| >= |fixed| else |tokens| == |fixed|)
    && forall i :: 0 <= i < |fixed| ==>
         if i == 0 then Glob.Matches(Lower(fixed[0]), Lower(tokens[0]), true)
           else Glob.Matches(fixed[i], tokens[i], true)
  }

  predicate PatternHits(compiled: seq<seq<string>>, s: Segment) {
    s.tokens != [] && exists p :: p in compiled && TokensMatch(p, s.tokens)
  }

  predicate PatternFires(compiled: seq<seq<string>>, segments: seq<Segment>) {
    exists s :: s in segments && PatternHits(compiled, s)
  }

  predicate Escalates(s: Segment) {
    s.unconfident.Some? || (!Blank(s.raw) && s.tokens == [])
  }

  predicate EscalationFires(segments: seq<Segment>) {
    exists s :: s in segments && Escalates(s)
  }

  predicate PipeToShellFires(segments: seq<Segment>) {
    exists s :: s in segments && s.operator == "|" && s.tokens != [] && IsShell(Lower(s.tokens[0]))
  }

  // ---- composition -------------------------------------------------------------------------

  /** The same parts, the first of them introduced by `op`. */
  function WithOperator(parts: seq<Part>, op: string): seq<Part>
    requires parts != []
  {
    [Part(op, parts[0].raw)] + parts[1..]
  }

  lemma {:induction false} SplitUnderOperator(rest: string, quote: Quote, cur: string, op: string)
    ensures SplitFrom(rest, quote, cur, op) == WithOperator(SplitFrom(rest, quote, cur, ""), op)
    decreases |rest|
  {
    if rest == "" {
    } else if rest[0] == '\\' && quote != Single {
      if |rest| > 1 {
        SplitUnderOperator(rest[2..], quote, cur + rest[..2], op);
      }
    } else if quote != Bare || rest[0] == '\'' || rest[0] == '"' {
      SplitUnderOperator(rest[1..], AfterChar(quote, rest[0]), cur + rest[..1], op);
    } else if OperatorAt(rest) == "" {
      SplitUnderOperator(rest[1..], Bare, cur + rest[..1], op);
    }
  }

  /**
   * Parts that end in a single operator with nothing after it, which `op` would double: `&` and `&`, say, make `&&`. An
   * operator character that is escaped or quoted begins no part, and one already doubled takes no third.
   */
  predicate Doubles(parts: seq<Part>, op: string)
    requires parts != [] && op != ""
  {
    parts[|parts| - 1] == Part(op[..1], "") && op[0] in {'&', '|', ';'}
  }

  /** No operator character touches the seam to make another operator, on the side of `a` or on that of `b`. */
  predicate CleanSeam(a: string, op: string, b: string) {
    op != "" && OperatorAt(op + b) == op && !Doubles(Split(a), op)
  }

  lemma {:induction false} EscapeStep(rest: string, quote: Quote, cur: string, op: string, tail: string)
    requires |rest| >= 2 && rest[0] == '\\' && quote != Single
    ensures SplitFrom(rest + tail, quote, cur, op) == SplitFrom(rest[2..] + tail, quote, cur + rest[..2], op)
  {
    assert (rest + tail)[2..] == rest[2..] + tail && (rest + tail)[..2] == rest[..2];
  }

  lemma {:induction false} PlainStep(rest: string, quote: Quote, cur: string, op: string, tail: string)
    requires rest != "" && !(rest[0] == '\\' && quote != Single)
    requires quote == Bare ==> OperatorAt(rest + tail) == ""
    ensures SplitFrom(rest + tail, quote, cur, op) ==
            SplitFrom(rest[1..] + tail, AfterChar(quote, rest[0]), cur + rest[..1], op)
  {
    assert (rest + tail)[1..] == rest[1..] + tail && (rest + tail)[..1] == rest[..1];
  }

  lemma {:induction false} OperatorStep(rest: string, cur: string, op: string, tail: string)
    requires OperatorAt(rest) != "" && OperatorAt(rest + tail) == OperatorAt(rest)
    ensures SplitFrom(rest + tail, Bare, cur, op) ==
            [Part(op, cur)] + SplitFrom(rest[|OperatorAt(rest)|..] + tail, Bare, "", OperatorAt(rest))
  {
    var n := |OperatorAt(rest)|;
    assert (rest + tail)[n..] == rest[n..] + tail;
  }

  lemma {:induction false} SplitAcross(rest: string, quote: Quote, cur: string, first: string, op: string, b: string)
    requires Scan(rest, quote) == (Bare, false) && op != "" && OperatorAt(op + b) == op
    requires !Doubles(SplitFrom(rest, quote, cur, first), op)
    ensures SplitFrom(rest + (op + b), quote, cur, first) ==
            SplitFrom(rest, quote, cur, first) + SplitFrom(b, Bare, "", op)
    decreases |rest|, 1
  {
    var tail := op + b;
    assert rest + "" == rest;
    if rest == "" {
      assert rest + tail == tail && tail[|op|..] == b;
    } else if rest[0] == '\\' && quote != Single {
      EscapeStep(rest, quote, cur, first, tail);
      SplitAcross(rest[2..], quote, cur + rest[..2], first, op, b);
    } else if quote != Bare || OperatorAt(rest) == "" {
      SameOperator(rest, op, b);
      PlainStep(rest, quote, cur, first, tail);
      SplitAcross(rest[1..], AfterChar(quote, rest[0]), cur + rest[..1], first, op, b);
    } else {
      SplitAcrossOperator(rest, cur, first, op, b);
    }
  }

  lemma {:induction false} SplitAcrossOperator(rest: string, cur: string, first: string, op: string, b: string)
    requires Scan(rest, Bare) == (Bare, false) && op != "" && OperatorAt(op + b) == op
    requires OperatorAt(rest) != "" && !Doubles(SplitFrom(rest, Bare, cur, first), op)
    ensures SplitFrom(rest + (op + b), Bare, cur, first) ==
            SplitFrom(rest, Bare, cur, first) + SplitFrom(b, Bare, "", op)
    decreases |rest|, 0
  {
    var hit := OperatorAt(rest);
    SameOperator(rest, op, b);
    ScanOperator(rest);
    OperatorStep(rest, cur, first, op + b);
    SplitAcross(rest[|hit|..], Bare, "", hit, op, b);
    var x, y := SplitFrom(rest[|hit|..], Bare, "", hit), SplitFrom(b, Bare, "", op);
    assert [Part(first, cur)] + (x + y) == ([Part(first, cur)] + x) + y;
  }

  /** What follows changes the operator a text begins with only where it doubles the text's one character. */
  lemma {:induction false} SameOperator(rest: string, op: string, b: string)
    requires rest != "" && op != ""
    requires rest != op[..1] || op[0] !in {'&', '|', ';'}
    ensures OperatorAt(rest + (op + b)) == OperatorAt(rest)
  {
    var all := rest + (op + b);
    assert all[0] == rest[0] && (|rest| >= 2 ==> all[..2] == rest[..2]) && all[..1] == rest[..1];
    if |rest| == 1 {
      assert all[1] == op[0] && rest == [rest[0]] && op[..1] == [op[0]];
    }
  }

  /** `a op b` splits into the parts of `a` followed by those of `b`, the first of which `op` introduces. */
  lemma {:induction false} SplitComposes(a: string, op: string, b: string)
    requires Closed(a) && CleanSeam(a, op, b)
    ensures Split(a + op + b) == Split(a) + WithOperator(Split(b), op)
  {
    SplitAcross(a, Bare, "", "", op, b);
    SplitUnderOperator(b, Bare, "", op);
    assert a + op + b == a + (op + b);
  }

  predicate Doubling(x: Part, y: Part) {
    && x.raw == "" && x.operator != "" && y.operator != ""
    && x.operator == y.operator[..1] && x.operator[0] in {'&', '|', ';'}
  }

  predicate NoneDoubling(parts: seq<Part>) {
    forall i :: 0 <= i < |parts| - 1 ==> !Doubling(parts[i], parts[i + 1])
  }

  /** The splitter never leaves two operators side by side that are one. */
  lemma {:induction false} SplitDoublesNone(rest: string, quote: Quote, cur: string, op: string)
    requires cur == "" && quote == Bare && rest != "" && |op| == 1 && op[0] in {'&', '|', ';'} ==> rest[0] != op[0]
    requires cur == "" ==> quote == Bare
    ensures NoneDoubling(SplitFrom(rest, quote, cur, op))
    decreases |rest|
  {
    if rest == "" {
    } else if rest[0] == '\\' && quote != Single {
      if |rest| > 1 {
        SplitDoublesNone(rest[2..], quote, cur + rest[..2], op);
      }
    } else if quote != Bare || OperatorAt(rest) == "" {
      SplitDoublesNone(rest[1..], AfterChar(quote, rest[0]), cur + rest[..1], op);
    } else {
      var hit := OperatorAt(rest);
      assert hit[0] == rest[0];
      SplitDoublesNone(rest[|hit|..], Bare, "", hit);
      var more := SplitFrom(rest[|hit|..], Bare, "", hit);
      DoublesNoneBefore(Part(op, cur), more);
    }
  }

  lemma {:induction false} DoublesNoneBefore(first: Part, more: seq<Part>)
    requires more != [] && NoneDoubling(more) && !Doubling(first, more[0])
    ensures NoneDoubling([first] + more)
  {
    assert forall i :: 0 < i < |more| ==> ([first] + more)[i] == more[i - 1];
  }

  lemma {:induction false} JoinedDoubles(x: seq<Part>, y: seq<Part>, i: nat)
    requires i < |x + y| - 1 && Doubling((x + y)[i], (x + y)[i + 1])
    ensures !NoneDoubling(x + y)
  {
  }

  /** A text that begins with an operator splits there at once. */
  lemma {:induction false} BeginsWithOperator(b: string)
    requires OperatorAt(b) != ""
    ensures |Split(b)| >= 2 && Split(b)[0] == Part("", "") && Split(b)[1].operator == OperatorAt(b)
  {
  }

  /** It composes so exactly across a clean seam. */
  lemma {:induction false} SplitComposesIff(a: string, op: string, b: string)
    requires Closed(a) && op != "" && OperatorAt(op) == op
    ensures Split(a + op + b) == Split(a) + WithOperator(Split(b), op) <==> CleanSeam(a, op, b)
  {
    var x, y := Split(a), WithOperator(Split(b), op);
    SplitDoublesNone(a + op + b, Bare, "", "");
    if CleanSeam(a, op, b) {
      SplitComposes(a, op, b);
    } else if Doubles(x, op) {
      JoinedDoubles(x, y, |x| - 1);
    } else {
      assert b != "" && |op| == 1 && (op + b)[1] == b[0] && op[0] == b[0];
      BeginsWithOperator(b);
      assert (x + y)[|x|] == Part(op, "") && (x + y)[|x| + 1] == Split(b)[1];
      JoinedDoubles(x, y, |x|);
    }
  }

  lemma {:induction false} RealSegmentsAppend(x: seq<Part>, y: seq<Part>)
    ensures RealSegments(x + y) == RealSegments(x) + RealSegments(y)
    decreases x
  {
    if x == [] {
      assert x + y == y;
    } else {
      assert (x + y)[1..] == x[1..] + y;
      RealSegmentsAppend(x[1..], y);
    }
  }

  /** The non-blank segments of `a op b` are those of `a` followed by those of `b`. */
  lemma {:induction false} SegmentsCompose(a: string, op: string, b: string)
    requires Closed(a) && CleanSeam(a, op, b)
    ensures RealSegments(Split(a + op + b)) == RealSegments(Split(a)) + RealSegments(WithOperator(Split(b), op))
  {
    SplitComposes(a, op, b);
    RealSegmentsAppend(Split(a), WithOperator(Split(b), op));
  }

  /** Segments alike but for the operator that introduces them. */
  ghost predicate SameButOperator(x: seq<Segment>, y: seq<Segment>) {
    |x| == |y| && forall i :: 0 <= i < |x| ==> y[i] == x[i].(operator := y[i].operator)
  }

  lemma {:induction false} RealUnderOperator(parts: seq<Part>, op: string)
    requires parts != []
    ensures SameButOperator(RealSegments(parts), RealSegments(WithOperator(parts, op)))
  {
    assert WithOperator(parts, op)[1..] == parts[1..];
  }

  /** Whether a segment matches does not depend on the operator before it. */
  lemma {:induction false} SomeHitsUnderOperator(x: seq<Segment>, y: seq<Segment>, hits: Segment -> bool)
    requires SameButOperator(x, y)
    requires forall s: Segment, op: string :: hits(s) == hits(s.(operator := op))
    ensures (exists s :: s in x && hits(s)) <==> (exists s :: s in y && hits(s))
  {
    if s :| s in x && hits(s) {
      var i :| 0 <= i < |x| && x[i] == s;
      assert hits(x[i].(operator := y[i].operator));
      assert y[i] in y;
    }
    if s :| s in y && hits(s) {
      var i :| 0 <= i < |y| && y[i] == s;
      assert hits(x[i].(operator := y[i].operator)) == hits(x[i]);
      assert x[i] in x;
    }
  }

  ghost predicate SomeReal(line: string, hits: Segment -> bool) {
    exists s :: s in RealSegments(Split(line)) && hits(s)
  }

  lemma {:induction false} SomeRealComposes(a: string, op: string, b: string, hits: Segment -> bool)
    requires Closed(a) && CleanSeam(a, op, b)
    requires forall s: Segment, o: string :: hits(s) == hits(s.(operator := o))
    ensures SomeReal(a + op + b, hits) <==> SomeReal(a, hits) || SomeReal(b, hits)
  {
    SegmentsCompose(a, op, b);
    RealUnderOperator(Split(b), op);
    var x, y := RealSegments(Split(b)), RealSegments(WithOperator(Split(b), op));
    SomeHitsUnderOperator(x, y, hits);
    assert forall s :: s in RealSegments(Split(a + op + b)) <==> s in RealSegments(Split(a)) || s in y;
  }

  /** The pattern matcher fires on `a op b` exactly when it fires on `a` or on `b`. */
  lemma {:induction false} PatternComposes(compiled: seq<seq<string>>, a: string, op: string, b: string)
    requires Closed(a) && CleanSeam(a, op, b)
    ensures PatternFires(compiled, Decompose(a + op + b)) <==>
            PatternFires(compiled, Decompose(a)) || PatternFires(compiled, Decompose(b))
  {
    var hits := (s: Segment) => PatternHits(compiled, s);
    SomeRealComposes(a, op, b, hits);
    PatternReadsReal(compiled, a + op + b);
    PatternReadsReal(compiled, a);
    PatternReadsReal(compiled, b);
  }

  lemma {:induction false} PatternReadsReal(compiled: seq<seq<string>>, line: string)
    ensures PatternFires(compiled, Decompose(line)) <==> SomeReal(line, (s: Segment) => PatternHits(compiled, s))
  {
    if RealSegments(Split(line)) == [] {
      assert forall s :: s in Decompose(line) ==> s.tokens == [];
    }
  }

  // ---- the escalation matcher --------------------------------------------------------------

  /** Every part of the line is blank: it decomposes to one segment holding the whole line. */
  predicate Hollow(line: string) {
    RealSegments(Split(line)) == []
  }

  lemma {:induction false} AllBlank(parts: seq<Part>, i: nat)
    requires RealSegments(parts) == [] && i < |parts|
    ensures Blank(parts[i].raw)
    decreases parts
  {
    if i > 0 {
      AllBlank(parts[1..], i - 1);
    }
  }

  /** A lexer over blank text stands outside quotes and gathers nothing but blank characters. */
  ghost predicate BlankLexer(st: Lexer) {
    && st.quote.Bare? && !st.substitution && st.depth == 0
    && Blank(st.cur) && (st.inToken <==> st.cur != "")
    && forall i :: 0 <= i < |st.tokens| ==> st.tokens[i] != "" && Blank(st.tokens[i])
  }

  lemma {:induction false} LexBlank(rest: string, st: Lexer)
    requires Blank(rest) && BlankLexer(st)
    ensures BlankLexer(Lex(rest, st))
    decreases |rest|
  {
    if rest != "" {
      assert IsSpace(rest[0]);
      LexBlank(rest[1..], LexChar(st, rest[0], |rest| > 1 && rest[1] == '('));
    }
  }

  lemma {:induction false} SpaceIsNoHead(head: string)
    requires head != "" && IsSpace(head[0])
    ensures !IsIndirection(Lower(head)) && !IsShell(Lower(head)) && !IsRedirection(head)
  {
    assert Lower(head)[0] == head[0];
  }

  /** Blank text is read with confidence. */
  lemma {:induction false} BlankIsConfident(raw: string)
    requires Blank(raw)
    ensures Classify(raw) == None
  {
    LexBlank(raw, Fresh);
    var tokens := Tokenise(raw).tokens;
    if tokens != [] {
      assert tokens[0] != "" && IsSpace(tokens[0][0]);
      SpaceIsNoHead(tokens[0]);
    }
  }

  /** The matcher on a line: over its non-blank segments, or, where there are none, whether the line holds anything. */
  lemma {:induction false} EscalationOnALine(line: string)
    ensures EscalationFires(Decompose(line)) <==> if Hollow(line) then !Blank(line) else SomeReal(line, Escalates)
  {
    if Hollow(line) {
      AllBlank(Split(line), 0);
      BlankIsConfident(Split(line)[0].raw);
      var only := Segment("", line, [], None);
      assert Decompose(line) == [only];
      assert only in Decompose(line);
      assert Escalates(only) <==> !Blank(line);
    }
  }

  /** When the matcher on `a op b` agrees with the matcher on `a` or `b`; it can fail to only beside a hollow line. */
  predicate EscalationAgrees(a: string, op: string, b: string) {
    if Hollow(a) && Hollow(b) then !Blank(a) || !Blank(b) || op == "\n"
    else if Hollow(a) then Blank(a) || EscalationFires(Decompose(b))
    else if Hollow(b) then Blank(b) || EscalationFires(Decompose(a))
    else true
  }

  lemma {:induction false} BlankAcross(a: string, op: string, b: string)
    requires CleanSeam(a, op, b)
    ensures Blank(a + op + b) <==> Blank(a) && op == "\n" && Blank(b)
  {
    var line := a + op + b;
    ScanOperator(op + b);
    assert line[..|a|] == a && line[|a|..|a| + |op|] == op && line[|a| + |op|..] == b;
    if Blank(line) {
      forall i | 0 <= i < |a| ensures IsSpace(a[i]) { assert line[i] == a[i]; }
      forall i | 0 <= i < |b| ensures IsSpace(b[i]) { assert line[|a| + |op| + i] == b[i]; }
      assert line[|a|] == op[0] && IsSpace(op[0]);
    }
  }

  /**
   * The escalation matcher fires on `a op b` exactly when it fires on `a` or `b`, if and only if `EscalationAgrees`.
   */
  lemma {:induction false} EscalationComposes(a: string, op: string, b: string)
    requires Closed(a) && CleanSeam(a, op, b)
    ensures (EscalationFires(Decompose(a + op + b)) <==> EscalationFires(Decompose(a)) || EscalationFires(Decompose(b)))
            <==> EscalationAgrees(a, op, b)
  {
    SomeRealComposes(a, op, b, Escalates);
    SegmentsCompose(a, op, b);
    RealUnderOperator(Split(b), op);
    BlankAcross(a, op, b);
    EscalationOnALine(a + op + b);
    EscalationOnALine(a);
    EscalationOnALine(b);
    assert Hollow(a + op + b) <==> Hollow(a) && Hollow(b);
  }

  /** Neither blank line escalates, and the line they make does. */
  lemma {:induction false} SpaceIsHollow()
    ensures Split(" ") == [Part("", " ")] && RealSegments(Split(" ")) == []
  {
    assert SplitFrom("", Bare, " ", "") == [Part("", " ")];
    assert " "[1..] == "" && " "[..1] == " " && "" + " " == " ";
  }

  lemma {:induction false} HollowLinesDisagree()
    ensures !EscalationFires(Decompose(" ")) && EscalationFires(Decompose(" ; "))
  {
    SpaceIsHollow();
    EscalationOnALine(" ");
    assert Closed(" ") by { assert Scan("", Bare) == (Bare, false); }
    assert OperatorAt("; ") == ";" by { assert "; "[..1] == ";"; }
    EscalationComposes(" ", ";", " ");
    assert " " + ";" + " " == " ; ";
  }

  lemma {:induction false} SubstitutesIsNotBlank(text: string, quote: Quote)
    requires Substitutes(text, quote)
    ensures !Blank(text)
    decreases |text|
  {
    if text[0] != '\\' && text[0] != '`' && text[0] != '$' {
      SubstitutesIsNotBlank(text[1..], AfterChar(quote, text[0]));
    } else {
      assert !IsSpace(text[0]);
    }
  }

  lemma {:induction false} RealHasPart(parts: seq<Part>, i: nat)
    requires i < |parts| && !Blank(parts[i].raw)
    ensures SegmentOf(parts[i]) in RealSegments(parts)
    decreases parts
  {
    if i > 0 {
      RealHasPart(parts[1..], i - 1);
    }
  }

  /** A line holding a backtick or a `$(` outside single quotes always has a segment that cannot be read statically. */
  lemma {:induction false} SubstitutionEscalates(line: string)
    requires Substitutes(line, Bare)
    ensures exists s :: s in Decompose(line) && s.unconfident.Some?
    ensures EscalationFires(Decompose(line))
  {
    SplitKeepsSubstitution(line, Bare, "", "");
    assert "" + line == line;
    var parts := Split(line);
    var i :| 0 <= i < |parts| && Substitutes(parts[i].raw, Bare);
    SubstitutesIsNotBlank(parts[i].raw, Bare);
    LexSeesSubstitution(parts[i].raw, Fresh);
    RealHasPart(parts, i);
    assert SegmentOf(parts[i]) in Decompose(line);
  }

  // ---- the two loops -----------------------------------------------------------------------

  /** Between two turns of the splitter: the parts cut so far and what splitting on from here gives are the line's. */
  ghost predicate Splitting(line: string, parts: seq<Part>, quote: Quote, start: nat, i: nat, op: string) {
    start <= i <= |line| && Split(line) == parts + SplitFrom(line[i..], quote, line[start..i], op)
  }

  /** A position passed over, alone or with the character it escapes. */
  lemma {:induction false} SplitsOn(line: string, parts: seq<Part>, quote: Quote, start: nat, i: nat, op: string)
    requires Splitting(line, parts, quote, start, i, op) && i < |line|
    requires quote != Bare || line[i] == '\\' || OperatorAt(line[i..]) == ""
    ensures if line[i] == '\\' && quote != Single then
              Splitting(line, parts, quote, start, if i + 1 < |line| then i + 2 else |line|, op)
            else Splitting(line, parts, AfterChar(quote, line[i]), start, i + 1, op)
  {
    var next := if line[i] == '\\' && quote != Single && i + 1 < |line| then i + 2 else i + 1;
    StepOver(line, start, i, next);
    assert |line[i..]| == 1 ==> line[i..][..1] == line[i..];
    assert next == |line| ==> line[next..] == "";
  }

  lemma {:induction false} SplitsHere(line: string, parts: seq<Part>, start: nat, i: nat, op: string)
    requires Splitting(line, parts, Bare, start, i, op) && i < |line| && OperatorAt(line[i..]) != ""
    ensures var hit := OperatorAt(line[i..]);
            i + |hit| <= |line| && Splitting(line, parts + [Part(op, line[start..i])], Bare, i + |hit|, i + |hit|, hit)
  {
    var hit, rest := OperatorAt(line[i..]), line[i..];
    assert rest[|hit|..] == line[i + |hit|..] && line[i + |hit|..i + |hit|] == "";
    CutHere(parts, rest, line[start..i], op);
  }

  lemma {:induction false} SplitsAtEnd(line: string, parts: seq<Part>, quote: Quote, start: nat, op: string)
    requires Splitting(line, parts, quote, start, |line|, op)
    ensures Split(line) == parts + [Part(op, line[start..])] && Join(Split(line)) == line
  {
    assert line[start..|line|] == line[start..] && line[|line|..] == "";
    SplitLossless(line, Bare, "", "");
    assert "" + "" + line == line;
  }

  /** `split`, position by position. */
  method SplitLine(line: string) returns (parts: seq<Part>)
    ensures parts == Split(line)
    ensures Join(parts) == line
  {
    parts := [];
    var quote, start: nat, op := Bare, 0, "";
    var i: nat := 0;
    assert line[0..] == line && line[0..0] == "";
    while i < |line|
      invariant Splitting(line, parts, quote, start, i, op)
      decreases |line| - i
    {
      var ch := line[i];
      if ch == '\\' && quote != Single {
        SplitsOn(line, parts, quote, start, i, op);
        i := if i + 1 < |line| then i + 2 else |line|;
      } else if quote != Bare || ch == '\'' || ch == '"' {
        SplitsOn(line, parts, quote, start, i, op);
        quote := AfterChar(quote, ch);
        i := i + 1;
      } else {
        var hit := OperatorAt(line[i..]);
        if hit != "" {
          SplitsHere(line, parts, start, i, op);
          parts := parts + [Part(op, line[start..i])];
          op := hit;
          i := i + |hit|;
          start := i;
        } else {
          SplitsOn(line, parts, quote, start, i, op);
          i := i + 1;
        }
      }
    }
    SplitsAtEnd(line, parts, quote, start, op);
    parts := parts + [Part(op, line[start..])];
  }

  lemma {:induction false} CutHere(parts: seq<Part>, rest: string, cur: string, op: string)
    requires OperatorAt(rest) != ""
    ensures parts + SplitFrom(rest, Bare, cur, op) ==
            (parts + [Part(op, cur)]) + SplitFrom(rest[|OperatorAt(rest)|..], Bare, "", OperatorAt(rest))
  {
    var after := SplitFrom(rest[|OperatorAt(rest)|..], Bare, "", OperatorAt(rest));
    assert SplitFrom(rest, Bare, cur, op) == [Part(op, cur)] + after;
    assert parts + ([Part(op, cur)] + after) == (parts + [Part(op, cur)]) + after;
  }

  lemma {:induction false} StepOver(line: string, start: nat, i: nat, next: nat)
    requires start <= i <= next <= |line|
    ensures line[i..][next - i..] == line[next..]
    ensures line[start..i] + line[i..][..next - i] == line[start..next]
  {
  }

  /** `tokenise`, position by position. */
  method TokeniseText(text: string) returns (t: Tokenised)
    ensures t == Tokenise(text)
    ensures t.error.None? <==> Scan(text, Bare).0 == Bare
    ensures t.substitution <==> Substitutes(text, Bare)
  {
    var st := Fresh;
    var i := 0;
    while i < |text|
      invariant i <= |text|
      invariant Lex(text, Fresh) == Lex(text[i..], st)
    {
      var ch := text[i];
      if ch == '\\' && st.quote != Single && i + 1 < |text| {
        assert text[i..][2..] == text[i + 2..];
        st := st.(cur := st.cur + [text[i + 1]], inToken := true);
        i := i + 2;
      } else {
        assert text[i..][1..] == text[i + 1..];
        st := LexChar(st, ch, i + 1 < |text| && text[i + 1] == '(');
        i := i + 1;
      }
    }
    LexTracksQuotes(text, Fresh);
    LexSeesSubstitution(text, Fresh);
    t := Finished(st);
  }
}
