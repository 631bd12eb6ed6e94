/**
 * What the matchers of packages/agent-tools/src/scanner.ts and packages/config/src/command-pattern.ts decide, said of
 * the line and of the pattern.
 */
module ShellRules {
  import Glob
  import opened HookPattern
  import opened Scanner
  import opened Wrappers

  // ---- operators and redirections ----------------------------------------------------------

  const OPERATORS: set<string> := {"&&", "||", ";;", ";", "|", "&", "\n"}

  lemma {:induction false} OperatorIsOne(text: string)
    ensures OperatorAt(text) != "" ==> OperatorAt(text) in OPERATORS
    ensures forall op :: op in OPERATORS && op <= text ==> |op| <= |OperatorAt(text)|
  {
    var hit := OperatorAt(text);
    if hit != "" {
      assert |hit| == 1 ==> hit == [text[0]];
      assert |hit| == 2 ==> hit == [text[0], text[1]];
    }
  }

  /** Every part but the first is introduced by an operator, and the first by none. */
  lemma {:induction false} PartsHaveOperators(rest: string, quote: Quote, cur: string, op: string, i: nat)
    requires 0 < i < |SplitFrom(rest, quote, cur, op)|
    ensures SplitFrom(rest, quote, cur, op)[i].operator in OPERATORS
    decreases |rest|
  {
    if rest != "" {
      if rest[0] == '\\' && quote != Single {
        if |rest| > 1 {
          PartsHaveOperators(rest[2..], quote, cur + rest[..2], op, i);
        }
      } else if quote != Bare || OperatorAt(rest) == "" {
        PartsHaveOperators(rest[1..], AfterChar(quote, rest[0]), cur + rest[..1], op, i);
      } else {
        var hit := OperatorAt(rest);
        OperatorIsOne(rest);
        if i > 1 {
          PartsHaveOperators(rest[|hit|..], Bare, "", hit, i - 1);
        }
      }
    }
  }

  predicate IsDigit(ch: char) {
    '0' <= ch <= '9'
  }

  /** Digits up to an angle bracket. */
  ghost predicate AngleAt(token: string, n: nat) {
    n < |token| && (token[n] == '<' || token[n] == '>') && forall i :: 0 <= i < n ==> IsDigit(token[i])
  }

  lemma {:induction false} DigitsThenAngleIs(token: string)
    ensures DigitsThenAngle(token) <==> exists n: nat :: AngleAt(token, n)
  {
    if token != "" {
      var rest := token[1..];
      DigitsThenAngleIs(rest);
      assert forall i :: 0 <= i < |rest| ==> rest[i] == token[i + 1];
      if IsDigit(token[0]) && exists n: nat :: AngleAt(rest, n) {
        var n: nat :| AngleAt(rest, n);
        assert forall i :: 0 < i < n + 1 ==> token[i] == rest[i - 1];
        assert AngleAt(token, n + 1);
      }
      if token[0] == '<' || token[0] == '>' {
        assert AngleAt(token, 0);
      }
      if exists n: nat :: AngleAt(token, n) {
        var n: nat :| AngleAt(token, n);
        if n > 0 {
          assert AngleAt(rest, n - 1);
        }
      }
    }
  }

  lemma {:induction false} RedirectionIs(token: string)
    ensures IsRedirection(token) <==> "&>" <= token || exists n: nat :: AngleAt(token, n)
  {
    DigitsThenAngleIs(token);
    assert "&>" <= token <==> |token| >= 2 && token[0] == '&' && token[1] == '>';
  }

  /** The command is the tokens ahead of the first redirection. */
  lemma {:induction false} CommandIs(tokens: seq<string>)
    ensures var command := BeforeRedirection(tokens);
            && command <= tokens
            && (forall i :: 0 <= i < |command| ==> !IsRedirection(tokens[i]))
            && (|command| < |tokens| ==> IsRedirection(tokens[|command|]))
  {
    if tokens != [] && !IsRedirection(tokens[0]) {
      CommandIs(tokens[1..]);
    }
  }

  const SHELLS: set<string> := {"sh", "bash", "zsh", "dash", "ksh", "fish", "cmd", "powershell", "pwsh"}
  const RUNS_ANOTHER: set<string> := {"eval", "exec", "source", ".", "xargs", "env", "nohup", "time"}

  /** What can be told of a command from its tokens alone. */
  predicate Legible(command: seq<string>) {
    && command != [] && Lower(command[0]) !in RUNS_ANOTHER
    && (Lower(command[0]) in SHELLS ==>
          |command| > 1 && forall i :: 1 <= i < |command| ==> command[i] !in {"-c", "-Command", "/c", "/C"})
  }

  lemma {:induction false} HeadsAre(head: string)
    ensures IsShell(head) <==> head in SHELLS
    ensures IsIndirection(head) <==> head in RUNS_ANOTHER
  {
  }

  /** A text is read with confidence exactly when it is blank, or closed, without substitution, and legible. */
  lemma {:induction false} ConfidentIff(raw: string)
    ensures Classify(raw).None? <==>
            Blank(raw) || (&& Scan(raw, Bare).0 == Bare && !Substitutes(raw, Bare)
                           && Legible(BeforeRedirection(Tokenise(raw).tokens)))
  {
    var command := BeforeRedirection(Tokenise(raw).tokens);
    LexTracksQuotes(raw, Fresh);
    LexSeesSubstitution(raw, Fresh);
    if command != [] {
      HeadsAre(Lower(command[0]));
      assert forall i :: 1 <= i < |command| ==>
          (IsInlineScriptFlag(command[i]) <==> command[i] in {"-c", "-Command", "/c", "/C"});
    }
    if Blank(raw) {
      BlankIsConfident(raw);
    }
  }

  // ---- the pipe matcher --------------------------------------------------------------------

  predicate PipesIntoShell(s: Segment) {
    s.operator == "|" && HeadIsShell(s.tokens)
  }

  predicate HeadIsShell(tokens: seq<string>) {
    tokens != [] && Lower(tokens[0]) in SHELLS
  }

  ghost predicate SomePipes(segments: seq<Segment>) {
    exists i :: 0 <= i < |segments| && PipesIntoShell(segments[i])
  }

  lemma {:induction false} PipesAppend(x: seq<Segment>, y: seq<Segment>)
    ensures SomePipes(x + y) <==> SomePipes(x) || SomePipes(y)
  {
    if SomePipes(x) {
      var i :| 0 <= i < |x| && PipesIntoShell(x[i]);
      assert PipesIntoShell((x + y)[i]);
    }
    if SomePipes(y) {
      var i :| 0 <= i < |y| && PipesIntoShell(y[i]);
      assert PipesIntoShell((x + y)[|x| + i]);
    }
  }

  lemma {:induction false} FiresIsSomePipes(segments: seq<Segment>)
    ensures PipeToShellFires(segments) <==> SomePipes(segments)
  {
    forall s: Segment ensures s.tokens != [] ==> (IsShell(Lower(s.tokens[0])) <==> Lower(s.tokens[0]) in SHELLS) {
      if s.tokens != [] {
        HeadsAre(Lower(s.tokens[0]));
      }
    }
    if SomePipes(segments) {
      var i :| 0 <= i < |segments| && PipesIntoShell(segments[i]);
      assert segments[i] in segments;
    }
    if PipeToShellFires(segments) {
      var s :| s in segments && s.operator == "|" && s.tokens != [] && IsShell(Lower(s.tokens[0]));
      var i :| 0 <= i < |segments| && segments[i] == s;
      assert PipesIntoShell(segments[i]);
    }
  }

  lemma {:induction false} PipeReadsReal(line: string)
    ensures PipeToShellFires(Decompose(line)) <==> SomePipes(RealSegments(Split(line)))
  {
    FiresIsSomePipes(Decompose(line));
  }

  /** The line begins with a shell of its own. */
  predicate BeginsWithShell(line: string) {
    var raw := Split(line)[0].raw;
    !Blank(raw) && HeadIsShell(BeforeRedirection(Tokenise(raw).tokens))
  }

  lemma {:induction false} RealCons(head: Part, more: seq<Part>)
    ensures RealSegments([head] + more) == (if Blank(head.raw) then [] else [SegmentOf(head)]) + RealSegments(more)
  {
    assert ([head] + more)[1..] == more;
  }

  lemma {:induction false} PipesUnderOperator(parts: seq<Part>, op: string)
    requires parts != []
    ensures SomePipes(RealSegments(WithOperator(parts, op))) <==>
            SomePipes(RealSegments(parts[1..]))
            || (op == "|" && !Blank(parts[0].raw) && HeadIsShell(BeforeRedirection(Tokenise(parts[0].raw).tokens)))
  {
    var head := Part(op, parts[0].raw);
    RealCons(head, parts[1..]);
    var first := if Blank(head.raw) then [] else [SegmentOf(head)];
    PipesAppend(first, RealSegments(parts[1..]));
    assert first != [] ==> (SomePipes(first) <==> PipesIntoShell(first[0]));
  }

  /**
   * The pipe matcher fires on `a op b` exactly when it fires on `a` or on `b`, or when the seam itself is a pipe into a
   * shell.
   */
  lemma {:induction false} PipeComposes(a: string, op: string, b: string)
    requires Closed(a) && CleanSeam(a, op, b)
    ensures PipeToShellFires(Decompose(a + op + b)) <==>
            || PipeToShellFires(Decompose(a)) || PipeToShellFires(Decompose(b))
            || (op == "|" && BeginsWithShell(b))
  {
    SegmentsCompose(a, op, b);
    PipesAppend(RealSegments(Split(a)), RealSegments(WithOperator(Split(b), op)));
    PipesUnderOperator(Split(b), op);
    PipesUnderOperator(Split(b), "");
    assert WithOperator(Split(b), "") == Split(b);
    PipeReadsReal(a + op + b);
    PipeReadsReal(a);
    PipeReadsReal(b);
  }

  // ---- patterns that spell their tokens out ------------------------------------------------

  predicate Literal(text: string) {
    '*' !in text && '?' !in text
  }

  lemma {:induction false} LiteralMatches(pattern: string, token: string, wild: bool)
    requires '*' !in pattern && (wild ==> '?' !in pattern)
    ensures Glob.Matches(pattern, token, wild) <==> pattern == token
    decreases |pattern|
  {
    if pattern != "" {
      assert pattern[0] in pattern;
      if token != "" {
        LiteralMatches(pattern[1..], token[1..], wild);
        assert pattern == [pattern[0]] + pattern[1..] && token == [token[0]] + token[1..];
      }
    }
  }

  lemma {:induction false} LowerIsLiteral(text: string)
    requires Literal(text)
    ensures Literal(Lower(text))
  {
    forall ch | ch in Lower(text) ensures ch != '*' && ch != '?' {
      var i :| 0 <= i < |text| && Lower(text)[i] == ch;
      assert text[i] in text;
    }
  }

  /** The command's first tokens are the words given, the case of the very first aside. */
  predicate Begins(words: seq<string>, tokens: seq<string>) {
    |words| <= |tokens|
    && forall i :: 0 <= i < |words| ==>
         if i == 0 then Lower(words[0]) == Lower(tokens[0]) else words[i] == tokens[i]
  }

  /** The word of a pattern at a place matches the token there. */
  predicate WordMatches(words: seq<string>, tokens: seq<string>, i: nat)
    requires i < |words| <= |tokens|
  {
    if i == 0 then Glob.Matches(Lower(words[0]), Lower(tokens[0]), true) else Glob.Matches(words[i], tokens[i], true)
  }

  lemma {:induction false} FixedMatch(words: seq<string>, tokens: seq<string>, i: nat)
    requires i < |words| <= |tokens| && Literal(words[i])
    ensures WordMatches(words, tokens, i) <==>
            if i == 0 then Lower(words[0]) == Lower(tokens[0]) else words[i] == tokens[i]
  {
    LowerIsLiteral(words[i]);
    LiteralMatches(Lower(words[i]), Lower(tokens[i]), true);
    LiteralMatches(words[i], tokens[i], true);
  }

  lemma {:induction false} AllMatch(words: seq<string>, tokens: seq<string>)
    requires forall i :: 0 <= i < |words| ==> Literal(words[i])
    ensures |words| <= |tokens| ==>
              ((forall i :: 0 <= i < |words| ==> WordMatches(words, tokens, i)) <==> Begins(words, tokens))
  {
    if |words| <= |tokens| {
      forall i | 0 <= i < |words|
        ensures WordMatches(words, tokens, i) <==>
                if i == 0 then Lower(words[0]) == Lower(tokens[0]) else words[i] == tokens[i]
      {
        FixedMatch(words, tokens, i);
      }
    }
  }

  lemma {:induction false} TokensMatchIs(pattern: seq<string>, words: seq<string>, tokens: seq<string>, trailing: bool)
    requires trailing <==> pattern != [] && pattern[|pattern| - 1] == "*"
    requires words == if trailing then pattern[..|pattern| - 1] else pattern
    ensures TokensMatch(pattern, tokens) <==>
            && (if trailing then |tokens| >= |words| else |tokens| == |words|)
            && forall i :: 0 <= i < |words| ==> WordMatches(words, tokens, i)
  {
    if |words| <= |tokens| {
      if TokensMatch(pattern, tokens) {
        forall i | 0 <= i < |words| ensures WordMatches(words, tokens, i) {
          assert words[i] == words[i];
        }
      }
      if forall i :: 0 <= i < |words| ==> WordMatches(words, tokens, i) {
        forall i | 0 <= i < |words|
          ensures if i == 0 then Glob.Matches(Lower(words[0]), Lower(tokens[0]), true)
                  else Glob.Matches(words[i], tokens[i], true)
        {
          assert WordMatches(words, tokens, i);
        }
      }
    }
  }

  /**
   * A policy pattern that spells its words out matches the command of just those words, and with a trailing `*` every
   * command that begins with them.
   */
  lemma {:induction false} WordsMatch(words: seq<string>, tokens: seq<string>)
    requires forall i :: 0 <= i < |words| ==> Literal(words[i])
    ensures TokensMatch(words, tokens) <==> Begins(words, tokens) && |tokens| == |words|
    ensures TokensMatch(words + ["*"], tokens) <==> Begins(words, tokens)
  {
    AllMatch(words, tokens);
    StarIsLast(words);
    TokensMatchIs(words, words, tokens, false);
    TokensMatchIs(words + ["*"], words, tokens, true);
  }

  lemma {:induction false} StarIsLast(words: seq<string>)
    requires forall i :: 0 <= i < |words| ==> Literal(words[i])
    ensures words != [] ==> words[|words| - 1] != "*"
    ensures var open := words + ["*"]; open[..|open| - 1] == words && open[|open| - 1] == "*"
  {
    assert '*' in "*";
    if words != [] {
      assert Literal(words[|words| - 1]);
    }
  }

  /** A hook pattern likewise, every word in its own case; an empty one matches nothing. */
  lemma {:induction false} HookWordsMatch(words: seq<string>, tokens: seq<string>)
    requires forall i :: 0 <= i < |words| ==> '*' !in words[i]
    ensures TokensMatchHook(words, tokens) <==> words != [] && tokens == words
    ensures TokensMatchHook(words + ["*"], tokens) <==> words <= tokens
  {
    var open := words + ["*"];
    assert open[|open| - 1] == "*" && '*' in "*";
    assert forall i :: 0 <= i < |words| ==> open[i] == words[i] && words[i] != "*";
    forall i | 0 <= i < |words| && i < |tokens|
      ensures Glob.Matches(words[i], tokens[i], false) <==> words[i] == tokens[i]
    {
      LiteralMatches(words[i], tokens[i], false);
    }
  }

  // ---- the hook's segments -----------------------------------------------------------------

  const SEPARATORS: set<string> := {"&&", "||", ";", "|", "&", "\n"}

  /** Segments and the separators between them, put together. */
  function Joined(segments: seq<string>, separators: seq<string>): string
    requires |segments| == |separators| + 1
  {
    if separators == [] then segments[0]
    else segments[0] + separators[0] + Joined(segments[1..], separators[1..])
  }

  /** No separator stands outside quotes in the text. */
  ghost predicate NoneLoose(text: string) {
    forall k :: 0 <= k < |text| && QuoteAfter(text[..k], Bare) == Bare ==> !IsOperatorChar(text[k])
  }

  ghost predicate Separates(segments: seq<string>, separators: seq<string>, text: string) {
    && |segments| == |separators| + 1 && Joined(segments, separators) == text
    && (forall i :: 0 <= i < |separators| ==> separators[i] in SEPARATORS)
    && (forall i :: 0 <= i < |segments| ==> NoneLoose(segments[i]))
  }

  lemma {:induction false} SeparatorIsOne(rest: string)
    requires SeparatorAt(rest) > 0
    ensures rest[..SeparatorAt(rest)] in SEPARATORS
  {
    if SeparatorAt(rest) == 1 {
      assert rest[..1] == [rest[0]];
    } else {
      assert rest[..2] == [rest[0], rest[1]];
    }
  }

  lemma {:induction false} StillNoneLoose(cur: string, ch: char)
    requires NoneLoose(cur) && (QuoteAfter(cur, Bare) == Bare ==> !IsOperatorChar(ch))
    ensures NoneLoose(cur + [ch])
  {
    var all := cur + [ch];
    assert all[..|cur|] == cur;
    assert forall k :: 0 <= k < |cur| ==> all[..k] == cur[..k] && all[k] == cur[k];
  }

  lemma {:induction false} SeparatesCons(cur: string, separator: string, segments: seq<string>,
      separators: seq<string>, text: string)
    requires Separates(segments, separators, text) && NoneLoose(cur) && separator in SEPARATORS
    ensures Separates([cur] + segments, [separator] + separators, cur + separator + text)
  {
    assert ([cur] + segments)[1..] == segments && ([separator] + separators)[1..] == separators;
  }

  /** The hook side's segments lose nothing but the separators, which stand outside quotes and nowhere else. */
  lemma {:induction false} SegmentsLoseNothing(rest: string, quote: Quote, cur: string)
    returns (separators: seq<string>)
    requires QuoteAfter(cur, Bare) == quote && NoneLoose(cur)
    ensures Separates(SegmentFrom(rest, quote, cur), separators, cur + rest)
    decreases |rest|
  {
    if rest == "" {
      separators := [];
      assert cur + rest == cur;
    } else if quote != Bare || rest[0] == '\'' || rest[0] == '"' || SeparatorAt(rest) == 0 {
      QuoteSnoc(cur, rest[0], Bare);
      StillNoneLoose(cur, rest[0]);
      MovedOver(cur, rest, 1);
      assert rest[..1] == [rest[0]];
      separators := SegmentsLoseNothing(rest[1..], AfterChar(quote, rest[0]), cur + rest[..1]);
    } else {
      var n := SeparatorAt(rest);
      SeparatorIsOne(rest);
      var more := SegmentsLoseNothing(rest[n..], Bare, "");
      assert "" + rest[n..] == rest[n..];
      SeparatesCons(cur, rest[..n], SegmentFrom(rest[n..], Bare, ""), more, rest[n..]);
      MovedOver(cur, rest, n);
      separators := [rest[..n]] + more;
    }
  }
}
