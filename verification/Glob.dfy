/**
 * The two memoised token matchers: `globToken` of packages/agent-tools/src/scanner.ts, where `*` and `?` are special,
 * and `hookGlob` of packages/config/src/command-pattern.ts, where `*` alone is. `wild` tells them apart.
 */
module Glob {
  /** What the pattern means: each of its characters stands for one piece, and the pieces make up the token. */
  predicate Stands(ch: char, piece: string, wild: bool) {
    ch == '*' || (if ch == '?' && wild then |piece| == 1 else piece == [ch])
  }

  ghost predicate Covers(pattern: string, pieces: seq<string>, wild: bool) {
    |pieces| == |pattern| && forall i :: 0 <= i < |pattern| ==> Stands(pattern[i], pieces[i], wild)
  }

  function Concat(pieces: seq<string>): string {
    if pieces == [] then "" else pieces[0] + Concat(pieces[1..])
  }

  ghost predicate Denotes(pattern: string, token: string, wild: bool) {
    exists pieces: seq<string> :: Covers(pattern, pieces, wild) && Concat(pieces) == token
  }

  /** The recursion of the matchers, without the memo. */
  predicate Matches(pattern: string, token: string, wild: bool)
    decreases |pattern| + |token|
  {
    if pattern == "" then token == ""
    else if pattern[0] == '*' then
      Matches(pattern[1..], token, wild) || (token != "" && Matches(pattern, token[1..], wild))
    else
      token != "" && ((pattern[0] == '?' && wild) || pattern[0] == token[0]) && Matches(pattern[1..], token[1..], wild)
  }

  lemma {:induction false} MatchesHasPieces(pattern: string, token: string, wild: bool) returns (pieces: seq<string>)
    requires Matches(pattern, token, wild)
    ensures Covers(pattern, pieces, wild) && Concat(pieces) == token
    decreases |pattern| + |token|
  {
    if pattern == "" {
      pieces := [];
    } else if pattern[0] == '*' && !Matches(pattern[1..], token, wild) {
      var shorter := MatchesHasPieces(pattern, token[1..], wild);
      pieces := [[token[0]] + shorter[0]] + shorter[1..];
      assert token == [token[0]] + token[1..];
    } else {
      var first := if pattern[0] == '*' then "" else [token[0]];
      var rest := MatchesHasPieces(pattern[1..], token[|first|..], wild);
      pieces := [first] + rest;
      assert token == first + token[|first|..];
    }
  }

  lemma {:induction false} PiecesMatch(pattern: string, pieces: seq<string>, wild: bool)
    requires Covers(pattern, pieces, wild)
    ensures Matches(pattern, Concat(pieces), wild)
    decreases |pattern| + |Concat(pieces)|
  {
    if pattern != "" {
      var first, rest := pieces[0], pieces[1..];
      assert Stands(pattern[0], first, wild);
      if pattern[0] == '*' && first != "" {
        var shorter := [first[1..]] + rest;
        assert shorter[1..] == rest;
        assert Concat(pieces)[1..] == Concat(shorter);
        PiecesMatch(pattern, shorter, wild);
      } else {
        assert Concat(pieces)[|first|..] == Concat(rest);
        PiecesMatch(pattern[1..], rest, wild);
      }
    }
  }

  lemma {:induction false} MatchesIsDenotes(pattern: string, token: string, wild: bool)
    ensures Matches(pattern, token, wild) <==> Denotes(pattern, token, wild)
  {
    if Matches(pattern, token, wild) {
      var pieces := MatchesHasPieces(pattern, token, wild);
    }
    if Denotes(pattern, token, wild) {
      var pieces :| Covers(pattern, pieces, wild) && Concat(pieces) == token;
      PiecesMatch(pattern, pieces, wild);
    }
  }

  /** Without a `?` the two matchers are one. */
  lemma {:induction false} AgreeWithoutQuestionMark(pattern: string, token: string)
    requires '?' !in pattern
    ensures Matches(pattern, token, true) == Matches(pattern, token, false)
    decreases |pattern| + |token|
  {
    if pattern != "" {
      if pattern[0] == '*' {
        AgreeWithoutQuestionMark(pattern[1..], token);
      }
      if token != "" {
        AgreeWithoutQuestionMark(if pattern[0] == '*' then pattern else pattern[1..], token[1..]);
      }
    }
  }

  /** A `?` tells them apart, on some token, wherever it stands in the pattern. */
  lemma {:induction false} QuestionMarkTellsApart(pattern: string, at: nat) returns (token: string)
    requires at < |pattern| && pattern[at] == '?'
    ensures Matches(pattern, token, true) && !Matches(pattern, token, false)
    decreases |pattern|
  {
    token := Filled(pattern);
    FilledMatches(pattern);
    FilledHasNone(pattern);
    LiteralOccurs(pattern, token, at);
  }

  /** The pattern with each `*` dropped and each `?` filled by a character of no other use in it. */
  function Filled(pattern: string): string {
    if pattern == "" then ""
    else (if pattern[0] == '*' then "" else if pattern[0] == '?' then "!" else [pattern[0]]) + Filled(pattern[1..])
  }

  lemma {:induction false} FilledMatches(pattern: string)
    ensures Matches(pattern, Filled(pattern), true)
    decreases |pattern|
  {
    if pattern != "" {
      FilledMatches(pattern[1..]);
      assert Filled(pattern)[if pattern[0] == '*' then 0 else 1..] == Filled(pattern[1..]);
    }
  }

  lemma {:induction false} LiteralOccurs(pattern: string, token: string, at: nat)
    requires at < |pattern| && pattern[at] == '?'
    ensures Matches(pattern, token, false) ==> '?' in token
    decreases |pattern| + |token|
  {
    if !Matches(pattern, token, false) {
    } else if pattern[0] == '*' {
      if Matches(pattern[1..], token, false) {
        LiteralOccurs(pattern[1..], token, at - 1);
      } else {
        LiteralOccurs(pattern, token[1..], at);
      }
    } else if at > 0 {
      LiteralOccurs(pattern[1..], token[1..], at - 1);
    }
  }

  lemma {:induction false} FilledHasNone(pattern: string)
    ensures '?' !in Filled(pattern)
  {
    if pattern != "" {
      FilledHasNone(pattern[1..]);
    }
  }

  type Memo = map<(nat, nat), bool>

  /** Every entry is the answer for the suffixes its key names. */
  ghost predicate SoundMemo(memo: Memo, pattern: string, token: string, wild: bool) {
    forall k :: k in memo ==>
      k.0 <= |pattern| && k.1 <= |token| && memo[k] == Matches(pattern[k.0..], token[k.1..], wild)
  }

  method Go(pattern: string, token: string, wild: bool, p: nat, t: nat, before: Memo) returns (r: bool, memo: Memo)
    requires p <= |pattern| && t <= |token| && SoundMemo(before, pattern, token, wild)
    ensures r == Matches(pattern[p..], token[t..], wild)
    ensures SoundMemo(memo, pattern, token, wild)
    decreases |pattern| - p + |token| - t
  {
    memo := before;
    if (p, t) in memo {
      return memo[(p, t)], memo;
    }
    if p == |pattern| {
      r := t == |token|;
    } else if pattern[p] == '*' {
      r, memo := Go(pattern, token, wild, p + 1, t, memo);
      assert pattern[p..][1..] == pattern[p + 1..];
      if !r && t < |token| {
        assert token[t..][1..] == token[t + 1..];
        r, memo := Go(pattern, token, wild, p, t + 1, memo);
      }
    } else if t < |token| && ((pattern[p] == '?' && wild) || pattern[p] == token[t]) {
      assert pattern[p..][1..] == pattern[p + 1..] && token[t..][1..] == token[t + 1..];
      r, memo := Go(pattern, token, wild, p + 1, t + 1, memo);
    } else {
      r := false;
    }
    memo := memo[(p, t) := r];
  }

  method GlobToken(pattern: string, token: string) returns (r: bool)
    ensures r <==> Denotes(pattern, token, true)
    ensures r == Matches(pattern, token, true)
  {
    var memo;
    r, memo := Go(pattern, token, true, 0, 0, map[]);
    assert pattern[0..] == pattern && token[0..] == token;
    MatchesIsDenotes(pattern, token, true);
  }

  method HookGlob(pattern: string, candidate: string) returns (r: bool)
    ensures r <==> Denotes(pattern, candidate, false)
    ensures r == Matches(pattern, candidate, false)
  {
    var memo;
    r, memo := Go(pattern, candidate, false, 0, 0, map[]);
    assert pattern[0..] == pattern && candidate[0..] == candidate;
    MatchesIsDenotes(pattern, candidate, false);
  }
}
