/**
 * What the two tokenisers read, said of the words a line spells: packages/agent-tools/src/scanner.ts and
 * packages/config/src/command-pattern.ts.
 */
module ShellWords {
  import opened HookPattern
  import opened Scanner
  import opened Wrappers

  /** A character spelled as itself, or behind a backslash. */
  datatype Glyph = Itself(ch: char) | Escaped(ch: char)

  /** A piece of a word: one character outside quotes, or a text within them. */
  datatype Piece = Loose(glyph: Glyph) | Singled(text: string) | Doubled(glyphs: seq<Glyph>)

  type Word = seq<Piece>

  /** A word and the blanks before it. */
  datatype Spaced = Spaced(gap: string, word: Word)

  function GlyphText(g: Glyph): string {
    if g.Itself? then [g.ch] else ['\\', g.ch]
  }

  function GlyphsText(glyphs: seq<Glyph>): string {
    if glyphs == [] then "" else GlyphText(glyphs[0]) + GlyphsText(glyphs[1..])
  }

  function GlyphsMean(glyphs: seq<Glyph>): string {
    if glyphs == [] then "" else [glyphs[0].ch] + GlyphsMean(glyphs[1..])
  }

  function PieceText(p: Piece): string {
    match p
    case Loose(g) => GlyphText(g)
    case Singled(text) => "'" + text + "'"
    case Doubled(glyphs) => "\"" + GlyphsText(glyphs) + "\""
  }

  function PieceMeans(p: Piece): string {
    match p
    case Loose(g) => [g.ch]
    case Singled(text) => text
    case Doubled(glyphs) => GlyphsMean(glyphs)
  }

  function WordText(w: Word): string {
    if w == [] then "" else PieceText(w[0]) + WordText(w[1..])
  }

  function WordMeans(w: Word): string {
    if w == [] then "" else PieceMeans(w[0]) + WordMeans(w[1..])
  }

  /** The line the words spell, with `end` after the last. */
  function LineText(words: seq<Spaced>, end: string): string {
    if words == [] then end else words[0].gap + WordText(words[0].word) + LineText(words[1..], end)
  }

  function LineMeans(words: seq<Spaced>): seq<string> {
    if words == [] then [] else [WordMeans(words[0].word)] + LineMeans(words[1..])
  }

  predicate AllIn(text: string, chars: set<char>) {
    forall i :: 0 <= i < |text| ==> text[i] in chars
  }

  /** How a scanner is to be spelled for: its blanks, and whether a backslash escapes. */
  datatype Style = Style(blanks: set<char>, escapes: bool)

  const Shell := Style({' ', '\t', '\r'}, true)
  const Hook := Style({' ', '\t', '\r', '\n'}, false)

  predicate FairGlyph(g: Glyph, ends: set<char>, style: Style) {
    if style.escapes then g.Itself? ==> g.ch !in ends && g.ch != '\\' else g.Itself? && g.ch !in ends
  }

  predicate FairPiece(p: Piece, style: Style) {
    match p
    case Loose(g) => FairGlyph(g, style.blanks + {'\'', '"'}, style)
    case Singled(text) => '\'' !in text
    case Doubled(glyphs) => forall i :: 0 <= i < |glyphs| ==> FairGlyph(glyphs[i], {'"'}, style)
  }

  predicate FairWord(w: Word, style: Style) {
    w != [] && forall i :: 0 <= i < |w| ==> FairPiece(w[i], style)
  }

  /** Inside a substitution the scanner does not begin a word at a parenthesis. */
  predicate BeginsAWord(w: Word) {
    w != [] && w[0] != Loose(Itself('(')) && w[0] != Loose(Itself(')'))
  }

  predicate FairLine(words: seq<Spaced>, end: string, style: Style) {
    && AllIn(end, style.blanks)
    && (forall i :: 0 <= i < |words| ==> AllIn(words[i].gap, style.blanks) && FairWord(words[i].word, style))
    && (forall i :: 0 < i < |words| ==> words[i].gap != "")
  }

  // ---- the shell scanner -------------------------------------------------------------------

  /** Lexing has gathered `more` onto the token at hand, and stands in `quote`. */
  ghost predicate Gathered(st: Lexer, next: Lexer, more: string, quote: Quote) {
    next.tokens == st.tokens && next.cur == st.cur + more && next.inToken && next.quote == quote
  }

  lemma {:induction false} LexOne(ch: char, rest: string, st: Lexer)
    requires ch != '\\' || st.quote == Single
    ensures Lex([ch] + rest, st) == Lex(rest, LexChar(st, ch, rest != "" && rest[0] == '('))
  {
    assert ([ch] + rest)[1..] == rest;
    assert rest != "" ==> ([ch] + rest)[1] == rest[0];
  }

  lemma {:induction false} LexEscape(ch: char, rest: string, st: Lexer)
    requires st.quote != Single
    ensures Lex(['\\', ch] + rest, st) == Lex(rest, st.(cur := st.cur + [ch], inToken := true))
  {
    assert (['\\', ch] + rest)[2..] == rest;
  }

  lemma {:induction false} LexSingled(text: string, rest: string, st: Lexer) returns (next: Lexer)
    requires '\'' !in text && st.quote == Single && st.inToken
    ensures Lex(text + "'" + rest, st) == Lex(rest, next) && Gathered(st, next, text, Bare)
    decreases |text|
  {
    if text == "" {
      LexOne('\'', rest, st);
      next := LexChar(st, '\'', rest != "" && rest[0] == '(');
      assert text + "'" + rest == ['\''] + rest;
    } else {
      var ch, more := text[0], text[1..];
      assert text + "'" + rest == [ch] + (more + "'" + rest);
      assert ch in text && ch != '\'';
      LexOne(ch, more + "'" + rest, st);
      next := LexSingled(more, rest, st.(cur := st.cur + [ch]));
      assert st.cur + [ch] + more == st.cur + text;
    }
  }

  lemma {:induction false} LexGlyph(g: Glyph, rest: string, st: Lexer) returns (next: Lexer)
    requires st.quote == Double && st.inToken && FairGlyph(g, {'"'}, Shell)
    ensures Lex(GlyphText(g) + rest, st) == Lex(rest, next) && Gathered(st, next, [g.ch], Double)
  {
    if g.Itself? {
      LexOne(g.ch, rest, st);
      next := LexChar(st, g.ch, rest != "" && rest[0] == '(');
    } else {
      LexEscape(g.ch, rest, st);
      next := st.(cur := st.cur + [g.ch], inToken := true);
    }
  }

  lemma {:induction false} GlyphsCons(glyphs: seq<Glyph>, before: string, rest: string)
    requires glyphs != []
    ensures GlyphsText(glyphs) + "\"" + rest == GlyphText(glyphs[0]) + (GlyphsText(glyphs[1..]) + "\"" + rest)
    ensures before + GlyphsMean(glyphs) == before + [glyphs[0].ch] + GlyphsMean(glyphs[1..])
  {
  }

  lemma {:induction false} LexClosing(rest: string, st: Lexer) returns (next: Lexer)
    requires st.quote == Double && st.inToken
    ensures Lex("" + "\"" + rest, st) == Lex(rest, next) && Gathered(st, next, "", Bare)
  {
    assert "" + "\"" + rest == ['"'] + rest && st.cur + "" == st.cur;
    LexOne('"', rest, st);
    next := LexChar(st, '"', rest != "" && rest[0] == '(');
  }

  lemma {:induction false} LexDoubled(glyphs: seq<Glyph>, rest: string, st: Lexer) returns (next: Lexer)
    requires st.quote == Double && st.inToken
    requires forall i :: 0 <= i < |glyphs| ==> FairGlyph(glyphs[i], {'"'}, Shell)
    ensures Lex(GlyphsText(glyphs) + "\"" + rest, st) == Lex(rest, next)
    ensures Gathered(st, next, GlyphsMean(glyphs), Bare)
    decreases |glyphs|
  {
    if glyphs == [] {
      next := LexClosing(rest, st);
    } else {
      GlyphsCons(glyphs, st.cur, rest);
      var one := LexGlyph(glyphs[0], GlyphsText(glyphs[1..]) + "\"" + rest, st);
      next := LexDoubled(glyphs[1..], rest, one);
    }
  }

  lemma {:induction false} LexLoose(g: Glyph, rest: string, st: Lexer) returns (next: Lexer)
    requires st.quote == Bare && FairGlyph(g, Shell.blanks + {'\'', '"'}, Shell)
    requires st.inToken || (g != Itself('(') && g != Itself(')'))
    ensures Lex(GlyphText(g) + rest, st) == Lex(rest, next) && Gathered(st, next, [g.ch], Bare)
  {
    if g.Itself? {
      LexOne(g.ch, rest, st);
      next := LexChar(st, g.ch, rest != "" && rest[0] == '(');
    } else {
      LexEscape(g.ch, rest, st);
      next := st.(cur := st.cur + [g.ch], inToken := true);
    }
  }

  lemma {:induction false} LexPiece(p: Piece, rest: string, st: Lexer) returns (next: Lexer)
    requires st.quote == Bare && FairPiece(p, Shell)
    requires st.inToken || (p != Loose(Itself('(')) && p != Loose(Itself(')')))
    ensures Lex(PieceText(p) + rest, st) == Lex(rest, next) && Gathered(st, next, PieceMeans(p), Bare)
  {
    match p {
      case Loose(g) => next := LexLoose(g, rest, st);
      case Singled(text) =>
        LexOne('\'', text + "'" + rest, st);
        assert PieceText(p) + rest == ['\''] + (text + "'" + rest);
        next := LexSingled(text, rest, LexChar(st, '\'', |text + "'" + rest| > 0 && (text + "'" + rest)[0] == '('));
      case Doubled(glyphs) =>
        var more := GlyphsText(glyphs) + "\"" + rest;
        LexOne('"', more, st);
        assert PieceText(p) + rest == ['"'] + more;
        next := LexDoubled(glyphs, rest, LexChar(st, '"', more != "" && more[0] == '('));
    }
  }

  lemma {:induction false} WordCons(w: Word, before: string, rest: string)
    requires w != []
    ensures WordText(w) + rest == PieceText(w[0]) + (WordText(w[1..]) + rest)
    ensures before + WordMeans(w) == before + PieceMeans(w[0]) + WordMeans(w[1..])
  {
  }

  lemma {:induction false} LexWord(w: Word, rest: string, st: Lexer) returns (next: Lexer)
    requires st.quote == Bare && (forall i :: 0 <= i < |w| ==> FairPiece(w[i], Shell))
    requires st.inToken || BeginsAWord(w)
    ensures Lex(WordText(w) + rest, st) == Lex(rest, next) && Gathered(st, next, WordMeans(w), Bare)
    decreases |w|
  {
    if w == [] {
      next := st;
      NothingMore(rest, st.cur);
    } else {
      WordCons(w, st.cur, rest);
      var one := LexPiece(w[0], WordText(w[1..]) + rest, st);
      next := LexWord(w[1..], rest, one);
    }
  }

  lemma {:induction false} NothingMore(rest: string, before: string)
    ensures "" + rest == rest && before + "" == before
  {
  }

  /** The tokens so far, with the one being gathered. */
  function Tokens(st: Lexer): seq<string> {
    if st.inToken then st.tokens + [st.cur] else st.tokens
  }

  /** Between words: outside quotes, and with nothing gathered but a token. */
  ghost predicate Between(st: Lexer) {
    st.quote == Bare && (!st.inToken ==> st.cur == "")
  }

  /** Blanks end the token at hand, if there are any. */
  lemma {:induction false} LexBlank(ch: char, more: string, st: Lexer) returns (next: Lexer)
    requires Between(st) && ch in Shell.blanks
    ensures Lex([ch] + more, st) == Lex(more, next) && Between(next) && Tokens(next) == Tokens(st) && !next.inToken
  {
    LexOne(ch, more, st);
    next := LexChar(st, ch, more != "" && more[0] == '(');
  }

  lemma {:induction false} LexGap(gap: string, rest: string, st: Lexer) returns (next: Lexer)
    requires Between(st) && AllIn(gap, Shell.blanks)
    ensures Lex(gap + rest, st) == Lex(rest, next) && Between(next) && Tokens(next) == Tokens(st)
    ensures gap != "" ==> !next.inToken
    ensures gap == "" ==> next == st
    decreases |gap|
  {
    if gap == "" {
      next := st;
      NothingMore(rest, "");
    } else {
      assert gap + rest == [gap[0]] + (gap[1..] + rest);
      var one := LexBlank(gap[0], gap[1..] + rest, st);
      next := LexGap(gap[1..], rest, one);
    }
  }

  lemma {:induction false} LineCons(words: seq<Spaced>, end: string, before: seq<string>)
    requires words != []
    ensures LineText(words, end) == words[0].gap + (WordText(words[0].word) + LineText(words[1..], end))
    ensures LineText(words, end) == words[0].gap + WordText(words[0].word) + LineText(words[1..], end)
    ensures before + LineMeans(words) == before + [WordMeans(words[0].word)] + LineMeans(words[1..])
  {
  }

  lemma {:induction false} FairRest(words: seq<Spaced>, end: string, style: Style)
    requires words != [] && FairLine(words, end, style)
    ensures FairLine(words[1..], end, style) && (words[1..] != [] ==> words[1..][0].gap != "")
    ensures AllIn(words[0].gap, style.blanks) && FairWord(words[0].word, style)
  {
    assert forall i :: 0 <= i < |words| - 1 ==> words[1..][i] == words[i + 1];
  }

  lemma {:induction false} GatheredToken(spaced: Lexer, read: Lexer, word: string)
    requires !spaced.inToken && spaced.cur == "" && Gathered(spaced, read, word, Bare)
    ensures Between(read) && read.inToken && Tokens(read) == Tokens(spaced) + [word]
  {
    NothingMore(word, "");
  }

  lemma {:induction false} LexLine(words: seq<Spaced>, end: string, st: Lexer) returns (last: Lexer)
    requires Between(st) && FairLine(words, end, Shell)
    requires forall i :: 0 <= i < |words| ==> BeginsAWord(words[i].word)
    requires st.inToken && words != [] ==> words[0].gap != ""
    ensures last == Lex(LineText(words, end), st) && Between(last)
    ensures Tokens(last) == Tokens(st) + LineMeans(words)
    decreases |words|
  {
    if words == [] {
      last := LexGap(end, "", st);
      assert end + "" == end;
    } else {
      var first, rest := words[0], LineText(words[1..], end);
      LineCons(words, end, Tokens(st));
      FairRest(words, end, Shell);
      var spaced := LexGap(first.gap, WordText(first.word) + rest, st);
      var read := LexWord(first.word, rest, spaced);
      GatheredToken(spaced, read, WordMeans(first.word));
      last := LexLine(words[1..], end, read);
    }
  }

  /**
   * The scanner reads back every list of words, however each character is quoted or escaped and whatever blanks stand
   * between.
   */
  lemma {:induction false} ReadsBack(words: seq<Spaced>, end: string)
    requires FairLine(words, end, Shell) && forall i :: 0 <= i < |words| ==> BeginsAWord(words[i].word)
    ensures Tokenise(LineText(words, end)).tokens == LineMeans(words)
    ensures Tokenise(LineText(words, end)).error.None?
  {
    var last := LexLine(words, end, Fresh);
    assert [] + LineMeans(words) == LineMeans(words);
  }

  // ---- the hook reader ---------------------------------------------------------------------

  function ReadOn(st: Reader, text: string): Reader
    decreases |text|
  {
    if text == "" then st else ReadOn(ReadChar(st, text[0]), text[1..])
  }

  lemma {:induction false} ReadOnAppend(st: Reader, a: string, b: string)
    ensures ReadOn(st, a + b) == ReadOn(ReadOn(st, a), b)
    decreases |a|
  {
    if a == "" {
      assert a + b == b;
    } else {
      assert (a + b)[1..] == a[1..] + b;
      ReadOnAppend(ReadChar(st, a[0]), a[1..], b);
    }
  }

  lemma {:induction false} ReadAllIsReadOn(text: string)
    ensures ReadAll(text) == ReadOn(Unread, text)
  {
    if text != "" {
      var front, last := text[..|text| - 1], text[|text| - 1];
      ReadAllIsReadOn(front);
      ReadOnAppend(Unread, front, [last]);
      assert front + [last] == text && [last][1..] == "";
      assert ReadOn(ReadOn(Unread, front), [last]) == ReadChar(ReadOn(Unread, front), last);
    }
  }

  lemma {:induction false} ReadOnOne(st: Reader, ch: char)
    ensures ReadOn(st, [ch]) == ReadChar(st, ch)
  {
    assert [ch][1..] == "";
  }

  /** Within quotes all but the closing one is gathered. */
  lemma {:induction false} ReadQuoted(st: Reader, text: string, close: char)
    requires st.quote == (if close == '\'' then Single else Double) && (close == '\'' || close == '"')
    requires close !in text
    ensures ReadOn(st, text + [close]) == st.(cur := st.cur + text, quote := Bare)
    decreases |text|
  {
    if text == "" {
      assert text + [close] == [close] && st.cur + text == st.cur;
      ReadOnOne(st, close);
    } else {
      assert text[0] in text && (text + [close])[1..] == text[1..] + [close];
      ReadQuoted(st.(cur := st.cur + [text[0]]), text[1..], close);
      assert st.cur + [text[0]] + text[1..] == st.cur + text;
    }
  }

  lemma {:induction false} GlyphsAreText(glyphs: seq<Glyph>)
    requires forall i :: 0 <= i < |glyphs| ==> FairGlyph(glyphs[i], {'"'}, Hook)
    ensures GlyphsText(glyphs) == GlyphsMean(glyphs) && '"' !in GlyphsMean(glyphs)
  {
    if glyphs != [] {
      GlyphsAreText(glyphs[1..]);
    }
  }

  lemma {:induction false} ReadPiece(st: Reader, p: Piece)
    requires st.quote == Bare && FairPiece(p, Hook)
    ensures ReadOn(st, PieceText(p)) == st.(cur := st.cur + PieceMeans(p), inToken := true)
  {
    match p {
      case Loose(g) => ReadOnOne(st, g.ch);
      case Singled(text) =>
        ReadOnOne(st, '\'');
        assert "'" + text + "'" == ['\''] + (text + ['\'']);
        ReadOnAppend(st, ['\''], text + ['\'']);
        ReadQuoted(ReadChar(st, '\''), text, '\'');
      case Doubled(glyphs) =>
        GlyphsAreText(glyphs);
        ReadOnOne(st, '"');
        var text := GlyphsMean(glyphs);
        assert "\"" + GlyphsText(glyphs) + "\"" == ['"'] + (text + ['"']);
        ReadOnAppend(st, ['"'], text + ['"']);
        ReadQuoted(ReadChar(st, '"'), text, '"');
    }
  }

  lemma {:induction false} ReadWord(st: Reader, w: Word)
    requires st.quote == Bare && (forall i :: 0 <= i < |w| ==> FairPiece(w[i], Hook)) && (st.inToken || w != [])
    ensures ReadOn(st, WordText(w)) == st.(cur := st.cur + WordMeans(w), inToken := true)
    decreases |w|
  {
    if w == [] {
      NothingMore("", st.cur);
    } else {
      WordCons(w, st.cur, "");
      NothingMore("", WordText(w));
      NothingMore("", WordText(w[1..]));
      ReadOnAppend(st, PieceText(w[0]), WordText(w[1..]));
      ReadPiece(st, w[0]);
      ReadWord(st.(cur := st.cur + PieceMeans(w[0]), inToken := true), w[1..]);
    }
  }

  function Read(st: Reader): seq<string> {
    if st.inToken then st.tokens + [st.cur] else st.tokens
  }

  ghost predicate AtRest(st: Reader) {
    st.quote == Bare && (!st.inToken ==> st.cur == "")
  }

  lemma {:induction false} ReadGap(st: Reader, gap: string)
    requires AtRest(st) && AllIn(gap, Hook.blanks)
    ensures var next := ReadOn(st, gap);
            AtRest(next) && Read(next) == Read(st) && (gap != "" ==> !next.inToken) && (gap == "" ==> next == st)
    decreases |gap|
  {
    if gap != "" {
      ReadGap(ReadChar(st, gap[0]), gap[1..]);
    }
  }

  lemma {:induction false} ReadLine(st: Reader, words: seq<Spaced>, end: string)
    requires AtRest(st) && FairLine(words, end, Hook) && (st.inToken && words != [] ==> words[0].gap != "")
    ensures var last := ReadOn(st, LineText(words, end));
            AtRest(last) && Read(last) == Read(st) + LineMeans(words)
    decreases |words|
  {
    if words == [] {
      ReadGap(st, end);
    } else {
      var first, rest := words[0], LineText(words[1..], end);
      LineCons(words, end, Read(st));
      FairRest(words, end, Hook);
      ReadOnAppend(st, first.gap + WordText(first.word), rest);
      ReadOnAppend(st, first.gap, WordText(first.word));
      ReadGap(st, first.gap);
      var spaced := ReadOn(st, first.gap);
      ReadWord(spaced, first.word);
      NothingMore(WordMeans(first.word), "");
      ReadLine(ReadOn(spaced, WordText(first.word)), words[1..], end);
    }
  }

  /** So does the hook reader, to which a backslash is a character like any other, and a line break a blank. */
  lemma {:induction false} HookReadsBack(words: seq<Spaced>, end: string)
    requires FairLine(words, end, Hook)
    ensures HookTokens(LineText(words, end)) == Some(LineMeans(words))
  {
    ReadAllIsReadOn(LineText(words, end));
    ReadLine(Unread, words, end);
    assert [] + LineMeans(words) == LineMeans(words);
  }
}
