/**
 * packages/config/src/instructions.ts: the byte-budgeted merge of instruction files. Text is a sequence of Unicode
 * scalar values, each as many bytes as section 3 of RFC 3629 gives it.
 */
module Instructions {
  import Scanner
  import opened Wrappers

  function CharBytes(ch: char): nat {
    if ch < '\U{0080}' then 1 else if ch < '\U{0800}' then 2 else if ch < '\U{10000}' then 3 else 4
  }

  function Bytes(text: string): nat {
    if text == "" then 0 else Bytes(text[..|text| - 1]) + CharBytes(text[|text| - 1])
  }

  lemma {:induction false} BytesAppend(a: string, b: string)
    ensures Bytes(a + b) == Bytes(a) + Bytes(b)
    decreases b
  {
    if b == "" {
      assert a + b == a;
    } else {
      assert (a + b)[..|a + b| - 1] == a + b[..|b| - 1];
      BytesAppend(a, b[..|b| - 1]);
    }
  }

  lemma {:induction false} PrefixBytes(text: string, n: nat, m: nat)
    requires n <= m <= |text|
    ensures Bytes(text[..n]) <= Bytes(text[..m])
  {
    assert text[..m] == text[..n] + text[n..m];
    BytesAppend(text[..n], text[n..m]);
  }

  // ---- whole lines within a budget ---------------------------------------------------------

  /** A prefix of whole lines ends here: after a newline, or at the end of the text. */
  predicate LineEnd(text: string, n: nat)
    requires n <= |text|
  {
    n == |text| || (n > 0 && text[n - 1] == '\n')
  }

  predicate Fits(text: string, budget: int, n: nat)
    requires n <= |text|
  {
    LineEnd(text, n) && Bytes(text[..n]) <= budget
  }

  /** The longest prefix of whole lines that fits the budget. */
  function LongestFit(text: string, budget: int): Option<string> {
    LongestUpTo(text, budget, |text|)
  }

  function LongestUpTo(text: string, budget: int, n: nat): Option<string>
    requires n <= |text|
  {
    if Fits(text, budget, n) then Some(text[..n])
    else if n == 0 then None
    else LongestUpTo(text, budget, n - 1)
  }

  lemma {:induction false} LongestIs(text: string, budget: int, from: nat, n: nat)
    requires n <= from <= |text| && Fits(text, budget, n)
    requires forall m :: n < m <= from ==> !Fits(text, budget, m)
    ensures LongestUpTo(text, budget, from) == Some(text[..n])
    decreases from
  {
    if from > n {
      LongestIs(text, budget, from - 1, n);
    }
  }

  lemma {:induction false} NoneFits(text: string, budget: int, from: nat)
    requires from <= |text| && forall m :: 0 <= m <= from ==> !Fits(text, budget, m)
    ensures LongestUpTo(text, budget, from) == None
    decreases from
  {
    if from > 0 {
      NoneFits(text, budget, from - 1);
    }
  }

  /**
   * What it answers is a prefix of whole lines that fits, no longer one fits, and it answers none only when none does.
   */
  lemma {:induction false} LongestFound(text: string, budget: int, from: nat) returns (n: nat)
    requires from <= |text|
    ensures match LongestUpTo(text, budget, from)
            case Some(out) =>
              n <= from && out == text[..n] && Fits(text, budget, n)
              && forall m :: n < m <= from ==> !Fits(text, budget, m)
            case None => forall m :: 0 <= m <= from ==> !Fits(text, budget, m)
    decreases from
  {
    if Fits(text, budget, from) || from == 0 {
      n := from;
    } else {
      n := LongestFound(text, budget, from - 1);
    }
  }

  /** Cutting to one budget and then to another is cutting once to the smaller. */
  lemma {:induction false} CutTwiceIsCutOnce(text: string, first: int, second: int)
    ensures var smaller := if first <= second then first else second;
            LongestFit(text, smaller) ==
              match LongestFit(text, first) { case None => None case Some(out) => LongestFit(out, second) }
  {
    var smaller := if first <= second then first else second;
    var n := LongestFound(text, first, |text|);
    forall m | 0 <= m <= |text| && !Fits(text, first, m) ensures !Fits(text, smaller, m) {}
    match LongestFit(text, first) {
      case None => NoneFits(text, smaller, |text|);
      case Some(out) =>
        forall m | 0 <= m <= n ensures Fits(out, second, m) <==> Fits(text, smaller, m) {
          SamePrefixFits(text, first, second, n, m);
        }
        var k := LongestFound(out, second, n);
        forall m | n < m <= |text| ensures !Fits(text, smaller, m) { assert !Fits(text, first, m); }
        if LongestFit(out, second).Some? {
          assert Fits(text, smaller, k) && out[..k] == text[..k];
          forall m | k < m <= |text| ensures !Fits(text, smaller, m) { assert m <= n ==> !Fits(out, second, m); }
          LongestIs(text, smaller, |text|, k);
        } else {
          forall m | 0 <= m <= |text| ensures !Fits(text, smaller, m) { assert m <= n ==> !Fits(out, second, m); }
          NoneFits(text, smaller, |text|);
        }
    }
  }

  lemma {:induction false} SamePrefixFits(text: string, first: int, second: int, n: nat, m: nat)
    requires m <= n <= |text| && Fits(text, first, n)
    ensures Fits(text[..n], second, m) <==> Fits(text, if first <= second then first else second, m)
  {
    assert text[..n][..m] == text[..m];
    PrefixBytes(text, m, n);
  }

  // ---- lines -------------------------------------------------------------------------------

  function IndexOfNewline(text: string): (i: nat)
    ensures i <= |text| && (i < |text| ==> text[i] == '\n')
    ensures forall j :: 0 <= j < i ==> text[j] != '\n'
  {
    if text == "" || text[0] == '\n' then 0 else 1 + IndexOfNewline(text[1..])
  }

  /** The text split at its newlines. */
  function Lines(text: string): (lines: seq<string>)
    ensures lines != []
    decreases |text|
  {
    var i := IndexOfNewline(text);
    if i == |text| then [text] else [text[..i]] + Lines(text[i + 1..])
  }

  function Joined(lines: seq<string>): string {
    if lines == [] then "" else if |lines| == 1 then lines[0] else lines[0] + "\n" + Joined(lines[1..])
  }

  ghost predicate NoNewline(line: string) {
    forall j :: 0 <= j < |line| ==> line[j] != '\n'
  }

  lemma {:induction false} LinesJoin(text: string)
    ensures Joined(Lines(text)) == text
    ensures forall i :: 0 <= i < |Lines(text)| ==> NoNewline(Lines(text)[i])
    decreases |text|
  {
    var i := IndexOfNewline(text);
    if i < |text| {
      LinesJoin(text[i + 1..]);
      assert text == text[..i] + "\n" + text[i + 1..];
    }
  }

  /** No prefix of whole lines ends inside the next piece. */
  lemma {:induction false} NextLineEnd(text: string, out: string, piece: string, rest: string, m: nat)
    requires text == out + piece + rest && |out| < m < |out| + |piece|
    requires forall j :: 0 <= j < |piece| - 1 ==> piece[j] != '\n'
    ensures !LineEnd(text, m)
  {
    assert text[m - 1] == piece[m - 1 - |out|];
  }

  /** A line with its newline, but for the last. */
  function Piece(lines: seq<string>, i: nat): string
    requires i < |lines|
  {
    if i < |lines| - 1 then lines[i] + "\n" else lines[i]
  }

  lemma {:induction false} PieceSplits(lines: seq<string>, i: nat)
    requires i < |lines| && NoNewline(lines[i])
    ensures Joined(lines[i..]) == Piece(lines, i) + Joined(lines[i + 1..])
    ensures OnePiece(Piece(lines, i), Joined(lines[i + 1..]))
  {
    assert lines[i..][1..] == lines[i + 1..];
  }

  /** One line's text: a newline only at its end, and there unless it is the last. */
  ghost predicate OnePiece(piece: string, rest: string) {
    && (forall j :: 0 <= j < |piece| - 1 ==> piece[j] != '\n')
    && (piece != "" ==> rest == "" || piece[|piece| - 1] == '\n')
    && (piece == "" ==> rest == "")
  }

  /** What has been gathered so far ends at a line and fits. */
  ghost predicate Gathered(text: string, budget: int, out: string, rest: string) {
    text == out + rest && (out == "" || (LineEnd(text, |out|) && Bytes(out) <= budget))
  }

  lemma {:induction false} GatherPiece(text: string, budget: int, out: string, piece: string, rest: string)
    requires Gathered(text, budget, out, piece + rest) && Bytes(out) + Bytes(piece) <= budget
    requires OnePiece(piece, rest)
    ensures Gathered(text, budget, out + piece, rest) && Bytes(out + piece) == Bytes(out) + Bytes(piece)
  {
    BytesAppend(out, piece);
    assert out + (piece + rest) == out + piece + rest;
    if piece != "" {
      assert text[|out + piece| - 1] == piece[|piece| - 1];
    }
  }

  /** Everything gathered, the text over its budget after all: the text is empty and so is the answer. */
  lemma {:induction false} StoppedAtEnd(text: string, budget: int, out: string)
    requires Gathered(text, budget, out, "") && Bytes(text) > budget
    ensures out == "" && LongestFit(text, budget) == None
  {
    assert out == text;
    NoneFits(text, budget, |text|);
  }

  lemma {:induction false} PastThePiece(text: string, budget: int, out: string, piece: string, rest: string, m: nat)
    requires text == out + piece + rest && OnePiece(piece, rest) && Bytes(out + piece) > budget
    requires |out| < m <= |text|
    ensures !Fits(text, budget, m)
  {
    if m < |out| + |piece| {
      NextLineEnd(text, out, piece, rest, m);
    } else {
      assert text[..|out + piece|] == out + piece;
      PrefixBytes(text, |out + piece|, m);
    }
  }

  lemma {:induction false} GatheredIsLongest(text: string, budget: int, out: string, rest: string)
    requires Gathered(text, budget, out, rest) && Bytes(text) > budget
    requires forall m :: |out| < m <= |text| ==> !Fits(text, budget, m)
    ensures LongestFit(text, budget) == if out == "" then None else Some(out)
  {
    if out == "" {
      assert text == "" ==> text[..0] == text;
      NoneFits(text, budget, |text|);
    } else {
      assert text[..|out|] == out;
      LongestIs(text, budget, |text|, |out|);
    }
  }

  /** The next piece does not fit, so what has been gathered is the longest that does. */
  lemma {:induction false} StopsHere(text: string, budget: int, out: string, piece: string, rest: string)
    requires Gathered(text, budget, out, piece + rest) && OnePiece(piece, rest)
    requires Bytes(text) > budget && Bytes(out) + Bytes(piece) > budget
    ensures LongestFit(text, budget) == if out == "" then None else Some(out)
  {
    assert out + (piece + rest) == out + piece + rest;
    BytesAppend(out, piece);
    forall m | |out| < m <= |text| ensures !Fits(text, budget, m) {
      PastThePiece(text, budget, out, piece, rest, m);
    }
    GatheredIsLongest(text, budget, out, piece + rest);
  }

  /** Between two turns of the loop: the lines from `i` on are what has not been gathered yet. */
  ghost predicate Reading(text: string, budget: int, lines: seq<string>, i: nat, out: string, used: nat) {
    && i <= |lines|
    && used == Bytes(out)
    && (forall j :: 0 <= j < |lines| ==> NoNewline(lines[j]))
    && Gathered(text, budget, out, Joined(lines[i..]))
  }

  lemma {:induction false} ReadingBegins(text: string, budget: int)
    ensures Reading(text, budget, Lines(text), 0, "", 0)
  {
    LinesJoin(text);
    assert Lines(text)[0..] == Lines(text);
  }

  lemma {:induction false} ReadsOn(text: string, budget: int, lines: seq<string>, i: nat, out: string, used: nat)
    requires Reading(text, budget, lines, i, out, used) && i < |lines|
    requires used + Bytes(Piece(lines, i)) <= budget
    ensures Reading(text, budget, lines, i + 1, out + Piece(lines, i), used + Bytes(Piece(lines, i)))
  {
    PieceSplits(lines, i);
    GatherPiece(text, budget, out, Piece(lines, i), Joined(lines[i + 1..]));
  }

  lemma {:induction false} ReadingStops(text: string, budget: int, lines: seq<string>, i: nat, out: string, used: nat)
    requires Reading(text, budget, lines, i, out, used) && Bytes(text) > budget
    requires i == |lines| || used + Bytes(Piece(lines, i)) > budget
    ensures LongestFit(text, budget) == if out == "" then None else Some(out)
  {
    if i == |lines| {
      StoppedAtEnd(text, budget, out);
    } else {
      PieceSplits(lines, i);
      StopsHere(text, budget, out, Piece(lines, i), Joined(lines[i + 1..]));
    }
  }

  method WholeLinesWithin(text: string, budget: int) returns (r: Option<string>)
    ensures r == LongestFit(text, budget)
  {
    if Bytes(text) <= budget {
      assert text[..|text|] == text;
      return Some(text);
    }
    var lines := Lines(text);
    var used: nat, out := 0, "";
    ReadingBegins(text, budget);
    var i := 0;
    while i < |lines|
      invariant Reading(text, budget, lines, i, out, used)
      decreases |lines| - i
    {
      var piece := Piece(lines, i);
      var n := Bytes(piece);
      if used + n > budget { break; }
      ReadsOn(text, budget, lines, i, out, used);
      out := out + piece;
      used := used + n;
      i := i + 1;
    }
    ReadingStops(text, budget, lines, i, out, used);
    r := if out == "" then None else Some(out);
  }

  // ---- one block per file ------------------------------------------------------------------

  /** The text without the newlines it ends in. */
  function DropNewlines(text: string): (r: string)
    ensures |r| <= |text| && r == text[..|r|]
    ensures r == "" || r[|r| - 1] != '\n'
    ensures forall j :: |r| <= j < |text| ==> text[j] == '\n'
  {
    if text != "" && text[|text| - 1] == '\n' then DropNewlines(text[..|text| - 1]) else text
  }

  datatype Contents = Text(raw: string) | Unreadable(error: string)

  datatype File = File(path: string, reading: Contents)

  datatype Warning =
    | NotRead(path: string, error: string)
    | FirstLineOverFileLimit(path: string, limit: int)
    | CutToFileLimit(path: string, limit: int)
    | NoRoom(path: string, total: int)
    | FirstLineOverRoom(path: string, room: int)
    | CutToRoom(path: string, room: int)

  function SourceLine(path: string): string {
    "<!-- source: " + path + " -->\n"
  }

  function JoinBlocks(blocks: seq<string>): string {
    if blocks == [] then ""
    else if |blocks| == 1 then blocks[0]
    else JoinBlocks(blocks[..|blocks| - 1]) + "\n\n" + blocks[|blocks| - 1]
  }

  function Smaller(a: int, b: int): int {
    if a <= b then a else b
  }

  /** The bytes left for a file's text once its source line has joined the blocks before it. */
  function Room(before: seq<string>, path: string, total: int): int {
    total - Bytes(JoinBlocks(before + [SourceLine(path)]))
  }

  /** The whole lines of a file's text that reach the output: one cut, to the smaller of the two limits. */
  function Body(raw: string, perFile: int, room: int): Option<string> {
    if Scanner.Blank(raw) || room <= 0 then None
    else match LongestFit(DropNewlines(raw), Smaller(perFile, room))
      case None => None
      case Some(cut) => Some(DropNewlines(cut))
  }

  function BlockOf(before: seq<string>, file: File, perFile: int, total: int): seq<string> {
    match file.reading
    case Unreadable(_) => []
    case Text(raw) =>
      match Body(raw, perFile, Room(before, file.path, total))
      case None => []
      case Some(body) => [SourceLine(file.path) + body]
  }

  /** What the merge keeps of the files, in discovery order. */
  function Blocks(files: seq<File>, perFile: int, total: int): seq<string> {
    if files == [] then []
    else
      var before := Blocks(files[..|files| - 1], perFile, total);
      before + BlockOf(before, files[|files| - 1], perFile, total)
  }

  function FileWarnings(before: seq<string>, file: File, perFile: int, total: int): seq<Warning> {
    match file.reading
    case Unreadable(error) => [NotRead(file.path, error)]
    case Text(raw) =>
      if Scanner.Blank(raw) then []
      else TextWarnings(file.path, DropNewlines(raw), perFile, total, Room(before, file.path, total))
  }

  function TextWarnings(path: string, content: string, perFile: int, total: int, room: int): seq<Warning> {
    match LongestFit(content, perFile)
    case None => [FirstLineOverFileLimit(path, perFile)]
    case Some(capped) =>
      (if capped == content then [] else [CutToFileLimit(path, perFile)]) +
      (if room <= 0 then [NoRoom(path, total)]
       else match LongestFit(capped, room)
         case None => [FirstLineOverRoom(path, room)]
         case Some(fitted) => if fitted == capped then [] else [CutToRoom(path, room)])
  }

  function Warnings(files: seq<File>, perFile: int, total: int): seq<Warning> {
    if files == [] then []
    else
      var earlier := files[..|files| - 1];
      Warnings(earlier, perFile, total) +
        FileWarnings(Blocks(earlier, perFile, total), files[|files| - 1], perFile, total)
  }

  lemma {:induction false} JoinOneMore(blocks: seq<string>, head: string, body: string)
    ensures Bytes(JoinBlocks(blocks + [head + body])) ==
            Bytes(JoinBlocks(blocks)) + (if blocks == [] then 0 else 2) + Bytes(head) + Bytes(body)
  {
    BytesAppend(head, body);
    if blocks != [] {
      assert (blocks + [head + body])[..|blocks|] == blocks;
      BytesAppend(JoinBlocks(blocks) + "\n\n", head + body);
      BytesAppend(JoinBlocks(blocks), "\n\n");
      assert "\n\n"[..1] == "\n" && "\n"[..0] == "";
    }
  }

  lemma {:induction false} RoomLeft(before: seq<string>, path: string, total: int)
    ensures Room(before, path, total) ==
            total - Bytes(JoinBlocks(before)) - ((if before == [] then 0 else 2) + Bytes(SourceLine(path)))
  {
    JoinOneMore(before, SourceLine(path), "");
    assert SourceLine(path) + "" == SourceLine(path);
  }

  /** A body ends where a line of the file ends, carries no newline there, and fits both limits. */
  lemma {:induction false} BodyIsWholeLines(raw: string, perFile: int, room: int)
    requires Body(raw, perFile, room).Some?
    ensures var body, content := Body(raw, perFile, room).value, DropNewlines(raw);
            && |body| <= |content| && body == content[..|body|]
            && (|body| == |content| || content[|body|] == '\n')
            && (body == "" || body[|body| - 1] != '\n')
            && Bytes(body) <= Smaller(perFile, room)
  {
    var content, limit := DropNewlines(raw), Smaller(perFile, room);
    var n := LongestFound(content, limit, |content|);
    var body := DropNewlines(content[..n]);
    assert content[..n][..|body|] == content[..|body|];
    PrefixBytes(content, |body|, n);
  }

  /** No longer run of whole lines of the file would have fitted. */
  lemma {:induction false} BodyIsLongest(raw: string, perFile: int, room: int, m: nat)
    requires !Scanner.Blank(raw) && room > 0
    requires m <= |DropNewlines(raw)| && Fits(DropNewlines(raw), Smaller(perFile, room), m)
    ensures Body(raw, perFile, room).Some?
    ensures DropNewlines(DropNewlines(raw)[..m]) <= Body(raw, perFile, room).value
  {
    var content, limit := DropNewlines(raw), Smaller(perFile, room);
    var n := LongestFound(content, limit, |content|);
    assert m <= n;
    var short, long := DropNewlines(content[..m]), DropNewlines(content[..n]);
    assert short != "" ==> content[|short| - 1] != '\n';
    assert forall j :: |long| <= j < n ==> content[..n][j] == content[j] == '\n';
    assert short == content[..|short|] && long == content[..|long|];
  }

  lemma {:induction false} BlockStaysWithin(before: seq<string>, file: File, perFile: int, total: int)
    requires Bytes(JoinBlocks(before)) <= total || before == []
    ensures BlockOf(before, file, perFile, total) != [] ==>
              Bytes(JoinBlocks(before + BlockOf(before, file, perFile, total))) <= total
  {
    if file.reading.Text? {
      var room := Room(before, file.path, total);
      var body := Body(file.reading.raw, perFile, room);
      if body.Some? {
        BodyIsWholeLines(file.reading.raw, perFile, room);
        RoomLeft(before, file.path, total);
        JoinOneMore(before, SourceLine(file.path), body.value);
      }
    }
  }

  /** The merged text never exceeds the total, in bytes; under a negative total nothing is merged. */
  lemma {:induction false} NeverOverTotal(files: seq<File>, perFile: int, total: int)
    ensures Bytes(JoinBlocks(Blocks(files, perFile, total))) <= total || Blocks(files, perFile, total) == []
  {
    if files != [] {
      var earlier, last := files[..|files| - 1], files[|files| - 1];
      NeverOverTotal(earlier, perFile, total);
      var before := Blocks(earlier, perFile, total);
      BlockStaysWithin(before, last, perFile, total);
      if BlockOf(before, last, perFile, total) == [] {
        assert Blocks(files, perFile, total) == before;
      }
    }
  }

  /** Every cut and every drop warns: a readable file is passed in silence exactly when it is blank or kept whole. */
  lemma {:induction false} SilentIffWholeOrBlank(before: seq<string>, file: File, perFile: int, total: int)
    requires file.reading.Text?
    ensures FileWarnings(before, file, perFile, total) == [] <==>
            (Scanner.Blank(file.reading.raw)
             || BlockOf(before, file, perFile, total) == [SourceLine(file.path) + DropNewlines(file.reading.raw)])
  {
    var content, room := DropNewlines(file.reading.raw), Room(before, file.path, total);
    CutTwiceIsCutOnce(content, perFile, room);
    var n := LongestFound(content, Smaller(perFile, room), |content|);
    var whole := SourceLine(file.path) + content;
    if LongestFit(content, Smaller(perFile, room)).Some? {
      var cut := content[..n];
      assert DropNewlines(content) == content;
      if cut != content {
        assert |DropNewlines(cut)| < |content|;
        assert |SourceLine(file.path) + DropNewlines(cut)| < |whole|;
      }
      var k := LongestFound(content, perFile, |content|);
    }
  }

  /** One turn of the merge: what the file adds, what that costs, and what is said about it. */
  method MergeFile(before: seq<string>, used: int, file: File, perFile: int, total: int)
      returns (block: seq<string>, cost: int, said: seq<Warning>)
    requires used == Bytes(JoinBlocks(before))
    ensures block == BlockOf(before, file, perFile, total)
    ensures used + cost == Bytes(JoinBlocks(before + block))
    ensures said == FileWarnings(before, file, perFile, total)
  {
    block, cost, said := [], 0, [];
    assert before + [] == before;
    if file.reading.Unreadable? {
      said := [NotRead(file.path, file.reading.error)];
      return;
    }
    if Scanner.Blank(file.reading.raw) { return; }
    var content := DropNewlines(file.reading.raw);
    var capped := WholeLinesWithin(content, perFile);
    var separator := if before == [] then 0 else 2;
    var head := separator + Bytes(SourceLine(file.path));
    var remaining := total - used - head;
    RoomLeft(before, file.path, total);
    CutTwiceIsCutOnce(content, perFile, remaining);
    if capped.None? {
      said := [FirstLineOverFileLimit(file.path, perFile)];
      return;
    }
    if capped.value != content { said := [CutToFileLimit(file.path, perFile)]; }
    if remaining <= 0 {
      said := said + [NoRoom(file.path, total)];
      return;
    }
    var fitted := WholeLinesWithin(capped.value, remaining);
    if fitted.None? {
      said := said + [FirstLineOverRoom(file.path, remaining)];
      return;
    }
    if fitted.value != capped.value { said := said + [CutToRoom(file.path, remaining)]; }
    var body := DropNewlines(fitted.value);
    block := [SourceLine(file.path) + body];
    cost := head + Bytes(body);
    JoinOneMore(before, SourceLine(file.path), body);
  }

  method MergeInstructionContext(files: seq<File>, perFile: int, total: int)
      returns (merged: string, warnings: seq<Warning>)
    ensures merged == JoinBlocks(Blocks(files, perFile, total))
    ensures warnings == Warnings(files, perFile, total)
    ensures total >= 0 ==> Bytes(merged) <= total
  {
    var blocks: seq<string> := [];
    var used := 0;
    warnings := [];
    var i := 0;
    while i < |files|
      invariant i <= |files|
      invariant blocks == Blocks(files[..i], perFile, total)
      invariant used == Bytes(JoinBlocks(blocks))
      invariant warnings == Warnings(files[..i], perFile, total)
    {
      var file := files[i];
      assert files[..i + 1][..i] == files[..i];
      ghost var before := blocks;
      var block, cost, said := MergeFile(blocks, used, file, perFile, total);
      blocks := blocks + block;
      used := used + cost;
      warnings := warnings + said;
      i := i + 1;
    }
    assert files[..i] == files;
    NeverOverTotal(files, perFile, total);
    merged := JoinBlocks(blocks);
  }
}
