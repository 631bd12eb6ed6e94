/**
 * What the merge of packages/config/src/instructions.ts keeps of each file and says about it, in the file's own lines
 * and in bytes of UTF-8.
 */
module InstructionLaws {
  import opened Instructions
  import Scanner
  import opened Wrappers

  // ---- bytes -------------------------------------------------------------------------------

  /** The octets of a scalar value, after the table in section 3 of RFC 3629. */
  function Utf8(ch: char): seq<int> {
    var n := ch as int;
    if n <= 0x7F then [n]
    else if n <= 0x7FF then [0xC0 + n / 64, 0x80 + n % 64]
    else if n <= 0xFFFF then [0xE0 + n / 64 / 64, 0x80 + n / 64 % 64, 0x80 + n % 64]
    else [0xF0 + n / 64 / 64 / 64, 0x80 + n / 64 / 64 % 64, 0x80 + n / 64 % 64, 0x80 + n % 64]
  }

  /** The value the octets carry: the first says how many there are, and each that follows has six more bits. */
  function Decoded(octets: seq<int>): int {
    if |octets| == 1 then octets[0]
    else if |octets| == 2 then (octets[0] - 0xC0) * 64 + (octets[1] - 0x80)
    else if |octets| == 3 then ((octets[0] - 0xE0) * 64 + (octets[1] - 0x80)) * 64 + (octets[2] - 0x80)
    else if |octets| == 4 then
      (((octets[0] - 0xF0) * 64 + (octets[1] - 0x80)) * 64 + (octets[2] - 0x80)) * 64 + (octets[3] - 0x80)
    else -1
  }

  lemma {:induction false} Utf8Decodes(ch: char)
    ensures Decoded(Utf8(ch)) == ch as int && |Utf8(ch)| == CharBytes(ch)
  {
  }

  function Encoded(text: string): seq<int> {
    if text == "" then [] else Encoded(text[..|text| - 1]) + Utf8(text[|text| - 1])
  }

  /** The measure of the budgets is the length of the text encoded. */
  lemma {:induction false} BytesAreOctets(text: string)
    ensures Bytes(text) == |Encoded(text)|
  {
    if text != "" {
      BytesAreOctets(text[..|text| - 1]);
      Utf8Decodes(text[|text| - 1]);
    }
  }

  // ---- one file ----------------------------------------------------------------------------

  function Header(path: string): string {
    "<!-- source: " + path + " -->\n"
  }

  /** The bytes of the output with the file's text added under its source line. */
  function With(before: seq<string>, path: string, text: string): nat {
    Bytes(JoinBlocks(before + [Header(path) + text]))
  }

  lemma {:induction false} WithIs(before: seq<string>, path: string, text: string)
    ensures With(before, path, text) == With(before, path, "") + Bytes(text)
    ensures Room(before, path, 0) + With(before, path, "") == 0
  {
    JoinOneMore(before, Header(path), text);
    JoinOneMore(before, Header(path), "");
    assert Header(path) + "" == Header(path) == SourceLine(path);
  }

  lemma {:induction false} RoomIs(before: seq<string>, path: string, total: int)
    ensures Room(before, path, total) == total - With(before, path, "")
  {
    WithIs(before, path, "");
  }

  /** A run of whole lines of the file that either limit allows. */
  ghost predicate Allowed(before: seq<string>, path: string, content: string, perFile: int, total: int, n: nat)
    requires n <= |content|
  {
    LineEnd(content, n) && Bytes(content[..n]) <= perFile && With(before, path, content[..n]) <= total
  }

  lemma {:induction false} AllowedIsFits(before: seq<string>, path: string, content: string, perFile: int, total: int,
      n: nat)
    requires n <= |content|
    ensures Allowed(before, path, content, perFile, total, n) <==>
            Fits(content, Smaller(perFile, Room(before, path, total)), n)
  {
    RoomIs(before, path, total);
    WithIs(before, path, content[..n]);
  }

  /**
   * A file is kept exactly when it says something, the output has room past its source line, and some run of its whole
   * lines is allowed. It is then one block, of the longest such run without the newlines it ends in.
   */
  lemma {:induction false} BlockIsLongest(before: seq<string>, path: string, raw: string, perFile: int, total: int)
    returns (n: nat)
    ensures n <= |DropNewlines(raw)|
    ensures var content, block := DropNewlines(raw), BlockOf(before, File(path, Text(raw)), perFile, total);
            if Scanner.Blank(raw) || total <= With(before, path, "")
               || forall m :: 0 <= m <= |content| ==> !Allowed(before, path, content, perFile, total, m)
            then block == []
            else
              && Allowed(before, path, content, perFile, total, n)
              && (forall m :: n < m <= |content| ==> !Allowed(before, path, content, perFile, total, m))
              && block == [Header(path) + DropNewlines(content[..n])]
  {
    var content, room := DropNewlines(raw), Room(before, path, total);
    RoomIs(before, path, total);
    n := LongestFound(content, Smaller(perFile, room), |content|);
    if LongestFit(content, Smaller(perFile, room)).None? {
      n := 0;
    }
    forall m | 0 <= m <= |content|
      ensures Allowed(before, path, content, perFile, total, m) <==> Fits(content, Smaller(perFile, room), m)
    {
      AllowedIsFits(before, path, content, perFile, total, m);
    }
  }

  lemma {:induction false} UnreadableIsNone(before: seq<string>, path: string, error: string, perFile: int, total: int)
    ensures BlockOf(before, File(path, Unreadable(error)), perFile, total) == []
    ensures FileWarnings(before, File(path, Unreadable(error)), perFile, total) == [NotRead(path, error)]
  {
  }

  // ---- the warnings ------------------------------------------------------------------------

  /** Some run of whole lines fits the file's own limit. */
  ghost predicate SomeFits(content: string, limit: int) {
    exists m :: 0 <= m <= |content| && Fits(content, limit, m)
  }

  lemma {:induction false} LongestSome(content: string, limit: int)
    ensures LongestFit(content, limit).Some? <==> SomeFits(content, limit)
    ensures LongestFit(content, limit) == Some(content) <==> Bytes(content) <= limit
  {
    var n := LongestFound(content, limit, |content|);
    assert content[..|content|] == content;
    if LongestFit(content, limit) == Some(content) {
      assert |content[..n]| == n;
    }
  }

  /** The second cut, to the room there is. */
  lemma {:induction false} SecondCut(content: string, perFile: int, room: int)
    requires LongestFit(content, perFile).Some?
    ensures LongestFit(LongestFit(content, perFile).value, room) == LongestFit(content, Smaller(perFile, room))
    ensures LongestFit(content, Smaller(perFile, room)).Some? <==> SomeFits(content, Smaller(perFile, room))
  {
    CutTwiceIsCutOnce(content, perFile, room);
    LongestSome(content, Smaller(perFile, room));
  }

  /**
   * What is said of a file that says something: its first line is over its own limit, or it was cut to it; and then
   * that there is no room for it, or not for its first line, or that it was cut to the room there is.
   */
  ghost function Said(path: string, content: string, perFile: int, total: int, room: int): seq<Warning> {
    if !SomeFits(content, perFile) then [FirstLineOverFileLimit(path, perFile)]
    else
      (if Bytes(content) <= perFile then [] else [CutToFileLimit(path, perFile)]) +
      (if room <= 0 then [NoRoom(path, total)]
       else if !SomeFits(content, Smaller(perFile, room)) then [FirstLineOverRoom(path, room)]
       else if LongestFit(content, perFile) == LongestFit(content, Smaller(perFile, room)) then []
       else [CutToRoom(path, room)])
  }

  lemma {:induction false} TextWarnedAs(path: string, content: string, perFile: int, total: int, room: int)
    ensures TextWarnings(path, content, perFile, total, room) ==
            Said(path, content, perFile, total, room)
  {
    LongestSome(content, perFile);
    if LongestFit(content, perFile).Some? {
      SecondCut(content, perFile, room);
    }
  }

  /** A file that says something is warned about just so. */
  lemma {:induction false} WarnedAs(before: seq<string>, file: File, raw: string, perFile: int, total: int, room: int)
    requires file.reading == Text(raw) && !Scanner.Blank(raw) && room == total - With(before, file.path, "")
    ensures FileWarnings(before, file, perFile, total) == Said(file.path, DropNewlines(raw), perFile, total, room)
  {
    RoomIs(before, file.path, total);
    TextWarnedAs(file.path, DropNewlines(raw), perFile, total, room);
  }

  // ---- every file --------------------------------------------------------------------------

  /** Blocks and warnings come in the order of the files, each file's beside those before it. */
  lemma {:induction false} OneMoreFile(files: seq<File>, file: File, perFile: int, total: int)
    ensures var before := Blocks(files, perFile, total);
            && Blocks(files + [file], perFile, total) == before + BlockOf(before, file, perFile, total)
            && Warnings(files + [file], perFile, total) ==
                 Warnings(files, perFile, total) + FileWarnings(before, file, perFile, total)
    ensures Blocks([], perFile, total) == [] && Warnings([], perFile, total) == []
  {
    assert (files + [file])[..|files|] == files;
  }

  /** Blocks are set apart by one empty line. */
  lemma {:induction false} JoinedIs(blocks: seq<string>, last: string)
    ensures JoinBlocks([]) == "" && JoinBlocks([last]) == last
    ensures blocks != [] ==> JoinBlocks(blocks + [last]) == JoinBlocks(blocks) + "\n\n" + last
  {
    assert (blocks + [last])[..|blocks|] == blocks;
  }
}
