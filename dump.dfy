/** The hex/ASCII dump that SniffPacket.SetHexData writes for a frame
    (SniffPacket.cs), as a function of the frame's bytes, with a reader that
    recovers the bytes from the text and the facts proved about both.

    Layout: sixteen bytes per line. A line is "0x", a label, ": ", the hex
    column (each byte as two lower-case digits and a space), one space, the
    ASCII column (bytes 33..126 as themselves, everything else as '.') and a
    newline. The label of full line k is k*10, zero-padded to four digits.
    The short last line pads its hex column to 49 characters (full lines
    have 48) and computes its label with C#'s truncating division, so a
    dump of fewer than 16 bytes is labelled 0010. */
module Dump {
  import opened Text
  import opened Wrappers

  // ------------------------------------------------------------- the format

  /** One byte as b.ToString("x").PadLeft(2, '0'). */
  function HexByte(b: Byte): (r: string)
    ensures r == [HexDigit(b / 16, false), HexDigit(b % 16, false)]
  {
    var x := if b < 16 then [HexDigit(b, false)] else [HexDigit(b / 16, false), HexDigit(b % 16, false)];
    PadLeft(x, 2, '0')
  }

  /** What the ASCII column shows for one byte. */
  function AsciiChar(b: Byte): (c: char)
    ensures c != '\n' && c != ' '
    ensures 33 <= b <= 126 ==> c as int == b
    ensures !(33 <= b <= 126) ==> c == '.'
  {
    if 33 <= b <= 126 then b as char else '.'
  }

  /** The hex column of a group of bytes. */
  function HexText(c: seq<Byte>): (r: string)
    ensures |r| == 3 * |c|
  {
    if c == [] then "" else HexText(c[..|c| - 1]) + HexByte(c[|c| - 1]) + " "
  }

  /** The ASCII column of a group of bytes. */
  function AsciiText(c: seq<Byte>): (r: string)
    ensures |r| == |c|
  {
    if c == [] then "" else AsciiText(c[..|c| - 1]) + [AsciiChar(c[|c| - 1])]
  }

  /** C#'s integer division, which truncates toward zero; Dafny's own
      division rounds toward negative infinity for a negative dividend. */
  function TruncDiv(a: int, b: int): (q: int)
    requires b > 0
    ensures a >= 0 ==> q == a / b
    ensures -b < a < 0 ==> q == 0
  {
    if a >= 0 then a / b else -((-a) / b)
  }

  /** n.ToString().PadLeft(4, '0'). */
  function Label(n: nat): (r: string)
    ensures AllDigits(r) && 4 <= |r|
  {
    PadLeft(Decimal(n), 4, '0')
  }

  /** A label reads back as the number it was made from: the zeros in
      front do not change its value. */
  lemma LabelValue(n: nat)
    ensures ParseNat(Label(n)) == Some(n)
  {
    var s := Decimal(n);
    DecimalRoundTrip(n);
    LeadingZerosValue(|Label(n)| - |s|, s);
  }

  /** The label the source computes when byte n completes a full line:
      (n - 16) / 16 * 10 with truncating division. */
  function FullLabel(n: nat): nat
    requires 1 <= n
  {
    TruncDiv(n - 16, 16) * 10
  }

  /** The label the source computes for the short last line of an n-byte
      dump: ((n - 16) / 16 + 1) * 10 with truncating division. */
  function FinalLabel(n: nat): nat
    requires 1 <= n
  {
    (TruncDiv(n - 16, 16) + 1) * 10
  }

  /** One line of the dump: "0x", the label, ": ", the hex column, a space,
      the ASCII column and a newline. */
  function Line(tag: string, hex: string, ascii: string): string
  {
    "0x" + tag + ": " + hex + " " + ascii + "\n"
  }

  /** Full line k, holding bytes 16k .. 16k+15. */
  function FullLine(k: nat, chunk: seq<Byte>): string
    requires |chunk| == 16
  {
    Line(Label(k * 10), HexText(chunk), AsciiText(chunk))
  }

  /** The short last line of an n-byte dump. */
  function FinalLine(n: nat, chunk: seq<Byte>): string
    requires 0 < |chunk| < 16 && |chunk| <= n
  {
    Line(Label(FinalLabel(n)), PadRight(HexText(chunk), 49, ' '), AsciiText(chunk))
  }

  /** The number of lines in the dump of n bytes. */
  function LineCount(n: nat): nat
  {
    (n + 15) / 16
  }

  /** The bytes shown on line k: sixteen of them, or what is left over for
      the last line. */
  function Chunk(b: seq<Byte>, k: nat): (c: seq<Byte>)
    requires k < LineCount(|b|)
    ensures 0 < |c| <= 16
    ensures |c| == 16 <==> 16 * k + 16 <= |b|
  {
    if 16 * k + 16 <= |b| then b[16 * k..16 * k + 16] else b[16 * k..|b|]
  }

  /** Line k of the dump of b. */
  function DumpLine(b: seq<Byte>, k: nat): string
    requires k < LineCount(|b|)
  {
    var c := Chunk(b, k);
    if |c| == 16 then FullLine(k, c) else FinalLine(|b|, c)
  }

  /** The first k lines of the dump of b. */
  function DumpUpTo(b: seq<Byte>, k: nat): string
    requires k <= LineCount(|b|)
  {
    if k == 0 then "" else DumpUpTo(b, k - 1) + DumpLine(b, k - 1)
  }

  /** The first line + 1 lines are the first `line` lines and line `line`. */
  lemma DumpUpToStep(b: seq<Byte>, line: nat, next: nat)
    requires next == line + 1 <= LineCount(|b|)
    ensures DumpUpTo(b, next) == DumpUpTo(b, line) + DumpLine(b, line)
  {
  }

  /** The lines of the dump of b, one string per line. */
  function DumpLines(b: seq<Byte>): (lines: seq<string>)
    ensures |lines| == LineCount(|b|)
  {
    seq(LineCount(|b|), k requires 0 <= k < LineCount(|b|) => DumpLine(b, k))
  }

  /** The bytes of the first k lines of the dump of b, line by line. */
  function ChunksUpTo(b: seq<Byte>, k: nat): (chunks: seq<seq<Byte>>)
    requires k <= LineCount(|b|)
    ensures |chunks| == k
  {
    if k == 0 then [] else ChunksUpTo(b, k - 1) + [Chunk(b, k - 1)]
  }

  /** The bytes of each line of the dump of b. */
  function Chunks(b: seq<Byte>): (chunks: seq<seq<Byte>>)
    ensures |chunks| == LineCount(|b|)
  {
    ChunksUpTo(b, LineCount(|b|))
  }

  /** The first k lines, one after another, are the first k lines of the
      dump. */
  lemma {:induction false} LinesText(b: seq<Byte>, k: nat)
    requires k <= LineCount(|b|)
    ensures Concat(DumpLines(b)[..k]) == DumpUpTo(b, k)
  {
    if k > 0 {
      var j := k - 1;
      LinesText(b, j);
      ConcatStep(DumpLines(b), j, k, DumpLine(b, j), DumpUpTo(b, j));
      DumpUpToStep(b, j, k);
    }
  }

  /** One more part, appended to what the parts before it give. */
  lemma ConcatStep(parts: seq<string>, j: nat, k: nat, x: string, prev: string)
    requires k == j + 1 <= |parts| && parts[j] == x
    requires Concat(parts[..j]) == prev
    ensures Concat(parts[..k]) == prev + x
  {
    assert parts[..k] == parts[..j] + [x];
    ConcatSnoc(parts[..j], x);
  }

  /** Chunk j of the first k chunks is the bytes of line j. */
  lemma {:induction false} ChunkAt(b: seq<Byte>, k: nat, j: nat)
    requires j < k <= LineCount(|b|)
    ensures ChunksUpTo(b, k)[j] == Chunk(b, j)
  {
    if j < k - 1 {
      ChunkAt(b, k - 1, j);
    }
  }

  /** The whole dump: its lines, one after another. */
  function HexDump(b: seq<Byte>): string
  {
    DumpUpTo(b, LineCount(|b|))
  }

  /** The bytes of a list of chunks, one after another. */
  function Flatten(chunks: seq<seq<Byte>>): seq<Byte>
  {
    if chunks == [] then [] else Flatten(chunks[..|chunks| - 1]) + chunks[|chunks| - 1]
  }

  lemma FlattenSnoc(chunks: seq<seq<Byte>>, c: seq<Byte>)
    ensures Flatten(chunks + [c]) == Flatten(chunks) + c
  {
    assert (chunks + [c])[..|chunks|] == chunks;
  }

  /** The first k lines hold the first 16k bytes (all of them, for the last
      line). */
  lemma {:induction false} FlattenChunks(b: seq<Byte>, k: nat)
    requires k <= LineCount(|b|)
    ensures Flatten(ChunksUpTo(b, k)) == b[..if 16 * k <= |b| then 16 * k else |b|]
  {
    if k == 0 {
      assert b[..0] == [];
    } else {
      var m := if 16 * k <= |b| then 16 * k else |b|;
      var c := Chunk(b, k - 1);
      assert c == b[16 * (k - 1)..m];
      calc {
        Flatten(ChunksUpTo(b, k));
        Flatten(ChunksUpTo(b, k - 1) + [c]);
        { FlattenSnoc(ChunksUpTo(b, k - 1), c); }
        Flatten(ChunksUpTo(b, k - 1)) + c;
        { FlattenChunks(b, k - 1); }
        b[..16 * (k - 1)] + b[16 * (k - 1)..m];
        b[..m];
      }
    }
  }

  // ---------------------------------------------------------- column facts

  lemma {:induction false} HexTextAt(c: seq<Byte>, j: nat)
    requires j < |c|
    ensures HexText(c)[3 * j] == HexDigit(c[j] / 16, false)
    ensures HexText(c)[3 * j + 1] == HexDigit(c[j] % 16, false)
    ensures HexText(c)[3 * j + 2] == ' '
    decreases |c|
  {
    var init := c[..|c| - 1];
    assert HexText(c) == HexText(init) + HexByte(c[|c| - 1]) + " ";
    if j < |c| - 1 {
      HexTextAt(init, j);
      assert c[j] == init[j];
    }
  }

  lemma {:induction false} AsciiTextAt(c: seq<Byte>, j: nat)
    requires j < |c|
    ensures AsciiText(c)[j] == AsciiChar(c[j])
    decreases |c|
  {
    if j < |c| - 1 {
      AsciiTextAt(c[..|c| - 1], j);
    }
  }

  // --------------------------------------------------------------- reading

  /** The number of hex-digit pairs at h, h+3, h+6, ... from group j on,
      at most 16. */
  function HexGroups(s: string, h: nat, j: nat): (c: nat)
    requires j <= 16
    ensures j <= c <= 16
    decreases 16 - j
  {
    if j < 16 && h + 3 * j + 1 < |s| && IsHexDigit(s[h + 3 * j]) && IsHexDigit(s[h + 3 * j + 1])
    then HexGroups(s, h, j + 1)
    else j
  }

  /** The bytes written by hex groups j .. c-1. */
  function ReadGroups(s: string, h: nat, j: nat, c: nat): seq<Byte>
    decreases c - j
  {
    if j < c && h + 3 * j + 1 < |s| && IsHexDigit(s[h + 3 * j]) && IsHexDigit(s[h + 3 * j + 1])
    then [HexValue(s[h + 3 * j]) * 16 + HexValue(s[h + 3 * j + 1])] + ReadGroups(s, h, j + 1, c)
    else []
  }

  /** Reads a dump back into bytes, line by line: skip "0x", the label and
      ": ", read the hex pairs, and step over the rest of the line, whose
      length follows from the number of pairs. */
  function ReadDump(s: string): seq<Byte>
    decreases |s|
  {
    if |s| < 2 || s[0] != '0' || s[1] != 'x' then []
    else
      var h := 2 + DigitRun(s, 2) + 2;
      var c := HexGroups(s, h, 0);
      var lineLen := h + (if c == 16 then 48 else 49) + 1 + c + 1;
      if lineLen > |s| then [] else ReadGroups(s, h, 0, c) + ReadDump(s[lineLen..])
  }

  /** The shape of a hex column holding chunk, full or padded. */
  ghost predicate HexColumn(hex: string, chunk: seq<Byte>)
  {
    && 1 <= |chunk| <= 16
    && |hex| == (if |chunk| == 16 then 48 else 49)
    && (forall j :: 0 <= j < |chunk| ==>
          hex[3 * j] == HexDigit(chunk[j] / 16, false) && hex[3 * j + 1] == HexDigit(chunk[j] % 16, false))
    && (|chunk| < 16 ==> hex[3 * |chunk|] == ' ')
  }

  /** Group j of a hex column copied into s at h: its two characters. */
  lemma ColumnPair(s: string, h: nat, hex: string, j: nat)
    requires 3 * j + 1 < |hex| && h + |hex| <= |s| && s[h..h + |hex|] == hex
    ensures s[h + 3 * j] == hex[3 * j] && s[h + 3 * j + 1] == hex[3 * j + 1]
  {
    assert s[h..h + |hex|][3 * j] == s[h + 3 * j];
    assert s[h..h + |hex|][3 * j + 1] == s[h + 3 * j + 1];
  }

  lemma {:induction false} CountGroups(s: string, h: nat, hex: string, chunk: seq<Byte>, j: nat)
    requires HexColumn(hex, chunk) && j <= |chunk|
    requires h + |hex| < |s| && s[h..h + |hex|] == hex
    ensures HexGroups(s, h, j) == |chunk|
    decreases |chunk| - j
  {
    if j < |chunk| {
      ColumnPair(s, h, hex, j);
      CountGroups(s, h, hex, chunk, j + 1);
    } else if j < 16 {
      ColumnPair(s, h, hex, j);
    }
  }

  /** A byte's two hex digits read back as the byte. */
  lemma HexPair(b: Byte)
    ensures HexValue(HexDigit(b / 16, false)) * 16 + HexValue(HexDigit(b % 16, false)) == b
  {
  }

  /** A sequence from j on is its element j and the rest. */
  lemma SeqCons<T>(a: seq<T>, j: nat)
    requires j < |a|
    ensures a[j..] == [a[j]] + a[j + 1..]
  {
  }

  lemma {:induction false} ReadChunk(s: string, h: nat, hex: string, chunk: seq<Byte>, j: nat)
    requires HexColumn(hex, chunk) && j <= |chunk|
    requires h + |hex| < |s| && s[h..h + |hex|] == hex
    ensures ReadGroups(s, h, j, |chunk|) == chunk[j..]
    decreases |chunk| - j
  {
    if j < |chunk| {
      ColumnPair(s, h, hex, j);
      HexPair(chunk[j]);
      ReadChunk(s, h, hex, chunk, j + 1);
      SeqCons(chunk, j);
    }
  }

  /** Where the parts of a line sit in the text of the line followed by
      rest. */
  lemma LineLayout(tag: string, hex: string, ascii: string, rest: string)
    ensures var s := Line(tag, hex, ascii) + rest; var h := 4 + |tag|;
      && |s| == h + |hex| + 1 + |ascii| + 1 + |rest|
      && s[0] == '0' && s[1] == 'x'
      && s[2..2 + |tag|] == tag
      && s[2 + |tag|] == ':'
      && s[h..h + |hex|] == hex
      && s[h + |hex| + 1 + |ascii| + 1..] == rest
  {
    var s := Line(tag, hex, ascii) + rest;
    var h := 4 + |tag|;
    var tail := " " + ascii + "\n" + rest;
    assert s == "0x" + tag + ": " + hex + tail;
    assert s == ("0x" + tag) + (": " + (hex + tail));
    assert s[2..2 + |tag|] == tag;
    assert s[h..] == hex + tail;
    assert s[h..h + |hex|] == hex;
    assert tail[1 + |ascii| + 1..] == rest;
  }

  /** The digits of the label are exactly the run of digits after "0x". */
  lemma LabelRun(s: string, tag: string)
    requires AllDigits(tag) && 2 + |tag| < |s| && s[2..2 + |tag|] == tag && s[2 + |tag|] == ':'
    ensures DigitRun(s, 2) == |tag|
  {
    forall j | 2 <= j < 2 + |tag|
      ensures IsDigit(s[j])
    {
      assert s[j] == tag[j - 2];
    }
    DigitRunTo(s, 2, 2 + |tag|);
  }

  /** A run of digits from i that stops at a non-digit at e has length
      e - i. */
  lemma {:induction false} DigitRunTo(s: string, i: nat, e: nat)
    requires i <= e < |s| && !IsDigit(s[e])
    requires forall j :: i <= j < e ==> IsDigit(s[j])
    ensures DigitRun(s, i) == e - i
    decreases e - i
  {
    if i < e {
      DigitRunTo(s, i + 1, e);
    }
  }

  /** One line of the dump reads back as its bytes. */
  lemma ReadLine(tag: string, hex: string, ascii: string, chunk: seq<Byte>, rest: string)
    requires AllDigits(tag) && HexColumn(hex, chunk) && |ascii| == |chunk|
    ensures ReadDump(Line(tag, hex, ascii) + rest) == chunk + ReadDump(rest)
  {
    var s := Line(tag, hex, ascii) + rest;
    var h := 4 + |tag|;
    LineLayout(tag, hex, ascii, rest);
    LabelRun(s, tag);
    CountGroups(s, h, hex, chunk, 0);
    ReadChunk(s, h, hex, chunk, 0);
    assert chunk[0..] == chunk;
  }

  /** The hex column of a full line has the shape the reader expects. */
  lemma FullColumn(chunk: seq<Byte>)
    requires |chunk| == 16
    ensures HexColumn(HexText(chunk), chunk)
  {
    forall j | 0 <= j < |chunk|
      ensures HexText(chunk)[3 * j] == HexDigit(chunk[j] / 16, false)
      ensures HexText(chunk)[3 * j + 1] == HexDigit(chunk[j] % 16, false)
    {
      HexTextAt(chunk, j);
    }
  }

  /** So has the padded hex column of the short last line. */
  lemma FinalColumn(chunk: seq<Byte>)
    requires 0 < |chunk| < 16
    ensures HexColumn(PadRight(HexText(chunk), 49, ' '), chunk)
  {
    var text := HexText(chunk);
    var hex := PadRight(text, 49, ' ');
    forall j | 0 <= j < |chunk|
      ensures hex[3 * j] == HexDigit(chunk[j] / 16, false) && hex[3 * j + 1] == HexDigit(chunk[j] % 16, false)
    {
      HexTextAt(chunk, j);
      assert hex[3 * j] == text[3 * j] && hex[3 * j + 1] == text[3 * j + 1];
    }
    assert hex[3 * |chunk|] == ' ';
  }

  lemma Assoc<T>(a: seq<T>, b: seq<T>, c: seq<T>)
    ensures (a + b) + c == a + (b + c)
  {
  }

  /** Line k, followed by anything, reads back as its bytes. */
  lemma ReadDumpLine(b: seq<Byte>, k: nat, tail: string)
    requires k < LineCount(|b|)
    ensures ReadDump(DumpLine(b, k) + tail) == Chunk(b, k) + ReadDump(tail)
  {
    var c := Chunk(b, k);
    if |c| == 16 {
      FullColumn(c);
      ReadLine(Label(k * 10), HexText(c), AsciiText(c), c, tail);
    } else {
      FinalColumn(c);
      ReadLine(Label(FinalLabel(|b|)), PadRight(HexText(c), 49, ' '), AsciiText(c), c, tail);
    }
  }

  /** Lines that each read back as their chunk read back, together, as the
      chunks in order. */
  lemma {:induction false} ReadLines(lines: seq<string>, chunks: seq<seq<Byte>>, tail: string)
    requires |lines| == |chunks|
    requires forall k, t :: 0 <= k < |lines| ==> ReadDump(lines[k] + t) == chunks[k] + ReadDump(t)
    ensures ReadDump(Concat(lines) + tail) == Flatten(chunks) + ReadDump(tail)
  {
    if lines == [] {
      assert Concat(lines) + tail == tail;
      assert Flatten(chunks) + ReadDump(tail) == ReadDump(tail);
    } else {
      var n := |lines| - 1;
      var init, last := lines[..n], lines[n];
      ReadLines(init, chunks[..n], last + tail);
      Assoc(Concat(init), last, tail);
      Assoc(Flatten(chunks[..n]), chunks[n], ReadDump(tail));
      calc {
        ReadDump(Concat(lines) + tail);
        ReadDump((Concat(init) + last) + tail);
        ReadDump(Concat(init) + (last + tail));
        Flatten(chunks[..n]) + ReadDump(last + tail);
        Flatten(chunks[..n]) + (chunks[n] + ReadDump(tail));
        (Flatten(chunks[..n]) + chunks[n]) + ReadDump(tail);
        Flatten(chunks) + ReadDump(tail);
      }
    }
  }

  /** The dump loses nothing: reading it back gives the frame's bytes, in
      order, sixteen to a line. */
  lemma DumpRoundTrip(b: seq<Byte>)
    ensures ReadDump(HexDump(b)) == b
  {
    var n := LineCount(|b|);
    var lines, chunks := DumpLines(b), ChunksUpTo(b, n);
    forall k, t | 0 <= k < n
      ensures ReadDump(lines[k] + t) == chunks[k] + ReadDump(t)
    {
      ChunkAt(b, n, k);
      ReadDumpLine(b, k, t);
    }
    ReadLines(lines, chunks, "");
    LinesText(b, n);
    assert lines[..n] == lines;
    assert HexDump(b) + "" == HexDump(b);
    FlattenChunks(b, n);
    assert b[..|b|] == b;
  }

  // ---------------------------------------------------------- line facts

  /** Only an empty frame has an empty dump. */
  lemma EmptyDump(b: seq<Byte>)
    ensures HexDump(b) == "" <==> b == []
  {
    if b != [] {
      var n := LineCount(|b|) - 1;
      var last := DumpLine(b, n);
      assert last[0] == '0';
      assert HexDump(b) == DumpUpTo(b, n) + last;
    }
  }

  /** The dump of n bytes has ceil(n/16) lines; every line but the last
      holds sixteen bytes, the last holds one to sixteen, and together they
      hold the frame in order. */
  lemma DumpShape(b: seq<Byte>)
    ensures |Chunks(b)| == (|b| + 15) / 16
    ensures forall k :: 0 <= k < |Chunks(b)| - 1 ==> |Chunks(b)[k]| == 16
    ensures forall k :: 0 <= k < |Chunks(b)| ==> 1 <= |Chunks(b)[k]| <= 16
    ensures Flatten(Chunks(b)) == b
  {
    var chunks := Chunks(b);
    forall k | 0 <= k < |chunks|
      ensures chunks[k] == Chunk(b, k)
    {
      ChunkAt(b, |chunks|, k);
    }
    FlattenChunks(b, |chunks|);
    assert b[..|b|] == b;
  }

  /** The label the short last line gets: the line's own index times ten,
      except that a frame of fewer than sixteen bytes, whose only line is
      line 0, is labelled 10 (C# division truncates (n - 16) / 16 to 0). */
  lemma FinalLabelValue(n: nat)
    requires n % 16 != 0
    ensures FinalLabel(n) == if n < 16 then 10 else (n / 16) * 10
  {
  }

  /** So the dump of a frame shorter than sixteen bytes starts "0x0010: ". */
  lemma ShortFrameLabel(b: seq<Byte>)
    requires 0 < |b| < 16
    ensures HexDump(b)[..8] == "0x0010: "
  {
    var c := b[0..|b|];
    SingleLine(b);
    assert FinalLabel(|b|) == 10;
    Label10();
    LineHead(HexDump(b), Label(FinalLabel(|b|)), PadRight(HexText(c), 49, ' '), AsciiText(c));
  }

  /** A frame shorter than sixteen bytes has a one-line dump. */
  lemma SingleLine(b: seq<Byte>)
    requires 0 < |b| < 16
    ensures HexDump(b) == FinalLine(|b|, b[0..|b|])
  {
    assert Chunk(b, 0) == b[0..|b|];
    assert LineCount(|b|) == 1;
    assert DumpUpTo(b, 1) == "" + DumpLine(b, 0);
  }

  lemma Label10()
    ensures Label(10) == "0010"
  {
    assert Decimal(10) == Decimal(1) + [DigitChar(0)];
  }

  /** A line labelled 0010 starts with "0x0010: ". */
  lemma LineHead(s: string, tag: string, hex: string, ascii: string)
    requires s == Line(tag, hex, ascii) && tag == "0010"
    ensures s[..8] == "0x0010: "
  {
    assert s == ("0x" + tag + ": ") + (hex + " " + ascii + "\n");
  }

  // ------------------------------------------------------ step facts

  /** Writing one more byte extends both columns by that byte. */
  lemma ColumnsSnoc(c: seq<Byte>, x: Byte)
    ensures HexText(c + [x]) == HexText(c) + HexByte(x) + " "
    ensures AsciiText(c + [x]) == AsciiText(c) + [AsciiChar(x)]
  {
    assert (c + [x])[..|c|] == c;
  }

  /** A slice grows by the element at its end. */
  lemma SliceSnoc<T>(s: seq<T>, lo: nat, mid: nat, hi: nat)
    requires lo <= mid && hi == mid + 1 <= |s|
    ensures s[lo..mid] + [s[hi - 1]] == s[lo..hi]
  {
  }

  /** A line with sixteen bytes after it is a full line. */
  lemma FullLineAt(b: seq<Byte>, line: nat, start: nat, next: nat)
    requires start == 16 * line && next == start + 16 <= |b|
    ensures line < LineCount(|b|)
    ensures DumpLine(b, line) == FullLine(line, b[start..next])
  {
    assert Chunk(b, line) == b[start..next];
  }

  /** A line with fewer than sixteen bytes after it is the short last line. */
  lemma FinalLineAt(b: seq<Byte>, line: nat, start: nat, n: nat)
    requires start == 16 * line < n < start + 16 && n == |b|
    ensures line < LineCount(|b|)
    ensures DumpLine(b, line) == FinalLine(n, b[start..n])
  {
    assert Chunk(b, line) == b[start..n];
  }

  /** Byte i (counting from 1) goes to position c of line `line`; it closes
      the line exactly when i is a multiple of sixteen, and then the label
      ((i - 16) / 16) * 10 is the line's own index times ten. */
  lemma LoopIndex(i: nat, line: nat, c: nat)
    requires 1 <= i && i == 16 * line + c + 1 && c < 16
    ensures i % 16 == 0 <==> c == 15
    ensures c == 15 ==> TruncDiv(i - 16, 16) == line
  {
  }

  // ------------------------------------------------ the loop, step by step

  /** The three strings SetHexData's loop keeps: the finished lines (sb)
      and the hex and ASCII columns of the line being filled. */
  datatype Progress = Progress(sb: string, text: string, text2: string)

  /** What the loop does with byte i (counting from 1): extend both
      columns, then close the line after its sixteenth byte, or append the
      short last line after the frame's last byte. */
  function Advance(b: seq<Byte>, i: nat, p: Progress): Progress
    requires 1 <= i <= |b|
  {
    var text := p.text + HexByte(b[i - 1]) + " ";
    var text2 := p.text2 + [AsciiChar(b[i - 1])];
    if i % 16 == 0 then Progress(p.sb + Line(Label(FullLabel(i)), text, text2), "", "")
    else if i == |b| then Progress(p.sb + Line(Label(FinalLabel(i)), PadRight(text, 49, ' '), text2), text, text2)
    else Progress(p.sb, text, text2)
  }

  /** The loop's strings once the first `done` bytes are in. */
  function AfterBytes(b: seq<Byte>, done: nat): Progress
    requires done <= |b|
  {
    if done == 0 then Progress("", "", "") else Advance(b, done, AfterBytes(b, done - 1))
  }

  /** The loop's strings after byte i are Advance applied to those after
      the bytes before it. */
  lemma AfterBytesStep(b: seq<Byte>, j: nat, i: nat)
    requires i == j + 1 <= |b|
    ensures AfterBytes(b, i) == Advance(b, i, AfterBytes(b, j))
  {
  }

  /** The frame's last byte, when it does not close a full line, appends
      the short last line with its hex column padded to 49 characters. */
  lemma AdvanceLast(b: seq<Byte>, n: nat, p: Progress)
    requires 1 <= n == |b| && n % 16 != 0
    ensures Advance(b, n, p).sb
      == p.sb + Line(Label(FinalLabel(n)), PadRight(p.text + HexByte(b[n - 1]) + " ", 49, ' '), p.text2 + [AsciiChar(b[n - 1])])
  {
    var text := p.text + HexByte(b[n - 1]) + " ";
    var text2 := p.text2 + [AsciiChar(b[n - 1])];
    var line := Line(Label(FinalLabel(n)), PadRight(text, 49, ' '), text2);
    assert Advance(b, n, p) == Progress(p.sb + line, text, text2);
  }

  /** Inside a line nothing is appended: after the bytes of line `line` up
      to i (it starts at byte `start`) the columns hold exactly those bytes,
      and sb is what it was when the line began. */
  lemma {:induction false} WithinLine(b: seq<Byte>, line: nat, start: nat, i: nat, sb: string)
    requires start == 16 * line <= i < start + 16 && i < |b|
    requires AfterBytes(b, start) == Progress(sb, "", "")
    ensures AfterBytes(b, i) == Progress(sb, HexText(b[start..i]), AsciiText(b[start..i]))
    decreases i - start
  {
    if i == start {
      assert b[start..i] == [];
    } else {
      var j := i - 1;
      WithinLine(b, line, start, j, sb);
      AfterBytesStep(b, j, i);
      LoopIndex(i, line, j - start);
      ColumnsSnoc(b[start..j], b[i - 1]);
      SliceSnoc(b, start, j, i);
    }
  }

  /** The sixteenth byte of a line appends the full line, under the label
      the source computes, and empties both columns. */
  lemma FullLineDone(b: seq<Byte>, line: nat, start: nat, next: nat, sb: string)
    requires start == 16 * line && next == start + 16 <= |b|
    requires AfterBytes(b, start) == Progress(sb, "", "")
    ensures AfterBytes(b, next) == Progress(sb + FullLine(line, b[start..next]), "", "")
  {
    var j := next - 1;
    WithinLine(b, line, start, j, sb);
    AfterBytesStep(b, j, next);
    LoopIndex(next, line, 15);
    ColumnsSnoc(b[start..j], b[next - 1]);
    SliceSnoc(b, start, j, next);
  }

  /** The last byte of a frame whose length is not a multiple of sixteen
      appends the short last line, its hex column padded to 49 characters. */
  lemma FinalLineDone(b: seq<Byte>, line: nat, start: nat, n: nat, sb: string)
    requires start == 16 * line < n < start + 16 && n == |b|
    requires AfterBytes(b, start) == Progress(sb, "", "")
    ensures AfterBytes(b, n).sb == sb + FinalLine(n, b[start..n])
  {
    var j := n - 1;
    WithinLine(b, line, start, j, sb);
    AfterBytesStep(b, j, n);
    LoopIndex(n, line, j - start);
    AdvanceLast(b, n, AfterBytes(b, j));
    ColumnsSnoc(b[start..j], b[n - 1]);
    SliceSnoc(b, start, j, n);
  }

  /** After whole lines, sb holds exactly those lines of the dump and both
      columns are empty. */
  lemma {:induction false} LinesDone(b: seq<Byte>, line: nat, start: nat)
    requires start == 16 * line <= |b|
    ensures line <= LineCount(|b|)
    ensures AfterBytes(b, start) == Progress(DumpUpTo(b, line), "", "")
  {
    if line > 0 {
      var k, prev := line - 1, start - 16;
      LinesDone(b, k, prev);
      FullLineDone(b, k, prev, start, DumpUpTo(b, k));
      FullLineAt(b, k, prev, start);
      DumpUpToStep(b, k, line);
    }
  }

  /** Once every byte is in, sb holds the dump. */
  lemma AllBytesDumped(b: seq<Byte>)
    ensures AfterBytes(b, |b|).sb == HexDump(b)
  {
    var line, n := |b| / 16, |b|;
    var start := 16 * line;
    LinesDone(b, line, start);
    if start < n {
      var next := line + 1;
      FinalLineDone(b, line, start, n, DumpUpTo(b, line));
      FinalLineAt(b, line, start, n);
      assert LineCount(n) == next;
      DumpUpToStep(b, line, next);
    } else {
      assert LineCount(n) == line;
    }
  }
}
