/** The content provider of the display (lib/SSD1306/content.c): a buffer of text
    lines and the function that turns a raster index into the byte slice to paint,
    using a small (6x8) or a big (24x32) font. The font tables are parameters. */
module Content {
  import opened Platform
  import opened Codec

  const WIDTH: nat := 128                  // screen width and height, in pixels
  const HEIGHT: nat := 64
  /** Byte slices per frame: WIDTH * HEIGHT / 8, one slice painting 8 vertical pixels
      (FrameSizeIsScreen). */
  const FRAME_SIZE: nat := 1024

  const SPACE: char := ' '                 // the first printable character, 0x20
  const NUL: char := 0 as char

  const MAX_LINES_BIG: nat := 2
  const MAX_LINE_LENGTH_BIG: nat := 5
  const MAX_LINES_SMALL: nat := 8
  const MAX_LINE_LENGTH_SMALL: nat := 21
  const BUFFER_LINES: nat := MAX_LINES_SMALL
  const BUFFER_LINE_LENGTH: nat := MAX_LINE_LENGTH_SMALL
  const LINE_SLOTS: nat := BUFFER_LINE_LENGTH + 1   // room for the terminator

  const SMALL_WIDTH: nat := 6              // slices per small glyph
  const N_SUBROWS: nat := 4                // raster rows per big glyph
  const N_SLICES: nat := 24                // slices per big glyph and raster row

  /** Printable ASCII, 0x20 to 0x7E: the characters the font tables cover. */
  const GLYPHS: nat := 95

  /** Bytes of each font table, GLYPHS glyphs of GlyphSize bytes (TableSizes). */
  const SMALL_TABLE: nat := 570
  const BIG_TABLE: nat := 9120

  datatype FontSize = Small | Big

  /** display_get_n_rows: lines of text shown in this font. */
  function Rows(fs: FontSize): nat
  {
    if fs == Small then MAX_LINES_SMALL else MAX_LINES_BIG
  }

  /** display_get_n_cols: characters per line shown in this font. */
  function Cols(fs: FontSize): nat
  {
    if fs == Small then MAX_LINE_LENGTH_SMALL else MAX_LINE_LENGTH_BIG
  }

  function GlyphWidth(fs: FontSize): nat
  {
    if fs == Small then SMALL_WIDTH else N_SLICES
  }

  /** Glyph height in pixels. */
  function GlyphHeight(fs: FontSize): nat
  {
    if fs == Small then 8 else 8 * N_SUBROWS
  }

  /** Bytes of one glyph in its font table. */
  function GlyphSize(fs: FontSize): nat
  {
    if fs == Small then SMALL_WIDTH else N_SLICES * N_SUBROWS
  }

  function TableSize(fs: FontSize): nat
  {
    if fs == Small then SMALL_TABLE else BIG_TABLE
  }

  lemma FrameSizeIsScreen()
    ensures FRAME_SIZE == WIDTH * HEIGHT / 8
  {
  }

  lemma TableSizes(fs: FontSize)
    ensures TableSize(fs) == GLYPHS * GlyphSize(fs)
  {
  }

  /** The rows and columns reported are the whole glyphs that fit the 128x64
      screen, and they fit the line buffer. */
  lemma TextGridFitsScreen(fs: FontSize)
    ensures Cols(fs) == WIDTH / GlyphWidth(fs)
    ensures Rows(fs) == HEIGHT / GlyphHeight(fs)
    ensures Rows(fs) <= BUFFER_LINES && Cols(fs) <= BUFFER_LINE_LENGTH
  {
  }

  predicate Printable(c: char)
  {
    SPACE <= c <= '~'
  }

  /** What a line-buffer slot may hold: a printable character or the terminator. */
  predicate Storable(c: char)
  {
    c == NUL || Printable(c)
  }

  /** Where raster index i reads: a line and character column of the buffer, and
      the offset of the slice within that character's glyph. */
  datatype Cell = Cell(line: nat, col: nat, offset: nat)

  function CellOf(fs: FontSize, i: nat): (c: Cell)
    requires i < FRAME_SIZE
    ensures c.line < Rows(fs) && c.col <= Cols(fs) && c.col < LINE_SLOTS
    ensures c.offset < GlyphSize(fs)
  {
    match fs
    case Small => Cell(i / WIDTH, (i % WIDTH) / SMALL_WIDTH, (i % WIDTH) % SMALL_WIDTH)
    case Big => Cell((i / WIDTH) / N_SUBROWS, (i % WIDTH) / N_SLICES,
                     ((i / WIDTH) % N_SUBROWS) * N_SLICES + (i % WIDTH) % N_SLICES)
  }

  /** A cell slice that lies on the screen. */
  predicate OnScreen(fs: FontSize, c: Cell)
  {
    && c.line < Rows(fs)
    && c.offset < GlyphSize(fs)
    && c.col * GlyphWidth(fs) + c.offset % GlyphWidth(fs) < WIDTH
  }

  /** The raster index that paints a given slice of a given cell. */
  function RasterIndex(fs: FontSize, c: Cell): nat
  {
    match fs
    case Small => c.line * WIDTH + c.col * SMALL_WIDTH + c.offset
    case Big => (c.line * N_SUBROWS + c.offset / N_SLICES) * WIDTH + c.col * N_SLICES + c.offset % N_SLICES
  }

  /** Every raster index reads an on-screen cell slice and is the one index that
      paints it. */
  lemma CellRoundTrip(fs: FontSize, i: nat)
    requires i < FRAME_SIZE
    ensures OnScreen(fs, CellOf(fs, i)) && RasterIndex(fs, CellOf(fs, i)) == i
  {
    var row, j := i / WIDTH, i % WIDTH;
    assert i == row * WIDTH + j;
    if fs == Small {
      assert j == (j / SMALL_WIDTH) * SMALL_WIDTH + j % SMALL_WIDTH;
    } else {
      assert j == (j / N_SLICES) * N_SLICES + j % N_SLICES;
      assert row == (row / N_SUBROWS) * N_SUBROWS + row % N_SUBROWS;
      var off := (row % N_SUBROWS) * N_SLICES + j % N_SLICES;
      assert off / N_SLICES == row % N_SUBROWS && off % N_SLICES == j % N_SLICES;
    }
  }

  /** Every on-screen cell slice is painted, by a raster index that reads it back. */
  lemma RasterRoundTrip(fs: FontSize, c: Cell)
    requires OnScreen(fs, c)
    ensures RasterIndex(fs, c) < FRAME_SIZE && CellOf(fs, RasterIndex(fs, c)) == c
  {
    var i := RasterIndex(fs, c);
    var w := GlyphWidth(fs);
    if fs == Small {
      assert i == c.line * WIDTH + (c.col * SMALL_WIDTH + c.offset);
      DivModSum(c.line, c.col * SMALL_WIDTH + c.offset);
    } else {
      assert c.offset / N_SLICES < N_SUBROWS;
      var row := c.line * N_SUBROWS + c.offset / N_SLICES;
      DivModSum(row, c.col * N_SLICES + c.offset % N_SLICES);
      assert row / N_SUBROWS == c.line && row % N_SUBROWS == c.offset / N_SLICES;
    }
  }

  lemma DivModSum(q: nat, r: nat)
    requires r < WIDTH
    ensures (q * WIDTH + r) / WIDTH == q && (q * WIDTH + r) % WIDTH == r
  {
  }

  /** The font-table entry of a slice of a printable character: (ch - 0x20) glyphs in. */
  function GlyphIndex(fs: FontSize, ch: char, offset: nat): (k: nat)
    requires Printable(ch) && offset < GlyphSize(fs)
    ensures k < TableSize(fs)
  {
    GlyphBound(ch as nat - SPACE as nat, GlyphSize(fs), offset);
    (ch as nat - SPACE as nat) * GlyphSize(fs) + offset
  }

  lemma GlyphBound(g: nat, size: nat, offset: nat)
    requires g < GLYPHS && offset < size
    ensures g * size + offset < GLYPHS * size
  {
    calc {
      g * size + offset;
    <  g * size + size;
    == (g + 1) * size;
    <= { MulMono(g + 1, GLYPHS, size); }
       GLYPHS * size;
    }
  }

  lemma MulMono(a: nat, b: nat, c: nat)
    requires a <= b
    ensures a * c <= b * c
  {
    assert b * c == a * c + (b - a) * c;
  }

  /** The entry decodes back to the glyph and the slice within it. */
  lemma GlyphIndexDecodes(fs: FontSize, ch: char, offset: nat)
    requires Printable(ch) && offset < GlyphSize(fs)
    ensures GlyphIndex(fs, ch, offset) / GlyphSize(fs) == ch as nat - SPACE as nat
    ensures GlyphIndex(fs, ch, offset) % GlyphSize(fs) == offset
  {
    var g, size := ch as nat - SPACE as nat, GlyphSize(fs);
    assert g * size + offset == size * g + offset;
  }

  /** What the raster scan reads: the buffer, the font size and both font tables. */
  datatype View = View(text: seq<seq<char>>, size: FontSize, small: seq<Byte>, big: seq<Byte>)

  ghost predicate WellFormed(v: View)
  {
    && |v.text| == BUFFER_LINES
    && (forall r :: 0 <= r < BUFFER_LINES ==> |v.text[r]| == LINE_SLOTS)
    && (forall r, c :: 0 <= r < BUFFER_LINES && 0 <= c < LINE_SLOTS ==> Storable(v.text[r][c]))
    && |v.small| >= SMALL_TABLE
    && |v.big| >= BIG_TABLE
  }

  function Font(v: View): seq<Byte>
  {
    if v.size == Small then v.small else v.big
  }

  /** Reference definition of validity: no terminator in the line up to and
      including the column raster index i reads. */
  ghost predicate ValidThrough(v: View, i: nat)
    requires WellFormed(v) && i < FRAME_SIZE
  {
    var c := CellOf(v.size, i);
    forall k :: 0 <= k <= c.col ==> v.text[c.line][k] != NUL
  }

  /** Reference definition of the slice at raster index i: the glyph byte while the
      line's text lasts, 0 after it. */
  ghost function SliceAt(v: View, i: nat): Byte
    requires WellFormed(v) && i < FRAME_SIZE
  {
    var c := CellOf(v.size, i);
    if ValidThrough(v, i) then Font(v)[GlyphIndex(v.size, v.text[c.line][c.col], c.offset)] else 0
  }

  /** One call of small_font or big_font: the slice and the new value of the
      carried `valid` flag, which column 0 sets and a terminator clears. */
  function SliceStep(v: View, valid: bool, i: nat): (Byte, bool)
    requires WellFormed(v) && i < FRAME_SIZE
  {
    var c := CellOf(v.size, i);
    var ch := v.text[c.line][c.col];
    var valid' := (c.col == 0 || valid) && ch != NUL;
    (if valid' then Font(v)[GlyphIndex(v.size, ch, c.offset)] else 0, valid')
  }

  /** Consecutive indices of one raster row read the same line, and columns that
      are equal or adjacent. */
  lemma NextColumn(fs: FontSize, i: nat)
    requires 0 < i < FRAME_SIZE && i % WIDTH != 0
    ensures CellOf(fs, i - 1).line == CellOf(fs, i).line
    ensures CellOf(fs, i - 1).col == CellOf(fs, i).col || CellOf(fs, i - 1).col + 1 == CellOf(fs, i).col
  {
    assert (i - 1) / WIDTH == i / WIDTH && (i - 1) % WIDTH == i % WIDTH - 1;
  }

  /** Scanning a raster row in order, the carried flag equals the reference
      validity, so the scan paints exactly SliceAt. */
  lemma ScanAgrees(v: View, valid: bool, i: nat)
    requires WellFormed(v) && i < FRAME_SIZE
    requires i % WIDTH == 0 || (i > 0 && valid == ValidThrough(v, i - 1))
    ensures SliceStep(v, valid, i) == (SliceAt(v, i), ValidThrough(v, i))
  {
    var c := CellOf(v.size, i);
    if c.col != 0 {
      assert i % WIDTH != 0;
      NextColumn(v.size, i);
      var p := CellOf(v.size, i - 1);
      if p.col == c.col {
        assert ValidThrough(v, i) == ValidThrough(v, i - 1);
      } else {
        assert ValidThrough(v, i) == (ValidThrough(v, i - 1) && v.text[c.line][c.col] != NUL);
      }
    }
  }

  /** Once a raster row meets a terminator, every later slice of that row is 0. */
  lemma RowBlanking(v: View, i: nat, j: nat)
    requires WellFormed(v) && i <= j < FRAME_SIZE && i / WIDTH == j / WIDTH
    requires v.text[CellOf(v.size, i).line][CellOf(v.size, i).col] == NUL
    ensures SliceAt(v, j) == 0
  {
    var ci, cj := CellOf(v.size, i), CellOf(v.size, j);
    assert i % WIDTH <= j % WIDTH;
    assert ci.line == cj.line && ci.col <= cj.col;
    assert !ValidThrough(v, j);
  }

  /** The text of a buffer line: its characters before the first terminator. */
  function TextOf(line: seq<char>): string
  {
    if line == [] || line[0] == NUL then [] else [line[0]] + TextOf(line[1..])
  }

  lemma {:induction false} TextOfTerminated(p: string, rest: seq<char>)
    requires forall k :: 0 <= k < |p| ==> p[k] != NUL
    ensures TextOf(p + [NUL] + rest) == p
  {
    if p != [] {
      assert (p + [NUL] + rest)[1..] == p[1..] + [NUL] + rest;
      TextOfTerminated(p[1..], rest);
    }
  }

  /** vsnprintf with a size of BUFFER_LINE_LENGTH keeps at most 20 characters. */
  function Truncated(s: string): (t: string)
    ensures |t| < BUFFER_LINE_LENGTH && t <= s
    ensures |s| < BUFFER_LINE_LENGTH ==> t == s
    ensures |s| >= BUFFER_LINE_LENGTH ==> t == s[..BUFFER_LINE_LENGTH - 1]
  {
    if |s| < BUFFER_LINE_LENGTH then s else s[..BUFFER_LINE_LENGTH - 1]
  }

  /** A line after strcpy of the truncated text: text, terminator, old remainder. */
  function Stored(line: seq<char>, s: string): seq<char>
    requires |line| == LINE_SLOTS
  {
    Truncated(s) + [NUL] + line[|Truncated(s)| + 1..]
  }

  /** Reading back a stored line gives the truncated text. */
  lemma StoredReadsBack(line: seq<char>, s: string)
    requires |line| == LINE_SLOTS && forall k :: 0 <= k < |s| ==> Printable(s[k])
    ensures |Stored(line, s)| == LINE_SLOTS
    ensures TextOf(Stored(line, s)) == Truncated(s)
  {
    TextOfTerminated(Truncated(s), line[|Truncated(s)| + 1..]);
  }

  /** The line buffer `lines`, the font size and the carried `valid` flag. */
  class Content {
    const small: seq<Byte>            // font68
    const big: seq<Byte>              // font_32_24
    const lines: array2<char>
    var fontSize: FontSize
    var valid: bool
    ghost var text: seq<seq<char>>    // the contents of `lines`, row by row

    ghost predicate Valid()
      reads this, lines
    {
      && lines.Length0 == BUFFER_LINES && lines.Length1 == LINE_SLOTS
      && |small| >= SMALL_TABLE
      && |big| >= BIG_TABLE
      && |text| == BUFFER_LINES
      && (forall r :: 0 <= r < BUFFER_LINES ==> |text[r]| == LINE_SLOTS)
      && (forall r, c :: 0 <= r < BUFFER_LINES && 0 <= c < LINE_SLOTS ==> text[r][c] == lines[r, c])
      && forall r, c :: 0 <= r < BUFFER_LINES && 0 <= c < LINE_SLOTS ==> Storable(lines[r, c])
    }

    ghost function Snapshot(): (v: View)
      reads this, lines
      requires Valid()
      ensures WellFormed(v)
    {
      View(text, fontSize, small, big)
    }

    /** The static buffer before content_init: every slot zero, the SMALL size. */
    constructor (smallFont: seq<Byte>, bigFont: seq<Byte>)
      requires |smallFont| >= SMALL_TABLE && |bigFont| >= BIG_TABLE
      ensures Valid() && fresh(lines)
      ensures small == smallFont && big == bigFont && fontSize == Small && !valid
      ensures forall r, c :: 0 <= r < BUFFER_LINES && 0 <= c < LINE_SLOTS ==> lines[r, c] == NUL
    {
      small, big := smallFont, bigFont;
      lines := new char[BUFFER_LINES, LINE_SLOTS]((r, c) => NUL);
      fontSize, valid := Small, false;
      text := seq(BUFFER_LINES, r => seq(LINE_SLOTS, c => NUL));
    }

    /** content_init: records the font size and empties every line. */
    method Init(fs: FontSize)
      requires Valid()
      modifies this, lines
      ensures Valid() && fontSize == fs && valid == old(valid)
      ensures forall r, c :: 0 <= r < BUFFER_LINES && 0 <= c < LINE_SLOTS ==>
                lines[r, c] == if c == 0 then NUL else old(lines[r, c])
      ensures forall r :: 0 <= r < BUFFER_LINES ==> TextOf(text[r]) == []
    {
      fontSize := fs;
      var r := 0;
      while r < BUFFER_LINES
        invariant 0 <= r <= BUFFER_LINES && Valid()
        invariant fontSize == fs && valid == old(valid)
        invariant forall r', c :: 0 <= r' < BUFFER_LINES && 0 <= c < LINE_SLOTS ==>
                    lines[r', c] == if c == 0 && r' < r then NUL else old(lines[r', c])
      {
        lines[r, 0] := NUL;
        text := text[r := text[r][0 := NUL]];
        r := r + 1;
      }
    }

    /** display_set, given the text the format string produced: panics on a line
        number out of range, otherwise stores the truncated text in that line only. */
    method Set(lineNum: nat, formatted: string) returns (status: Status)
      requires Valid() && forall k :: 0 <= k < |formatted| ==> Printable(formatted[k])
      modifies this`text, lines
      ensures Valid()
      ensures status.Ok? <==> lineNum < BUFFER_LINES
      ensures text == if status.Ok? then old(text)[lineNum := Stored(old(text[lineNum]), formatted)] else old(text)
      ensures status.Ok? ==> TextOf(text[lineNum]) == Truncated(formatted)
    {
      if lineNum >= BUFFER_LINES {
        return Panic("Display:  Line number out of range\n");
      }
      var ss := Truncated(formatted);
      var k := 0;
      while k < |ss|
        invariant 0 <= k <= |ss| && text == old(text)
        invariant forall r, c :: 0 <= r < BUFFER_LINES && 0 <= c < LINE_SLOTS ==>
                    lines[r, c] == if r == lineNum && c < k then ss[c] else old(lines[r, c])
      {
        lines[lineNum, k] := ss[k];
        k := k + 1;
      }
      lines[lineNum, |ss|] := NUL;
      ghost var line := Stored(text[lineNum], formatted);
      StoredReadsBack(text[lineNum], formatted);
      assert forall c :: 0 <= c < LINE_SLOTS ==> line[c] == lines[lineNum, c];
      text := text[lineNum := line];
      status := Ok;
    }

    /** small_font. */
    method SmallFont(i: nat) returns (slice: Byte)
      requires Valid() && fontSize == Small && i < FRAME_SIZE
      modifies this`valid
      ensures Valid() && Snapshot() == old(Snapshot())
      ensures (slice, valid) == SliceStep(Snapshot(), old(valid), i)
    {
      var row := i / WIDTH;
      var sliceInRow := i % WIDTH;
      var col := sliceInRow / SMALL_WIDTH;
      if col == 0 {
        valid := true;
      }
      var ch := lines[row, col];
      if ch == NUL {
        valid := false;
      }
      if valid {
        var sliceInCh := sliceInRow % SMALL_WIDTH;
        var ch1 := ch as nat - SPACE as nat;
        var charIndex := ch1 * SMALL_WIDTH;
        slice := small[charIndex + sliceInCh];
      } else {
        slice := 0;
      }
    }

    /** big_font. */
    method BigFont(i: nat) returns (slice: Byte)
      requires Valid() && fontSize == Big && i < FRAME_SIZE
      modifies this`valid
      ensures Valid() && Snapshot() == old(Snapshot())
      ensures (slice, valid) == SliceStep(Snapshot(), old(valid), i)
    {
      var glyphSize := N_SLICES * N_SUBROWS;
      var row := i / WIDTH;
      var j := i % WIDTH;
      var line := row / N_SUBROWS;
      var subrow := row % N_SUBROWS;
      var col := j / N_SLICES;
      if col == 0 {
        valid := true;
      }
      var k := j % N_SLICES;
      var ch := lines[line, col];
      if ch == NUL {
        valid := false;
      }
      if valid {
        var fontBaseIndex := (ch as nat - SPACE as nat) * glyphSize;
        var fontIndex := fontBaseIndex + subrow * N_SLICES + k;
        slice := big[fontIndex];
      } else {
        slice := 0;
      }
    }

    /** get_slice: dispatches on the font size. */
    method GetSlice(i: nat) returns (slice: Byte)
      requires Valid() && i < FRAME_SIZE
      modifies this`valid
      ensures Valid() && Snapshot() == old(Snapshot())
      ensures (slice, valid) == SliceStep(Snapshot(), old(valid), i)
    {
      if fontSize == Small {
        slice := SmallFont(i);
      } else {
        slice := BigFont(i);
      }
    }

    /** display_get_n_rows: the whole glyph rows of the font that fit the screen. */
    function NRows(): (r: nat)
      reads this
      ensures r == HEIGHT / GlyphHeight(fontSize) && r <= BUFFER_LINES
    {
      TextGridFitsScreen(fontSize);
      Rows(fontSize)
    }

    /** display_get_n_cols: the whole glyph columns of the font that fit the screen. */
    function NCols(): (r: nat)
      reads this
      ensures r == WIDTH / GlyphWidth(fontSize) && r <= BUFFER_LINE_LENGTH
    {
      TextGridFitsScreen(fontSize);
      Cols(fontSize)
    }
  }
}
