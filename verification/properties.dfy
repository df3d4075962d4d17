/** The addressing state machine (`DisplayProperties`): the draw area, the write cursor
    inside it, the rotation, and the command/data traffic that `set_draw_area`, `draw`
    and `set_rotation` put on the bus. */
module Drawing {
  import opened Transport
  import opened Commands
  import opened Display

  datatype Rotation = Rotate0 | Rotate90 | Rotate180 | Rotate270

  /** The rotations under which the logical axes are the native ones swapped. */
  predicate Swapped(rotation: Rotation) {
    rotation == Rotate90 || rotation == Rotate270
  }

  /** `get_dimensions`: the logical size callers draw against. */
  function RotatedDimensions(v: Variant, rotation: Rotation): (uint8, uint8)
  {
    match rotation
    case Rotate0 | Rotate180 => (v.width, v.height)
    case Rotate90 | Rotate270 => (v.height, v.width)
  }

  /** Rotating by 90 degrees more swaps the reported width and height. */
  lemma DimensionsSwap(v: Variant, rotation: Rotation)
    ensures RotatedDimensions(v, rotation) == (if Swapped(rotation) then (v.height, v.width) else v.Dimensions())
    ensures var (w, h) := RotatedDimensions(v, rotation); w * h == v.width * v.height
  {
  }

  /** The segment-remap / scan-direction pair `set_rotation` sends for each rotation. */
  function RotationCommands(rotation: Rotation): seq<Command>
  {
    match rotation
    case Rotate0 => [SegmentRemap(true), ReverseComDir(true)]
    case Rotate90 => [SegmentRemap(false), ReverseComDir(true)]
    case Rotate180 => [SegmentRemap(false), ReverseComDir(false)]
    case Rotate270 => [SegmentRemap(true), ReverseComDir(false)]
  }

  /** The rotation table in closed form: columns are remapped at 0 and 270 degrees, the
      COM scan is reversed at 0 and 90 degrees; and the bytes on the bus. */
  lemma RotationTable(rotation: Rotation)
    ensures RotationCommands(rotation) ==
            [SegmentRemap(rotation == Rotate0 || rotation == Rotate270),
             ReverseComDir(rotation == Rotate0 || rotation == Rotate90)]
  {
  }

  /** On the bus: `0xA1` remaps the segments and `0xC8` reverses the COM scan, `0xA0` and
      `0xC0` do neither. */
  lemma RotationBytes(rotation: Rotation)
    ensures var remap, reverse := rotation == Rotate0 || rotation == Rotate270, rotation == Rotate0 || rotation == Rotate90;
      Encoded(RotationCommands(rotation)) == [Cmd([if remap then 0xA1 else 0xA0]), Cmd([if reverse then 0xC8 else 0xC0])]
  {
    match rotation
    case Rotate0 => EncodedPair(SegmentRemap(true), ReverseComDir(true));
    case Rotate90 => EncodedPair(SegmentRemap(false), ReverseComDir(true));
    case Rotate180 => EncodedPair(SegmentRemap(false), ReverseComDir(false));
    case Rotate270 => EncodedPair(SegmentRemap(true), ReverseComDir(false));
  }

  /** The draw area: `draw_area_start` and `draw_area_end` as (column, row) pairs. Rows
      are pages; columns are controller columns. */
  datatype Area = Area(startColumn: uint8, startRow: uint8, endColumn: uint8, endRow: uint8)

  /** The draw area and the write cursor `(draw_column, draw_row)`. */
  datatype DrawState = DrawState(area: Area, column: uint8, row: uint8)

  /** `send_draw_address`: the page command (large or packed form), then the low and the
      high nibble of the cursor column. */
  function AddressCommands(s: DrawState, large: bool): seq<Command>
  {
    [ if large then LargePageAddress(Byte(s.row)) else PageAddress(Byte(s.row)),
      ColumnAddressLow(0xF & Byte(s.column)),
      ColumnAddressHigh(0xF & (Byte(s.column) >> 4)) ]
  }

  /** The transfers of the address sequence of cursor `s`, byte by byte. */
  function AddressEvents(s: DrawState, large: bool): seq<Event>
  {
    var row, col := Byte(s.row), Byte(s.column);
    [ if large then Cmd([0xB0, row]) else Cmd([0xB0 | row]),
      Cmd([0xF & col]),
      Cmd([0x10 | (0xF & (col >> 4))]) ]
  }

  /** Sending the address commands one by one puts exactly these transfers on the bus. */
  lemma AddressEncoded(s: DrawState, large: bool)
    ensures Encoded(AddressCommands(s, large)) == AddressEvents(s, large)
  {
    var row, col := Byte(s.row), Byte(s.column);
    var page := if large then LargePageAddress(row) else PageAddress(row);
    EncodedTriple(page, ColumnAddressLow(0xF & col), ColumnAddressHigh(0xF & (col >> 4)));
    NibbleOfNibble(col);
    NibbleOfNibble(col >> 4);
  }

  /** An address sequence is three command transfers: `[0xB0, row]` or `[0xB0 | row]`, then
      `[column & 0xF]`, then `[0x10 | column >> 4]`. */
  lemma AddressBytes(s: DrawState, large: bool)
    ensures var row, col := s.row as bv8, s.column as bv8;
      AddressEvents(s, large) ==
      [Cmd(if large then [0xB0, row] else [0xB0 | row]), Cmd([col & 0xF]), Cmd([0x10 | (col >> 4)])]
  {
    ByteIsCast(s.row);
    ByteIsCast(s.column);
  }

  /** An address sequence is three command transfers and carries no data. */
  lemma AddressShape(s: DrawState, large: bool)
    ensures |AddressEvents(s, large)| == 3
    ensures Payload(AddressEvents(s, large)) == []
    ensures CommandCount(AddressEvents(s, large)) == 3
  {
    AddressEncoded(s, large);
    EncodedCarriesNoData(AddressCommands(s, large));
  }

  /** The two column commands together carry the whole cursor column. */
  lemma ColumnNibblesReconstruct(s: DrawState, large: bool)
    ensures var e := AddressEvents(s, large);
      ((e[2].bytes[0] & 0xF) << 4) | e[1].bytes[0] == s.column as bv8
  {
    AddressBytes(s, large);
    var col := s.column as bv8;
    assert (((0x10 | (col >> 4)) & 0xF) << 4) | (col & 0xF) == col;
  }

  /** The bytes `draw` sends in the next chunk: `draw_area_end.0 - draw_column`, negative
      when the u8 subtraction would underflow. */
  function Count(s: DrawState): int
  {
    s.area.endColumn - s.column
  }

  /** The cursor after a chunk: since the chunk runs to the end column, the column test of
      `draw` always holds, so the column returns to the start column and the row moves on
      by one, wrapping to the start row once it reaches the end row. The end row is a u8,
      so the row stays a u8. */
  function Advance(s: DrawState): (t: DrawState)
  {
    var row := s.row + 1;
    s.(column := s.area.startColumn, row := if row >= s.area.endRow then s.area.startRow else row)
  }

  /** The cursor after `n` chunks. */
  function AdvanceN(s: DrawState, n: nat): (t: DrawState)
  {
    if n == 0 then s else Advance(AdvanceN(s, n - 1))
  }

  /** 1 while the cursor sits on the end column, so the next chunk is empty. */
  function Pending(s: DrawState): nat
  {
    if s.column < s.area.endColumn then 0 else 1
  }

  /** When `draw(buf)` from `s` terminates without a panic, exact for a bus that completes
      every transfer and sufficient otherwise (a failed transfer returns early): each chunk
      length is not negative (the u8 subtraction), fits in what is left of the buffer (the
      slices), the row can be incremented (the u8 addition), and an empty chunk is followed
      by a non-empty one (otherwise the loop never consumes the buffer). */
  predicate DrawFits(s: DrawState, buf: seq<bv8>)
    decreases |buf|, Pending(s)
  {
    buf == [] ||
    (&& s.column <= s.area.endColumn
     && Count(s) <= |buf|
     && s.row < 255
     && (Count(s) == 0 ==> s.area.startColumn < s.area.endColumn)
     && DrawFits(Advance(s), buf[Count(s)..]))
  }

  /** The transfers of `draw(buf)` from `s` when the bus never fails: per chunk, the data
      transfer and then the address sequence of the advanced cursor. */
  function DrawEvents(s: DrawState, buf: seq<bv8>, large: bool): seq<Event>
    requires DrawFits(s, buf)
    decreases |buf|, Pending(s)
  {
    if buf == [] then []
    else [Data(buf[..Count(s)])] + AddressEvents(Advance(s), large) + DrawEvents(Advance(s), buf[Count(s)..], large)
  }

  /** The number of loop iterations of `draw(buf)` from `s`. */
  function Chunks(s: DrawState, buf: seq<bv8>): nat
    requires DrawFits(s, buf)
    decreases |buf|, Pending(s)
  {
    if buf == [] then 0 else 1 + Chunks(Advance(s), buf[Count(s)..])
  }

  /** One iteration of `draw`, without its transfers: the chunk length, where the cursor
      goes, and what is left to draw from there. */
  lemma FitsStep(s: DrawState, buf: seq<bv8>)
    requires DrawFits(s, buf) && buf != []
    ensures 0 <= Count(s) <= |buf| && s.column <= s.area.endColumn && s.row < 255
    ensures DrawFits(Advance(s), buf[Count(s)..])
    ensures Chunks(s, buf) == 1 + Chunks(Advance(s), buf[Count(s)..])
  {
  }

  /** One iteration of `draw`: the chunk that is sent, where the cursor goes, and what is
      left to draw from there. */
  lemma DrawStep(s: DrawState, buf: seq<bv8>, large: bool)
    requires DrawFits(s, buf) && buf != []
    ensures 0 <= Count(s) <= |buf| && s.column <= s.area.endColumn && s.row < 255
    ensures DrawFits(Advance(s), buf[Count(s)..])
    ensures DrawEvents(s, buf, large) ==
            ([Data(buf[..Count(s)])] + AddressEvents(Advance(s), large)) + DrawEvents(Advance(s), buf[Count(s)..], large)
    ensures Chunks(s, buf) == 1 + Chunks(Advance(s), buf[Count(s)..])
  {
  }

  /** Each iteration sends four transfers: one data chunk and one address sequence. */
  lemma {:induction false} DrawEventsLength(s: DrawState, buf: seq<bv8>, large: bool)
    requires DrawFits(s, buf)
    ensures |DrawEvents(s, buf, large)| == 4 * Chunks(s, buf)
    ensures CommandCount(DrawEvents(s, buf, large)) == 3 * Chunks(s, buf)
    decreases |buf|, Pending(s)
  {
    if buf != [] {
      DrawStep(s, buf, large);
      var n, t := Count(s), Advance(s);
      var address, rest := AddressEvents(t, large), DrawEvents(t, buf[n..], large);
      DrawEventsLength(t, buf[n..], large);
      AddressShape(t, large);
      CommandCountAppend([Data(buf[..n])], address);
      CommandCountAppend([Data(buf[..n])] + address, rest);
    }
  }

  /** The data chunks, put back together, are exactly the buffer that was drawn. */
  lemma {:induction false} DrawPayload(s: DrawState, buf: seq<bv8>, large: bool)
    requires DrawFits(s, buf)
    ensures Payload(DrawEvents(s, buf, large)) == buf
    decreases |buf|, Pending(s)
  {
    if buf != [] {
      DrawStep(s, buf, large);
      var n, t := Count(s), Advance(s);
      var address, rest := AddressEvents(t, large), DrawEvents(t, buf[n..], large);
      DrawPayload(t, buf[n..], large);
      AddressShape(t, large);
      PayloadOfChunk(buf[..n], address, rest);
      assert buf[..n] + buf[n..] == buf;
    }
  }

  lemma {:induction false} AdvanceNShift(s: DrawState, n: nat)
    ensures AdvanceN(Advance(s), n) == AdvanceN(s, n + 1)
  {
    if n > 0 {
      AdvanceNShift(s, n - 1);
    }
  }

  /** Advancing keeps the draw area, puts the column on the start column, and moves the
      row down one page at a time while it stays above the end row. */
  lemma {:induction false} AdvanceNRows(s: DrawState, n: nat)
    requires s.row + n < s.area.endRow
    ensures AdvanceN(s, n).area == s.area
    ensures AdvanceN(s, n).row == s.row + n
    ensures n > 0 ==> AdvanceN(s, n).column == s.area.startColumn
  {
    if n > 0 {
      AdvanceNRows(s, n - 1);
    }
  }

  /** The cursor stays inside a non-empty draw area from one chunk to the next. */
  lemma AdvanceInArea(s: DrawState)
    requires s.area.startColumn <= s.column <= s.area.endColumn && s.area.startRow <= s.row < s.area.endRow
    ensures var t := Advance(s);
      t.area.startColumn <= t.column <= t.area.endColumn && t.area.startRow <= t.row < t.area.endRow
  {
  }

  /** `rows` full rows are one row and `rows - 1` more. */
  lemma RowsSplit(rows: nat, w: nat, len: nat)
    requires rows > 0 && len == rows * w
    ensures w <= len && len - w == (rows - 1) * w
  {
    assert rows * w == (rows - 1) * w + w;
  }

  /** From the start column, a buffer of `rows` full rows is drawn without panic, in
      exactly `rows` iterations, provided no row can overflow. */
  lemma {:induction false} RowAlignedFits(s: DrawState, buf: seq<bv8>, rows: nat)
    requires s.column == s.area.startColumn < s.area.endColumn
    requires s.row < 255 && s.area.startRow < 255
    requires |buf| == rows * (s.area.endColumn - s.area.startColumn)
    ensures DrawFits(s, buf) && Chunks(s, buf) == rows
    decreases rows
  {
    var w := s.area.endColumn - s.area.startColumn;
    if rows == 0 {
      assert buf == [];
    } else {
      RowsSplit(rows, w, |buf|);
      var t := Advance(s);
      assert t.column == t.area.startColumn && t.area == s.area && t.row < 255;
      RowAlignedFits(t, buf[w..], rows - 1);
    }
  }

  /** Conversely, from the start column `draw` only completes on whole rows: a buffer that
      ends inside a row makes the last slice panic. */
  lemma {:induction false} RowAlignedOnly(s: DrawState, buf: seq<bv8>)
    requires DrawFits(s, buf)
    requires s.column == s.area.startColumn
    ensures |buf| == Chunks(s, buf) * (s.area.endColumn - s.area.startColumn)
    decreases |buf|
  {
    if buf != [] {
      var w := s.area.endColumn - s.area.startColumn;
      DrawStep(s, buf, false);
      assert Count(s) == w > 0;
      var t := Advance(s);
      assert t.column == t.area.startColumn && t.area == s.area;
      RowAlignedOnly(t, buf[w..]);
      var n := Chunks(t, buf[w..]);
      assert |buf| == (1 + n) * w by {
        assert (1 + n) * w == w + n * w;
      }
    }
  }

  /** Advancing keeps the draw area and, after at least one chunk, leaves the cursor on
      the start column. */
  lemma {:induction false} AdvanceNArea(s: DrawState, n: nat)
    ensures AdvanceN(s, n).area == s.area
    ensures n > 0 ==> AdvanceN(s, n).column == s.area.startColumn
  {
    if n > 0 {
      AdvanceNArea(s, n - 1);
    }
  }

  lemma DropPrefix(c: seq<Event>, a: seq<Event>, b: seq<Event>, k: nat)
    requires c == a + b && k == |a|
    ensures c[k..] == b
  {
  }

  lemma DropOfDrop<T>(xs: seq<T>, k: nat, p: nat, q: nat)
    requires q == k + p && q <= |xs|
    ensures xs[k..][p..] == xs[q..]
  {
  }

  lemma DropNone<T>(xs: seq<T>, n: int)
    requires n == 0
    ensures xs[n..] == xs
  {
  }

  /** The first `n` elements after position `k`, for `k` and `q` equal. */
  lemma RowOfDrop<T>(xs: seq<T>, k: int, q: int, n: int)
    requires 0 <= k == q && 0 <= n && q + n <= |xs|
    ensures xs[k..][..n] == xs[q..q + n]
  {
  }

  /** The four elements after position `k`, for `k` and `q` equal. */
  lemma HeadOfDrop<T>(xs: seq<T>, k: int, q: int)
    requires 0 <= k == q && q + 4 <= |xs|
    ensures xs[k..][0..4] == xs[q..q + 4]
  {
  }

  /** After `i` iterations from the start column, `i` rows of the buffer are consumed and
      what is left still draws without panic, in the remaining iterations. */
  lemma {:induction false} AfterRows(s: DrawState, buf: seq<bv8>, i: nat)
    requires DrawFits(s, buf)
    requires s.column == s.area.startColumn
    requires i <= Chunks(s, buf)
    ensures var k := RowStart(i, s.area.endColumn - s.area.startColumn);
      && 0 <= k <= |buf|
      && DrawFits(AdvanceN(s, i), buf[k..])
      && Chunks(AdvanceN(s, i), buf[k..]) == Chunks(s, buf) - i
    decreases i
  {
    if i > 0 {
      var w := s.area.endColumn - s.area.startColumn;
      AfterRows(s, buf, i - 1);
      var k := RowStart(i - 1, w);
      var u, rest := AdvanceN(s, i - 1), buf[k..];
      AdvanceNArea(s, i - 1);
      FitsStep(u, rest);
      assert Count(u) == w;
      DropOfDrop(buf, k, w, RowStart(i, w));
    }
  }

  /** If the transfers of `e` from position `j` on are those of drawing `buf` from `s`,
      then from four transfers later on they are those of the next iteration. */
  lemma SuffixStep(s: DrawState, buf: seq<bv8>, large: bool, e: seq<Event>, j: nat, j': nat, n: int)
    requires DrawFits(s, buf) && buf != []
    requires j <= |e| && e[j..] == DrawEvents(s, buf, large)
    requires j' == j + 4 && n == Count(s)
    ensures 0 <= n <= |buf| && j' <= |e|
    ensures DrawFits(Advance(s), buf[n..])
    ensures e[j'..] == DrawEvents(Advance(s), buf[n..], large)
  {
    DrawStep(s, buf, large);
    var first := [Data(buf[..Count(s)])] + AddressEvents(Advance(s), large);
    AddressShape(Advance(s), large);
    DropPrefix(e[j..], first, DrawEvents(Advance(s), buf[Count(s)..], large), 4);
    DropOfDrop(e, j, 4, j');
  }

  /** From the start column, the transfers after the first `i` iterations are those of
      drawing the rest of the buffer, `i` rows on, from the cursor after `i` chunks. */
  lemma {:induction false} DrawEventsSuffix(s: DrawState, buf: seq<bv8>, large: bool, i: nat)
    requires DrawFits(s, buf)
    requires s.column == s.area.startColumn
    requires i <= Chunks(s, buf)
    ensures var k, e := RowStart(i, s.area.endColumn - s.area.startColumn), DrawEvents(s, buf, large);
      && 0 <= k <= |buf| && 4 * i <= |e|
      && DrawFits(AdvanceN(s, i), buf[k..])
      && e[4 * i..] == DrawEvents(AdvanceN(s, i), buf[k..], large)
    decreases i
  {
    var w, e := s.area.endColumn - s.area.startColumn, DrawEvents(s, buf, large);
    if i > 0 {
      DrawEventsSuffix(s, buf, large, i - 1);
      AfterRows(s, buf, i - 1);
      var k := RowStart(i - 1, w);
      var u, rest := AdvanceN(s, i - 1), buf[k..];
      AdvanceNArea(s, i - 1);
      assert Count(u) == w;
      SuffixStep(u, rest, large, e, 4 * (i - 1), 4 * i, w);
      DropOfDrop(buf, k, w, RowStart(i, w));
      assert AdvanceN(s, i) == Advance(u);
    } else {
      DropNone(e, 4 * i);
      DropNone(buf, RowStart(i, w));
    }
  }

  /** The first four transfers of `draw` are its first iteration. */
  lemma DrawEventsHead(s: DrawState, buf: seq<bv8>, large: bool)
    requires DrawFits(s, buf) && buf != []
    ensures 0 <= Count(s) <= |buf|
    ensures DrawEvents(s, buf, large)[0..4] == [Data(buf[..Count(s)])] + AddressEvents(Advance(s), large)
  {
    DrawStep(s, buf, large);
    AddressShape(Advance(s), large);
  }

  /** The offset of row `i` in a buffer of rows `w` bytes wide. */
  function RowStart(i: nat, w: int): int
  {
    if i == 0 then 0 else RowStart(i - 1, w) + w
  }

  lemma {:induction false} RowStartProduct(i: nat, w: int)
    ensures RowStart(i, w) == i * w
  {
    if i > 0 {
      RowStartProduct(i - 1, w);
      assert i * w == (i - 1) * w + w;
    }
  }

  /** From the start column, iteration `i` sends row `i` of the buffer, exactly one row
      wide, then the address of the cursor after `i + 1` rows. */
  lemma DrawEventsAt(s: DrawState, buf: seq<bv8>, large: bool, i: nat)
    requires DrawFits(s, buf)
    requires s.column == s.area.startColumn
    requires i < Chunks(s, buf)
    ensures var w, e := s.area.endColumn - s.area.startColumn, DrawEvents(s, buf, large);
      && |e| == 4 * Chunks(s, buf)
      && 0 <= i * w && i * w + w <= |buf|
      && e[4 * i..4 * i + 4] == [Data(buf[i * w..i * w + w])] + AddressEvents(AdvanceN(s, i + 1), large)
  {
    var w, e := s.area.endColumn - s.area.startColumn, DrawEvents(s, buf, large);
    DrawEventsLength(s, buf, large);
    DrawEventsSuffix(s, buf, large, i);
    RowStartProduct(i, w);
    var k := RowStart(i, w);
    var u, rest := AdvanceN(s, i), buf[k..];
    AdvanceNArea(s, i);
    DrawEventsHead(u, rest, large);
    assert Count(u) == w;
    assert Advance(u) == AdvanceN(s, i + 1);
    HeadOfDrop(e, 4 * i, 4 * i);
    RowOfDrop(buf, k, i * w, w);
  }

  /** The transfers of one iteration of `draw` from `s`: the chunk, then the address of the
      advanced cursor. */
  function Step(s: DrawState, buf: seq<bv8>, large: bool): (step: seq<Event>)
    requires 0 <= Count(s) <= |buf| && s.row < 255
    ensures |step| == 4
  {
    AddressShape(Advance(s), large);
    [Data(buf[..Count(s)])] + AddressEvents(Advance(s), large)
  }

  /** After `i` complete iterations of `draw(buffer)` from `s0`: the cursor `cur` has
      advanced `i` times, `done` are the transfers made so far, four per iteration, and
      drawing what is left, `buf`, from `cur` makes the rest of them. */
  ghost predicate DrawnSoFar(s0: DrawState, buffer: seq<bv8>, large: bool,
                             cur: DrawState, buf: seq<bv8>, done: seq<Event>, i: nat)
  {
    && DrawFits(s0, buffer)
    && DrawFits(cur, buf)
    && cur == AdvanceN(s0, i)
    && DrawEvents(s0, buffer, large) == done + DrawEvents(cur, buf, large)
    && |done| == 4 * i
  }

  lemma DrawnStart(s0: DrawState, buffer: seq<bv8>, large: bool)
    requires DrawFits(s0, buffer)
    ensures DrawnSoFar(s0, buffer, large, s0, buffer, [], 0)
  {
  }

  /** An iteration that completes: the chunk is within the buffer and the row can move on,
      and afterwards the same holds one iteration further on, with fewer left to go. */
  lemma DrawnStep(s0: DrawState, buffer: seq<bv8>, large: bool,
                  cur: DrawState, buf: seq<bv8>, done: seq<Event>, i: nat)
    requires DrawnSoFar(s0, buffer, large, cur, buf, done, i) && buf != []
    ensures 0 <= Count(cur) <= |buf| && cur.column <= cur.area.endColumn && cur.row < 255
    ensures DrawnSoFar(s0, buffer, large, Advance(cur), buf[Count(cur)..], done + Step(cur, buf, large), i + 1)
    ensures Chunks(Advance(cur), buf[Count(cur)..]) < Chunks(cur, buf)
  {
    DrawStep(cur, buf, large);
    var step, rest := Step(cur, buf, large), DrawEvents(Advance(cur), buf[Count(cur)..], large);
    Regroup(done, step, rest);
  }

  /** A bus whose budget runs out within the iteration `step` after `done` delivers all
      of `done` and a prefix of `step`, `budget` transfers in all. */
  lemma DeliveredWithinStep(t0: seq<Event>, done: seq<Event>, step: seq<Event>, rest: seq<Event>, budget: nat)
    requires |done| <= budget < |done| + |step|
    ensures t0 + Delivered(done + (step + rest), budget) == (t0 + done) + Delivered(step, budget - |done|)
    ensures |Delivered(done + (step + rest), budget)| == budget
  {
    DeliveredSplit(done, step + rest, budget);
    DeliveredWithin(step, rest, budget - |done|);
    Regroup(t0, done, Delivered(step, budget - |done|));
  }

  /** The number of iterations a bus with `budget` transfers starts, four transfers each. */
  lemma StartedIterations(budget: nat, i: nat)
    requires 4 * i <= budget < 4 * i + 4
    ensures (budget + 3) / 4 == if budget == 4 * i then i else i + 1
  {
  }

  /** An iteration that fails after `done`: the bus delivered the earlier iterations and a
      prefix of this one, and the cursor has moved on exactly when the chunk went through. */
  lemma DrawnFailure(s0: DrawState, buffer: seq<bv8>, large: bool,
                     cur: DrawState, buf: seq<bv8>, done: seq<Event>, i: nat,
                     t0: seq<Event>, budget: nat)
    requires DrawnSoFar(s0, buffer, large, cur, buf, done, i) && buf != []
    requires 0 <= Count(cur) <= |buf| && cur.row < 255
    requires |done| <= budget < |done| + 4
    ensures var all := DrawEvents(s0, buffer, large);
      && t0 + Delivered(all, budget) == (t0 + done) + Delivered(Step(cur, buf, large), budget - |done|)
      && budget < |all|
      && AdvanceN(s0, (|Delivered(all, budget)| + 3) / 4) == if budget == |done| then cur else Advance(cur)
  {
    DrawStep(cur, buf, large);
    DeliveredWithinStep(t0, done, Step(cur, buf, large), DrawEvents(Advance(cur), buf[Count(cur)..], large), budget);
    StartedIterations(budget, i);
  }

  /** The loop has consumed the buffer: every transfer has been made, and the cursor has
      advanced once per iteration. */
  lemma DrawnEnd(s0: DrawState, buffer: seq<bv8>, large: bool,
                 cur: DrawState, done: seq<Event>, i: nat, budget: nat)
    requires DrawnSoFar(s0, buffer, large, cur, [], done, i)
    requires |done| <= budget
    ensures var all := DrawEvents(s0, buffer, large);
      && all == done
      && Delivered(all, budget) == all
      && AdvanceN(s0, (|Delivered(all, budget)| + 3) / 4) == cur
  {
    assert (4 * i + 3) / 4 == i;
  }

}

module Properties {
  import opened Transport
  import opened Commands
  import opened Display
  import opened Drawing

  /** `DisplayProperties`: the owned variant and transport, the rotation, the draw area
      and the write cursor. */
  class DisplayProperties {
    const variant: Variant
    const iface: Bus
    var displayRotation: Rotation
    var drawAreaStart: (uint8, uint8)
    var drawAreaEnd: (uint8, uint8)
    var drawColumn: uint8
    var drawRow: uint8

    /** The draw area and cursor as a value. */
    function State(): DrawState
      reads this
    {
      DrawState(Area(drawAreaStart.0, drawAreaStart.1, drawAreaEnd.0, drawAreaEnd.1), drawColumn, drawRow)
    }

    /** `new`: the empty area at the origin, the cursor at the origin, the given rotation. */
    constructor (variant: Variant, iface: Bus, displayRotation: Rotation)
      ensures this.variant == variant && this.iface == iface
      ensures this.displayRotation == displayRotation
      ensures State() == DrawState(Area(0, 0, 0, 0), 0, 0)
    {
      this.variant := variant;
      this.iface := iface;
      this.displayRotation := displayRotation;
      drawAreaStart, drawAreaEnd := (0, 0), (0, 0);
      drawColumn, drawRow := 0, 0;
    }

    /** `init_column_mode`: the variant's initialisation, then the stored rotation applied
        again; the rotation itself does not change. */
    method InitColumnMode() returns (r: Outcome)
      modifies this, iface
      ensures iface.Transmitted(Encoded(variant.init) + Encoded(RotationCommands(old(displayRotation))), r)
      ensures displayRotation == old(displayRotation) && State() == old(State())
    {
      var rotation := displayRotation;
      r := Display.InitColumnMode(variant, iface);
      if r.Err? {
        DeliveredWithin(Encoded(variant.init), Encoded(RotationCommands(rotation)), old(iface.budget));
        return;
      }
      DeliveredThen(old(iface.trace), old(iface.budget), Encoded(variant.init), Encoded(RotationCommands(rotation)));
      r := SetRotation(rotation);
    }

    /** `set_draw_area(start, end)`: records the area, puts the cursor on its start, and
        sends the address sequence of that cursor. */
    method SetDrawArea(start: (uint8, uint8), end: (uint8, uint8)) returns (r: Outcome)
      modifies this, iface
      ensures State() == DrawState(Area(start.0, start.1, end.0, end.1), start.0, start.1)
      ensures displayRotation == old(displayRotation)
      ensures iface.Transmitted(AddressEvents(State(), variant.largePageAddress), r)
    {
      drawAreaStart := start;
      drawAreaEnd := end;
      drawColumn := start.0;
      drawRow := start.1;
      r := SendDrawAddress();
    }

    /** `send_draw_address`: the page command (large or packed form by the variant), then
        the two column nibbles, each sent with `?`, so the first failure ends it. */
    method SendDrawAddress() returns (r: Outcome)
      modifies iface
      ensures iface.Transmitted(AddressEvents(State(), variant.largePageAddress), r)
    {
      r := SendAll(AddressCommands(State(), variant.largePageAddress), iface);
      AddressEncoded(State(), variant.largePageAddress);
    }

    /** `draw(buffer)`: streams the buffer in chunks that run to the end column, sending
        the address sequence after every chunk; the first failing transfer ends it. The
        cursor has then advanced once per chunk whose data transfer went through: once
        per chunk when all goes well. */
    method Draw(buffer: seq<bv8>) returns (r: Outcome)
      requires DrawFits(State(), buffer)
      modifies this, iface
      ensures var all := DrawEvents(old(State()), buffer, variant.largePageAddress);
        && iface.Transmitted(all, r)
        && State() == AdvanceN(old(State()), (|Delivered(all, old(iface.budget))| + 3) / 4)
      ensures displayRotation == old(displayRotation)
    {
      var large := variant.largePageAddress;
      ghost var s0, t0, k0 := State(), iface.trace, iface.budget;
      ghost var cur, done: seq<Event>, i: nat := s0, [], 0;
      DrawnStart(s0, buffer, large);
      var buf := buffer;
      while buf != []
        invariant State() == cur
        invariant DrawnSoFar(s0, buffer, large, cur, buf, done, i)
        invariant iface.trace == t0 + done && iface.budget == k0 - |done|
        invariant displayRotation == old(displayRotation)
        decreases Chunks(cur, buf)
      {
        DrawnStep(s0, buffer, large, cur, buf, done, i);
        ghost var step := Step(cur, buf, large);
        var rest;
        r, rest := DrawChunk(buf);
        if r.Err? {
          DrawnFailure(s0, buffer, large, cur, buf, done, i, t0, k0);
          return;
        }
        Regroup(t0, done, step);
        buf := rest;
        cur, done, i := Advance(cur), done + step, i + 1;
      }
      DrawnEnd(s0, buffer, large, cur, done, i, k0);
      r := Ok;
    }

    /** The body of the loop in `draw`: the next `draw_area_end.0 - draw_column` bytes of
        `buf` go out as data; the cursor then sits on the end column, so it returns to the
        start column and moves down a row, wrapping to the start row at the end row, and
        the address of the new cursor is sent. A failing transfer returns at once, so a
        failed data transfer leaves the cursor as it was. `rest` is what is left to draw. */
    method DrawChunk(buf: seq<bv8>) returns (r: Outcome, rest: seq<bv8>)
      requires 0 <= Count(State()) <= |buf| && drawRow < 255
      modifies this, iface
      ensures rest == buf[Count(old(State()))..]
      ensures iface.Transmitted(Step(old(State()), buf, variant.largePageAddress), r)
      ensures State() == if old(iface.budget) == 0 then old(State()) else Advance(old(State()))
      ensures r.Ok? ==>
        && iface.trace == old(iface.trace) + Step(old(State()), buf, variant.largePageAddress)
        && iface.budget == old(iface.budget) - 4
      ensures displayRotation == old(displayRotation)
    {
      var count := drawAreaEnd.0 - drawColumn;
      var chunk := buf[..count];
      rest := buf[count..];
      ghost var address := AddressEvents(Advance(State()), variant.largePageAddress);
      r := iface.SendData(chunk);
      if r.Err? {
        return;
      }
      DeliveredThen(old(iface.trace), old(iface.budget), [Data(chunk)], address);
      drawColumn := drawColumn + |chunk|;
      if drawColumn >= drawAreaEnd.0 {
        drawColumn := drawAreaStart.0;
        var row := drawRow + 1;
        if row >= drawAreaEnd.1 {
          row := drawAreaStart.1;
        }
        drawRow := row;
        r := SendDrawAddress();
      }
    }

    /** `get_dimensions` */
    function GetDimensions(): (uint8, uint8)
      reads this
    {
      RotatedDimensions(variant, displayRotation)
    }

    /** `get_rotation` */
    function GetRotation(): Rotation
      reads this
    {
      displayRotation
    }

    /** `set_rotation`: stores the rotation, then sends the segment-remap and the
        scan-direction command its `match` arm selects, each with `?`. */
    method SetRotation(rotation: Rotation) returns (r: Outcome)
      modifies this, iface
      ensures displayRotation == rotation && State() == old(State())
      ensures iface.Transmitted(Encoded(RotationCommands(rotation)), r)
    {
      displayRotation := rotation;
      r := SendAll(RotationCommands(rotation), iface);
    }

    /** `display_on` */
    method DisplayOn(on: bool) returns (r: Outcome)
      modifies iface
      ensures iface.Transmitted([Cmd([0xAE | Bit(on)])], r)
    {
      r := Send(Command.DisplayOn(on), iface);
    }

    /** `set_contrast` */
    method SetContrast(contrast: bv8) returns (r: Outcome)
      modifies iface
      ensures iface.Transmitted([Cmd([0x81, contrast])], r)
    {
      r := Send(Contrast(contrast), iface);
    }
  }
}
