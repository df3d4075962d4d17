/** Graphics mode: a frame buffer of one bit per pixel, eight vertically adjacent pixels
    to a byte, that `set_pixel` edits in memory and `flush` streams to the controller
    through the addressing state machine. */
module Graphics {
  import opened Transport
  import opened Commands
  import opened Display
  import opened Drawing
  import opened Properties

  /** `DEFAULT_BUFFER_SIZE`: room for a 160 x 160 panel. */
  const DefaultBufferSize: nat := 160 * 160 / 8

  /** A buffer of `size` zero bytes: every pixel off. */
  function Blank(size: nat): (b: seq<bv8>)
    ensures |b| == size && forall i :: 0 <= i < size ==> b[i] == 0
  {
    seq(size, _ => 0)
  }

  // ---------------------------------------------------------------------------------
  // Pixels

  /** Where `set_pixel` writes: bit `bit` of byte `index` of the buffer, or nowhere. */
  datatype Location = Nowhere | At(index: nat, bit: nat)

  /** `usize` arithmetic on the driver's 32-bit targets, as a release build computes it:
      the result wraps modulo 2^32. */
  function Wrap(n: nat): (r: nat)
    ensures r < 0x1_0000_0000 && (n < 0x1_0000_0000 ==> r == n)
  {
    n % 0x1_0000_0000
  }

  /** The coordinates `set_pixel` uses as (column, line): unrotated (and at 180 degrees)
      `x` is the column and `y` the line; at 90 and 270 degrees the two are exchanged. */
  function Axes(rotation: Rotation, x: uint32, y: uint32): (uint32, uint32)
  {
    if Swapped(rotation) then (y, x) else (x, y)
  }

  /** The byte index of (column, line): `line / 8 * width + column` in usize. */
  function PixelIndex(width: uint8, column: uint32, line: uint32): nat
  {
    Wrap(Wrap(line / 8 * width) + column)
  }

  /** On a panel's own coordinates the index never wraps. */
  lemma SmallIndex(width: uint8, column: uint32, line: uint32)
    requires column < 0x100 && line < 0x100
    ensures PixelIndex(width, column, line) == line / 8 * width + column
  {
    MulMono(line / 8, 32, width);
  }

  /** The guards and the index arithmetic of `set_pixel` on a buffer of `size` bytes for
      a variant `width` columns wide. The column is checked against the width, the line
      is not checked at all: only the byte index `line / 8 * width + column`, computed in
      usize, is checked against the buffer length. */
  function Locate(width: uint8, rotation: Rotation, x: uint32, y: uint32, size: nat): (l: Location)
    ensures l.At? ==> l.index < size && l.bit < 8
  {
    var (column, line) := Axes(rotation, x, y);
    if column >= width then Nowhere
    else
      var index := PixelIndex(width, column, line);
      if index >= size then Nowhere else At(index, line % 8)
  }

  /** The byte index of the pixel fits in a 32-bit usize, so no step of its computation
      wraps (and a debug build does not panic on it). */
  predicate IndexFits(width: uint8, rotation: Rotation, x: uint32, y: uint32)
  {
    var (column, line) := Axes(rotation, x, y);
    line / 8 * width + column < 0x1_0000_0000
  }

  /** `1 << bit` as a u8. */
  function Mask(bit: nat): bv8
    requires bit < 8
  {
    1 << bit
  }

  /** `byte &= !mask` for a zero value, `byte |= mask` otherwise. */
  function Paint(byte: bv8, mask: bv8, value: bv8): bv8
  {
    if value == 0 then byte & !mask else byte | mask
  }

  /** The buffer after `set_pixel(x, y, value)`. */
  function Plotted(buffer: seq<bv8>, width: uint8, rotation: Rotation, x: uint32, y: uint32, value: bv8): (b: seq<bv8>)
    ensures |b| == |buffer|
  {
    match Locate(width, rotation, x, y, |buffer|)
    case Nowhere => buffer
    case At(index, bit) => buffer[index := Paint(buffer[index], Mask(bit), value)]
  }

  /** Painting sets or clears exactly the masked bit. */
  lemma PaintBits(byte: bv8, bit: nat, value: bv8)
    requires bit < 8
    ensures Paint(byte, Mask(bit), value) & Mask(bit) == if value == 0 then 0 else Mask(bit)
    ensures forall j :: 0 <= j < 8 && j != bit ==> Paint(byte, Mask(bit), value) & Mask(j) == byte & Mask(j)
  {
    forall j | 0 <= j < 8 && j != bit
      ensures Paint(byte, Mask(bit), value) & Mask(j) == byte & Mask(j)
    {
      assert Mask(bit) & Mask(j) == 0;
    }
  }

  /** `set_pixel` changes one bit of one byte at most: the located bit becomes 1 for a
      non-zero value and 0 for zero, and every other bit of the buffer is kept. */
  lemma PlottedFrame(buffer: seq<bv8>, width: uint8, rotation: Rotation, x: uint32, y: uint32, value: bv8)
    ensures var b, l := Plotted(buffer, width, rotation, x, y, value), Locate(width, rotation, x, y, |buffer|);
      && (l.Nowhere? ==> b == buffer)
      && (l.At? ==>
        && (forall i :: 0 <= i < |buffer| && i != l.index ==> b[i] == buffer[i])
        && (b[l.index] & Mask(l.bit) == if value == 0 then 0 else Mask(l.bit))
        && (forall j :: 0 <= j < 8 && j != l.bit ==> b[l.index] & Mask(j) == buffer[l.index] & Mask(j)))
  {
    var l := Locate(width, rotation, x, y, |buffer|);
    if l.At? {
      PaintBits(buffer[l.index], l.bit, value);
    }
  }

  /** Painting the same bit twice is painting it once; clearing a bit that was set is
      clearing it. */
  lemma PaintTwice(byte: bv8, bit: nat, first: bv8, value: bv8)
    requires bit < 8
    ensures Paint(Paint(byte, Mask(bit), first), Mask(bit), value) == Paint(byte, Mask(bit), value)
  {
  }

  /** Setting a pixel twice is setting it once, and a pixel set and then cleared ends as
      if it had only been cleared: the later call decides the bit. */
  lemma PlottedTwice(buffer: seq<bv8>, width: uint8, rotation: Rotation, x: uint32, y: uint32, first: bv8, value: bv8)
    ensures Plotted(Plotted(buffer, width, rotation, x, y, first), width, rotation, x, y, value)
            == Plotted(buffer, width, rotation, x, y, value)
  {
    var l := Locate(width, rotation, x, y, |buffer|);
    if l.At? {
      PaintTwice(buffer[l.index], l.bit, first, value);
    }
  }

  /** Turning on a pixel that was off and then off again restores the buffer. */
  lemma PlottedUndo(buffer: seq<bv8>, width: uint8, rotation: Rotation, x: uint32, y: uint32)
    requires var l := Locate(width, rotation, x, y, |buffer|);
      l.At? ==> buffer[l.index] & Mask(l.bit) == 0
    ensures Plotted(Plotted(buffer, width, rotation, x, y, 1), width, rotation, x, y, 0) == buffer
  {
    PlottedTwice(buffer, width, rotation, x, y, 1, 0);
    var l := Locate(width, rotation, x, y, |buffer|);
    if l.At? {
      var b := buffer[l.index];
      assert Paint(b, Mask(l.bit), 0) == b;
      assert buffer[l.index := b] == buffer;
    }
  }

  /** Clearing a pixel of a blank buffer leaves it blank. */
  lemma ClearStaysClear(size: nat, width: uint8, rotation: Rotation, x: uint32, y: uint32)
    ensures Plotted(Blank(size), width, rotation, x, y, 0) == Blank(size)
  {
    var l := Locate(width, rotation, x, y, size);
    if l.At? {
      assert Paint(0, Mask(l.bit), 0) == 0;
      assert Blank(size)[l.index := 0] == Blank(size);
    }
  }

  /** The buffer after the calls `set_pixel(x, y, value)` of `calls`, in order. */
  function PlottedAll(buffer: seq<bv8>, width: uint8, rotation: Rotation, calls: seq<(uint32, uint32, bv8)>): (b: seq<bv8>)
    ensures |b| == |buffer|
    decreases |calls|
  {
    if calls == [] then buffer
    else
      var (x, y, value) := calls[0];
      PlottedAll(Plotted(buffer, width, rotation, x, y, value), width, rotation, calls[1..])
  }

  /** `clear` followed by any run of `set_pixel(x, y, 0)` leaves every pixel off. */
  lemma {:induction false} ClearedStaysClear(size: nat, width: uint8, rotation: Rotation, calls: seq<(uint32, uint32, bv8)>)
    requires forall i :: 0 <= i < |calls| ==> calls[i].2 == 0
    ensures PlottedAll(Blank(size), width, rotation, calls) == Blank(size)
    decreases |calls|
  {
    if calls != [] {
      var (x, y, value) := calls[0];
      ClearStaysClear(size, width, rotation, x, y);
      ClearedStaysClear(size, width, rotation, calls[1..]);
    }
  }

  /** Rotation by 180 degrees addresses the buffer as no rotation does, and 270 as 90:
      the same call edits the same bit. At 90 degrees the coordinates are exchanged. */
  lemma LocateRotations(width: uint8, x: uint32, y: uint32, size: nat)
    ensures Locate(width, Rotate180, x, y, size) == Locate(width, Rotate0, x, y, size)
    ensures Locate(width, Rotate270, x, y, size) == Locate(width, Rotate90, x, y, size)
    ensures Locate(width, Rotate90, x, y, size) == Locate(width, Rotate0, y, x, size)
  {
  }

  /** Distinct pixels whose index fits in a usize never share a bit: the located byte
      and bit determine the pixel. */
  lemma LocateInjective(width: uint8, rotation: Rotation, x1: uint32, y1: uint32, x2: uint32, y2: uint32, size: nat)
    requires IndexFits(width, rotation, x1, y1) && IndexFits(width, rotation, x2, y2)
    requires Locate(width, rotation, x1, y1, size).At?
    requires Locate(width, rotation, x1, y1, size) == Locate(width, rotation, x2, y2, size)
    ensures x1 == x2 && y1 == y2
  {
    var (c1, l1) := Axes(rotation, x1, y1);
    var (c2, l2) := Axes(rotation, x2, y2);
    assert PixelIndex(width, c1, l1) == l1 / 8 * width + c1;
    assert PixelIndex(width, c2, l2) == l2 / 8 * width + c2;
    DivUnique(l1 / 8 * width + c1, width, l1 / 8, c1);
    DivUnique(l2 / 8 * width + c2, width, l2 / 8, c2);
    assert l1 == 8 * (l1 / 8) + l1 % 8 && l2 == 8 * (l2 / 8) + l2 % 8;
  }

  /** Without that, distinct pixels do share a bit: on a panel 128 columns wide, line
      2^28 is 2^25 pages down, whose index 2^32 + 5 wraps to 5, so `set_pixel(5, 2^28, v)`
      edits the pixel at (5, 0). */
  lemma IndexWraps(size: nat)
    requires size > 5
    ensures !IndexFits(128, Rotate0, 5, 0x1000_0000)
    ensures Locate(128, Rotate0, 5, 0x1000_0000, size) == Locate(128, Rotate0, 5, 0, size) == At(5, 0)
  {
    assert 0x1000_0000 / 8 * 128 == 0x1_0000_0000;
  }

  /** On a panel whose height is a whole number of pages, every pixel inside the rotated
      dimensions lands in the part of the buffer that `flush` sends. */
  lemma VisiblePixel(v: Variant, rotation: Rotation, x: uint32, y: uint32, size: nat)
    requires v.height % 8 == 0 && FlushLength(v) <= size
    requires var (w, h) := RotatedDimensions(v, rotation); x < w && y < h
    ensures var l := Locate(v.width, rotation, x, y, size);
      l.At? && l.index < FlushLength(v)
  {
    var (column, line) := Axes(rotation, x, y);
    var w, q := v.width, v.height / 8;
    WholePages(v);
    assert line / 8 < q;
    MulMono(line / 8 + 1, q, w);
    assert line / 8 * w + column < (line / 8 + 1) * w;
  }

  /** The line is never checked against the height: with room in the buffer, the first
      pixel below the last line is written, outside what `flush` sends. */
  lemma LineUnchecked(v: Variant, size: nat)
    requires v.width > 0 && v.height % 8 == 0 && FlushLength(v) + v.width <= size
    ensures Locate(v.width, Rotate0, 0, v.height, size) == At(FlushLength(v), 0)
  {
    WholePages(v);
    SmallIndex(v.width, 0, v.height);
  }

  // ---------------------------------------------------------------------------------
  // Flush

  /** The bytes `flush` sends: `width * height / 8`, in usize arithmetic. */
  function FlushLength(v: Variant): nat
  {
    v.width * v.height / 8
  }

  /** The draw area `flush` sets: the native panel, shifted right by the column offset. */
  function FlushArea(v: Variant): Area
    requires v.width + v.columnOffset < 0x100
  {
    Area(v.columnOffset, 0, v.width + v.columnOffset, v.height)
  }

  /** The cursor after `flush`'s `set_draw_area`. */
  function FlushStart(v: Variant): (s: DrawState)
    requires v.width + v.columnOffset < 0x100
  {
    DrawState(FlushArea(v), v.columnOffset, 0)
  }

  /** The number of rows `flush` sends: the panel's whole pages (`FlushPages`). */
  function FlushRows(v: Variant): nat
  {
    if v.width == 0 then 0 else v.height / 8
  }

  /** When `flush` on a buffer of `size` bytes runs without a panic (exact for a bus that
      completes every transfer, sufficient otherwise): the end
      column `width + COLUMN_OFFSET` fits in a u8, the slice fits in the buffer, and the
      slice is a whole number of rows (see `FlushFits`). */
  predicate Flushable(v: Variant, size: nat)
  {
    && v.width + v.columnOffset < 0x100
    && FlushLength(v) <= size
    && (v.width == 0 || FlushLength(v) % v.width == 0)
  }

  /** On a bus that completes every transfer, `flush` draws its slice without panic exactly
      when the slice is a whole number of rows, and then in `FlushRows` iterations. */
  lemma FlushFits(v: Variant, frame: seq<bv8>)
    requires v.width + v.columnOffset < 0x100 && |frame| == FlushLength(v)
    ensures DrawFits(FlushStart(v), frame) <==> (v.width == 0 || |frame| % v.width == 0)
    ensures DrawFits(FlushStart(v), frame) ==> Chunks(FlushStart(v), frame) == FlushRows(v)
  {
    var s, w := FlushStart(v), v.width;
    if w == 0 {
      assert frame == [];
    } else {
      var n := |frame|;
      DivUnique(n, w, n / w, n % w);
      if n % w == 0 {
        RowAlignedFits(s, frame, n / w);
      }
      if DrawFits(s, frame) {
        RowAlignedOnly(s, frame);
        DivUnique(n, w, Chunks(s, frame), 0);
        FlushPages(v);
      }
    }
  }

  /** A flushable buffer is drawn without panic, in `FlushRows` iterations. */
  lemma FlushDraws(v: Variant, buffer: seq<bv8>)
    requires Flushable(v, |buffer|)
    ensures DrawFits(FlushStart(v), buffer[..FlushLength(v)])
    ensures Chunks(FlushStart(v), buffer[..FlushLength(v)]) == FlushRows(v)
  {
    FlushFits(v, buffer[..FlushLength(v)]);
  }

  /** The bytes `flush` sends make `height / 8` rows of `width` bytes, and a partial last
      page, if any, less than one more row. */
  lemma FlushPages(v: Variant)
    requires v.width > 0
    ensures FlushLength(v) / v.width == v.height / 8
  {
    var w, q, t := v.width, v.height / 8, v.height % 8;
    var u := w * t / 8;
    PagesSplit(w, v.height, q, t);
    ScaledRemainder(w, t);
    DivUnique(FlushLength(v), w, q, u);
  }

  /** `w * h / 8` is `q` rows of `w` and a remainder `w * t / 8`, where `h == 8 * q + t`. */
  lemma PagesSplit(w: int, h: int, q: int, t: int)
    requires w >= 0 && 0 <= t < 8 && h == 8 * q + t
    ensures w * h / 8 == q * w + w * t / 8
  {
    var u, r := w * t / 8, w * t % 8;
    assert w * h == (q * w + u) * 8 + r by {
      assert w * h == 8 * (q * w) + w * t;
    }
    DivUnique(w * h, 8, q * w + u, r);
  }

  /** Less than a page of lines makes less than a row of bytes. */
  lemma ScaledRemainder(w: int, t: int)
    requires w > 0 && 0 <= t < 8
    ensures 0 <= w * t / 8 < w
  {
    MulMono(t, 7, w);
  }

  /** A panel whose height is a whole number of pages is flushed whole, `width` bytes per
      page. */
  lemma WholePages(v: Variant)
    requires v.height % 8 == 0
    ensures FlushLength(v) == (v.height / 8) * v.width
    ensures v.width > 0 ==> FlushLength(v) % v.width == 0
  {
    var q := v.height / 8;
    assert v.width * v.height == (q * v.width) * 8;
    DivUnique(v.width * v.height, 8, q * v.width, 0);
    if v.width > 0 {
      DivUnique(q * v.width, v.width, q, 0);
    }
  }

  /** The transfers of `flush` on a bus that never fails: the address sequence of the
      area's origin, then `draw` of the first `FlushLength` bytes of the buffer. */
  function FlushEvents(v: Variant, buffer: seq<bv8>): seq<Event>
    requires Flushable(v, |buffer|)
  {
    var frame := buffer[..FlushLength(v)];
    FlushFits(v, frame);
    AddressEvents(FlushStart(v), v.largePageAddress) + DrawEvents(FlushStart(v), frame, v.largePageAddress)
  }

  /** `flush` starts at page 0 in the offset column, sends the first `FlushLength` bytes
      of the buffer and nothing else as data, and sends one address sequence of three
      commands before the first row and after each row. */
  lemma FlushShape(v: Variant, buffer: seq<bv8>)
    requires Flushable(v, |buffer|)
    ensures var e, rows := FlushEvents(v, buffer), FlushRows(v);
      && |e| == 3 + 4 * rows
      && e[..3] == AddressEvents(DrawState(FlushArea(v), v.columnOffset, 0), v.largePageAddress)
      && Payload(e) == buffer[..FlushLength(v)]
      && CommandCount(e) == 3 + 3 * rows
  {
    var frame, s, large := buffer[..FlushLength(v)], FlushStart(v), v.largePageAddress;
    FlushFits(v, frame);
    var a, d := AddressEvents(s, large), DrawEvents(s, frame, large);
    AddressShape(s, large);
    DrawEventsLength(s, frame, large);
    DrawPayload(s, frame, large);
    PayloadAppend(a, d);
    CommandCountAppend(a, d);
    assert (a + d)[..3] == a;
  }

  /** Row `i` of the frame, `width` bytes from byte `i * width`, goes out as one data
      transfer right after the address of page `i`, and is followed by the address of
      page `i + 1` in the offset column. */
  lemma FlushRowAt(v: Variant, buffer: seq<bv8>, i: nat)
    requires Flushable(v, |buffer|) && i < FlushRows(v)
    ensures 3 + 4 * i + 4 <= |FlushEvents(v, buffer)|
    ensures i * v.width + v.width <= FlushLength(v)
    ensures FlushEvents(v, buffer)[3 + 4 * i..3 + 4 * i + 4] ==
      [Data(buffer[i * v.width..i * v.width + v.width])]
      + AddressEvents(DrawState(FlushArea(v), v.columnOffset, i + 1), v.largePageAddress)
  {
    var frame, s, large, w := buffer[..FlushLength(v)], FlushStart(v), v.largePageAddress, v.width;
    FlushDraws(v, buffer);
    var a, d := AddressEvents(s, large), DrawEvents(s, frame, large);
    AddressShape(s, large);
    DrawEventsAt(s, frame, large, i);
    assert w == s.area.endColumn - s.area.startColumn;
    AdvanceNRows(s, i + 1);
    SliceAfter(a, d, 3 + 4 * i, 4 * i, 4);
    SliceOfPrefix(buffer, FlushLength(v), i * w, i * w + w);
    assert FlushEvents(v, buffer) == a + d;
    assert AdvanceN(s, i + 1) == DrawState(FlushArea(v), v.columnOffset, i + 1);
  }

  /** A slice of a prefix is the same slice of the whole. */
  lemma SliceOfPrefix(buffer: seq<bv8>, n: int, lo: int, hi: int)
    requires 0 <= lo <= hi <= n <= |buffer|
    ensures buffer[..n][lo..hi] == buffer[lo..hi]
  {
  }

  /** The slice of `a + d` that starts `j` into `d`. */
  lemma SliceAfter(a: seq<Event>, d: seq<Event>, p: int, j: int, n: int)
    requires p == |a| + j && 0 <= j && 0 <= n && j + n <= |d|
    ensures (a + d)[p..p + n] == d[j..j + n]
  {
  }

  /** After a complete flush the cursor is back in the offset column, `FlushRows` pages
      down. */
  lemma FlushEnd(v: Variant, buffer: seq<bv8>, budget: nat)
    requires Flushable(v, |buffer|)
    requires |FlushEvents(v, buffer)| <= budget
    ensures AdvanceN(FlushStart(v), |Delivered(FlushEvents(v, buffer), budget)| / 4)
            == DrawState(FlushArea(v), v.columnOffset, FlushRows(v))
  {
    FlushShape(v, buffer);
    assert |Delivered(FlushEvents(v, buffer), budget)| / 4 == FlushRows(v);
    if v.width > 0 && v.height > 0 {
      AdvanceNRows(FlushStart(v), FlushRows(v));
    }
  }

  /** Counting the rows started from the whole flush or from its `draw` alone agrees. */
  lemma RowsStarted(address: seq<Event>, draw: seq<Event>, budget: nat)
    requires |address| == 3 <= budget
    ensures (|Delivered(draw, budget - 3)| + 3) / 4 == |Delivered(address + draw, budget)| / 4
  {
    DeliveredSplit(address, draw, budget);
  }

  // ---------------------------------------------------------------------------------
  // Arithmetic

  /** Quotient and remainder are unique. */
  lemma DivUnique(n: int, w: int, q: int, t: int)
    requires w > 0 && 0 <= t < w && n == q * w + t
    ensures n / w == q && n % w == t
  {
    var q', t' := n / w, n % w;
    if q' < q {
      MulMono(q' + 1, q, w);
    } else if q < q' {
      MulMono(q + 1, q', w);
    }
  }

  lemma MulMono(a: int, b: int, w: int)
    requires a <= b && w >= 0
    ensures a * w <= b * w
  {
    assert b * w - a * w == (b - a) * w;
  }

  // ---------------------------------------------------------------------------------
  // The mode

  /** `GraphicsMode`: the display properties it owns and its frame buffer of `BS` bytes. */
  class GraphicsMode {
    const properties: DisplayProperties
    const buffer: array<bv8>

    /** `new`: takes the properties and a zeroed buffer of `size` bytes. */
    constructor (properties: DisplayProperties, size: nat)
      ensures this.properties == properties
      ensures fresh(buffer) && buffer[..] == Blank(size)
    {
      this.properties := properties;
      buffer := new bv8[size](_ => 0);
    }

    /** `release`: gives the properties back. */
    method Release() returns (p: DisplayProperties)
      ensures p == properties
    {
      p := properties;
    }

    /** `clear`: every pixel off, in memory only. */
    method Clear()
      modifies buffer
      ensures buffer[..] == Blank(buffer.Length)
    {
      forall i | 0 <= i < buffer.Length {
        buffer[i] := 0;
      }
    }

    /** `set_pixel(x, y, value)`: edits the located bit of the buffer, in memory only. */
    method SetPixel(x: uint32, y: uint32, value: bv8)
      modifies buffer
      ensures buffer[..] == Plotted(old(buffer[..]), properties.variant.width, properties.displayRotation, x, y, value)
    {
      var (width, _) := properties.variant.Dimensions();
      var rotation := properties.GetRotation();
      var index, bit;
      match rotation {
        case Rotate0 | Rotate180 =>
          if x >= width {
            return;
          }
          index, bit := PixelIndex(width, x, y), y % 8;
        case Rotate90 | Rotate270 =>
          if y >= width {
            return;
          }
          index, bit := PixelIndex(width, y, x), x % 8;
      }
      if index >= buffer.Length {
        return;
      }
      assert Locate(width, rotation, x, y, buffer.Length) == At(index, bit);
      buffer[index] := Paint(buffer[index], Mask(bit), value);
    }

    /** `flush`: sets the draw area to the native panel shifted by the column offset, then
        draws the first `width * height / 8` bytes of the buffer. A failing transfer ends
        it. The cursor has advanced once per row whose data transfer went through: once
        per four transfers, the first three being the address of the area's origin
        (`FlushEnd` says where that leaves it when all goes well). */
    method Flush() returns (r: Outcome)
      requires Flushable(properties.variant, buffer.Length)
      modifies properties, properties.iface
      ensures properties.iface.Transmitted(FlushEvents(properties.variant, buffer[..]), r)
      ensures properties.State() == AdvanceN(FlushStart(properties.variant),
        |Delivered(FlushEvents(properties.variant, buffer[..]), old(properties.iface.budget))| / 4)
      ensures properties.displayRotation == old(properties.displayRotation)
    {
      var v, iface := properties.variant, properties.iface;
      var (width, height) := v.Dimensions();
      var offset := v.columnOffset;
      r := properties.SetDrawArea((offset, 0), (width + offset, height));
      var length := width * height / 8;
      var frame := buffer[..length];
      ghost var s, large := FlushStart(v), v.largePageAddress;
      FlushFits(v, frame);
      ghost var address, draw := AddressEvents(s, large), DrawEvents(s, frame, large);
      assert FlushEvents(v, buffer[..]) == address + draw by {
        assert buffer[..][..FlushLength(v)] == frame;
      }
      assert properties.State() == s;
      if r.Err? {
        DeliveredWithin(address, draw, old(iface.budget));
        return;
      }
      DeliveredThen(old(iface.trace), old(iface.budget), address, draw);
      RowsStarted(address, draw, old(iface.budget));
      r := properties.Draw(frame);
    }

    /** `init`: the properties' `init_column_mode`. */
    method Init() returns (r: Outcome)
      modifies properties, properties.iface
      ensures properties.iface.Transmitted(
        Encoded(properties.variant.init) + Encoded(RotationCommands(old(properties.displayRotation))), r)
      ensures properties.displayRotation == old(properties.displayRotation)
      ensures properties.State() == old(properties.State())
    {
      r := properties.InitColumnMode();
    }

    /** `get_dimensions`: the panel's size as seen under the current rotation. */
    function GetDimensions(): (d: (uint8, uint8))
      reads properties
      ensures d == if Swapped(properties.displayRotation)
                   then (properties.variant.height, properties.variant.width)
                   else (properties.variant.width, properties.variant.height)
    {
      DimensionsSwap(properties.variant, properties.displayRotation);
      properties.GetDimensions()
    }

    /** `get_rotation` */
    function GetRotation(): Rotation
      reads properties
    {
      properties.GetRotation()
    }

    /** `set_rotation`: stores the rotation and sends its two commands. The buffer is not
        touched, so what is drawn keeps its bytes and is addressed differently from then
        on. */
    method SetRotation(rotation: Rotation) returns (r: Outcome)
      modifies properties, properties.iface
      ensures properties.displayRotation == rotation
      ensures properties.State() == old(properties.State())
      ensures properties.iface.Transmitted(Encoded(RotationCommands(rotation)), r)
    {
      r := properties.SetRotation(rotation);
    }

    /** `display_on` */
    method DisplayOn(on: bool) returns (r: Outcome)
      modifies properties.iface
      ensures properties.iface.Transmitted([Cmd([0xAE | Bit(on)])], r)
    {
      r := properties.DisplayOn(on);
    }

    /** `set_contrast` */
    method SetContrast(contrast: bv8) returns (r: Outcome)
      modifies properties.iface
      ensures properties.iface.Transmitted([Cmd([0x81, contrast])], r)
    {
      r := properties.SetContrast(contrast);
    }
  }
}
