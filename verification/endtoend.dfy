/** The driver put together: the concrete variants in graphics mode, with the bytes a
    flush puts on the bus. */
module EndToEnd {
  import opened Transport
  import opened Display
  import opened Drawing
  import opened Properties
  import opened Graphics
  import Ssd1309
  import Sh1108

  /** The default buffer holds the frame of every variant: the SSD1309 is flushed as 8
      pages of 128 bytes and each SH1108 variant as 20 pages of its width. */
  lemma DefaultBufferFits()
    ensures Flushable(Ssd1309.Ssd1309_128_64, DefaultBufferSize)
    ensures FlushLength(Ssd1309.Ssd1309_128_64) == 1024 && FlushRows(Ssd1309.Ssd1309_128_64) == 8
    ensures forall v :: v in Sh1108.Variants ==> Flushable(v, DefaultBufferSize) && FlushRows(v) == 20
    ensures FlushLength(Sh1108.Sh1108_160_160) == DefaultBufferSize
  {
    WholePages(Ssd1309.Ssd1309_128_64);
    forall v | v in Sh1108.Variants
      ensures Flushable(v, DefaultBufferSize) && FlushRows(v) == 20
    {
      Sh1108.Centred(v);
      WholePages(v);
      MulMono(v.width, 160, 20);
    }
    WholePages(Sh1108.Sh1108_160_160);
  }

  /** A panel 60 lines high cannot be flushed: its 960 bytes end half-way through the
      eighth row of 128, where `draw` slices past the end. */
  lemma PartialPage(frame: seq<bv8>)
    requires |frame| == 960
    ensures var v := Variant(128, 60, []);
      FlushLength(v) == 960 && !Flushable(v, |frame|) && !DrawFits(FlushStart(v), frame)
  {
    FlushFits(Variant(128, 60, []), frame);
  }

  /** On the SSD1309 with the default buffer, `set_pixel(0, 64, 1)` is not rejected: it
      writes bit 0 of byte 1024, the first byte `flush` does not send. */
  lemma HiddenPixel()
    ensures Locate(128, Rotate0, 0, 64, DefaultBufferSize) == At(1024, 0)
    ensures FlushLength(Ssd1309.Ssd1309_128_64) == 1024
  {
    LineUnchecked(Ssd1309.Ssd1309_128_64, DefaultBufferSize);
  }

  /** The pixel at the origin of a blank SSD1309 frame, under any rotation, flushed on a
      bus that completes the 35 transfers: page 0 at column 0 is addressed, the first row
      goes out with bit 0 of its first byte set and nothing else, and page 1 follows. */
  method FirstPixel(rotation: Rotation) returns (r: Outcome, trace: seq<Event>)
    ensures r == Ok && |trace| == 35
    ensures trace[..3] == [Cmd([0xB0]), Cmd([0x00]), Cmd([0x10])]
    ensures trace[3] == Data([0x01] + Blank(127))
    ensures trace[4..7] == [Cmd([0xB1]), Cmd([0x00]), Cmd([0x10])]
  {
    var bus := new Bus(35, BusWriteError);
    var properties := new DisplayProperties(Ssd1309.Ssd1309_128_64, bus, rotation);
    var mode := new GraphicsMode(properties, DefaultBufferSize);
    mode.SetPixel(0, 0, 1);
    FirstPixelBuffer(rotation, mode.buffer[..]);
    DefaultBufferFits();
    r := mode.Flush();
    trace := bus.trace;
    assert trace == Delivered(FlushEvents(Ssd1309.Ssd1309_128_64, mode.buffer[..]), 35);
    FirstPixelTrace(mode.buffer[..], trace);
  }

  /** The frame after `set_pixel(0, 0, 1)` on a blank SSD1309 buffer. */
  lemma FirstPixelBuffer(rotation: Rotation, buffer: seq<bv8>)
    requires buffer == Plotted(Blank(DefaultBufferSize), 128, rotation, 0, 0, 1)
    ensures |buffer| == DefaultBufferSize
    ensures buffer[..128] == [0x01] + Blank(127)
  {
    assert Locate(128, rotation, 0, 0, DefaultBufferSize) == At(0, 0);
    assert buffer[..128] == [0x01] + Blank(127);
  }

  /** The transfers of a flush of such a frame. */
  lemma FirstPixelTrace(buffer: seq<bv8>, trace: seq<Event>)
    requires Flushable(Ssd1309.Ssd1309_128_64, |buffer|)
    requires buffer[..128] == [0x01] + Blank(127)
    requires trace == Delivered(FlushEvents(Ssd1309.Ssd1309_128_64, buffer), 35)
    ensures |FlushEvents(Ssd1309.Ssd1309_128_64, buffer)| == 35 && |trace| == 35
    ensures trace[..3] == [Cmd([0xB0]), Cmd([0x00]), Cmd([0x10])]
    ensures trace[3] == Data([0x01] + Blank(127))
    ensures trace[4..7] == [Cmd([0xB1]), Cmd([0x00]), Cmd([0x10])]
  {
    var v := Ssd1309.Ssd1309_128_64;
    DefaultBufferFits();
    FlushShape(v, buffer);
    FlushRowAt(v, buffer, 0);
    AddressBytes(DrawState(FlushArea(v), 0, 0), false);
    AddressBytes(DrawState(FlushArea(v), 0, 1), false);
    assert trace[3..7][0] == trace[3];
    assert trace[4..7] == trace[3..7][1..];
  }

  /** The same flush on a bus that fails after three transfers: the address of the origin
      is delivered, the first data transfer fails, and the bus's error comes back
      unchanged with the cursor still at the origin. */
  method FailedFlush() returns (r: Outcome, trace: seq<Event>, cursor: DrawState)
    ensures r == Err(DCError)
    ensures trace == [Cmd([0xB0]), Cmd([0x00]), Cmd([0x10])]
    ensures cursor == DrawState(Area(0, 0, 128, 64), 0, 0)
  {
    var bus := new Bus(3, DCError);
    var properties := new DisplayProperties(Ssd1309.Ssd1309_128_64, bus, Rotate0);
    var mode := new GraphicsMode(properties, DefaultBufferSize);
    DefaultBufferFits();
    r := mode.Flush();
    trace := bus.trace;
    cursor := properties.State();
    FailedTrace(mode.buffer[..], bus.trace);
  }

  lemma FailedTrace(buffer: seq<bv8>, trace: seq<Event>)
    requires Flushable(Ssd1309.Ssd1309_128_64, |buffer|)
    requires trace == Delivered(FlushEvents(Ssd1309.Ssd1309_128_64, buffer), 3)
    ensures trace == [Cmd([0xB0]), Cmd([0x00]), Cmd([0x10])]
  {
    var v := Ssd1309.Ssd1309_128_64;
    DefaultBufferFits();
    FlushShape(v, buffer);
    AddressBytes(DrawState(FlushArea(v), 0, 0), false);
  }
}
