/** The SSD1309 128x64 variant: no column offset and the packed page-address command. */
module Ssd1309 {
  import opened Transport
  import opened Commands
  import opened Display

  /** `init_column_mode_common(iface, dimensions)`: the 11 commands, in order. */
  function InitColumnModeCommon(dimensions: (uint8, uint8)): seq<Command>
    requires dimensions.1 >= 1  // `display_height - 1` on a u8
  {
    var (_, height) := dimensions;
    [ DisplayOn(false),
      DisplayClockDiv(0x8, 0x0),
      Multiplex((height - 1) as bv8),
      StartLine(0),
      ChargePump(true),
      Contrast(0x80),
      PreChargePeriod(0x1, 0xF),
      VcomhDeselect(Auto),
      AllOn(false),
      Invert(false),
      DisplayOn(true) ]
  }

  /** `init_column_mode`: the common sequence, then the display offset and the COM pin
      configuration. */
  function InitColumnMode(dimensions: (uint8, uint8)): seq<Command>
    requires dimensions.1 >= 1
  {
    InitColumnModeCommon(dimensions) + [DisplayOffset(0), ComPinConfig(true)]
  }

  /** The descriptor leaves COLUMN_OFFSET and LARGE_PAGE_ADDRESS at their defaults. */
  const Ssd1309_128_64: Variant := Variant(width := 128, height := 64, init := InitColumnMode((128, 64)))

  lemma Geometry()
    ensures Ssd1309_128_64.Dimensions() == (128, 64)
    ensures Ssd1309_128_64.columnOffset == 0
    ensures !Ssd1309_128_64.largePageAddress
  {
  }

  /** The 13 commands sent: no resolution select, the multiplex ratio 63, and the display
      switched on exactly once, by the last command of the common part. */
  lemma Sequence()
    ensures var s := Ssd1309_128_64.init;
      && |s| == 13
      && s[2] == Multiplex(63)
      && s[11..] == [DisplayOffset(0), ComPinConfig(true)]
      && (forall i :: 0 <= i < 13 ==> !s[i].DisplayResolution?)
      && (forall i :: 0 <= i < 13 ==> (s[i] == DisplayOn(true) <==> i == 10))
  {
  }
}
