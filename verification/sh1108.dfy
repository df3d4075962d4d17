/** The four SH1108 variants: 64, 96, 128 and 160 columns of a 160-row panel, each
    centred in the controller's 160 columns, all with the large page-address command. */
module Sh1108 {
  import opened Transport
  import opened Commands
  import opened Display

  /** `init_column_mode_common(iface, dimensions, resolution)`: the 14 commands, in order.
      The display is switched on at step 5 and again at the end. */
  function InitColumnModeCommon(dimensions: (uint8, uint8), resolution: bv8): seq<Command>
    requires dimensions.1 >= 1  // `display_height - 1` on a u8
  {
    var (_, height) := dimensions;
    [ DisplayOn(false),
      DisplayClockDiv(0x6, 0x0),
      DisplayResolution(resolution),
      PreChargePeriod(0x8, 0x2),
      DisplayOn(true),
      Multiplex((height - 1) as bv8),
      StartLine(0),
      ChargePump(true),
      Contrast(0x80),
      PreChargePeriod(0x1, 0xF),
      VcomhDeselect(Auto),
      AllOn(false),
      Invert(false),
      DisplayOn(true) ]
  }

  /** Each variant's `init_column_mode`: the common sequence, then the display offset and
      the COM pin configuration. */
  function InitColumnMode(dimensions: (uint8, uint8), resolution: bv8): seq<Command>
    requires dimensions.1 >= 1
  {
    InitColumnModeCommon(dimensions, resolution) + [DisplayOffset(0), ComPinConfig(true)]
  }

  /** A variant of the given geometry whose initialisation selects `resolution`. */
  function Descriptor(width: uint8, height: uint8, columnOffset: uint8, resolution: bv8): (v: Variant)
    requires height >= 1
  {
    Variant(
      width := width,
      height := height,
      columnOffset := columnOffset,
      largePageAddress := true,
      init := InitColumnMode((width, height), resolution))
  }

  const Sh1108_64_160: Variant := Descriptor(64, 160, 48, 0)
  const Sh1108_96_160: Variant := Descriptor(96, 160, 32, 1)
  const Sh1108_128_160: Variant := Descriptor(128, 160, 16, 2)
  const Sh1108_160_160: Variant := Descriptor(160, 160, 0, 3)

  const Variants: seq<Variant> := [Sh1108_64_160, Sh1108_96_160, Sh1108_128_160, Sh1108_160_160]

  /** The geometry of the four variants. */
  lemma Geometry()
    ensures Sh1108_64_160.Dimensions() == (64, 160) && Sh1108_64_160.columnOffset == 48
    ensures Sh1108_96_160.Dimensions() == (96, 160) && Sh1108_96_160.columnOffset == 32
    ensures Sh1108_128_160.Dimensions() == (128, 160) && Sh1108_128_160.columnOffset == 16
    ensures Sh1108_160_160.Dimensions() == (160, 160) && Sh1108_160_160.columnOffset == 0
    ensures forall v :: v in Variants ==> v.largePageAddress
  {
  }

  /** Every variant is centred in the controller's 160 columns, so its last flushed column
      `WIDTH + COLUMN_OFFSET` fits in a u8. */
  lemma Centred(v: Variant)
    requires v in Variants
    ensures v.width + 2 * v.columnOffset == 160
    ensures v.width + v.columnOffset <= 160
    ensures v.height == 160
  {
  }

  /** The four variants in closed form: widths 64, 96, 128 and 160, centring offsets 48,
      32, 16 and 0, and resolution index 0 to 3. */
  lemma Table(i: nat)
    requires i < 4
    ensures Variants[i] == Descriptor(64 + 32 * i, 160, 48 - 16 * i, i as bv8)
  {
    if i == 0 {
      assert Variants[i] == Sh1108_64_160 && i as bv8 == 0;
    } else if i == 1 {
      assert Variants[i] == Sh1108_96_160 && i as bv8 == 1;
    } else if i == 2 {
      assert Variants[i] == Sh1108_128_160 && i as bv8 == 2;
    } else {
      assert Variants[i] == Sh1108_160_160 && i as bv8 == 3;
    }
  }

  /** The full sequence of a descriptor: 14 common commands then two more, the multiplex
      ratio being `HEIGHT - 1`. */
  lemma DescriptorSequence(width: uint8, height: uint8, columnOffset: uint8, resolution: bv8)
    requires height >= 1
    ensures var init := Descriptor(width, height, columnOffset, resolution).init;
      && |init| == 16
      && init[2] == DisplayResolution(resolution)
      && init[5] == Multiplex((height - 1) as bv8)
      && init[14..] == [DisplayOffset(0), ComPinConfig(true)]
      && init[..14] == InitColumnModeCommon((width, height), resolution)
  {
    var common := InitColumnModeCommon((width, height), resolution);
    assert (common + [DisplayOffset(0), ComPinConfig(true)])[..14] == common;
  }

  /** All four variants send 16 commands and select the multiplex ratio 159, their height
      less one, with the resolution index of their position in the table. */
  lemma VariantsMultiplex(i: nat)
    requires i < 4
    ensures |Variants[i].init| == 16
    ensures Variants[i].init[5] == Multiplex(159)
    ensures Variants[i].init[2] == DisplayResolution(i as bv8)
  {
    Table(i);
    DescriptorSequence(64 + 32 * i, 160, 48 - 16 * i, i as bv8);
  }

  /** DisplayOn(true) is sent exactly twice, at the 5th and the 14th position, so the
      display is already on when the charge pump is enabled. */
  lemma DisplayOnTwice(dimensions: (uint8, uint8), resolution: bv8)
    requires dimensions.1 >= 1
    ensures var s := InitColumnModeCommon(dimensions, resolution);
      && |s| == 14
      && (forall i :: 0 <= i < 14 ==> (s[i] == DisplayOn(true) <==> i == 4 || i == 13))
      && s[7] == ChargePump(true)
      && s[0] == DisplayOn(false)
  {
  }
}
