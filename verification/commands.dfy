/** The controller command set and its bit-exact encoding into one or two opcode bytes,
    as the SH1107/SH1108/SSD1309 datasheets define them, and the single bus transfer that
    sends one command. */
module Commands {
  import opened Transport

  /** VCOMH deselect level; the discriminants are the field values the controller expects. */
  datatype VcomhLevel = V065 | V077 | V083 | Auto

  function Discriminant(level: VcomhLevel): (d: bv8)
    ensures 1 <= d <= 4
  {
    match level
    case V065 => 0x1
    case V077 => 0x2
    case V083 => 0x3
    case Auto => 0x4
  }

  /** One controller operation; operands are `u8` (a `bv8` here) or `bool` as in the driver. */
  datatype Command =
    | AddressMode(vertical: bool)
    | Contrast(value: bv8)
    | AllOn(allOn: bool)
    | Invert(inverted: bool)
    | DisplayResolution(resolution: bv8)
    | DisplayOn(on: bool)
    | ColumnAddressLow(lowAddress: bv8)
    | ColumnAddressHigh(highAddress: bv8)
    | PageAddress(page: bv8)
    | LargePageAddress(largePage: bv8)
    | StartLine(line: bv8)
    | SegmentRemap(remap: bool)
    | Multiplex(ratio: bv8)
    | ReverseComDir(reverse: bool)
    | DisplayOffset(offset: bv8)
    | ComPinConfig(alternative: bool)
    | DisplayClockDiv(fosc: bv8, divide: bv8)
    | PreChargePeriod(phase1: bv8, phase2: bv8)
    | VcomhDeselect(level: VcomhLevel)
    | Noop
    | ChargePump(enable: bool)
  {
    /** The commands that carry an operand byte after the opcode. */
    predicate TwoBytes() {
      || Contrast? || DisplayResolution? || LargePageAddress? || Multiplex?
      || DisplayOffset? || ComPinConfig? || DisplayClockDiv? || PreChargePeriod?
      || VcomhDeselect? || ChargePump?
    }
  }

  /** `b as u8` */
  function Bit(b: bool): (r: bv8)
    ensures r <= 1 && (r == 1 <==> b)
  {
    if b then 1 else 0
  }

  /** `0xF & v` */
  function Nibble(v: bv8): (r: bv8)
    ensures r < 0x10 && r == v % 16
  {
    0xF & v
  }

  /** Masking an operand that is already a nibble changes nothing. */
  lemma NibbleOfNibble(v: bv8)
    ensures Nibble(0xF & v) == 0xF & v
  {
  }

  /** The bytes `send` transmits for a command: the first `len` bytes of the fixed array
      built by the `match` in `Command::send`. */
  function Encode(c: Command): (bytes: seq<bv8>)
    ensures 1 <= |bytes| <= 2
  {
    match c
    case AddressMode(vertical) => [0x20 | Bit(vertical)]
    case Contrast(value) => [0x81, value]
    case AllOn(on) => [0xA4 | Bit(on)]
    case Invert(inverted) => [0xA6 | Bit(inverted)]
    case DisplayResolution(resolution) => [0xA9, resolution]
    case DisplayOn(on) => [0xAE | Bit(on)]
    case ColumnAddressLow(address) => [Nibble(address)]
    case ColumnAddressHigh(address) => [0x10 | Nibble(address)]
    case PageAddress(page) => [0xB0 | page]
    case LargePageAddress(page) => [0xB0, page]
    case StartLine(line) => [0x40 | (0x3F & line)]
    case SegmentRemap(remap) => [0xA0 | Bit(remap)]
    case Multiplex(ratio) => [0xA8, ratio]
    case ReverseComDir(reverse) => [0xC0 | (Bit(reverse) << 3)]
    case DisplayOffset(offset) => [0xD3, offset]
    case ComPinConfig(alternative) => [0xDA, 0x02 | (Bit(alternative) << 4)]
    case DisplayClockDiv(fosc, divide) => [0xD5, (Nibble(fosc) << 4) | Nibble(divide)]
    case PreChargePeriod(phase1, phase2) => [0xD9, (Nibble(phase2) << 4) | Nibble(phase1)]
    case VcomhDeselect(level) => [0xDB, Discriminant(level) << 4]
    case Noop => [0xE3]
    case ChargePump(enable) => [0xAD, 0x8A | Bit(enable)]
  }

  /** Every command is one byte, except exactly the ten that carry an operand byte. */
  lemma EncodedLength(c: Command)
    ensures |Encode(c)| == (if c.TwoBytes() then 2 else 1)
  {
  }

  /** The single-byte boolean commands differ only in bit 0 of their opcode: the mode,
      all-on and inversion switches, ... */
  lemma BooleanOpcodes()
    ensures Encode(AddressMode(false)) == [0x20] && Encode(AddressMode(true)) == [0x21]
    ensures Encode(AllOn(false)) == [0xA4] && Encode(AllOn(true)) == [0xA5]
    ensures Encode(Invert(false)) == [0xA6] && Encode(Invert(true)) == [0xA7]
  {
  }

  /** ... the display switch and the segment remap, ... */
  lemma SwitchOpcodes()
    ensures Encode(DisplayOn(false)) == [0xAE] && Encode(DisplayOn(true)) == [0xAF]
    ensures Encode(SegmentRemap(false)) == [0xA0] && Encode(SegmentRemap(true)) == [0xA1]
  {
  }

  /** ... except ReverseComDir, which sets bit 3. */
  lemma ReverseComDirOpcodes()
    ensures Encode(ReverseComDir(false)) == [0xC0] && Encode(ReverseComDir(true)) == [0xC8]
  {
  }

  /** Both column-address commands mask their operand to a nibble; the low one lands in
      0x00..0x0F and the high one in 0x10..0x1F. */
  lemma ColumnAddressBytes(a: bv8)
    ensures Encode(ColumnAddressLow(a)) == [a % 16]
    ensures Encode(ColumnAddressHigh(a)) == [0x10 + a % 16]
    ensures Encode(ColumnAddressLow(a))[0] < 0x10
    ensures 0x10 <= Encode(ColumnAddressHigh(a))[0] < 0x20
  {
  }

  /** PageAddress ORs its operand into 0xB0 without masking: the byte is 0xB0 + page only
      for pages below 16, it stays in 0xB0..0xBF exactly when bit 6 of the page is clear,
      and page 16 sends the same byte as page 0. */
  lemma PageAddressUnmasked(page: bv8)
    ensures Encode(PageAddress(page)) == [0xB0 | page]
    ensures page < 16 ==> Encode(PageAddress(page)) == [0xB0 + page]
    ensures 0xB0 <= Encode(PageAddress(page))[0] <= 0xBF <==> page & 0x40 == 0
    ensures Encode(PageAddress(16)) == Encode(PageAddress(0))
  {
  }

  /** LargePageAddress carries the whole page byte after the 0xB0 opcode. */
  lemma LargePageAddressBytes(page: bv8)
    ensures Encode(LargePageAddress(page)) == [0xB0, page]
  {
  }

  /** StartLine keeps the low six bits of its operand, giving 0x40..0x7F. */
  lemma StartLineMasked(line: bv8)
    ensures Encode(StartLine(line)) == [0x40 + line % 64]
    ensures 0x40 <= Encode(StartLine(line))[0] <= 0x7F
  {
  }

  /** DisplayClockDiv packs the oscillator nibble high and the divider nibble low;
      PreChargePeriod packs its SECOND operand high and its first low. */
  lemma NibblePacking(a: bv8, b: bv8)
    ensures Encode(DisplayClockDiv(a, b))[0] == 0xD5
    ensures Encode(DisplayClockDiv(a, b))[1] >> 4 == Nibble(a)
    ensures Encode(DisplayClockDiv(a, b))[1] & 0xF == Nibble(b)
    ensures Encode(PreChargePeriod(a, b))[0] == 0xD9
    ensures Encode(PreChargePeriod(a, b))[1] >> 4 == Nibble(b)
    ensures Encode(PreChargePeriod(a, b))[1] & 0xF == Nibble(a)
    ensures Encode(DisplayClockDiv(a, b))[1] == 16 * (a % 16) + b % 16
  {
  }

  /** ComPinConfig's second byte is 0x02 (sequential) or 0x12 (alternative). */
  lemma ComPinConfigBytes()
    ensures Encode(ComPinConfig(false)) == [0xDA, 0x02] && Encode(ComPinConfig(true)) == [0xDA, 0x12]
  {
  }

  /** ChargePump's second byte is 0x8A (off) or 0x8B (on). */
  lemma ChargePumpBytes()
    ensures Encode(ChargePump(false)) == [0xAD, 0x8A] && Encode(ChargePump(true)) == [0xAD, 0x8B]
  {
  }

  /** VcomhDeselect sends the level's discriminant shifted into the high nibble. */
  lemma VcomhBytes(level: VcomhLevel)
    ensures Encode(VcomhDeselect(level)) == [0xDB, 0x10 * Discriminant(level)]
    ensures Encode(VcomhDeselect(Auto)) == [0xDB, 0x40]
  {
  }

  lemma NoopByte()
    ensures Encode(Noop) == [0xE3]
  {
  }

  /** The opcodes that pass their operand byte through unchanged. */
  lemma OperandBytes(v: bv8)
    ensures Encode(Contrast(v)) == [0x81, v]
    ensures Encode(DisplayResolution(v)) == [0xA9, v]
    ensures Encode(Multiplex(v)) == [0xA8, v]
    ensures Encode(DisplayOffset(v)) == [0xD3, v]
  {
  }

  /** The transfers that sending `cmds` one by one puts on the bus, if none fails. */
  function Encoded(cmds: seq<Command>): (events: seq<Event>)
    ensures |events| == |cmds|
    ensures forall i :: 0 <= i < |cmds| ==> events[i] == Cmd(Encode(cmds[i]))
  {
    if cmds == [] then [] else [Cmd(Encode(cmds[0]))] + Encoded(cmds[1..])
  }

  lemma {:induction false} EncodedAppend(a: seq<Command>, b: seq<Command>)
    ensures Encoded(a + b) == Encoded(a) + Encoded(b)
    decreases |a|
  {
    if a == [] {
      assert a + b == b;
    } else {
      assert (a + b)[1..] == a[1..] + b;
      EncodedAppend(a[1..], b);
    }
  }

  /** The first command's transfer, then the rest's. */
  lemma EncodedCons(cmds: seq<Command>)
    requires cmds != []
    ensures Encoded(cmds) == [Cmd(Encode(cmds[0]))] + Encoded(cmds[1..])
  {
  }

  lemma EncodedPair(a: Command, b: Command)
    ensures Encoded([a, b]) == [Cmd(Encode(a)), Cmd(Encode(b))]
  {
    assert [a, b][1..] == [b];
  }

  lemma EncodedTriple(a: Command, b: Command, c: Command)
    ensures Encoded([a, b, c]) == [Cmd(Encode(a)), Cmd(Encode(b)), Cmd(Encode(c))]
  {
    assert [a, b, c][1..] == [b, c];
    EncodedPair(b, c);
  }

  /** A run of command transfers carries no data bytes. */
  lemma {:induction false} EncodedCarriesNoData(cmds: seq<Command>)
    ensures Payload(Encoded(cmds)) == []
    ensures CommandCount(Encoded(cmds)) == |cmds|
    decreases |cmds|
  {
    if cmds != [] {
      assert Encoded(cmds)[1..] == Encoded(cmds[1..]);
      EncodedCarriesNoData(cmds[1..]);
    }
  }

  /** `Command::send`: exactly one `send_commands` transfer holding the encoded bytes; the
      transport's result is returned unchanged. */
  method Send(c: Command, iface: Bus) returns (r: Outcome)
    modifies iface
    ensures iface.Transmitted([Cmd(Encode(c))], r)
  {
    r := iface.SendCommands(Encode(c));
  }

  /** A chain of `command.send(iface).await?` calls: each command is sent in turn, and the
      first failure ends the chain and is returned unchanged. */
  method SendAll(cmds: seq<Command>, iface: Bus) returns (r: Outcome)
    modifies iface
    ensures iface.Transmitted(Encoded(cmds), r)
    decreases |cmds|
  {
    if cmds == [] {
      return Ok;
    }
    EncodedCons(cmds);
    r := Send(cmds[0], iface);
    if r.Err? {
      return;
    }
    DeliveredThen(old(iface.trace), old(iface.budget), [Cmd(Encode(cmds[0]))], Encoded(cmds[1..]));
    r := SendAll(cmds[1..], iface);
  }
}
