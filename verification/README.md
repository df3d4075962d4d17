# A verified model of an async OLED driver core

This project models the core of `oled_drivers`, a Rust driver for monochrome,
page-addressed OLED controllers (SH1108 and SSD1309). It covers four pieces.

- **The command encoder.** It maps each `Command` to its one or two controller bytes.
- **The addressing state machine (`DisplayProperties`).** It holds the draw area, the write
  cursor and the rotation. `set_draw_area`, `draw` and `set_rotation` drive it.
- **The graphics-mode frame buffer (`GraphicsMode`).** `set_pixel` edits it in place and
  `flush` streams it to the controller.
- **The chip variant descriptors.** Each has constant geometry and a power-up command sequence.

The transport is an abstract sink, the class `Transport.Bus`. It records every transfer it
completes in `trace` and completes only its next `budget` transfers. After that, every
transfer fails with the bus's own error.

Every operation that talks to the bus is stated with one twostate predicate,
`Bus.Transmitted(events, r)`:

- the trace grows by the prefix of `events` the budget allows (`Delivered`);
- `r` is `Ok` exactly when the whole run fitted;
- otherwise `r` is the bus's error, unchanged.

This is the `?` early exit of the Rust code. A failed send ends the operation, and nothing
after it is sent.

Modules, one per source file:

| module | file | what it holds |
|---|---|---|
| `Transport` | `transport.dfy` | u8/u32, the error and result types, the recording bus, the `Delivered` prefix algebra |
| `Commands` | `commands.dfy` | `src/command.rs` |
| `Display` | `display.dfy` | `src/display.rs` |
| `Ssd1309`, `Sh1108` | `ssd1309.dfy`, `sh1108.dfy` | `src/displays/ssd1309.rs`, `src/displays/sh1108.rs` |
| `Drawing`, `Properties` | `properties.dfy` | `src/properties.rs`: the pure cursor arithmetic, and the `DisplayProperties` class |
| `Graphics` | `graphics.dfy` | `src/mode/graphics.rs`: pixel addressing, the flush geometry, and the `GraphicsMode` class |
| `EndToEnd` | `endtoend.dfy` | the modules together on the concrete variants |

The code is followed as written, even where it differs from what its own doc comments
promise. These are the points where its behaviour is easy to miss:

- **Bounds in `set_pixel`.** Its doc comment says an out-of-bounds pixel is a no-op.
  The code checks only the column against the width, and the byte index against the buffer
  length. A line below the panel is written if the buffer has room (`Graphics.LineUnchecked`,
  `EndToEnd.HiddenPixel`).
- **`draw` does not tolerate unaligned buffers.** A buffer that ends inside a row makes the
  last slice panic (`Drawing.RowAlignedOnly`, `EndToEnd.PartialPage`).
- **Address sequences in a flush.** `flush` passes the height in pixels as the end row,
  while rows advance by one page. A full flush of `H / 8` rows sends `H / 8 + 1` address
  sequences: one from `set_draw_area`, then one after every row (`Graphics.FlushShape`).
- **`PageAddress` is not masked.** Its operand is ORed into `0xB0`, so page 16 sends the same
  byte as page 0 (`Commands.PageAddressUnmasked`).
- **The SSD1309 descriptor.** It is written with `width()`, `height()` and `column_offset()`
  methods instead of the trait's associated constants. The model takes its values (128 × 64,
  offset 0) with the trait's default `LARGE_PAGE_ADDRESS = false`.

## Model

| member | source | states |
|---|---|---|
| Transport.ByteIsCast | src/properties.rs:109-120 | The u8 cursor coordinates sent in the address commands are the byte values of the cursor. |
| Transport.Delivered | src/command.rs:99 | A run of transfers on a bus with a budget delivers all of it when it fits, otherwise exactly `budget` transfers. |
| Transport.DeliveredAppend | src/displays/ssd1309.rs:51-67 | Two runs sent one after the other with `?`: the second starts on what is left of the budget, and is not started at all if the first run failed. |
| Transport.DeliveredSplit | src/properties.rs:55-61 | A first run that fits is delivered whole, and the second runs on the remaining budget. |
| Transport.DeliveredThen | src/properties.rs:55-61 | Sending a first run and then a second ends in the same trace and budget as sending both at once. The second reports success exactly when both fitted. |
| Transport.DeliveredWithin | src/properties.rs:57 | When the budget runs out inside the first run, nothing of the second is sent. |
| Transport.DeliveredStrictPrefix | src/displays/sh1108.rs:197-217 | A sequence that fails is cut short: the trace is a proper prefix of the full sequence, exactly `budget` long. |
| Transport.PayloadAppend | src/properties.rs:82-105 | The data bytes of two runs are those of the first, then those of the second. |
| Transport.CommandCountAppend | src/properties.rs:82-105 | The command transfers of two runs add up. |
| Transport.PayloadOfChunk | src/properties.rs:85-98 | A data chunk followed by an address sequence contributes exactly the chunk's bytes. |
| Transport.Bus.SendCommands | src/command.rs:99 | `send_commands` is one command transfer, or the bus's error once its budget is spent. |
| Transport.Bus.SendData | src/properties.rs:85-87 | `send_data` is one data transfer, or the bus's error once its budget is spent. |
| Commands.Discriminant | src/command.rs:128-137 | The VCOMH levels have discriminants 1 to 4. |
| Commands.Bit | src/command.rs:71 | `b as u8` is 1 exactly for `true` and 0 for `false`. |
| Commands.Nibble | src/command.rs:77 | `0xF & v` is the low nibble of `v`, below 16. |
| Commands.NibbleOfNibble | src/properties.rs:117-120 | Masking an already masked column nibble again in the encoder changes nothing. |
| Commands.Encode | src/command.rs:70-97 | Every command encodes to one or two bytes. |
| Commands.EncodedLength | src/command.rs:70-97 | Exactly the ten operand-carrying commands encode to two bytes; all others encode to one. |
| Commands.BooleanOpcodes | src/command.rs:71-74 | AddressMode 0x20/0x21, AllOn 0xA4/0xA5 and Invert 0xA6/0xA7 differ only in bit 0. |
| Commands.SwitchOpcodes | src/command.rs:76-82 | DisplayOn 0xAE/0xAF and SegmentRemap 0xA0/0xA1 differ only in bit 0. |
| Commands.ReverseComDirOpcodes | src/command.rs:84 | ReverseComDir sets bit 3 instead: 0xC0/0xC8. |
| Commands.ColumnAddressBytes | src/command.rs:77-78 | The column commands send `a mod 16` and `0x10 + a mod 16`, in 0x00..0x0F and 0x10..0x1F. |
| Commands.PageAddressUnmasked | src/command.rs:79 | PageAddress ORs the page into 0xB0 unmasked. It is `0xB0 + page` below 16, and stays in 0xB0..0xBF exactly when bit 6 of the page is clear. Page 16 aliases page 0. |
| Commands.LargePageAddressBytes | src/command.rs:80 | LargePageAddress sends `[0xB0, page]` with the whole page byte. |
| Commands.StartLineMasked | src/command.rs:81 | StartLine keeps six bits of its operand: `0x40 + line mod 64`, in 0x40..0x7F. |
| Commands.NibblePacking | src/command.rs:87-93 | DisplayClockDiv packs the oscillator high and the divider low. PreChargePeriod packs its second operand high and its first low. |
| Commands.ComPinConfigBytes | src/command.rs:86 | The second byte is 0x02 for sequential and 0x12 for alternative pins. |
| Commands.ChargePumpBytes | src/command.rs:96 | The second byte is 0x8A for off and 0x8B for on. |
| Commands.VcomhBytes | src/command.rs:94 | VcomhDeselect sends `[0xDB, level << 4]`; Auto gives `[0xDB, 0x40]`. |
| Commands.NoopByte | src/command.rs:95 | Noop is `[0xE3]`. |
| Commands.OperandBytes | src/command.rs:72-85 | Contrast, DisplayResolution, Multiplex and DisplayOffset pass their operand through after the opcode 0x81, 0xA9, 0xA8 or 0xD3. |
| Commands.Encoded | src/command.rs:99 | Sending a list of commands puts exactly one command transfer per command on the bus, in order. |
| Commands.EncodedAppend | src/command.rs:99 | The transfers of two command lists are those of the first, then those of the second. |
| Commands.EncodedCarriesNoData | src/command.rs:99 | Commands carry no data bytes, and each is one command transfer. |
| Commands.Send | src/command.rs:65-100 | `send` makes exactly one `send_commands` transfer holding the encoded bytes, and returns the transport's result unchanged. |
| Commands.SendAll | src/displays/ssd1309.rs:51-67 | A chain of `send(iface).await?` sends the commands in order and stops at the first failure, returning it unchanged. |
| Display.Defaults | src/display.rs:24-31 | COLUMN_OFFSET defaults to 0, LARGE_PAGE_ADDRESS to false, and `dimensions()` is `(WIDTH, HEIGHT)`. |
| Display.InitColumnMode | src/display.rs:35-37 | A variant's initialisation sends its command sequence with `?`, given only the interface. |
| Ssd1309.Geometry | src/displays/ssd1309.rs:13-21 | The SSD1309 is 128 × 64 with column offset 0, and uses the packed page command. |
| Ssd1309.Sequence | src/displays/ssd1309.rs:30-65 | 13 commands: the multiplex ratio 63, then DisplayOffset(0) and ComPinConfig(true) last. There is no resolution select, and DisplayOn(true) appears only once, as the 11th command. |
| Sh1108.Geometry | src/displays/sh1108.rs:33-158 | The four variants are 64, 96, 128 and 160 wide, with offsets 48, 32, 16 and 0. All four use the large page command. |
| Sh1108.Centred | src/displays/sh1108.rs:33-157 | Every variant satisfies `WIDTH + 2 * COLUMN_OFFSET == 160` and has height 160, so the flush end column fits in a u8. |
| Sh1108.Table | src/displays/sh1108.rs:32-172 | Variant `i` is `64 + 32i` wide with offset `48 - 16i`, and selects resolution index `i`. |
| Sh1108.DescriptorSequence | src/displays/sh1108.rs:185-215 | A descriptor sends the 14 common commands, then DisplayOffset(0) and ComPinConfig(true). The resolution is 3rd and the multiplex ratio `HEIGHT - 1` 6th. |
| Sh1108.VariantsMultiplex | src/displays/sh1108.rs:195-203 | Every variant sends 16 commands, the multiplex ratio 159 and its own resolution index. |
| Sh1108.DisplayOnTwice | src/displays/sh1108.rs:197-215 | DisplayOn(true) is sent exactly at the 5th and 14th positions, so the display is on before the charge pump is enabled at the 8th. |
| Drawing.DimensionsSwap | src/properties.rs:131-138 | `get_dimensions` is `(W, H)` at 0° and 180° and `(H, W)` at 90° and 270°. The area is unchanged. |
| Drawing.RotationTable | src/properties.rs:152-169 | Segments are remapped at 0° and 270°; the COM scan is reversed at 0° and 90°. |
| Drawing.RotationBytes | src/properties.rs:152-169 | On the bus, each rotation is `0xA1`/`0xA0` then `0xC8`/`0xC0` according to that table. |
| Drawing.AddressEncoded | src/properties.rs:107-123 | Sending the three address commands puts exactly the address transfers on the bus. |
| Drawing.AddressBytes | src/properties.rs:107-123 | The address sequence is `[0xB0, row]` (large form) or the row ORed into 0xB0, then the low column nibble, then 0x10 plus the high column nibble. |
| Drawing.AddressShape | src/properties.rs:107-123 | An address sequence is three command transfers and carries no data. |
| Drawing.ColumnNibblesReconstruct | src/properties.rs:117-120 | The two column commands reconstruct the cursor column: the high command's nibble shifted left by 4, ORed with the low command, is the column. |
| Drawing.FitsStep | src/properties.rs:83-101 | One iteration that does not panic: the chunk fits the buffer, the count does not underflow, the row can move on, and the rest still draws. |
| Drawing.DrawStep | src/properties.rs:83-101 | One iteration's transfers: the data chunk, the address of the advanced cursor, then the rest of the draw. |
| Drawing.DrawEventsLength | src/properties.rs:82-105 | `draw` sends four transfers per iteration, three of them commands: one address sequence per completed row. |
| Drawing.DrawPayload | src/properties.rs:82-105 | The data chunks of `draw`, put back together, are exactly the input buffer. |
| Drawing.AdvanceNRows | src/properties.rs:88-96 | Below the end row, each chunk keeps the area, returns the column to the start column and moves down exactly one row. |
| Drawing.AdvanceInArea | src/properties.rs:90-96 | The cursor stays inside a non-empty area from chunk to chunk, with the row wrapping to the start row. |
| Drawing.AdvanceNArea | src/properties.rs:88-96 | After at least one chunk, the cursor is on the start column and the area is unchanged. |
| Drawing.RowAlignedFits | src/properties.rs:82-105 | From the start column, a buffer of whole rows draws without panic, in exactly one iteration per row. |
| Drawing.RowAlignedOnly | src/properties.rs:84-86 | Conversely, from the start column only a whole number of rows draws without panic. |
| Drawing.AfterRows | src/properties.rs:82-105 | After `i` iterations from the start column, `i` rows are consumed and the rest draws in the remaining iterations. |
| Drawing.DrawEventsSuffix | src/properties.rs:82-105 | The transfers after `i` iterations are those of drawing the remaining rows from the cursor after `i` chunks. |
| Drawing.DrawEventsHead | src/properties.rs:84-98 | The first four transfers of `draw` are its first chunk and the following address. |
| Drawing.DrawEventsAt | src/properties.rs:82-105 | Iteration `i` from the start column sends exactly row `i` of the buffer, one row wide, then the address of the cursor `i + 1` rows on. |
| Drawing.Step | src/properties.rs:84-98 | One iteration makes four transfers. |
| Drawing.DrawnStart | src/properties.rs:82-83 | The loop invariant of `draw` holds on entry. |
| Drawing.DrawnStep | src/properties.rs:83-101 | A completed iteration preserves the loop invariant, and the number of iterations left decreases. |
| Drawing.DeliveredWithinStep | src/properties.rs:85-98 | A bus that fails inside an iteration delivers all earlier iterations and a prefix of this one. |
| Drawing.DrawnFailure | src/properties.rs:85-98 | A failed iteration leaves the cursor advanced exactly when its data transfer went through. |
| Drawing.DrawnEnd | src/properties.rs:83-104 | When the buffer is consumed, every transfer has been made and the cursor advanced once per iteration. |
| Properties.DisplayProperties.constructor | src/properties.rs:37-51 | `new` stores the variant, the interface and the rotation, with the area `(0,0)-(0,0)` and the cursor at `(0,0)`. |
| Properties.DisplayProperties.InitColumnMode | src/properties.rs:55-61 | The variant's sequence, then the stored rotation's two commands, with the first failure ending it. The rotation and the cursor are unchanged. |
| Properties.DisplayProperties.SetDrawArea | src/properties.rs:66-77 | Records the area, puts the cursor on its start, and sends exactly one address sequence of that cursor. The rotation is unchanged. |
| Properties.DisplayProperties.SendDrawAddress | src/properties.rs:107-123 | Sends the page command in the variant's form, then the low and the high column nibble, stopping at the first failure. |
| Properties.DisplayProperties.Draw | src/properties.rs:82-105 | `draw` makes the transfers of the chunked draw from the old cursor, up to the first failure. The cursor has advanced once per chunk whose data transfer went through. |
| Properties.DisplayProperties.DrawChunk | src/properties.rs:84-101 | One loop body: the next `end.0 - column` bytes as data, then the cursor wrap and the new address. A failed data transfer leaves the cursor as it was. |
| Properties.DisplayProperties.SetRotation | src/properties.rs:146-170 | Stores the rotation, leaves the cursor unchanged, and sends its segment-remap and scan-direction commands. |
| Properties.DisplayProperties.DisplayOn | src/properties.rs:174-176 | One transfer, `[0xAE]` or `[0xAF]`. |
| Properties.DisplayProperties.SetContrast | src/properties.rs:179-181 | One transfer, `[0x81, contrast]`. |
| Graphics.Wrap | src/mode/graphics.rs:125-132 | A `usize` result on a 32-bit target: below 2^32, and the exact value whenever it fits. |
| Graphics.Locate | src/mode/graphics.rs:116-155 | The byte index `set_pixel` writes, computed with 32-bit `usize` wrap-around, is inside the buffer, and the bit below 8. Otherwise the call is a no-op. |
| Graphics.Plotted | src/mode/graphics.rs:116-162 | `set_pixel` keeps the buffer's length. |
| Graphics.PaintBits | src/mode/graphics.rs:157-161 | Clearing with the inverted mask or setting with the mask changes exactly the masked bit and keeps the other seven. |
| Graphics.PlottedFrame | src/mode/graphics.rs:116-162 | `set_pixel` changes at most one bit. A non-zero value sets it and zero clears it; every other byte and every other bit is unchanged. Out of bounds, nothing changes. |
| Graphics.PaintTwice | src/mode/graphics.rs:157-161 | Painting a bit twice is painting it with the later value. |
| Graphics.PlottedTwice | src/mode/graphics.rs:116-162 | `set_pixel` is idempotent, and the later of two calls on a pixel decides it. |
| Graphics.PlottedUndo | src/mode/graphics.rs:157-161 | Setting an off pixel and then clearing it restores the buffer. |
| Graphics.ClearStaysClear | src/mode/graphics.rs:157-158 | `set_pixel(x, y, 0)` on a cleared buffer leaves it all zero, at any pixel and rotation. |
| Graphics.PlottedAll | src/mode/graphics.rs:116-162 | A sequence of `set_pixel` calls keeps the buffer's length. |
| Graphics.ClearedStaysClear | src/mode/graphics.rs:79-162 | `clear` followed by any sequence of `set_pixel` calls with value 0 leaves the buffer all zero. |
| Graphics.LocateRotations | src/mode/graphics.rs:120-155 | 180° addresses the buffer as 0° does, and 270° as 90°. At 90° the coordinates are exchanged. |
| Graphics.LocateInjective | src/mode/graphics.rs:120-155 | Distinct pixels whose indices fit a 32-bit `usize` never share a bit. |
| Graphics.IndexWraps | src/mode/graphics.rs:125 | On a 128-wide panel at 0°, `set_pixel(5, 1 << 28, _)` overflows the index and writes the same bit as `set_pixel(5, 0, _)`. |
| Graphics.SmallIndex | src/mode/graphics.rs:125-132 | Coordinates below 256 never wrap the index. |
| Graphics.VisiblePixel | src/mode/graphics.rs:109-132 | With a whole number of pages, every pixel inside the rotated dimensions lands in the `W * H / 8` bytes that `flush` sends. |
| Graphics.LineUnchecked | src/mode/graphics.rs:120-138 | The line is never checked against the height: the pixel at line `H` is written at byte `W * H / 8`, just past what `flush` sends. |
| Graphics.FlushFits | src/mode/graphics.rs:109-111 | On a bus that completes every transfer, `flush` draws its slice without panic exactly when the slice is a whole number of rows, and then in `H / 8` iterations. |
| Graphics.FlushDraws | src/mode/graphics.rs:109-111 | A flushable buffer is drawn without panic in `H / 8` iterations. |
| Graphics.FlushPages | src/mode/graphics.rs:109 | `W * H / 8` bytes are `H / 8` rows of `W` bytes, plus less than a row. |
| Graphics.WholePages | src/mode/graphics.rs:109 | A height that is a whole number of pages is flushed whole, `W` bytes per page. |
| Graphics.FlushShape | src/mode/graphics.rs:97-112 | `flush` sends the origin address in the offset column first. It sends `3 + 4 * (H / 8)` transfers with `3 + 3 * (H / 8)` commands, and exactly the first `W * H / 8` bytes of the buffer as data. |
| Graphics.FlushRowAt | src/mode/graphics.rs:97-112 | Row `i`, `W` bytes from byte `i * W`, goes out as one data transfer right after the address of page `i`, and is followed by the address of page `i + 1`. |
| Graphics.FlushEnd | src/mode/graphics.rs:97-112 | After a complete flush the cursor is in the offset column, `H / 8` pages down. |
| Graphics.GraphicsMode.constructor | src/mode/graphics.rs:60-65 | `new` keeps the properties and a zeroed buffer of `BS` bytes. |
| Graphics.GraphicsMode.Release | src/mode/graphics.rs:68-70 | `release` returns the same properties. |
| Graphics.GraphicsMode.Clear | src/mode/graphics.rs:79-81 | `clear` zeroes every byte of the buffer and touches nothing else; there is no bus traffic. |
| Graphics.GraphicsMode.SetPixel | src/mode/graphics.rs:116-162 | The in-place update makes the buffer `Plotted` of the old buffer under the current width and rotation. |
| Graphics.GraphicsMode.Flush | src/mode/graphics.rs:97-112 | `flush` makes the transfers of `FlushEvents`, up to the first failure. It sets the draw area from the unrotated dimensions and the offset, then draws `buffer[..W*H/8]`. The cursor has advanced once per row started, and the rotation is unchanged. |
| Graphics.GraphicsMode.Init | src/mode/graphics.rs:166-168 | `init` is the properties' `init_column_mode`. |
| Graphics.GraphicsMode.GetDimensions | src/mode/graphics.rs:171-173 | The rotated dimensions: the native pair swapped at 90° and 270°. |
| Graphics.GraphicsMode.SetRotation | src/mode/graphics.rs:181-183 | The properties' `set_rotation`; the buffer is not touched. |
| Graphics.GraphicsMode.DisplayOn | src/mode/graphics.rs:187-189 | One transfer, `[0xAE]` or `[0xAF]`. |
| Graphics.GraphicsMode.SetContrast | src/mode/graphics.rs:192-194 | One transfer, `[0x81, contrast]`. |
| EndToEnd.DefaultBufferFits | src/mode/graphics.rs:42 | The default buffer of 3200 bytes holds the frame of every variant: 8 pages for the SSD1309, 20 for each SH1108, and exactly 3200 bytes for the SH1108 160 × 160. |
| EndToEnd.PartialPage | src/mode/graphics.rs:109-111 | A 60-line panel cannot be flushed: its 960 bytes end inside a row, where `draw` panics. |
| EndToEnd.HiddenPixel | src/mode/graphics.rs:120-138 | On the SSD1309, `set_pixel(0, 64, 1)` writes byte 1024, the first byte `flush` does not send. |
| EndToEnd.FirstPixel | src/mode/graphics.rs:97-162 | SSD1309 at any rotation: after `set_pixel(0, 0, 1)`, `flush` sends 35 transfers. They are `[0xB0]`, `[0x00]`, `[0x10]`, then 128 bytes whose first is 0x01 and the rest 0, then page 1's address. |
| EndToEnd.FailedFlush | src/mode/graphics.rs:102-111 | A bus that fails after three transfers gets only the origin address. The first data transfer fails, the bus's error comes back unchanged, and the cursor stays at the origin. |

## Left out

- **Async.** `async`/`await` and the sync/async duplication made by `maybe_async_cfg` are left out. Each operation is one synchronous method.
- **The transport.** It is the abstract recording `Bus`. SPI/I2C, chip select and data/command pins are not modelled; only their error values appear.
- `GraphicsMode::reset` (src/mode/graphics.rs:84-94) is left out. It only drives a foreign GPIO pin and a delay.
- **The embedded-graphics adapter** (`draw_iter`, `OriginDimensions`, src/mode/graphics.rs:197-242) is left out. It depends on a foreign bounding box and only forwards in-bounds pixels to `set_pixel`.
- `NFrames` (src/command.rs:106-123) is left out. It is unused.
- src/builder.rs, src/mode/raw.rs, src/mode/displaymode.rs, src/displays/sh1107.rs and src/displays/mod.rs are not part of this model. They only forward values or move ownership, or hold geometry with no initialisation.
- Commands.Encode: the fixed 7-byte array and its length are modelled as the prefix that is sent. The unused trailing zeros are not represented.
- **Panics become preconditions.** Rust's debug-build panics on u8 overflow and on out-of-range slices are stated as preconditions:
  - `Drawing.DrawFits` is the condition under which `draw` neither panics nor loops forever. It is exact for a bus that completes every transfer, and sufficient otherwise, since a failed transfer ends `draw` early;
  - `Graphics.Flushable` is the condition for `flush`;
  - `height >= 1` for the multiplex ratio.

  Release-build wrap-around of these u8 computations is not modelled.
- **`usize` is 32 bits wide.** The index arithmetic of `set_pixel` wraps modulo 2^32, as a release build on the 32-bit targets computes it (`Graphics.Wrap`). A debug build panics on that overflow instead; the panic is not modelled.
- Graphics.LocateInjective holds only for pixels whose index `y / 8 * W + x` (or `x / 8 * W + y` at 90° and 270°) fits in 32 bits. Beyond that, two pixels can share a bit (`Graphics.IndexWraps`).
- Properties.DisplayProperties.GetDimensions and Properties.DisplayProperties.GetRotation have no contracts of their own. `Drawing.DimensionsSwap` states the first, and the second returns the stored field.
- Graphics.GraphicsMode.GetRotation has no contract; it returns the properties' rotation.
- Graphics.GraphicsMode.Flush: the end state of a flush that succeeds is not in the method's own postcondition. The postcondition gives the cursor as a function of the transfers delivered, and `Graphics.FlushEnd` evaluates it for a complete flush.
