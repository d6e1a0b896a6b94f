# Pico-NBI in Dafny

A model of the non-blocking I2C ("NBI") library for the Raspberry Pi Pico, and of the
two interrupt-driven peripheral drivers built on it, with proofs about the model.

- **Transport** (`Nbi`, `Codec`). This is the layer of `lib/nbi.c`.
  - A channel registry of twelve entries. Channel *n* runs on PIO *n*/4, state machine *n*%4.
  - Each state machine has a TX FIFO and an RX FIFO, modelled as sequences of 32-bit words.
  - The layout of a command word is `((data << 3) | options) << 20`.
  - A response word is decoded into a byte plus an ACK bit.
  - Only one TX handler and one RX handler can be bound, and each must be on PIO 0.
  - Each state machine has a TX enable bit and an RX enable bit.
- **Content provider** (`Content`). This is `lib/SSD1306/content.c`.
  - The text line buffer.
  - The raster index arithmetic that picks a byte of the small (6x8) or big (24x32) font for each of the 1024 slices of a frame.
  - The carried `valid` flag, which blanks a row once its text ends.
- **SSD1306 display driver** (`Ssd1306`, `Ssd1306Scan`). This is `lib/SSD1306/SSD1306.c`.
  - The initialisation trace.
  - The handler state machine that paints one frame: 6 window commands, a data transfer header, and 1024 slices.
  - The `display()` / `display_try()` requests, and the coalescing of repeated requests into one further scan.
- **MPU6050 driver** (`Mpu6050`, `Mpu6050Read`). This is `lib/MPU6050/MPU6050.c`.
  - One burst read of the fourteen measurement registers. It starts with a four-record opening sequence.
  - The RX handler then runs once per received byte. It combines each byte pair big-endian into one of seven 16-bit values.
  - The accessors reinterpret a value as a signed 16-bit number.

Each C driver keeps its state in static variables. In the model that state is a class:
- `Transport` for the transport;
- `Content` for the content provider;
- `Display` for the display driver;
- `AccGyro` for the MPU6050 driver.

Each class has a `Valid()` invariant. An interrupt service routine is a method whose precondition is that the matching interrupt source is enabled.

Each interrupt handler is specified by a pure step function:
- `Ssd1306.Step` for the display;
- `Mpu6050.HandlerStep` for the MPU6050.

A two-state predicate (`Handled`) ties the old and new object state to that step function. Whole scans and whole reads are proved about iterates of the step function:
- `Ssd1306Scan.Run`;
- `Mpu6050Read.Feed`.

A call that would `panic` returns `Status.Panic` instead. Its contract says what it left in the state; the real program stops there.

The side effects of a handler are recorded as a list of `Effect`s:
- `Send(data, options)`, one record pushed to the TX FIFO;
- `Disarm`, the interrupt source switched off;
- `Callback`, the action function called.

`Nbi.Words` maps such a list to the command words it pushes.

## Model

| member | source | states |
|---|---|---|
| Codec.Encode | lib/nbi.c:95 | the command word has the low 20 bits clear, data in bits 30..23, and START, NACK, REPLY, STOP in bits 31, 22, 21, 20 |
| Codec.CommandRoundTrip | lib/nbi.h:6 | decoding each field from its own bits gives back the data byte and every option flag |
| Codec.EncodeInjective | lib/nbi.c:95 | distinct (data, options) pairs give distinct command words |
| Codec.DecodeResponse | lib/nbi.c:112-115 | the byte is bits 8..1 of the response word, and ACK is reported exactly when bit 0 is 0 |
| Codec.ResponseRoundTrip | lib/nbi.h:48 | the receiver recovers the byte and the acknowledge bit from the engine's response word |
| Codec.DecodeReadsLowNineBits | lib/nbi.c:112-114 | the decoded response depends on bits 8..0 of the word only |
| Codec.AddressByte | lib/SSD1306/SSD1306.c:20 | an address byte is the 7-bit address followed by the R/W bit, set for READ |
| Nbi.Words | lib/nbi.c:98 | a list of effects pushes at most one word per effect |
| Nbi.WordsNoSends | lib/nbi.c:98 | effects other than sends push no word |
| Nbi.Transport.constructor | lib/nbi.c:21-29 | every table entry is zero, the counter is 0, every FIFO is empty, and no handler is bound or enabled |
| Nbi.Transport.CreateChannel | lib/nbi.c:31-58 | succeeds exactly while fewer than 12 channels exist; returns the counter and increments it; stores sda, speed, PIO n/4, SM n%4 and -1 for both IRQ fields in entry n only; records the bit rate of the speed for that SM; on a panic nothing changes |
| Nbi.SequentialNumbering | lib/nbi.h:16 | twelve creations from reset return 0..11 in order, channel k on (k/4, k%4), and the thirteenth panics |
| Nbi.Transport.Send | lib/nbi.c:90-99 | appends exactly the encoded word to that channel's TX FIFO; every other FIFO and all the setup are unchanged |
| Nbi.Transport.Receive | lib/nbi.c:103-116 | removes exactly the oldest word of that channel's RX FIFO and returns its decoding; nothing else changes |
| Nbi.Transport.Deliver | lib/nbi.c:109 | the engine's side of an RX FIFO: appends one word to that channel's queue only |
| Nbi.Transport.SetTxHandler | lib/nbi.c:125-145 | panics when a TX handler is bound or chnl/4 is not 0; otherwise sets the TX IRQ and that channel's tx_fifo_irq field only |
| Nbi.Transport.EnableTx | lib/nbi.c:150-158 | panics while no TX handler is bound; otherwise sets only that SM's TX source to the requested value |
| Nbi.Transport.SetRxHandler | lib/nbi.c:165-184 | panics when an RX handler is bound or chnl/4 is not 0; otherwise sets the RX IRQ and that channel's rx_fifo_irq field only |
| Nbi.Transport.EnableRx | lib/nbi.c:189-197 | panics while no RX handler is bound; otherwise sets only that SM's RX source to the requested value |
| Content.FrameSizeIsScreen | lib/SSD1306/SSD1306.c:14 | a frame is WIDTH*HEIGHT/8 = 1024 slices |
| Content.TextGridFitsScreen | lib/SSD1306/content.c:116-122 | the rows and columns reported (8/21 small, 2/5 big) are the whole glyphs that fit 128x64 pixels, and they fit the line buffer |
| Content.Content.NRows | lib/SSD1306/content.c:116-118 | the row count for the current font is the number of whole glyph rows that fit the 64-pixel height, at most the 8 buffer lines |
| Content.Content.NCols | lib/SSD1306/content.c:120-122 | the column count for the current font is the number of whole glyphs that fit the 128-pixel width, at most the 21 characters a line holds |
| Content.TableSizes | lib/SSD1306/content.c:7-8 | each font table holds 95 printable glyphs of GlyphSize bytes |
| Content.CellOf | lib/SSD1306/content.c:62-66 | for every raster index below 1024, the line is below the row count, the column fits the 22-slot line, and the glyph offset is below the glyph size |
| Content.CellRoundTrip | lib/SSD1306/content.c:88-94 | every raster index reads an on-screen cell slice, and it is the one index that paints that slice |
| Content.RasterRoundTrip | lib/SSD1306/content.c:59-64 | every on-screen cell slice is painted by a raster index below 1024 that reads it back |
| Content.GlyphIndex | lib/SSD1306/content.c:70-72 | the font-table index of a printable character lies inside the table |
| Content.GlyphIndexDecodes | lib/SSD1306/content.c:99-100 | the index decodes back to (ch - 0x20) glyphs in, plus the offset within the glyph |
| Content.ScanAgrees | lib/SSD1306/content.c:65-74 | scanning a raster row in order, the carried `valid` flag equals "no terminator up to this column", so each call paints the reference slice SliceAt |
| Content.RowBlanking | lib/SSD1306/content.c:93-104 | once a raster row meets a terminator, every later slice of that row is 0 |
| Content.TextOfTerminated | lib/SSD1306/content.c:53 | a line holding text, a terminator and anything after reads back as the text |
| Content.Truncated | lib/SSD1306/content.c:50 | the stored text is the formatted text when it has at most 20 characters, and exactly its first 20 characters otherwise |
| Content.StoredReadsBack | lib/SSD1306/content.c:50-53 | the stored line keeps its 22 slots and reads back as the truncated text |
| Content.Content.constructor | lib/SSD1306/content.c:24-26 | the static buffer starts all zero with the SMALL font |
| Content.Content.Init | lib/SSD1306/content.c:28-35 | records the font size; the first slot of every line becomes NUL, so every line reads as empty; no other slot changes |
| Content.Content.Set | lib/SSD1306/content.c:43-54 | panics exactly when line_num >= 8; otherwise only that line changes, to the stored truncated text |
| Content.Content.SmallFont | lib/SSD1306/content.c:59-78 | returns the slice and new `valid` flag of SliceStep for the small font; the buffer is unchanged |
| Content.Content.BigFont | lib/SSD1306/content.c:81-107 | returns the slice and new `valid` flag of SliceStep for the big font; the buffer is unchanged |
| Content.Content.GetSlice | lib/SSD1306/content.c:110-113 | dispatches on the font size, with the result of SliceStep |
| Ssd1306.WriteAddress | lib/SSD1306/SSD1306.c:19-20 | ADDR_W = 0x78 is the address 0x3C in write direction |
| Ssd1306.CmdSequenceShape | lib/SSD1306/SSD1306.c:50-54 | cmd applied to n bytes gives 3n records: START with the address, the 0x00 control byte, the command with STOP |
| Ssd1306.WordsOfSends | lib/nbi.c:95-98 | a list of sends pushes exactly its records' encodings, one each, in order |
| Ssd1306.InitTrace | lib/SSD1306/SSD1306.c:67-69 | display_init pushes 75 words, the 25 magic bytes in order, each one wrapped as 0x78 (START, NACK), 0x00 (NACK), b (STOP, NACK) |
| Ssd1306.Display.SendCommands | lib/SSD1306/SSD1306.c:67-69 | the loop appends exactly the words of cmd over the byte list, on this channel only |
| Ssd1306.Display.Cmd | lib/SSD1306/SSD1306.c:50-54 | appends the three words of one command transfer to this channel's FIFO |
| Ssd1306.Display.Init | lib/SSD1306/SSD1306.c:57-81 | records the channel, initialises the content provider, pushes the magic trace, clears busy and another, and binds the TX handler (panicking as that does) |
| Ssd1306.Display.SetAction | lib/SSD1306/SSD1306.c:40-42 | replaces the action function |
| Ssd1306.Step | lib/SSD1306/SSD1306.c:98-164 | the handler panics exactly in S4 and the tags the switch has no case for, and a step keeps the index within the phase's bounds |
| Ssd1306.StepEffects | lib/SSD1306/SSD1306.c:98-164 | each interrupt pushes at most one record; only S3 with no request pending disarms and calls the action function, and only that clears busy |
| Ssd1306.Display.InterruptHandler | lib/SSD1306/SSD1306.c:95-167 | one interrupt changes the variables, the FIFO, the TX source and the callback log exactly as Step says, or panics with nothing changed |
| Ssd1306.Display.Preamble | lib/SSD1306/SSD1306.c:100-115 | S0 resets i and opens the command transfer; S1 opens the data transfer; S2 resets i and sends the 0x40 control byte |
| Ssd1306.Display.Command | lib/SSD1306/SSD1306.c:135-149 | T1 sends 0x00; T2 sends cmds[i] with STOP and moves to T3 or, after the sixth, to S1; T3 re-addresses |
| Ssd1306.Display.PaintSlice | lib/SSD1306/SSD1306.c:151-160 | sends get_slice(i) with NACK, and STOP only on i = 1023; after 1024 slices moves to S3 |
| Ssd1306.Display.Restart | lib/SSD1306/SSD1306.c:118-120 | at S3 with another set: back to S0 with another cleared and nothing sent |
| Ssd1306.Display.Finish | lib/SSD1306/SSD1306.c:121-127 | at S3 with no request pending: disables the TX source, clears busy, enters S4, then calls the action function if set |
| Ssd1306.Display.Halt | lib/SSD1306/SSD1306.c:131-132 | S4 and the unlisted tags panic and change nothing |
| Ssd1306.RequestScan | lib/SSD1306/SSD1306.c:181-190 | display() while busy only sets another; when idle it enters S0 and sets busy |
| Ssd1306.Display.Request | lib/SSD1306/SSD1306.c:181-190 | busy: only another is set; idle: S0 and busy are set, then the TX source is armed, which panics (with S0 and busy already set) while no TX handler is bound; on success the driver invariant is kept |
| Ssd1306.Display.Try | lib/SSD1306/SSD1306.c:170-178 | returns true exactly from S0 or S4, then enters S0 and arms the TX source (panicking, already in S0, while no TX handler is bound); otherwise changes nothing; busy and another are never touched |
| Ssd1306.StepKeepsCoherence | lib/SSD1306/SSD1306.c:131-132 | under the invariant (TX armed iff busy; idle only in S0 or S4) an interrupt never panics, and the invariant holds after it |
| Ssd1306.RequestKeepsCoherence | lib/SSD1306/SSD1306.c:181-190 | display() keeps the invariant and leaves the TX source armed |
| Ssd1306.ResetIsCoherent | lib/SSD1306/SSD1306.c:71-72 | the state after display_init satisfies the invariant with the TX source off |
| Ssd1306Scan.RunAdd | lib/SSD1306/SSD1306.c:98-164 | a run of a + b interrupts is a run of a followed by a run of b |
| Ssd1306Scan.CommandPhase | lib/SSD1306/SSD1306.c:84-85 | from S0, 18 interrupts push the six cmds bytes, each wrapped as address, 0x00, command with STOP, ending in S1 with i = 6 |
| Ssd1306Scan.CommandsFrom | lib/SSD1306/SSD1306.c:135-149 | the T1/T2/T3 loop from command k pushes the rest of the command transfers and ends in S1 |
| Ssd1306Scan.Streaming | lib/SSD1306/SSD1306.c:151-160 | from U0 at index k, one interrupt per remaining slice pushes SliceAt in increasing order and ends in S3 with i = 1024 |
| Ssd1306Scan.FullScan | lib/SSD1306/SSD1306.c:100-160 | from S0, 1044 interrupts push exactly the frame's records and end in S3, with nothing disarmed or called back |
| Ssd1306Scan.FrameLayout | lib/SSD1306/SSD1306.c:106-115 | a frame is 1044 records: 18 command records, then 0x78 (START) and 0x40, then slice j at position 20 + j |
| Ssd1306Scan.CommandStops | lib/SSD1306/SSD1306.c:141 | the 18 command records are sends, and STOP falls on every third |
| Ssd1306Scan.FrameShape | lib/SSD1306/SSD1306.c:155-157 | a frame pushes 1044 words, and STOP falls on the six commands and on the last slice only |
| Ssd1306Scan.RequestsCoalesce | lib/SSD1306/SSD1306.c:182-184 | k >= 1 display() calls while busy have the effect of one: they set another and nothing else |
| Ssd1306Scan.RequestCommutes | lib/SSD1306/SSD1306.c:182-184 | a request during a scan, except at S3, does not change what the next interrupt pushes |
| Ssd1306Scan.Coalescing | lib/SSD1306/SSD1306.c:117-128 | k >= 1 requests during a scan make its end run exactly one more full frame, then disarm and call the action function once |
| Ssd1306Scan.LastScan | lib/SSD1306/SSD1306.c:117-128 | a frame with no request pending ends in S4, idle, after pushing the frame and the finale |
| Ssd1306Scan.IdleAfterScan | lib/SSD1306/SSD1306.c:131-132 | after the last scan the machine is idle and coherent, another interrupt would panic, and display() restarts from S0 |
| Mpu6050.AddressBytes | lib/MPU6050/MPU6050.c:12-15 | ADDRESS_W and ADDRESS_R are 0x68 followed by the WRITE and READ bits |
| Mpu6050.Combine | lib/MPU6050/MPU6050.c:45 | the 16-bit value of a register pair has the high byte as quotient by 256 and the low byte as remainder |
| Mpu6050.CombineInjective | lib/MPU6050/MPU6050.c:45 | two register pairs give the same value only when they are equal |
| Mpu6050.Signed16 | lib/MPU6050/MPU6050.c:79 | (int16_t) gives a value in -32768..32767, congruent to the reading modulo 2^16, negative exactly when the reading is >= 32768 |
| Mpu6050.SignedRoundTrip | lib/MPU6050/MPU6050.c:79 | the signed reinterpretation and the cast back to uint16_t are inverse on their ranges |
| Mpu6050.HandlerStep | lib/MPU6050/MPU6050.c:37-62 | state stays within 0..13 and the seven values stay seven |
| Mpu6050.StepStores | lib/MPU6050/MPU6050.c:38-46 | an even state latches the high byte and keeps the values; an odd state sets low and stores high*256 + low in slot state/2, which is below 7; no other slot changes |
| Mpu6050.StepAdvances | lib/MPU6050/MPU6050.c:48-61 | below 12 the handler requests 0xFF with ACK and REPLY; at 12 it requests with NACK, REPLY and STOP; both advance; at 13 it sends nothing, stays, disarms and calls back |
| Mpu6050.AccGyro.constructor | lib/MPU6050/MPU6050.c:19-24 | the zero-initialised statics |
| Mpu6050.AccGyro.Init | lib/MPU6050/MPU6050.c:65-70 | records the channel, clears the action function, and binds the RX handler, panicking when one is bound or the channel is not 0..3 |
| Mpu6050.AccGyro.SetAction | lib/MPU6050/MPU6050.c:73-75 | replaces the action function |
| Mpu6050.AccGyro.Read | lib/MPU6050/MPU6050.c:26-34 | pushes 0xD0 (START, NACK), 0x3B (NACK), 0xD1 (START, NACK), 0xFF (ACK, REPLY); sets state 0; arms RX, panicking while no RX handler is bound |
| Mpu6050.AccGyro.Handler | lib/MPU6050/MPU6050.c:37-62 | one interrupt consumes the oldest RX word and changes the registers, the FIFO, the RX source and the callback log exactly as HandlerStep says |
| Mpu6050.AccGyro.Latch | lib/MPU6050/MPU6050.c:41-46 | the received byte goes to high or low, and the low byte completes value state/2 |
| Mpu6050.AccGyro.RequestNext | lib/MPU6050/MPU6050.c:48-51 | requests the next byte, with STOP on the last, and advances the state |
| Mpu6050.AccGyro.Complete | lib/MPU6050/MPU6050.c:53-56 | disables the RX source, then calls the action function if set |
| Mpu6050.AccGyro.AX | lib/MPU6050/MPU6050.c:78-81 | value 0 as a signed 16-bit reading |
| Mpu6050.AccGyro.AY | lib/MPU6050/MPU6050.c:83-86 | value 1 as a signed 16-bit reading |
| Mpu6050.AccGyro.AZ | lib/MPU6050/MPU6050.c:88-91 | value 2 as a signed 16-bit reading |
| Mpu6050.AccGyro.WZ | lib/MPU6050/MPU6050.c:93-96 | value 6 as a signed 16-bit reading |
| Mpu6050Read.Feed | lib/MPU6050/MPU6050.c:37-62 | the handler applied to each received byte keeps the registers well-formed |
| Mpu6050Read.FeedPrefix | lib/MPU6050/MPU6050.c:38-61 | after n <= 13 bytes from state 0: state n, n requests sent, every completed pair combined into its slot, and the latest even byte held as high |
| Mpu6050Read.Transaction | lib/MPU6050/MPU6050.c:37-62 | 14 bytes from state 0 leave state 13, value j = byte 2j * 256 + byte 2j+1 for all seven, after 13 requests and the completion |
| Mpu6050Read.RequestCounts | lib/MPU6050/MPU6050.c:48-61 | the first n requests are n sends, all with REPLY; only the thirteenth carries STOP |
| Mpu6050Read.WordsCount | lib/nbi.c:98 | a trace pushes one word per send |
| Mpu6050Read.TransactionCounts | lib/MPU6050/MPU6050.c:26-61 | one read pushes 17 words, receives 14 bytes with as many REPLY requests, has one STOP and one disarm, and calls back once when an action is set |

## Left out

- PIO and GPIO setup are not modelled: `configure_sm`, pin mapping, clock dividers and the PIO program. The engine is seen only through its FIFOs; `Transport.Deliver` stands in for its responses.
- `pio_sm_put_blocking` back-pressure is not modelled: `Send` appends without bound.
- Nbi.Transport.Receive: requires a non-empty RX FIFO, where `pio_sm_get_blocking` (lib/nbi.c:109) would wait for a word instead.
- Interrupt delivery, preemption and `volatile` are not modelled. A handler is a method called while its source is enabled, with nothing running concurrently.
- IRQ numbers are constants. The TX IRQ is 15, as the comment at lib/nbi.c:119 and 138 states. The RX IRQ is 16, a stand-in for what `pio_get_irq_num` returns. `irq_set_exclusive_handler` and `irq_set_enabled` are folded into "a handler is bound".
- Nbi.Transport.CreateChannel: on the panic path the source increments `next_chnl_num` before panicking (lib/nbi.c:33-36). The model leaves the counter at 12, because the program stops there.
- Nbi.Transport.SetTxHandler, Nbi.Transport.SetRxHandler: the handler function itself is not recorded, since each driver has exactly one.
- Printing is not modelled: `nbi_print_channel_info`, `speed2str`, `rsp2str` and `acc_gyro_print`. Note that `rsp2str` compares its bool with ACK = 0, so it names the opposite of `nbi_receive`'s result. It is not used as a specification here.
- Float scaling of the MPU6050 accessors (ASF, GSF) is not modelled. The accessors return the signed integer reading that the source multiplies by the scale factor.
- `vsnprintf` formatting is not modelled. `Content.Set` takes the already formatted text, restricted to printable characters.
- The font tables `font68` and `font_32_24` are abstract sequences of at least 570 and 9120 bytes. The model covers printable characters 0x20..0x7E only.
- The monitor pin (GP12) toggling in `display_init` and `interrupt_handler` is not modelled.
- The demo programs (`main.c` files) are not modelled.
- Panics are results (`Status.Panic`), not program termination. A contract states the state at the point of the panic.
- Ssd1306.Display.Try: the invariant `Coherent` is not kept by `display_try` whenever it succeeds on an idle machine (S0 or S4), and it is not claimed. The source arms the TX source without setting busy.
- Ssd1306Scan.FullScan, Ssd1306Scan.Coalescing, Ssd1306Scan.LastScan: the line buffer and the font size are held fixed for the duration of a scan. `display_set` running during a scan (from an interrupt or the main loop) is not modelled.
- Ssd1306Scan.Coalescing: the k requests are applied at S3, the last point where they can coalesce into the running scan. `RequestCommutes` shows that a request at any earlier scan state leaves that interrupt's output unchanged.
- Mpu6050.AccGyro.Handler: requires a non-empty RX FIFO, where `nbi_receive` blocks. The ACK bit it returns is ignored, as in the source.
- Mpu6050.Combine: `(high << 8) | low` is written as `high * 256 + low`. The two agree for bytes, and `Combine`'s contract states the byte split.
- Content.Content: the buffer contents are mirrored in a ghost field `text`, so that pure specifications can read the buffer.
