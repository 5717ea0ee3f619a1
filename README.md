# EVE command-FIFO engine in Dafny

This project models the host side of the FTDI/Bridgetek EVE display-controller driver
in `EVE_commands.c`. The host talks to the chip over SPI, one byte at a time. The model
covers:

- how the host frames register reads and writes;
- how it keeps `cmdOffset`, its own copy of the coprocessor's 4 KiB command-FIFO write
  offset;
- how it emits coprocessor commands, one transaction per command or as one burst;
- how it loads data in chunks, and how it waits for the coprocessor, including the
  fault-recovery path;
- the two bring-up routines, `EVE_init` and `EVE_init_flash`.

The engine is the class `Engine.Eve`. Its fields are the state the C file keeps in
globals:

- `cmdOffset`;
- `burst`, which is `cmd_burst`;
- the chip-select line, `cs`.

Two more fields describe the chip and the bus:

- `received` counts the bytes the host has clocked in. The chip's replies are a fixed
  stream `miso`; the n-th receive gets `miso(n)`.
- The ghost field `wire` records everything on the bus, in order:
  - `Select`/`Deselect` for chip-select;
  - `Out(b)` for a transmitted byte;
  - `Recv(b)` for a received byte;
  - `PowerDown(level)` and `Delay(ms)`.

Every method of the class models one C function or one step of one. All of them are
proved against pure specifications written as functions:

- `Wire`: address headers and transactions;
- `Fifo`: offset arithmetic, padding and chunking;
- `Commands`: commands as FIFO payloads, and immediate versus burst framing;
- `Execute`: the busy-wait and the chunked block transfer;
- `BringUp`: the polls and the two init routines.

Each method's `ensures` gives its new `cmdOffset`, `received`, `cs` and `wire` in terms
of those functions. The lemmas about the functions state what the source promises.

The chip header (`EVE.h`) is not part of this model. Its register addresses and opcodes
are an opaque record, `Chip.ChipDefs`. `Chip.ValidDefs` assumes only this of it: the
registers are distinct addresses in the 22-bit space, none of them among the three
start-up display-list words, and the RAM regions fit in that space. `EVE_config.h`'s panel tables are a `Chip.DisplayConfig`. Conditional compilation
is a `Chip.Board` record of flags (EVE3_43, EVE_HAS_CRYSTAL, EVE_HAS_GT911, BT81X_ENABLE,
EVE_ADAM101).

The source waits without bound (`while (EVE_busy());`). Here every wait takes a `fuel`
bound on the number of polls and reports whether the coprocessor caught up within it.
This is the boolean `EVE_cmd_execute` that `EVE_commands.h:275-277` declares. The two
bring-up routines pass these reports on: their outcomes carry a `settled` flag, true
exactly when every wait on the path taken caught up. Only a settled run is one the
driver returns from; an unsettled one is a run where it would still be polling.

A burst session is proved to be one write transaction. Each burst-aware method
(`CmdDl`, `CmdText`, `CmdNumber`) appends `Commands.Emission` of its command at the
current offset and moves the offset to `Commands.Next`. `Commands.EmissionsSnoc` folds
successive calls into `Commands.Emissions` of the run. Inside a burst, the select and
header of `StartCmdBurst`, that run, and the deselect of `EndCmdBurst` form the single
write transaction of the run's stream. Outside a burst, the same run is one write
transaction per command.

## Model

| member | source | states |
|---|---|---|
| Bytes.LE16 | EVE_commands.c:217-226 | a 16-bit value is sent as two bytes, low first, and reassembling them gives the value back |
| Bytes.LE32 | EVE_commands.c:229-240 | a 32-bit value is sent as four bytes, low first, and reassembling them gives the value back |
| Bytes.LE16OfFromLE16 | EVE_commands.c:174-186 | assembling two received bytes into a `uint16_t` and splitting it again gives the same bytes |
| Bytes.LE32OfFromLE32 | EVE_commands.c:189-203 | the same for four bytes and a `uint32_t` |
| Bytes.U16Of | EVE_commands.c:1505-1512 | an `int16_t` argument is sent as its two's-complement bytes; the top bit is set exactly for negative values |
| Bytes.U32Of | EVE_commands.c:2305-2308 | an `int32_t` argument is sent as its two's-complement bytes; the top bit is set exactly for negative values |
| Bytes.Zeros | EVE_commands.c:530-534 | n zero bytes |
| Wire.WithWriteBit | EVE_commands.c:206-214 | `MEM_WRITE` sets bit 7 of the first address byte and keeps the other bits |
| Wire.Header | EVE_commands.c:160-240 | every transaction starts with three address bytes |
| Wire.HeaderRoundTrip | EVE_commands.c:160-240 | the chip recovers the direction and the full 22-bit address from the three header bytes, for reads and for writes |
| Wire.WriteTxnDecodes | EVE_commands.c:206-240 | the bytes a write puts on MOSI are the header with bit 7 set, then the data; decoding them gives a write of that data at that address |
| Wire.ReadTxnDecodes | EVE_commands.c:160-203 | the bytes a read puts on MOSI are the header with no direction bit, one dummy byte, then a zero per byte received; decoding them gives a read of that address |
| Wire.MosiBytesAppend | EVE_commands.c:150-260 | the MOSI bytes of consecutive bus activity are concatenated |
| Wire.MosiBytesOuts | EVE_commands.c:150-260 | transmitted bytes appear on MOSI unchanged |
| Wire.MosiBytesRecvs | EVE_commands.c:160-203 | each receive clocks out one zero byte |
| Fifo.IncOffset | EVE_commands.c:349-353 | adding in 16 bits and keeping 12 bits gives (off + n) mod 4096, always below 4096 |
| Fifo.AdvanceAllIsSum | EVE_commands.c:349-353 | successive increments move the offset by their sum mod 4096 |
| Fifo.WrapExample | EVE_commands.c:389-428 | from 4094, an opcode and 8 argument bytes leave the offset at 10 |
| Fifo.StringPadding | EVE_commands.c:1248-1263 | `4 - (len & 3)` zero bytes: between 1 and 4, so that text plus padding is a multiple of 4 |
| Fifo.StringLen | EVE_commands.c:1229-1266 | a string takes a positive multiple of 4 bytes, more than its length and at most 4 more |
| Fifo.Uint8StringAdvance | EVE_commands.c:1232-1265 | the advance held in `uint8_t textindex` is text plus padding for lengths up to 251 and 0 for lengths 252-255 |
| Fifo.Uint8StringAdvanceLosesBytes | EVE_commands.c:1232-1265 | a 252-byte string takes 256 FIFO bytes but advances the offset by 0 |
| Fifo.BlockPadding | EVE_commands.c:519-521 | `(4 - (len & 3)) & 3` zero bytes: at most 3, so that data plus padding is a multiple of 4 |
| Fifo.FlashBufferLen | EVE_commands.c:252 | `(len + 3) & ~3` in 16 bits: the next multiple of 4 at or above `len`, or 0 once that overflows |
| Fifo.FlashWriteAdvance | EVE_commands.c:528-536 | `len + padding` in 16 bits is the padded length, and equals it mod 4096 in every case |
| Fifo.Chunks | EVE_commands.c:547-561 | every chunk has 1 to 3840 bytes |
| Fifo.ChunksConcat | EVE_commands.c:547-561 | the chunks, in order, are the data |
| Fifo.ChunksShape | EVE_commands.c:547-561 | there are ⌈len/3840⌉ chunks, and every chunk but the last is full |
| Fifo.ChunksFirst | EVE_commands.c:549-559 | each pass takes `min(bytes_left, 3840)` bytes, and the remaining passes chunk the rest |
| Fifo.ChunksPaddedTotal | EVE_commands.c:540-562 | the chunks with their padding take `len + BlockPadding(len)` FIFO bytes, a multiple of 4 |
| Fifo.PaddingPastFullChunk | EVE_commands.c:549-556 | a full chunk needs no padding, so only the last chunk is padded, by the padding of the whole length |
| Fifo.ChunkExamples | EVE_commands.c:540-562 | 3840 bytes give one unpadded chunk; 3841 bytes give two, the second 1 byte padded with 3 zeros |
| Commands.MemzeroCmd | EVE_commands.c:411-428 | CMD_MEMZERO with words `ptr`, `num` |
| Commands.MemsetCmd | EVE_commands.c:432-454 | CMD_MEMSET with words `ptr`, `value` widened to a word, `num` |
| Commands.MemcpyCmd | EVE_commands.c:487-509 | CMD_MEMCPY with words `dest`, `src`, `num` |
| Commands.InflateCmd | EVE_commands.c:566-576 | CMD_INFLATE with the word `ptr` |
| Commands.MemcrcCmd | EVE_commands.c:842-870 | CMD_MEMCRC with words `ptr`, `num` and a zero result word |
| Commands.GetptrCmd | EVE_commands.c:874-891 | CMD_GETPTR with a zero result word |
| Commands.RegreadCmd | EVE_commands.c:895-918 | CMD_REGREAD with word `ptr` and a zero result word |
| Commands.GetpropsAsSent | EVE_commands.c:933-961 | what `EVE_cmd_getprops` sends: the REGREAD opcode, `ptr` and two zero words, 16 bytes |
| Commands.GetpropsCmd | EVE_commands.c:921-930 | the intended GETPROPS command: its own opcode, `ptr` and the two result words, 16 bytes |
| Commands.GetpropsIntendedSlots | EVE_commands.c:921-930 | for the intended command, the width word is 8 bytes in, the height word 4 after it in the result slot, and an advance of 8 past the width reaches the next command |
| Commands.GetpropsAdvanceFallsShort | EVE_commands.c:937-958 | as written, the offset moves by 12 for 16 bytes sent, so it falls short of the next command's position |
| Commands.TextCmd | EVE_commands.c:1485-1525 | CMD_TEXT with 8 + StringLen(len) argument bytes, a multiple of 4 |
| Commands.TextCmdLayout | EVE_commands.c:1485-1525 | the coprocessor finds x, y, font and options as half-words, then the text, then only zeros |
| Commands.TextAdvance | EVE_commands.c:1485-1525 | for strings up to 251 bytes, the source's offset arithmetic lands on the next command |
| Commands.NumberCmd | EVE_commands.c:2268-2315 | CMD_NUMBER with x, y, font and options as half-words and the number as a two's-complement word |
| Commands.ResultSlotPrecedesNext | EVE_commands.c:842-918 | the returned result offset is the last word of the command, 4 bytes before the next one |
| Commands.SlotOffsets | EVE_commands.c:846-865 | incrementing past the opcode and the arguments reaches the result slot, and 4 more reaches the next command |
| Commands.EmissionInParts | EVE_commands.c:1179-1225 | opening, more bytes and closing emit the command bytes in one transaction outside a burst, or bare inside one |
| Commands.AfterIsStreamLength | EVE_commands.c:1142-1225 | after a run of commands the offset has moved by the length of their payloads, mod 4096 |
| Commands.BeforeIsStreamPrefix | EVE_commands.c:1142-1225 | the FIFO bytes taken by the first i commands are the first i payloads of the burst stream |
| Commands.ImmediateAddresses | EVE_commands.c:389-404 | in immediate mode, command i is addressed at the start offset plus the bytes before it, the burst stream's position for it |
| Commands.FramesLength | EVE_commands.c:389-404 | immediate mode makes one transaction per command |
| Commands.BodiesAreStream | EVE_commands.c:1142-1225 | the immediate transactions' data, run together, is the burst stream |
| Commands.EmissionsSnoc | EVE_commands.c:1179-1225 | one more burst-aware command appends its emission at the offset the run ended at and moves the offset past it |
| Commands.BurstEmissionsAreStream | EVE_commands.c:1183-1225 | inside a burst a run of commands puts exactly the payload stream on the bus |
| Commands.BurstSessionIsOneTxn | EVE_commands.c:1142-1175 | start of burst, a run of commands and end of burst make one write transaction of the stream at the starting FIFO position |
| Commands.ImmediateEmissionsAreFrames | EVE_commands.c:1183-1225 | outside a burst the same run is one write transaction per command, each at its own FIFO position |
| Commands.BurstIsImmediateWithoutHeaders | EVE_commands.c:1142-1225 | on the bus, a burst session is the first immediate transaction with every later payload added and the later headers, selects and deselects dropped, and it ends at the same offset |
| Execute.Got16 | EVE_commands.c:174-186 | a 16-bit read receives two bytes |
| Execute.Got32 | EVE_commands.c:189-203 | a 32-bit read receives four bytes |
| Execute.BusyOutcome | EVE_commands.c:266-296 | on 0xFFF, busy resets the coprocessor with four writes in the source's order, sets the offset to 0 and reports busy; otherwise it only reads, keeps the offset, and is busy iff the offset differs from what it read |
| Execute.WaitShape | EVE_commands.c:381-385 | a wait either catches up on its last poll or uses all its polls, with the offset it leaves |
| Execute.WaitFaultFree | EVE_commands.c:381-385 | without faults the offset is unchanged, and the wait succeeds iff one of its polls reads the offset |
| Execute.WaitTraceFaultFree | EVE_commands.c:266-296 | without faults the wait's bus activity is its register reads and nothing else |
| Execute.WaitEventsFaultFree | EVE_commands.c:266-296 | the same, for the wait specified over any per-poll activity |
| Execute.WaitCaughtUp | EVE_commands.c:384 | a loop pass that finds the coprocessor caught up ends the wait successfully |
| Execute.WaitEventsCaughtUp | EVE_commands.c:384 | the bus activity of such a wait is that of its passes |
| Execute.WaitTimesOut | EVE_commands.c:384 | a wait whose polls all find the coprocessor behind fails |
| Execute.WaitEventsTimeOut | EVE_commands.c:384 | the bus activity of such a wait is that of all its passes |
| Execute.WaitEventsAgree | EVE_commands.c:384 | the wait's activity depends only on the per-poll activity |
| Execute.ChunkStepAdvance | EVE_commands.c:540-562 | without faults, one pass moves the offset by the padded chunk length |
| Execute.ChunkStepsAdvance | EVE_commands.c:540-562 | the same, for every pass |
| Execute.StepsFaultFreeAdvance | EVE_commands.c:540-562 | without faults, a run of passes moves the offset by the padded total of its chunks |
| Execute.ChunksOfTransferFit | EVE_commands.c:549 | every chunk fits the `uint16_t` length |
| Execute.TransferAdvance | EVE_commands.c:540-562 | without faults, `block_transfer` moves the offset by `len + BlockPadding(len)` mod 4096 |
| BringUp.PollFromShape | EVE_commands.c:1032-1041 | from any counter value, the loop stops at the first acceptable read or gives up once the counter passes the limit |
| BringUp.PollOutcome | EVE_commands.c:1031-1041 | a poll succeeds iff one of the first limit + 1 reads is acceptable; it stops at the first one and returns it; a failed poll makes limit + 2 reads |
| BringUp.PollStopsAt | EVE_commands.c:1031-1041 | the poll stops at the first acceptable read within the limit |
| BringUp.PollGivesUp | EVE_commands.c:1031-1041 | with nothing acceptable, it gives up after limit + 2 reads; the last read is never examined |
| BringUp.PclkWrittenOnce | EVE_commands.c:1080-1122 | of the 26 setup writes, only write 24 touches REG_PCLK |
| BringUp.DisplayListBeforePclk | EVE_commands.c:1110-1122 | on the bus, the three display-list words and REG_DLSWAP are written, then the panel is enabled, before REG_PCLK is written |
| BringUp.DisplayListAfterOptions | EVE_commands.c:1094-1113 | the display list and the swap request directly follow the timing, touch and audio writes |
| BringUp.StartAfterDisplayList | EVE_commands.c:1113-1122 | the panel enable, the pixel clock and the backlight directly follow the swap request |
| BringUp.WritesCompose | EVE_commands.c:1080-1122 | the setup writes run in order, in any split |
| BringUp.HorizontalWire | EVE_commands.c:1078-1088 | writes 0-5: the backlight off, then the horizontal timing |
| BringUp.VerticalWire | EVE_commands.c:1089-1093 | writes 6-10: the vertical timing |
| BringUp.PanelWire | EVE_commands.c:1094-1096 | writes 11-13: pin order, clock edge, spread |
| BringUp.TouchAudioWire | EVE_commands.c:1101-1107 | writes 14-18: touch on, audio muted |
| BringUp.OptionsWire | EVE_commands.c:1094-1107 | writes 11-18 |
| BringUp.DisplayListWire | EVE_commands.c:1110-1113 | writes 19-22: the display list and the swap |
| BringUp.StartWire | EVE_commands.c:1116-1122 | writes 23-25: enable, pixel clock, backlight |
| BringUp.InitSucceedsIff | EVE_commands.c:1031-1041 | `EVE_init` succeeds iff one of the REG_ID reads its loop examines returns 0x7C; a failure is always settled |
| BringUp.InitSettledIff | EVE_commands.c:1043-1127 | a success is settled iff the touch patch's execute and the final wait caught up; with no poll budget no success is settled |
| BringUp.InitFailsWithoutChipId | EVE_commands.c:1031-1041 | without the ID, `EVE_init` fails after exactly 402 reads with the offset unchanged, and its bus activity is the power-up followed by the REG_ID reads, with no setup write |
| BringUp.ResyncReadsOffset | EVE_commands.c:1127 | the closing read of REG_CMD_WRITE receives the offset that `EVE_init` leaves |
| BringUp.InitResyncsOffset | EVE_commands.c:1043-1133 | on success the bus shows the touch setup, the display setup, the 2 ms delay, the wait, and last the REG_CMD_WRITE read whose reply is the final offset |
| BringUp.InitNoChipId | EVE_commands.c:1031-1041 | the failing branch of `EVE_init` gives its outcome and its bus activity |
| BringUp.InitChipFound | EVE_commands.c:1043-1133 | the succeeding branch gives its outcome and its bus activity |
| BringUp.InitFlashTimesOut | EVE_commands.c:1435-1446 | still in INIT after the first 101 reads, `EVE_init_flash` fails after 102 reads without a command |
| BringUp.InitFlashDecidedByStatus | EVE_commands.c:1435-1478 | a timed-out poll fails; FULL succeeds and any status above FULL fails, all settled and none touching the FIFO; otherwise success needs DETACHED or BASIC and a flashfast result of 0 |
| BringUp.InitFlashNeedsFuel | EVE_commands.c:1435-1478 | with no poll budget the run is settled iff it sends no command: the poll timed out or found neither DETACHED nor BASIC |
| BringUp.InitFlashNoStatus | EVE_commands.c:1435-1446 | the timeout branch gives its outcome and its bus activity |
| BringUp.InitFlashByStatus | EVE_commands.c:1473-1478 | the branches for statuses other than DETACHED and BASIC give their outcome and bus activity |
| BringUp.InitFlashAttachFails | EVE_commands.c:1448-1457 | a DETACHED flash still not BASIC after the attach fails, with the attach on the bus |
| BringUp.InitFlashBasic | EVE_commands.c:1459-1470 | a BASIC flash succeeds iff flashfast reports 0 |
| BringUp.InitFlashAttached | EVE_commands.c:1448-1470 | a DETACHED flash that becomes BASIC succeeds iff the flashfast that follows reports 0 |
| BringUp.AttachFailsOutcome | EVE_commands.c:1448-1457 | the outcome of a failed attach |
| BringUp.BasicOutcome | EVE_commands.c:1459-1470 | the outcome of the BASIC branch |
| BringUp.AttachedOutcome | EVE_commands.c:1448-1470 | the outcome of the attach-then-flashfast branch |
| BringUp.FlashFastSteps | EVE_commands.c:1353-1367 | flashfast's result is the word read from its result slot after the wait |
| BringUp.FlashFastWire | EVE_commands.c:1353-1367 | the bus activity of flashfast: the command, the start, the wait, the read of the result |
| BringUp.SyncAt | EVE_commands.c:1125-1127 | the closing read starts no earlier than the touch setup |
| Engine.TouchTagSelection | EVE_commands.c:299-333 | touch points 1-5 read five different tag registers, and any other number reads the first one |
| Engine.Eve.constructor | EVE_commands.c:145-147 | the host starts at offset 0, outside a burst, deselected, with nothing on the bus |
| Engine.Eve.CsSet | EVE_commands.c:150-157 | chip-select asserted, recorded on the bus |
| Engine.Eve.CsClear | EVE_commands.c:150-157 | chip-select released, recorded on the bus |
| Engine.Eve.Transmit | EVE_commands.c:150-157 | one byte out |
| Engine.Eve.Receive | EVE_commands.c:168 | one byte in, the chip's next reply |
| Engine.Eve.SetPowerDown | EVE_commands.c:1012-1014 | the power-down line driven |
| Engine.Eve.DelayMs | EVE_commands.c:1013-1015 | a delay, recorded on the bus |
| Engine.Eve.SendHeader | EVE_commands.c:206-214 | the three address bytes with the direction flag |
| Engine.Eve.SendLE16 | EVE_commands.c:217-226 | two data bytes, low first |
| Engine.Eve.SendLE32 | EVE_commands.c:229-240 | four data bytes, low first |
| Engine.Eve.CmdWrite | EVE_commands.c:150-157 | a host command and two zero bytes in one transaction |
| Engine.Eve.MemRead8 | EVE_commands.c:160-171 | a read transaction; the value is the byte received |
| Engine.Eve.MemRead16 | EVE_commands.c:174-186 | a read transaction; the value is the two bytes received, low first |
| Engine.Eve.MemRead32 | EVE_commands.c:189-203 | a read transaction; the value is the four bytes received, low first |
| Engine.Eve.Receive16 | EVE_commands.c:182-183 | two receives |
| Engine.Eve.Receive32 | EVE_commands.c:197-200 | four receives |
| Engine.Eve.MemWrite8 | EVE_commands.c:206-214 | a write transaction of one byte |
| Engine.Eve.MemWrite16 | EVE_commands.c:217-226 | a write transaction of the value, low byte first |
| Engine.Eve.MemWrite32 | EVE_commands.c:229-240 | a write transaction of the value, low byte first |
| Engine.Eve.MemWriteFlashBuffer | EVE_commands.c:243-260 | one write transaction of the buffer's first `(len + 3) & ~3` bytes |
| Engine.Eve.GetTouchTag | EVE_commands.c:299-333 | a 32-bit read of the selected touch-tag register |
| Engine.Eve.GetCmdOffset | EVE_commands.c:336-339 | the offset becomes what REG_CMD_WRITE reads |
| Engine.Eve.ReportCmdOffset | EVE_commands.c:343-346 | returns the offset |
| Engine.Eve.IncCmdOffset | EVE_commands.c:349-353 | the offset becomes (offset + n) mod 4096 |
| Engine.Eve.Busy | EVE_commands.c:266-296 | one REG_CMD_READ read, the recovery on 0xFFF, and busy iff the resulting offset differs from the value read |
| Engine.Eve.Recover | EVE_commands.c:279-286 | the four recovery writes, offset 0 |
| Engine.Eve.CmdStart | EVE_commands.c:357-377 | the offset written to REG_CMD_WRITE |
| Engine.Eve.WaitIdle | EVE_commands.c:384 | the outcome, offset, reads and bus activity of the busy loop |
| Engine.Eve.WaitEventsAreTrace | EVE_commands.c:266-296 | the loop's activity is one `EVE_busy` call per poll |
| Engine.Eve.CmdExecute | EVE_commands.c:381-385 | a start, then the wait |
| Engine.Eve.BeginCmd | EVE_commands.c:389-404 | a transaction opened at `EVE_RAM_CMD + cmdOffset` with the opcode; offset + 4; chip-select left asserted |
| Engine.Eve.CmdMemzero | EVE_commands.c:411-428 | one transaction of the MEMZERO payload at the current FIFO position; the offset moves past it |
| Engine.Eve.CmdMemset | EVE_commands.c:432-454 | the same for MEMSET |
| Engine.Eve.CmdMemcpy | EVE_commands.c:487-509 | the same for MEMCPY |
| Engine.Eve.CmdMemcrc | EVE_commands.c:842-870 | the same for MEMCRC; returns its result slot |
| Engine.Eve.CmdGetptr | EVE_commands.c:874-891 | the same for GETPTR; returns its result slot |
| Engine.Eve.CmdRegread | EVE_commands.c:895-918 | the same for REGREAD; returns its result slot |
| Engine.Eve.CmdGetprops | EVE_commands.c:933-961 | the 16 bytes as written; returns offset + 8 and advances the offset by 12 |
| Engine.Eve.SendZeros4 | EVE_commands.c:1358-1361 | a zero word |
| Engine.Eve.SendByteAsWord | EVE_commands.c:441-444 | a byte argument as a word |
| Engine.Eve.StartCmdBurst | EVE_commands.c:1142-1163 | burst on; one write header for the current FIFO position; chip-select left asserted |
| Engine.Eve.EndCmdBurst | EVE_commands.c:1166-1175 | burst off, chip-select released |
| Engine.Eve.StartCmd | EVE_commands.c:1179-1205 | outside a burst, header and opcode in a new transaction; inside, the opcode only; offset + 4 either way |
| Engine.Eve.FinishCmd | EVE_commands.c:1218-1225 | chip-select released only outside a burst |
| Engine.Eve.CmdDl | EVE_commands.c:1218-1225 | a one-word command, emitted per the burst mode; the offset moves past it |
| Engine.Eve.SendHalves | EVE_commands.c:1505-1515 | four half-word arguments |
| Engine.Eve.WriteString | EVE_commands.c:1229-1266 | the text, then 1-4 zero bytes; the offset moves by the `uint8_t` advance |
| Engine.Eve.SpiFlashWrite | EVE_commands.c:514-537 | the data, then 0-3 zero bytes; the offset moves by the padded length |
| Engine.Eve.WriteChunk | EVE_commands.c:551-557 | one chunk in a write transaction at the current FIFO position |
| Engine.Eve.TransferChunk | EVE_commands.c:549-560 | one loop pass: the chunk, then an execute |
| Engine.Eve.StepsAreTransfer | EVE_commands.c:540-562 | the loop's passes make up `block_transfer` |
| Engine.Eve.BlockTransfer | EVE_commands.c:540-562 | the outcome, offset, reads and bus activity are those of `Transfer` on the chunks of the data |
| Engine.Eve.CmdInflate | EVE_commands.c:566-579 | the INFLATE command as its own transaction, then the block transfer from the offset after it |
| Engine.Eve.SendTextArgs | EVE_commands.c:1505-1519 | the text command's arguments after the opcode |
| Engine.Eve.CmdText | EVE_commands.c:1485-1525 | the CMD_TEXT payload, emitted per the burst mode; the offset lands on the next command for strings up to 251 bytes |
| Engine.Eve.CmdNumber | EVE_commands.c:2268-2315 | the CMD_NUMBER payload, emitted per the burst mode; the offset moves past it |
| Engine.Eve.PollRegister | EVE_commands.c:1031-1041 | the outcome, reads and bus activity of a bounded 8-bit poll |
| Engine.Eve.Retry | EVE_commands.c:1034-1035 | one loop pass: a read, then 1 ms |
| Engine.Eve.PollEnds | EVE_commands.c:1031-1041 | the first read and the passes make up the poll's activity |
| Engine.Eve.CmdFlashfast | EVE_commands.c:1353-1367 | the outcome, the execute's report and bus activity of `FlashFast` |
| Engine.Eve.SendFlashfast | EVE_commands.c:1357-1364 | the command word and a zero result word in one transaction; returns the slot |
| Engine.Eve.FinishFlashfast | EVE_commands.c:1365-1366 | the execute and the read of the result slot; reports whether the execute caught up |
| Engine.Eve.ExecuteThenRead32 | EVE_commands.c:1365-1366 | an execute, then a 32-bit read |
| Engine.Eve.ExecuteThenRead8 | EVE_commands.c:1450-1452 | an execute, then an 8-bit read |
| Engine.Eve.AttachWord | EVE_commands.c:1450 | CMD_FLASHATTACH outside a burst is one word in its own transaction |
| Engine.Eve.AttachFlash | EVE_commands.c:1448-1457 | the attach retry: the command, an execute, the new status; reports whether the execute caught up |
| Engine.Eve.InitFlash | EVE_commands.c:1429-1479 | the outcome, the settled flag and the bus activity of `EVE_init_flash`, branch by branch |
| Engine.Eve.PowerUp | EVE_commands.c:1012-1029 | the power-down pulse, the optional core reset, the clock source, ACTIVE |
| Engine.Eve.PowerPulse | EVE_commands.c:1012-1015 | the power-down pulse and its waits |
| Engine.Eve.FinishPatch | EVE_commands.c:1062-1070 | the writes that finish the touch patch |
| Engine.Eve.TouchSetup | EVE_commands.c:1044-1072 | nothing, the BT81x write or the patch sequence, per the board |
| Engine.Eve.WriteHorizontal | EVE_commands.c:1077-1088 | setup writes 0-5 |
| Engine.Eve.WriteVertical | EVE_commands.c:1089-1093 | setup writes 6-10 |
| Engine.Eve.WriteOptions | EVE_commands.c:1094-1107 | setup writes 11-18 |
| Engine.Eve.WriteTiming | EVE_commands.c:1077-1107 | setup writes 0-18 |
| Engine.Eve.WriteDisplayList | EVE_commands.c:1110-1113 | setup writes 19-22 |
| Engine.Eve.WriteStart | EVE_commands.c:1116-1123 | setup writes 23-25 |
| Engine.Eve.DisplaySetup | EVE_commands.c:1077-1123 | all 26 setup writes in order |
| Engine.Eve.Configure | EVE_commands.c:1043-1127 | what `EVE_init` does after the ID poll; the offset ends at what REG_CMD_WRITE reads; settled iff both waits caught up |
| Engine.Eve.SetupThenSettle | EVE_commands.c:1077-1127 | the display setup, then the end of `EVE_init`; reports whether the wait caught up |
| Engine.Eve.Settle | EVE_commands.c:1125-1127 | 2 ms, the wait, then the offset re-read; reports whether the wait caught up |
| Engine.Eve.Init | EVE_commands.c:1007-1134 | the outcome, the settled flag and the bus activity of `EVE_init` |

## Left out

- The SPI, GPIO and delay primitives (`spi_transmit`, `spi_receive`, `EVE_cs_set/clear`,
  `EVE_pdn_set/clear`, `DELAY_MS`) are not part of this model. They appear only as
  entries appended to the bus trace. `fetch_flash_byte` is the identity.
- DMA (`EVE_DMA`, `EVE_dma_busy`, `EVE_start_dma_transfer`, `EVE_init_dma`) is left out.
  It is asynchronous and owned by the transport.
- Engine.Eve.WaitIdle: the source's `while (EVE_busy());` has no bound. Every wait here
  has a poll budget `fuel` and reports when it ran out. The source's behaviour is the
  case where some budget suffices.
- Engine.Eve.Init and Engine.Eve.InitFlash return a second result, `settled`, which the
  source does not have. Where it is false and `ok` is true, the model has given up on a
  wait that the source would still be in. `BringUp.Init` and `BringUp.InitFlash` carry
  the same flag.
- `EVE_cmd_memwrite` is commented out in the source and is not modelled.
- Widget and matrix encoders other than `EVE_cmd_text` and `EVE_cmd_number` are left out.
  They follow the same opcode-plus-arguments pattern.
- The GT911 patch blob is an opaque 1184-byte sequence in `Chip.Board`. Its contents are
  not modelled.
- The chip header `EVE.h` and the panel tables of `EVE_config.h` are not part of this
  model. They are the opaque records `Chip.ChipDefs` and `Chip.DisplayConfig`.
- Conditional compilation is modelled as the flags of `Chip.Board`. The source has no
  run-time choice there.
- Engine.Eve.InitFlash and Engine.Eve.AttachFlash require `!burst`. The source documents
  `EVE_init_flash` as meant to run outside display-list building. Inside a burst, its
  `EVE_cmd_dl` would only stream the word.
- Engine.Eve.WriteString, Engine.Eve.CmdText and Engine.Eve.SendTextArgs take the text
  without its terminator and of length below 256. The source's `uint8_t` loop counter
  never reaches the terminator of a longer string.
- Engine.Eve.BlockTransfer, Engine.Eve.CmdInflate and Engine.Eve.SpiFlashWrite require the
  data length to fit the source's `uint16_t len`.
- Engine.Eve.MemWriteFlashBuffer requires the buffer to hold the rounded-up length. The
  source reads past a shorter buffer.
- Engine.Eve.TouchSetup: the source ignores the execute result of the GT911 patch, and so
  does the `ok` of `EVE_init`. The model uses it only for `settled`.
- Engine.Eve.Busy and Engine.Eve.TransferChunk state their bus activity through the
  ghost fields `busyEvent` and `chunkStep`. `Valid()` ties these to `BusyTrace` and
  `ChunkStep`. Engine.Eve.WaitEventsAreTrace and Engine.Eve.StepsAreTransfer restate the
  results over the concrete functions.

## Findings

| source | as written | input that shows it | evidently intended | confidence | as-written member | corrected member |
|---|---|---|---|---|---|---|
| EVE_commands.c:1232-1265 | `textindex` is a `uint8_t`, and the padding is added to it before `EVE_inc_cmdoffset(textindex)` | a 252-byte string: 256 bytes are sent, and the offset advances by 0 | advance by text length plus padding | not executed | Fifo.Uint8StringAdvance, Fifo.Uint8StringAdvanceLosesBytes | Fifo.StringLen, Commands.TextAdvance |
| EVE_commands.c:933-958 | sends `CMD_REGREAD` as the opcode; sends 16 bytes but advances the offset by 12 | any `ptr`: the next command is written 4 bytes early, over the height word | send `CMD_GETPROPS`; the width slot at offset + 8; advance past all 16 bytes | not executed | Commands.GetpropsAsSent, Commands.GetpropsAdvanceFallsShort, Engine.Eve.CmdGetprops | Commands.GetpropsCmd, Commands.GetpropsIntendedSlots |

The engine keeps `EVE_cmd_getprops` and `EVE_write_string` as the source has them.
`Engine.Eve.CmdText` states both the as-written offset and, for strings of at most 251
bytes, that the offset lands on the next command.
