/** Coprocessor commands as they sit in the FIFO, and the two ways of framing a run of
    them on the bus: one transaction per command (immediate mode) or one transaction
    for the whole run (burst mode). */
module Commands {
  import opened Bytes
  import opened Wire
  import opened Fifo
  import opened Chip

  /** Opcode word followed by argument bytes. */
  datatype Cmd = Cmd(opcode: u32, args: seq<byte>)

  function Payload(c: Cmd): seq<byte>
  {
    LE32(c.opcode) + c.args
  }

  function Len(c: Cmd): nat
  {
    4 + |c.args|
  }

  /** Argument word `k` as the coprocessor reads it. */
  function Word(c: Cmd, k: nat): u32
    requires 4 * k + 4 <= |c.args|
  {
    FromLE32(c.args[4 * k .. 4 * k + 4])
  }

  /** Argument half-word `k` as the coprocessor reads it. */
  function Half(c: Cmd, k: nat): u16
    requires 2 * k + 2 <= |c.args|
  {
    FromLE16(c.args[2 * k .. 2 * k + 2])
  }

  /** The three words of a 12-byte argument block, where they sit. */
  lemma Words3(a: seq<byte>, b: seq<byte>, c: seq<byte>)
    requires |a| == 4 && |b| == 4 && |c| == 4
    ensures var s := a + b + c; |s| == 12 && s[0..4] == a && s[4..8] == b && s[8..12] == c
  {
    var s := a + b + c;
    assert s[0..4] == a;
    assert s[4..8] == b;
    assert s[8..12] == c;
  }

  /** Four half-words and whatever follows them, where they sit. */
  lemma Halves4(a: seq<byte>, b: seq<byte>, c: seq<byte>, d: seq<byte>, e: seq<byte>)
    requires |a| == 2 && |b| == 2 && |c| == 2 && |d| == 2
    ensures var s := a + b + c + d + e;
      |s| == 8 + |e| && s[0..2] == a && s[2..4] == b && s[4..6] == c && s[6..8] == d && s[8..] == e
  {
    var s := a + b + c + d + e;
    assert s[0..2] == a;
    assert s[2..4] == b;
    assert s[4..6] == c;
    assert s[6..8] == d;
    assert s[8..] == e;
  }

  /** `EVE_cmd_memzero(ptr, num)`. */
  function MemzeroCmd(op: Opcodes, ptr: u32, num: u32): (c: Cmd)
    ensures c.opcode == op.cmdMemzero && |c.args| == 8
    ensures Word(c, 0) == ptr && Word(c, 1) == num
  {
    var c := Cmd(op.cmdMemzero, LE32(ptr) + LE32(num));
    assert c.args[0..4] == LE32(ptr) && c.args[4..8] == LE32(num);
    c
  }

  /** `EVE_cmd_memset(ptr, value, num)`: the byte value is sent as a whole word. */
  function MemsetCmd(op: Opcodes, ptr: u32, value: byte, num: u32): (c: Cmd)
    ensures c.opcode == op.cmdMemset && |c.args| == 12
    ensures Word(c, 0) == ptr && Word(c, 1) == value && Word(c, 2) == num
  {
    var c := Cmd(op.cmdMemset, LE32(ptr) + [value, 0, 0, 0] + LE32(num));
    Words3(LE32(ptr), [value, 0, 0, 0], LE32(num));
    c
  }

  /** `EVE_cmd_inflate(ptr, ...)`: the command word and the destination; the compressed
      data follows as a block transfer of its own. */
  function InflateCmd(op: Opcodes, ptr: u32): (c: Cmd)
    ensures c.opcode == op.cmdInflate && |c.args| == 4 && Word(c, 0) == ptr
  {
    var c := Cmd(op.cmdInflate, LE32(ptr));
    assert c.args[0..4] == LE32(ptr);
    c
  }

  /** `EVE_cmd_memcpy(dest, src, num)`. */
  function MemcpyCmd(op: Opcodes, dest: u32, src: u32, num: u32): (c: Cmd)
    ensures c.opcode == op.cmdMemcpy && |c.args| == 12
    ensures Word(c, 0) == dest && Word(c, 1) == src && Word(c, 2) == num
  {
    var c := Cmd(op.cmdMemcpy, LE32(dest) + LE32(src) + LE32(num));
    Words3(LE32(dest), LE32(src), LE32(num));
    c
  }

  /** `EVE_cmd_text(x0, y0, font, options, text)`: four half-words, then the string with
      its 1 to 4 terminating zero bytes. */
  function TextCmd(op: Opcodes, x0: i16, y0: i16, font: i16, options: u16, text: seq<byte>): (c: Cmd)
    ensures c.opcode == op.cmdText
    ensures |c.args| == 8 + StringLen(|text|) && |c.args| % 4 == 0
  {
    Cmd(op.cmdText, LE16(U16Of(x0)) + LE16(U16Of(y0)) + LE16(U16Of(font)) + LE16(options)
                    + (text + Zeros(StringPadding(|text|))))
  }

  /** The coprocessor finds the four half-words, then the text, then only zero bytes up
      to the next word boundary. */
  lemma TextCmdLayout(op: Opcodes, x0: i16, y0: i16, font: i16, options: u16, text: seq<byte>)
    ensures var c := TextCmd(op, x0, y0, font, options, text);
      && Half(c, 0) == U16Of(x0) && Half(c, 1) == U16Of(y0) && Half(c, 2) == U16Of(font) && Half(c, 3) == options
      && c.args[8 .. 8 + |text|] == text
      && (forall i :: 8 + |text| <= i < |c.args| ==> c.args[i] == 0)
  {
    var c := TextCmd(op, x0, y0, font, options, text);
    Halves4(LE16(U16Of(x0)), LE16(U16Of(y0)), LE16(U16Of(font)), LE16(options), text + Zeros(StringPadding(|text|)));
  }

  /** The offset `EVE_cmd_text` ends at, opcode and half-words included, is the next
      command's position whenever the string's length fits the source's `uint8_t` count. */
  lemma TextAdvance(op: Opcodes, x0: i16, y0: i16, font: i16, options: u16, text: seq<byte>, off: u16)
    requires |text| < 0x100
    ensures |text| <= 251 ==> (off + 12 + Uint8StringAdvance(|text|)) % FifoSize == Next(off, TextCmd(op, x0, y0, font, options, text))
  {
  }

  /** `EVE_cmd_number(x0, y0, font, options, number)`. */
  function NumberCmd(op: Opcodes, x0: i16, y0: i16, font: i16, options: u16, number: i32): (c: Cmd)
    ensures c.opcode == op.cmdNumber && |c.args| == 12
    ensures Half(c, 0) == U16Of(x0) && Half(c, 1) == U16Of(y0) && Half(c, 2) == U16Of(font) && Half(c, 3) == options
    ensures Word(c, 2) == U32Of(number)
  {
    var c := Cmd(op.cmdNumber, LE16(U16Of(x0)) + LE16(U16Of(y0)) + LE16(U16Of(font)) + LE16(options) + LE32(U32Of(number)));
    Halves4(LE16(U16Of(x0)), LE16(U16Of(y0)), LE16(U16Of(font)), LE16(options), LE32(U32Of(number)));
    assert c.args[8..12] == c.args[8..];
    c
  }

  /** `EVE_cmd_memcrc(ptr, num)`: the last word is reserved for the result. */
  function MemcrcCmd(op: Opcodes, ptr: u32, num: u32): (c: Cmd)
    ensures c.opcode == op.cmdMemcrc && |c.args| == 12
    ensures Word(c, 0) == ptr && Word(c, 1) == num && Word(c, 2) == 0
  {
    var c := Cmd(op.cmdMemcrc, LE32(ptr) + LE32(num) + Zeros(4));
    Words3(LE32(ptr), LE32(num), Zeros(4));
    c
  }

  /** `EVE_cmd_getptr()`: a single reserved result word. */
  function GetptrCmd(op: Opcodes): (c: Cmd)
    ensures c.opcode == op.cmdGetptr && |c.args| == 4 && Word(c, 0) == 0
  {
    var c := Cmd(op.cmdGetptr, Zeros(4));
    assert c.args[0..4] == Zeros(4);
    c
  }

  /** `EVE_cmd_regread(ptr)`: the register address, then the reserved result word. */
  function RegreadCmd(op: Opcodes, ptr: u32): (c: Cmd)
    ensures c.opcode == op.cmdRegread && |c.args| == 8
    ensures Word(c, 0) == ptr && Word(c, 1) == 0
  {
    var c := Cmd(op.cmdRegread, LE32(ptr) + Zeros(4));
    assert c.args[0..4] == LE32(ptr) && c.args[4..8] == Zeros(4);
    c
  }

  /** What `EVE_cmd_getprops(ptr)` puts on the bus as written: the REGREAD opcode,
      the pointer and two reserved words, 16 bytes in all. */
  function GetpropsAsSent(op: Opcodes, ptr: u32): (c: Cmd)
    ensures c.opcode == op.cmdRegread && Len(c) == 16
    ensures Word(c, 0) == ptr && Word(c, 1) == 0 && Word(c, 2) == 0
  {
    var c := Cmd(op.cmdRegread, LE32(ptr) + Zeros(4) + Zeros(4));
    Words3(LE32(ptr), Zeros(4), Zeros(4));
    c
  }

  /** The GETPROPS command the function is evidently meant to send: its own opcode, the
      pointer, and the two result words (width, height). */
  function GetpropsCmd(op: Opcodes, ptr: u32): (c: Cmd)
    ensures c.opcode == op.cmdGetprops && Len(c) == 16
    ensures Word(c, 0) == ptr && Word(c, 1) == 0 && Word(c, 2) == 0
  {
    var c := Cmd(op.cmdGetprops, LE32(ptr) + Zeros(4) + Zeros(4));
    Words3(LE32(ptr), Zeros(4), Zeros(4));
    c
  }

  /** Where the coprocessor writes the result of a value-returning command: the offset of
      the command's last word. Reading it back is `EVE_memRead32(EVE_RAM_CMD + slot)`. */
  function ResultSlot(off: u16, c: Cmd): offset
    requires Len(c) >= 8
  {
    (off + Len(c) - 4) % FifoSize
  }

  /** Next offset after a whole command has been emitted. */
  function Next(off: u16, c: Cmd): offset
  {
    (off + Len(c)) % FifoSize
  }

  /** The result slot is the last word before the next command: once the offset has
      advanced past the command, the slot is exactly four bytes behind it. */
  lemma ResultSlotPrecedesNext(off: u16, c: Cmd)
    requires Len(c) >= 8
    ensures (ResultSlot(off, c) + 4) % FifoSize == Next(off, c)
  {
  }

  /** How command bytes emitted at FIFO offset `off` reach the bus: outside a burst as a
      write transaction of their own at `EVE_RAM_CMD + off`, inside a burst as bare data
      in the transaction the burst opened. */
  function Emission(defs: ChipDefs, burst: bool, off: u16, bytes: seq<byte>): seq<Signal>
    requires RamFits(defs)
  {
    if burst then Outs(bytes) else WriteTxn(defs.mem.ramCmd + off, bytes)
  }

  /** The offsets a value-returning command passes through when the opcode and `k`
      argument bytes come before its result word: the result slot, then the next
      command's position. */
  lemma SlotOffsets(off: u16, c: Cmd, k: u16)
    requires Len(c) == 8 + k
    ensures IncOffset(IncOffset(off, 4), k) == ResultSlot(off, c)
    ensures IncOffset(ResultSlot(off, c), 4) == Next(off, c)
  {
    IncTwice(off, 4, k);
    ModShift(off + 4 + k, 4);
  }

  /** The start of a burst-aware command: outside a burst the transaction is opened and
      addressed first. */
  function Opening(defs: ChipDefs, burst: bool, off: u16, first: seq<byte>): seq<Signal>
    requires RamFits(defs)
  {
    if burst then Outs(first) else [Select] + Outs(Header(defs.mem.ramCmd + off, true) + first)
  }

  /** Its end: outside a burst the transaction is closed. */
  function Closing(burst: bool): seq<Signal>
  {
    if burst then [] else [Deselect]
  }

  /** Opening, the remaining bytes, closing: the emission of all the bytes. */
  lemma EmissionInParts(w: seq<Signal>, defs: ChipDefs, burst: bool, off: u16, first: seq<byte>, rest: seq<byte>)
    requires RamFits(defs)
    ensures w + Opening(defs, burst, off, first) + Outs(rest) + Closing(burst)
         == w + Emission(defs, burst, off, first + rest)
  {
    if burst {
      OutsAppend(first, rest);
    } else {
      WriteInParts(w, defs.mem.ramCmd + off, first, rest);
    }
  }

  /** All payload bytes of a run of commands, in order: what burst mode streams. */
  function Stream(cmds: seq<Cmd>): seq<byte>
    decreases |cmds|
  {
    if cmds == [] then [] else Payload(cmds[0]) + Stream(cmds[1..])
  }

  /** Offset after a run of commands. */
  function After(off: u16, cmds: seq<Cmd>): u16
    decreases |cmds|
  {
    if cmds == [] then off else After(Next(off, cmds[0]), cmds[1..])
  }

  /** A write transaction: the address its three header bytes carry, and its data. */
  datatype Frame = Frame(addr: nat, data: seq<byte>)

  /** Immediate mode: each command is its own transaction addressed at
      `EVE_RAM_CMD + cmdOffset` as it stands when the command begins. */
  function ImmediateFrames(base: nat, off: offset, cmds: seq<Cmd>): seq<Frame>
    decreases |cmds|
  {
    if cmds == [] then []
    else [Frame(base + off, Payload(cmds[0]))] + ImmediateFrames(base, Next(off, cmds[0]), cmds[1..])
  }

  /** The data of a run of frames, without their address bytes. */
  function Bodies(frames: seq<Frame>): seq<byte>
    decreases |frames|
  {
    if frames == [] then [] else frames[0].data + Bodies(frames[1..])
  }

  /** Offsets move by whole commands whichever way they are framed. */
  lemma {:induction false} AfterIsStreamLength(off: offset, cmds: seq<Cmd>)
    ensures After(off, cmds) == (off + |Stream(cmds)|) % FifoSize
    decreases |cmds|
  {
    if cmds != [] {
      AfterIsStreamLength(Next(off, cmds[0]), cmds[1..]);
      assert |Stream(cmds)| == Len(cmds[0]) + |Stream(cmds[1..])|;
    }
  }

  /** FIFO bytes taken by the first `i` commands of a run. */
  function Before(cmds: seq<Cmd>, i: nat): nat
    requires i <= |cmds|
    decreases i
  {
    if i == 0 then 0 else Len(cmds[0]) + Before(cmds[1..], i - 1)
  }

  /** Those bytes are exactly the burst stream's first `i` payloads. */
  lemma {:induction false} BeforeIsStreamPrefix(cmds: seq<Cmd>, i: nat)
    requires i <= |cmds|
    ensures Before(cmds, i) == |Stream(cmds[..i])|
    decreases i
  {
    if i > 0 {
      BeforeIsStreamPrefix(cmds[1..], i - 1);
      assert cmds[..i][0] == cmds[0] && cmds[..i][1..] == cmds[1..][..i - 1];
    } else {
      assert cmds[..0] == [];
    }
  }

  /** In immediate mode, command i is addressed at the FIFO position that the burst
      stream has reached when it gets to command i: both disciplines put every byte at
      the same command-RAM offset. */
  lemma {:induction false} ImmediateAddresses(base: nat, off: offset, cmds: seq<Cmd>, i: nat)
    requires i < |cmds|
    ensures |ImmediateFrames(base, off, cmds)| == |cmds|
    ensures ImmediateFrames(base, off, cmds)[i] == Frame(base + (off + Before(cmds, i)) % FifoSize, Payload(cmds[i]))
    decreases i
  {
    var n := Next(off, cmds[0]);
    var rest := ImmediateFrames(base, n, cmds[1..]);
    assert ImmediateFrames(base, off, cmds) == [Frame(base + off, Payload(cmds[0]))] + rest;
    FramesLength(base, n, cmds[1..]);
    if i > 0 {
      assert ImmediateFrames(base, off, cmds)[i] == rest[i - 1];
      ImmediateAddresses(base, n, cmds[1..], i - 1);
      assert Before(cmds, i) == Len(cmds[0]) + Before(cmds[1..], i - 1);
      ModShift(off + Len(cmds[0]), Before(cmds[1..], i - 1));
    }
  }

  lemma {:induction false} FramesLength(base: nat, off: offset, cmds: seq<Cmd>)
    ensures |ImmediateFrames(base, off, cmds)| == |cmds|
    decreases |cmds|
  {
    if cmds != [] {
      FramesLength(base, Next(off, cmds[0]), cmds[1..]);
    }
  }

  /** The immediate frames' data, run together, is the burst stream. */
  lemma {:induction false} BodiesAreStream(base: nat, off: offset, cmds: seq<Cmd>)
    ensures Bodies(ImmediateFrames(base, off, cmds)) == Stream(cmds)
    decreases |cmds|
  {
    if cmds != [] {
      var f := ImmediateFrames(base, off, cmds);
      BodiesAreStream(base, Next(off, cmds[0]), cmds[1..]);
      assert f[1..] == ImmediateFrames(base, Next(off, cmds[0]), cmds[1..]);
    }
  }

  /** The bus activity of a run of burst-aware commands emitted one after the other from
      FIFO offset `off`: each command's `Emission` at the offset the previous ones left. */
  function Emissions(defs: ChipDefs, burst: bool, off: u16, cmds: seq<Cmd>): seq<Signal>
    requires RamFits(defs)
    decreases |cmds|
  {
    if cmds == [] then []
    else Emission(defs, burst, off, Payload(cmds[0])) + Emissions(defs, burst, Next(off, cmds[0]), cmds[1..])
  }

  /** One more command extends the run: its emission is appended at the offset the run
      ended at, and the offset moves past it. This is how the effects of successive
      calls of `CmdDl`, `CmdText` and `CmdNumber` add up. */
  lemma {:induction false} EmissionsSnoc(defs: ChipDefs, burst: bool, off: u16, cmds: seq<Cmd>, c: Cmd)
    requires RamFits(defs)
    ensures Emissions(defs, burst, off, cmds + [c])
         == Emissions(defs, burst, off, cmds) + Emission(defs, burst, After(off, cmds), Payload(c))
    ensures After(off, cmds + [c]) == Next(After(off, cmds), c)
    decreases |cmds|
  {
    if cmds == [] {
      assert cmds + [c] == [c] && [c][1..] == [];
    } else {
      var n := Next(off, cmds[0]);
      assert (cmds + [c])[0] == cmds[0] && (cmds + [c])[1..] == cmds[1..] + [c];
      EmissionsSnoc(defs, burst, n, cmds[1..], c);
      AppendAssoc(Emission(defs, burst, off, Payload(cmds[0])), Emissions(defs, burst, n, cmds[1..]),
                  Emission(defs, burst, After(n, cmds[1..]), Payload(c)));
    }
  }

  /** Inside a burst the run puts exactly the stream's bytes on the bus. */
  lemma {:induction false} BurstEmissionsAreStream(defs: ChipDefs, off: u16, cmds: seq<Cmd>)
    requires RamFits(defs)
    ensures Emissions(defs, true, off, cmds) == Outs(Stream(cmds))
    decreases |cmds|
  {
    if cmds != [] {
      BurstEmissionsAreStream(defs, Next(off, cmds[0]), cmds[1..]);
      OutsAppend(Payload(cmds[0]), Stream(cmds[1..]));
    }
  }

  /** A burst session, from the select and address header of `EVE_start_cmd_burst` to the
      deselect of `EVE_end_cmd_burst`, is one write transaction of the whole stream at
      the FIFO position where it started. */
  lemma BurstSessionIsOneTxn(defs: ChipDefs, off: u16, cmds: seq<Cmd>)
    requires RamFits(defs)
    ensures [Select] + Outs(Header(defs.mem.ramCmd + off, true)) + Emissions(defs, true, off, cmds) + [Deselect]
         == WriteTxn(defs.mem.ramCmd + off, Stream(cmds))
  {
    BurstEmissionsAreStream(defs, off, cmds);
    OutsAppend(Header(defs.mem.ramCmd + off, true), Stream(cmds));
  }

  /** Frames whose addresses fit the 32-bit address the driver passes around. */
  predicate Addressable(frames: seq<Frame>)
  {
    forall i :: 0 <= i < |frames| ==> frames[i].addr < 0x1_0000_0000
  }

  /** The write transactions of a run of frames, one after the other. */
  function FrameTxns(frames: seq<Frame>): seq<Signal>
    requires Addressable(frames)
    decreases |frames|
  {
    if frames == [] then [] else WriteTxn(frames[0].addr, frames[0].data) + FrameTxns(frames[1..])
  }

  /** Outside a burst the run is the immediate frames, each sent as a write transaction
      of its own. */
  lemma {:induction false} ImmediateEmissionsAreFrames(defs: ChipDefs, off: offset, cmds: seq<Cmd>)
    requires RamFits(defs)
    ensures Addressable(ImmediateFrames(defs.mem.ramCmd, off, cmds))
    ensures Emissions(defs, false, off, cmds) == FrameTxns(ImmediateFrames(defs.mem.ramCmd, off, cmds))
    decreases |cmds|
  {
    if cmds != [] {
      var n := Next(off, cmds[0]);
      var f := ImmediateFrames(defs.mem.ramCmd, off, cmds);
      ImmediateEmissionsAreFrames(defs, n, cmds[1..]);
      assert f[1..] == ImmediateFrames(defs.mem.ramCmd, n, cmds[1..]);
      assert forall i :: 1 <= i < |f| ==> f[i] == f[1..][i - 1];
    }
  }

  /** The burst session is the first immediate transaction with the data of all the
      others appended, their address triples (and their selects and deselects) dropped;
      both leave the offset where the stream ends. */
  lemma BurstIsImmediateWithoutHeaders(defs: ChipDefs, off: offset, cmds: seq<Cmd>)
    requires RamFits(defs) && cmds != []
    ensures var f := ImmediateFrames(defs.mem.ramCmd, off, cmds);
      && Addressable(f)
      && Emissions(defs, false, off, cmds) == FrameTxns(f)
      && [Select] + Outs(Header(defs.mem.ramCmd + off, true)) + Emissions(defs, true, off, cmds) + [Deselect]
         == WriteTxn(f[0].addr, f[0].data + Bodies(f[1..]))
    ensures After(off, cmds) == (off + |Stream(cmds)|) % FifoSize
  {
    var base := defs.mem.ramCmd;
    var f := ImmediateFrames(base, off, cmds);
    ImmediateEmissionsAreFrames(defs, off, cmds);
    BurstSessionIsOneTxn(defs, off, cmds);
    BodiesAreStream(base, Next(off, cmds[0]), cmds[1..]);
    assert f[1..] == ImmediateFrames(base, Next(off, cmds[0]), cmds[1..]);
    AfterIsStreamLength(off, cmds);
  }

  /** `EVE_cmd_getprops` as written advances the offset by 12 (4 for the opcode, then
      4 + 4) while it sends 16 bytes: the host's offset falls four bytes behind the chip's
      FIFO contents. */
  lemma GetpropsAdvanceFallsShort(op: Opcodes, ptr: u32, off: offset)
    ensures Len(GetpropsAsSent(op, ptr)) - 12 == 4
    ensures IncOffset(IncOffset(IncOffset(off, 4), 4), 4) != Next(off, GetpropsAsSent(op, ptr))
  {
  }

  /** The GETPROPS command as meant: the width word sits eight bytes in, the height word
      four bytes after it in the last slot, and an offset moved past the width word by 8
      lands where the next command begins. */
  lemma GetpropsIntendedSlots(op: Opcodes, ptr: u32, off: u16)
    ensures var c, width := GetpropsCmd(op, ptr), IncOffset(IncOffset(off, 4), 4);
      && width == (off + 8) % FifoSize
      && IncOffset(width, 4) == ResultSlot(off, c)
      && IncOffset(width, 8) == Next(off, c)
  {
    var width := IncOffset(IncOffset(off, 4), 4);
    IncTwice(off, 4, 4);
    ModShift(off + 8, 4);
    ModShift(off + 8, 8);
  }
}
