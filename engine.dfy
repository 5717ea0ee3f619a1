/** The host-side protocol engine of `EVE_commands.c` as a class: the mirror of the
    chip's command-FIFO write offset, the burst flag and the chip-select line, updated in
    place by every operation, with the bus trace all operations have produced so far.
    The chip is the sequence `miso` of bytes it answers with, one per receive. */
module Engine {
  import opened Bytes
  import opened Wire
  import opened Fifo
  import opened Chip
  import opened Commands
  import opened Execute
  import opened BringUp

  /** `EVE_get_touch_tag`: the register holding the tag of touch point `num`; any number
      outside 1..5 reads the first touch point. */
  function TouchTagRegister(m: MemoryMap, num: byte): u32
  {
    match num
    case 2 => m.regTouchTag1
    case 3 => m.regTouchTag2
    case 4 => m.regTouchTag3
    case 5 => m.regTouchTag4
    case _ => m.regTouchTag
  }

  /** The five touch points read five different registers, and every other number
      falls back to the first touch point's register. */
  lemma TouchTagSelection(d: ChipDefs, i: byte, j: byte)
    requires ValidDefs(d)
    ensures (1 <= i <= 5 && 1 <= j <= 5) ==>
      (TouchTagRegister(d.mem, i) == TouchTagRegister(d.mem, j) <==> i == j)
    ensures !(1 <= i <= 5) ==> TouchTagRegister(d.mem, i) == d.mem.regTouchTag
  {
    var r := Registers(d.mem);
    assert r[4] == d.mem.regTouchTag && r[5] == d.mem.regTouchTag1 && r[6] == d.mem.regTouchTag2;
    assert r[7] == d.mem.regTouchTag3 && r[8] == d.mem.regTouchTag4;
    assert forall a: byte :: 1 <= a <= 5 ==> TouchTagRegister(d.mem, a) == r[a + 3];
  }

  class Eve {
    /** The chip header's addresses and opcodes. */
    const defs: ChipDefs
    /** The bytes the chip answers with, in order. */
    const miso: nat -> byte
    /** Number of bytes received so far: the next receive gets `miso(received)`. */
    var received: nat
    /** `cmdOffset`: the host's copy of the coprocessor FIFO write offset. */
    var cmdOffset: u16
    /** `cmd_burst != 0`. */
    var burst: bool
    /** Chip-select asserted. */
    var cs: bool
    /** Everything put on the bus so far. */
    ghost var wire: seq<Signal>
    /** The bus activity of one `EVE_busy` call, by the receive index its read starts at;
        the wait loop is specified over it so that its proof never unfolds the framing. */
    ghost const busyEvent: nat -> seq<Signal>
    /** One pass of the `block_transfer` loop, by offset, receive index, chunk and fuel;
        likewise kept abstract so that the loop's proof never unfolds a pass. */
    ghost const chunkStep: (u16, nat, seq<byte>, nat) -> Step

    /** The chip header fits the address space, `busyEvent` is `BusyTrace` and
        `chunkStep` is `ChunkStep`. */
    ghost predicate Valid()
    {
      && RamFits(defs)
      && (forall rx {:trigger ReadTxn(defs.mem.regCmdRead, Got16(miso, rx))} ::
           busyEvent(rx) == BusyTrace(defs, Got16(miso, rx)))
      && (forall o, r, c, fl {:trigger ChunkStep(defs, miso, o, r, c, fl)} ::
           chunkStep(o, r, c, fl) == ChunkStep(defs, miso, o, r, c, fl))
    }

    constructor (defs: ChipDefs, miso: nat -> byte)
      requires ValidDefs(defs)
      ensures Valid() && this.defs == defs && this.miso == miso
      ensures busyEvent == BusyEvent(defs, miso) && chunkStep == ChunkSteps(defs, miso)
      ensures received == 0 && cmdOffset == 0 && !burst && !cs && wire == []
    {
      this.defs := defs;
      this.miso := miso;
      received := 0;
      cmdOffset := 0;
      burst := false;
      cs := false;
      wire := [];
      busyEvent := BusyEvent(defs, miso);
      chunkStep := ChunkSteps(defs, miso);
    }

    // The transport: chip-select, single-byte transfers, the power-down line, delays.

    method CsSet()
      modifies this`cs, this`wire
      ensures cs && wire == old(wire) + [Select]
    {
      cs := true;
      wire := wire + [Select];
    }

    method CsClear()
      modifies this`cs, this`wire
      ensures !cs && wire == old(wire) + [Deselect]
    {
      cs := false;
      wire := wire + [Deselect];
    }

    method Transmit(b: byte)
      modifies this`wire
      ensures wire == old(wire) + [Out(b)]
    {
      wire := wire + [Out(b)];
    }

    method Receive() returns (b: byte)
      modifies this`received, this`wire
      ensures b == miso(old(received)) && received == old(received) + 1
      ensures wire == old(wire) + [Recv(b)]
    {
      b := miso(received);
      received := received + 1;
      wire := wire + [Recv(b)];
    }

    method SetPowerDown(asserted: bool)
      modifies this`wire
      ensures wire == old(wire) + [PowerDown(asserted)]
    {
      wire := wire + [PowerDown(asserted)];
    }

    method DelayMs(ms: nat)
      modifies this`wire
      ensures wire == old(wire) + [Delay(ms)]
    {
      wire := wire + [Delay(ms)];
    }

    /** The three address bytes, most significant first, with the direction flag. */
    method SendHeader(a: u32, write: bool)
      modifies this`wire
      ensures wire == old(wire) + Outs(Header(a, write))
    {
      var top: byte := (a / 0x1_0000) % 0x100;
      Transmit(if write then WithWriteBit(top) else top + MemRead);
      Transmit((a / 0x100) % 0x100);
      Transmit(a % 0x100);
      assert Outs(Header(a, write)) == [Out(Header(a, write)[0]), Out(Header(a, write)[1]), Out(Header(a, write)[2])];
    }

    method SendLE16(v: u16)
      modifies this`wire
      ensures wire == old(wire) + Outs(LE16(v))
    {
      Transmit(v % 0x100);
      Transmit(v / 0x100);
      assert Outs(LE16(v)) == [Out(LE16(v)[0]), Out(LE16(v)[1])];
    }

    method SendLE32(v: u32)
      modifies this`wire
      ensures wire == old(wire) + Outs(LE32(v))
    {
      DivChain(v);
      Transmit(v % 0x100);
      Transmit((v / 0x100) % 0x100);
      Transmit((v / 0x1_0000) % 0x100);
      Transmit(v / 0x100_0000);
      assert Outs(LE32(v)) == [Out(LE32(v)[0]), Out(LE32(v)[1]), Out(LE32(v)[2]), Out(LE32(v)[3])];
    }

    // Register transactions: `EVE_cmdWrite`, `EVE_memRead8/16/32`, `EVE_memWrite8/16/32`.

    /** `EVE_cmdWrite`: a host command, then two zero bytes. */
    method CmdWrite(command: byte)
      modifies this`cs, this`wire
      ensures !cs && wire == old(wire) + HostCmdTxn(command)
    {
      CsSet();
      Transmit(command);
      Transmit(0x00);
      Transmit(0x00);
      CsClear();
      assert Outs([command, 0, 0]) == [Out(command), Out(0), Out(0)];
    }

    method MemRead8(a: u32) returns (v: byte)
      modifies this`cs, this`wire, this`received
      ensures v == miso(old(received)) && received == old(received) + 1
      ensures !cs && wire == old(wire) + ReadTxn(a, [v])
    {
      CsSet();
      SendHeader(a, false);
      Transmit(0x00);
      v := Receive();
      CsClear();
      OutsAppend(Header(a, false), [0]);
      assert Recvs([v]) == [Recv(v)];
    }

    method MemRead16(a: u32) returns (v: u16)
      modifies this`cs, this`wire, this`received
      ensures v == Value16(miso, old(received)) && received == old(received) + 2
      ensures !cs && wire == old(wire) + ReadTxn(a, Got16(miso, old(received)))
    {
      CsSet();
      SendHeader(a, false);
      Transmit(0x00);
      OutsAppend(Header(a, false), [0]);
      var got := Receive16();
      v := FromLE16(got);
      CsClear();
    }

    method MemRead32(a: u32) returns (v: u32)
      modifies this`cs, this`wire, this`received
      ensures v == FromLE32(Got32(miso, old(received))) && received == old(received) + 4
      ensures !cs && wire == old(wire) + ReadTxn(a, Got32(miso, old(received)))
    {
      CsSet();
      SendHeader(a, false);
      Transmit(0x00);
      OutsAppend(Header(a, false), [0]);
      var got := Receive32();
      v := FromLE32(got);
      CsClear();
    }

    /** The two `spi_receive` calls of a 16-bit read, low byte first. */
    method Receive16() returns (got: seq<byte>)
      modifies this`received, this`wire
      ensures got == Got16(miso, old(received)) && received == old(received) + 2
      ensures wire == old(wire) + Recvs(got)
    {
      var lo := Receive();
      var hi := Receive();
      got := [lo, hi];
      assert Recvs(got) == [Recv(lo), Recv(hi)];
    }

    /** The four `spi_receive` calls of a 32-bit read, low byte first. */
    method Receive32() returns (got: seq<byte>)
      modifies this`received, this`wire
      ensures got == Got32(miso, old(received)) && received == old(received) + 4
      ensures wire == old(wire) + Recvs(got)
    {
      var b0 := Receive();
      var b1 := Receive();
      var b2 := Receive();
      var b3 := Receive();
      got := [b0, b1, b2, b3];
      assert Recvs(got) == [Recv(b0), Recv(b1), Recv(b2), Recv(b3)];
    }

    method MemWrite8(a: u32, v: byte)
      modifies this`cs, this`wire
      ensures !cs && wire == old(wire) + WriteTxn(a, [v])
    {
      CsSet();
      SendHeader(a, true);
      Transmit(v);
      CsClear();
      OutsAppend(Header(a, true), [v]);
    }

    method MemWrite16(a: u32, v: u16)
      modifies this`cs, this`wire
      ensures !cs && wire == old(wire) + WriteTxn(a, LE16(v))
    {
      CsSet();
      SendHeader(a, true);
      SendLE16(v);
      CsClear();
      OutsAppend(Header(a, true), LE16(v));
    }

    method MemWrite32(a: u32, v: u32)
      modifies this`cs, this`wire
      ensures !cs && wire == old(wire) + WriteTxn(a, LE32(v))
    {
      CsSet();
      SendHeader(a, true);
      SendLE32(v);
      CsClear();
      OutsAppend(Header(a, true), LE32(v));
    }

    /** `EVE_memWrite_flash_buffer`: the length is rounded up to a multiple of four in 16
        bits and that many bytes of the buffer are sent, which must therefore hold them. */
    method MemWriteFlashBuffer(a: u32, data: seq<byte>, len: u16)
      requires |data| >= FlashBufferLen(len)
      modifies this`cs, this`wire
      ensures !cs && wire == old(wire) + WriteTxn(a, data[..FlashBufferLen(len)])
    {
      CsSet();
      SendHeader(a, true);
      ghost var start := wire;
      var n: u16 := ((len + 3) / 4 * 4) % 0x1_0000;
      var count: u16 := 0;
      while count < n
        invariant count <= n && wire == start + Outs(data[..count])
      {
        Transmit(data[count]);
        assert data[..count + 1] == data[..count] + [data[count]];
        OutsAppend(data[..count], [data[count]]);
        count := count + 1;
      }
      CsClear();
      OutsAppend(Header(a, true), data[..n]);
    }

    /** `EVE_get_touch_tag`: a 32-bit read of the tag register of touch point `num`. */
    method GetTouchTag(num: byte) returns (v: u32)
      modifies this`cs, this`wire, this`received
      ensures v == FromLE32(Got32(miso, old(received))) && received == old(received) + 4
      ensures !cs && wire == old(wire) + ReadTxn(TouchTagRegister(defs.mem, num), Got32(miso, old(received)))
    {
      v := MemRead32(TouchTagRegister(defs.mem, num));
    }

    // The offset tracker: `EVE_get_cmdoffset`, `EVE_report_cmdoffset`, `EVE_inc_cmdoffset`.

    /** `EVE_get_cmdoffset`: the offset is re-read from REG_CMD_WRITE and kept as read. */
    method GetCmdOffset()
      modifies this`cs, this`wire, this`received, this`cmdOffset
      ensures cmdOffset == Value16(miso, old(received)) && received == old(received) + 2
      ensures !cs && wire == old(wire) + ReadTxn(defs.mem.regCmdWrite, Got16(miso, old(received)))
    {
      cmdOffset := MemRead16(defs.mem.regCmdWrite);
    }

    method ReportCmdOffset() returns (r: u16)
      ensures r == cmdOffset
    {
      r := cmdOffset;
    }

    /** `EVE_inc_cmdoffset`: add in 16 bits, keep the low 12 bits. */
    method IncCmdOffset(increment: u16)
      modifies this`cmdOffset
      ensures cmdOffset == IncOffset(old(cmdOffset), increment)
    {
      cmdOffset := ((cmdOffset + increment) % 0x1_0000) % 0x1000;
    }

    // Starting the coprocessor and waiting for it: `EVE_busy`, `EVE_cmd_start`, `EVE_cmd_execute`.

    /** `EVE_busy`: read REG_CMD_READ; on the fault value 0xFFF reset the coprocessor and
        both FIFO pointers and restart from offset 0; busy while the read pointer differs
        from the host's offset. */
    method Busy() returns (busy: bool)
      requires Valid()
      modifies this`cs, this`wire, this`received, this`cmdOffset
      ensures var v := Value16(miso, old(received));
        && received == old(received) + 2
        && cmdOffset == AfterBusy(old(cmdOffset), v)
        && busy == (cmdOffset != v)
      ensures !cs && wire == old(wire) + busyEvent(old(received))
    {
      ghost var got := Got16(miso, received);
      var cmdBufferRead := MemRead16(defs.mem.regCmdRead);
      ghost var read := wire;
      assert busyEvent(old(received)) == BusyTrace(defs, got);
      if cmdBufferRead == 0xFFF {
        Recover();
        AppendAssoc(old(wire), ReadTxn(defs.mem.regCmdRead, got), RecoveryTrace(defs));
      } else {
        assert read + [] == read;
      }
      busy := cmdOffset != cmdBufferRead;
    }

    /** The fault branch of `EVE_busy`. */
    method Recover()
      modifies this`cs, this`wire, this`cmdOffset
      ensures cmdOffset == 0 && !cs && wire == old(wire) + RecoveryTrace(defs)
    {
      MemWrite8(defs.mem.regCpuReset, 1);
      MemWrite16(defs.mem.regCmdRead, 0);
      MemWrite16(defs.mem.regCmdWrite, 0);
      cmdOffset := 0;
      MemWrite8(defs.mem.regCpuReset, 0);
    }

    /** `EVE_cmd_start`: publish the host's offset in REG_CMD_WRITE. */
    method CmdStart()
      modifies this`cs, this`wire
      ensures !cs && wire == old(wire) + StartTxn(defs, cmdOffset)
    {
      var ftAddress := defs.mem.regCmdWrite;
      CsSet();
      SendHeader(ftAddress, true);
      SendLE16(cmdOffset);
      CsClear();
      OutsAppend(Header(ftAddress, true), LE16(cmdOffset));
    }

    /** `while (EVE_busy());` with at most `fuel` polls; false when they ran out. */
    method WaitIdle(fuel: nat) returns (ok: bool)
      requires Valid()
      modifies this`cs, this`wire, this`received, this`cmdOffset
      ensures var w := Wait(miso, old(cmdOffset), old(received), fuel);
        ok == w.ok && cmdOffset == w.off && received == old(received) + 2 * w.polls
      ensures cs == (old(cs) && fuel == 0)
      ensures wire == old(wire) + WaitEvents(busyEvent, miso, old(cmdOffset), old(received), fuel)
    {
      ghost var off0, rx0, wire0 := cmdOffset, received, wire;
      var tries := 0;
      ok := false;
      while tries < fuel
        invariant tries <= fuel && received == rx0 + 2 * tries
        invariant cs == (old(cs) && tries == 0)
        invariant cmdOffset == OffsetAfter(miso, off0, rx0, tries) && StillBusy(miso, off0, rx0, tries)
        invariant wire == wire0 + EventsFrom(busyEvent, rx0, tries)
      {
        ForwardStep(busyEvent, miso, off0, rx0, tries);
        ghost var before := wire;
        var busy := Busy();
        AppendAssoc(wire0, EventsFrom(busyEvent, rx0, tries), busyEvent(rx0 + 2 * tries));
        if !busy {
          WaitCaughtUp(miso, off0, rx0, fuel, tries);
          WaitEventsCaughtUp(busyEvent, miso, off0, rx0, fuel, tries);
          ok := true;
          return;
        }
        tries := tries + 1;
      }
      WaitTimesOut(miso, off0, rx0, fuel);
      WaitEventsTimeOut(busyEvent, miso, off0, rx0, fuel);
    }

    /** The wait loop's activity, specified over `busyEvent`, is `WaitTrace`. */
    lemma WaitEventsAreTrace(off: u16, rx: nat, fuel: nat)
      requires Valid()
      ensures WaitEvents(busyEvent, miso, off, rx, fuel) == WaitTrace(defs, miso, off, rx, fuel)
    {
      forall r: nat
        ensures busyEvent(r) == BusyEvent(defs, miso)(r)
      {
        assert BusyTrace(defs, Got16(miso, r)) == ReadTxn(defs.mem.regCmdRead, Got16(miso, r))
          + (if FromLE16(Got16(miso, r)) == Sentinel then RecoveryTrace(defs) else []);
      }
      WaitEventsAgree(busyEvent, BusyEvent(defs, miso), miso, off, rx, fuel);
    }

    /** `EVE_cmd_execute`: start, then wait for the coprocessor. */
    method CmdExecute(fuel: nat) returns (ok: bool)
      requires Valid()
      modifies this`cs, this`wire, this`received, this`cmdOffset
      ensures var w := Wait(miso, old(cmdOffset), old(received), fuel);
        ok == w.ok && cmdOffset == w.off && received == old(received) + 2 * w.polls
      ensures !cs
      ensures wire == old(wire) + StartTxn(defs, old(cmdOffset)) + WaitTrace(defs, miso, old(cmdOffset), old(received), fuel)
    {
      ghost var off0, rx0 := cmdOffset, received;
      CmdStart();
      ok := WaitIdle(fuel);
      WaitEventsAreTrace(off0, rx0, fuel);
    }

    // Command emission outside bursts: `EVE_begin_cmd` and the commands built on it.

    /** `EVE_begin_cmd`: open a write transaction at the FIFO's current position and send
        the opcode; chip-select stays asserted for the arguments. */
    method BeginCmd(command: u32)
      requires RamFits(defs)
      modifies this`cs, this`wire, this`cmdOffset
      ensures cs && cmdOffset == IncOffset(old(cmdOffset), 4)
      ensures wire == old(wire) + [Select] + Outs(Header(defs.mem.ramCmd + old(cmdOffset), true) + LE32(command))
    {
      var ftAddress := defs.mem.ramCmd + cmdOffset;
      CsSet();
      SendHeader(ftAddress, true);
      SendLE32(command);
      IncCmdOffset(4);
      OutsAppend(Header(ftAddress, true), LE32(command));
    }

    /** `EVE_cmd_memzero`: the command as its own transaction; the offset moves past it. */
    method CmdMemzero(ptr: u32, num: u32)
      requires RamFits(defs)
      modifies this`cs, this`wire, this`cmdOffset
      ensures var c := MemzeroCmd(defs.op, ptr, num);
        !cs && cmdOffset == Next(old(cmdOffset), c) && wire == old(wire) + WriteTxn(defs.mem.ramCmd + old(cmdOffset), Payload(c))
    {
      ghost var w0, a := wire, defs.mem.ramCmd + cmdOffset;
      IncTwice(cmdOffset, 4, 8);
      BeginCmd(defs.op.cmdMemzero);
      ghost var pre := wire;
      SendLE32(ptr);
      ghost var args := LE32(ptr);
      SendLE32(num);
      OutsGrow(pre, args, LE32(num));
      args := args + LE32(num);
      IncCmdOffset(8);
      CsClear();
      WriteInParts(w0, a, LE32(defs.op.cmdMemzero), args);
    }

    /** Four zero bytes: a reserved result word. */
    method SendZeros4()
      modifies this`wire
      ensures wire == old(wire) + Outs(Zeros(4))
    {
      Transmit(0);
      Transmit(0);
      Transmit(0);
      Transmit(0);
      assert Outs(Zeros(4)) == [Out(0), Out(0), Out(0), Out(0)];
    }

    /** A byte argument in a word of its own: the byte, then three zeros. */
    method SendByteAsWord(value: byte)
      modifies this`wire
      ensures wire == old(wire) + Outs([value, 0, 0, 0])
    {
      Transmit(value);
      Transmit(0);
      Transmit(0);
      Transmit(0);
      assert Outs([value, 0, 0, 0]) == [Out(value), Out(0), Out(0), Out(0)];
    }

    /** `EVE_cmd_memset`: the byte value goes out as a whole word. */
    method CmdMemset(ptr: u32, value: byte, num: u32)
      requires RamFits(defs)
      modifies this`cs, this`wire, this`cmdOffset
      ensures var c := MemsetCmd(defs.op, ptr, value, num);
        !cs && cmdOffset == Next(old(cmdOffset), c) && wire == old(wire) + WriteTxn(defs.mem.ramCmd + old(cmdOffset), Payload(c))
    {
      ghost var w0, a := wire, defs.mem.ramCmd + cmdOffset;
      IncTwice(cmdOffset, 4, 12);
      BeginCmd(defs.op.cmdMemset);
      ghost var pre := wire;
      SendLE32(ptr);
      ghost var args := LE32(ptr);
      SendByteAsWord(value);
      OutsGrow(pre, args, [value, 0, 0, 0]);
      args := args + [value, 0, 0, 0];
      SendLE32(num);
      OutsGrow(pre, args, LE32(num));
      args := args + LE32(num);
      IncCmdOffset(12);
      CsClear();
      WriteInParts(w0, a, LE32(defs.op.cmdMemset), args);
    }

    /** `EVE_cmd_memcpy`. */
    method CmdMemcpy(dest: u32, src: u32, num: u32)
      requires RamFits(defs)
      modifies this`cs, this`wire, this`cmdOffset
      ensures var c := MemcpyCmd(defs.op, dest, src, num);
        !cs && cmdOffset == Next(old(cmdOffset), c) && wire == old(wire) + WriteTxn(defs.mem.ramCmd + old(cmdOffset), Payload(c))
    {
      ghost var w0, a := wire, defs.mem.ramCmd + cmdOffset;
      IncTwice(cmdOffset, 4, 12);
      BeginCmd(defs.op.cmdMemcpy);
      ghost var pre := wire;
      SendLE32(dest);
      ghost var args := LE32(dest);
      SendLE32(src);
      OutsGrow(pre, args, LE32(src));
      args := args + LE32(src);
      SendLE32(num);
      OutsGrow(pre, args, LE32(num));
      args := args + LE32(num);
      IncCmdOffset(12);
      CsClear();
      WriteInParts(w0, a, LE32(defs.op.cmdMemcpy), args);
    }

    // Commands whose result the coprocessor writes back into the FIFO: each returns the
    // offset of its reserved result word.

    /** `EVE_cmd_memcrc`. */
    method CmdMemcrc(ptr: u32, num: u32) returns (slot: u16)
      requires RamFits(defs)
      modifies this`cs, this`wire, this`cmdOffset
      ensures var c := MemcrcCmd(defs.op, ptr, num);
        && slot == ResultSlot(old(cmdOffset), c) && cmdOffset == Next(old(cmdOffset), c)
        && !cs && wire == old(wire) + WriteTxn(defs.mem.ramCmd + old(cmdOffset), Payload(c))
    {
      ghost var w0, a := wire, defs.mem.ramCmd + cmdOffset;
      SlotOffsets(cmdOffset, MemcrcCmd(defs.op, ptr, num), 8);
      BeginCmd(defs.op.cmdMemcrc);
      ghost var pre := wire;
      SendLE32(ptr);
      ghost var args := LE32(ptr);
      SendLE32(num);
      OutsGrow(pre, args, LE32(num));
      args := args + LE32(num);
      SendZeros4();
      OutsGrow(pre, args, Zeros(4));
      args := args + Zeros(4);
      IncCmdOffset(8);
      slot := cmdOffset;
      IncCmdOffset(4);
      CsClear();
      WriteInParts(w0, a, LE32(defs.op.cmdMemcrc), args);
    }

    /** `EVE_cmd_getptr`. */
    method CmdGetptr() returns (slot: u16)
      requires RamFits(defs)
      modifies this`cs, this`wire, this`cmdOffset
      ensures var c := GetptrCmd(defs.op);
        && slot == ResultSlot(old(cmdOffset), c) && cmdOffset == Next(old(cmdOffset), c)
        && !cs && wire == old(wire) + WriteTxn(defs.mem.ramCmd + old(cmdOffset), Payload(c))
    {
      ghost var w0, a := wire, defs.mem.ramCmd + cmdOffset;
      IncTwice(cmdOffset, 4, 4);
      BeginCmd(defs.op.cmdGetptr);
      ghost var pre := wire;
      SendZeros4();
      ghost var args := Zeros(4);
      slot := cmdOffset;
      IncCmdOffset(4);
      CsClear();
      WriteInParts(w0, a, LE32(defs.op.cmdGetptr), args);
    }

    /** `EVE_cmd_regread`. */
    method CmdRegread(ptr: u32) returns (slot: u16)
      requires RamFits(defs)
      modifies this`cs, this`wire, this`cmdOffset
      ensures var c := RegreadCmd(defs.op, ptr);
        && slot == ResultSlot(old(cmdOffset), c) && cmdOffset == Next(old(cmdOffset), c)
        && !cs && wire == old(wire) + WriteTxn(defs.mem.ramCmd + old(cmdOffset), Payload(c))
    {
      ghost var w0, a := wire, defs.mem.ramCmd + cmdOffset;
      SlotOffsets(cmdOffset, RegreadCmd(defs.op, ptr), 4);
      BeginCmd(defs.op.cmdRegread);
      ghost var pre := wire;
      SendLE32(ptr);
      ghost var args := LE32(ptr);
      SendZeros4();
      OutsGrow(pre, args, Zeros(4));
      args := args + Zeros(4);
      IncCmdOffset(4);
      slot := cmdOffset;
      IncCmdOffset(4);
      CsClear();
      WriteInParts(w0, a, LE32(defs.op.cmdRegread), args);
    }

    /** `EVE_cmd_getprops` as written: it sends the REGREAD opcode, the pointer and two
        reserved words, returns the offset of the first of them (the width) and moves the
        offset on by 12 for the 16 bytes it sent. */
    method CmdGetprops(ptr: u32) returns (slot: u16)
      requires RamFits(defs)
      modifies this`cs, this`wire, this`cmdOffset
      ensures var c := GetpropsAsSent(defs.op, ptr);
        && slot == (old(cmdOffset) + 8) % FifoSize && cmdOffset == (old(cmdOffset) + 12) % FifoSize
        && !cs && wire == old(wire) + WriteTxn(defs.mem.ramCmd + old(cmdOffset), Payload(c))
    {
      ghost var w0, a := wire, defs.mem.ramCmd + cmdOffset;
      IncTwice(cmdOffset, 4, 4);
      IncThrice(cmdOffset, 4, 4, 4);
      BeginCmd(defs.op.cmdRegread);
      ghost var pre := wire;
      SendLE32(ptr);
      ghost var args := LE32(ptr);
      SendZeros4();
      OutsGrow(pre, args, Zeros(4));
      args := args + Zeros(4);
      SendZeros4();
      OutsGrow(pre, args, Zeros(4));
      args := args + Zeros(4);
      IncCmdOffset(4);
      slot := cmdOffset;
      IncCmdOffset(4);
      CsClear();
      WriteInParts(w0, a, LE32(defs.op.cmdRegread), args);
    }

    // Burst sessions and the burst-aware commands: `EVE_start_cmd_burst`,
    // `EVE_end_cmd_burst`, `EVE_start_cmd`, `EVE_cmd_dl`, `EVE_write_string`.

    /** `EVE_start_cmd_burst`: set the flag and open one write transaction at the FIFO's
        current position, to stay open until the burst ends. */
    method StartCmdBurst()
      requires RamFits(defs)
      modifies this`burst, this`cs, this`wire
      ensures burst && cs && wire == old(wire) + [Select] + Outs(Header(defs.mem.ramCmd + cmdOffset, true))
    {
      burst := true;
      var ftAddress := defs.mem.ramCmd + cmdOffset;
      CsSet();
      SendHeader(ftAddress, true);
    }

    /** `EVE_end_cmd_burst`: clear the flag and close the transaction. */
    method EndCmdBurst()
      modifies this`burst, this`cs, this`wire
      ensures !burst && !cs && wire == old(wire) + [Deselect]
    {
      burst := false;
      CsClear();
    }

    /** `EVE_start_cmd`: outside a burst, open a transaction at the FIFO's current
        position; inside one, only the opcode goes out. Either way the offset moves by 4. */
    method StartCmd(command: u32)
      requires RamFits(defs)
      modifies this`cs, this`wire, this`cmdOffset
      ensures cmdOffset == IncOffset(old(cmdOffset), 4)
      ensures cs == (!burst || old(cs))
      ensures wire == old(wire) + Opening(defs, burst, old(cmdOffset), LE32(command))
    {
      if !burst {
        var ftAddress := defs.mem.ramCmd + cmdOffset;
        CsSet();
        SendHeader(ftAddress, true);
        SendLE32(command);
        OutsAppend(Header(ftAddress, true), LE32(command));
      } else {
        SendLE32(command);
      }
      IncCmdOffset(4);
    }

    /** Closing a burst-aware command: chip-select is released outside a burst only. */
    method FinishCmd()
      modifies this`cs, this`wire
      ensures cs == (burst && old(cs))
      ensures wire == old(wire) + Closing(burst)
    {
      if !burst {
        CsClear();
      }
    }

    /** `EVE_cmd_dl`: a one-word command, closed at once outside a burst. */
    method CmdDl(command: u32)
      requires RamFits(defs)
      modifies this`cs, this`wire, this`cmdOffset
      ensures cmdOffset == Next(old(cmdOffset), Cmd(command, []))
      ensures cs == (burst && old(cs))
      ensures wire == old(wire) + Emission(defs, burst, old(cmdOffset), Payload(Cmd(command, [])))
    {
      ghost var w0 := wire;
      EmissionInParts(w0, defs, burst, cmdOffset, LE32(command), []);
      StartCmd(command);
      FinishCmd();
      assert Payload(Cmd(command, [])) == LE32(command) + [];
    }

    /** The four half-word arguments of a widget command. */
    method SendHalves(h0: u16, h1: u16, h2: u16, h3: u16)
      modifies this`wire
      ensures wire == old(wire) + Outs(LE16(h0) + LE16(h1) + LE16(h2) + LE16(h3))
    {
      ghost var w0 := wire;
      SendLE16(h0);
      SendLE16(h1);
      OutsGrow(w0, LE16(h0), LE16(h1));
      SendLE16(h2);
      OutsGrow(w0, LE16(h0) + LE16(h1), LE16(h2));
      SendLE16(h3);
      OutsGrow(w0, LE16(h0) + LE16(h1) + LE16(h2), LE16(h3));
    }

    /** `EVE_write_string`: the text up to its terminator, then `4 - (len & 3)` zero bytes;
        the offset moves by the text length plus padding as held in the `uint8_t`
        `textindex`. The source's loop stops at the terminator, so `text` is the string
        without it and has no zero byte; its counter wraps at 256, so a longer string is
        never finished. */
    method WriteString(text: seq<byte>)
      requires |text| < 0x100 && forall i :: 0 <= i < |text| ==> text[i] != 0
      modifies this`wire, this`cmdOffset
      ensures wire == old(wire) + Outs(text + Zeros(StringPadding(|text|)))
      ensures cmdOffset == IncOffset(old(cmdOffset), Uint8StringAdvance(|text|))
    {
      ghost var w0 := wire;
      var textindex: byte := 0;
      while textindex < |text|
        invariant textindex <= |text| && wire == w0 + Outs(text[..textindex]) && cmdOffset == old(cmdOffset)
      {
        Transmit(text[textindex]);
        assert text[..textindex + 1] == text[..textindex] + [text[textindex]];
        OutsAppend(text[..textindex], [text[textindex]]);
        textindex := textindex + 1;
      }
      assert text[..textindex] == text;
      ghost var mid := wire;
      var padding: byte := textindex % 4;
      padding := 4 - padding;
      textindex := (textindex + padding) % 0x100;
      ghost var p0 := padding;
      while padding > 0
        invariant padding <= p0 && wire == mid + Outs(Zeros(p0 - padding)) && cmdOffset == old(cmdOffset)
      {
        Transmit(0);
        assert Zeros(p0 - padding + 1) == Zeros(p0 - padding) + [0];
        OutsAppend(Zeros(p0 - padding), [0]);
        padding := padding - 1;
      }
      OutsAppend(text, Zeros(p0));
      IncCmdOffset(textindex);
    }

    // Loading data through the FIFO.

    /** `spi_flash_write`: the data, then zero bytes up to a multiple of four, and the
        offset moved by that padded length as held in a `uint16_t`. */
    method SpiFlashWrite(data: seq<byte>)
      requires |data| < 0x1_0000
      modifies this`wire, this`cmdOffset
      ensures wire == old(wire) + Outs(data + Zeros(BlockPadding(|data|)))
      ensures cmdOffset == IncOffset(old(cmdOffset), FlashWriteAdvance(|data|))
    {
      ghost var w0 := wire;
      var len: u16 := |data|;
      var padding: byte := len % 4;
      padding := 4 - padding;
      padding := padding % 4;
      var count: u16 := 0;
      while count < len
        invariant count <= len && wire == w0 + Outs(data[..count]) && cmdOffset == old(cmdOffset)
      {
        Transmit(data[count]);
        assert data[..count + 1] == data[..count] + [data[count]];
        OutsAppend(data[..count], [data[count]]);
        count := count + 1;
      }
      assert data[..count] == data;
      len := (len + padding) % 0x1_0000;
      ghost var mid, p0 := wire, padding;
      while padding > 0
        invariant padding <= p0 && wire == mid + Outs(Zeros(p0 - padding)) && cmdOffset == old(cmdOffset)
      {
        Transmit(0);
        assert Zeros(p0 - padding + 1) == Zeros(p0 - padding) + [0];
        OutsAppend(Zeros(p0 - padding), [0]);
        padding := padding - 1;
      }
      OutsAppend(data, Zeros(p0));
      IncCmdOffset(len);
    }

    /** One pass of the `block_transfer` loop up to the execute: a write transaction at
        the FIFO's current position carrying the chunk and its padding. */
    method WriteChunk(chunk: seq<byte>)
      requires RamFits(defs) && |chunk| < 0x1_0000
      modifies this`cs, this`wire, this`cmdOffset
      ensures !cs && wire == old(wire) + ChunkWrite(defs, old(cmdOffset), chunk)
      ensures cmdOffset == IncOffset(old(cmdOffset), FlashWriteAdvance(|chunk|))
    {
      var ftAddress := defs.mem.ramCmd + cmdOffset;
      CsSet();
      SendHeader(ftAddress, true);
      SpiFlashWrite(chunk);
      CsClear();
      OutsAppend(Header(ftAddress, true), chunk + Zeros(BlockPadding(|chunk|)));
      assert Header(ftAddress, true) + (chunk + Zeros(BlockPadding(|chunk|)))
        == Header(ftAddress, true) + chunk + Zeros(BlockPadding(|chunk|));
    }

    /** One pass of the `block_transfer` loop: the chunk written at the FIFO's current
        position, then executed. */
    method TransferChunk(chunk: seq<byte>, fuel: nat) returns (done: bool)
      requires Valid() && |chunk| < 0x1_0000
      modifies this`cs, this`wire, this`received, this`cmdOffset
      ensures var s := chunkStep(old(cmdOffset), old(received), chunk, fuel);
        && done == s.ok && cmdOffset == s.off && received == old(received) + 2 * s.polls
        && !cs && wire == old(wire) + s.trace
    {
      ghost var w0, off0, rx0 := wire, cmdOffset, received;
      assert |chunk| % 0x1_0000 == |chunk|;
      assert chunkStep(off0, rx0, chunk, fuel) == ChunkStep(defs, miso, off0, rx0, chunk, fuel);
      WriteChunk(chunk);
      ghost var off1 := cmdOffset;
      done := CmdExecute(fuel);
      AppendAssoc(w0, ChunkWrite(defs, off0, chunk), StartTxn(defs, off1) + WaitTrace(defs, miso, off1, rx0, fuel));
      AppendAssoc(ChunkWrite(defs, off0, chunk), StartTxn(defs, off1), WaitTrace(defs, miso, off1, rx0, fuel));
    }

    /** The abstract pass is `ChunkStep`, so a run of them is `Transfer`. */
    lemma StepsAreTransfer(off: u16, rx: nat, data: seq<byte>, fuel: nat)
      requires Valid()
      ensures Steps(chunkStep, off, rx, Chunks(data), fuel) == Transfer(defs, miso, off, rx, data, fuel)
    {
      forall o, r, c
        ensures chunkStep(o, r, c, fuel) == ChunkSteps(defs, miso)(o, r, c, fuel)
      {
        assert chunkStep(o, r, c, fuel) == ChunkStep(defs, miso, o, r, c, fuel);
      }
      StepsAgree(chunkStep, ChunkSteps(defs, miso), off, rx, Chunks(data), fuel);
    }

    /** `block_transfer`: the data in chunks of at most 3840 bytes, each written at the
        offset it finds and then executed. `ok` is false when some wait ran out of
        fuel; the source waits without bound and returns nothing. */
    method BlockTransfer(data: seq<byte>, fuel: nat) returns (ok: bool)
      requires Valid() && |data| < 0x1_0000
      modifies this`cs, this`wire, this`received, this`cmdOffset
      ensures var r := Transfer(defs, miso, old(cmdOffset), old(received), data, fuel);
        && ok == r.ok && cmdOffset == r.off && received == old(received) + 2 * r.polls
        && wire == old(wire) + r.trace
      ensures cs == (old(cs) && data == [])
    {
      ghost var w0 := wire;
      ghost var total := Steps(chunkStep, cmdOffset, received, Chunks(data), fuel);
      ghost var done0 := Step(true, cmdOffset, 0, []);
      ThenUnit(cmdOffset, total);
      var bytesLeft: u16 := |data|;
      var rest := data;
      ok := true;
      while bytesLeft > 0
        invariant |rest| == bytesLeft <= |data|
        invariant total == Then(done0, Steps(chunkStep, cmdOffset, received, Chunks(rest), fuel))
        invariant ok == done0.ok && received == old(received) + 2 * done0.polls && wire == w0 + done0.trace
        invariant cs == (old(cs) && bytesLeft == |data|)
      {
        var blockLen: u16 := if bytesLeft > MaxChunk then MaxChunk else bytesLeft;
        var chunk, tail := rest[..blockLen], rest[blockLen..];
        StepsPass(chunkStep, done0, cmdOffset, received, rest, blockLen, fuel);
        ghost var s := chunkStep(cmdOffset, received, chunk, fuel);
        var done := TransferChunk(chunk, fuel);
        AppendAssoc(w0, done0.trace, s.trace);
        rest := tail;
        bytesLeft := bytesLeft - blockLen;
        ok := ok && done;
        done0 := Then(done0, s);
      }
      assert done0.trace + [] == done0.trace;
      StepsAreTransfer(old(cmdOffset), old(received), data, fuel);
    }

    /** `EVE_cmd_inflate`: the command word and destination in a write transaction of
        their own, then the compressed data by `block_transfer`. */
    method CmdInflate(ptr: u32, data: seq<byte>, fuel: nat) returns (ok: bool)
      requires Valid() && |data| < 0x1_0000
      modifies this`cs, this`wire, this`received, this`cmdOffset
      ensures var c := InflateCmd(defs.op, ptr);
        var r := Transfer(defs, miso, Next(old(cmdOffset), c), old(received), data, fuel);
        && ok == r.ok && cmdOffset == r.off && received == old(received) + 2 * r.polls && !cs
        && wire == old(wire) + WriteTxn(defs.mem.ramCmd + old(cmdOffset), Payload(c)) + r.trace
    {
      ghost var w0, a := wire, defs.mem.ramCmd + cmdOffset;
      IncTwice(cmdOffset, 4, 4);
      BeginCmd(defs.op.cmdInflate);
      SendLE32(ptr);
      IncCmdOffset(4);
      CsClear();
      WriteInParts(w0, a, LE32(defs.op.cmdInflate), LE32(ptr));
      ghost var c := InflateCmd(defs.op, ptr);
      assert Payload(c) == LE32(defs.op.cmdInflate) + LE32(ptr);
      assert cmdOffset == Next(old(cmdOffset), c);
      ghost var mid, off1, rx1 := w0 + WriteTxn(a, Payload(c)), cmdOffset, received;
      assert wire == mid;
      ok := BlockTransfer(data, fuel);
      ghost var r := Transfer(defs, miso, off1, rx1, data, fuel);
      assert ok == r.ok && cmdOffset == r.off && received == rx1 + 2 * r.polls;
      assert wire == mid + r.trace;
    }

    // Two representative widget commands.

    /** The body of `EVE_cmd_text` after its opcode: the four half-words, then the string. */
    method SendTextArgs(x0: i16, y0: i16, font: i16, options: u16, text: seq<byte>)
      requires |text| < 0x100 && forall i :: 0 <= i < |text| ==> text[i] != 0
      modifies this`wire, this`cmdOffset
      ensures wire == old(wire) + Outs(TextCmd(defs.op, x0, y0, font, options, text).args)
      ensures cmdOffset == IncOffset(IncOffset(old(cmdOffset), 8), Uint8StringAdvance(|text|))
    {
      ghost var w0 := wire;
      ghost var halves := LE16(U16Of(x0)) + LE16(U16Of(y0)) + LE16(U16Of(font)) + LE16(options);
      SendHalves(U16Of(x0), U16Of(y0), U16Of(font), options);
      IncCmdOffset(8);
      WriteString(text);
      OutsAppend(text, Zeros(StringPadding(|text|)));
      OutsGrow(w0, halves, text + Zeros(StringPadding(|text|)));
      assert halves + (text + Zeros(StringPadding(|text|))) == TextCmd(defs.op, x0, y0, font, options, text).args;
    }

    /** `EVE_cmd_text`: opcode, four half-words, the string. The source sends the same
        bytes inside and outside a burst, only by a different transmit routine. */
    method CmdText(x0: i16, y0: i16, font: i16, options: u16, text: seq<byte>)
      requires RamFits(defs)
      requires |text| < 0x100 && forall i :: 0 <= i < |text| ==> text[i] != 0
      modifies this`cs, this`wire, this`cmdOffset
      ensures var c := TextCmd(defs.op, x0, y0, font, options, text);
        && cs == (burst && old(cs))
        && wire == old(wire) + Emission(defs, burst, old(cmdOffset), Payload(c))
        && cmdOffset == (old(cmdOffset) + 12 + Uint8StringAdvance(|text|)) % FifoSize
        && (|text| <= 251 ==> cmdOffset == Next(old(cmdOffset), c))
    {
      ghost var w0, off0 := wire, cmdOffset;
      ghost var c := TextCmd(defs.op, x0, y0, font, options, text);
      IncThrice(cmdOffset, 4, 8, Uint8StringAdvance(|text|));
      TextAdvance(defs.op, x0, y0, font, options, text, cmdOffset);
      StartCmd(defs.op.cmdText);
      SendTextArgs(x0, y0, font, options, text);
      FinishCmd();
      EmissionInParts(w0, defs, burst, off0, LE32(defs.op.cmdText), c.args);
    }

    /** `EVE_cmd_number`: opcode, four half-words, the number as a 32-bit word. */
    method CmdNumber(x0: i16, y0: i16, font: i16, options: u16, number: i32)
      requires RamFits(defs)
      modifies this`cs, this`wire, this`cmdOffset
      ensures var c := NumberCmd(defs.op, x0, y0, font, options, number);
        && cs == (burst && old(cs))
        && wire == old(wire) + Emission(defs, burst, old(cmdOffset), Payload(c))
        && cmdOffset == Next(old(cmdOffset), c)
    {
      ghost var w0, off0 := wire, cmdOffset;
      IncTwice(cmdOffset, 4, 12);
      StartCmd(defs.op.cmdNumber);
      ghost var pre := wire;
      SendHalves(U16Of(x0), U16Of(y0), U16Of(font), options);
      ghost var args := LE16(U16Of(x0)) + LE16(U16Of(y0)) + LE16(U16Of(font)) + LE16(options);
      SendLE32(U32Of(number));
      OutsGrow(pre, args, LE32(U32Of(number)));
      args := args + LE32(U32Of(number));
      FinishCmd();
      EmissionInParts(w0, defs, burst, off0, LE32(defs.op.cmdNumber), args);
      IncCmdOffset(12);
    }

    // Bring-up: the register polls, `EVE_cmd_flashfast`, `EVE_init_flash`, `EVE_init`.

    /** The poll loops of `EVE_init` and `EVE_init_flash`: read `reg` once, then, until
        `u` accepts the value, read it again, wait 1 ms and count, giving up once the
        counter passes `limit`. */
    method PollRegister(reg: u32, u: Until, limit: nat) returns (found: bool, value: byte)
      modifies this`cs, this`wire, this`received
      ensures var p := Poll(miso, old(received), u, limit);
        found == p.found && value == p.value && received == old(received) + p.count
      ensures !cs && wire == old(wire) + PollTrace(reg, miso, old(received), Poll(miso, old(received), u, limit).count)
    {
      ghost var w0, rx0 := wire, received;
      ghost var ev := RetryEvent(reg, miso);
      value := MemRead8(reg);
      ghost var first := ReadTxn(reg, [miso(rx0)]);
      var timeout := 0;
      while !Accepts(u, value)
        invariant timeout <= limit && received == rx0 + 1 + timeout && !cs
        invariant value == miso(rx0 + timeout)
        invariant forall j {:trigger Accepts(u, miso(j))} :: rx0 <= j < rx0 + timeout ==> !Accepts(u, miso(j))
        invariant wire == w0 + first + Repeat(ev, rx0 + 1, timeout)
        decreases limit - timeout
      {
        ghost var before := Repeat(ev, rx0 + 1, timeout);
        assert Repeat(ev, rx0 + 1, timeout + 1) == before + ev(received);
        value := Retry(reg);
        AppendAssoc(w0 + first, before, ev(rx0 + 1 + timeout));
        timeout := timeout + 1;
        if timeout > limit {
          found := false;
          PollGivesUp(miso, rx0, u, limit);
          PollEnds(reg, w0, rx0, first, Poll(miso, rx0, u, limit).count, timeout);
          return;
        }
      }
      found := true;
      PollStopsAt(miso, rx0, u, limit, timeout);
      PollEnds(reg, w0, rx0, first, Poll(miso, rx0, u, limit).count, timeout);
    }

    /** The body of a poll loop: read `reg`, wait 1 ms. */
    method Retry(reg: u32) returns (v: byte)
      modifies this`cs, this`wire, this`received
      ensures v == miso(old(received)) && received == old(received) + 1
      ensures !cs && wire == old(wire) + RetryEvent(reg, miso)(old(received))
    {
      ghost var w0 := wire;
      v := MemRead8(reg);
      DelayMs(1);
      AppendAssoc(w0, ReadTxn(reg, [v]), [Delay(1)]);
    }

    /** The bus activity of a poll that has made its `n` reads, one of them before the loop. */
    lemma PollEnds(reg: u32, w0: seq<Signal>, rx0: nat, first: seq<Signal>, n: nat, t: nat)
      requires first == ReadTxn(reg, [miso(rx0)]) && n == t + 1
      ensures w0 + first + Repeat(RetryEvent(reg, miso), rx0 + 1, t) == w0 + PollTrace(reg, miso, rx0, n)
    {
      AppendAssoc(w0, first, Repeat(RetryEvent(reg, miso), rx0 + 1, t));
    }

    /** `EVE_cmd_flashfast`: the command and an empty result word as a transaction of
        their own, an execute, then the result word read back from the FIFO. */
    method CmdFlashfast(fuel: nat) returns (result: u32, executed: bool)
      requires Valid()
      modifies this`cs, this`wire, this`received, this`cmdOffset
      ensures var f := FlashFast(miso, old(cmdOffset), old(received), fuel);
        result == f.result && executed == f.executed && cmdOffset == f.off && received == old(received) + f.count && !cs
      ensures wire == AfterFlashFast(defs, miso, old(wire), old(cmdOffset), old(received), fuel)
    {
      ghost var w0, off0 := wire, cmdOffset;
      var offset := SendFlashfast();
      result, executed := FinishFlashfast(offset, fuel, w0, off0);
    }

    /** The execute after the command transaction of `SendFlashfast`, then the 32-bit
        read of the result word at `slot`; `executed` tells whether the execute found the
        coprocessor caught up. */
    method FinishFlashfast(slot: u16, fuel: nat, ghost w0: seq<Signal>, ghost off0: u16) returns (result: u32, executed: bool)
      requires Valid()
      requires slot == IncOffset(off0, 4) && cmdOffset == IncOffset(slot, 4)
      requires wire == w0 + WriteTxn(defs.mem.ramCmd + off0, LE32(defs.op.cmdFlashfast) + Zeros(4))
      modifies this`cs, this`wire, this`received, this`cmdOffset
      ensures var f := FlashFast(miso, off0, old(received), fuel);
        result == f.result && executed == f.executed && cmdOffset == f.off && received == old(received) + f.count && !cs
      ensures wire == AfterFlashFast(defs, miso, w0, off0, old(received), fuel)
    {
      ghost var w1, off2, rx0 := wire, cmdOffset, received;
      executed, result := ExecuteThenRead32(defs.mem.ramCmd + slot, fuel);
      FlashFastSteps(miso, off0, rx0, fuel, off2, cmdOffset, received, result, executed);
      FlashFastWire(defs, miso, off0, rx0, fuel, w0, w1, wire, slot, off2);
    }

    /** An execute, then a 32-bit read of `a`. */
    method ExecuteThenRead32(a: u32, fuel: nat) returns (executed: bool, v: u32)
      requires Valid()
      modifies this`cs, this`wire, this`received, this`cmdOffset
      ensures var w, rx := Wait(miso, old(cmdOffset), old(received), fuel), WaitEnd(miso, old(cmdOffset), old(received), fuel);
        executed == w.ok && cmdOffset == w.off && received == rx + 4 && v == FromLE32(Got32(miso, rx)) && !cs
      ensures wire == old(wire) + StartTxn(defs, old(cmdOffset)) + WaitTrace(defs, miso, old(cmdOffset), old(received), fuel)
        + ReadTxn(a, Got32(miso, WaitEnd(miso, old(cmdOffset), old(received), fuel)))
    {
      ghost var off0, rx0 := cmdOffset, received;
      executed := CmdExecute(fuel);
      assert received == WaitEnd(miso, off0, rx0, fuel);
      v := MemRead32(a);
    }

    /** The command word and the reserved result word in one write transaction; the
        result slot is the offset after the command word. */
    method SendFlashfast() returns (slot: u16)
      requires RamFits(defs)
      modifies this`cs, this`wire, this`cmdOffset
      ensures slot == IncOffset(old(cmdOffset), 4) && cmdOffset == IncOffset(slot, 4) && !cs
      ensures wire == old(wire) + WriteTxn(defs.mem.ramCmd + old(cmdOffset), LE32(defs.op.cmdFlashfast) + Zeros(4))
    {
      ghost var w0, a := wire, defs.mem.ramCmd + cmdOffset;
      BeginCmd(defs.op.cmdFlashfast);
      SendZeros4();
      slot := cmdOffset;
      IncCmdOffset(4);
      CsClear();
      WriteInParts(w0, a, LE32(defs.op.cmdFlashfast), Zeros(4));
    }

    /** The DETACHED branch of `EVE_init_flash`: CMD_FLASHATTACH as a display-list
        command outside a burst, an execute, a re-read of the flash status. */
    method AttachFlash(fuel: nat) returns (status: byte, executed: bool)
      requires Valid() && !burst
      modifies this`cs, this`wire, this`received, this`cmdOffset
      ensures var a := Attach(miso, old(cmdOffset), old(received), fuel);
        status == a.status && executed == a.executed && cmdOffset == a.off && received == old(received) + a.count && !cs
      ensures wire == AfterAttach(defs, miso, old(wire), old(cmdOffset), old(received), fuel)
    {
      AttachWord(cmdOffset);
      CmdDl(defs.op.cmdFlashattach);
      executed, status := ExecuteThenRead8(defs.mem.regFlashStatus, fuel);
    }

    /** An execute, then an 8-bit read of `a`. */
    method ExecuteThenRead8(a: u32, fuel: nat) returns (executed: bool, v: byte)
      requires Valid()
      modifies this`cs, this`wire, this`received, this`cmdOffset
      ensures var w, rx := Wait(miso, old(cmdOffset), old(received), fuel), WaitEnd(miso, old(cmdOffset), old(received), fuel);
        executed == w.ok && cmdOffset == w.off && received == rx + 1 && v == miso(rx) && !cs
      ensures wire == old(wire) + StartTxn(defs, old(cmdOffset)) + WaitTrace(defs, miso, old(cmdOffset), old(received), fuel)
        + ReadTxn(a, [miso(WaitEnd(miso, old(cmdOffset), old(received), fuel))])
    {
      ghost var off0, rx0 := cmdOffset, received;
      executed := CmdExecute(fuel);
      assert received == WaitEnd(miso, off0, rx0, fuel);
      v := MemRead8(a);
    }

    /** CMD_FLASHATTACH outside a burst is one command word in a write transaction of its own. */
    lemma AttachWord(off: u16)
      requires RamFits(defs)
      ensures Next(off, Cmd(defs.op.cmdFlashattach, [])) == IncOffset(off, 4)
      ensures Emission(defs, false, off, Payload(Cmd(defs.op.cmdFlashattach, [])))
        == WriteTxn(defs.mem.ramCmd + off, LE32(defs.op.cmdFlashattach))
    {
      assert Payload(Cmd(defs.op.cmdFlashattach, [])) == LE32(defs.op.cmdFlashattach);
    }

    /** `EVE_init_flash`, which is meant to run outside display-list building: poll the
        flash status out of INIT, retry attaching a DETACHED flash, switch a BASIC flash
        to full speed, accept FULL. `settled` tells whether every execute on the way found
        the coprocessor caught up within `fuel` polls. */
    method InitFlash(fuel: nat) returns (ok: bool, settled: bool)
      requires Valid() && !burst
      modifies this`cs, this`wire, this`received, this`cmdOffset
      ensures var r := BringUp.InitFlash(miso, old(cmdOffset), old(received), fuel);
        ok == r.ok && settled == r.settled && cmdOffset == r.off && received == old(received) + r.count && !cs
      ensures InitFlashWire(defs, miso, old(cmdOffset), old(received), fuel, old(wire), wire)
    {
      ghost var w0, off0, rx0 := wire, cmdOffset, received;
      var found, status := PollRegister(defs.mem.regFlashStatus, UntilNonzero, FlashPollLimit);
      ghost var w1, rx1 := wire, received;
      if !found {
        InitFlashNoStatus(defs, miso, off0, rx0, fuel, w0, w1, rx1);
        return false, true;
      }
      if status == FlashDetached {
        var attached;
        status, attached := AttachFlash(fuel);
        ghost var w2, off2, rx2 := wire, cmdOffset, received;
        if status != FlashBasic {
          InitFlashAttachFails(defs, miso, off0, rx0, fuel, w0, w1, w2, rx1, off2, rx2, status, attached);
          return false, attached;
        }
        var result, executed := CmdFlashfast(fuel);
        InitFlashAttached(defs, miso, off0, rx0, fuel, w0, w1, w2, wire, rx1, off2, rx2, result, cmdOffset, received,
                          attached && executed);
        return result == 0, attached && executed;
      }
      if status == FlashBasic {
        var result, executed := CmdFlashfast(fuel);
        InitFlashBasic(defs, miso, off0, rx0, fuel, w0, w1, wire, rx1, result, cmdOffset, received, executed);
        return result == 0, executed;
      }
      InitFlashByStatus(defs, miso, off0, rx0, fuel, w0, w1, rx1, status);
      return status == FlashFull, true;
    }

    /** The power-up of `EVE_init`: power-down pulse, the waits around it, the optional
        core reset, the clock source and ACTIVE. */
    method PowerUp(board: Board)
      modifies this`cs, this`wire
      ensures wire == old(wire) + Prelude(defs, board)
    {
      ghost var w0 := wire;
      PowerPulse();
      ghost var w1 := wire;
      ghost var reset := if board.coreReset then HostCmdTxn(defs.op.hostCoreRst) else [];
      if board.coreReset {
        CmdWrite(defs.op.hostCoreRst);
      } else {
        assert w1 + [] == w1;
      }
      ghost var w2 := wire;
      ghost var clock := HostCmdTxn(if board.hasCrystal then defs.op.hostClkExt else defs.op.hostClkInt);
      CmdWrite(if board.hasCrystal then defs.op.hostClkExt else defs.op.hostClkInt);
      CmdWrite(defs.op.hostActive);
      ghost var pulse := [PowerDown(true), Delay(6), PowerDown(false), Delay(21)];
      AppendAssoc(w0, pulse, reset);
      AppendAssoc(w0, pulse + reset, clock);
      AppendAssoc(w0, pulse + reset + clock, HostCmdTxn(defs.op.hostActive));
    }

    /** The power-down pulse with the 6 ms and 21 ms waits around its release. */
    method PowerPulse()
      modifies this`wire
      ensures wire == old(wire) + [PowerDown(true), Delay(6), PowerDown(false), Delay(21)]
    {
      SetPowerDown(true);
      DelayMs(6);
      SetPowerDown(false);
      DelayMs(21);
    }

    /** The writes that finish the GT911 patch on FT81x parts. */
    method FinishPatch()
      modifies this`cs, this`wire
      ensures !cs && wire == old(wire) + AfterPatch(defs)
    {
      ghost var w0 := wire;
      var m := defs.mem;
      MemWrite8(m.regTouchOversample, 0x0f);
      MemWrite16(m.regTouchConfig, 0x05D0);
      MemWrite16(m.regGpioxDir, 0x8008);
      DelayMs(1);
      MemWrite8(m.regCpuReset, 0x00);
      DelayMs(56);
      MemWrite16(m.regGpioxDir, 0x8000);
      ghost var a1, a2, a3 := WriteTxn(m.regTouchOversample, [0x0f]), WriteTxn(m.regTouchConfig, LE16(0x05D0)), WriteTxn(m.regGpioxDir, LE16(0x8008));
      ghost var a5, a7 := WriteTxn(m.regCpuReset, [0]), WriteTxn(m.regGpioxDir, LE16(0x8000));
      AppendAssoc(w0, a1, a2);
      AppendAssoc(w0, a1 + a2, a3);
      AppendAssoc(w0, a1 + a2 + a3, [Delay(1)]);
      AppendAssoc(w0, a1 + a2 + a3 + [Delay(1)], a5);
      AppendAssoc(w0, a1 + a2 + a3 + [Delay(1)] + a5, [Delay(56)]);
      AppendAssoc(w0, a1 + a2 + a3 + [Delay(1)] + a5 + [Delay(56)], a7);
    }

    /** The touch-controller setup of `EVE_init` on a board with a GT911: on BT81x one
        write of REG_TOUCH_CONFIG; on FT81x the patch of application note AN_336,
        written into the FIFO at the offset re-read from the chip and executed, then the
        writes that finish it. */
    method TouchSetup(board: Board, fuel: nat) returns (ok: bool)
      requires Valid() && ValidBoard(board)
      modifies this`cs, this`wire, this`received, this`cmdOffset
      ensures var t := Touch(miso, board, old(cmdOffset), old(received), fuel);
        ok == t.ok && cmdOffset == t.off && received == TouchEnd(miso, board, old(cmdOffset), old(received), fuel)
      ensures wire == AfterTouch(defs, miso, board, old(wire), old(received), fuel)
    {
      if !board.hasGt911 {
        return true;
      }
      if board.bt81x {
        MemWrite32(defs.mem.regTouchConfig, 0x5d1);
        return true;
      }
      GetCmdOffset();
      WriteChunk(board.gt911Patch);
      ok := CmdExecute(fuel);
      FinishPatch();
    }

    /** The backlight off and the horizontal timing: setup writes 0 to 5. */
    method WriteHorizontal(board: Board, cfg: DisplayConfig)
      requires RamFits(defs)
      modifies this`cs, this`wire
      ensures wire == Writes(defs, board, cfg, old(wire), 0, 6)
    {
      var m := defs.mem;
      var duty: byte := if board.adam101 then 0x80 else 0;
      ghost var w0 := wire;
      MemWrite8(m.regPwmDuty, duty);
      MemWrite16(m.regHsize, cfg.hsize);
      MemWrite16(m.regHcycle, cfg.hcycle);
      MemWrite16(m.regHoffset, cfg.hoffset);
      MemWrite16(m.regHsync0, cfg.hsync0);
      MemWrite16(m.regHsync1, cfg.hsync1);
      assert wire == w0 + WriteTxn(m.regPwmDuty, [duty])
         + WriteTxn(m.regHsize, LE16(cfg.hsize)) + WriteTxn(m.regHcycle, LE16(cfg.hcycle))
         + WriteTxn(m.regHoffset, LE16(cfg.hoffset)) + WriteTxn(m.regHsync0, LE16(cfg.hsync0))
         + WriteTxn(m.regHsync1, LE16(cfg.hsync1));
      HorizontalWire(defs, board, cfg, w0);
    }

    /** The vertical timing: setup writes 6 to 10. */
    method WriteVertical(board: Board, cfg: DisplayConfig)
      requires RamFits(defs)
      modifies this`cs, this`wire
      ensures wire == Writes(defs, board, cfg, old(wire), 6, 11)
    {
      var m := defs.mem;
      ghost var w0 := wire;
      MemWrite16(m.regVsize, cfg.vsize);
      MemWrite16(m.regVcycle, cfg.vcycle);
      MemWrite16(m.regVoffset, cfg.voffset);
      MemWrite16(m.regVsync0, cfg.vsync0);
      MemWrite16(m.regVsync1, cfg.vsync1);
      assert wire == w0 + WriteTxn(m.regVsize, LE16(cfg.vsize)) + WriteTxn(m.regVcycle, LE16(cfg.vcycle))
         + WriteTxn(m.regVoffset, LE16(cfg.voffset)) + WriteTxn(m.regVsync0, LE16(cfg.vsync0))
         + WriteTxn(m.regVsync1, LE16(cfg.vsync1));
      VerticalWire(defs, board, cfg, w0);
    }

    /** Pin order, clock edge, spread, touch and audio: setup writes 11 to 18. */
    method WriteOptions(board: Board, cfg: DisplayConfig)
      requires RamFits(defs)
      modifies this`cs, this`wire
      ensures wire == Writes(defs, board, cfg, old(wire), 11, 19)
    {
      var m := defs.mem;
      ghost var w0 := wire;
      MemWrite8(m.regSwizzle, cfg.swizzle);
      MemWrite8(m.regPclkPol, cfg.pclkPol);
      MemWrite8(m.regCspread, cfg.cspread);
      MemWrite8(m.regTouchMode, defs.op.tmodeContinuous);
      MemWrite16(m.regTouchRzthresh, cfg.touchRzthresh);
      MemWrite8(m.regVolPb, 0x00);
      MemWrite8(m.regVolSound, 0x00);
      MemWrite16(m.regSound, 0x6000);
      assert wire == w0 + WriteTxn(m.regSwizzle, [cfg.swizzle]) + WriteTxn(m.regPclkPol, [cfg.pclkPol])
         + WriteTxn(m.regCspread, [cfg.cspread]) + WriteTxn(m.regTouchMode, [defs.op.tmodeContinuous])
         + WriteTxn(m.regTouchRzthresh, LE16(cfg.touchRzthresh)) + WriteTxn(m.regVolPb, [0])
         + WriteTxn(m.regVolSound, [0]) + WriteTxn(m.regSound, LE16(0x6000));
      OptionsWire(defs, board, cfg, w0);
    }

    /** The panel timing, touch and audio registers, starting with the backlight off:
        setup writes 0 to 18. */
    method WriteTiming(board: Board, cfg: DisplayConfig)
      requires RamFits(defs)
      modifies this`cs, this`wire
      ensures wire == Writes(defs, board, cfg, old(wire), 0, 19)
    {
      ghost var w0 := wire;
      WriteHorizontal(board, cfg);
      WriteVertical(board, cfg);
      WriteOptions(board, cfg);
      WritesCompose(defs, board, cfg, w0, 0, 6, 11);
      WritesCompose(defs, board, cfg, w0, 0, 11, 19);
    }

    /** The start-up display list and the swap request: setup writes 19 to 22. */
    method WriteDisplayList(board: Board, cfg: DisplayConfig)
      requires RamFits(defs)
      modifies this`cs, this`wire
      ensures wire == Writes(defs, board, cfg, old(wire), 19, 23)
    {
      var m, op := defs.mem, defs.op;
      ghost var w0 := wire;
      MemWrite32(m.ramDl, op.dlClearRgb);
      MemWrite32(m.ramDl + 4, op.dlClearAll);
      MemWrite32(m.ramDl + 8, op.dlDisplay);
      MemWrite32(m.regDlswap, op.dlswapFrame);
      assert wire == w0 + WriteTxn(m.ramDl, LE32(op.dlClearRgb)) + WriteTxn(m.ramDl + 4, LE32(op.dlClearAll))
         + WriteTxn(m.ramDl + 8, LE32(op.dlDisplay)) + WriteTxn(m.regDlswap, LE32(op.dlswapFrame));
      DisplayListWire(defs, board, cfg, w0);
    }

    /** The panel enable, the pixel clock and the backlight: setup writes 23 to 25. */
    method WriteStart(board: Board, cfg: DisplayConfig)
      requires RamFits(defs)
      modifies this`cs, this`wire
      ensures !cs && wire == Writes(defs, board, cfg, old(wire), 23, SetupCount)
    {
      var m := defs.mem;
      var duty: byte := if board.adam101 then 0x60 else 0x20;
      ghost var w0 := wire;
      MemWrite8(m.regGpio, 0x80);
      MemWrite8(m.regPclk, cfg.pclk);
      MemWrite8(m.regPwmDuty, duty);
      assert wire == w0 + WriteTxn(m.regGpio, [0x80]) + WriteTxn(m.regPclk, [cfg.pclk]) + WriteTxn(m.regPwmDuty, [duty]);
      StartWire(defs, board, cfg, w0);
    }

    /** The display setup of `EVE_init`: all the setup writes, in order. */
    method DisplaySetup(board: Board, cfg: DisplayConfig)
      requires RamFits(defs)
      modifies this`cs, this`wire
      ensures !cs && wire == old(wire) + SetupTrace(defs, board, cfg)
    {
      ghost var w0 := wire;
      WriteTiming(board, cfg);
      WriteDisplayList(board, cfg);
      WriteStart(board, cfg);
      WritesCompose(defs, board, cfg, w0, 0, 19, 23);
      WritesCompose(defs, board, cfg, w0, 0, 23, SetupCount);
      WritesFrom(defs, board, cfg, w0, 0, SetupCount);
    }

    /** What `EVE_init` does once the chip has answered: the touch setup, the display
        setup, a 2 ms delay, the wait for the coprocessor and the re-read of the offset. */
    method Configure(board: Board, cfg: DisplayConfig, fuel: nat) returns (settled: bool)
      requires Valid() && ValidBoard(board)
      modifies this`cs, this`wire, this`received, this`cmdOffset
      ensures var k := SyncAt(miso, board, old(cmdOffset), old(received), fuel);
        cmdOffset == Value16(miso, k) && received == k + 2 && !cs
      ensures settled == InitSettles(miso, board, old(cmdOffset), old(received), fuel)
      ensures SetupWire(defs, miso, board, cfg, old(cmdOffset), old(received), fuel, old(wire), wire)
    {
      var touched := TouchSetup(board, fuel);
      var idle := SetupThenSettle(board, cfg, fuel);
      settled := touched && idle;
    }

    /** The display setup, then the end of `EVE_init`. */
    method SetupThenSettle(board: Board, cfg: DisplayConfig, fuel: nat) returns (idle: bool)
      requires Valid()
      modifies this`cs, this`wire, this`received, this`cmdOffset
      ensures var k := WaitEnd(miso, old(cmdOffset), old(received), fuel);
        cmdOffset == Value16(miso, k) && received == k + 2 && !cs
      ensures idle == Wait(miso, old(cmdOffset), old(received), fuel).ok
      ensures wire == old(wire) + SetupTrace(defs, board, cfg) + [Delay(2)] + WaitTrace(defs, miso, old(cmdOffset), old(received), fuel)
        + ReadTxn(defs.mem.regCmdWrite, Got16(miso, WaitEnd(miso, old(cmdOffset), old(received), fuel)))
    {
      DisplaySetup(board, cfg);
      idle := Settle(fuel);
    }

    /** The end of `EVE_init`: a 2 ms delay, the wait for the coprocessor, the re-read
        of REG_CMD_WRITE; `idle` tells whether the wait found the coprocessor caught up. */
    method Settle(fuel: nat) returns (idle: bool)
      requires Valid()
      modifies this`cs, this`wire, this`received, this`cmdOffset
      ensures var k := WaitEnd(miso, old(cmdOffset), old(received), fuel);
        cmdOffset == Value16(miso, k) && received == k + 2 && !cs
      ensures idle == Wait(miso, old(cmdOffset), old(received), fuel).ok
      ensures wire == old(wire) + [Delay(2)] + WaitTrace(defs, miso, old(cmdOffset), old(received), fuel)
        + ReadTxn(defs.mem.regCmdWrite, Got16(miso, WaitEnd(miso, old(cmdOffset), old(received), fuel)))
    {
      ghost var off0, rx0 := cmdOffset, received;
      DelayMs(2);
      idle := WaitIdle(fuel);
      WaitEventsAreTrace(off0, rx0, fuel);
      GetCmdOffset();
    }

    /** `EVE_init`: power up, poll REG_ID for the chip ID, and once it is there set the
        chip and the panel up; true exactly when the chip answered. `settled` tells whether
        every wait on the way found the coprocessor caught up within `fuel` polls. */
    method Init(board: Board, cfg: DisplayConfig, fuel: nat) returns (ok: bool, settled: bool)
      requires Valid() && ValidBoard(board)
      modifies this`cs, this`wire, this`received, this`cmdOffset
      ensures var r := BringUp.Init(miso, board, old(cmdOffset), old(received), fuel);
        ok == r.ok && settled == r.settled && cmdOffset == r.off && received == old(received) + r.count && !cs
      ensures InitWire(defs, miso, board, cfg, old(cmdOffset), old(received), fuel, old(wire), wire)
    {
      ghost var w0, off0, rx0 := wire, cmdOffset, received;
      PowerUp(board);
      ghost var w1 := wire;
      var found, chipid := PollRegister(defs.mem.regId, UntilEquals(ChipId), IdPollLimit);
      ghost var w2, rx2 := wire, received;
      if !found {
        InitNoChipId(defs, miso, board, cfg, off0, rx0, fuel, w0, w1, w2, rx2);
        return false, true;
      }
      settled := Configure(board, cfg, fuel);
      InitChipFound(defs, miso, board, cfg, off0, rx0, fuel, w0, w1, w2, rx2, wire, cmdOffset, received, settled);
      ok := true;
    }
  }
}
