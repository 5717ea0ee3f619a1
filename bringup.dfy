/** Chip bring-up: the bounded register polls, `EVE_init` and `EVE_init_flash`. Each is
    a function giving the outcome (success, offset, bytes received) and a function giving
    the bus trace, both over the chip's answers `miso`. */
module BringUp {
  import opened Bytes
  import opened Wire
  import opened Fifo
  import opened Chip
  import opened Execute

  /** The value REG_ID reads once the chip is up. */
  const ChipId: byte := 0x7C
  /** `EVE_init` gives up when its timeout counter exceeds 400. */
  const IdPollLimit := 400
  /** `EVE_init_flash` gives up when its timeout counter exceeds 100. */
  const FlashPollLimit := 100

  /** What ends a poll loop: REG_ID reading the chip ID, REG_FLASH_STATUS leaving 0. */
  datatype Until = UntilEquals(want: byte) | UntilNonzero

  predicate Accepts(u: Until, v: byte)
  {
    match u
    case UntilEquals(w) => v == w
    case UntilNonzero => v != 0
  }

  /** Outcome of a poll: whether an acceptable value came, the last value read, and the
      number of 8-bit reads made. */
  datatype Polled = Polled(found: bool, value: byte, count: nat)

  /** The poll loop from the state where `v` has been read, the timeout counter is `t`
      and the next read gets `miso(rx)`: read, wait 1 ms, count, give up past `limit`. */
  function PollFrom(miso: nat -> byte, rx: nat, u: Until, limit: nat, t: nat, v: byte): Polled
    requires t <= limit
    decreases limit - t
  {
    if Accepts(u, v) then Polled(true, v, 0)
    else
      var v' := miso(rx);
      if t + 1 > limit then Polled(false, v', 1)
      else
        var r := PollFrom(miso, rx + 1, u, limit, t + 1, v');
        Polled(r.found, r.value, r.count + 1)
  }

  /** Bus activity of `n` poll-loop passes from receive index `rx`, pass `i` producing
      `ev(rx + i)`. */
  function Repeat(ev: nat -> seq<Signal>, rx: nat, n: nat): seq<Signal>
    decreases n
  {
    if n == 0 then [] else Repeat(ev, rx, n - 1) + ev(rx + n - 1)
  }

  /** One pass of a poll loop: an 8-bit read of `reg`, then a 1 ms delay. */
  function RetryEvent(reg: u32, miso: nat -> byte): nat -> seq<Signal>
  {
    (r: nat) => ReadTxn(reg, [miso(r)]) + [Delay(1)]
  }

  /** One read, then the loop with the counter at zero. */
  function Poll(miso: nat -> byte, rx: nat, u: Until, limit: nat): Polled
  {
    var r := PollFrom(miso, rx + 1, u, limit, 0, miso(rx));
    Polled(r.found, r.value, r.count + 1)
  }

  /** How many bytes have been received once the poll is over. */
  function PollEnd(miso: nat -> byte, rx: nat, u: Until, limit: nat): nat
  {
    rx + Poll(miso, rx, u, limit).count
  }

  /** `n` retries of the loop body. */
  function Retries(reg: u32, miso: nat -> byte, rx: nat, n: nat): seq<Signal>
  {
    Repeat(RetryEvent(reg, miso), rx, n)
  }

  /** Bus activity of a poll that made `n` reads. */
  function PollTrace(reg: u32, miso: nat -> byte, rx: nat, n: nat): seq<Signal>
    requires n >= 1
  {
    ReadTxn(reg, [miso(rx)]) + Retries(reg, miso, rx + 1, n - 1)
  }

  lemma {:induction false} PollFromShape(miso: nat -> byte, rx: nat, u: Until, limit: nat, t: nat, v: byte)
    requires t <= limit
    ensures var r := PollFrom(miso, rx, u, limit, t, v);
      && (!r.found ==> r.count == limit - t + 1 && !Accepts(u, v) && r.value == miso(rx + limit - t)
                       && forall j :: rx <= j < rx + (limit - t) ==> !Accepts(u, miso(j)))
      && (r.found ==> r.count <= limit - t && Accepts(u, r.value)
                      && (r.count == 0 ==> r.value == v)
                      && (r.count > 0 ==> r.value == miso(rx + r.count - 1) && !Accepts(u, v)
                                          && forall j :: rx <= j < rx + r.count - 1 ==> !Accepts(u, miso(j))))
    decreases limit - t
  {
    if !Accepts(u, v) && t + 1 <= limit {
      PollFromShape(miso, rx + 1, u, limit, t + 1, miso(rx));
    }
  }

  /** A poll succeeds exactly when one of the first `limit + 1` reads is acceptable; it
      then stops at the first such read, whose value it returns. When it fails it has
      made `limit + 2` reads. */
  lemma PollOutcome(miso: nat -> byte, rx: nat, u: Until, limit: nat)
    ensures var p := Poll(miso, rx, u, limit);
      && 1 <= p.count <= limit + 2
      && (p.found <==> exists j :: rx <= j <= rx + limit && Accepts(u, miso(j)))
      && (p.found ==> p.value == miso(rx + p.count - 1) && Accepts(u, p.value)
                      && forall j :: rx <= j < rx + p.count - 1 ==> !Accepts(u, miso(j)))
      && (!p.found ==> p.count == limit + 2)
  {
    PollFromShape(miso, rx + 1, u, limit, 0, miso(rx));
    var p := Poll(miso, rx, u, limit);
    if !p.found {
      forall j | rx <= j <= rx + limit
        ensures !Accepts(u, miso(j))
      {
        if j > rx {
          assert rx + 1 <= j < rx + 1 + limit;
        }
      }
    } else {
      assert Accepts(u, miso(rx + p.count - 1));
    }
  }

  /** The loop stops at the first acceptable read, within the limit; the poll then
      reports that value after `t + 1` reads. */
  lemma PollStopsAt(miso: nat -> byte, rx: nat, u: Until, limit: nat, t: nat)
    requires t <= limit && Accepts(u, miso(rx + t))
    requires forall j :: rx <= j < rx + t ==> !Accepts(u, miso(j))
    ensures var p := Poll(miso, rx, u, limit);
      p.found && p.value == miso(rx + t) && p.count == t + 1
  {
    PollOutcome(miso, rx, u, limit);
    var p := Poll(miso, rx, u, limit);
    assert p.found && miso(rx + p.count - 1) == p.value;
  }

  /** With no acceptable value among the first `limit + 1` reads, the poll gives up after
      one read more and reports that last value. */
  lemma PollGivesUp(miso: nat -> byte, rx: nat, u: Until, limit: nat)
    requires forall j :: rx <= j <= rx + limit ==> !Accepts(u, miso(j))
    ensures var p := Poll(miso, rx, u, limit);
      !p.found && p.value == miso(rx + limit + 1) && p.count == limit + 2
  {
    PollOutcome(miso, rx, u, limit);
    PollFromShape(miso, rx + 1, u, limit, 0, miso(rx));
  }

  /** Power-cycle, optional core reset, clock source, ACTIVE. */
  function Prelude(defs: ChipDefs, board: Board): seq<Signal>
  {
    [PowerDown(true), Delay(6), PowerDown(false), Delay(21)]
      + (if board.coreReset then HostCmdTxn(defs.op.hostCoreRst) else [])
      + HostCmdTxn(if board.hasCrystal then defs.op.hostClkExt else defs.op.hostClkInt)
      + HostCmdTxn(defs.op.hostActive)
  }

  /** A register write of `EVE_memWrite8`, `EVE_memWrite16` or `EVE_memWrite32`. */
  datatype RegWrite = Write8(addr: u32, b: byte) | Write16(addr: u32, h: u16) | Write32(addr: u32, x: u32)

  /** The data bytes of a register write, low byte first. */
  function WriteData(r: RegWrite): seq<byte>
  {
    match r
    case Write8(_, b) => [b]
    case Write16(_, h) => LE16(h)
    case Write32(_, x) => LE32(x)
  }

  /** The number of register writes in the display setup of `EVE_init`. */
  const SetupCount := 26

  /** The `k`th register write of the display setup `EVE_init` performs once the chip has
      answered: the backlight off (0), the panel timing (1-10), pin order, clock edge and
      spread (11-13), touch (14-15), audio muted (16-18), the three-word start-up display
      list and the swap request (19-22), then the panel enable, the pixel clock and the
      backlight at 25% (23-25). The ADAM101 module takes inverted backlight values. */
  function SetupWrite(defs: ChipDefs, board: Board, cfg: DisplayConfig, k: nat): RegWrite
    requires RamFits(defs) && k < SetupCount
  {
    var m, op := defs.mem, defs.op;
    match k
    case 0 => Write8(m.regPwmDuty, if board.adam101 then 0x80 else 0)
    case 1 => Write16(m.regHsize, cfg.hsize)
    case 2 => Write16(m.regHcycle, cfg.hcycle)
    case 3 => Write16(m.regHoffset, cfg.hoffset)
    case 4 => Write16(m.regHsync0, cfg.hsync0)
    case 5 => Write16(m.regHsync1, cfg.hsync1)
    case 6 => Write16(m.regVsize, cfg.vsize)
    case 7 => Write16(m.regVcycle, cfg.vcycle)
    case 8 => Write16(m.regVoffset, cfg.voffset)
    case 9 => Write16(m.regVsync0, cfg.vsync0)
    case 10 => Write16(m.regVsync1, cfg.vsync1)
    case 11 => Write8(m.regSwizzle, cfg.swizzle)
    case 12 => Write8(m.regPclkPol, cfg.pclkPol)
    case 13 => Write8(m.regCspread, cfg.cspread)
    case 14 => Write8(m.regTouchMode, op.tmodeContinuous)
    case 15 => Write16(m.regTouchRzthresh, cfg.touchRzthresh)
    case 16 => Write8(m.regVolPb, 0)
    case 17 => Write8(m.regVolSound, 0)
    case 18 => Write16(m.regSound, 0x6000)
    case 19 => Write32(m.ramDl, op.dlClearRgb)
    case 20 => Write32(m.ramDl + 4, op.dlClearAll)
    case 21 => Write32(m.ramDl + 8, op.dlDisplay)
    case 22 => Write32(m.regDlswap, op.dlswapFrame)
    case 23 => Write8(m.regGpio, 0x80)
    case 24 => Write8(m.regPclk, cfg.pclk)
    case _ => Write8(m.regPwmDuty, if board.adam101 then 0x60 else 0x20)
  }

  /** The wire `w` followed by setup writes `lo` up to, not including, `hi`. (The
      measure names `w` as well so that literal bounds do not unroll all the writes.) */
  function Writes(defs: ChipDefs, board: Board, cfg: DisplayConfig, w: seq<Signal>, lo: nat, hi: nat): seq<Signal>
    requires RamFits(defs)
    requires lo <= hi <= SetupCount
    decreases hi, w
  {
    if hi == lo then w
    else
      var r := SetupWrite(defs, board, cfg, hi - 1);
      Writes(defs, board, cfg, w, lo, hi - 1) + WriteTxn(r.addr, WriteData(r))
  }

  /** Writing `lo` to `mid` and then `mid` to `hi` is writing `lo` to `hi`. */
  lemma {:induction false} WritesCompose(defs: ChipDefs, board: Board, cfg: DisplayConfig, w: seq<Signal>, lo: nat, mid: nat, hi: nat)
    requires RamFits(defs)
    requires lo <= mid <= hi <= SetupCount
    ensures Writes(defs, board, cfg, Writes(defs, board, cfg, w, lo, mid), mid, hi) == Writes(defs, board, cfg, w, lo, hi)
    decreases hi
  {
    var w1 := Writes(defs, board, cfg, w, lo, mid);
    if hi > mid {
      var r := SetupWrite(defs, board, cfg, hi - 1);
      WritesCompose(defs, board, cfg, w, lo, mid, hi - 1);
      assert Writes(defs, board, cfg, w1, mid, hi) == Writes(defs, board, cfg, w1, mid, hi - 1) + WriteTxn(r.addr, WriteData(r));
    }
  }

  /** Setup write `k` is the transaction that follows writes `lo` to `k`. */
  lemma WritesStep(defs: ChipDefs, board: Board, cfg: DisplayConfig, w0: seq<Signal>, lo: nat, k: nat, w: seq<Signal>, r: RegWrite)
    requires RamFits(defs) && lo <= k < SetupCount
    requires w == Writes(defs, board, cfg, w0, lo, k)
    requires SetupWrite(defs, board, cfg, k) == r
    ensures w + WriteTxn(r.addr, WriteData(r)) == Writes(defs, board, cfg, w0, lo, k + 1)
  {
  }

  /** Writes 0-5: the backlight off and the horizontal timing. */
  lemma HorizontalWire(defs: ChipDefs, board: Board, cfg: DisplayConfig, w0: seq<Signal>)
    requires RamFits(defs)
    ensures var m := defs.mem;
      Writes(defs, board, cfg, w0, 0, 6)
      == w0 + WriteTxn(m.regPwmDuty, [if board.adam101 then 0x80 else 0])
         + WriteTxn(m.regHsize, LE16(cfg.hsize)) + WriteTxn(m.regHcycle, LE16(cfg.hcycle))
         + WriteTxn(m.regHoffset, LE16(cfg.hoffset)) + WriteTxn(m.regHsync0, LE16(cfg.hsync0))
         + WriteTxn(m.regHsync1, LE16(cfg.hsync1))
  {
    var m := defs.mem;
    var duty: byte := if board.adam101 then 0x80 else 0;
    WritesStep(defs, board, cfg, w0, 0, 0, w0, Write8(m.regPwmDuty, duty));
    var w1 := w0 + WriteTxn(m.regPwmDuty, [duty]);
    WritesStep(defs, board, cfg, w0, 0, 1, w1, Write16(m.regHsize, cfg.hsize));
    var w2 := w1 + WriteTxn(m.regHsize, LE16(cfg.hsize));
    WritesStep(defs, board, cfg, w0, 0, 2, w2, Write16(m.regHcycle, cfg.hcycle));
    var w3 := w2 + WriteTxn(m.regHcycle, LE16(cfg.hcycle));
    WritesStep(defs, board, cfg, w0, 0, 3, w3, Write16(m.regHoffset, cfg.hoffset));
    var w4 := w3 + WriteTxn(m.regHoffset, LE16(cfg.hoffset));
    WritesStep(defs, board, cfg, w0, 0, 4, w4, Write16(m.regHsync0, cfg.hsync0));
    var w5 := w4 + WriteTxn(m.regHsync0, LE16(cfg.hsync0));
    WritesStep(defs, board, cfg, w0, 0, 5, w5, Write16(m.regHsync1, cfg.hsync1));
  }

  /** Writes 6-10: the vertical timing. */
  lemma VerticalWire(defs: ChipDefs, board: Board, cfg: DisplayConfig, w0: seq<Signal>)
    requires RamFits(defs)
    ensures var m := defs.mem;
      Writes(defs, board, cfg, w0, 6, 11)
      == w0 + WriteTxn(m.regVsize, LE16(cfg.vsize)) + WriteTxn(m.regVcycle, LE16(cfg.vcycle))
         + WriteTxn(m.regVoffset, LE16(cfg.voffset)) + WriteTxn(m.regVsync0, LE16(cfg.vsync0))
         + WriteTxn(m.regVsync1, LE16(cfg.vsync1))
  {
    var m := defs.mem;
    WritesStep(defs, board, cfg, w0, 6, 6, w0, Write16(m.regVsize, cfg.vsize));
    var w1 := w0 + WriteTxn(m.regVsize, LE16(cfg.vsize));
    WritesStep(defs, board, cfg, w0, 6, 7, w1, Write16(m.regVcycle, cfg.vcycle));
    var w2 := w1 + WriteTxn(m.regVcycle, LE16(cfg.vcycle));
    WritesStep(defs, board, cfg, w0, 6, 8, w2, Write16(m.regVoffset, cfg.voffset));
    var w3 := w2 + WriteTxn(m.regVoffset, LE16(cfg.voffset));
    WritesStep(defs, board, cfg, w0, 6, 9, w3, Write16(m.regVsync0, cfg.vsync0));
    var w4 := w3 + WriteTxn(m.regVsync0, LE16(cfg.vsync0));
    WritesStep(defs, board, cfg, w0, 6, 10, w4, Write16(m.regVsync1, cfg.vsync1));
  }

  /** Writes 11-13: pin order, clock edge and spread. */
  lemma PanelWire(defs: ChipDefs, board: Board, cfg: DisplayConfig, w0: seq<Signal>)
    requires RamFits(defs)
    ensures var m := defs.mem;
      Writes(defs, board, cfg, w0, 11, 14)
      == w0 + WriteTxn(m.regSwizzle, [cfg.swizzle]) + WriteTxn(m.regPclkPol, [cfg.pclkPol])
         + WriteTxn(m.regCspread, [cfg.cspread])
  {
    var m := defs.mem;
    WritesStep(defs, board, cfg, w0, 11, 11, w0, Write8(m.regSwizzle, cfg.swizzle));
    var w1 := w0 + WriteTxn(m.regSwizzle, [cfg.swizzle]);
    WritesStep(defs, board, cfg, w0, 11, 12, w1, Write8(m.regPclkPol, cfg.pclkPol));
    var w2 := w1 + WriteTxn(m.regPclkPol, [cfg.pclkPol]);
    WritesStep(defs, board, cfg, w0, 11, 13, w2, Write8(m.regCspread, cfg.cspread));
  }

  /** Writes 14-18: touch mode and threshold, audio muted. */
  lemma TouchAudioWire(defs: ChipDefs, board: Board, cfg: DisplayConfig, w0: seq<Signal>)
    requires RamFits(defs)
    ensures var m := defs.mem;
      Writes(defs, board, cfg, w0, 14, 19)
      == w0 + WriteTxn(m.regTouchMode, [defs.op.tmodeContinuous])
         + WriteTxn(m.regTouchRzthresh, LE16(cfg.touchRzthresh)) + WriteTxn(m.regVolPb, [0])
         + WriteTxn(m.regVolSound, [0]) + WriteTxn(m.regSound, LE16(0x6000))
  {
    var m := defs.mem;
    WritesStep(defs, board, cfg, w0, 14, 14, w0, Write8(m.regTouchMode, defs.op.tmodeContinuous));
    var w1 := w0 + WriteTxn(m.regTouchMode, [defs.op.tmodeContinuous]);
    WritesStep(defs, board, cfg, w0, 14, 15, w1, Write16(m.regTouchRzthresh, cfg.touchRzthresh));
    var w2 := w1 + WriteTxn(m.regTouchRzthresh, LE16(cfg.touchRzthresh));
    WritesStep(defs, board, cfg, w0, 14, 16, w2, Write8(m.regVolPb, 0));
    var w3 := w2 + WriteTxn(m.regVolPb, [0]);
    WritesStep(defs, board, cfg, w0, 14, 17, w3, Write8(m.regVolSound, 0));
    var w4 := w3 + WriteTxn(m.regVolSound, [0]);
    WritesStep(defs, board, cfg, w0, 14, 18, w4, Write16(m.regSound, 0x6000));
  }

  /** Writes 11-18: pin order, clock edge, spread, touch mode and threshold, audio muted. */
  lemma OptionsWire(defs: ChipDefs, board: Board, cfg: DisplayConfig, w0: seq<Signal>)
    requires RamFits(defs)
    ensures var m := defs.mem;
      Writes(defs, board, cfg, w0, 11, 19)
      == w0 + WriteTxn(m.regSwizzle, [cfg.swizzle]) + WriteTxn(m.regPclkPol, [cfg.pclkPol])
         + WriteTxn(m.regCspread, [cfg.cspread]) + WriteTxn(m.regTouchMode, [defs.op.tmodeContinuous])
         + WriteTxn(m.regTouchRzthresh, LE16(cfg.touchRzthresh)) + WriteTxn(m.regVolPb, [0])
         + WriteTxn(m.regVolSound, [0]) + WriteTxn(m.regSound, LE16(0x6000))
  {
    PanelWire(defs, board, cfg, w0);
    TouchAudioWire(defs, board, cfg, Writes(defs, board, cfg, w0, 11, 14));
    WritesCompose(defs, board, cfg, w0, 11, 14, 19);
  }

  /** Writes 19-22: the start-up display list and the swap request. */
  lemma DisplayListWire(defs: ChipDefs, board: Board, cfg: DisplayConfig, w0: seq<Signal>)
    requires RamFits(defs)
    ensures var m, op := defs.mem, defs.op;
      Writes(defs, board, cfg, w0, 19, 23)
      == w0 + WriteTxn(m.ramDl, LE32(op.dlClearRgb)) + WriteTxn(m.ramDl + 4, LE32(op.dlClearAll))
         + WriteTxn(m.ramDl + 8, LE32(op.dlDisplay)) + WriteTxn(m.regDlswap, LE32(op.dlswapFrame))
  {
    var m, op := defs.mem, defs.op;
    WritesStep(defs, board, cfg, w0, 19, 19, w0, Write32(m.ramDl, op.dlClearRgb));
    var w1 := w0 + WriteTxn(m.ramDl, LE32(op.dlClearRgb));
    WritesStep(defs, board, cfg, w0, 19, 20, w1, Write32(m.ramDl + 4, op.dlClearAll));
    var w2 := w1 + WriteTxn(m.ramDl + 4, LE32(op.dlClearAll));
    WritesStep(defs, board, cfg, w0, 19, 21, w2, Write32(m.ramDl + 8, op.dlDisplay));
    var w3 := w2 + WriteTxn(m.ramDl + 8, LE32(op.dlDisplay));
    WritesStep(defs, board, cfg, w0, 19, 22, w3, Write32(m.regDlswap, op.dlswapFrame));
  }

  /** Writes 23-25: the panel enable, the pixel clock and the backlight. */
  lemma StartWire(defs: ChipDefs, board: Board, cfg: DisplayConfig, w0: seq<Signal>)
    requires RamFits(defs)
    ensures var m := defs.mem;
      Writes(defs, board, cfg, w0, 23, SetupCount)
      == w0 + WriteTxn(m.regGpio, [0x80]) + WriteTxn(m.regPclk, [cfg.pclk])
         + WriteTxn(m.regPwmDuty, [if board.adam101 then 0x60 else 0x20])
  {
    var m := defs.mem;
    var duty: byte := if board.adam101 then 0x60 else 0x20;
    WritesStep(defs, board, cfg, w0, 23, 23, w0, Write8(m.regGpio, 0x80));
    var w1 := w0 + WriteTxn(m.regGpio, [0x80]);
    WritesStep(defs, board, cfg, w0, 23, 24, w1, Write8(m.regPclk, cfg.pclk));
    var w2 := w1 + WriteTxn(m.regPclk, [cfg.pclk]);
    WritesStep(defs, board, cfg, w0, 23, 25, w2, Write8(m.regPwmDuty, duty));
  }

  /** The bus traffic of the whole display setup on its own. */
  function SetupTrace(defs: ChipDefs, board: Board, cfg: DisplayConfig): seq<Signal>
    requires RamFits(defs)
  {
    Writes(defs, board, cfg, [], 0, SetupCount)
  }

  /** Setup writes add to whatever the wire holds already. */
  lemma {:induction false} WritesFrom(defs: ChipDefs, board: Board, cfg: DisplayConfig, w: seq<Signal>, lo: nat, hi: nat)
    requires RamFits(defs)
    requires lo <= hi <= SetupCount
    ensures Writes(defs, board, cfg, w, lo, hi) == w + Writes(defs, board, cfg, [], lo, hi)
    decreases hi
  {
    if hi == lo {
      assert w + [] == w;
    } else {
      var r := SetupWrite(defs, board, cfg, hi - 1);
      WritesFrom(defs, board, cfg, w, lo, hi - 1);
      AppendAssoc(w, Writes(defs, board, cfg, [], lo, hi - 1), WriteTxn(r.addr, WriteData(r)));
    }
  }

  /** The first 24 setup writes go to the registers of the chip header from REG_PWM_DUTY
      to REG_GPIO, to the display-list words, and never to REG_PCLK: the pixel clock is
      started only by write 24, the one write to REG_PCLK of the whole setup. */
  lemma PclkWrittenOnce(defs: ChipDefs, board: Board, cfg: DisplayConfig)
    requires ValidDefs(defs)
    ensures SetupWrite(defs, board, cfg, 24) == Write8(defs.mem.regPclk, cfg.pclk)
    ensures forall k :: 0 <= k < SetupCount && k != 24 ==> SetupWrite(defs, board, cfg, k).addr != defs.mem.regPclk
  {
    var m, r := defs.mem, Registers(defs.mem);
    assert r[12] == m.regPwmDuty && r[31] == m.regDlswap && r[32] == m.regGpio && r[33] == m.regPclk;
    assert m.regPclk < m.ramDl || m.ramDl + 12 <= m.regPclk;
    forall k | 0 <= k < SetupCount && k != 24
      ensures SetupWrite(defs, board, cfg, k).addr != m.regPclk
    {
      if k < 19 {
        assert SetupWrite(defs, board, cfg, k).addr == r[12 + k];
      }
    }
  }

  /** Writes 0-22 are writes 0-18 followed by the display list and the swap request. */
  lemma DisplayListAfterOptions(defs: ChipDefs, board: Board, cfg: DisplayConfig, w0: seq<Signal>)
    requires RamFits(defs)
    ensures var m, op := defs.mem, defs.op;
      Writes(defs, board, cfg, w0, 0, 23)
      == Writes(defs, board, cfg, w0, 0, 19)
         + WriteTxn(m.ramDl, LE32(op.dlClearRgb)) + WriteTxn(m.ramDl + 4, LE32(op.dlClearAll))
         + WriteTxn(m.ramDl + 8, LE32(op.dlDisplay)) + WriteTxn(m.regDlswap, LE32(op.dlswapFrame))
  {
    DisplayListWire(defs, board, cfg, Writes(defs, board, cfg, w0, 0, 19));
    WritesCompose(defs, board, cfg, w0, 0, 19, 23);
  }

  /** All the setup writes are writes 0-22 followed by the panel enable, the pixel clock
      and the backlight. */
  lemma StartAfterDisplayList(defs: ChipDefs, board: Board, cfg: DisplayConfig, w0: seq<Signal>)
    requires RamFits(defs)
    ensures var m := defs.mem;
      Writes(defs, board, cfg, w0, 0, SetupCount)
      == Writes(defs, board, cfg, w0, 0, 23)
         + WriteTxn(m.regGpio, [0x80]) + WriteTxn(m.regPclk, [cfg.pclk])
         + WriteTxn(m.regPwmDuty, [if board.adam101 then 0x60 else 0x20])
  {
    StartWire(defs, board, cfg, Writes(defs, board, cfg, w0, 0, 23));
    WritesCompose(defs, board, cfg, w0, 0, 23, SetupCount);
  }

  /** On the wire, the setup is the timing, touch and audio writes, then the three
      display-list words and the swap request, then the panel enable, and only then the
      pixel clock, followed by the backlight. */
  lemma DisplayListBeforePclk(defs: ChipDefs, board: Board, cfg: DisplayConfig, w0: seq<Signal>)
    requires RamFits(defs)
    ensures var m, op := defs.mem, defs.op;
      Writes(defs, board, cfg, w0, 0, SetupCount)
      == Writes(defs, board, cfg, w0, 0, 19)
         + WriteTxn(m.ramDl, LE32(op.dlClearRgb)) + WriteTxn(m.ramDl + 4, LE32(op.dlClearAll))
         + WriteTxn(m.ramDl + 8, LE32(op.dlDisplay)) + WriteTxn(m.regDlswap, LE32(op.dlswapFrame))
         + WriteTxn(m.regGpio, [0x80]) + WriteTxn(m.regPclk, [cfg.pclk])
         + WriteTxn(m.regPwmDuty, [if board.adam101 then 0x60 else 0x20])
  {
    DisplayListAfterOptions(defs, board, cfg, w0);
    StartAfterDisplayList(defs, board, cfg, w0);
  }

  /** The writes that finish the GT911 patch on FT81x parts (application note AN_336). */
  function AfterPatch(defs: ChipDefs): seq<Signal>
  {
    var m := defs.mem;
    WriteTxn(m.regTouchOversample, [0x0f])
      + WriteTxn(m.regTouchConfig, LE16(0x05D0))
      + WriteTxn(m.regGpioxDir, LE16(0x8008))
      + [Delay(1)]
      + WriteTxn(m.regCpuReset, [0])
      + [Delay(56)]
      + WriteTxn(m.regGpioxDir, LE16(0x8000))
  }

  /** Outcome of a bring-up step: success, the host's offset, bytes received, and
      whether every `while (EVE_busy());` of the step found the coprocessor caught up
      within its poll budget. Only a settled run is one the driver returns from: where a
      wait ran out, the driver would still be polling. */
  datatype Outcome = Outcome(ok: bool, off: u16, count: nat, settled: bool)

  /** The touch-controller setup: nothing, one register write on BT81x, or on FT81x a
      re-read of REG_CMD_WRITE, the patch as a block write, and an execute. */
  function Touch(miso: nat -> byte, board: Board, off: u16, rx: nat, fuel: nat): Outcome
  {
    if !board.hasGt911 || board.bt81x then Outcome(true, off, 0, true)
    else
      var off1 := Value16(miso, rx);
      var off2 := IncOffset(off1, FlashWriteAdvance(Gt911PatchLen));
      var w := Wait(miso, off2, rx + 2, fuel);
      Outcome(w.ok, w.off, 2 + 2 * w.polls, w.ok)
  }

  /** The wire `w` followed by the bus activity of the touch setup. */
  function AfterTouch(defs: ChipDefs, miso: nat -> byte, board: Board, w: seq<Signal>, rx: nat, fuel: nat): seq<Signal>
    requires RamFits(defs)
  {
    if !board.hasGt911 then w
    else if board.bt81x then w + WriteTxn(defs.mem.regTouchConfig, LE32(0x5d1))
    else
      var off1 := Value16(miso, rx);
      var off2 := IncOffset(off1, FlashWriteAdvance(Gt911PatchLen));
      w + ReadTxn(defs.mem.regCmdWrite, Got16(miso, rx))
        + ChunkWrite(defs, off1, board.gt911Patch)
        + StartTxn(defs, off2) + WaitTrace(defs, miso, off2, rx + 2, fuel)
        + AfterPatch(defs)
  }

  /** `EVE_init`: success is finding the chip ID; after setup the host waits for the
      coprocessor and re-reads its offset from REG_CMD_WRITE. */
  function Init(miso: nat -> byte, board: Board, off: u16, rx: nat, fuel: nat): Outcome
  {
    var p := Poll(miso, rx, UntilEquals(ChipId), IdPollLimit);
    if !p.found then Outcome(false, off, p.count, true)
    else
      var rx1 := PollEnd(miso, rx, UntilEquals(ChipId), IdPollLimit);
      var rx3 := SyncAt(miso, board, off, rx1, fuel);
      Outcome(true, Value16(miso, rx3), rx3 - rx + 2, InitSettles(miso, board, off, rx1, fuel))
  }

  /** Whether both waits after a successful ID poll that ended before `rx1` caught up:
      the execute of the touch patch and the final wait for the coprocessor. */
  function InitSettles(miso: nat -> byte, board: Board, off: u16, rx1: nat, fuel: nat): bool
  {
    var t := Touch(miso, board, off, rx1, fuel);
    t.settled && Wait(miso, t.off, TouchEnd(miso, board, off, rx1, fuel), fuel).ok
  }

  /** How many bytes have been received once the touch setup, started at `rx1`, is over. */
  function TouchEnd(miso: nat -> byte, board: Board, off: u16, rx1: nat, fuel: nat): nat
  {
    rx1 + Touch(miso, board, off, rx1, fuel).count
  }

  /** Where the closing read of REG_CMD_WRITE receives its two bytes, when the ID poll
      ended before `rx1`: after the touch setup and the wait for the coprocessor. */
  function SyncAt(miso: nat -> byte, board: Board, off: u16, rx1: nat, fuel: nat): (k: nat)
    ensures k >= rx1
  {
    WaitEnd(miso, Touch(miso, board, off, rx1, fuel).off, TouchEnd(miso, board, off, rx1, fuel), fuel)
  }

  /** The closing `EVE_get_cmdoffset` of a successful `EVE_init`. */
  function Resync(defs: ChipDefs, miso: nat -> byte, board: Board, off: u16, rx1: nat, fuel: nat): seq<Signal>
  {
    ReadTxn(defs.mem.regCmdWrite, Got16(miso, SyncAt(miso, board, off, rx1, fuel)))
  }

  /** Everything `EVE_init` puts on the bus, from `w0` to `w`: the power-up prelude and
      the REG_ID poll, then, once the chip has answered, the setup. */
  ghost predicate InitWire(defs: ChipDefs, miso: nat -> byte, board: Board, cfg: DisplayConfig, off: u16, rx: nat, fuel: nat,
                           w0: seq<Signal>, w: seq<Signal>)
    requires RamFits(defs)
  {
    var p := Poll(miso, rx, UntilEquals(ChipId), IdPollLimit);
    var polled := w0 + Prelude(defs, board) + PollTrace(defs.mem.regId, miso, rx, p.count);
    && (!p.found ==> w == polled)
    && (p.found ==> SetupWire(defs, miso, board, cfg, off, PollEnd(miso, rx, UntilEquals(ChipId), IdPollLimit), fuel, polled, w))
  }

  /** What `EVE_init` puts on the bus after a successful ID poll that ended before
      `rx1`, from `w1` to `w`: the touch setup, the display setup, a 2 ms delay, the
      wait for the coprocessor and the re-read of REG_CMD_WRITE. */
  ghost predicate SetupWire(defs: ChipDefs, miso: nat -> byte, board: Board, cfg: DisplayConfig, off: u16, rx1: nat, fuel: nat,
                            w1: seq<Signal>, w: seq<Signal>)
    requires RamFits(defs)
  {
    w == AfterTouch(defs, miso, board, w1, rx1, fuel)
           + SetupTrace(defs, board, cfg) + [Delay(2)]
           + WaitTrace(defs, miso, Touch(miso, board, off, rx1, fuel).off, TouchEnd(miso, board, off, rx1, fuel), fuel)
           + Resync(defs, miso, board, off, rx1, fuel)
  }

  /** The failing branch of `EVE_init` as the engine's method reaches it. */
  lemma InitNoChipId(defs: ChipDefs, miso: nat -> byte, board: Board, cfg: DisplayConfig, off: u16, rx: nat, fuel: nat,
                     w0: seq<Signal>, w1: seq<Signal>, w2: seq<Signal>, rx2: nat)
    requires RamFits(defs)
    requires w1 == w0 + Prelude(defs, board)
    requires var p := Poll(miso, rx, UntilEquals(ChipId), IdPollLimit);
      !p.found && rx2 == rx + p.count && w2 == w1 + PollTrace(defs.mem.regId, miso, rx, p.count)
    ensures var r := Init(miso, board, off, rx, fuel);
      !r.ok && r.settled && r.off == off && rx2 == rx + r.count
    ensures InitWire(defs, miso, board, cfg, off, rx, fuel, w0, w2)
  {
  }

  /** The outcome of the succeeding branch of `EVE_init`. */
  lemma InitFoundOutcome(miso: nat -> byte, board: Board, off: u16, rx: nat, fuel: nat, rx2: nat, off3: u16, rx3: nat,
                          settled: bool)
    requires var p := Poll(miso, rx, UntilEquals(ChipId), IdPollLimit); p.found && rx2 == rx + p.count
    requires var k := SyncAt(miso, board, off, rx2, fuel); off3 == Value16(miso, k) && rx3 == k + 2
    requires settled == InitSettles(miso, board, off, rx2, fuel)
    ensures var r := Init(miso, board, off, rx, fuel);
      r.ok && off3 == r.off && rx3 == rx + r.count && r.settled == settled
  {
  }

  /** The succeeding branch of `EVE_init` as the engine's method reaches it. */
  lemma InitChipFound(defs: ChipDefs, miso: nat -> byte, board: Board, cfg: DisplayConfig, off: u16, rx: nat, fuel: nat,
                      w0: seq<Signal>, w1: seq<Signal>, w2: seq<Signal>, rx2: nat, w3: seq<Signal>, off3: u16, rx3: nat,
                      settled: bool)
    requires RamFits(defs)
    requires w1 == w0 + Prelude(defs, board)
    requires var p := Poll(miso, rx, UntilEquals(ChipId), IdPollLimit);
      p.found && rx2 == rx + p.count && w2 == w1 + PollTrace(defs.mem.regId, miso, rx, p.count)
    requires var k := SyncAt(miso, board, off, rx2, fuel);
      off3 == Value16(miso, k) && rx3 == k + 2 && SetupWire(defs, miso, board, cfg, off, rx2, fuel, w2, w3)
    requires settled == InitSettles(miso, board, off, rx2, fuel)
    ensures var r := Init(miso, board, off, rx, fuel);
      r.ok && off3 == r.off && rx3 == rx + r.count && r.settled == settled
    ensures InitWire(defs, miso, board, cfg, off, rx, fuel, w0, w3)
  {
    InitFoundOutcome(miso, board, off, rx, fuel, rx2, off3, rx3, settled);
    assert rx2 == PollEnd(miso, rx, UntilEquals(ChipId), IdPollLimit);
  }

  /** `EVE_init` succeeds exactly when one of the reads of REG_ID its loop examines
      returns 0x7C; a failure is always a run the driver returns from, since it comes
      before any wait. */
  lemma InitSucceedsIff(miso: nat -> byte, board: Board, off: u16, rx: nat, fuel: nat)
    ensures Init(miso, board, off, rx, fuel).ok <==> exists j :: rx <= j <= rx + IdPollLimit && miso(j) == ChipId
    ensures !Init(miso, board, off, rx, fuel).ok ==> Init(miso, board, off, rx, fuel).settled
  {
    PollOutcome(miso, rx, UntilEquals(ChipId), IdPollLimit);
  }

  /** A success is settled exactly when the touch patch's execute (on FT81x with a GT911)
      and the final wait both found the coprocessor caught up; without any poll budget
      no success is settled, since the final wait always polls. */
  lemma InitSettledIff(miso: nat -> byte, board: Board, off: u16, rx: nat, fuel: nat)
    ensures var r, rx1 := Init(miso, board, off, rx, fuel), PollEnd(miso, rx, UntilEquals(ChipId), IdPollLimit);
      var t := Touch(miso, board, off, rx1, fuel);
      r.ok ==> (r.settled <==> (board.hasGt911 && !board.bt81x ==> t.ok) && Wait(miso, t.off, TouchEnd(miso, board, off, rx1, fuel), fuel).ok)
    ensures fuel == 0 ==> (Init(miso, board, off, rx, fuel).settled <==> !Init(miso, board, off, rx, fuel).ok)
  {
  }

  /** Without the chip ID, `EVE_init` fails after exactly 402 reads, leaves the offset
      alone, and does nothing on the bus after the power-up prelude but read REG_ID. */
  lemma InitFailsWithoutChipId(defs: ChipDefs, miso: nat -> byte, board: Board, cfg: DisplayConfig, off: u16, rx: nat, fuel: nat,
                               w0: seq<Signal>, w: seq<Signal>)
    requires RamFits(defs)
    requires forall j :: rx <= j <= rx + IdPollLimit ==> miso(j) != ChipId
    ensures var r := Init(miso, board, off, rx, fuel);
      !r.ok && r.off == off && r.count == IdPollLimit + 2
    ensures InitWire(defs, miso, board, cfg, off, rx, fuel, w0, w)
        <==> w == w0 + Prelude(defs, board) + PollTrace(defs.mem.regId, miso, rx, IdPollLimit + 2)
  {
    PollOutcome(miso, rx, UntilEquals(ChipId), IdPollLimit);
  }

  /** The closing read returns the offset `EVE_init` reports. */
  lemma ResyncReadsOffset(defs: ChipDefs, miso: nat -> byte, board: Board, off: u16, rx: nat, fuel: nat)
    requires Init(miso, board, off, rx, fuel).ok
    ensures Resync(defs, miso, board, off, PollEnd(miso, rx, UntilEquals(ChipId), IdPollLimit), fuel)
         == ReadTxn(defs.mem.regCmdWrite, LE16(Init(miso, board, off, rx, fuel).off))
  {
    var k := SyncAt(miso, board, off, PollEnd(miso, rx, UntilEquals(ChipId), IdPollLimit), fuel);
    LE16OfFromLE16(Got16(miso, k));
  }

  /** On success the last thing on the bus is the read of REG_CMD_WRITE, whose reply is
      the offset `EVE_init` leaves the host with; before it come the setup writes and
      the 2 ms delay. */
  lemma InitResyncsOffset(defs: ChipDefs, miso: nat -> byte, board: Board, cfg: DisplayConfig, off: u16, rx: nat, fuel: nat,
                          w0: seq<Signal>, w: seq<Signal>)
    requires RamFits(defs)
    requires Init(miso, board, off, rx, fuel).ok && InitWire(defs, miso, board, cfg, off, rx, fuel, w0, w)
    ensures var p := Poll(miso, rx, UntilEquals(ChipId), IdPollLimit);
      var rx1 := PollEnd(miso, rx, UntilEquals(ChipId), IdPollLimit);
      w == AfterTouch(defs, miso, board, w0 + Prelude(defs, board) + PollTrace(defs.mem.regId, miso, rx, p.count), rx1, fuel)
           + SetupTrace(defs, board, cfg) + [Delay(2)]
           + WaitTrace(defs, miso, Touch(miso, board, off, rx1, fuel).off, TouchEnd(miso, board, off, rx1, fuel), fuel)
           + ReadTxn(defs.mem.regCmdWrite, LE16(Init(miso, board, off, rx, fuel).off))
  {
    ResyncReadsOffset(defs, miso, board, off, rx, fuel);
  }

  /** `EVE_cmd_flashfast`: the command and its result word, an execute, then a 32-bit
      read of the result word. */
  datatype Fast = Fast(result: u32, off: u16, count: nat, executed: bool)

  function FlashFast(miso: nat -> byte, off: u16, rx: nat, fuel: nat): Fast
  {
    var slot := IncOffset(off, 4);
    var off2 := IncOffset(slot, 4);
    var w := Wait(miso, off2, rx, fuel);
    Fast(FromLE32(Got32(miso, WaitEnd(miso, off2, rx, fuel))), w.off, 2 * w.polls + 4, w.ok)
  }

  /** The wire `w` followed by the bus activity of flashfast: the command write, the
      start, the wait, the read of the result word. */
  function AfterFlashFast(defs: ChipDefs, miso: nat -> byte, w: seq<Signal>, off: u16, rx: nat, fuel: nat): seq<Signal>
    requires RamFits(defs)
  {
    var slot := IncOffset(off, 4);
    var off2 := IncOffset(slot, 4);
    w + WriteTxn(defs.mem.ramCmd + off, LE32(defs.op.cmdFlashfast) + Zeros(4))
      + StartTxn(defs, off2) + WaitTrace(defs, miso, off2, rx, fuel)
      + ReadTxn(defs.mem.ramCmd + slot, Got32(miso, WaitEnd(miso, off2, rx, fuel)))
  }

  /** Flashfast as the driver performs it: the command transaction leaves the offset
      eight bytes on, the execute waits from there, the result word is read from the
      slot four bytes on. */
  lemma FlashFastSteps(miso: nat -> byte, off: u16, rx: nat, fuel: nat,
                       off2: u16, off3: u16, rx3: nat, result: u32, executed: bool)
    requires off2 == IncOffset(IncOffset(off, 4), 4)
    requires var w, k := Wait(miso, off2, rx, fuel), WaitEnd(miso, off2, rx, fuel);
      off3 == w.off && rx3 == k + 4 && result == FromLE32(Got32(miso, k)) && executed == w.ok
    ensures var f := FlashFast(miso, off, rx, fuel);
      result == f.result && off3 == f.off && rx3 == rx + f.count && executed == f.executed
  {
  }

  /** The bus activity of those steps, appended to the wire one after the other. */
  lemma FlashFastWire(defs: ChipDefs, miso: nat -> byte, off: u16, rx: nat, fuel: nat,
                      w0: seq<Signal>, w1: seq<Signal>, w3: seq<Signal>, slot: u16, off2: u16)
    requires RamFits(defs)
    requires slot == IncOffset(off, 4) && off2 == IncOffset(slot, 4)
    requires w1 == w0 + WriteTxn(defs.mem.ramCmd + off, LE32(defs.op.cmdFlashfast) + Zeros(4))
    requires w3 == w1 + StartTxn(defs, off2) + WaitTrace(defs, miso, off2, rx, fuel)
      + ReadTxn(defs.mem.ramCmd + slot, Got32(miso, WaitEnd(miso, off2, rx, fuel)))
    ensures w3 == AfterFlashFast(defs, miso, w0, off, rx, fuel)
  {
  }

  /** Flash status values the driver distinguishes. */
  const FlashDetached: byte := 1
  const FlashBasic: byte := 2
  const FlashFull: byte := 3

  /** The retry for a DETACHED flash: CMD_FLASHATTACH, an execute, then a re-read of
      the flash status. */
  datatype Reread = Reread(status: byte, off: u16, count: nat, executed: bool)

  function Attach(miso: nat -> byte, off: u16, rx: nat, fuel: nat): Reread
  {
    var w := Wait(miso, IncOffset(off, 4), rx, fuel);
    Reread(miso(WaitEnd(miso, IncOffset(off, 4), rx, fuel)), w.off, 2 * w.polls + 1, w.ok)
  }

  /** How many bytes have been received once the attach retry, started at `rx`, is over. */
  function AttachEnd(miso: nat -> byte, off: u16, rx: nat, fuel: nat): nat
  {
    rx + Attach(miso, off, rx, fuel).count
  }

  /** The wire `w` followed by the bus activity of the attach retry. */
  function AfterAttach(defs: ChipDefs, miso: nat -> byte, w: seq<Signal>, off: u16, rx: nat, fuel: nat): seq<Signal>
    requires RamFits(defs)
  {
    var off1 := IncOffset(off, 4);
    w + WriteTxn(defs.mem.ramCmd + off, LE32(defs.op.cmdFlashattach))
      + StartTxn(defs, off1) + WaitTrace(defs, miso, off1, rx, fuel)
      + ReadTxn(defs.mem.regFlashStatus, [miso(WaitEnd(miso, off1, rx, fuel))])
  }

  /** `EVE_init_flash`: wait for the flash status to leave INIT, retry attaching a
      detached flash, switch a BASIC flash to full speed, accept FULL as is. */
  function InitFlash(miso: nat -> byte, off: u16, rx: nat, fuel: nat): Outcome
  {
    var p := Poll(miso, rx, UntilNonzero, FlashPollLimit);
    var rx1 := PollEnd(miso, rx, UntilNonzero, FlashPollLimit);
    if !p.found then Outcome(false, off, p.count, true)
    else if p.value == FlashDetached then
      var a := Attach(miso, off, rx1, fuel);
      if a.status != FlashBasic then Outcome(false, a.off, p.count + a.count, a.executed)
      else
        var f := FlashFast(miso, a.off, AttachEnd(miso, off, rx1, fuel), fuel);
        Outcome(f.result == 0, f.off, p.count + a.count + f.count, a.executed && f.executed)
    else if p.value == FlashBasic then
      var f := FlashFast(miso, off, rx1, fuel);
      Outcome(f.result == 0, f.off, p.count + f.count, f.executed)
    else Outcome(p.value == FlashFull, off, p.count, true)
  }

  /** The bus activity of `EVE_init_flash` from wire `w0` to wire `w`, case by case: the
      status poll alone when it times out or finds a status other than DETACHED or BASIC,
      followed by the attach retry when it finds DETACHED, and by flashfast when BASIC is
      found at first or after the retry. */
  ghost predicate InitFlashWire(defs: ChipDefs, miso: nat -> byte, off: u16, rx: nat, fuel: nat,
                                w0: seq<Signal>, w: seq<Signal>)
    requires RamFits(defs)
  {
    var p := Poll(miso, rx, UntilNonzero, FlashPollLimit);
    var rx1 := PollEnd(miso, rx, UntilNonzero, FlashPollLimit);
    var polled := w0 + PollTrace(defs.mem.regFlashStatus, miso, rx, p.count);
    var a := Attach(miso, off, rx1, fuel);
    var attached := AfterAttach(defs, miso, polled, off, rx1, fuel);
    && (!p.found || (p.value != FlashDetached && p.value != FlashBasic) ==> w == polled)
    && (p.found && p.value == FlashBasic ==> w == AfterFlashFast(defs, miso, polled, off, rx1, fuel))
    && (p.found && p.value == FlashDetached && a.status != FlashBasic ==> w == attached)
    && (p.found && p.value == FlashDetached && a.status == FlashBasic ==>
          w == AfterFlashFast(defs, miso, attached, a.off, AttachEnd(miso, off, rx1, fuel), fuel))
  }

  /** The outcomes of the branches of `EVE_init_flash` that go past the status poll,
      from the offset and receive counter after each step. */
  lemma AttachFailsOutcome(miso: nat -> byte, off: u16, rx: nat, fuel: nat, rx1: nat, off2: u16, rx2: nat)
    requires var p := Poll(miso, rx, UntilNonzero, FlashPollLimit);
      p.found && p.value == FlashDetached && rx1 == rx + p.count
    requires var a := Attach(miso, off, rx1, fuel); a.status != FlashBasic && off2 == a.off && rx2 == rx1 + a.count
    ensures var r := InitFlash(miso, off, rx, fuel);
      !r.ok && r.off == off2 && rx2 == rx + r.count && r.settled == Attach(miso, off, rx1, fuel).executed
  {
  }

  lemma BasicOutcome(miso: nat -> byte, off: u16, rx: nat, fuel: nat, rx1: nat, result: u32, off3: u16, rx3: nat,
                     executed: bool)
    requires var p := Poll(miso, rx, UntilNonzero, FlashPollLimit);
      p.found && p.value == FlashBasic && rx1 == rx + p.count
    requires var f := FlashFast(miso, off, rx1, fuel);
      result == f.result && off3 == f.off && rx3 == rx1 + f.count && executed == f.executed
    ensures var r := InitFlash(miso, off, rx, fuel);
      r.ok == (result == 0) && r.off == off3 && rx3 == rx + r.count && r.settled == executed
  {
  }

  lemma AttachedOutcome(miso: nat -> byte, off: u16, rx: nat, fuel: nat,
                        rx1: nat, off2: u16, rx2: nat, result: u32, off3: u16, rx3: nat, executed: bool)
    requires var p := Poll(miso, rx, UntilNonzero, FlashPollLimit);
      p.found && p.value == FlashDetached && rx1 == rx + p.count
    requires var a := Attach(miso, off, rx1, fuel); a.status == FlashBasic && off2 == a.off && rx2 == rx1 + a.count
    requires var f := FlashFast(miso, off2, rx2, fuel);
      result == f.result && off3 == f.off && rx3 == rx2 + f.count && executed == (Attach(miso, off, rx1, fuel).executed && f.executed)
    ensures var r := InitFlash(miso, off, rx, fuel);
      r.ok == (result == 0) && r.off == off3 && rx3 == rx + r.count && r.settled == executed
  {
    assert rx2 == AttachEnd(miso, off, rx1, fuel);
  }

  /** The branches of `EVE_init_flash` in the form the engine's method needs: the wire
      before (`w0`) and after each of its steps, the receive counter likewise. */
  lemma InitFlashNoStatus(defs: ChipDefs, miso: nat -> byte, off: u16, rx: nat, fuel: nat,
                          w0: seq<Signal>, w1: seq<Signal>, rx1: nat)
    requires RamFits(defs)
    requires var p := Poll(miso, rx, UntilNonzero, FlashPollLimit);
      !p.found && rx1 == rx + p.count && w1 == w0 + PollTrace(defs.mem.regFlashStatus, miso, rx, p.count)
    ensures var r := InitFlash(miso, off, rx, fuel); !r.ok && r.settled && r.off == off && rx1 == rx + r.count
    ensures InitFlashWire(defs, miso, off, rx, fuel, w0, w1)
  {
  }

  lemma InitFlashByStatus(defs: ChipDefs, miso: nat -> byte, off: u16, rx: nat, fuel: nat,
                          w0: seq<Signal>, w1: seq<Signal>, rx1: nat, status: byte)
    requires RamFits(defs)
    requires var p := Poll(miso, rx, UntilNonzero, FlashPollLimit);
      p.found && status == p.value && rx1 == rx + p.count
      && w1 == w0 + PollTrace(defs.mem.regFlashStatus, miso, rx, p.count)
    requires status != FlashDetached && status != FlashBasic
    ensures var r := InitFlash(miso, off, rx, fuel);
      r.ok == (status == FlashFull) && r.settled && r.off == off && rx1 == rx + r.count
    ensures InitFlashWire(defs, miso, off, rx, fuel, w0, w1)
  {
  }

  lemma InitFlashAttachFails(defs: ChipDefs, miso: nat -> byte, off: u16, rx: nat, fuel: nat,
                             w0: seq<Signal>, w1: seq<Signal>, w2: seq<Signal>, rx1: nat, off2: u16, rx2: nat, status: byte,
                             executed: bool)
    requires RamFits(defs)
    requires var p := Poll(miso, rx, UntilNonzero, FlashPollLimit);
      p.found && p.value == FlashDetached && rx1 == rx + p.count
      && w1 == w0 + PollTrace(defs.mem.regFlashStatus, miso, rx, p.count)
    requires var a := Attach(miso, off, rx1, fuel);
      status == a.status && executed == a.executed && off2 == a.off && rx2 == rx1 + a.count
      && w2 == AfterAttach(defs, miso, w1, off, rx1, fuel)
    requires status != FlashBasic
    ensures var r := InitFlash(miso, off, rx, fuel); !r.ok && r.settled == executed && r.off == off2 && rx2 == rx + r.count
    ensures InitFlashWire(defs, miso, off, rx, fuel, w0, w2)
  {
    AttachFailsOutcome(miso, off, rx, fuel, rx1, off2, rx2);
    assert rx1 == PollEnd(miso, rx, UntilNonzero, FlashPollLimit);
  }

  lemma InitFlashBasic(defs: ChipDefs, miso: nat -> byte, off: u16, rx: nat, fuel: nat,
                       w0: seq<Signal>, w1: seq<Signal>, w3: seq<Signal>,
                       rx1: nat, result: u32, off3: u16, rx3: nat, executed: bool)
    requires RamFits(defs)
    requires var p := Poll(miso, rx, UntilNonzero, FlashPollLimit);
      p.found && p.value == FlashBasic && rx1 == rx + p.count
      && w1 == w0 + PollTrace(defs.mem.regFlashStatus, miso, rx, p.count)
    requires var f := FlashFast(miso, off, rx1, fuel);
      result == f.result && off3 == f.off && rx3 == rx1 + f.count && executed == f.executed
      && w3 == AfterFlashFast(defs, miso, w1, off, rx1, fuel)
    ensures var r := InitFlash(miso, off, rx, fuel);
      r.ok == (result == 0) && r.settled == executed && r.off == off3 && rx3 == rx + r.count
    ensures InitFlashWire(defs, miso, off, rx, fuel, w0, w3)
  {
    BasicOutcome(miso, off, rx, fuel, rx1, result, off3, rx3, executed);
    assert rx1 == PollEnd(miso, rx, UntilNonzero, FlashPollLimit);
  }

  lemma InitFlashAttached(defs: ChipDefs, miso: nat -> byte, off: u16, rx: nat, fuel: nat,
                          w0: seq<Signal>, w1: seq<Signal>, w2: seq<Signal>, w3: seq<Signal>,
                          rx1: nat, off2: u16, rx2: nat, result: u32, off3: u16, rx3: nat, executed: bool)
    requires RamFits(defs)
    requires var p := Poll(miso, rx, UntilNonzero, FlashPollLimit);
      p.found && p.value == FlashDetached && rx1 == rx + p.count
      && w1 == w0 + PollTrace(defs.mem.regFlashStatus, miso, rx, p.count)
    requires var a := Attach(miso, off, rx1, fuel);
      a.status == FlashBasic && off2 == a.off && rx2 == rx1 + a.count && w2 == AfterAttach(defs, miso, w1, off, rx1, fuel)
    requires var f := FlashFast(miso, off2, rx2, fuel);
      result == f.result && off3 == f.off && rx3 == rx2 + f.count
      && executed == (Attach(miso, off, rx1, fuel).executed && f.executed)
      && w3 == AfterFlashFast(defs, miso, w2, off2, rx2, fuel)
    ensures var r := InitFlash(miso, off, rx, fuel);
      r.ok == (result == 0) && r.settled == executed && r.off == off3 && rx3 == rx + r.count
    ensures InitFlashWire(defs, miso, off, rx, fuel, w0, w3)
  {
    AttachedOutcome(miso, off, rx, fuel, rx1, off2, rx2, result, off3, rx3, executed);
    assert rx1 == PollEnd(miso, rx, UntilNonzero, FlashPollLimit);
    assert rx2 == AttachEnd(miso, off, rx1, fuel);
  }

  /** Still in INIT after 101 further reads: `EVE_init_flash` fails after exactly 102
      reads without sending any command. */
  lemma InitFlashTimesOut(miso: nat -> byte, off: u16, rx: nat, fuel: nat)
    requires forall j :: rx <= j <= rx + FlashPollLimit ==> miso(j) == 0
    ensures var r := InitFlash(miso, off, rx, fuel);
      !r.ok && r.off == off && r.count == FlashPollLimit + 2
      && !Poll(miso, rx, UntilNonzero, FlashPollLimit).found
  {
    PollOutcome(miso, rx, UntilNonzero, FlashPollLimit);
  }

  /** The first non-INIT status decides: FULL succeeds and anything above FULL fails,
      both without touching the command FIFO; success otherwise needs flashfast to have
      reported 0. */
  lemma InitFlashDecidedByStatus(miso: nat -> byte, off: u16, rx: nat, fuel: nat)
    ensures var p, r := Poll(miso, rx, UntilNonzero, FlashPollLimit), InitFlash(miso, off, rx, fuel);
      && (!p.found ==> !r.ok && r.settled)
      && (p.found && p.value >= FlashFull ==> r.ok == (p.value == FlashFull) && r.settled && r.off == off && r.count == p.count)
      && (r.ok ==> p.found && p.value != 0)
      && (r.ok && p.value != FlashFull ==> p.value == FlashDetached || p.value == FlashBasic)
  {
    PollOutcome(miso, rx, UntilNonzero, FlashPollLimit);
  }

  /** Without a poll budget every execute runs out: `EVE_init_flash` settles exactly on
      the branches that send no command, a timed-out poll or a status other than
      DETACHED and BASIC. */
  lemma InitFlashNeedsFuel(miso: nat -> byte, off: u16, rx: nat)
    ensures var p, r := Poll(miso, rx, UntilNonzero, FlashPollLimit), InitFlash(miso, off, rx, 0);
      r.settled <==> !p.found || (p.value != FlashDetached && p.value != FlashBasic)
  {
  }
}
