/** The chip-definition constants the driver uses. The source takes them as named
    constants from a chip header that is not part of this model, so here they are an
    opaque record whose only assumed properties are stated in `ValidDefs`. */
module Chip {
  import opened Bytes

  /** Addresses in the chip's 22-bit memory map. */
  datatype MemoryMap = MemoryMap(
    ramCmd: u32, ramDl: u32,
    regId: u32, regCpuReset: u32, regCmdRead: u32, regCmdWrite: u32,
    regTouchTag: u32, regTouchTag1: u32, regTouchTag2: u32, regTouchTag3: u32, regTouchTag4: u32,
    regTouchConfig: u32, regTouchOversample: u32, regGpioxDir: u32,
    regPwmDuty: u32,
    regHsize: u32, regHcycle: u32, regHoffset: u32, regHsync0: u32, regHsync1: u32,
    regVsize: u32, regVcycle: u32, regVoffset: u32, regVsync0: u32, regVsync1: u32,
    regSwizzle: u32, regPclkPol: u32, regCspread: u32,
    regTouchMode: u32, regTouchRzthresh: u32,
    regVolPb: u32, regVolSound: u32, regSound: u32,
    regDlswap: u32, regGpio: u32, regPclk: u32,
    regFlashStatus: u32)

  /** Coprocessor opcodes, host-command bytes and display-list words. */
  datatype Opcodes = Opcodes(
    cmdMemzero: u32, cmdMemset: u32, cmdMemcpy: u32, cmdInflate: u32,
    cmdMemcrc: u32, cmdGetptr: u32, cmdRegread: u32, cmdGetprops: u32,
    cmdText: u32, cmdNumber: u32, cmdFlashattach: u32, cmdFlashfast: u32,
    hostActive: byte, hostClkExt: byte, hostClkInt: byte, hostCoreRst: byte,
    dlClearRgb: u32, dlClearAll: u32, dlDisplay: u32, dlswapFrame: u32,
    tmodeContinuous: byte)

  datatype ChipDefs = ChipDefs(mem: MemoryMap, op: Opcodes)

  /** Every register the driver names, in one list. */
  function Registers(m: MemoryMap): seq<u32>
  {
    [m.regId, m.regCpuReset, m.regCmdRead, m.regCmdWrite,
     m.regTouchTag, m.regTouchTag1, m.regTouchTag2, m.regTouchTag3, m.regTouchTag4,
     m.regTouchConfig, m.regTouchOversample, m.regGpioxDir,
     m.regPwmDuty,
     m.regHsize, m.regHcycle, m.regHoffset, m.regHsync0, m.regHsync1,
     m.regVsize, m.regVcycle, m.regVoffset, m.regVsync0, m.regVsync1,
     m.regSwizzle, m.regPclkPol, m.regCspread,
     m.regTouchMode, m.regTouchRzthresh,
     m.regVolPb, m.regVolSound, m.regSound,
     m.regDlswap, m.regGpio, m.regPclk,
     m.regFlashStatus]
  }

  /** What the model assumes of the chip header: registers are distinct addresses of the
      22-bit space outside the first three display-list words, and the command FIFO and
      the display-list RAM fit in that space. */
  ghost predicate ValidDefs(d: ChipDefs)
  {
    var r := Registers(d.mem);
    && (forall i :: 0 <= i < |r| ==> r[i] < 0x40_0000)
    && (forall i, j :: 0 <= i < j < |r| ==> r[i] != r[j])
    && (forall i :: 0 <= i < |r| ==> r[i] < d.mem.ramDl || d.mem.ramDl + 12 <= r[i])
    && RamFits(d)
  }

  /** The part of `ValidDefs` that address arithmetic needs: the command FIFO and the
      first display-list words lie inside the 22-bit space. */
  predicate RamFits(d: ChipDefs)
  {
    d.mem.ramCmd + 0x1_0000 <= 0x40_0000 && d.mem.ramDl + 12 <= 0x40_0000
  }

  /** The display timing record the bring-up programs (field names after `eve_display_t`). */
  datatype DisplayConfig = DisplayConfig(
    hsize: u16, hcycle: u16, hoffset: u16, hsync0: u16, hsync1: u16,
    vsize: u16, vcycle: u16, voffset: u16, vsync0: u16, vsync1: u16,
    swizzle: byte, pclkPol: byte, cspread: byte, pclk: byte,
    touchRzthresh: u16)

  /** Size of the opaque touch-controller patch blob (FTDI application note AN_336). */
  const Gt911PatchLen := 1184

  /** Board variants the source selects by conditional compilation. */
  datatype Board = Board(
    coreReset: bool,      // EVE3_43: an extra core reset at warm start
    hasCrystal: bool,     // EVE_HAS_CRYSTAL
    hasGt911: bool,       // EVE_HAS_GT911
    bt81x: bool,          // BT81X_ENABLE
    adam101: bool,        // EVE_ADAM101: inverted backlight values
    gt911Patch: seq<byte>)

  predicate ValidBoard(b: Board)
  {
    |b.gt911Patch| == Gt911PatchLen
  }
}
