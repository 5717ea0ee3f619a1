/** Arithmetic of the command FIFO: the 12-bit write-offset mirror, string and block
    padding, and the chunking of bulk transfers. */
module Fifo {
  import opened Bytes

  /** The coprocessor's circular command buffer is 4 KiB. */
  const FifoSize := 0x1000
  /** Largest chunk `block_transfer` writes before executing. */
  const MaxChunk := 3840

  type offset = o: int | 0 <= o < FifoSize

  /** `EVE_inc_cmdoffset`: `cmdOffset += increment` in 16 bits, then `&= 0x0fff`.
      Because 4096 divides 65536 the 16-bit wrap is invisible: the offset moves by
      the increment modulo the FIFO size. */
  function IncOffset(off: u16, n: u16): (r: offset)
    ensures r == (off + n) % FifoSize
  {
    ((off + n) % 0x1_0000) % FifoSize
  }

  /** Reducing modulo the FIFO size before adding does not change the reduced sum. */
  lemma ModShift(a: nat, k: nat)
    ensures (a % FifoSize + k) % FifoSize == (a + k) % FifoSize
  {
    var q := a / FifoSize;
    assert a == q * FifoSize + a % FifoSize;
    assert a + k == q * FifoSize + (a % FifoSize + k);
  }

  /** Two increments move the offset by their sum. */
  lemma IncTwice(off: u16, a: u16, b: u16)
    ensures IncOffset(IncOffset(off, a), b) == (off + a + b) % FifoSize
  {
    ModShift(off + a, b);
  }

  /** Three increments move the offset by their sum. */
  lemma IncThrice(off: u16, a: u16, b: u16, c: u16)
    ensures IncOffset(IncOffset(IncOffset(off, a), b), c) == (off + a + b + c) % FifoSize
  {
    IncTwice(off, a, b);
    ModShift(off + a + b, c);
  }

  function Sum(ns: seq<u16>): nat
  {
    if ns == [] then 0 else ns[0] + Sum(ns[1..])
  }

  /** Offset after a run of `EVE_inc_cmdoffset` calls. */
  function AdvanceAll(off: u16, ns: seq<u16>): u16
    decreases |ns|
  {
    if ns == [] then off else AdvanceAll(IncOffset(off, ns[0]), ns[1..])
  }

  /** Emitting commands of any total length L moves the offset by L modulo 4096,
      wrapping past 4095 however often. */
  lemma {:induction false} AdvanceAllIsSum(off: offset, ns: seq<u16>)
    ensures AdvanceAll(off, ns) == (off + Sum(ns)) % FifoSize
    decreases |ns|
  {
    if ns != [] {
      AdvanceAllIsSum(IncOffset(off, ns[0]), ns[1..]);
      assert (((off + ns[0]) % FifoSize) + Sum(ns[1..])) % FifoSize == (off + ns[0] + Sum(ns[1..])) % FifoSize;
    }
  }

  /** From offset 4094, an opcode and eight argument bytes land at offset 10. */
  lemma WrapExample()
    ensures AdvanceAll(4094, [4, 8]) == 10
  {
    AdvanceAllIsSum(4094, [4, 8]);
  }

  /** `EVE_write_string`: `4 - (len & 3)` zero bytes, so a terminator is always sent. */
  function StringPadding(len: nat): (p: nat)
    ensures 1 <= p <= 4 && (len + p) % 4 == 0
  {
    4 - len % 4
  }

  /** Bytes a string occupies in the FIFO: text plus padding. */
  function StringLen(len: nat): (n: nat)
    ensures n > 0 && n % 4 == 0 && len < n <= len + 4
  {
    len + StringPadding(len)
  }

  /** What `EVE_write_string` actually advances the offset by: its `uint8_t textindex`
      has the padding added to it (`textindex += padding`) and wraps at 256. */
  function Uint8StringAdvance(len: nat): (r: byte)
    requires len < 0x100
    ensures len <= 251 ==> r == StringLen(len)
    ensures len >= 252 ==> r == 0
  {
    (len + (4 - len % 4)) % 0x100
  }

  /** A 252-character string sends 256 bytes but leaves the offset where it was. */
  lemma Uint8StringAdvanceLosesBytes()
    ensures StringLen(252) == 256 && Uint8StringAdvance(252) == 0
  {
  }

  /** `spi_flash_write`: `((4 - (len & 3)) & 3)` zero bytes, none when already aligned. */
  function BlockPadding(len: nat): (p: nat)
    ensures p <= 3 && (len + p) % 4 == 0
  {
    (4 - len % 4) % 4
  }

  /** `EVE_memWrite_flash_buffer`: `len = (len + 3) & ~3` assigned back to a `uint16_t`. */
  function FlashBufferLen(len: u16): (r: u16)
    ensures len <= 0xFFFC ==> r % 4 == 0 && len <= r < len + 4
    ensures len > 0xFFFC ==> r == 0
  {
    ((len + 3) / 4 * 4) % 0x1_0000
  }

  /** `spi_flash_write`: `len += padding` in a `uint16_t`, then `EVE_inc_cmdoffset(len)`.
      The 16-bit wrap cannot change where the offset lands. */
  function FlashWriteAdvance(len: u16): (r: u16)
    ensures len <= 0xFFFC ==> r == len + BlockPadding(len)
    ensures r % FifoSize == (len + BlockPadding(len)) % FifoSize
  {
    (len + BlockPadding(len)) % 0x1_0000
  }

  function Min(a: nat, b: nat): nat { if a < b then a else b }

  /** The chunks `block_transfer` cuts its data into: at most `MaxChunk` bytes each. */
  function Chunks(data: seq<byte>): (cs: seq<seq<byte>>)
    ensures forall i :: 0 <= i < |cs| ==> 0 < |cs[i]| <= MaxChunk
    decreases |data|
  {
    if data == [] then []
    else
      var n := Min(|data|, MaxChunk);
      var rest := Chunks(data[n..]);
      assert forall i :: 1 <= i < |rest| + 1 ==> ([data[..n]] + rest)[i] == rest[i - 1];
      [data[..n]] + rest
  }

  /** The first chunk is the first `min(len, 3840)` bytes; the others chunk the rest. */
  lemma ChunksFirst(data: seq<byte>, n: nat)
    requires data != [] && n == Min(|data|, MaxChunk)
    ensures Chunks(data) != [] && Chunks(data)[0] == data[..n] && Chunks(data)[1..] == Chunks(data[n..])
  {
    assert Chunks(data) == [data[..n]] + Chunks(data[n..]);
  }

  function Concat(ss: seq<seq<byte>>): seq<byte>
  {
    if ss == [] then [] else ss[0] + Concat(ss[1..])
  }

  /** The chunks, put back together, are the data in its original order. */
  lemma {:induction false} ChunksConcat(data: seq<byte>)
    ensures Concat(Chunks(data)) == data
    decreases |data|
  {
    if data != [] {
      var n := Min(|data|, MaxChunk);
      ChunksConcat(data[n..]);
      assert Chunks(data)[1..] == Chunks(data[n..]);
      assert data[..n] + data[n..] == data;
    }
  }

  /** There are exactly ceil(len / 3840) chunks, and every chunk but the last is exactly
      3840 bytes long. */
  lemma {:induction false} ChunksShape(data: seq<byte>)
    ensures |Chunks(data)| == (|data| + MaxChunk - 1) / MaxChunk
    ensures forall i :: 0 <= i < |Chunks(data)| - 1 ==> |Chunks(data)[i]| == MaxChunk
    decreases |data|
  {
    if data != [] {
      var n := Min(|data|, MaxChunk);
      ChunksShape(data[n..]);
      var c := Chunks(data);
      assert c[1..] == Chunks(data[n..]);
      assert forall i :: 1 <= i < |c| ==> c[i] == Chunks(data[n..])[i - 1];
      if |data| <= MaxChunk {
        assert data[n..] == [];
      }
    }
  }

  /** Bytes a chunk occupies in the FIFO once padded. */
  function PaddedLen(chunk: seq<byte>): nat
  {
    |chunk| + BlockPadding(|chunk|)
  }

  function PaddedTotal(cs: seq<seq<byte>>): nat
  {
    if cs == [] then 0 else PaddedLen(cs[0]) + PaddedTotal(cs[1..])
  }

  /** Only the last chunk can need padding, so a block transfer puts the data plus
      `BlockPadding(len)` zero bytes into the FIFO, a multiple of four in all. */
  lemma {:induction false} ChunksPaddedTotal(data: seq<byte>)
    ensures PaddedTotal(Chunks(data)) == |data| + BlockPadding(|data|)
    ensures PaddedTotal(Chunks(data)) % 4 == 0
    decreases |data|
  {
    if data != [] {
      var n := Min(|data|, MaxChunk);
      var c := Chunks(data);
      ChunksPaddedTotal(data[n..]);
      assert c[1..] == Chunks(data[n..]);
      assert |c[0]| == n;
      if |data| > MaxChunk {
        PaddingPastFullChunk(|data|);
      } else {
        assert data[n..] == [];
      }
    }
  }

  /** A full chunk is a multiple of four long, so it does not change the padding. */
  lemma PaddingPastFullChunk(len: nat)
    requires len >= MaxChunk
    ensures BlockPadding(MaxChunk) == 0
    ensures BlockPadding(len - MaxChunk) == BlockPadding(len)
  {
    assert len % 4 == (len - MaxChunk) % 4;
  }

  /** 3840 bytes go in one unpadded chunk; 3841 bytes in two, the second one byte long
      and padded with three zeros. */
  lemma ChunkExamples(d1: seq<byte>, d2: seq<byte>)
    requires |d1| == 3840 && |d2| == 3841
    ensures |Chunks(d1)| == 1 && BlockPadding(|Chunks(d1)[0]|) == 0
    ensures |Chunks(d2)| == 2 && |Chunks(d2)[1]| == 1 && BlockPadding(|Chunks(d2)[1]|) == 3
  {
    ChunksShape(d1);
    ChunksShape(d2);
    assert Chunks(d2)[1..] == Chunks(d2[MaxChunk..]);
    assert d2[MaxChunk..][1..] == [];
  }
}
