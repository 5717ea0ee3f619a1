/** What the host puts on the serial bus, and how register transactions are framed. */
module Wire {
  import opened Bytes

  /** One observable action of the transport: chip-select edges, a byte sent with
      `spi_transmit`, a byte received with `spi_receive` (which clocks out a dummy 0x00),
      the power-down line, and a delay. */
  datatype Signal = Select | Deselect | Out(b: byte) | Recv(b: byte) | PowerDown(asserted: bool) | Delay(ms: nat)

  function Outs(bs: seq<byte>): (r: seq<Signal>)
    ensures |r| == |bs|
  {
    seq(|bs|, i requires 0 <= i < |bs| => Out(bs[i]))
  }

  function Recvs(bs: seq<byte>): (r: seq<Signal>)
    ensures |r| == |bs|
  {
    seq(|bs|, i requires 0 <= i < |bs| => Recv(bs[i]))
  }

  lemma AppendAssoc(a: seq<Signal>, b: seq<Signal>, c: seq<Signal>)
    ensures (a + b) + c == a + (b + c)
  {
  }

  lemma OutsGrow(w: seq<Signal>, sent: seq<byte>, more: seq<byte>)
    ensures w + Outs(sent) + Outs(more) == w + Outs(sent + more)
  {
    OutsAppend(sent, more);
  }

  /** A write transaction sent in two parts, the header with the first bytes and then
      the rest, is the transaction of all its data. */
  lemma WriteInParts(w: seq<Signal>, a: u32, first: seq<byte>, rest: seq<byte>)
    ensures w + [Select] + Outs(Header(a, true) + first) + Outs(rest) + [Deselect] == w + WriteTxn(a, first + rest)
  {
    OutsAppend(Header(a, true) + first, rest);
    assert Header(a, true) + first + rest == Header(a, true) + (first + rest);
  }

  lemma OutsAppend(a: seq<byte>, b: seq<byte>)
    ensures Outs(a + b) == Outs(a) + Outs(b)
  {
  }

  /** Direction flags of the first address byte. */
  const MemWrite: byte := 0x80
  const MemRead: byte := 0x00

  /** `(uint8_t)x | MEM_WRITE`: bit 7 set. */
  function WithWriteBit(x: byte): (r: byte)
    ensures r >= 0x80 && r % 0x80 == x % 0x80
  {
    if x < 0x80 then x + MemWrite else x
  }

  /** The three address bytes of a transaction, most significant first; the first
      carries the direction flag. */
  function Header(a: u32, write: bool): (h: seq<byte>)
    ensures |h| == 3
  {
    var top := (a / 0x1_0000) % 0x100;
    [if write then WithWriteBit(top) else top + MemRead, (a / 0x100) % 0x100, a % 0x100]
  }

  /** What the chip reads from an address header: the direction and the 22-bit address. */
  function ParseHeader(h: seq<byte>): (bool, int)
    requires |h| == 3
  {
    var h0: int, h1: int, h2: int := h[0], h[1], h[2];
    (h0 >= 0x80, (h0 % 0x40) * 0x1_0000 + h1 * 0x100 + h2)
  }

  /** Framing is lossless for every address of the 22-bit space, in both directions. */
  lemma HeaderRoundTrip(a: u32, write: bool)
    requires a < 0x40_0000
    ensures ParseHeader(Header(a, write)) == (write, a)
  {
    var top := (a / 0x1_0000) % 0x100;
    assert top == a / 0x1_0000 && top < 0x40;
    assert a == top * 0x1_0000 + ((a / 0x100) % 0x100) * 0x100 + a % 0x100;
  }

  /** `EVE_memWriteN`: select, write header, data bytes, deselect. */
  function WriteTxn(a: u32, data: seq<byte>): seq<Signal>
  {
    [Select] + Outs(Header(a, true) + data) + [Deselect]
  }

  /** `EVE_memReadN`: select, read header, one dummy byte, then one received byte per
      data byte, deselect. */
  function ReadTxn(a: u32, got: seq<byte>): seq<Signal>
  {
    [Select] + Outs(Header(a, false) + [0]) + Recvs(got) + [Deselect]
  }

  /** `EVE_cmdWrite`: a host command is its byte followed by two zero bytes. */
  function HostCmdTxn(command: byte): seq<Signal>
  {
    [Select] + Outs([command, 0, 0]) + [Deselect]
  }

  /** The bytes the host clocks out, in order (the dummy byte of every receive included). */
  function MosiBytes(t: seq<Signal>): seq<byte>
  {
    if t == [] then []
    else
      (match t[0]
       case Out(b) => [b]
       case Recv(_) => [0]
       case _ => []) + MosiBytes(t[1..])
  }

  lemma {:induction false} MosiBytesAppend(s: seq<Signal>, t: seq<Signal>)
    ensures MosiBytes(s + t) == MosiBytes(s) + MosiBytes(t)
  {
    if s == [] {
      assert s + t == t;
    } else {
      assert (s + t)[1..] == s[1..] + t;
      MosiBytesAppend(s[1..], t);
    }
  }

  lemma {:induction false} MosiBytesOuts(bs: seq<byte>)
    ensures MosiBytes(Outs(bs)) == bs
  {
    if bs != [] {
      assert Outs(bs)[1..] == Outs(bs[1..]);
      MosiBytesOuts(bs[1..]);
    }
  }

  lemma {:induction false} MosiBytesRecvs(bs: seq<byte>)
    ensures MosiBytes(Recvs(bs)) == Zeros(|bs|)
  {
    if bs != [] {
      assert Recvs(bs)[1..] == Recvs(bs[1..]);
      MosiBytesRecvs(bs[1..]);
      assert [0] + Zeros(|bs| - 1) == Zeros(|bs|);
    }
  }

  /** How the chip decodes the bytes of one selected write: an address and the data
      that goes to consecutive addresses from it. */
  datatype Access = WriteAccess(addr: int, data: seq<byte>) | ReadAccess(addr: int) | Malformed

  function DecodeTxn(bytes: seq<byte>): Access
  {
    if |bytes| < 3 then Malformed
    else
      var (write, a) := ParseHeader(bytes[..3]);
      if write then WriteAccess(a, bytes[3..]) else ReadAccess(a)
  }

  /** A write transaction reaches the chip as exactly the access it was meant to be. */
  lemma WriteTxnDecodes(a: u32, data: seq<byte>)
    requires a < 0x40_0000
    ensures MosiBytes(WriteTxn(a, data)) == Header(a, true) + data
    ensures DecodeTxn(MosiBytes(WriteTxn(a, data))) == WriteAccess(a, data)
  {
    var t := WriteTxn(a, data);
    assert t == [Select] + (Outs(Header(a, true) + data) + [Deselect]);
    MosiBytesAppend([Select], Outs(Header(a, true) + data) + [Deselect]);
    MosiBytesAppend(Outs(Header(a, true) + data), [Deselect]);
    MosiBytesOuts(Header(a, true) + data);
    assert MosiBytes([Select]) == [] && MosiBytes([Deselect]) == [];
    HeaderRoundTrip(a, true);
    assert (Header(a, true) + data)[..3] == Header(a, true);
    assert (Header(a, true) + data)[3..] == data;
  }

  /** A read transaction reaches the chip as a read of its address; the host clocks out
      only zeros after the header. */
  lemma ReadTxnDecodes(a: u32, got: seq<byte>)
    requires a < 0x40_0000
    ensures MosiBytes(ReadTxn(a, got)) == Header(a, false) + Zeros(1 + |got|)
    ensures DecodeTxn(MosiBytes(ReadTxn(a, got))) == ReadAccess(a)
  {
    var t := ReadTxn(a, got);
    assert t == [Select] + (Outs(Header(a, false) + [0]) + (Recvs(got) + [Deselect]));
    MosiBytesAppend([Select], Outs(Header(a, false) + [0]) + (Recvs(got) + [Deselect]));
    MosiBytesAppend(Outs(Header(a, false) + [0]), Recvs(got) + [Deselect]);
    MosiBytesAppend(Recvs(got), [Deselect]);
    MosiBytesOuts(Header(a, false) + [0]);
    MosiBytesRecvs(got);
    assert MosiBytes([Select]) == [] && MosiBytes([Deselect]) == [];
    assert Header(a, false) + [0] + Zeros(|got|) == Header(a, false) + Zeros(1 + |got|);
    HeaderRoundTrip(a, false);
    assert (Header(a, false) + Zeros(1 + |got|))[..3] == Header(a, false);
  }
}
