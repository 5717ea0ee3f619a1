/** Starting the coprocessor and waiting for it: `EVE_busy`, `EVE_cmd_start`,
    `EVE_cmd_execute` and the chunked `block_transfer` built on them, as functions of
    the tracked offset, the chip's answers and the bus trace they produce. */
module Execute {
  import opened Bytes
  import opened Wire
  import opened Fifo
  import opened Chip

  /** REG_CMD_READ reads 0xFFF when the coprocessor has hit a fault. */
  const Sentinel: u16 := 0xFFF

  /** The two bytes a 16-bit read starting at receive index `rx` gets back. */
  function Got16(miso: nat -> byte, rx: nat): (g: seq<byte>)
    ensures |g| == 2
  {
    [miso(rx), miso(rx + 1)]
  }

  function Value16(miso: nat -> byte, rx: nat): u16
  {
    FromLE16(Got16(miso, rx))
  }

  /** The four bytes a 32-bit read starting at receive index `rx` gets back. */
  function Got32(miso: nat -> byte, rx: nat): (g: seq<byte>)
    ensures |g| == 4
  {
    [miso(rx), miso(rx + 1), miso(rx + 2), miso(rx + 3)]
  }

  /** The recovery `EVE_busy` performs on a fault: hold the coprocessor in reset, zero
      both FIFO pointers, release the reset. */
  function RecoveryTrace(defs: ChipDefs): seq<Signal>
  {
    WriteTxn(defs.mem.regCpuReset, [1])
      + WriteTxn(defs.mem.regCmdRead, LE16(0))
      + WriteTxn(defs.mem.regCmdWrite, LE16(0))
      + WriteTxn(defs.mem.regCpuReset, [0])
  }

  /** Bus activity of one `EVE_busy` call that read `got` from REG_CMD_READ. */
  function BusyTrace(defs: ChipDefs, got: seq<byte>): seq<Signal>
    requires |got| == 2
  {
    ReadTxn(defs.mem.regCmdRead, got) + (if FromLE16(got) == Sentinel then RecoveryTrace(defs) else [])
  }

  /** The host's offset after an `EVE_busy` call that read `v`. */
  function AfterBusy(off: u16, v: u16): u16
  {
    if v == Sentinel then 0 else off
  }

  /** On the fault value `EVE_busy` resets the coprocessor (reset held, REG_CMD_READ and
      REG_CMD_WRITE zeroed, reset released, in that order), restarts the host at offset 0
      and reports busy on that same call; on any other value it only reads, keeps the
      offset and is busy exactly when the read pointer differs from it. */
  lemma BusyOutcome(defs: ChipDefs, got: seq<byte>, off: u16)
    requires |got| == 2
    ensures var v := FromLE16(got);
      && (v == Sentinel ==>
            && AfterBusy(off, v) == 0 && AfterBusy(off, v) != v
            && BusyTrace(defs, got) == ReadTxn(defs.mem.regCmdRead, got)
                 + WriteTxn(defs.mem.regCpuReset, [1]) + WriteTxn(defs.mem.regCmdRead, LE16(0))
                 + WriteTxn(defs.mem.regCmdWrite, LE16(0)) + WriteTxn(defs.mem.regCpuReset, [0]))
      && (v != Sentinel ==>
            && AfterBusy(off, v) == off
            && BusyTrace(defs, got) == ReadTxn(defs.mem.regCmdRead, got))
  {
    var r, t := ReadTxn(defs.mem.regCmdRead, got), RecoveryTrace(defs);
    assert r + [] == r;
    var a, b, c, d := WriteTxn(defs.mem.regCpuReset, [1]), WriteTxn(defs.mem.regCmdRead, LE16(0)),
                      WriteTxn(defs.mem.regCmdWrite, LE16(0)), WriteTxn(defs.mem.regCpuReset, [0]);
    assert r + (a + b + c + d) == r + a + b + c + d;
  }

  /** `EVE_cmd_start`: publish the offset by writing it to REG_CMD_WRITE. */
  function StartTxn(defs: ChipDefs, off: u16): seq<Signal>
  {
    WriteTxn(defs.mem.regCmdWrite, LE16(off))
  }

  /** Outcome of `while (EVE_busy());` with at most `fuel` polls: whether the chip caught
      up, how many 16-bit reads of REG_CMD_READ were made, and the host's offset after. */
  datatype Waited = Waited(ok: bool, polls: nat, off: u16)

  function Wait(miso: nat -> byte, off: u16, rx: nat, fuel: nat): Waited
    decreases fuel
  {
    if fuel == 0 then Waited(false, 0, off)
    else
      var v := Value16(miso, rx);
      var off' := AfterBusy(off, v);
      if off' == v then Waited(true, 1, off')
      else
        var w := Wait(miso, off', rx + 2, fuel - 1);
        Waited(w.ok, w.polls + 1, w.off)
  }

  /** How many bytes have been received once the wait, started at `rx`, is over. */
  function WaitEnd(miso: nat -> byte, off: u16, rx: nat, fuel: nat): nat
  {
    rx + 2 * Wait(miso, off, rx, fuel).polls
  }

  /** The bus activity of the same loop: one `EVE_busy` call per poll. */
  function WaitTrace(defs: ChipDefs, miso: nat -> byte, off: u16, rx: nat, fuel: nat): seq<Signal>
  {
    WaitEvents(BusyEvent(defs, miso), miso, off, rx, fuel)
  }

  /** The bus activity of the `EVE_busy` call whose read starts at receive index `rx`. */
  function BusyEvent(defs: ChipDefs, miso: nat -> byte): nat -> seq<Signal>
  {
    (rx: nat) => BusyTrace(defs, Got16(miso, rx))
  }

  /** The wait loop's activity for any per-poll activity `ev`. */
  function WaitEvents(ev: nat -> seq<Signal>, miso: nat -> byte, off: u16, rx: nat, fuel: nat): seq<Signal>
    decreases fuel
  {
    if fuel == 0 then []
    else
      var v := Value16(miso, rx);
      var off' := AfterBusy(off, v);
      if off' == v then ev(rx) else ev(rx) + WaitEvents(ev, miso, off', rx + 2, fuel - 1)
  }

  /** The wait loop read forwards, as the driver runs it: the host's offset after the
      first `k` polls, ... */
  function OffsetAfter(miso: nat -> byte, off: u16, rx: nat, k: nat): u16
    decreases k
  {
    if k == 0 then off else AfterBusy(OffsetAfter(miso, off, rx, k - 1), Value16(miso, rx + 2 * (k - 1)))
  }

  /** ... whether each of those polls still found the coprocessor behind, ... */
  ghost predicate StillBusy(miso: nat -> byte, off: u16, rx: nat, k: nat)
    decreases k
  {
    k == 0 || (StillBusy(miso, off, rx, k - 1) && OffsetAfter(miso, off, rx, k) != Value16(miso, rx + 2 * (k - 1)))
  }

  /** ... and the activity of those polls. */
  function EventsFrom(ev: nat -> seq<Signal>, rx: nat, k: nat): seq<Signal>
    decreases k
  {
    if k == 0 then [] else EventsFrom(ev, rx, k - 1) + ev(rx + 2 * (k - 1))
  }

  /** One more poll of the forward reading, as the loop takes it. */
  lemma ForwardStep(ev: nat -> seq<Signal>, miso: nat -> byte, off: u16, rx: nat, k: nat)
    ensures var v := Value16(miso, rx + 2 * k);
      && OffsetAfter(miso, off, rx, k + 1) == AfterBusy(OffsetAfter(miso, off, rx, k), v)
      && (StillBusy(miso, off, rx, k + 1) <==> StillBusy(miso, off, rx, k) && OffsetAfter(miso, off, rx, k + 1) != v)
      && EventsFrom(ev, rx, k + 1) == EventsFrom(ev, rx, k) + ev(rx + 2 * k)
  {
  }

  /** Peeling the first poll off the forward reading: the offsets, ... */
  lemma {:induction false} OffsetAfterShift(miso: nat -> byte, off: u16, rx: nat, k: nat)
    ensures OffsetAfter(miso, off, rx, k + 1) == OffsetAfter(miso, AfterBusy(off, Value16(miso, rx)), rx + 2, k)
    decreases k
  {
    if k > 0 {
      OffsetAfterShift(miso, off, rx, k - 1);
      assert rx + 2 * k == rx + 2 + 2 * (k - 1);
    }
  }

  /** ... the busy verdicts, ... */
  lemma {:induction false} StillBusyShift(miso: nat -> byte, off: u16, rx: nat, k: nat)
    ensures var off1 := AfterBusy(off, Value16(miso, rx));
      StillBusy(miso, off, rx, k + 1) <==> off1 != Value16(miso, rx) && StillBusy(miso, off1, rx + 2, k)
    decreases k
  {
    OffsetAfterShift(miso, off, rx, k);
    if k > 0 {
      StillBusyShift(miso, off, rx, k - 1);
      assert rx + 2 * k == rx + 2 + 2 * (k - 1);
    }
  }

  /** ... and the activity. */
  lemma {:induction false} EventsFromShift(ev: nat -> seq<Signal>, rx: nat, k: nat)
    ensures EventsFrom(ev, rx, k + 1) == ev(rx) + EventsFrom(ev, rx + 2, k)
    decreases k
  {
    if k > 0 {
      EventsFromShift(ev, rx, k - 1);
      assert rx + 2 * k == rx + 2 + 2 * (k - 1);
    }
  }

  /** The loop that stops at poll `k` because that poll found the coprocessor caught up
      is the recursive `Wait` that succeeds after `k + 1` polls, ... */
  lemma {:induction false} WaitCaughtUp(miso: nat -> byte, off: u16, rx: nat, fuel: nat, k: nat)
    requires k < fuel && StillBusy(miso, off, rx, k)
    requires OffsetAfter(miso, off, rx, k + 1) == Value16(miso, rx + 2 * k)
    ensures Wait(miso, off, rx, fuel) == Waited(true, k + 1, OffsetAfter(miso, off, rx, k + 1))
    decreases k
  {
    var v := Value16(miso, rx);
    var off1, rx2 := AfterBusy(off, v), rx + 2;
    OffsetAfterShift(miso, off, rx, k);
    if k == 0 {
      assert OffsetAfter(miso, off, rx, 1) == off1;
    } else {
      StillBusyShift(miso, off, rx, k - 1);
      assert off1 != v && StillBusy(miso, off1, rx2, k - 1);
      assert rx + 2 * k == rx2 + 2 * (k - 1);
      WaitCaughtUp(miso, off1, rx2, fuel - 1, k - 1);
      var w := Wait(miso, off1, rx2, fuel - 1);
      assert Wait(miso, off, rx, fuel) == Waited(w.ok, w.polls + 1, w.off);
    }
  }

  /** ... with the activity of its `k + 1` polls. */
  lemma {:induction false} WaitEventsCaughtUp(ev: nat -> seq<Signal>, miso: nat -> byte, off: u16, rx: nat, fuel: nat, k: nat)
    requires k < fuel && StillBusy(miso, off, rx, k)
    requires OffsetAfter(miso, off, rx, k + 1) == Value16(miso, rx + 2 * k)
    ensures WaitEvents(ev, miso, off, rx, fuel) == EventsFrom(ev, rx, k + 1)
    decreases k
  {
    var v := Value16(miso, rx);
    var off1, rx2 := AfterBusy(off, v), rx + 2;
    OffsetAfterShift(miso, off, rx, k);
    EventsFromShift(ev, rx, k);
    if k == 0 {
      assert OffsetAfter(miso, off, rx, 1) == off1;
      assert EventsFrom(ev, rx, 1) == [] + ev(rx);
    } else {
      StillBusyShift(miso, off, rx, k - 1);
      assert off1 != v && StillBusy(miso, off1, rx2, k - 1);
      assert rx + 2 * k == rx2 + 2 * (k - 1);
      WaitEventsCaughtUp(ev, miso, off1, rx2, fuel - 1, k - 1);
      assert WaitEvents(ev, miso, off, rx, fuel) == ev(rx) + WaitEvents(ev, miso, off1, rx2, fuel - 1);
    }
  }

  /** The loop that finds the coprocessor behind on every one of its `fuel` polls is the
      recursive `Wait` that times out, ... */
  lemma {:induction false} WaitTimesOut(miso: nat -> byte, off: u16, rx: nat, fuel: nat)
    requires StillBusy(miso, off, rx, fuel)
    ensures Wait(miso, off, rx, fuel) == Waited(false, fuel, OffsetAfter(miso, off, rx, fuel))
    decreases fuel
  {
    if fuel > 0 {
      var v := Value16(miso, rx);
      var off1, rx2 := AfterBusy(off, v), rx + 2;
      OffsetAfterShift(miso, off, rx, fuel - 1);
      StillBusyShift(miso, off, rx, fuel - 1);
      assert off1 != v && StillBusy(miso, off1, rx2, fuel - 1);
      WaitTimesOut(miso, off1, rx2, fuel - 1);
      var w := Wait(miso, off1, rx2, fuel - 1);
      assert Wait(miso, off, rx, fuel) == Waited(w.ok, w.polls + 1, w.off);
    }
  }

  /** ... with the activity of all of them. */
  lemma {:induction false} WaitEventsTimeOut(ev: nat -> seq<Signal>, miso: nat -> byte, off: u16, rx: nat, fuel: nat)
    requires StillBusy(miso, off, rx, fuel)
    ensures WaitEvents(ev, miso, off, rx, fuel) == EventsFrom(ev, rx, fuel)
    decreases fuel
  {
    if fuel > 0 {
      var v := Value16(miso, rx);
      var off1, rx2 := AfterBusy(off, v), rx + 2;
      StillBusyShift(miso, off, rx, fuel - 1);
      EventsFromShift(ev, rx, fuel - 1);
      assert off1 != v && StillBusy(miso, off1, rx2, fuel - 1);
      WaitEventsTimeOut(ev, miso, off1, rx2, fuel - 1);
      assert WaitEvents(ev, miso, off, rx, fuel) == ev(rx) + WaitEvents(ev, miso, off1, rx2, fuel - 1);
    }
  }

  /** The wait loop's activity depends on the per-poll activity only through its values. */
  lemma {:induction false} WaitEventsAgree(ev1: nat -> seq<Signal>, ev2: nat -> seq<Signal>, miso: nat -> byte, off: u16, rx: nat, fuel: nat)
    requires forall r :: ev1(r) == ev2(r)
    ensures WaitEvents(ev1, miso, off, rx, fuel) == WaitEvents(ev2, miso, off, rx, fuel)
    decreases fuel
  {
    if fuel > 0 {
      WaitEventsAgree(ev1, ev2, miso, AfterBusy(off, Value16(miso, rx)), rx + 2, fuel - 1);
    }
  }

  /** A run of reads of REG_CMD_READ that found no fault. */
  function PollReads(defs: ChipDefs, miso: nat -> byte, rx: nat, n: nat): seq<Signal>
  {
    ReadsFrom((r: nat) => ReadTxn(defs.mem.regCmdRead, Got16(miso, r)), rx, n)
  }

  /** `n` polls' activity `rd`, first poll first. */
  function ReadsFrom(rd: nat -> seq<Signal>, rx: nat, n: nat): seq<Signal>
    decreases n
  {
    if n == 0 then [] else rd(rx) + ReadsFrom(rd, rx + 2, n - 1)
  }

  /** The value the `k`-th of a run of 16-bit polls starting at receive index `rx` reads. */
  function Poll16(miso: nat -> byte, rx: nat, k: nat): u16
  {
    Value16(miso, rx + 2 * k)
  }

  /** None of the first `n` polls from receive index `rx` returned the fault sentinel. */
  ghost predicate FaultFree(miso: nat -> byte, rx: nat, n: nat)
  {
    forall k :: 0 <= k < n ==> Poll16(miso, rx, k) != Sentinel
  }

  /** A fault-free run of polls is two fault-free runs, one after the other. */
  lemma FaultFreeSplit(miso: nat -> byte, rx: nat, a: nat, b: nat)
    requires FaultFree(miso, rx, a + b)
    ensures FaultFree(miso, rx, a) && FaultFree(miso, rx + 2 * a, b)
  {
    var rx2 := rx + 2 * a;
    forall k | 0 <= k < b
      ensures Poll16(miso, rx2, k) != Sentinel
    {
      assert Poll16(miso, rx2, k) == Poll16(miso, rx, a + k);
    }
  }

  /** Dropping the first of a run of fault-free polls. */
  lemma FaultFreeShift(miso: nat -> byte, rx: nat, n: nat)
    requires FaultFree(miso, rx, n + 1)
    ensures FaultFree(miso, rx + 2, n)
  {
    var rx2 := rx + 2;
    forall k | 0 <= k < n
      ensures Poll16(miso, rx2, k) != Sentinel
    {
      assert Poll16(miso, rx2, k) == Poll16(miso, rx, k + 1);
    }
  }

  /** Whatever the chip answers: at most `fuel` polls, all of them when the loop times
      out; on success the last poll read exactly the host's offset; and the offset left
      behind is the old one or, after a fault recovery, zero. */
  lemma {:induction false} WaitShape(miso: nat -> byte, off: u16, rx: nat, fuel: nat)
    ensures var w := Wait(miso, off, rx, fuel);
      && w.polls <= fuel
      && (!w.ok ==> w.polls == fuel)
      && (w.ok ==> w.polls >= 1 && Poll16(miso, rx, w.polls - 1) == w.off)
      && (w.off == off || w.off == 0)
    decreases fuel
  {
    if fuel > 0 {
      var v := Value16(miso, rx);
      var off' := AfterBusy(off, v);
      if off' != v {
        WaitShape(miso, off', rx + 2, fuel - 1);
        var w' := Wait(miso, off', rx + 2, fuel - 1);
        if w'.ok {
          assert Poll16(miso, rx + 2, w'.polls - 1) == Poll16(miso, rx, w'.polls);
        }
      } else {
        assert Poll16(miso, rx, 0) == v;
      }
    }
  }

  /** When no poll reads the sentinel, waiting leaves the offset alone, and it succeeds
      exactly when one of the first `fuel` polls sees the chip's read pointer equal to
      the host's offset. */
  lemma {:induction false} WaitFaultFree(miso: nat -> byte, off: u16, rx: nat, fuel: nat)
    requires FaultFree(miso, rx, Wait(miso, off, rx, fuel).polls)
    ensures Wait(miso, off, rx, fuel).off == off
    ensures Wait(miso, off, rx, fuel).ok <==> exists k :: 0 <= k < fuel && Poll16(miso, rx, k) == off
    decreases fuel
  {
    if fuel > 0 {
      var v, rx2 := Value16(miso, rx), rx + 2;
      assert v == Poll16(miso, rx, 0);
      assert v != Sentinel by {
        assert Wait(miso, off, rx, fuel).polls >= 1;
      }
      if v != off {
        var w' := Wait(miso, off, rx2, fuel - 1);
        assert Wait(miso, off, rx, fuel) == Waited(w'.ok, w'.polls + 1, w'.off);
        FaultFreeShift(miso, rx, w'.polls);
        WaitFaultFree(miso, off, rx2, fuel - 1);
        FoundShift(miso, off, rx, rx2, fuel - 1);
      }
    }
  }

  /** A first poll that misses `off` does not change whether some poll finds it. */
  lemma FoundShift(miso: nat -> byte, off: u16, rx: nat, rx2: nat, n: nat)
    requires rx2 == rx + 2 && Poll16(miso, rx, 0) != off
    ensures (exists k :: 0 <= k < n + 1 && Poll16(miso, rx, k) == off)
        <==> (exists k :: 0 <= k < n && Poll16(miso, rx2, k) == off)
  {
    if exists k :: 0 <= k < n + 1 && Poll16(miso, rx, k) == off {
      var k :| 0 <= k < n + 1 && Poll16(miso, rx, k) == off;
      assert Poll16(miso, rx2, k - 1) == Poll16(miso, rx, k);
    }
    if exists k :: 0 <= k < n && Poll16(miso, rx2, k) == off {
      var k :| 0 <= k < n && Poll16(miso, rx2, k) == off;
      assert Poll16(miso, rx2, k) == Poll16(miso, rx, k + 1);
    }
  }

  /** ... and its bus activity is nothing but those reads of REG_CMD_READ. */
  lemma WaitTraceFaultFree(defs: ChipDefs, miso: nat -> byte, off: u16, rx: nat, fuel: nat)
    requires FaultFree(miso, rx, Wait(miso, off, rx, fuel).polls)
    ensures WaitTrace(defs, miso, off, rx, fuel) == PollReads(defs, miso, rx, Wait(miso, off, rx, fuel).polls)
  {
    var ev, rd := BusyEvent(defs, miso), (r: nat) => ReadTxn(defs.mem.regCmdRead, Got16(miso, r));
    forall r: nat | Value16(miso, r) != Sentinel
      ensures ev(r) == rd(r)
    {
      assert BusyTrace(defs, Got16(miso, r)) == rd(r) + [];
    }
    WaitEventsFaultFree(ev, rd, miso, off, rx, fuel);
  }

  /** The same for any per-poll activity that is `rd` on a poll finding no fault. */
  lemma {:induction false} WaitEventsFaultFree(ev: nat -> seq<Signal>, rd: nat -> seq<Signal>, miso: nat -> byte, off: u16, rx: nat, fuel: nat)
    requires FaultFree(miso, rx, Wait(miso, off, rx, fuel).polls)
    requires forall r: nat :: Value16(miso, r) != Sentinel ==> ev(r) == rd(r)
    ensures WaitEvents(ev, miso, off, rx, fuel) == ReadsFrom(rd, rx, Wait(miso, off, rx, fuel).polls)
    decreases fuel
  {
    if fuel > 0 {
      var v := Value16(miso, rx);
      assert v == Poll16(miso, rx, 0);
      var rx2 := rx + 2;
      if v != off {
        var w' := Wait(miso, off, rx2, fuel - 1);
        FaultFreeShift(miso, rx, w'.polls);
        WaitEventsFaultFree(ev, rd, miso, off, rx2, fuel - 1);
      } else {
        assert ReadsFrom(rd, rx, 1) == rd(rx) + ReadsFrom(rd, rx2, 0);
      }
    }
  }

  /** The bus trace of one chunk: its own transaction at the current FIFO offset, then the
      data, then its 0 to 3 zero bytes. */
  function ChunkWrite(defs: ChipDefs, off: u16, c: seq<byte>): seq<Signal>
    requires RamFits(defs)
  {
    [Select] + Outs(Header(defs.mem.ramCmd + off, true) + c + Zeros(BlockPadding(|c|))) + [Deselect]
  }

  /** Outcome and bus activity of one pass of the `block_transfer` loop, or of a run of
      them: `ok` is false when some wait ran out of fuel; `polls` counts the 16-bit reads
      made. */
  datatype Step = Step(ok: bool, off: u16, polls: nat, trace: seq<Signal>)

  /** One pass of the `block_transfer` loop: the chunk written at `off`, its length
      passed as a `uint16_t`, then executed. */
  function ChunkStep(defs: ChipDefs, miso: nat -> byte, off: u16, rx: nat, c: seq<byte>, fuel: nat): Step
    requires RamFits(defs)
  {
    var off1 := IncOffset(off, FlashWriteAdvance(|c| % 0x1_0000));
    var w := Wait(miso, off1, rx, fuel);
    Step(w.ok, w.off, w.polls, ChunkWrite(defs, off, c) + StartTxn(defs, off1) + WaitTrace(defs, miso, off1, rx, fuel))
  }

  function ChunkSteps(defs: ChipDefs, miso: nat -> byte): (u16, nat, seq<byte>, nat) -> Step
    requires RamFits(defs)
  {
    (o: u16, r: nat, c: seq<byte>, fl: nat) => ChunkStep(defs, miso, o, r, c, fl)
  }

  /** A run of steps `f`, one per chunk, each starting where the previous one ended. */
  function Steps(f: (u16, nat, seq<byte>, nat) -> Step, off: u16, rx: nat, chunks: seq<seq<byte>>, fuel: nat): Step
    decreases |chunks|
  {
    if chunks == [] then Step(true, off, 0, [])
    else
      var s := f(off, rx, chunks[0], fuel);
      Then(s, Steps(f, s.off, rx + 2 * s.polls, chunks[1..], fuel))
  }

  /** Step `s` followed by step `r`: both must succeed, and the offset is where `r` leaves it. */
  function Then(s: Step, r: Step): Step
  {
    Step(s.ok && r.ok, r.off, s.polls + r.polls, s.trace + r.trace)
  }

  /** One more pass of a block transfer: what is left of the data is its first chunk's
      step then the steps of the remaining data. */
  lemma StepsPass(f: (u16, nat, seq<byte>, nat) -> Step, prior: Step, off: u16, rx: nat, rest: seq<byte>, n: nat, fuel: nat)
    requires rest != [] && n == Min(|rest|, MaxChunk)
    ensures var s := f(off, rx, rest[..n], fuel);
      Then(prior, Steps(f, off, rx, Chunks(rest), fuel))
        == Then(Then(prior, s), Steps(f, s.off, rx + 2 * s.polls, Chunks(rest[n..]), fuel))
  {
    ChunksFirst(rest, n);
    var s := f(off, rx, rest[..n], fuel);
    ThenAssoc(prior, s, Steps(f, s.off, rx + 2 * s.polls, Chunks(rest[n..]), fuel));
  }

  /** Sequencing steps is associative. */
  lemma ThenAssoc(a: Step, b: Step, c: Step)
    ensures Then(Then(a, b), c) == Then(a, Then(b, c))
  {
    assert (a.trace + b.trace) + c.trace == a.trace + (b.trace + c.trace);
  }

  /** A step that succeeds, polls nothing and puts nothing on the bus is a unit of sequencing. */
  lemma ThenUnit(off: u16, r: Step)
    ensures Then(Step(true, off, 0, []), r) == r
  {
    assert [] + r.trace == r.trace;
  }

  /** `block_transfer(data, len)`: the data cut into chunks, one loop pass per chunk. */
  function Transfer(defs: ChipDefs, miso: nat -> byte, off: u16, rx: nat, data: seq<byte>, fuel: nat): Step
    requires RamFits(defs)
  {
    Steps(ChunkSteps(defs, miso), off, rx, Chunks(data), fuel)
  }

  /** Runs of steps that agree on every chunk agree. */
  lemma {:induction false} StepsAgree(f1: (u16, nat, seq<byte>, nat) -> Step, f2: (u16, nat, seq<byte>, nat) -> Step, off: u16, rx: nat, chunks: seq<seq<byte>>, fuel: nat)
    requires forall o, r, c :: f1(o, r, c, fuel) == f2(o, r, c, fuel)
    ensures Steps(f1, off, rx, chunks, fuel) == Steps(f2, off, rx, chunks, fuel)
    decreases |chunks|
  {
    if chunks != [] {
      var s := f1(off, rx, chunks[0], fuel);
      StepsAgree(f1, f2, s.off, rx + 2 * s.polls, chunks[1..], fuel);
    }
  }

  /** Each step of `f` whose polls find no fault leaves the offset just past its padded
      chunk: the property of `ChunkStep` the offset arithmetic of a transfer needs. */
  ghost predicate StepsAdvance(f: (u16, nat, seq<byte>, nat) -> Step, miso: nat -> byte, fuel: nat)
  {
    forall o: u16, r: nat, c: seq<byte> ::
      |c| < 0x1_0000 && FaultFree(miso, r, f(o, r, c, fuel).polls) ==> f(o, r, c, fuel).off == (o + PaddedLen(c)) % FifoSize
  }

  lemma ChunkStepsAdvance(defs: ChipDefs, miso: nat -> byte, fuel: nat)
    requires RamFits(defs)
    ensures StepsAdvance(ChunkSteps(defs, miso), miso, fuel)
  {
    forall o: u16, r: nat, c: seq<byte> | |c| < 0x1_0000 && FaultFree(miso, r, ChunkSteps(defs, miso)(o, r, c, fuel).polls)
      ensures ChunkSteps(defs, miso)(o, r, c, fuel).off == (o + PaddedLen(c)) % FifoSize
    {
      assert ChunkSteps(defs, miso)(o, r, c, fuel) == ChunkStep(defs, miso, o, r, c, fuel);
      ChunkStepAdvance(defs, miso, o, r, c, fuel);
    }
  }

  /** One block-transfer step without faults moves the offset past its padded chunk. */
  lemma ChunkStepAdvance(defs: ChipDefs, miso: nat -> byte, o: u16, r: nat, c: seq<byte>, fuel: nat)
    requires RamFits(defs) && |c| < 0x1_0000
    requires FaultFree(miso, r, ChunkStep(defs, miso, o, r, c, fuel).polls)
    ensures ChunkStep(defs, miso, o, r, c, fuel).off == (o + PaddedLen(c)) % FifoSize
  {
    assert |c| % 0x1_0000 == |c|;
    var n := FlashWriteAdvance(|c|);
    var off1 := IncOffset(o, n);
    assert ChunkStep(defs, miso, o, r, c, fuel).off == Wait(miso, off1, r, fuel).off;
    WaitFaultFree(miso, off1, r, fuel);
    ModCongruent(o, n, PaddedLen(c));
  }

  predicate ChunksFit(chunks: seq<seq<byte>>)
  {
    forall i :: 0 <= i < |chunks| ==> |chunks[i]| < 0x1_0000
  }

  lemma ChunksFitTail(chunks: seq<seq<byte>>)
    requires chunks != [] && ChunksFit(chunks)
    ensures ChunksFit(chunks[1..])
  {
    forall i | 0 <= i < |chunks[1..]| ensures |chunks[1..][i]| < 0x1_0000 {
      assert chunks[1..][i] == chunks[i + 1];
    }
  }

  /** Without faults, a run of block-transfer steps moves the offset by the padded size
      of all its chunks, modulo the FIFO size. */
  lemma {:induction false} StepsFaultFreeAdvance(f: (u16, nat, seq<byte>, nat) -> Step, miso: nat -> byte, off: offset, rx: nat, chunks: seq<seq<byte>>, fuel: nat)
    requires StepsAdvance(f, miso, fuel) && ChunksFit(chunks)
    requires FaultFree(miso, rx, Steps(f, off, rx, chunks, fuel).polls)
    ensures Steps(f, off, rx, chunks, fuel).off == (off + PaddedTotal(chunks)) % FifoSize
    decreases |chunks|
  {
    if chunks != [] {
      var c, rest := chunks[0], chunks[1..];
      var s := f(off, rx, c, fuel);
      var r := Steps(f, s.off, rx + 2 * s.polls, rest, fuel);
      var a, b := PaddedLen(c), PaddedTotal(rest);
      var rx1 := rx + 2 * s.polls;
      assert FaultFree(miso, rx, s.polls) && FaultFree(miso, rx1, r.polls) by {
        FaultFreeSplit(miso, rx, s.polls, r.polls);
      }
      assert s.off == (off + a) % FifoSize;
      assert r.off == (s.off + b) % FifoSize by {
        ChunksFitTail(chunks);
        StepsFaultFreeAdvance(f, miso, s.off, rx1, rest, fuel);
      }
      ModShift(off + a, b);
    }
  }

  lemma ModCongruent(a: nat, b: nat, c: nat)
    requires b % FifoSize == c % FifoSize
    ensures (a + b) % FifoSize == (a + c) % FifoSize
  {
    var qb, qc := b / FifoSize, c / FifoSize;
    assert b == qb * FifoSize + b % FifoSize;
    assert c == qc * FifoSize + c % FifoSize;
    ModShift(b, a);
    ModShift(c, a);
  }

  /** The chunks of any transfer fit the 16-bit length of `spi_flash_write`. */
  lemma ChunksOfTransferFit(data: seq<byte>)
    ensures ChunksFit(Chunks(data))
  {
  }

  /** `block_transfer(data, len)` without faults leaves the offset `len` plus the final
      chunk's padding further on: the FIFO receives the data and the padding and nothing
      else. */
  lemma TransferAdvance(defs: ChipDefs, miso: nat -> byte, off: offset, rx: nat, data: seq<byte>, fuel: nat)
    requires RamFits(defs)
    requires FaultFree(miso, rx, Transfer(defs, miso, off, rx, data, fuel).polls)
    ensures Transfer(defs, miso, off, rx, data, fuel).off == (off + |data| + BlockPadding(|data|)) % FifoSize
  {
    ChunkStepsAdvance(defs, miso, fuel);
    ChunksOfTransferFit(data);
    StepsFaultFreeAdvance(ChunkSteps(defs, miso), miso, off, rx, Chunks(data), fuel);
    ChunksPaddedTotal(data);
  }
}
