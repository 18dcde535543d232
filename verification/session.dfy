/** The library's device state and the calls that change it: opening a
    device (allocation, the FTDI setup ladder, the latch, the blank frame
    and the default gamma curve), refreshing it, reassigning a strand's pin
    and closing it. The allocator and the FTDI driver are not modelled:
    their answers are the booleans of an `Outcomes` record, and the clock
    readings of a refresh are parameters. */
module Session {
  import opened Types
  import opened Gamma
  import opened Transpose
  import opened Slots
  import opened Encoder
  import Stats

  /** The strand-to-pin map: one mask per strand, element 7 the clock. */
  type PinMap = ps: seq<bv8> | |ps| == 8 witness [0, 0, 0, 0, 0, 0, 0, 0]

  /** The library's static state. `buf` is the output buffer (one slot per
      pixel position, then the latch slot), present once a device has been
      allocated; `current` says whether the current array, the pointer that
      owns the single allocation, is held; `handle` says whether an FTDI
      handle is held. The two pointers part only when a re-open without a
      close fails to allocate: the current array is dropped while the output
      buffer still points into the old allocation. */
  datatype Device = Device(
    mode: ClockMode,
    pins: PinMap,
    table: Table,
    handle: bool,
    buf: Option<seq<seq<bv8>>>,
    current: bool,
    nStrands: nat,
    perStrand: nat)
  {
    function Geometry(): Layout {
      Layout(mode, pins, nStrands, perStrand)
    }
  }

  /** The default map: TX, RX, DTR and RTS together, four unassigned strands,
      and the clock on CTS. */
  function DefaultPins(): (ps: PinMap)
    ensures ps[0] == FtdiTx && ps[1] == FtdiRx && ps[2] == FtdiDtr | FtdiRts && ps[7] == FtdiCts
    ensures forall s :: 3 <= s < 7 ==> ps[s] == 0
  {
    [FtdiTx, FtdiRx, FtdiDtr | FtdiRts, 0, 0, 0, 0, FtdiCts]
  }

  /** The state before any call: bit-banged clock, default pins, an all-zero
      gamma table, nothing allocated or opened. */
  function Initial(): Device {
    Device(SoftwareClock, DefaultPins(), ZeroTable(), false, None, false, 0, 0)
  }

  /** A device a refresh can drive: opened, its buffer shaped for its
      geometry, and its latch slot the one open renders for its clock pin. */
  predicate Ready(d: Device) {
    d.handle && d.buf.Some? && d.current && d.Geometry().Valid() && Shaped(d.Geometry(), d.buf.value)
    && d.buf.value[d.perStrand] == ClearSlot(d.mode, d.pins[7])
  }

  /** What the allocator and the FTDI driver answer during an open, in call
      order: the allocation, `FT_Open`, `FT_SetBitMode`, `FT_SetDivisor`,
      `FT_SetBaudRate`, the latch write and the write of the blank frame. */
  datatype Outcomes = Outcomes(alloc: bool, open: bool, bitMode: bool, divisor: bool, baudRate: bool,
                               latchWrite: bool, frameWrite: bool)

  /** The strand count open accepts: 1 to 16, values from 8 up asking for the
      CBUS clock; and at least one pixel per strand. */
  predicate OpenArgs(s: int, p: int) {
    1 <= s <= 16 && p >= 1
  }

  /** The clock a strand count selects: the CBUS clock from 8 up. */
  function ModeFor(s: int): ClockMode {
    if s >= CbusClock then HardwareClock else SoftwareClock
  }

  /** The strands a strand count means: above 8 the CBUS flag is removed. */
  function StrandsFor(s: int): (n: int)
    requires OpenArgs(s, 1)
    ensures 1 <= n <= 8 && (ModeFor(s) == SoftwareClock ==> n <= 7)
    ensures s <= 8 ==> n == s
    ensures n == s || n + CbusClock == s
    ensures n == 8 <==> s == 8 || s == 16
  {
    if s > CbusClock then s - CbusClock else s
  }

  /** A buffer as the allocator returns it: `p` pixel slots and a latch slot,
      every byte the same unknown value. */
  function FreshBuffer(mode: ClockMode, p: nat, fill: bv8): (b: seq<seq<bv8>>)
    ensures |b| == p + 1 && forall q :: 0 <= q < |b| ==> |b[q]| == mode.BytesPerPixel()
  {
    seq(p + 1, _ => seq(mode.BytesPerPixel(), _ => fill))
  }

  /** `openAlloc`: the clock mode is chosen before anything can fail; then
      allocation, open and bit mode, each failure fatal and, once memory or
      the handle is held, released again; then divisor and baud rate, whose
      failures are only warnings (the baud rate's wins). */
  function OpenAlloc(d: Device, s: int, p: int, o: Outcomes, fill: bv8): (r: (Status, Device))
    requires OpenArgs(s, p)
    ensures r.1.mode == ModeFor(s)
    ensures r.1.pins == d.pins && r.1.table == d.table && r.1.nStrands == d.nStrands && r.1.perStrand == d.perStrand
    ensures r.0 == ErrMalloc <==> !o.alloc
    ensures r.0 == ErrOpen <==> o.alloc && !o.open
    ensures r.0 == ErrMode <==> o.alloc && o.open && !o.bitMode
    ensures r.0.IsFatal() <==> !(o.alloc && o.open && o.bitMode)
    ensures r.0 == ErrMalloc ==> r.1.handle == d.handle && r.1.buf == d.buf && !r.1.current
    ensures r.0 == ErrOpen || r.0 == ErrMode ==> !r.1.handle && r.1.buf.None? && !r.1.current
    ensures !r.0.IsFatal() ==> r.0 == Ok || r.0.IsWarning()
    ensures r.0 == Ok <==> o.alloc && o.open && o.bitMode && o.divisor && o.baudRate
    ensures r.0 == ErrDivisor <==> o.alloc && o.open && o.bitMode && !o.divisor && o.baudRate
    ensures !r.0.IsFatal() ==> r.1.handle && r.1.current && r.1.buf == Some(FreshBuffer(r.1.mode, p, fill))
  {
    var d1 := d.(mode := ModeFor(s));
    if !o.alloc then (ErrMalloc, d1.(current := false))
    else if !o.open || !o.bitMode then (if o.open then ErrMode else ErrOpen, d1.(handle := false, buf := None, current := false))
    else
      var status := if !o.baudRate then ErrBaudrate else if !o.divisor then ErrDivisor else Ok;
      (status, d1.(handle := true, buf := Some(FreshBuffer(d1.mode, p, fill)), current := true))
  }

  /** `TCrefresh`: renders the image into every pixel slot and estimates
      each pixel's current, leaves the latch slot alone, reports the write's
      outcome, and updates the statistics record whether or not the write
      succeeded. `written` is the write's outcome, `time1` and `time2` the
      clock readings before and after it. */
  method Refresh(d: Device, pixels: Option<seq<Pixel>>, remap: Option<seq<int>>, stats: Option<Stats.Stats>,
                 written: bool, time1: Stats.ULong, time2: Stats.ULong, width: LongWidth)
    returns (status: Status, next: Device, currents: seq<real>, stats': Option<Stats.Stats>)
    requires d.buf.Some? && d.current && d.Geometry().Valid() && Shaped(d.Geometry(), d.buf.value)
    requires Covers(d.Geometry(), pixels, remap)
    ensures status == Ok <==> written
    ensures status == Ok || status == ErrWrite
    ensures next.buf.Some? && next == d.(buf := next.buf)
    ensures Shaped(d.Geometry(), next.buf.value) && next.buf.value[d.perStrand] == d.buf.value[d.perStrand]
    ensures forall q :: 0 <= q < d.perStrand ==> next.buf.value[q] == SlotOf(d.Geometry(), d.table, pixels, remap, q)
    ensures |currents| == d.Geometry().Pixels()
    ensures forall a :: 0 <= a < |currents| ==> currents[a] == CurrentFor(d.table, pixels, Mapped(remap, a))
    ensures stats.None? <==> stats'.None?
    ensures stats.Some? ==> stats'.value == Stats.Step(stats.value, d.nStrands, d.perStrand, d.mode, time1, time2, currents)
    ensures Ready(d) ==> Ready(next)
  {
    var slots;
    slots, currents := Render(d.Geometry(), d.table, pixels, remap, d.buf.value, width);
    next := d.(buf := Some(slots));
    status := if written then Ok else ErrWrite;
    stats' := if stats.Some? then Some(Stats.Step(stats.value, d.nStrands, d.perStrand, d.mode, time1, time2, currents)) else None;
  }

  /** The rest of open once the allocation ladder has passed: the geometry is
      recorded, the latch rendered and written, a blank frame refreshed and
      the default gamma curve installed. */
  method Setup(d: Device, s: int, p: int, o: Outcomes, fill: bv8, pow: (real, real) -> real, width: LongWidth)
    returns (status: Status, next: Device)
    requires OpenArgs(s, p) && d.mode == ModeFor(s) && d.handle && d.current
    requires d.buf == Some(FreshBuffer(d.mode, p, fill))
    ensures status == Ok <==> o.latchWrite && o.frameWrite
    ensures status == Ok || status == ErrWrite
    ensures next.mode == d.mode && next.pins == d.pins && next.handle
    ensures next.nStrands == StrandsFor(s) && next.perStrand == p
    ensures next.buf.Some? && |next.buf.value| == p + 1 && next.buf.value[p] == ClearSlot(d.mode, d.pins[7])
    ensures Ready(next)
    ensures o.latchWrite ==> forall q :: 0 <= q < p ==> next.buf.value[q] == SlotOf(next.Geometry(), d.table, None, None, q)
    ensures status == Ok ==> next.table == SimpleTable(DefaultGamma, pow)
    ensures status != Ok ==> next.table == d.table
  {
    var latch := RenderLatch(d.mode, d.pins[7]);
    var b := d.buf.value[p := latch];
    next := d.(nStrands := StrandsFor(s), perStrand := p, buf := Some(b));
    assert Shaped(next.Geometry(), b);
    if !o.latchWrite {
      return ErrWrite, next;
    }
    var currents, stats;
    status, next, currents, stats := Refresh(next, None, None, None, o.frameWrite, 0, 0, width);
    if status != Ok {
      return;
    }
    var gamma := SetGammaSimple(next.table, DefaultGamma, pow);
    next := next.(table := gamma.1);
  }

  /** `TCopen` as the source has it: the allocation ladder's status is
      returned as soon as it is not OK, so a divisor or baud-rate warning,
      which the ladder documents as harmless, ends the open before the
      strand count, strand length, latch, blank frame and gamma curve are
      set up. */
  method OpenAsWritten(d: Device, s: UInt8, p: int, o: Outcomes, fill: bv8, pow: (real, real) -> real, width: LongWidth)
    returns (status: Status, next: Device)
    ensures !OpenArgs(s, p) ==> status == ErrValue && next == d
    ensures OpenArgs(s, p) && OpenAlloc(d, s, p, o, fill).0 != Ok ==> (status, next) == OpenAlloc(d, s, p, o, fill)
    ensures OpenArgs(s, p) && status.IsWarning() ==> next.nStrands == d.nStrands && next.perStrand == d.perStrand
    ensures status == Ok <==> OpenArgs(s, p) && o.alloc && o.open && o.bitMode && o.divisor && o.baudRate
                              && o.latchWrite && o.frameWrite
    ensures status == ErrWrite <==> OpenArgs(s, p) && o.alloc && o.open && o.bitMode && o.divisor && o.baudRate
                                    && !(o.latchWrite && o.frameWrite)
    ensures status == Ok || status == ErrWrite ==>
              OpenArgs(s, p) && Ready(next) && next.mode == ModeFor(s) && next.pins == d.pins
              && next.nStrands == StrandsFor(s) && next.perStrand == p
    ensures status == Ok || (status == ErrWrite && o.latchWrite) ==>
              forall q :: 0 <= q < p ==> next.buf.value[q] == SlotOf(next.Geometry(), d.table, None, None, q)
    ensures status == Ok ==> next.table == SimpleTable(DefaultGamma, pow)
    ensures status == ErrWrite ==> next.table == d.table
  {
    if !OpenArgs(s, p) {
      return ErrValue, d;
    }
    var alloc := OpenAlloc(d, s, p, o, fill);
    status, next := alloc.0, alloc.1;
    if status != Ok {
      return;
    }
    status, next := Setup(next, s, p, o, fill, pow, width);
  }

  /** `TCopen` with the warnings treated as the allocation ladder describes
      them: only a fatal status ends the open; after a warning the device is
      set up like after success and the warning is returned. */
  method Open(d: Device, s: UInt8, p: int, o: Outcomes, fill: bv8, pow: (real, real) -> real, width: LongWidth)
    returns (status: Status, next: Device)
    ensures !OpenArgs(s, p) ==> status == ErrValue && next == d
    ensures OpenArgs(s, p) && OpenAlloc(d, s, p, o, fill).0.IsFatal() ==> (status, next) == OpenAlloc(d, s, p, o, fill)
    ensures !status.IsFatal() <==> OpenArgs(s, p) && o.alloc && o.open && o.bitMode && o.latchWrite && o.frameWrite
    ensures !status.IsFatal() ==> status == OpenAlloc(d, s, p, o, fill).0
    ensures !status.IsFatal() ==> Ready(next) && next.mode == ModeFor(s) && next.nStrands == StrandsFor(s) && next.perStrand == p
    ensures !status.IsFatal() ==> next.table == SimpleTable(DefaultGamma, pow) && next.pins == d.pins
    ensures !status.IsFatal() ==> forall q :: 0 <= q < p ==> next.buf.value[q] == SlotOf(next.Geometry(), d.table, None, None, q)
    ensures status == ErrWrite <==> OpenArgs(s, p) && o.alloc && o.open && o.bitMode && !(o.latchWrite && o.frameWrite)
    ensures status == ErrWrite ==> Ready(next) && next.nStrands == StrandsFor(s) && next.perStrand == p && next.table == d.table
  {
    if !OpenArgs(s, p) {
      return ErrValue, d;
    }
    var alloc := OpenAlloc(d, s, p, o, fill);
    if alloc.0.IsFatal() {
      return alloc.0, alloc.1;
    }
    var setup;
    setup, next := Setup(alloc.1, s, p, o, fill, pow, width);
    status := if setup == Ok then alloc.0 else setup;
  }

  /** A device whose open stopped at a warning, from a state with no strand
      length recorded (the initial state, or after a close), cannot be
      refreshed as set up: its strand length is still 0, so the slot a
      refresh takes for the latch is the first pixel slot of a buffer of
      `p + 1` slots, and no strand is driven. */
  lemma WarningLeavesUnready(d: Device, s: int, p: int, o: Outcomes, fill: bv8)
    requires OpenArgs(s, p) && d.perStrand == 0 && d.nStrands == 0
    requires o.alloc && o.open && o.bitMode && !o.divisor
    ensures OpenAlloc(d, s, p, o, fill).0.IsWarning()
    ensures !Ready(OpenAlloc(d, s, p, o, fill).1) && OpenAlloc(d, s, p, o, fill).1.nStrands == 0
  {
  }

  /** `TCsetStrandPin`: a strand outside 0 to 7 or an empty mask is a value
      error and changes nothing; otherwise the strand's mask is replaced,
      and a new clock pin of an allocated bit-banged device is rewritten into
      the odd bytes of the latch slot. */
  method SetStrandPin(d: Device, strand: int, bit: bv8) returns (status: Status, next: Device)
    ensures status == ErrValue <==> strand < 0 || strand > 7 || bit == 0
    ensures status == Ok || status == ErrValue
    ensures status == ErrValue ==> next == d
    ensures status == Ok ==> next == d.(pins := d.pins[strand := bit], buf := next.buf)
    ensures status == Ok && !(d.mode == SoftwareClock && strand == 7 && d.buf.Some?) ==> next.buf == d.buf
    ensures status == Ok && d.mode == SoftwareClock && strand == 7 && d.buf.Some? ==>
              next.buf.Some? && |next.buf.value| == |d.buf.value|
              && (forall q :: 0 <= q < |d.buf.value| ==> |next.buf.value[q]| == |d.buf.value[q]|)
              && Flatten(next.buf.value)
                 == FlatClock(Flatten(d.buf.value), d.perStrand * d.mode.BytesPerPixel(), d.mode.BytesPerPixel(), bit)
    ensures Ready(d) ==> Ready(next)
    ensures Ready(d) && status == Ok ==> forall q :: 0 <= q < d.perStrand ==> next.buf.value[q] == d.buf.value[q]
  {
    if strand < 0 || strand > 7 || bit == 0 {
      return ErrValue, d;
    }
    status := Ok;
    next := d.(pins := d.pins[strand := bit]);
    if d.mode == SoftwareClock && strand == 7 && d.buf.Some? {
      next := ReclockLatch(d, bit);
    } else if Ready(d) {
      HardwareLatch(d.mode, d.pins[7], next.pins[7]);
      assert Shaped(next.Geometry(), next.buf.value);
    }
  }

  /** The clock-pin part of `TCsetStrandPin` on an allocated bit-banged
      device: the new pin goes into the odd bytes of the window at the
      recorded strand length. */
  method ReclockLatch(d: Device, bit: bv8) returns (next: Device)
    requires d.mode == SoftwareClock && d.buf.Some?
    ensures next == d.(pins := d.pins[7 := bit], buf := next.buf)
    ensures next.buf.Some? && |next.buf.value| == |d.buf.value|
    ensures forall q :: 0 <= q < |d.buf.value| ==> |next.buf.value[q]| == |d.buf.value[q]|
    ensures Flatten(next.buf.value)
            == FlatClock(Flatten(d.buf.value), d.perStrand * d.mode.BytesPerPixel(), d.mode.BytesPerPixel(), bit)
    ensures Ready(d) ==> Ready(next)
    ensures Ready(d) ==> forall q :: 0 <= q < d.perStrand ==> next.buf.value[q] == d.buf.value[q]
  {
    var b, n := d.buf.value, d.mode.BytesPerPixel();
    var r := RewriteWindow(b, d.perStrand, n, bit);
    next := d.(pins := d.pins[7 := bit], buf := Some(r));
    ClockAtFlat(b, d.perStrand * n, n, bit);
    if Ready(d) {
      LatchRewrite(b, d.perStrand, d.pins[7], bit);
      assert Shaped(next.Geometry(), r);
    }
  }

  /** The latch slot depends on the clock pin only when the clock is
      bit-banged. */
  lemma HardwareLatch(mode: ClockMode, a: bv8, b: bv8)
    requires mode == HardwareClock || a == b
    ensures ClearSlot(mode, a) == ClearSlot(mode, b)
  {
  }

  /** `TCclose`: the handle is released, the allocation is freed through
      the current array (which takes the output buffer with it), and the
      geometry is forgotten; clock mode, pin map and gamma table survive
      for the next open. Without the current array nothing is freed, and an
      output buffer left over from a failed re-open is kept. */
  function Close(d: Device): (c: Device)
    ensures !c.handle && !c.current && c.nStrands == 0 && c.perStrand == 0
    ensures c.buf.None? <==> d.current || d.buf.None?
    ensures !d.current ==> c.buf == d.buf
    ensures c.mode == d.mode && c.pins == d.pins && c.table == d.table
  {
    d.(handle := false, buf := if d.current then None else d.buf, current := false, nStrands := 0, perStrand := 0)
  }

  /** Closing twice is closing once, a closed device cannot be refreshed,
      and the initial state is a closed one. */
  lemma CloseIdempotent(d: Device)
    ensures Close(Close(d)) == Close(d)
    ensures !Ready(Close(d))
    ensures Close(Initial()) == Initial()
  {
  }

  /** A close after the allocation ladder is a close of the device before
      it, with the clock mode the strand count chose. Once the allocation
      succeeded the close frees it, whatever the driver answered. When it
      failed, the output buffer is what it was before; so after a failed
      re-open of a device that was never closed, the old output buffer
      outlives the close. */
  lemma AllocThenClose(d: Device, s: int, p: int, o: Outcomes, fill: bv8)
    requires OpenArgs(s, p)
    ensures Close(OpenAlloc(d, s, p, o, fill).1) == Close(d).(mode := ModeFor(s), buf := if o.alloc then None else d.buf)
    ensures o.alloc || d.buf.None? ==> Close(OpenAlloc(d, s, p, o, fill).1).buf.None?
    ensures !o.alloc && d.current && d.buf.Some? ==> Close(OpenAlloc(d, s, p, o, fill).1).buf == d.buf != Close(d).buf
  {
  }
}
