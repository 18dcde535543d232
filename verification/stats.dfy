/** The statistics a refresh keeps: per-frame and cumulative output size,
    I/O time and throughput, frame period and rate, and the estimated
    current and charge. Integer counters are exact; rates and charge are
    reals (the double rounding of the C code is not modelled). */
module Stats {
  import opened Types

  /** An `unsigned long` timestamp or time difference. */
  const ULongLimit: int := 0x1_0000_0000_0000_0000
  type ULong = x: int | 0 <= x < ULongLimit

  /** Microseconds per hour: the unit change from mA·µs to mAh. */
  const UsecPerHour: real := 1000000.0 * 60.0 * 60.0

  datatype Stats = Stats(
    frames: nat,
    bits: nat,
    bitsTotal: nat,
    bps: nat,
    bpsAvg: nat,
    usecIo: ULong,
    usecFrame: ULong,
    usecIoTotal: nat,
    usecFrameTotal: nat,
    fps: real,
    fpsAvg: real,
    ma: real,
    maAvg: real,
    maMax: real,
    mah: real,
    mahTotal: real,
    reserved: ULong)

  /** `TCinitStats` on a record: every counter, rate and total zero. */
  function InitStats(): (s: Stats)
    ensures s.frames == 0 && s.bits == 0 && s.bitsTotal == 0 && s.bps == 0 && s.bpsAvg == 0
    ensures s.usecIo == 0 && s.usecFrame == 0 && s.usecIoTotal == 0 && s.usecFrameTotal == 0 && s.reserved == 0
    ensures s.fps == 0.0 && s.fpsAvg == 0.0
    ensures s.ma == 0.0 && s.maAvg == 0.0 && s.maMax == 0.0 && s.mah == 0.0 && s.mahTotal == 0.0
  {
    Stats(0, 0, 0, 0, 0, 0, 0, 0, 0, 0.0, 0.0, 0.0, 0.0, 0.0, 0.0, 0.0, 0)
  }

  /** `TCinitStats(stats)`: a missing record is a value error, a present one
      is reset. */
  function InitStatsCall(stats: Option<Stats>): (r: (Status, Option<Stats>))
    ensures r.0 == ErrValue <==> stats.None?
    ensures r.0 == Ok ==> r.1 == Some(InitStats())
    ensures stats.None? ==> r.1 == stats
  {
    match stats
    case None => (ErrValue, None)
    case Some(_) => (Ok, Some(InitStats()))
  }

  /** `later - earlier` on `unsigned long`: wraps modulo 2^64. */
  function USub(later: ULong, earlier: ULong): (d: ULong)
    ensures later >= earlier ==> d == later - earlier
    ensures (d + earlier) % ULongLimit == later
  {
    if later >= earlier then later - earlier else later - earlier + ULongLimit
  }

  /** The bits one refresh puts on the wire: every strand carries the whole
      buffer, pixels plus latch, and in software-clock mode only every other
      byte is a data bit. */
  function FrameBits(nStrands: nat, perStrand: nat, mode: ClockMode): (b: nat)
    ensures b == 32 * nStrands * (perStrand + 1)
  {
    var len := (perStrand + 1) * mode.BytesPerPixel();
    if mode.BytesPerPixel() == 64 then (nStrands * len) / 2 else nStrands * len
  }

  /** The sum of the per-pixel currents, in index order. */
  function Sum(xs: seq<real>): real
    decreases |xs|
  {
    if xs == [] then 0.0 else Sum(xs[..|xs| - 1]) + xs[|xs| - 1]
  }

  /** The values the frame-period block computes, or the old ones when it
      is skipped. */
  datatype Period = Period(usecFrame: ULong, usecFrameTotal: nat, fps: real, fpsAvg: real, mah: real, mahTotal: real, maAvg: real)

  /** The frame-period block: skipped on the first frame (there is no prior
      timestamp); otherwise the frame period is the time since the prior
      refresh, and the charge is the prior frame's current over that period. */
  function FramePeriod(s: Stats, time2: ULong): (p: Period)
    ensures s.frames == 0 ==>
      p == Period(s.usecFrame, s.usecFrameTotal, s.fps, s.fpsAvg, s.mah, s.mahTotal, s.maAvg)
    ensures s.frames != 0 ==> p.usecFrame == USub(time2, s.reserved)
    ensures s.frames != 0 ==> p.mah == Charge(s.ma, p.usecFrame)
    ensures p.mahTotal == s.mahTotal + (if s.frames != 0 then p.mah else 0.0)
    ensures p.usecFrameTotal == s.usecFrameTotal + (if s.frames != 0 then p.usecFrame else 0)
    ensures s.frames != 0 && p.usecFrame != 0 ==> p.fps * p.usecFrame as real == 1000000.0
    ensures s.frames != 0 && p.usecFrame == 0 ==> p.fps == 0.0
    ensures p.usecFrameTotal != 0 && s.frames != 0 ==> p.fpsAvg * p.usecFrameTotal as real == s.frames as real * 1000000.0
    ensures p.usecFrameTotal != 0 && s.frames != 0 ==> p.maAvg * p.usecFrameTotal as real == p.mahTotal * UsecPerHour
    ensures p.usecFrameTotal == 0 ==> p.fpsAvg == s.fpsAvg && p.maAvg == s.maAvg
  {
    if s.frames == 0 then
      Period(s.usecFrame, s.usecFrameTotal, s.fps, s.fpsAvg, s.mah, s.mahTotal, s.maAvg)
    else
      var usecFrame := USub(time2, s.reserved);
      var fps := if usecFrame != 0 then 1000000.0 / usecFrame as real else 0.0;
      var total := if usecFrame != 0 then s.usecFrameTotal + usecFrame else s.usecFrameTotal;
      var fpsAvg := if total != 0 then s.frames as real * 1000000.0 / total as real else s.fpsAvg;
      var mah := Charge(s.ma, usecFrame);
      var mahTotal := s.mahTotal + mah;
      var maAvg := if total != 0 then mahTotal * UsecPerHour / total as real else s.maAvg;
      Period(usecFrame, total, fps, fpsAvg, mah, mahTotal, maAvg)
  }

  /** The charge in mAh of a current of `ma` milliamperes held for `usec`
      microseconds. */
  function Charge(ma: real, usec: ULong): (q: real)
    ensures q * UsecPerHour == ma * usec as real
  {
    ma * usec as real / UsecPerHour
  }

  /** `(unsigned long)(amount * 1e6 / usec)`: a throughput in units per
      second, rounded down, for a nonzero time. */
  function Rate(amount: nat, usec: nat): (r: nat)
    requires usec != 0
    ensures r * usec <= amount * 1000000 < (r + 1) * usec
  {
    Quotient(amount * 1000000, usec)
  }

  /** `a / b` rounded down. */
  function Quotient(a: nat, b: nat): (q: nat)
    requires b != 0
    ensures q * b <= a < (q + 1) * b
  {
    a / b
  }

  /** Phase 3 of a refresh: the statistics after one frame. `time1` and
      `time2` are the clock before and after the write, `currents` the
      frame's per-pixel current estimates. The write's outcome plays no
      part: a failed write still counts as a frame. */
  function Step(s: Stats, nStrands: nat, perStrand: nat, mode: ClockMode,
                time1: ULong, time2: ULong, currents: seq<real>): (r: Stats)
    ensures r.bits == 32 * nStrands * (perStrand + 1)
    ensures r.bitsTotal == s.bitsTotal + r.bits
    ensures r.usecIo == USub(time2, time1)
    ensures r.usecIoTotal == s.usecIoTotal + r.usecIo
    ensures r.usecIo == 0 ==> r.bps == 0
    ensures r.usecIo != 0 ==> r.bps == Rate(r.bits, r.usecIo)
    ensures r.usecIoTotal == 0 ==> r.bpsAvg == r.bps
    ensures r.usecIoTotal != 0 ==> r.bpsAvg == Rate(r.bitsTotal, r.usecIoTotal)
    ensures r.ma == Sum(currents)
    ensures r.maMax >= s.maMax && r.maMax >= r.ma && (r.maMax == s.maMax || r.maMax == r.ma)
    ensures r.reserved == time2 && r.frames == s.frames + 1
    ensures var p := FramePeriod(s, time2);
      r.usecFrame == p.usecFrame && r.usecFrameTotal == p.usecFrameTotal && r.fps == p.fps
      && r.fpsAvg == p.fpsAvg && r.mah == p.mah && r.mahTotal == p.mahTotal && r.maAvg == p.maAvg
  {
    var bits := FrameBits(nStrands, perStrand, mode);
    var usecIo := USub(time2, time1);
    var bps := if usecIo > 0 then Rate(bits, usecIo) else 0;
    var usecIoTotal := if usecIo > 0 then s.usecIoTotal + usecIo else s.usecIoTotal;
    var bitsTotal := s.bitsTotal + bits;
    var bpsAvg := if usecIoTotal != 0 then Rate(bitsTotal, usecIoTotal) else bps;
    var p := FramePeriod(s, time2);
    var ma := Sum(currents);
    Stats(s.frames + 1, bits, bitsTotal, bps, bpsAvg, usecIo, p.usecFrame, usecIoTotal, p.usecFrameTotal,
          p.fps, p.fpsAvg, ma, p.maAvg, if ma > s.maMax then ma else s.maMax, p.mah, p.mahTotal, time2)
  }

  /** What one refresh feeds the statistics. */
  datatype Frame = Frame(time1: ULong, time2: ULong, currents: seq<real>)

  /** The statistics after a sequence of refreshes of one device. */
  function Run(s: Stats, nStrands: nat, perStrand: nat, mode: ClockMode, fs: seq<Frame>): Stats
    decreases |fs|
  {
    if fs == [] then s
    else
      var last := fs[|fs| - 1];
      Step(Run(s, nStrands, perStrand, mode, fs[..|fs| - 1]), nStrands, perStrand, mode, last.time1, last.time2, last.currents)
  }

  /** A run extended by one refresh is one more step. */
  lemma RunSnoc(s: Stats, nStrands: nat, perStrand: nat, mode: ClockMode, fs: seq<Frame>, f: Frame)
    ensures Run(s, nStrands, perStrand, mode, fs + [f])
      == Step(Run(s, nStrands, perStrand, mode, fs), nStrands, perStrand, mode, f.time1, f.time2, f.currents)
  {
    assert (fs + [f])[..|fs|] == fs;
  }

  /** Over a run the frame counter counts the refreshes and the bit total
      grows by one frame's bits per refresh. */
  lemma {:induction false} RunTotals(s: Stats, nStrands: nat, perStrand: nat, mode: ClockMode, fs: seq<Frame>)
    ensures Run(s, nStrands, perStrand, mode, fs).frames == s.frames + |fs|
    ensures Run(s, nStrands, perStrand, mode, fs).bitsTotal == s.bitsTotal + |fs| * FrameBits(nStrands, perStrand, mode)
    decreases |fs|
  {
    if fs != [] {
      var b := FrameBits(nStrands, perStrand, mode);
      RunTotals(s, nStrands, perStrand, mode, fs[..|fs| - 1]);
      MoreRows(|fs| - 1, b);
    }
  }

  lemma MoreRows(k: nat, b: nat)
    ensures k * b + b == (k + 1) * b
  {
  }

  /** The running maximum is at least the current of every frame of a run. */
  lemma {:induction false} RunPeak(s: Stats, nStrands: nat, perStrand: nat, mode: ClockMode, fs: seq<Frame>, i: nat)
    requires i < |fs|
    ensures Run(s, nStrands, perStrand, mode, fs).maMax >= Sum(fs[i].currents)
    ensures Run(s, nStrands, perStrand, mode, fs).maMax >= s.maMax
    decreases |fs|
  {
    var r := Run(s, nStrands, perStrand, mode, fs[..|fs| - 1]);
    if i < |fs| - 1 {
      RunPeak(s, nStrands, perStrand, mode, fs[..|fs| - 1], i);
    } else if |fs| > 1 {
      RunPeak(s, nStrands, perStrand, mode, fs[..|fs| - 1], 0);
    }
  }

  /** The charge of each frame is the previous frame's current over the
      time between the two refreshes: the current of a frame is charged
      only once the next refresh knows how long it was shown. */
  lemma ChargeOfPreviousFrame(s: Stats, nStrands: nat, perStrand: nat, mode: ClockMode, a: Frame, b: Frame)
    ensures var r1 := Step(s, nStrands, perStrand, mode, a.time1, a.time2, a.currents);
      Step(r1, nStrands, perStrand, mode, b.time1, b.time2, b.currents).mah
        == Charge(Sum(a.currents), USub(b.time2, a.time2))
  {
  }

  /** A run of two refreshes is two steps. */
  lemma RunTwo(s: Stats, nStrands: nat, perStrand: nat, mode: ClockMode, a: Frame, b: Frame)
    ensures Run(s, nStrands, perStrand, mode, [a, b])
      == Step(Step(s, nStrands, perStrand, mode, a.time1, a.time2, a.currents), nStrands, perStrand, mode, b.time1, b.time2, b.currents)
  {
    RunSnoc(s, nStrands, perStrand, mode, [], a);
    RunSnoc(s, nStrands, perStrand, mode, [a], b);
    assert [] + [a] == [a] && [a] + [b] == [a, b];
  }

  /** A record in which no frame time has accrued holds no charge either. */
  predicate Quiet(s: Stats) {
    s.usecFrameTotal == 0 ==> s.mahTotal == 0.0
  }

  /** The fresh record is quiet, and a step keeps it so: a period of zero
      adds no charge. */
  lemma QuietPreserved(s: Stats, nStrands: nat, perStrand: nat, mode: ClockMode, time1: ULong, time2: ULong, currents: seq<real>)
    requires Quiet(s)
    ensures Quiet(InitStats())
    ensures Quiet(Step(s, nStrands, perStrand, mode, time1, time2, currents))
  {
    var p := FramePeriod(s, time2);
    if s.frames != 0 && p.usecFrameTotal == 0 {
      assert p.usecFrame == 0;
      assert p.mah * UsecPerHour == 0.0;
    }
  }

  /** A double, as far as the average-current division needs one. */
  datatype Double = Finite(v: real) | NaN | Infinity

  /** `x / y` on doubles with `x >= 0`: 0/0 is not a number, x/0 infinite. */
  function Divide(x: real, y: real): (d: Double)
    requires x >= 0.0 && y >= 0.0
    ensures y != 0.0 <==> d.Finite?
    ensures y != 0.0 ==> d.v * y == x
  {
    if y != 0.0 then Finite(x / y) else if x == 0.0 then NaN else Infinity
  }

  /** The average current as the source computes it: the division by the
      total frame time is not guarded. */
  function MaAvgAsWritten(mahTotal: real, usecFrameTotal: nat): (d: Double)
    requires mahTotal >= 0.0
    ensures usecFrameTotal != 0 ==> d.Finite? && d.v * usecFrameTotal as real == mahTotal * UsecPerHour
  {
    Divide(mahTotal * UsecPerHour, usecFrameTotal as real)
  }

  /** Two refreshes in the same microsecond, from a fresh record, leave the
      average current of the source undefined: the second step enters the
      frame-period block with a total frame time of 0 and divides 0 by 0. */
  lemma UnguardedAverage(nStrands: nat, perStrand: nat, mode: ClockMode, t: ULong, currents: seq<real>)
    ensures var r := Run(InitStats(), nStrands, perStrand, mode, [Frame(t, t, currents), Frame(t, t, currents)]);
      r.frames == 2 && r.usecFrameTotal == 0 && r.mahTotal == 0.0
      && MaAvgAsWritten(r.mahTotal, r.usecFrameTotal) == NaN
  {
    var f := Frame(t, t, currents);
    var r1 := Step(InitStats(), nStrands, perStrand, mode, t, t, currents);
    RunTwo(InitStats(), nStrands, perStrand, mode, f, f);
    QuietPreserved(InitStats(), nStrands, perStrand, mode, t, t, currents);
    QuietPreserved(r1, nStrands, perStrand, mode, t, t, currents);
  }

  /** The corrected step, which guards the average like the frame-rate
      average, always holds a finite average current, and once frame time
      has accrued it is the total charge over the total time. */
  lemma AverageCurrent(s: Stats, nStrands: nat, perStrand: nat, mode: ClockMode, time1: ULong, time2: ULong, currents: seq<real>)
    requires s.frames != 0 && s.mahTotal >= 0.0 && s.ma >= 0.0
    ensures var r := Step(s, nStrands, perStrand, mode, time1, time2, currents);
      r.mahTotal >= 0.0
      && (r.usecFrameTotal != 0 ==> MaAvgAsWritten(r.mahTotal, r.usecFrameTotal) == Finite(r.maAvg))
      && (r.usecFrameTotal == 0 ==> r.maAvg == s.maAvg)
  {
    var p := FramePeriod(s, time2);
    assert p.mah * UsecPerHour >= 0.0 by {
      NonNegProduct(s.ma, p.usecFrame as real);
    }
    if p.usecFrameTotal != 0 {
      var d := MaAvgAsWritten(p.mahTotal, p.usecFrameTotal);
      Cancel(d.v, p.maAvg, p.usecFrameTotal as real);
    }
  }

  lemma NonNegProduct(a: real, b: real)
    requires a >= 0.0 && b >= 0.0
    ensures a * b >= 0.0
  {
  }

  lemma Cancel(x: real, y: real, z: real)
    requires z != 0.0 && x * z == y * z
    ensures x == y
  {
    assert (x - y) * z == 0.0;
  }
}
