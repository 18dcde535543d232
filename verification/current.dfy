/** The per-pixel current estimate, in milliamps, from the calibration
    readings of a 25-pixel strand: a base current, plus a linear current per
    channel, scaled down by a correction factor for each pair of channels
    lit together. */
module Current {
  import opened Types

  /** Calibration readings (mA) of the whole test strand. */
  const CalPixels: int := 25
  const CalOff: int := 15
  const CalRawR: int := 510
  const CalRawG: int := 491
  const CalRawB: int := 491
  const CalRawRG: int := 956
  const CalRawGB: int := 929
  const CalRawRB: int := 957
  const CalRawRGB: int := 1322

  /** Readings with the base current taken off. */
  const CalR: int := CalRawR - CalOff
  const CalG: int := CalRawG - CalOff
  const CalB: int := CalRawB - CalOff
  const CalRG: int := CalRawRG - CalOff
  const CalGB: int := CalRawGB - CalOff
  const CalRB: int := CalRawRB - CalOff

  /** How much less two channels draw together than apart. */
  const ComboRG: real := CalRG as real / (CalR + CalG) as real
  const ComboGB: real := CalGB as real / (CalG + CalB) as real
  const ComboRB: real := CalRB as real / (CalR + CalB) as real

  /** Current of one pixel with every LED off. */
  const Base: real := CalOff as real / CalPixels as real

  /** Current of the LEDs alone, before the pair corrections. */
  function Linear(r: UInt8, g: UInt8, b: UInt8): real {
    (r as real * CalR as real / CalPixels as real
      + g as real * CalG as real / CalPixels as real
      + b as real * CalB as real / CalPixels as real) / 255.0
  }

  /** The correction for two channels at levels `x` and `y`. */
  function PairFactor(x: UInt8, y: UInt8, combo: real): real {
    1.0 - x as real * y as real / (255.0 * 255.0) * (1.0 - combo)
  }

  /** A linear current scaled by three correction factors. */
  function Scale(l: real, f1: real, f2: real, f3: real): real {
    f3 * (f2 * (f1 * l))
  }

  /** `EST_CURRENT(R, G, B)`. */
  function EstCurrent(r: UInt8, g: UInt8, b: UInt8): real {
    Base + Scale(Linear(r, g, b), PairFactor(r, g, ComboRG), PairFactor(g, b, ComboGB), PairFactor(r, b, ComboRB))
  }

  /** The current charged to a pixel rendered off: nothing for a
      disconnected slot, the base current for anything else. */
  function OffCurrent(mapped: int): (ma: real)
    ensures ma == 0.0 <==> mapped == PixelDisconnected
    ensures ma != 0.0 ==> ma == EstCurrent(0, 0, 0)
  {
    if mapped == PixelDisconnected then 0.0 else Base
  }

  /** Scaling by a fraction does not increase a non-negative amount. */
  lemma ScaleDown(a: real, b: real)
    requires 0.0 <= a <= 1.0 && 0.0 <= b
    ensures 0.0 <= a * b <= b
  {
    assert (1.0 - a) * b >= 0.0;
  }

  lemma ShrinkProduct(l: real, f1: real, f2: real, f3: real)
    requires 0.0 <= l && 0.0 <= f1 <= 1.0 && 0.0 <= f2 <= 1.0 && 0.0 <= f3 <= 1.0
    ensures 0.0 <= f3 * (f2 * (f1 * l)) <= l
  {
    ScaleDown(f1, l);
    ScaleDown(f2, f1 * l);
    ScaleDown(f3, f2 * (f1 * l));
  }

  /** Three successive fractions of a non-negative amount stay within it. */
  lemma Shrink(l: real, f1: real, f2: real, f3: real)
    requires 0.0 <= l && 0.0 <= f1 <= 1.0 && 0.0 <= f2 <= 1.0 && 0.0 <= f3 <= 1.0
    ensures 0.0 <= Scale(l, f1, f2, f3) <= l
  {
    ShrinkProduct(l, f1, f2, f3);
  }

  lemma ProductBound(x: UInt8, y: UInt8)
    ensures 0.0 <= x as real * y as real <= 255.0 * 255.0
  {
    assert x as real * y as real <= 255.0 * y as real;
  }

  /** Each pair factor lies between the pair's calibrated ratio (both
      channels full) and 1 (either channel off). */
  lemma PairFactorRange(x: UInt8, y: UInt8, combo: real)
    requires 0.0 <= combo <= 1.0
    ensures combo <= PairFactor(x, y, combo) <= 1.0
    ensures x == 0 || y == 0 ==> PairFactor(x, y, combo) == 1.0
    ensures x == 255 && y == 255 ==> PairFactor(x, y, combo) == combo
  {
    ProductBound(x, y);
    var t := x as real * y as real / (255.0 * 255.0);
    assert 0.0 <= t <= 1.0;
    ScaleDown(t, 1.0 - combo);
  }

  lemma ComboRanges()
    ensures 0.0 < ComboRG < 1.0 && 0.0 < ComboGB < 1.0 && 0.0 < ComboRB < 1.0
  {
  }

  lemma LinearRange(r: UInt8, g: UInt8, b: UInt8)
    ensures 0.0 <= Linear(r, g, b) <= (CalR + CalG + CalB) as real / CalPixels as real
  {
  }

  lemma FactorsInUnit(r: UInt8, g: UInt8, b: UInt8)
    ensures 0.0 <= PairFactor(r, g, ComboRG) <= 1.0
    ensures 0.0 <= PairFactor(g, b, ComboGB) <= 1.0
    ensures 0.0 <= PairFactor(r, b, ComboRB) <= 1.0
  {
    ComboRanges();
    PairFactorRange(r, g, ComboRG);
    PairFactorRange(g, b, ComboGB);
    PairFactorRange(r, b, ComboRB);
  }

  /** An estimate never falls below the base current, nor exceeds it by more
      than the uncorrected sum of the lit channels. */
  lemma EstimateBounds(r: UInt8, g: UInt8, b: UInt8)
    ensures Base <= EstCurrent(r, g, b) <= Base + Linear(r, g, b)
    ensures EstCurrent(r, g, b) <= Base + (CalR + CalG + CalB) as real / CalPixels as real
  {
    FactorsInUnit(r, g, b);
    LinearRange(r, g, b);
    Shrink(Linear(r, g, b), PairFactor(r, g, ComboRG), PairFactor(g, b, ComboGB), PairFactor(r, b, ComboRB));
  }

  /** The model reproduces the calibration readings it was built from: all
      off, each channel alone at full, and each pair at full, per pixel. */
  lemma CalibrationReproduced()
    ensures EstCurrent(0, 0, 0) == CalOff as real / CalPixels as real
    ensures EstCurrent(255, 0, 0) == CalRawR as real / CalPixels as real
    ensures EstCurrent(0, 255, 0) == CalRawG as real / CalPixels as real
    ensures EstCurrent(0, 0, 255) == CalRawB as real / CalPixels as real
    ensures EstCurrent(255, 255, 0) == CalRawRG as real / CalPixels as real
    ensures EstCurrent(0, 255, 255) == CalRawGB as real / CalPixels as real
    ensures EstCurrent(255, 0, 255) == CalRawRB as real / CalPixels as real
  {
  }
}
