/** Conversions between a byte and its value, kept apart from everything
    else so that their proofs see no unrelated facts. A value is turned
    into a byte by counting up from 0, so that every proof only ever reads
    a byte's value and never converts an integer into a byte. */
module Bytes {
  /** The byte whose value is `v`. */
  function ByteFor(v: int): bv8
    requires 0 <= v < 256
    decreases v
  {
    if v == 0 then 0 else ByteFor(v - 1) + 1
  }

  /** One more than a byte below 255 has value one more. */
  lemma Succ(x: bv8)
    requires x as int < 255
    ensures (x + 1) as int == x as int + 1
  {
  }

  lemma {:induction false} ByteValue(v: int)
    requires 0 <= v < 256
    ensures ByteFor(v) as int == v
    decreases v
  {
    if v > 0 {
      ByteValue(v - 1);
      Succ(ByteFor(v - 1));
    }
  }

  lemma ByteInjective(x: bv8, y: bv8)
    requires x as int == y as int
    ensures x == y
  {
  }
}

/** The 256-entry, three-channel gamma table the encoder looks colours up
    in, and the three ways of filling it. The floating-point `pow` of the C
    library is a parameter: `pow(d, g)` for `d` in [0, 1]. */
module Gamma {
  import opened Types
  import opened Word
  import opened Bytes

  const DefaultGamma: real := 2.4

  datatype Channel = Red | Green | Blue

  /** One row of the table: the corrected level of each channel for one
      input level. */
  datatype Levels = Levels(r: UInt8, g: UInt8, b: UInt8)
  {
    function At(c: Channel): UInt8 {
      match c
      case Red => r
      case Green => g
      case Blue => b
    }
  }

  type Table = t: seq<Levels> | |t| == 256 witness seq(256, _ => Levels(0, 0, 0))

  /** The table of a library that has not set one (static storage is zero). */
  function ZeroTable(): (t: Table)
    ensures forall i :: 0 <= i < 256 ==> t[i] == Levels(0, 0, 0)
  {
    seq(256, _ => Levels(0, 0, 0))
  }

  /** An `unsigned char` level as the byte it is stored in. */
  function ToByte(v: UInt8): (x: bv8)
    ensures x as int == v
  {
    ByteValue(v);
    ByteFor(v)
  }

  /** Looks the three channels of a packed pixel up in the table. */
  function Correct(table: Table, px: Pixel): (c: Color)
    ensures c.r as int == table[RedOf(px) as int].r
    ensures c.g as int == table[GreenOf(px) as int].g
    ensures c.b as int == table[BlueOf(px) as int].b
  {
    Color(ToByte(table[RedOf(px) as int].r), ToByte(table[GreenOf(px) as int].g), ToByte(table[BlueOf(px) as int].b))
  }

  /** `pow(i / 255, gamma)`. */
  function Sample(pow: (real, real) -> real, gamma: real, i: int): real {
    pow(i as real / 255.0, gamma)
  }

  /** The mathematical range of `pow` on the table's sample points. */
  predicate PowSane(pow: (real, real) -> real, gamma: real) {
    forall i :: 0 <= i < 256 ==> 0.0 <= Sample(pow, gamma, i) <= 1.0
  }

  /** `pow` does not decrease along the sample points. */
  predicate PowMonotone(pow: (real, real) -> real, gamma: real) {
    forall i, j :: 0 <= i <= j < 256 ==> Sample(pow, gamma, i) <= Sample(pow, gamma, j)
  }

  /** `floor(range * p + 0.5)`, `p` scaled to `range` and rounded to nearest. */
  function Scaled(range: int, p: real): int {
    (range as real * p + 0.5).Floor
  }

  /** A brightness range and exponent for one channel. */
  datatype Curve = Curve(min: UInt8, max: UInt8, gamma: real)

  /** One table entry: `min + floor(range * p + 0.5)` stored in an unsigned
      char, so kept modulo 256. */
  function Level(curve: Curve, p: real): (v: UInt8)
    ensures 0.0 <= p <= 1.0 && curve.min <= curve.max ==> curve.min <= v <= curve.max
  {
    ScaledBounds(curve.max - curve.min, p);
    (curve.min + Scaled(curve.max - curve.min, p)) % 256
  }

  lemma ScaledBounds(range: int, p: real)
    ensures 0.0 <= p <= 1.0 && 0 <= range ==> 0 <= Scaled(range, p) <= range
  {
    if 0.0 <= p <= 1.0 && 0 <= range {
      assert 0.0 <= range as real * p <= range as real;
    }
  }

  /** The table three curves describe. */
  function CurveTable(red: Curve, green: Curve, blue: Curve, pow: (real, real) -> real): (t: Table)
    ensures forall i :: 0 <= i < 256 ==>
      t[i] == Levels(Level(red, Sample(pow, red.gamma, i)), Level(green, Sample(pow, green.gamma, i)), Level(blue, Sample(pow, blue.gamma, i)))
  {
    seq(256, i requires 0 <= i < 256 =>
      Levels(Level(red, Sample(pow, red.gamma, i)), Level(green, Sample(pow, green.gamma, i)), Level(blue, Sample(pow, blue.gamma, i))))
  }

  function Gray(v: UInt8): Levels {
    Levels(v, v, v)
  }

  /** The single-exponent table: `(unsigned char)(255 * p + 0.5)`. */
  function SimpleTable(gamma: real, pow: (real, real) -> real): (t: Table)
    ensures forall i :: 0 <= i < 256 ==> t[i].r == t[i].g == t[i].b
  {
    seq(256, i requires 0 <= i < 256 => Gray(Scaled(255, Sample(pow, gamma, i)) % 256))
  }

  /** The table of a library with gamma correction disabled. */
  function IdentityTable(): (t: Table)
    ensures forall i :: 0 <= i < 256 ==> t[i] == Levels(i, i, i)
  {
    seq(256, i requires 0 <= i < 256 => Levels(i, i, i))
  }

  /** The curve a channel gets from a table setter. */
  function CurveOf(red: Curve, green: Curve, blue: Curve, c: Channel): Curve {
    match c
    case Red => red
    case Green => green
    case Blue => blue
  }

  /** `TCsetGammaSimple`: a non-positive exponent is rejected and leaves the
      table as it was; otherwise every channel gets the same curve. */
  function SetGammaSimple(table: Table, gamma: real, pow: (real, real) -> real): (r: (Status, Table))
    ensures r.0 == Ok || r.0 == ErrValue
    ensures r.0 == ErrValue <==> gamma <= 0.0
    ensures r.0 == ErrValue ==> r.1 == table
    ensures r.0 == Ok ==> forall i :: 0 <= i < 256 ==> r.1[i].r == r.1[i].g == r.1[i].b
  {
    if gamma <= 0.0 then (ErrValue, table) else (Ok, SimpleTable(gamma, pow))
  }

  /** `TCsetGamma`: any non-positive exponent is rejected and leaves the table
      as it was; otherwise each channel gets its own curve. */
  function SetGamma(table: Table, red: Curve, green: Curve, blue: Curve, pow: (real, real) -> real): (r: (Status, Table))
    ensures r.0 == Ok || r.0 == ErrValue
    ensures r.0 == ErrValue <==> red.gamma <= 0.0 || green.gamma <= 0.0 || blue.gamma <= 0.0
    ensures r.0 == ErrValue ==> r.1 == table
  {
    if red.gamma <= 0.0 || green.gamma <= 0.0 || blue.gamma <= 0.0 then (ErrValue, table)
    else (Ok, CurveTable(red, green, blue, pow))
  }

  /** `TCdisableGamma`: every channel maps each level to itself. */
  function DisableGamma(): (t: Table)
    ensures forall i :: 0 <= i < 256 ==> t[i].r == i && t[i].g == i && t[i].b == i
  {
    IdentityTable()
  }

  /** Entry `i` of a curve table in channel `c` is that channel's level at
      sample `i`. */
  lemma ChannelEntry(red: Curve, green: Curve, blue: Curve, pow: (real, real) -> real, i: int, c: Channel)
    requires 0 <= i < 256
    ensures CurveTable(red, green, blue, pow)[i].At(c)
      == Level(CurveOf(red, green, blue, c), Sample(pow, CurveOf(red, green, blue, c).gamma, i))
  {
  }

  /** Every entry of an accepted curve table lies within its channel's
      [min, max] range. */
  lemma CurveBounds(red: Curve, green: Curve, blue: Curve, pow: (real, real) -> real, i: int, c: Channel)
    requires 0 <= i < 256
    requires PowSane(pow, CurveOf(red, green, blue, c).gamma)
    requires CurveOf(red, green, blue, c).min <= CurveOf(red, green, blue, c).max
    ensures CurveOf(red, green, blue, c).min <= CurveTable(red, green, blue, pow)[i].At(c) <= CurveOf(red, green, blue, c).max
  {
    var curve := CurveOf(red, green, blue, c);
    assert 0.0 <= Sample(pow, curve.gamma, i) <= 1.0;
    ChannelEntry(red, green, blue, pow, i, c);
  }

  lemma ScaledEnds(range: int)
    ensures Scaled(range, 0.0) == 0 && Scaled(range, 1.0) == range
  {
  }

  /** When `pow` maps 0 to 0 and 1 to 1, the first entry is the channel's
      minimum and the last its maximum. */
  lemma CurveEndpoints(red: Curve, green: Curve, blue: Curve, pow: (real, real) -> real, c: Channel)
    requires Sample(pow, CurveOf(red, green, blue, c).gamma, 0) == 0.0
    requires Sample(pow, CurveOf(red, green, blue, c).gamma, 255) == 1.0
    requires CurveOf(red, green, blue, c).min <= CurveOf(red, green, blue, c).max
    ensures CurveTable(red, green, blue, pow)[0].At(c) == CurveOf(red, green, blue, c).min
    ensures CurveTable(red, green, blue, pow)[255].At(c) == CurveOf(red, green, blue, c).max
  {
    var curve := CurveOf(red, green, blue, c);
    ChannelEntry(red, green, blue, pow, 0, c);
    ChannelEntry(red, green, blue, pow, 255, c);
    ScaledEnds(curve.max - curve.min);
    LevelExact(curve, 0.0);
    LevelExact(curve, 1.0);
  }

  lemma ScaledMonotone(range: int, p: real, q: real)
    requires 0 <= range && p <= q
    ensures Scaled(range, p) <= Scaled(range, q)
  {
    assert range as real * p <= range as real * q;
  }

  lemma LevelMonotone(curve: Curve, p: real, q: real)
    requires 0.0 <= p <= q <= 1.0 && curve.min <= curve.max
    ensures Level(curve, p) <= Level(curve, q)
  {
    ScaledMonotone(curve.max - curve.min, p, q);
    LevelExact(curve, p);
    LevelExact(curve, q);
  }

  /** Within range the modulo never wraps: a level is the minimum plus the
      scaled sample. */
  lemma LevelExact(curve: Curve, p: real)
    requires 0.0 <= p <= 1.0 && curve.min <= curve.max
    ensures Level(curve, p) == curve.min + Scaled(curve.max - curve.min, p)
  {
    ScaledBounds(curve.max - curve.min, p);
    Unwrapped(curve.min + Scaled(curve.max - curve.min, p));
  }

  lemma Unwrapped(v: int)
    requires 0 <= v < 256
    ensures v % 256 == v
  {
  }

  /** A non-decreasing `pow` gives a non-decreasing channel. */
  lemma CurveMonotone(red: Curve, green: Curve, blue: Curve, pow: (real, real) -> real, c: Channel, i: int, j: int)
    requires 0 <= i <= j < 256
    requires PowSane(pow, CurveOf(red, green, blue, c).gamma)
    requires PowMonotone(pow, CurveOf(red, green, blue, c).gamma)
    requires CurveOf(red, green, blue, c).min <= CurveOf(red, green, blue, c).max
    ensures CurveTable(red, green, blue, pow)[i].At(c) <= CurveTable(red, green, blue, pow)[j].At(c)
  {
    var curve := CurveOf(red, green, blue, c);
    var p, q := Sample(pow, curve.gamma, i), Sample(pow, curve.gamma, j);
    assert 0.0 <= p <= 1.0 && 0.0 <= q <= 1.0 && p <= q;
    LevelMonotone(curve, p, q);
    ChannelEntry(red, green, blue, pow, i, c);
    ChannelEntry(red, green, blue, pow, j, c);
  }

  /** The simple setter is the general one with the full 0..255 range on
      every channel. */
  lemma SimpleIsFullRange(table: Table, gamma: real, pow: (real, real) -> real)
    ensures SetGammaSimple(table, gamma, pow) == SetGamma(table, Curve(0, 255, gamma), Curve(0, 255, gamma), Curve(0, 255, gamma), pow)
  {
    var full := Curve(0, 255, gamma);
    if gamma > 0.0 {
      var s, t := SimpleTable(gamma, pow), CurveTable(full, full, full, pow);
      forall i | 0 <= i < 256
        ensures s[i] == t[i]
      {
        assert Level(full, Sample(pow, gamma, i)) == Scaled(255, Sample(pow, gamma, i)) % 256;
      }
      assert s == t;
    }
  }

  /** Exponent 1 with an exact `pow` is the identity table: linear gamma is
      no correction at all. */
  lemma LinearIsIdentity(pow: (real, real) -> real)
    requires forall i :: 0 <= i < 256 ==> Sample(pow, 1.0, i) == i as real / 255.0
    ensures SimpleTable(1.0, pow) == IdentityTable()
  {
    var s := SimpleTable(1.0, pow);
    forall i | 0 <= i < 256
      ensures s[i] == IdentityTable()[i]
    {
      assert 255.0 * (i as real / 255.0) + 0.5 == i as real + 0.5;
    }
  }

  /** A byte's value stored back is the byte. */
  lemma ToByteOfValue(x: bv8)
    ensures ToByte(x as int) == x
  {
    ByteInjective(ToByte(x as int), x);
  }

  /** With gamma disabled a pixel's channels pass through unchanged. */
  lemma IdentityTransparent(r: bv8, g: bv8, b: bv8)
    ensures Correct(IdentityTable(), Rgb(r, g, b)) == Color(r, g, b)
  {
    RgbChannels(r, g, b);
    IdentityEntry(r);
    IdentityEntry(g);
    IdentityEntry(b);
  }

  /** The identity table's row for a byte stores that byte back in every
      channel. */
  lemma IdentityEntry(v: bv8)
    ensures var e := IdentityTable()[v as int]; ToByte(e.r) == v && ToByte(e.g) == v && ToByte(e.b) == v
  {
    ToByteOfValue(v);
  }
}
