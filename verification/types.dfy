/** Shared vocabulary of the P9813 driver: status codes, pin masks, remap
    sentinels and the packed 0xRRGGBB pixel format of the library header. */
module Types {

  datatype Option<+T> = None | Some(value: T)

  /** An `unsigned char` argument. */
  type UInt8 = x: int | 0 <= x < 256

  /** A packed 24-bit pixel, `0xRRGGBB`, in a 32-bit word. */
  type Pixel = bv32

  /** Flag added to the strand count passed to open: serial clock comes from
      a CBUS pin instead of being bit-banged. */
  const CbusClock: nat := 8

  /** How the serial clock is produced: bit-banged on the clock pin, taking
      two buffer bytes per data bit, or supplied by a CBUS pin, taking one. */
  datatype ClockMode = SoftwareClock | HardwareClock
  {
    /** Buffer bytes per pixel position (one 32-bit word per strand). */
    function BytesPerPixel(): (n: nat)
      ensures n == 32 * Step()
    {
      match this
      case SoftwareClock => 64
      case HardwareClock => 32
    }

    /** Buffer bytes per data bit. */
    function Step(): (n: nat)
      ensures 1 <= n <= 2
    {
      match this
      case SoftwareClock => 2
      case HardwareClock => 1
    }
  }

  /** Remap sentinels: a pixel that is attached but unused, and a pixel that
      is not attached to its strand at all. */
  const PixelUnused: int := -1
  const PixelDisconnected: int := -2

  /** Pin-to-bitmask constants of the USB-serial adapter. */
  const FtdiTx: bv8 := 0x01
  const FtdiRx: bv8 := 0x02
  const FtdiRts: bv8 := 0x04
  const FtdiCts: bv8 := 0x08
  const FtdiDtr: bv8 := 0x10
  const FtdiDsr: bv8 := 0x20
  const FtdiDcd: bv8 := 0x40
  const FtdiRi: bv8 := 0x80

  const FtdiPins: seq<bv8> := [FtdiTx, FtdiRx, FtdiRts, FtdiCts, FtdiDtr, FtdiDsr, FtdiDcd, FtdiRi]

  /** The bit mode written at open: every pin an output. */
  const AllOutputs: bv8 := 0xFF

  predicate SingleBit(m: bv8) {
    m != 0 && m & (m - 1) == 0
  }

  function OrAll(ms: seq<bv8>): bv8 {
    if |ms| == 0 then 0 else OrAll(ms[..|ms| - 1]) | ms[|ms| - 1]
  }

  /** The eight pin masks are distinct single bits that together cover the
      all-output bit mode. */
  lemma PinsPartitionPort()
    ensures |FtdiPins| == 8
    ensures forall i :: 0 <= i < 8 ==> SingleBit(FtdiPins[i])
    ensures forall i, j :: 0 <= i < j < 8 ==> FtdiPins[i] & FtdiPins[j] == 0
    ensures OrAll(FtdiPins) == AllOutputs
  {
    var ps := FtdiPins;
    assert OrAll(ps[..1]) == 0x01 by { assert ps[..1][..0] == []; }
    assert OrAll(ps[..2]) == 0x03 by { assert ps[..2][..1] == ps[..1]; }
    assert OrAll(ps[..3]) == 0x07 by { assert ps[..3][..2] == ps[..2]; }
    assert OrAll(ps[..4]) == 0x0F by { assert ps[..4][..3] == ps[..3]; }
    assert OrAll(ps[..5]) == 0x1F by { assert ps[..5][..4] == ps[..4]; }
    assert OrAll(ps[..6]) == 0x3F by { assert ps[..6][..5] == ps[..5]; }
    assert OrAll(ps[..7]) == 0x7F by { assert ps[..7][..6] == ps[..6]; }
    assert ps[..8][..7] == ps[..7] && ps[..8] == ps;
  }

  /** Status codes, in the order (and so with the numeric values) of the
      header's enumeration. */
  datatype Status = Ok | ErrValue | ErrMalloc | ErrOpen | ErrWrite | ErrMode | ErrDivisor | ErrBaudrate
  {
    function Code(): nat {
      match this
      case Ok => 0
      case ErrValue => 1
      case ErrMalloc => 2
      case ErrOpen => 3
      case ErrWrite => 4
      case ErrMode => 5
      case ErrDivisor => 6
      case ErrBaudrate => 7
    }

    /** Callers treat a non-OK code below the divisor warning as fatal. */
    predicate IsFatal() {
      this != Ok && Code() < ErrDivisor.Code()
    }

    predicate IsWarning() {
      this == ErrDivisor || this == ErrBaudrate
    }
  }

  const StatusCount: nat := 8

  function StatusOf(code: int): (r: Option<Status>)
    ensures r.Some? <==> 0 <= code < StatusCount
    ensures r.Some? ==> r.value.Code() == code
  {
    if code == 0 then Some(Ok)
    else if code == 1 then Some(ErrValue)
    else if code == 2 then Some(ErrMalloc)
    else if code == 3 then Some(ErrOpen)
    else if code == 4 then Some(ErrWrite)
    else if code == 5 then Some(ErrMode)
    else if code == 6 then Some(ErrDivisor)
    else if code == 7 then Some(ErrBaudrate)
    else None
  }

  /** Codes run 0..7, each status has its own code, and the two warnings are
      exactly the codes at or above the divisor warning. */
  lemma StatusCodes(s: Status, t: Status)
    ensures s.Code() < StatusCount
    ensures StatusOf(s.Code()) == Some(s)
    ensures s.Code() == t.Code() ==> s == t
    ensures s.IsWarning() <==> s.Code() >= ErrDivisor.Code()
    ensures s.IsFatal() <==> s != Ok && !s.IsWarning()
  {
  }

  /** The text printed for each status code, indexed by code. */
  const Messages: seq<string> := [
    "Function completed successfully -- no error.",
    "ERROR: Parameter out of range.",
    "ERROR: Could not allocate RAM.  Most likely a parameter is\n       way out of range, but perhaps the system is unfathomably\n       swamped; try quitting other programs.",
    "ERROR: Could not open FTDI device.\n       Is the USB cable connected?\n       Is the Virtual COM Port driver properly disabled?\n       Is another program already using the device?",
    "ERROR: Failed to write to FTDI device.  Has it been disconnected?",
    "ERROR: Could not enable bitbang mode.\n       Is this an FTDI USB-to-serial device?",
    "WARNING: Could not set I/O divisor.  Library code may be outside\n         valid range for this FTDI device, but program may choose\n         to continue with default setting.",
    "WARNING: Could not set I/O baud rate.  Library code may be \n         outside valid range for this FTDI device, but program\n         may choose to continue with default setting."
  ]

  /** The message the error printer selects for a code; out-of-range codes
      print nothing. */
  function ErrorMessage(code: int): Option<string> {
    if 0 <= code < |Messages| then Some(Messages[code]) else None
  }

  /** Exactly one message per status code, distinct codes get distinct
      messages, and no other code prints anything. */
  lemma OneMessagePerCode(code: int, other: int)
    ensures ErrorMessage(code).Some? <==> StatusOf(code).Some?
    ensures ErrorMessage(code).Some? && ErrorMessage(other).Some? && code != other
      ==> ErrorMessage(code) != ErrorMessage(other)
  {
    var lengths := [44, 30, 167, 178, 65, 82, 173, 176];
    assert forall i :: 0 <= i < 8 ==> |Messages[i]| == lengths[i];
  }

  /** `TCrgb(R, G, B)`: red in bits 16-23, green in 8-15, blue in 0-7. */
  function Rgb(r: bv8, g: bv8, b: bv8): Pixel {
    ((r as bv32) << 16) | ((g as bv32) << 8) | (b as bv32)
  }

  function RedOf(px: Pixel): bv8 { ((px >> 16) & 0xFF) as bv8 }
  function GreenOf(px: Pixel): bv8 { ((px >> 8) & 0xFF) as bv8 }
  function BlueOf(px: Pixel): bv8 { (px & 0xFF) as bv8 }

  /** The channel extraction of the encoder recovers each component of a
      packed pixel, and a pixel whose top byte is clear is rebuilt exactly
      from its three channels. */
  lemma RgbRoundTrip(r: bv8, g: bv8, b: bv8, px: Pixel)
    ensures RedOf(Rgb(r, g, b)) == r
    ensures GreenOf(Rgb(r, g, b)) == g
    ensures BlueOf(Rgb(r, g, b)) == b
    ensures Rgb(r, g, b) >> 24 == 0
    ensures px >> 24 == 0 ==> Rgb(RedOf(px), GreenOf(px), BlueOf(px)) == px
  {
    RgbChannels(r, g, b);
    if px >> 24 == 0 {
      RgbRebuild(px);
    }
  }

  lemma RgbChannels(r: bv8, g: bv8, b: bv8)
    ensures RedOf(Rgb(r, g, b)) == r && GreenOf(Rgb(r, g, b)) == g && BlueOf(Rgb(r, g, b)) == b
    ensures Rgb(r, g, b) >> 24 == 0
  {
  }

  lemma RgbRebuild(px: Pixel)
    requires px >> 24 == 0
    ensures Rgb(RedOf(px), GreenOf(px), BlueOf(px)) == px
  {
  }
}
