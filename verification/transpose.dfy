/** Turning one pixel's command word "sideways": each of its 32 bits, most
    significant first, ORs the strand's pin mask into the byte (hardware
    clock) or pair of bytes (software clock) of its bit position within the
    pixel position's slot. */
module Transpose {
  import opened Types
  import opened Word

  /** Width of the C `unsigned long` that holds the word while it is shifted. */
  datatype LongWidth = Long32 | Long64
  {
    function Size(): (n: nat)
      ensures n >= 32
    {
      match this
      case Long32 => 32
      case Long64 => 64
    }
  }

  /** What a set bit adds to a byte. */
  function Contribution(bit: bool, mask: bv8): (r: bv8)
    ensures bit ==> r == mask
    ensures !bit ==> r == 0
  {
    if bit then mask else 0
  }

  /** The stream bit that byte `j` of a slot carries. */
  function BitIndex(j: nat, mode: ClockMode): (i: nat)
    ensures j < mode.BytesPerPixel() ==> i < 32
  {
    match mode
    case SoftwareClock => j / 2
    case HardwareClock => j
  }

  /** Reference definition: a walk over all 32 bits of a stream. */
  function Spread(slot: seq<bv8>, bits: seq<bool>, mask: bv8, mode: ClockMode): (r: seq<bv8>)
    requires |slot| == mode.BytesPerPixel() && |bits| == 32
    ensures |r| == |slot|
  {
    seq(|slot|, j requires 0 <= j < |slot| => slot[j] | Contribution(bits[BitIndex(j, mode)], mask))
  }

  /** The slot with `word` turned sideways into it under `mask`. */
  function Transposed(slot: seq<bv8>, word: bv32, mask: bv8, mode: ClockMode): (r: seq<bv8>)
    requires |slot| == mode.BytesPerPixel()
    ensures |r| == |slot|
  {
    Spread(slot, Bits(word), mask, mode)
  }

  // The shift register, most significant bit first: `Size()` entries, the
  // word loaded into the low 32.

  function Zeros(n: nat): (r: seq<bool>)
    ensures |r| == n && forall i :: 0 <= i < n ==> !r[i]
  {
    seq(n, _ => false)
  }

  function Load(bits: seq<bool>, width: LongWidth): (r: seq<bool>)
    requires |bits| == 32
    ensures |r| == width.Size()
  {
    Zeros(width.Size() - 32) + bits
  }

  /** `rgb <<= 1` */
  function ShiftLeft(reg: seq<bool>): (r: seq<bool>)
    requires |reg| > 0
    ensures |r| == |reg|
  {
    reg[1..] + [false]
  }

  /** `rgb & 0x80000000` */
  function Bit31(reg: seq<bool>): bool
    requires |reg| >= 32
  {
    reg[|reg| - 32]
  }

  /** The register after `k` shifts. */
  function Shifted(bits: seq<bool>, width: LongWidth, k: nat): (r: seq<bool>)
    requires |bits| == 32 && k <= width.Size()
    ensures |r| == width.Size()
  {
    Load(bits, width)[k..] + Zeros(k)
  }

  lemma ShiftStep(bits: seq<bool>, width: LongWidth, k: nat)
    requires |bits| == 32 && k < width.Size()
    ensures ShiftLeft(Shifted(bits, width, k)) == Shifted(bits, width, k + 1)
  {
    assert ShiftLeft(Shifted(bits, width, k)) == Load(bits, width)[k + 1..] + Zeros(k + 1);
  }

  /** After `k` shifts the tested bit is stream bit `k`, and nothing once
      the word has moved past bit 31. */
  lemma TopBit(bits: seq<bool>, width: LongWidth, k: nat)
    requires |bits| == 32 && k < width.Size()
    ensures Bit31(Shifted(bits, width, k)) == (k < 32 && bits[k])
  {
    var w := width.Size();
    if k < 32 {
      assert Shifted(bits, width, k)[w - 32] == Load(bits, width)[k + w - 32];
    }
  }

  /** An empty register means every bit not yet visited is clear. */
  lemma Drained(bits: seq<bool>, width: LongWidth, k: nat)
    requires |bits| == 32 && k <= width.Size()
    requires true !in Shifted(bits, width, k)
    ensures forall j :: k <= j < 32 ==> !bits[j]
  {
    var w := width.Size();
    forall j | k <= j < 32
      ensures !bits[j]
    {
      assert Shifted(bits, width, k)[j - k + w - 32] == Load(bits, width)[j + w - 32];
    }
  }

  /** The first byte of stream bit `k` within a slot. */
  function FirstByte(k: nat, mode: ClockMode): (b: nat)
    ensures BitIndex(b, mode) == k
    ensures mode == SoftwareClock ==> BitIndex(b + 1, mode) == k
    ensures k < 32 ==> b + mode.Step() <= mode.BytesPerPixel()
  {
    match mode
    case SoftwareClock => 2 * k
    case HardwareClock => k
  }

  /** `addr[0] |= strand; addr[1] |= strand;` in software-clock mode,
      `*addr |= strand;` in hardware-clock mode. */
  function Mark(buf: seq<bv8>, addr: nat, mask: bv8, mode: ClockMode): (r: seq<bv8>)
    requires addr + mode.Step() <= |buf|
    ensures |r| == |buf|
    ensures forall j :: 0 <= j < |buf| ==> r[j] == if addr <= j < addr + mode.Step() then buf[j] | mask else buf[j]
  {
    match mode
    case SoftwareClock => OrAt(OrAt(buf, addr, mask), addr + 1, mask)
    case HardwareClock => OrAt(buf, addr, mask)
  }

  /** `buf[addr] |= mask`. */
  function OrAt(buf: seq<bv8>, addr: nat, mask: bv8): (r: seq<bv8>)
    requires addr < |buf|
    ensures |r| == |buf|
    ensures forall j :: 0 <= j < |buf| ==> r[j] == if j == addr then buf[j] | mask else buf[j]
  {
    buf[addr := buf[addr] | mask]
  }

  function PartialByte(slot: seq<bv8>, bits: seq<bool>, mask: bv8, mode: ClockMode, k: nat, j: nat): bv8
    requires j < |slot| == mode.BytesPerPixel() && |bits| == 32
  {
    var i := BitIndex(j, mode);
    if i < k then slot[j] | Contribution(bits[i], mask) else slot[j]
  }

  /** The slot once the first `k` bits have been visited. */
  ghost predicate Partial(out: seq<bv8>, slot: seq<bv8>, bits: seq<bool>, mask: bv8, mode: ClockMode, k: nat)
    requires |slot| == mode.BytesPerPixel() && |bits| == 32
  {
    |out| == |slot| && forall j :: 0 <= j < |slot| ==> out[j] == PartialByte(slot, bits, mask, mode, k, j)
  }

  lemma PartialStep(slot: seq<bv8>, bits: seq<bool>, mask: bv8, mode: ClockMode, k: nat, before: seq<bv8>, after: seq<bv8>)
    requires |slot| == mode.BytesPerPixel() && |bits| == 32 && k < 32
    requires Partial(before, slot, bits, mask, mode, k)
    requires after == if bits[k] then Mark(before, FirstByte(k, mode), mask, mode) else before
    ensures Partial(after, slot, bits, mask, mode, k + 1)
  {
    if mode == SoftwareClock {
      PartialStepSoftware(slot, bits, mask, k, before, after);
    } else {
      PartialStepHardware(slot, bits, mask, k, before, after);
    }
  }

  lemma PartialStepSoftware(slot: seq<bv8>, bits: seq<bool>, mask: bv8, k: nat, before: seq<bv8>, after: seq<bv8>)
    requires |slot| == 64 && |bits| == 32 && k < 32
    requires Partial(before, slot, bits, mask, SoftwareClock, k)
    requires after == if bits[k] then Mark(before, 2 * k, mask, SoftwareClock) else before
    ensures Partial(after, slot, bits, mask, SoftwareClock, k + 1)
  {
    forall j | 0 <= j < 64
      ensures after[j] == PartialByte(slot, bits, mask, SoftwareClock, k + 1, j)
    {
      StepByte(slot, bits, mask, k, before[j], after[j], j);
    }
  }

  /** One byte of a software-clock step: the byte gains the mask exactly
      when it is one of the two bytes of a set bit `k`. */
  lemma StepByte(slot: seq<bv8>, bits: seq<bool>, mask: bv8, k: nat, b: bv8, a: bv8, j: nat)
    requires |slot| == 64 && |bits| == 32 && k < 32 && j < 64
    requires b == PartialByte(slot, bits, mask, SoftwareClock, k, j)
    requires a == if bits[k] && 2 * k <= j < 2 * k + 2 then b | mask else b
    ensures a == PartialByte(slot, bits, mask, SoftwareClock, k + 1, j)
  {
    Half(j, k);
  }

  /** Byte `j` belongs to bit `k` exactly when it is one of its two bytes. */
  lemma Half(j: nat, k: nat)
    ensures BitIndex(j, SoftwareClock) == k <==> j == 2 * k || j == 2 * k + 1
    ensures BitIndex(j, SoftwareClock) < k <==> j < 2 * k
  {
  }

  lemma PartialStepHardware(slot: seq<bv8>, bits: seq<bool>, mask: bv8, k: nat, before: seq<bv8>, after: seq<bv8>)
    requires |slot| == 32 && |bits| == 32 && k < 32
    requires Partial(before, slot, bits, mask, HardwareClock, k)
    requires after == if bits[k] then Mark(before, k, mask, HardwareClock) else before
    ensures Partial(after, slot, bits, mask, HardwareClock, k + 1)
  {
    forall j | 0 <= j < 32
      ensures after[j] == PartialByte(slot, bits, mask, HardwareClock, k + 1, j)
    {
      if j == k {
        assert after[j] == before[j] | Contribution(bits[k], mask);
      } else {
        assert after[j] == before[j];
      }
    }
  }

  /** Once the bits left unvisited are all clear, the slot is complete. */
  lemma PartialClear(out: seq<bv8>, slot: seq<bv8>, bits: seq<bool>, mask: bv8, mode: ClockMode, k: nat)
    requires |slot| == mode.BytesPerPixel() && |bits| == 32
    requires Partial(out, slot, bits, mask, mode, k)
    requires forall j :: k <= j < 32 ==> !bits[j]
    ensures Partial(out, slot, bits, mask, mode, 32)
  {
    forall j | 0 <= j < |slot|
      ensures out[j] == PartialByte(slot, bits, mask, mode, 32, j)
    {
      var i := BitIndex(j, mode);
      if k <= i {
        assert !bits[i];
        assert slot[j] | 0 == slot[j];
      }
    }
  }

  lemma PartialDone(out: seq<bv8>, slot: seq<bv8>, bits: seq<bool>, mask: bv8, mode: ClockMode, k: nat)
    requires |slot| == mode.BytesPerPixel() && |bits| == 32
    requires Partial(out, slot, bits, mask, mode, k)
    requires forall j :: k <= j < 32 ==> !bits[j]
    ensures out == Spread(slot, bits, mask, mode)
  {
    PartialClear(out, slot, bits, mask, mode, k);
    var t := Spread(slot, bits, mask, mode);
    forall j | 0 <= j < |slot|
      ensures out[j] == t[j]
    {
      assert out[j] == PartialByte(slot, bits, mask, mode, 32, j);
    }
  }

  /** The loop of the renderer: shifts the word left until it is zero,
      marking the bytes of each set bit 31. It leaves exactly what the full
      32-bit walk leaves, and writes only inside the slot (each `Mark` is in
      bounds). */
  method TransposeWord(slot: seq<bv8>, word: bv32, mask: bv8, mode: ClockMode, width: LongWidth) returns (out: seq<bv8>)
    requires |slot| == mode.BytesPerPixel()
    ensures out == Transposed(slot, word, mask, mode)
  {
    ghost var bits := Bits(word);
    out := slot;
    var rgb := Load(Bits(word), width);
    var addr := 0;
    ghost var k := 0;
    assert rgb == Shifted(bits, width, 0);
    while true in rgb
      invariant Walk(slot, bits, mask, mode, width, out, rgb, addr, k)
      decreases width.Size() - k
    {
      out, rgb, addr := WalkStep(slot, bits, mask, mode, width, out, rgb, addr, k);
      k := k + 1;
    }
    Drained(bits, width, k);
    PartialDone(out, slot, bits, mask, mode, k);
  }

  /** The state of the walk after `k` shifts: the register holds the
      stream shifted by `k`, the address is the first byte of bit position
      `k`, and the first `k` bits are in the slot. */
  ghost predicate Walk(slot: seq<bv8>, bits: seq<bool>, mask: bv8, mode: ClockMode, width: LongWidth,
                       out: seq<bv8>, rgb: seq<bool>, addr: nat, k: nat)
    requires |slot| == mode.BytesPerPixel() && |bits| == 32
  {
    k <= width.Size() && addr == FirstByte(k, mode) && rgb == Shifted(bits, width, k)
    && Partial(out, slot, bits, mask, mode, k)
  }

  /** One turn of the walk: mark the byte(s) at `addr` when the register's
      bit 31 is set, then advance the address and shift the register. */
  method WalkStep(slot: seq<bv8>, ghost bits: seq<bool>, mask: bv8, mode: ClockMode, width: LongWidth,
                  out: seq<bv8>, rgb: seq<bool>, addr: nat, ghost k: nat)
    returns (out': seq<bv8>, rgb': seq<bool>, addr': nat)
    requires |slot| == mode.BytesPerPixel() && |bits| == 32
    requires Walk(slot, bits, mask, mode, width, out, rgb, addr, k) && true in rgb
    ensures k < width.Size() && Walk(slot, bits, mask, mode, width, out', rgb', addr', k + 1)
  {
    Spent(bits, width);
    TopBit(bits, width, k);
    out' := out;
    if Bit31(rgb) {
      out' := Mark(out, addr, mask, mode);
    }
    if k < 32 {
      PartialStep(slot, bits, mask, mode, k, out, out');
    } else {
      PartialPast(out, slot, bits, mask, mode, k);
    }
    ShiftStep(bits, width, k);
    addr' := addr + mode.Step();
    rgb' := ShiftLeft(rgb);
  }

  /** A register shifted all the way holds no set bit. */
  lemma Spent(bits: seq<bool>, width: LongWidth)
    requires |bits| == 32
    ensures true !in Shifted(bits, width, width.Size())
  {
    assert Shifted(bits, width, width.Size()) == Zeros(width.Size());
  }

  /** Past the 32 stream bits a further shift adds nothing to the slot. */
  lemma PartialPast(out: seq<bv8>, slot: seq<bv8>, bits: seq<bool>, mask: bv8, mode: ClockMode, k: nat)
    requires |slot| == mode.BytesPerPixel() && |bits| == 32 && k >= 32
    requires Partial(out, slot, bits, mask, mode, k)
    ensures Partial(out, slot, bits, mask, mode, k + 1)
  {
    forall j | 0 <= j < |slot|
      ensures PartialByte(slot, bits, mask, mode, k, j) == PartialByte(slot, bits, mask, mode, k + 1, j)
    {
    }
  }

  /** The all-zero stream is the word 0, which fails the flag check. */
  lemma ZeroStream()
    ensures Bits(0) == Zeros(32)
    ensures WordOf(Zeros(32)) == 0
    ensures ParseWord(0).None?
  {
    assert Bits(0) == ByteBits(0) + ByteBits(0) + ByteBits(0) + ByteBits(0);
    WordOfBits(0);
  }
}
