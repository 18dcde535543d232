/** Phase one of a refresh: every strand's pixel at position `p` is looked up
    through the optional remap table, gamma-corrected, packed into a command
    word and turned sideways into slot `p` of the output buffer, while the
    current of each physical pixel is estimated. The buffer is a sequence of
    slots, one per pixel position plus the latch slot at the end; `Flatten`
    lays it out as the byte array that is written to the adapter. */
module Encoder {
  import opened Types
  import opened Word
  import opened Transpose
  import opened Gamma
  import opened Current
  import opened Slots

  /** The geometry a refresh works with: the clock mode, the strand-to-pin
      map (element 7 is the bit-banged clock), the number of strands and
      the number of pixels in the longest strand. */
  datatype Layout = Layout(mode: ClockMode, pins: seq<bv8>, nStrands: nat, perStrand: nat)
  {
    /** What an open device guarantees: eight pin masks, at most eight
        strands, and at most seven when one pin is spent on the clock. */
    predicate Valid() {
      |pins| == 8 && nStrands <= 8 && (mode == SoftwareClock ==> nStrands <= 7)
    }

    function Clock(): bv8
      requires |pins| == 8
    {
      pins[7]
    }

    /** Number of physical pixels, strand by strand. */
    function Pixels(): nat {
      nStrands * perStrand
    }
  }

  /** The index of a strand's pixel, strands laid end to end. */
  function AbsIndex(L: Layout, s: nat, p: nat): (a: nat)
    requires s < L.nStrands && p < L.perStrand
    ensures a < L.Pixels()
  {
    IndexBound(s, p, L.nStrands, L.perStrand);
    s * L.perStrand + p
  }

  /** The image index a physical pixel shows: the remap entry, or the
      pixel's own index when there is no remap table. */
  function Mapped(remap: Option<seq<int>>, a: nat): int
    requires remap.Some? ==> a < |remap.value|
  {
    if remap.Some? then remap.value[a] else a
  }

  /** The caller's side of a refresh: a remap table covers every physical
      pixel, and every non-negative index it yields (or every pixel's own
      index) lies inside the image. Nothing in the library checks this. */
  predicate Covers(L: Layout, pixels: Option<seq<Pixel>>, remap: Option<seq<int>>) {
    (remap.Some? ==> |remap.value| >= L.Pixels())
    && forall a :: 0 <= a < L.Pixels() && pixels.Some? && Mapped(remap, a) >= 0 ==> Mapped(remap, a) < |pixels.value|
  }

  /** Whether an image index takes the off path: no image at all, or one of
      the negative remap sentinels. */
  predicate IsOff(pixels: Option<seq<Pixel>>, m: int) {
    pixels.None? || m < 0
  }

  /** The colour a pixel is to show. */
  function ColorFor(table: Table, pixels: Option<seq<Pixel>>, m: int): (c: Color)
    requires !IsOff(pixels, m) ==> m < |pixels.value|
    ensures IsOff(pixels, m) ==> c == Color(0, 0, 0)
    ensures !IsOff(pixels, m) ==> c.r as int == table[RedOf(pixels.value[m]) as int].r
    ensures !IsOff(pixels, m) ==> c.g as int == table[GreenOf(pixels.value[m]) as int].g
    ensures !IsOff(pixels, m) ==> c.b as int == table[BlueOf(pixels.value[m]) as int].b
  {
    if IsOff(pixels, m) then Color(0, 0, 0) else Correct(table, pixels.value[m])
  }

  /** The command word of a pixel: the off word, or the packing of its
      gamma-corrected channels. Either way the chip reads back the colour
      the pixel is to show. */
  function WordFor(table: Table, pixels: Option<seq<Pixel>>, m: int): (w: bv32)
    requires !IsOff(pixels, m) ==> m < |pixels.value|
    ensures ParseWord(w) == Some(ColorFor(table, pixels, m))
    ensures IsOff(pixels, m) ==> w == OffWord
  {
    if IsOff(pixels, m) then
      OffIsBlack();
      OffWord
    else
      var c := Correct(table, pixels.value[m]);
      ParsePack(c, 0);
      PackWord(c.r, c.g, c.b)
  }

  /** The current charged to a pixel: nothing when disconnected, otherwise
      at least the base current and at most the base plus all three
      channels' full linear current. */
  function CurrentFor(table: Table, pixels: Option<seq<Pixel>>, m: int): (ma: real)
    requires !IsOff(pixels, m) ==> m < |pixels.value|
    ensures ma == 0.0 <==> m == PixelDisconnected
    ensures m != PixelDisconnected ==> Base <= ma <= Base + (CalR + CalG + CalB) as real / CalPixels as real
    ensures IsOff(pixels, m) && m != PixelDisconnected ==> ma == Base
  {
    if IsOff(pixels, m) then
      OffCurrent(m)
    else
      var c := Correct(table, pixels.value[m]);
      EstimateBounds(c.r as int, c.g as int, c.b as int);
      EstCurrent(c.r as int, c.g as int, c.b as int)
  }

  /** The two remap sentinels are distinct and negative, both send the off
      word, and only the disconnected one draws no current. */
  lemma Sentinels(table: Table, pixels: Option<seq<Pixel>>)
    ensures PixelUnused < 0 && PixelDisconnected < 0 && PixelUnused != PixelDisconnected
    ensures WordFor(table, pixels, PixelUnused) == OffWord
    ensures WordFor(table, pixels, PixelDisconnected) == OffWord
    ensures CurrentFor(table, pixels, PixelDisconnected) == 0.0
    ensures CurrentFor(table, pixels, PixelUnused) == EstCurrent(0, 0, 0) > 0.0
  {
    var _ := OffCurrent(PixelUnused);
  }

  /** The word of strand `s` at position `p`. */
  function WordAt(L: Layout, table: Table, pixels: Option<seq<Pixel>>, remap: Option<seq<int>>, s: nat, p: nat): bv32
    requires Covers(L, pixels, remap) && s < L.nStrands && p < L.perStrand
  {
    WordFor(table, pixels, Mapped(remap, AbsIndex(L, s, p)))
  }

  /** The words of every strand at position `p`, strand by strand. */
  function Column(L: Layout, table: Table, pixels: Option<seq<Pixel>>, remap: Option<seq<int>>, p: nat): (ws: seq<bv32>)
    requires Covers(L, pixels, remap) && p < L.perStrand
    ensures |ws| == L.nStrands
    ensures forall s :: 0 <= s < L.nStrands ==> ws[s] == WordAt(L, table, pixels, remap, s, p)
  {
    seq(L.nStrands, s requires 0 <= s < L.nStrands => WordAt(L, table, pixels, remap, s, p))
  }

  /** Slot `p` with the words of the first `n` strands turned into it. */
  function SlotUpTo(L: Layout, table: Table, pixels: Option<seq<Pixel>>, remap: Option<seq<int>>, p: nat, n: nat): (slot: seq<bv8>)
    requires L.Valid() && Covers(L, pixels, remap) && p < L.perStrand
    ensures |slot| == L.mode.BytesPerPixel()
  {
    Stack(L.mode, L.pins, Streams(Column(L, table, pixels, remap, p)), n)
  }

  /** Slot `p` as a refresh leaves it. */
  function SlotOf(L: Layout, table: Table, pixels: Option<seq<Pixel>>, remap: Option<seq<int>>, p: nat): (slot: seq<bv8>)
    requires L.Valid() && Covers(L, pixels, remap) && p < L.perStrand
    ensures |slot| == L.mode.BytesPerPixel()
  {
    SlotUpTo(L, table, pixels, remap, p, L.nStrands)
  }

  /** A slot starts clear, and each strand turns its word sideways into it
      under the strand's pin. */
  lemma SlotStart(L: Layout, table: Table, pixels: Option<seq<Pixel>>, remap: Option<seq<int>>, p: nat)
    requires L.Valid() && Covers(L, pixels, remap) && p < L.perStrand
    ensures SlotUpTo(L, table, pixels, remap, p, 0) == ClearSlot(L.mode, L.Clock())
  {
    StackZero(L.mode, L.pins, Streams(Column(L, table, pixels, remap, p)));
  }

  lemma SlotStep(L: Layout, table: Table, pixels: Option<seq<Pixel>>, remap: Option<seq<int>>, p: nat, s: nat)
    requires L.Valid() && Covers(L, pixels, remap) && p < L.perStrand && s < L.nStrands
    ensures SlotUpTo(L, table, pixels, remap, p, s + 1)
      == Transposed(SlotUpTo(L, table, pixels, remap, p, s), WordAt(L, table, pixels, remap, s, p), L.pins[s], L.mode)
  {
    StackStep(L.mode, L.pins, Streams(Column(L, table, pixels, remap, p)), s);
  }

  /** The clear loop of a refresh over one slot: a 0 byte, then a clock
      byte, pair by pair (in hardware-clock mode the clock byte is 0 too). */
  method ClearPixelSlot(mode: ClockMode, clock: bv8) returns (slot: seq<bv8>)
    ensures slot == ClearSlot(mode, clock)
  {
    var n := mode.BytesPerPixel();
    var high: bv8 := if mode == SoftwareClock then clock else 0;
    slot := [];
    while |slot| < n
      invariant |slot| <= n && |slot| % 2 == 0
      invariant forall j :: 0 <= j < |slot| ==> slot[j] == if j % 2 == 1 then high else 0
    {
      slot := slot + [0, high];
    }
    assert slot == ClearSlot(mode, clock) by {
      forall j | 0 <= j < n
        ensures slot[j] == ClearSlot(mode, clock)[j]
      {
      }
    }
  }

  /** The latch as open renders it: all zeros, then the clock mask into
      every odd byte when the clock is bit-banged. */
  method RenderLatch(mode: ClockMode, clock: bv8) returns (slot: seq<bv8>)
    ensures slot == ClearSlot(mode, clock)
  {
    var n := mode.BytesPerPixel();
    slot := seq(n, _ => 0);
    if mode == SoftwareClock {
      var i := 1;
      while i < n
        invariant 1 <= i <= n + 1 && i % 2 == 1 && |slot| == n
        invariant forall j :: 0 <= j < n ==> slot[j] == if j % 2 == 1 && j < i then clock else 0
      {
        slot := slot[i := clock];
        i := i + 2;
      }
    }
  }

  /** Rewriting the clock bits of an existing latch: every odd byte becomes
      `clock`, every even byte is left as it is. */
  method RewriteClock(latch: seq<bv8>, clock: bv8) returns (slot: seq<bv8>)
    ensures |slot| == |latch|
    ensures forall j :: 0 <= j < |slot| && j % 2 == 1 ==> slot[j] == clock
    ensures forall j :: 0 <= j < |slot| && j % 2 == 0 ==> slot[j] == latch[j]
  {
    slot := latch;
    var i := 1;
    while i < |latch|
      invariant 1 <= i && i % 2 == 1 && |slot| == |latch|
      invariant forall j :: 0 <= j < |slot| ==> slot[j] == if j % 2 == 1 && j < i then clock else latch[j]
    {
      slot := slot[i := clock];
      i := i + 2;
    }
  }

  /** Rewriting the clock of a software-clock latch gives the latch open
      would have rendered with the new clock pin. */
  lemma RewriteIsRerender(old_clock: bv8, clock: bv8, slot: seq<bv8>)
    requires |slot| == 64
    requires forall j :: 0 <= j < 64 && j % 2 == 1 ==> slot[j] == clock
    requires forall j :: 0 <= j < 64 && j % 2 == 0 ==> slot[j] == ClearSlot(SoftwareClock, old_clock)[j]
    ensures slot == ClearSlot(SoftwareClock, clock)
  {
    var t := ClearSlot(SoftwareClock, clock);
    forall j | 0 <= j < 64
      ensures slot[j] == t[j]
    {
      if j % 2 == 0 {
        assert slot[j] == ClearSlot(SoftwareClock, old_clock)[j];
      }
    }
  }

  /** Whether byte `i` of the written array is an odd byte of the `n`-byte
      window that starts at `offset`. */
  predicate ClockByte(i: int, offset: int, n: nat) {
    offset <= i < offset + n && (i - offset) % 2 == 1
  }

  /** The clock rewrite on the written array, byte by byte: the odd bytes of
      the window become `clock`. Bytes of the window beyond the array are
      not part of it. */
  function FlatClock(flat: seq<bv8>, offset: int, n: nat, clock: bv8): (r: seq<bv8>)
    ensures |r| == |flat|
  {
    seq(|flat|, i requires 0 <= i < |flat| => if ClockByte(i, offset, n) then clock else flat[i])
  }

  /** Rewriting a window of `a + b` is rewriting `a`, then `b` with the
      window moved back by `|a|`. */
  lemma FlatClockAppend(a: seq<bv8>, b: seq<bv8>, offset: int, n: nat, clock: bv8)
    ensures FlatClock(a + b, offset, n, clock) == FlatClock(a, offset, n, clock) + FlatClock(b, offset - |a|, n, clock)
  {
    var l, r := FlatClock(a + b, offset, n, clock), FlatClock(a, offset, n, clock) + FlatClock(b, offset - |a|, n, clock);
    forall i | 0 <= i < |l|
      ensures l[i] == r[i]
    {
      if i >= |a| {
        assert ClockByte(i, offset, n) == ClockByte(i - |a|, offset - |a|, n);
      }
    }
  }

  /** A window that lies wholly before or after an array rewrites none of
      it. */
  lemma FlatClockOutside(flat: seq<bv8>, offset: int, n: nat, clock: bv8)
    requires offset + n <= 0 || |flat| <= offset
    ensures FlatClock(flat, offset, n, clock) == flat
  {
  }

  /** The clock rewrite at a byte offset of the buffer, slot by slot: each
      slot keeps its size and takes its part of the window, so the window
      may cover parts of several slots. */
  function ClockAt(slots: seq<seq<bv8>>, offset: int, n: nat, clock: bv8): (r: seq<seq<bv8>>)
    ensures |r| == |slots| && forall q :: 0 <= q < |r| ==> |r[q]| == |slots[q]|
    decreases |slots|
  {
    if |slots| == 0 then []
    else [FlatClock(slots[0], offset, n, clock)] + ClockAt(slots[1..], offset - |slots[0]|, n, clock)
  }

  /** The slot-by-slot rewrite writes out as the array rewritten at the
      offset. */
  lemma {:induction false} ClockAtFlat(slots: seq<seq<bv8>>, offset: int, n: nat, clock: bv8)
    ensures Flatten(ClockAt(slots, offset, n, clock)) == FlatClock(Flatten(slots), offset, n, clock)
    decreases |slots|
  {
    if |slots| > 0 {
      var rest := ClockAt(slots[1..], offset - |slots[0]|, n, clock);
      var r := ClockAt(slots, offset, n, clock);
      assert r[1..] == rest;
      ClockAtFlat(slots[1..], offset - |slots[0]|, n, clock);
      FlatClockAppend(slots[0], Flatten(slots[1..]), offset, n, clock);
    }
  }

  /** Rewriting the buffer is rewriting its first slot, then the rest with
      the window moved back by the first slot's size. */
  lemma ClockAtCons(slots: seq<seq<bv8>>, offset: int, n: nat, clock: bv8)
    requires |slots| > 0
    ensures ClockAt(slots, offset, n, clock) == [FlatClock(slots[0], offset, n, clock)] + ClockAt(slots[1..], offset - |slots[0]|, n, clock)
  {
  }

  /** A window that ends before the buffer starts rewrites nothing. */
  lemma {:induction false} ClockAtBefore(slots: seq<seq<bv8>>, offset: int, n: nat, clock: bv8)
    requires offset + n <= 0
    ensures ClockAt(slots, offset, n, clock) == slots
    decreases |slots|
  {
    if |slots| > 0 {
      var rest := slots[1..];
      ClockAtCons(slots, offset, n, clock);
      ClockAtBefore(rest, offset - |slots[0]|, n, clock);
      FlatClockOutside(slots[0], offset, n, clock);
      assert [slots[0]] + rest == slots;
    }
  }

  /** With slots of `n` bytes each, the `n`-byte window at the start of
      slot `p` is slot `p`: rewriting the buffer there rewrites that slot
      alone. */
  lemma {:induction false} ClockAtSlot(slots: seq<seq<bv8>>, n: nat, p: nat, clock: bv8)
    requires forall q :: 0 <= q < |slots| ==> |slots[q]| == n
    requires p < |slots|
    ensures ClockAt(slots, p * n, n, clock) == slots[p := FlatClock(slots[p], 0, n, clock)]
    decreases p
  {
    if p == 0 {
      ClockAtFirst(slots, n, clock);
    } else {
      ClockAtSlot(slots[1..], n, p - 1, clock);
      ClockAtLater(slots, n, p, clock, FlatClock(slots[p], 0, n, clock));
    }
  }

  /** The window at the buffer's start, as wide as the first slot, rewrites
      the first slot alone. */
  lemma ClockAtFirst(slots: seq<seq<bv8>>, n: nat, clock: bv8)
    requires |slots| > 0 && |slots[0]| == n
    ensures ClockAt(slots, 0, n, clock) == slots[0 := FlatClock(slots[0], 0, n, clock)]
  {
    var rest := slots[1..];
    ClockAtCons(slots, 0, n, clock);
    ClockAtBefore(rest, -(n as int), n, clock);
    assert [FlatClock(slots[0], 0, n, clock)] + rest == slots[0 := FlatClock(slots[0], 0, n, clock)];
  }

  /** A window past the first slot leaves it alone and moves back by its
      size in the rest. */
  lemma ClockAtLater(slots: seq<seq<bv8>>, n: nat, p: nat, clock: bv8, slot: seq<bv8>)
    requires 0 < p < |slots| && |slots[0]| == n
    requires ClockAt(slots[1..], (p - 1) * n, n, clock) == slots[1..][p - 1 := slot]
    ensures ClockAt(slots, p * n, n, clock) == slots[p := slot]
  {
    var rest := slots[1..];
    assert p * n - n == (p - 1) * n;
    ClockAtCons(slots, p * n, n, clock);
    FlatClockOutside(slots[0], p * n, n, clock);
    assert [slots[0]] + rest[p - 1 := slot] == slots[p := slot];
  }

  /** The clock rewrite as the source runs it, a loop over the odd bytes of
      the window: on a buffer whose slots are as wide as the window, with
      the window at the start of slot `p`, the loop stays in that slot. */
  method RewriteWindow(slots: seq<seq<bv8>>, p: nat, n: nat, clock: bv8) returns (r: seq<seq<bv8>>)
    ensures r == ClockAt(slots, p * n, n, clock)
  {
    if p < |slots| && forall q :: 0 <= q < |slots| ==> |slots[q]| == n {
      var slot := RewriteClock(slots[p], clock);
      assert slot == FlatClock(slots[p], 0, n, clock);
      ClockAtSlot(slots, n, p, clock);
      r := slots[p := slot];
    } else {
      r := ClockAt(slots, p * n, n, clock);
    }
  }

  /** On a bit-banged buffer whose latch slot is the one open renders, the
      rewrite at the latch's offset gives the latch open renders for the new
      clock pin and leaves the pixel slots alone. */
  lemma LatchRewrite(slots: seq<seq<bv8>>, p: nat, old_clock: bv8, clock: bv8)
    requires |slots| == p + 1 && forall q :: 0 <= q < |slots| ==> |slots[q]| == 64
    requires slots[p] == ClearSlot(SoftwareClock, old_clock)
    ensures ClockAt(slots, p * 64, 64, clock) == slots[p := ClearSlot(SoftwareClock, clock)]
  {
    ClockAtSlot(slots, 64, p, clock);
    RewriteIsRerender(old_clock, clock, FlatClock(slots[p], 0, 64, clock));
  }

  /** A buffer of two 32-byte slots, as a CBUS-clock open leaves it, takes a
      64-byte window at offset 0 across both slots: the odd bytes of each
      become the clock. */
  lemma ClockAtSpans(slots: seq<seq<bv8>>, clock: bv8)
    requires |slots| == 2 && |slots[0]| == 32 && |slots[1]| == 32
    ensures forall q, j :: 0 <= q < 2 && 0 <= j < 32 && j % 2 == 1 ==> ClockAt(slots, 0, 64, clock)[q][j] == clock
    ensures forall q, j :: 0 <= q < 2 && 0 <= j < 32 && j % 2 == 0 ==> ClockAt(slots, 0, 64, clock)[q][j] == slots[q][j]
  {
    ClockAtCons(slots, 0, 64, clock);
    ClockAtCons(slots[1..], -32, 64, clock);
    assert slots[1..][1..] == [];
  }

  /** The buffer an open device holds: one slot per pixel position, then the
      latch slot. */
  predicate Shaped(L: Layout, buf: seq<seq<bv8>>) {
    |buf| == L.perStrand + 1 && forall q :: 0 <= q < |buf| ==> |buf[q]| == L.mode.BytesPerPixel()
  }

  /** Every pixel slot holds the words of the first `n` strands. */
  predicate Built(L: Layout, table: Table, pixels: Option<seq<Pixel>>, remap: Option<seq<int>>, slots: seq<seq<bv8>>, n: nat)
    requires L.Valid() && Covers(L, pixels, remap)
  {
    Shaped(L, slots) && forall q :: 0 <= q < L.perStrand ==> slots[q] == SlotUpTo(L, table, pixels, remap, q, n)
  }

  /** The currents of the first `|currents|` physical pixels are charged,
      each at its own index. */
  predicate Charged(L: Layout, table: Table, pixels: Option<seq<Pixel>>, remap: Option<seq<int>>, currents: seq<real>)
    requires Covers(L, pixels, remap)
  {
    |currents| <= L.Pixels()
    && forall a :: 0 <= a < |currents| ==> currents[a] == CurrentFor(table, pixels, Mapped(remap, a))
  }

  /** The clear step of a refresh: every pixel slot becomes the clear slot,
      the latch slot is left as it is. */
  method ClearSlots(L: Layout, buf: seq<seq<bv8>>) returns (slots: seq<seq<bv8>>)
    requires L.Valid() && Shaped(L, buf)
    ensures Shaped(L, slots) && slots[L.perStrand] == buf[L.perStrand]
    ensures forall q :: 0 <= q < L.perStrand ==> slots[q] == ClearSlot(L.mode, L.Clock())
  {
    slots := buf;
    var p := 0;
    while p < L.perStrand
      invariant p <= L.perStrand && Shaped(L, slots) && slots[L.perStrand] == buf[L.perStrand]
      invariant forall q :: 0 <= q < p ==> slots[q] == ClearSlot(L.mode, L.Clock())
    {
      var blank := ClearPixelSlot(L.mode, L.Clock());
      slots := slots[p := blank];
      p := p + 1;
    }
  }

  /** One pass of the strand loop of a refresh: strand `s`'s pixels, whose
      physical indices start at `abs`, are turned into every pixel slot under
      the strand's pin, and their currents are estimated in order. */
  method RenderStrand(L: Layout, table: Table, pixels: Option<seq<Pixel>>, remap: Option<seq<int>>,
                      slots: seq<seq<bv8>>, s: nat, abs: nat, width: LongWidth) returns (next: seq<seq<bv8>>, cur: seq<real>)
    requires L.Valid() && Covers(L, pixels, remap) && s < L.nStrands && abs == s * L.perStrand
    requires Built(L, table, pixels, remap, slots, s)
    ensures Built(L, table, pixels, remap, next, s + 1) && next[L.perStrand] == slots[L.perStrand]
    ensures |cur| == L.perStrand && StrandCharged(L, table, pixels, remap, s, cur)
  {
    next, cur := StrandPass(L, table, pixels, remap, slots, s, abs, width);
    forall q | 0 <= q < L.perStrand
      ensures next[q] == SlotUpTo(L, table, pixels, remap, q, s + 1)
    {
      SlotStep(L, table, pixels, remap, q, s);
    }
  }

  /** The first `p` slots have strand `s`'s words turned into them, the
      rest are as they were. */
  predicate Passed(L: Layout, table: Table, pixels: Option<seq<Pixel>>, remap: Option<seq<int>>,
                   slots: seq<seq<bv8>>, next: seq<seq<bv8>>, s: nat, p: nat)
    requires L.Valid() && Covers(L, pixels, remap) && Shaped(L, slots) && s < L.nStrands && p <= L.perStrand
  {
    Shaped(L, next) && next[L.perStrand] == slots[L.perStrand]
    && (forall q :: 0 <= q < p ==> next[q] == Transposed(slots[q], WordAt(L, table, pixels, remap, s, q), L.pins[s], L.mode))
    && (forall q :: p <= q < L.perStrand ==> next[q] == slots[q])
  }

  /** The currents of strand `s`'s first `|cur|` pixels, in position order. */
  predicate StrandCharged(L: Layout, table: Table, pixels: Option<seq<Pixel>>, remap: Option<seq<int>>, s: nat, cur: seq<real>)
    requires L.Valid() && Covers(L, pixels, remap) && s < L.nStrands
  {
    |cur| <= L.perStrand
    && forall q :: 0 <= q < |cur| ==> cur[q] == CurrentFor(table, pixels, Mapped(remap, AbsIndex(L, s, q)))
  }

  /** The loop of one strand pass: each pixel's word is turned sideways into
      its slot and its current appended, in position order. */
  method StrandPass(L: Layout, table: Table, pixels: Option<seq<Pixel>>, remap: Option<seq<int>>,
                    slots: seq<seq<bv8>>, s: nat, abs: nat, width: LongWidth) returns (next: seq<seq<bv8>>, cur: seq<real>)
    requires L.Valid() && Covers(L, pixels, remap) && Shaped(L, slots) && s < L.nStrands && abs == s * L.perStrand
    ensures Passed(L, table, pixels, remap, slots, next, s, L.perStrand)
    ensures |cur| == L.perStrand && StrandCharged(L, table, pixels, remap, s, cur)
  {
    next := slots;
    cur := [];
    var p := 0;
    while p < L.perStrand
      invariant p <= L.perStrand && Passed(L, table, pixels, remap, slots, next, s, p)
      invariant |cur| == p && StrandCharged(L, table, pixels, remap, s, cur)
    {
      assert abs + p == AbsIndex(L, s, p);
      var m := Mapped(remap, abs + p);
      var word := WordFor(table, pixels, m);
      var ma := CurrentFor(table, pixels, m);
      var out := TransposeWord(next[p], word, L.pins[s], L.mode, width);
      PassStep(L, table, pixels, remap, slots, next, s, p, out);
      ChargeStep(L, table, pixels, remap, s, cur, ma);
      next := next[p := out];
      cur := cur + [ma];
      p := p + 1;
    }
  }

  lemma PassStep(L: Layout, table: Table, pixels: Option<seq<Pixel>>, remap: Option<seq<int>>,
                 slots: seq<seq<bv8>>, next: seq<seq<bv8>>, s: nat, p: nat, out: seq<bv8>)
    requires L.Valid() && Covers(L, pixels, remap) && Shaped(L, slots) && s < L.nStrands && p < L.perStrand
    requires Passed(L, table, pixels, remap, slots, next, s, p)
    requires out == Transposed(next[p], WordAt(L, table, pixels, remap, s, p), L.pins[s], L.mode)
    ensures Passed(L, table, pixels, remap, slots, next[p := out], s, p + 1)
  {
  }

  lemma ChargeStep(L: Layout, table: Table, pixels: Option<seq<Pixel>>, remap: Option<seq<int>>, s: nat, cur: seq<real>, ma: real)
    requires L.Valid() && Covers(L, pixels, remap) && s < L.nStrands && |cur| < L.perStrand
    requires StrandCharged(L, table, pixels, remap, s, cur)
    requires ma == CurrentFor(table, pixels, Mapped(remap, AbsIndex(L, s, |cur|)))
    ensures StrandCharged(L, table, pixels, remap, s, cur + [ma])
  {
  }

  /** Phase one of a refresh. Every pixel slot ends up as its reference
      definition, whatever the width of the shift register; the latch slot
      is not touched; and the current of physical pixel `a` is the estimate
      for the image index it maps to. */
  method Render(L: Layout, table: Table, pixels: Option<seq<Pixel>>, remap: Option<seq<int>>,
                buf: seq<seq<bv8>>, width: LongWidth) returns (slots: seq<seq<bv8>>, currents: seq<real>)
    requires L.Valid() && Covers(L, pixels, remap) && Shaped(L, buf)
    ensures Shaped(L, slots)
    ensures forall q :: 0 <= q < L.perStrand ==> slots[q] == SlotOf(L, table, pixels, remap, q)
    ensures slots[L.perStrand] == buf[L.perStrand]
    ensures |currents| == L.Pixels()
    ensures forall a :: 0 <= a < |currents| ==> currents[a] == CurrentFor(table, pixels, Mapped(remap, a))
  {
    var P := L.perStrand;
    slots := ClearSlots(L, buf);
    forall q | 0 <= q < P
      ensures slots[q] == SlotUpTo(L, table, pixels, remap, q, 0)
    {
      SlotStart(L, table, pixels, remap, q);
    }
    currents := [];
    var s := 0;
    while s < L.nStrands
      invariant Rendered(L, table, pixels, remap, buf, slots, currents, s)
      decreases L.nStrands - s
    {
      slots, currents := RenderStep(L, table, pixels, remap, buf, slots, currents, s, width);
      s := s + 1;
    }
  }

  /** The state of a refresh once `s` strands are done: their words are in
      every pixel slot, the latch slot is untouched, and the currents of
      their pixels are charged. */
  predicate Rendered(L: Layout, table: Table, pixels: Option<seq<Pixel>>, remap: Option<seq<int>>,
                     buf: seq<seq<bv8>>, slots: seq<seq<bv8>>, currents: seq<real>, s: nat)
    requires L.Valid() && Covers(L, pixels, remap) && Shaped(L, buf)
  {
    s <= L.nStrands && Built(L, table, pixels, remap, slots, s)
    && slots[L.perStrand] == buf[L.perStrand] && |currents| == s * L.perStrand
    && Charged(L, table, pixels, remap, currents)
  }

  /** One strand of a refresh: its pass over every pixel slot, then its
      currents appended. */
  method RenderStep(L: Layout, table: Table, pixels: Option<seq<Pixel>>, remap: Option<seq<int>>,
                    buf: seq<seq<bv8>>, slots: seq<seq<bv8>>, currents: seq<real>, s: nat, width: LongWidth)
    returns (slots': seq<seq<bv8>>, currents': seq<real>)
    requires L.Valid() && Covers(L, pixels, remap) && Shaped(L, buf) && s < L.nStrands
    requires Rendered(L, table, pixels, remap, buf, slots, currents, s)
    ensures Rendered(L, table, pixels, remap, buf, slots', currents', s + 1)
  {
    var cur;
    slots', cur := RenderStrand(L, table, pixels, remap, slots, s, |currents|, width);
    RowsFit(s, L.nStrands, L.perStrand);
    CurrentsStep(L, table, pixels, remap, s, currents, cur);
    currents' := currents + cur;
  }

  /** Appending one strand's currents keeps each current at its physical
      index. */
  lemma CurrentsStep(L: Layout, table: Table, pixels: Option<seq<Pixel>>, remap: Option<seq<int>>,
                     s: nat, currents: seq<real>, cur: seq<real>)
    requires L.Valid() && Covers(L, pixels, remap) && s < L.nStrands
    requires |currents| == s * L.perStrand && |cur| == L.perStrand && |currents| + |cur| <= L.Pixels()
    requires Charged(L, table, pixels, remap, currents) && StrandCharged(L, table, pixels, remap, s, cur)
    ensures Charged(L, table, pixels, remap, currents + cur)
  {
    var all := currents + cur;
    forall a | |currents| <= a < |all|
      ensures all[a] == CurrentFor(table, pixels, Mapped(remap, a))
    {
      var p := a - |currents|;
      assert AbsIndex(L, s, p) == a;
    }
  }

  /** The rows of `n` rows of `m` that precede row `s + 1`. */
  lemma RowsFit(s: nat, n: nat, m: nat)
    requires s < n
    ensures s * m + m == (s + 1) * m <= n * m
  {
  }

  /** The word the chip on strand `s` at position `p` clocks in from a
      rendered slot. */
  function Heard(L: Layout, table: Table, pixels: Option<seq<Pixel>>, remap: Option<seq<int>>, p: nat, s: nat): bv32
    requires L.Valid() && Covers(L, pixels, remap) && p < L.perStrand && s < L.nStrands
  {
    WordOf(Received(SlotOf(L, table, pixels, remap, p), L.pins[s], L.mode))
  }

  /** End to end: the chip on strand `s` at position `p` clocks in exactly the
      word rendered for it, and reads it as the colour the pixel is to show. */
  lemma StrandReceives(L: Layout, table: Table, pixels: Option<seq<Pixel>>, remap: Option<seq<int>>, p: nat, s: nat)
    requires L.Valid() && Covers(L, pixels, remap) && DistinctPins(L.mode, L.pins, L.nStrands)
    requires p < L.perStrand && s < L.nStrands
    ensures Heard(L, table, pixels, remap, p, s) == WordAt(L, table, pixels, remap, s, p)
    ensures ParseWord(Heard(L, table, pixels, remap, p, s)) == Some(ColorFor(table, pixels, Mapped(remap, AbsIndex(L, s, p))))
  {
    StackWord(L.mode, L.pins, Column(L, table, pixels, remap, p), s);
  }
}
