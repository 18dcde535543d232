/** A slot of the output buffer as the data pins see it: the clear slot of
    a clock mode, the stack of every strand's bit stream spread into it under
    the strand's pin, and what the chip on each strand clocks in from it. */
module Slots {
  import opened Types
  import opened Word
  import opened Transpose

  /** A slot with no data: in software-clock mode the even bytes are 0 and
      the odd bytes carry the clock mask, so the clock ticks once per bit;
      in hardware-clock mode every byte is 0. */
  function ClearSlot(mode: ClockMode, clock: bv8): (slot: seq<bv8>)
    ensures |slot| == mode.BytesPerPixel()
  {
    seq(mode.BytesPerPixel(), j => ClearByte(mode, clock, j))
  }

  function ClearByte(mode: ClockMode, clock: bv8, j: int): bv8 {
    if mode == SoftwareClock && j % 2 == 1 then clock else 0
  }

  /** The serial streams of a column of words. */
  function Streams(ws: seq<bv32>): (bss: seq<seq<bool>>)
    ensures |bss| == |ws|
    ensures forall s :: 0 <= s < |ws| ==> bss[s] == Bits(ws[s])
  {
    seq(|ws|, s requires 0 <= s < |ws| => Bits(ws[s]))
  }

  /** Streams of 32 bits each, for at most eight strands. */
  predicate Wellformed(streams: seq<seq<bool>>) {
    |streams| <= 8 && forall s :: 0 <= s < |streams| ==> |streams[s]| == 32
  }

  /** Pin mask `s`, or no pin past the end of the table. */
  function Pin(pins: seq<bv8>, s: nat): bv8 {
    if s < |pins| then pins[s] else 0
  }

  /** Bit `i` of stream `s`, or clear past the end of the streams. */
  function StreamBit(streams: seq<seq<bool>>, s: nat, i: nat): bool {
    if s < |streams| && i < |streams[s]| then streams[s][i] else false
  }

  /** Byte `j` of a slot once the first `n` streams have been spread into
      it, in strand order, each under its strand's pin. */
  function Layer(mode: ClockMode, pins: seq<bv8>, streams: seq<seq<bool>>, n: nat, j: nat): bv8
    decreases n
  {
    if n == 0 then ClearByte(mode, Pin(pins, 7), j)
    else Layer(mode, pins, streams, n - 1, j) | Contribution(StreamBit(streams, n - 1, BitIndex(j, mode)), Pin(pins, n - 1))
  }

  /** Reference definition of a slot with the first `n` streams spread in. */
  function Stack(mode: ClockMode, pins: seq<bv8>, streams: seq<seq<bool>>, n: nat): (slot: seq<bv8>)
    ensures |slot| == mode.BytesPerPixel()
  {
    seq(mode.BytesPerPixel(), j requires 0 <= j < mode.BytesPerPixel() => Layer(mode, pins, streams, n, j))
  }

  /** The stack starts as the clear slot. */
  lemma StackZero(mode: ClockMode, pins: seq<bv8>, streams: seq<seq<bool>>)
    requires |pins| == 8
    ensures Stack(mode, pins, streams, 0) == ClearSlot(mode, pins[7])
  {
    var a := Stack(mode, pins, streams, 0);
    var b := ClearSlot(mode, pins[7]);
    assert forall j :: 0 <= j < |a| ==> a[j] == b[j];
  }

  /** The stack grows by one spread per strand. */
  lemma StackStep(mode: ClockMode, pins: seq<bv8>, streams: seq<seq<bool>>, n: nat)
    requires |pins| == 8 && Wellformed(streams) && n < |streams|
    ensures Stack(mode, pins, streams, n + 1) == Spread(Stack(mode, pins, streams, n), streams[n], pins[n], mode)
  {
    var c := Stack(mode, pins, streams, n + 1);
    var d := Spread(Stack(mode, pins, streams, n), streams[n], pins[n], mode);
    assert forall j :: 0 <= j < |c| ==> c[j] == d[j];
  }

  /** Row `s` of `n` rows of `m` ends inside the table. */
  lemma IndexBound(s: nat, p: nat, n: nat, m: nat)
    requires s < n && p < m
    ensures s * m + p < n * m
  {
    assert (s + 1) * m <= n * m;
  }

  /** The byte array written to the adapter. */
  function Flatten(slots: seq<seq<bv8>>): seq<bv8> {
    if |slots| == 0 then [] else slots[0] + Flatten(slots[1..])
  }

  lemma {:induction false} FlattenLength(slots: seq<seq<bv8>>, n: nat)
    requires forall q :: 0 <= q < |slots| ==> |slots[q]| == n
    ensures |Flatten(slots)| == |slots| * n
  {
    if |slots| > 0 {
      FlattenLength(slots[1..], n);
      assert |slots| * n == n + (|slots| - 1) * n;
    }
  }

  /** With slots of `n` bytes each, slot `p` occupies bytes `p * n` to
      `p * n + n - 1` of the array, so a write to a slot stays inside that
      range. */
  lemma {:induction false} FlattenIndex(slots: seq<seq<bv8>>, n: nat, p: nat, j: nat)
    requires forall q :: 0 <= q < |slots| ==> |slots[q]| == n
    requires p < |slots| && j < n
    ensures |Flatten(slots)| == |slots| * n
    ensures p * n + j < |Flatten(slots)| && Flatten(slots)[p * n + j] == slots[p][j]
    decreases p
  {
    FlattenLength(slots, n);
    IndexBound(p, j, |slots|, n);
    if p > 0 {
      FlattenIndex(slots[1..], n, p - 1, j);
      assert p * n + j == n + ((p - 1) * n + j);
    }
  }

  /** Usable pin masks for `n` strands: each strand's is nonzero, two strands
      share no pin, and no strand shares a pin with a bit-banged clock. */
  predicate DistinctPins(mode: ClockMode, pins: seq<bv8>, n: nat)
    requires |pins| == 8 && n <= 8
  {
    (forall s :: 0 <= s < n ==> pins[s] != 0)
    && (forall s, t {:trigger Apart(pins, s, t)} :: 0 <= s < n && 0 <= t < n && s != t ==> Apart(pins, s, t))
    && (mode == SoftwareClock ==> forall s {:trigger Apart(pins, s, 7)} :: 0 <= s < n ==> Apart(pins, s, 7))
  }

  /** Pins `s` and `t` share no bit. */
  predicate Apart(pins: seq<bv8>, s: nat, t: nat)
    requires s < |pins| && t < |pins|
  {
    pins[s] & pins[t] == 0
  }

  lemma OrMask(x: bv8, c: bv8, m: bv8)
    ensures ((x | c) & m != 0) <==> (x & m != 0 || c & m != 0)
  {
  }

  lemma SelfMask(m: bv8, bit: bool)
    requires m != 0
    ensures (Contribution(bit, m) & m != 0) <==> bit
  {
  }

  lemma OtherMask(m: bv8, o: bv8, bit: bool)
    requires m & o == 0
    ensures Contribution(bit, o) & m == 0
  {
    assert o & m == m & o;
  }

  lemma OrClear(x: bv8, c: bv8, m: bv8)
    requires c & m == 0
    ensures (x | c) & m == x & m
  {
  }

  lemma ClearMask(mode: ClockMode, clock: bv8, m: bv8, j: nat)
    requires j < mode.BytesPerPixel()
    requires mode == SoftwareClock ==> m & clock == 0
    ensures ClearByte(mode, clock, j) & m == 0
  {
    if mode == SoftwareClock && j % 2 == 1 {
      assert clock & m == m & clock;
    }
  }

  /** Under usable pins, strand `s`'s pin is set in byte `j` of a stack
      exactly when the strand is among the first `n` and its stream carries
      a 1 in the bit that byte belongs to. */
  lemma {:induction false} LayerBit(mode: ClockMode, pins: seq<bv8>, streams: seq<seq<bool>>, n: nat, s: nat, j: nat)
    requires |pins| == 8 && Wellformed(streams) && DistinctPins(mode, pins, |streams|)
    requires n <= |streams| && s < |streams| && j < mode.BytesPerPixel()
    ensures (Layer(mode, pins, streams, n, j) & pins[s] != 0) <==> (s < n && streams[s][BitIndex(j, mode)])
    decreases n
  {
    if n == 0 {
      LayerBase(mode, pins, streams, s, j);
    } else {
      LayerBit(mode, pins, streams, n - 1, s, j);
      LayerGrow(mode, pins, streams, n, s, j);
    }
  }

  /** No strand's pin is set in a byte holding only the clock. */
  lemma LayerBase(mode: ClockMode, pins: seq<bv8>, streams: seq<seq<bool>>, s: nat, j: nat)
    requires |pins| == 8 && Wellformed(streams) && DistinctPins(mode, pins, |streams|)
    requires s < |streams| && j < mode.BytesPerPixel()
    ensures Layer(mode, pins, streams, 0, j) & pins[s] == 0
  {
    assert mode == SoftwareClock ==> Apart(pins, s, 7);
    ClearMask(mode, pins[7], pins[s], j);
  }

  /** Layering strand `n - 1` on top of the first `n - 1` adds that strand's
      bit and changes no other strand's pin. */
  lemma LayerGrow(mode: ClockMode, pins: seq<bv8>, streams: seq<seq<bool>>, n: nat, s: nat, j: nat)
    requires |pins| == 8 && Wellformed(streams) && DistinctPins(mode, pins, |streams|)
    requires 0 < n <= |streams| && s < |streams| && j < mode.BytesPerPixel()
    requires (Layer(mode, pins, streams, n - 1, j) & pins[s] != 0) <==> (s < n - 1 && streams[s][BitIndex(j, mode)])
    ensures (Layer(mode, pins, streams, n, j) & pins[s] != 0) <==> (s < n && streams[s][BitIndex(j, mode)])
  {
    assert n - 1 != s ==> Apart(pins, s, n - 1);
    var bit := streams[n - 1][BitIndex(j, mode)];
    LayerStep(Layer(mode, pins, streams, n - 1, j), pins[n - 1], pins[s], bit, n - 1 == s);
  }

  /** Adding one strand's contribution to a byte: another strand's pin
      leaves the test for `m` as it was, the strand's own pin adds its bit. */
  lemma LayerStep(x: bv8, c: bv8, m: bv8, bit: bool, same: bool)
    requires same ==> c == m && m != 0
    requires !same ==> m & c == 0
    ensures ((x | Contribution(bit, c)) & m != 0) <==> (x & m != 0 || (same && bit))
  {
    OrMask(x, Contribution(bit, c), m);
    if same {
      SelfMask(m, bit);
    } else {
      OtherMask(m, c, bit);
    }
  }

  /** The bits the chip on a strand clocks in from a slot: the strand's pin
      in the first byte of each bit position. */
  function Received(slot: seq<bv8>, mask: bv8, mode: ClockMode): (bs: seq<bool>)
    requires |slot| == mode.BytesPerPixel()
    ensures |bs| == 32
  {
    seq(32, k requires 0 <= k < 32 => slot[FirstByte(k, mode)] & mask != 0)
  }

  /** Strand `s`'s pin in byte `j` of a full stack is the stream bit that
      byte carries. */
  lemma StackBit(mode: ClockMode, pins: seq<bv8>, streams: seq<seq<bool>>, s: nat, j: nat)
    requires |pins| == 8 && Wellformed(streams) && DistinctPins(mode, pins, |streams|)
    requires s < |streams| && j < mode.BytesPerPixel()
    ensures (Stack(mode, pins, streams, |streams|)[j] & pins[s] != 0) <==> streams[s][BitIndex(j, mode)]
  {
    LayerBit(mode, pins, streams, |streams|, s, j);
  }

  /** Decoding a stack: under usable pins, bit `31 - k` of strand `s`'s word
      is set exactly when the strand's pin is set in the byte of bit position
      `k` (in software-clock mode, in both of its bytes). */
  lemma Decode(mode: ClockMode, pins: seq<bv8>, streams: seq<seq<bool>>, s: nat, k: nat)
    requires |pins| == 8 && Wellformed(streams) && DistinctPins(mode, pins, |streams|)
    requires s < |streams| && k < 32
    ensures (Stack(mode, pins, streams, |streams|)[FirstByte(k, mode)] & pins[s] != 0) <==> streams[s][k]
    ensures mode == SoftwareClock ==>
      ((Stack(mode, pins, streams, |streams|)[FirstByte(k, mode) + 1] & pins[s] != 0) <==> streams[s][k])
  {
    DecodeFirst(mode, pins, streams, s, k);
    if mode == SoftwareClock {
      DecodeSecond(mode, pins, streams, s, k);
    }
  }

  lemma DecodeFirst(mode: ClockMode, pins: seq<bv8>, streams: seq<seq<bool>>, s: nat, k: nat)
    requires |pins| == 8 && Wellformed(streams) && DistinctPins(mode, pins, |streams|)
    requires s < |streams| && k < 32
    ensures (Stack(mode, pins, streams, |streams|)[FirstByte(k, mode)] & pins[s] != 0) <==> streams[s][k]
  {
    StackBit(mode, pins, streams, s, FirstByte(k, mode));
  }

  lemma DecodeSecond(mode: ClockMode, pins: seq<bv8>, streams: seq<seq<bool>>, s: nat, k: nat)
    requires mode == SoftwareClock
    requires |pins| == 8 && Wellformed(streams) && DistinctPins(mode, pins, |streams|)
    requires s < |streams| && k < 32
    ensures (Stack(mode, pins, streams, |streams|)[FirstByte(k, mode) + 1] & pins[s] != 0) <==> streams[s][k]
  {
    StackBit(mode, pins, streams, s, FirstByte(k, mode) + 1);
  }

  /** Each strand clocks in exactly its own word from a stack. */
  lemma StackReceived(mode: ClockMode, pins: seq<bv8>, streams: seq<seq<bool>>, s: nat)
    requires |pins| == 8 && Wellformed(streams) && DistinctPins(mode, pins, |streams|)
    requires s < |streams|
    ensures Received(Stack(mode, pins, streams, |streams|), pins[s], mode) == streams[s]
  {
    var got := Received(Stack(mode, pins, streams, |streams|), pins[s], mode);
    forall k | 0 <= k < 32
      ensures got[k] == streams[s][k]
    {
      Decode(mode, pins, streams, s, k);
    }
  }

  /** Each strand clocks in exactly its own word from the stack of a column
      of words. */
  lemma StackWord(mode: ClockMode, pins: seq<bv8>, ws: seq<bv32>, s: nat)
    requires |pins| == 8 && |ws| <= 8 && DistinctPins(mode, pins, |ws|) && s < |ws|
    ensures WordOf(Received(Stack(mode, pins, Streams(ws), |ws|), pins[s], mode)) == ws[s]
  {
    StackReceived(mode, pins, Streams(ws), s);
    WordOfBits(ws[s]);
  }

  /** In software-clock mode the clock pin of a stack is low in the first
      byte and high in the second byte of each bit, whatever the data. */
  lemma {:induction false} ClockTicks(pins: seq<bv8>, streams: seq<seq<bool>>, n: nat, j: nat)
    requires |pins| == 8 && Wellformed(streams) && DistinctPins(SoftwareClock, pins, |streams|)
    requires n <= |streams| && j < 64
    ensures Stack(SoftwareClock, pins, streams, n)[j] & pins[7] == if j % 2 == 1 then pins[7] else 0
  {
    ClockLayer(pins, streams, n, j);
  }

  lemma {:induction false} ClockLayer(pins: seq<bv8>, streams: seq<seq<bool>>, n: nat, j: nat)
    requires |pins| == 8 && Wellformed(streams) && DistinctPins(SoftwareClock, pins, |streams|)
    requires n <= |streams| && j < 64
    ensures Layer(SoftwareClock, pins, streams, n, j) & pins[7] == if j % 2 == 1 then pins[7] else 0
    decreases n
  {
    if n > 0 {
      ClockLayer(pins, streams, n - 1, j);
      ClockGrow(pins, streams, n, j);
    }
  }

  /** Layering a data strand on top leaves the clock pin as it was. */
  lemma ClockGrow(pins: seq<bv8>, streams: seq<seq<bool>>, n: nat, j: nat)
    requires |pins| == 8 && Wellformed(streams) && DistinctPins(SoftwareClock, pins, |streams|)
    requires 0 < n <= |streams| && j < 64
    ensures Layer(SoftwareClock, pins, streams, n, j) & pins[7] == Layer(SoftwareClock, pins, streams, n - 1, j) & pins[7]
  {
    var bit := streams[n - 1][j / 2];
    assert Apart(pins, n - 1, 7);
    OtherMask(pins[7], pins[n - 1], bit);
    OrClear(Layer(SoftwareClock, pins, streams, n - 1, j), Contribution(bit, pins[n - 1]), pins[7]);
  }

  /** A pin clear of the clock reads nothing from a clear slot. */
  lemma ClearReceived(mode: ClockMode, clock: bv8, m: bv8, k: nat)
    requires mode == SoftwareClock ==> m & clock == 0
    requires k < 32
    ensures !Received(ClearSlot(mode, clock), m, mode)[k]
  {
    ClearMask(mode, clock, m, FirstByte(k, mode));
  }

  /** The latch carries no data: every strand clocks in 32 zero bits (the
      word 0, which no chip reads as a colour, by `ZeroStream`). */
  lemma LatchIsEmpty(mode: ClockMode, pins: seq<bv8>, n: nat, s: nat)
    requires |pins| == 8 && n <= 8 && DistinctPins(mode, pins, n) && s < n
    ensures Received(ClearSlot(mode, pins[7]), pins[s], mode) == Zeros(32)
  {
    var got := Received(ClearSlot(mode, pins[7]), pins[s], mode);
    assert mode == SoftwareClock ==> Apart(pins, s, 7);
    forall k | 0 <= k < 32
      ensures got[k] == Zeros(32)[k]
    {
      ClearReceived(mode, pins[7], pins[s], k);
    }
  }
}
