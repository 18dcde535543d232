/** The 32-bit P9813 command word: a flag byte followed by blue, green and
    red, shifted out most significant bit first. */
module Word {
  import opened Types

  /** The word sent for a pixel that is off or not driven. */
  const OffWord: bv32 := 0xFF00_0000

  /** Packs gamma-corrected channels the way the encoder does: red in bits
      0-7, green in 8-15, blue in 16-23, and a flag byte whose top two bits
      are set and whose remaining pairs are the inverted top two bits of
      blue, green and red. */
  function PackWord(r: bv8, g: bv8, b: bv8): (w: bv32)
    ensures w & 0xFF == r as bv32
    ensures (w >> 8) & 0xFF == g as bv32
    ensures (w >> 16) & 0xFF == b as bv32
    ensures w >> 30 == 3
    ensures (w >> 28) & 3 == !(b as bv32 >> 6) & 3
    ensures (w >> 26) & 3 == !(g as bv32 >> 6) & 3
    ensures (w >> 24) & 3 == !(r as bv32 >> 6) & 3
  {
    var rr := r as bv32;
    var gg := g as bv32;
    var bb := b as bv32;
    (bb << 16) | (gg << 8) | rr
      | (!(((bb & 0xC0) << 22) | ((gg & 0xC0) << 20) | ((rr & 0xC0) << 18)) & 0xFF00_0000)
  }

  /** The three channels a chip latches from a word. */
  datatype Color = Color(r: bv8, g: bv8, b: bv8)

  /** The flag byte a well-formed word must carry for its colour bytes. */
  function FlagByte(c: Color): bv8 {
    0xC0 | ((!c.b >> 6) << 4) | (((!c.g >> 6) & 3) << 2) | ((!c.r >> 6) & 3)
  }

  /** A chip's reading of a word: the colour, when the flag byte checks. */
  function ParseWord(w: bv32): Option<Color> {
    var c := Color(ByteAt(w, 0), ByteAt(w, 1), ByteAt(w, 2));
    if ByteAt(w, 3) == FlagByte(c) then Some(c) else None
  }

  /** Packing and parsing are inverse: every packed word parses back to its
      colour, and every word that parses is the packing of what it parses to. */
  lemma ParsePack(c: Color, w: bv32)
    ensures ParseWord(PackWord(c.r, c.g, c.b)) == Some(c)
    ensures ParseWord(w) == Some(c) ==> PackWord(c.r, c.g, c.b) == w
  {
    PackParses(c);
    if ParseWord(w) == Some(c) {
      ParsedPacks(c, w);
    }
  }

  lemma PackParses(c: Color)
    ensures ParseWord(PackWord(c.r, c.g, c.b)) == Some(c)
  {
    PackFlag(c);
    PackLow(c);
  }

  lemma ParsedPacks(c: Color, w: bv32)
    requires ParseWord(w) == Some(c)
    ensures PackWord(c.r, c.g, c.b) == w
  {
    PackIsJoin(c);
    BytesOfWord(w);
  }

  /** A packed word is the flag byte, blue, green and red, high to low. */
  lemma PackIsJoin(c: Color)
    ensures PackWord(c.r, c.g, c.b) == Join(FlagByte(c), c.b, c.g, c.r)
  {
    PackFlag(c);
    PackLow(c);
    BytesOfWord(PackWord(c.r, c.g, c.b));
  }

  lemma PackFlag(c: Color)
    ensures ByteAt(PackWord(c.r, c.g, c.b), 3) == FlagByte(c)
  {
    FlagOfPack(c, PackWord(c.r, c.g, c.b));
  }

  lemma PackLow(c: Color)
    ensures var w := PackWord(c.r, c.g, c.b); ByteAt(w, 0) == c.r && ByteAt(w, 1) == c.g && ByteAt(w, 2) == c.b
  {
    LowBytes(PackWord(c.r, c.g, c.b), c);
  }

  /** The top byte of a word with a packed word's flag fields is the
      colour's flag byte. */
  lemma FlagOfPack(c: Color, w: bv32)
    requires w >> 30 == 3
    requires (w >> 28) & 3 == !(c.b as bv32 >> 6) & 3
    requires (w >> 26) & 3 == !(c.g as bv32 >> 6) & 3
    requires (w >> 24) & 3 == !(c.r as bv32 >> 6) & 3
    ensures ByteAt(w, 3) == FlagByte(c)
  {
  }

  /** The low three bytes of a word that holds red, green and blue where
      a packed word holds them. */
  lemma LowBytes(w: bv32, c: Color)
    requires w & 0xFF == c.r as bv32
    requires (w >> 8) & 0xFF == c.g as bv32
    requires (w >> 16) & 0xFF == c.b as bv32
    ensures ByteAt(w, 0) == c.r && ByteAt(w, 1) == c.g && ByteAt(w, 2) == c.b
  {
  }

  /** The off word is the packing of black. */
  lemma OffIsBlack()
    ensures PackWord(0, 0, 0) == OffWord
    ensures ParseWord(OffWord) == Some(Color(0, 0, 0))
  {
  }

  /** The bits of a byte, most significant first. */
  function ByteBits(x: bv8): (r: seq<bool>)
    ensures |r| == 8
  {
    [x & 0x80 != 0, x & 0x40 != 0, x & 0x20 != 0, x & 0x10 != 0,
     x & 0x08 != 0, x & 0x04 != 0, x & 0x02 != 0, x & 0x01 != 0]
  }

  function BitValue(bit: bool, m: bv8): bv8 {
    if bit then m else 0
  }

  function ByteOfBits(a0: bool, a1: bool, a2: bool, a3: bool, a4: bool, a5: bool, a6: bool, a7: bool): bv8 {
    BitValue(a0, 0x80) | BitValue(a1, 0x40) | BitValue(a2, 0x20) | BitValue(a3, 0x10)
    | BitValue(a4, 0x08) | BitValue(a5, 0x04) | BitValue(a6, 0x02) | BitValue(a7, 0x01)
  }

  /** The byte whose bits, most significant first, are `bs`. */
  function ByteOf(bs: seq<bool>): bv8
    requires |bs| == 8
  {
    ByteOfBits(bs[0], bs[1], bs[2], bs[3], bs[4], bs[5], bs[6], bs[7])
  }

  lemma BitsOfByteOfBits(a0: bool, a1: bool, a2: bool, a3: bool, a4: bool, a5: bool, a6: bool, a7: bool)
    ensures ByteBits(ByteOfBits(a0, a1, a2, a3, a4, a5, a6, a7)) == [a0, a1, a2, a3, a4, a5, a6, a7]
  {
    var x := ByteOfBits(a0, a1, a2, a3, a4, a5, a6, a7);
    assert (x & 0x80 != 0 <==> a0) && (x & 0x40 != 0 <==> a1) && (x & 0x20 != 0 <==> a2) && (x & 0x10 != 0 <==> a3)
      && (x & 0x08 != 0 <==> a4) && (x & 0x04 != 0 <==> a5) && (x & 0x02 != 0 <==> a6) && (x & 0x01 != 0 <==> a7);
  }

  lemma ByteOfByteBits(x: bv8)
    ensures ByteOf(ByteBits(x)) == x
  {
    var bs := ByteBits(x);
    assert ByteOf(bs) == ByteOfBits(x & 0x80 != 0, x & 0x40 != 0, x & 0x20 != 0, x & 0x10 != 0,
                                    x & 0x08 != 0, x & 0x04 != 0, x & 0x02 != 0, x & 0x01 != 0);
  }

  lemma Eight(bs: seq<bool>)
    requires |bs| == 8
    ensures bs == [bs[0], bs[1], bs[2], bs[3], bs[4], bs[5], bs[6], bs[7]]
  {
  }

  lemma ByteBitsOfByte(bs: seq<bool>)
    requires |bs| == 8
    ensures ByteBits(ByteOf(bs)) == bs
  {
    Eight(bs);
    BitsOfByteOfBits(bs[0], bs[1], bs[2], bs[3], bs[4], bs[5], bs[6], bs[7]);
  }

  /** A byte and its eight bits, most significant first, determine each other. */
  lemma ByteRoundTrip(x: bv8, bs: seq<bool>)
    requires |bs| == 8
    ensures ByteOf(ByteBits(x)) == x
    ensures ByteBits(ByteOf(bs)) == bs
  {
    ByteOfByteBits(x);
    ByteBitsOfByte(bs);
  }

  /** Byte `k` of a word, counting from the least significant. */
  function ByteAt(w: bv32, k: nat): bv8
    requires k < 4
  {
    if k == 0 then (w & 0xFF) as bv8
    else if k == 1 then ((w >> 8) & 0xFF) as bv8
    else if k == 2 then ((w >> 16) & 0xFF) as bv8
    else (w >> 24) as bv8
  }

  /** The serial stream of a word: 32 bits, most significant first, that is
      the flag byte, then blue, green and red. Element `k` is bit `31 - k`. */
  function Bits(w: bv32): (r: seq<bool>)
    ensures |r| == 32
  {
    ByteBits(ByteAt(w, 3)) + ByteBits(ByteAt(w, 2)) + ByteBits(ByteAt(w, 1)) + ByteBits(ByteAt(w, 0))
  }

  /** The word whose bytes, most significant first, are `a`, `b`, `c`, `d`. */
  function Join(a: bv8, b: bv8, c: bv8, d: bv8): bv32 {
    ((a as bv32) << 24) | ((b as bv32) << 16) | ((c as bv32) << 8) | (d as bv32)
  }

  /** The word a 32-bit serial stream carries. */
  function WordOf(bs: seq<bool>): bv32
    requires |bs| == 32
  {
    Join(ByteOf(bs[0..8]), ByteOf(bs[8..16]), ByteOf(bs[16..24]), ByteOf(bs[24..32]))
  }

  lemma WordOfBytes(a: bv8, b: bv8, c: bv8, d: bv8)
    ensures var w := Join(a, b, c, d);
      ByteAt(w, 3) == a && ByteAt(w, 2) == b && ByteAt(w, 1) == c && ByteAt(w, 0) == d
  {
  }

  lemma BytesOfWord(w: bv32)
    ensures w == Join(ByteAt(w, 3), ByteAt(w, 2), ByteAt(w, 1), ByteAt(w, 0))
  {
  }

  /** A 32-element sequence is its four 8-element quarters. */
  lemma Quarters(a: seq<bool>, b: seq<bool>, c: seq<bool>, d: seq<bool>, s: seq<bool>)
    requires |a| == |b| == |c| == |d| == 8 && s == a + b + c + d
    ensures s[0..8] == a && s[8..16] == b && s[16..24] == c && s[24..32] == d
  {
  }

  lemma Concat(s: seq<bool>)
    requires |s| == 32
    ensures s == s[0..8] + s[8..16] + s[16..24] + s[24..32]
  {
  }

  lemma WordOfBits(w: bv32)
    ensures WordOf(Bits(w)) == w
  {
    var a, b, c, d := ByteAt(w, 3), ByteAt(w, 2), ByteAt(w, 1), ByteAt(w, 0);
    var s := Bits(w);
    Quarters(ByteBits(a), ByteBits(b), ByteBits(c), ByteBits(d), s);
    ByteOfByteBits(a);
    ByteOfByteBits(b);
    ByteOfByteBits(c);
    ByteOfByteBits(d);
    assert WordOf(s) == Join(a, b, c, d);
    BytesOfWord(w);
  }

  lemma BitsOfWord(bs: seq<bool>)
    requires |bs| == 32
    ensures Bits(WordOf(bs)) == bs
  {
    var a, b, c, d := ByteOf(bs[0..8]), ByteOf(bs[8..16]), ByteOf(bs[16..24]), ByteOf(bs[24..32]);
    var v := Join(a, b, c, d);
    WordOfBytes(a, b, c, d);
    ByteBitsOfByte(bs[0..8]);
    ByteBitsOfByte(bs[8..16]);
    ByteBitsOfByte(bs[16..24]);
    ByteBitsOfByte(bs[24..32]);
    assert Bits(v) == ByteBits(a) + ByteBits(b) + ByteBits(c) + ByteBits(d);
    Concat(bs);
  }

  /** Serialising and deserialising a word are inverse in both directions, so
      the stream determines the word bit for bit. */
  lemma BitsRoundTrip(w: bv32, bs: seq<bool>)
    requires |bs| == 32
    ensures WordOf(Bits(w)) == w
    ensures Bits(WordOf(bs)) == bs
  {
    WordOfBits(w);
    BitsOfWord(bs);
  }

  /** A packed word goes out as its flag byte, then blue, green and red, each
      most significant bit first. */
  lemma PackedStream(r: bv8, g: bv8, b: bv8)
    ensures Bits(PackWord(r, g, b)) == ByteBits(FlagByte(Color(r, g, b))) + ByteBits(b) + ByteBits(g) + ByteBits(r)
  {
    var w := PackWord(r, g, b);
    ParsePack(Color(r, g, b), w);
    assert ByteAt(w, 3) == FlagByte(Color(r, g, b));
    assert ByteAt(w, 2) == b && ByteAt(w, 1) == g && ByteAt(w, 0) == r;
  }
}
