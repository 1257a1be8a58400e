/** CRC32C, and which damage it always detects. */
module Checksum {
  import opened Bytes

  function CrcBit(c: bv32): bv32 {
    if c & 1 == 1 then (c >> 1) ^ 0x82F6_3B78 else c >> 1
  }

  function CrcBits(c: bv32, n: nat): bv32
    decreases n
  {
    if n == 0 then c else CrcBits(CrcBit(c), n - 1)
  }

  /** A byte in the low bits of a word. */
  function Bits(x: byte): bv32 { (x as bv8) as bv32 }

  function Xor(a: bv32, b: bv32): bv32 { a ^ b }

  function CrcByte(c: bv32, x: byte): bv32 { CrcBits(Xor(c, Bits(x)), 8) }

  function CrcFrom(c: bv32, s: seq<byte>): bv32 {
    if s == [] then c else CrcByte(CrcFrom(c, s[..|s| - 1]), s[|s| - 1])
  }

  /** CRC32C (Castagnoli, reflected), section 12.1 of RFC 3720. */
  function Crc32c(s: seq<byte>): (n: nat)
    ensures n < U32
  {
    Xor(CrcFrom(0xFFFF_FFFF, s), 0xFFFF_FFFF) as nat
  }

  // ---------------------------------------------------------------- injectivity

  /** No step of the register forgets anything. */
  lemma CrcBitInjective(c: bv32, d: bv32)
    requires CrcBit(c) == CrcBit(d)
    ensures c == d
  {
  }

  lemma {:induction false} CrcBitsInjective(c: bv32, d: bv32, n: nat)
    requires CrcBits(c, n) == CrcBits(d, n)
    ensures c == d
    decreases n
  {
    hide CrcBit;
    if n > 0 {
      CrcBitsInjective(CrcBit(c), CrcBit(d), n - 1);
      CrcBitInjective(c, d);
    }
  }

  /** The two words differ by `y`. Proofs about the register argue with this relation
      and leave the exclusive-or itself folded. */
  predicate Off(z: bv32, c: bv32, y: bv32) { z == c ^ y }

  lemma OffSame(z: bv32, c: bv32, d: bv32, y: bv32)
    requires Off(z, c, y) && Off(z, d, y)
    ensures c == d
  {
  }

  lemma OffXor(c: bv32, y: bv32)
    ensures Off(Xor(c, y), c, y) && Off(Xor(c, y), y, c)
  {
  }

  lemma CrcByteInjective(c: bv32, d: bv32, x: byte)
    requires CrcByte(c, x) == CrcByte(d, x)
    ensures c == d
  {
    hide CrcBits, Bits, Off, Xor;
    CrcBitsInjective(Xor(c, Bits(x)), Xor(d, Bits(x)), 8);
    OffXor(c, Bits(x));
    OffXor(d, Bits(x));
    OffSame(Xor(c, Bits(x)), c, d, Bits(x));
  }

  lemma {:induction false} CrcFromInjective(c: bv32, d: bv32, s: seq<byte>)
    requires CrcFrom(c, s) == CrcFrom(d, s)
    ensures c == d
  {
    hide CrcByte;
    if s != [] {
      var n := |s| - 1;
      CrcByteInjective(CrcFrom(c, s[..n]), CrcFrom(d, s[..n]), s[n]);
      CrcFromInjective(c, d, s[..n]);
    }
  }

  lemma {:induction false} CrcFromConcat(c: bv32, a: seq<byte>, b: seq<byte>)
    ensures CrcFrom(c, a + b) == CrcFrom(CrcFrom(c, a), b)
  {
    hide CrcByte;
    if b == [] {
      assert a + b == a;
    } else {
      var n := |b| - 1;
      assert (a + b)[..|a + b| - 1] == a + b[..n];
      CrcFromConcat(c, a, b[..n]);
    }
  }

  lemma AsNatInjective(x: bv32, y: bv32)
    requires x as nat == y as nat
    ensures x == y
  {
    BackFromNat(x);
    BackFromNat(y);
  }

  lemma BackFromNat(x: bv32)
    ensures (x as nat) as bv32 == x
  {
  }

  lemma BackFromBits(x: byte)
    ensures (x as bv8) as int == x
  {
    var b := ByteOf(x);
    BackFromInt(b);
  }

  lemma BackFromInt(b: bv8)
    ensures (b as int) as bv8 == b
  {
  }

  lemma {:induction false} ByteOf(x: byte) returns (b: bv8)
    ensures b as int == x
  {
    if x == 0 {
      b := 0;
    } else {
      var a := ByteOf(x - 1);
      NotLast(a);
      OneUp(a);
      b := a + 1;
    }
  }

  lemma NotLast(b: bv8)
    requires b as int < 255
    ensures b != 255
  {
  }

  lemma OneUp(b: bv8)
    requires b != 255
    ensures (b + 1) as int == b as int + 1
  {
  }

  lemma BitsInjective(x: byte, y: byte)
    requires Bits(x) == Bits(y)
    ensures x == y
  {
    assert x as bv8 == y as bv8 by { Narrowed(x as bv8, y as bv8); }
    BackFromBits(x);
    BackFromBits(y);
  }

  lemma Narrowed(x: bv8, y: bv8)
    requires x as bv32 == y as bv32
    ensures x == y
  {
  }

  // --------------------------------------------------------------------- bursts

  predicate Doubled(x: bv32, y: bv32) { x == y << 1 && y & 0x8000_0000 == 0 }

  /** A step moves every bit above the lowest one down by one. */
  lemma OffStep(z: bv32, c: bv32, x: bv32, y: bv32)
    requires Off(z, c, x) && Doubled(x, y)
    ensures Off(CrcBit(z), CrcBit(c), y)
  {
    hide CrcBit, Off, Doubled;
    Halves(z, c, x, y);
    if c & 1 == 1 {
      OddStep(z);
      OddStep(c);
      OffAlike(CrcBit(z), CrcBit(c), z >> 1, c >> 1, y, 0x82F6_3B78);
    } else {
      EvenStep(z);
      EvenStep(c);
    }
  }

  lemma Halves(z: bv32, c: bv32, x: bv32, y: bv32)
    requires Off(z, c, x) && Doubled(x, y)
    ensures z & 1 == c & 1 && Off(z >> 1, c >> 1, y)
  {
  }

  lemma OddStep(c: bv32)
    requires c & 1 == 1
    ensures Off(CrcBit(c), c >> 1, 0x82F6_3B78)
  {
  }

  lemma EvenStep(c: bv32)
    requires c & 1 != 1
    ensures CrcBit(c) == c >> 1
  {
  }

  lemma OffAlike(kz: bv32, kc: bv32, hz: bv32, hc: bv32, y: bv32, p: bv32)
    requires Off(hz, hc, y) && Off(kz, hz, p) && Off(kc, hc, p)
    ensures Off(kz, kc, y)
  {
  }

  lemma FourBits(c: bv32)
    ensures CrcBits(c, 4) == CrcBit(CrcBit(CrcBit(CrcBit(c))))
  {
    hide CrcBit;
    assert CrcBits(c, 4) == CrcBits(CrcBit(CrcBit(c)), 2);
  }

  lemma OffFour(z: bv32, c: bv32, x: bv32, x1: bv32, x2: bv32, x3: bv32, y: bv32)
    requires Off(z, c, x) && Doubled(x, x1) && Doubled(x1, x2) && Doubled(x2, x3) && Doubled(x3, y)
    ensures Off(CrcBits(z, 4), CrcBits(c, 4), y)
  {
    hide Off, Doubled, CrcBit;
    OffStep(z, c, x, x1);
    OffStep(CrcBit(z), CrcBit(c), x1, x2);
    OffStep(CrcBit(CrcBit(z)), CrcBit(CrcBit(c)), x2, x3);
    OffStep(CrcBit(CrcBit(CrcBit(z))), CrcBit(CrcBit(CrcBit(c))), x3, y);
    FourBits(z); FourBits(c);
  }

  lemma {:induction false} CrcBitsAdd(c: bv32, m: nat, n: nat)
    ensures CrcBits(CrcBits(c, m), n) == CrcBits(c, m + n)
    decreases m
  {
    hide CrcBit;
    if m > 0 { CrcBitsAdd(CrcBit(c), m - 1, n); }
  }

  lemma Doublings(y: bv32)
    requires y & 0xF000_0000 == 0
    ensures Doubled(y << 4, y << 3) && Doubled(y << 3, y << 2) && Doubled(y << 2, y << 1) && Doubled(y << 1, y)
  {
  }

  lemma TwoHalves(y: bv32)
    requires y & 0xFF00_0000 == 0
    ensures Up8(y) == (y << 4) << 4 && (y << 4) & 0xF000_0000 == 0 && y & 0xF000_0000 == 0
  {
  }

  /** Eight steps move every bit above the low byte down by eight. */
  lemma EightAbove(z: bv32, c: bv32, y: bv32)
    requires y & 0xFF00_0000 == 0 && Off(z, c, Up8(y))
    ensures Off(CrcBits(z, 8), CrcBits(c, 8), y)
  {
    hide CrcBits, CrcBit, Off, Doubled, Up8;
    TwoHalves(y);
    var h := y << 4;
    Doublings(h);
    Doublings(y);
    OffFour(z, c, Up8(y), h << 3, h << 2, h << 1, h);
    OffFour(CrcBits(z, 4), CrcBits(c, 4), h, y << 3, y << 2, y << 1, y);
    CrcBitsAdd(z, 4, 4); CrcBitsAdd(c, 4, 4);
  }

  /** Up to four bytes as one word, the first byte lowest. */
  function Word(s: seq<byte>): bv32 {
    if s == [] then 0 else Xor(Bits(s[0]), Up8(Word(s[1..])))
  }

  function Up8(y: bv32): bv32 { y << 8 }

  lemma ByteBits(x: byte)
    ensures Bits(x) & 0xFF == Bits(x)
  {
  }

  lemma {:induction false} WordWidth(s: seq<byte>)
    ensures |s| == 0 ==> Word(s) == 0
    ensures |s| == 1 ==> Word(s) & 0xFFFF_FF00 == 0
    ensures |s| == 2 ==> Word(s) & 0xFFFF_0000 == 0
    ensures |s| <= 3 ==> Word(s) & 0xFF00_0000 == 0
  {
    hide Bits;
    if s != [] {
      ByteBits(s[0]);
      WordWidth(s[1..]);
    }
  }

  lemma {:induction false} WordInjective(s: seq<byte>, t: seq<byte>)
    requires |s| == |t| <= 4 && Word(s) == Word(t)
    ensures s == t
  {
    hide Bits, Word;
    if s != [] {
      SameWords(s, t);
      WordInjective(s[1..], t[1..]);
      assert s == [s[0]] + s[1..] && t == [t[0]] + t[1..];
    }
  }

  lemma SameWords(s: seq<byte>, t: seq<byte>)
    requires 0 < |s| == |t| <= 4 && Word(s) == Word(t)
    ensures s[0] == t[0] && Word(s[1..]) == Word(t[1..])
  {
    hide Bits, Xor, Up8, Off;
    ByteBits(s[0]);
    ByteBits(t[0]);
    WordWidth(s[1..]);
    WordWidth(t[1..]);
    OffXor(Bits(s[0]), Up8(Word(s[1..])));
    OffXor(Bits(t[0]), Up8(Word(t[1..])));
    LowByte(Word(s), Bits(s[0]), Word(s[1..]), Bits(t[0]), Word(t[1..]));
    BitsInjective(s[0], t[0]);
  }

  lemma LowByte(w: bv32, x: bv32, u: bv32, y: bv32, v: bv32)
    requires x & 0xFF == x && y & 0xFF == y && u & 0xFF00_0000 == 0 && v & 0xFF00_0000 == 0
    requires Off(w, x, Up8(u)) && Off(w, y, Up8(v))
    ensures x == y && u == v
  {
  }

  /** Up to four bytes act on the register as one word does. */
  lemma {:induction false} CrcOfWord(c: bv32, s: seq<byte>, u: bv32)
    requires |s| <= 4 && Off(u, c, Word(s))
    ensures CrcFrom(c, s) == CrcBits(u, 8 * |s|)
    decreases |s|
  {
    hide CrcBits, Bits, CrcByte, CrcFrom, Off, Word, Xor, Up8;
    if s == [] {
      NoBytes(c, u);
    } else {
      var rest := s[1..];
      var v := Xor(c, Bits(s[0]));
      FirstByte(c, s);
      WordWidth(rest);
      UpperBytes(c, s, u);
      EightAbove(u, v, Word(rest));
      CrcOfWord(CrcByte(c, s[0]), rest, CrcBits(u, 8));
      CrcBitsAdd(u, 8, 8 * |rest|);
    }
  }

  lemma NoBytes(c: bv32, u: bv32)
    requires Off(u, c, Word([]))
    ensures CrcFrom(c, []) == CrcBits(u, 0)
  {
  }

  lemma FirstByte(c: bv32, s: seq<byte>)
    requires s != []
    ensures CrcFrom(c, s) == CrcFrom(CrcByte(c, s[0]), s[1..]) && CrcByte(c, s[0]) == CrcBits(Xor(c, Bits(s[0])), 8)
  {
    hide CrcBits, Bits, Xor;
    assert s == [s[0]] + s[1..];
    CrcFromConcat(c, [s[0]], s[1..]);
    assert [s[0]][..0] == [];
    assert CrcFrom(c, [s[0]]) == CrcByte(c, s[0]);
  }

  lemma UpperBytes(c: bv32, s: seq<byte>, u: bv32)
    requires s != [] && Off(u, c, Word(s))
    ensures Off(u, Xor(c, Bits(s[0])), Up8(Word(s[1..])))
  {
    hide Bits, Xor, Up8, Off;
    OffXor(c, Bits(s[0]));
    OffXor(Bits(s[0]), Up8(Word(s[1..])));
    OffMove(u, c, Word(s), Bits(s[0]), Up8(Word(s[1..])), Xor(c, Bits(s[0])));
  }

  lemma OffMove(u: bv32, c: bv32, w: bv32, low: bv32, high: bv32, v: bv32)
    requires Off(u, c, w) && Off(w, low, high) && Off(v, c, low)
    ensures Off(u, v, high)
  {
  }

  /** Damage within any four adjacent bytes, however many of their bits it changes,
      always changes the checksum. */
  lemma BurstDetected(s: seq<byte>, t: seq<byte>, i: nat, j: nat)
    requires |s| == |t| && i <= j <= |s| && j - i <= 4
    requires s[..i] == t[..i] && s[j..] == t[j..] && s != t
    ensures Crc32c(s) != Crc32c(t)
  {
    hide CrcFrom, Crc32c;
    if Crc32c(s) == Crc32c(t) {
      SameRegister(s, t);
      SameCrc(0xFFFF_FFFF, s, t, i, j);
    }
  }

  lemma SameRegister(s: seq<byte>, t: seq<byte>)
    requires Crc32c(s) == Crc32c(t)
    ensures CrcFrom(0xFFFF_FFFF, s) == CrcFrom(0xFFFF_FFFF, t)
  {
    hide CrcFrom, Off, Xor;
    var ones: bv32 := 0xFFFF_FFFF;
    var x, y := CrcFrom(ones, s), CrcFrom(ones, t);
    AsNatInjective(Xor(x, ones), Xor(y, ones));
    OffXor(x, ones);
    OffXor(y, ones);
    OffSame(Xor(x, ones), x, y, ones);
  }

  lemma SameCrc(c: bv32, s: seq<byte>, t: seq<byte>, i: nat, j: nat)
    requires |s| == |t| && i <= j <= |s| && j - i <= 4 && s[..i] == t[..i] && s[j..] == t[j..]
    requires CrcFrom(c, s) == CrcFrom(c, t)
    ensures s == t
  {
    hide CrcFrom, CrcBits, Word, Off;
    var a, z, x, y := s[..i], s[j..], s[i..j], t[i..j];
    assert s == a + (x + z) && t == a + (y + z);
    CrcFromConcat(c, a, x + z);
    CrcFromConcat(c, a, y + z);
    var d := CrcFrom(c, a);
    CrcFromConcat(d, x, z);
    CrcFromConcat(d, y, z);
    CrcFromInjective(CrcFrom(d, x), CrcFrom(d, y), z);
    SameWindow(d, x, y);
  }

  lemma SameWindow(d: bv32, x: seq<byte>, y: seq<byte>)
    requires |x| == |y| <= 4 && CrcFrom(d, x) == CrcFrom(d, y)
    ensures x == y
  {
    hide CrcFrom, CrcBits, Word, Off, Xor;
    OffXor(d, Word(x));
    OffXor(d, Word(y));
    CrcOfWord(d, x, Xor(d, Word(x)));
    CrcOfWord(d, y, Xor(d, Word(y)));
    CrcBitsInjective(Xor(d, Word(x)), Xor(d, Word(y)), 8 * |x|);
    OffSame(Xor(d, Word(x)), Word(x), Word(y), d);
    WordInjective(x, y);
  }

  // ------------------------------------------------------------------ reference

  lemma CrcNext(c: bv32, s: seq<byte>, x: byte)
    ensures CrcFrom(c, s + [x]) == CrcByte(CrcFrom(c, s), x)
  {
    hide CrcByte;
    assert (s + [x])[..|s|] == s;
  }

  lemma FirstDigits()
    ensures CrcByte(0xFFFF_FFFF, 0x31) == 0x6F0A_661C
    ensures CrcByte(0x6F0A_661C, 0x32) == 0x8CAA_3B9F
    ensures CrcByte(0x8CAA_3B9F, 0x33) == 0xEF84_D04D
    ensures CrcByte(0xEF84_D04D, 0x34) == 0x09C5_0B11
    ensures CrcByte(0x09C5_0B11, 0x35) == 0xE72E_DCCA
  {
  }

  lemma LastDigits()
    ensures CrcByte(0xE72E_DCCA, 0x36) == 0xBECA_8E79
    ensures CrcByte(0xBECA_8E79, 0x37) == 0xEDBD_6815
    ensures CrcByte(0xEDBD_6815, 0x38) == 0x9F78_7F65
    ensures CrcByte(0x9F78_7F65, 0x39) == 0x1CF9_6D7C
  {
  }

  /** The published check value: the checksum of the text "123456789". */
  lemma CheckValue()
    ensures Crc32c([0x31, 0x32, 0x33, 0x34, 0x35, 0x36, 0x37, 0x38, 0x39]) == 0xE306_9283
  {
    hide CrcByte;
    FirstDigits();
    LastDigits();
    var c: bv32 := 0xFFFF_FFFF;
    var s4 := [0x31] + [0x32] + [0x33] + [0x34];
    CrcNext(c, [], 0x31);
    assert [] + [0x31] == [0x31];
    CrcNext(c, [0x31], 0x32);
    CrcNext(c, [0x31] + [0x32], 0x33);
    CrcNext(c, [0x31] + [0x32] + [0x33], 0x34);
    CrcNext(c, s4, 0x35);
    CrcNext(c, s4 + [0x35], 0x36);
    CrcNext(c, s4 + [0x35] + [0x36], 0x37);
    CrcNext(c, s4 + [0x35] + [0x36] + [0x37], 0x38);
    CrcNext(c, s4 + [0x35] + [0x36] + [0x37] + [0x38], 0x39);
    assert s4 + [0x35] + [0x36] + [0x37] + [0x38] + [0x39] == [0x31, 0x32, 0x33, 0x34, 0x35, 0x36, 0x37, 0x38, 0x39];
  }
}
