/**
  The CRC-32 in machine words: the register operations of `Crc32` are the source's operations on
  32-bit words, and have the values by which an implementation is told.
*/
module Crc32Values {
  import opened Binary
  import opened Crc32
  import opened Words

  // ---- Words as registers ----------------------------------------------------------------------------

  function Mask(i: nat): bv32 { if i == 0 then 1 else Mask(i - 1) << 1 }

  /** The bits of a word, the lowest first. */
  function RegOf(v: bv32): reg { seq(32, i requires 0 <= i < 32 => v & Mask(i) != 0) }

  /** One round of the source's inner loop. */
  function ShiftWord(v: bv32): bv32 { if v & 1 != 0 then (v >> 1) ^ 0xEDB8_8320 else v >> 1 }

  /** One round of the outer one. */
  function FeedWord(v: bv32, b: bv32): bv32 {
    ShiftWord(ShiftWord(ShiftWord(ShiftWord(ShiftWord(ShiftWord(ShiftWord(ShiftWord(v ^ b))))))))
  }

  lemma DoubleMask(mask: bv32)
    requires mask & (mask - 1) == 0
    ensures (mask << 1) & ((mask << 1) - 1) == 0
  {
  }

  lemma {:induction false} OneBit(i: nat)
    ensures Mask(i) & (Mask(i) - 1) == 0
  {
    if i > 0 {
      OneBit(i - 1);
      DoubleMask(Mask(i - 1));
    }
  }

  lemma BitOfXor(v: bv32, w: bv32, mask: bv32)
    requires mask & (mask - 1) == 0
    ensures (v ^ w) & mask != 0 <==> ((v & mask != 0) != (w & mask != 0))
  {
  }

  lemma XorIsWord(v: bv32, w: bv32)
    ensures Xor(RegOf(v), RegOf(w)) == RegOf(v ^ w)
  {
    forall i | 0 <= i < 32 ensures Xor(RegOf(v), RegOf(w))[i] == RegOf(v ^ w)[i] {
      OneBit(i);
      BitOfXor(v, w, Mask(i));
    }
  }

  lemma BitOfHalf(v: bv32, mask: bv32)
    ensures mask & 0x8000_0000 == 0 ==> ((v >> 1) & mask != 0 <==> v & (mask << 1) != 0)
    ensures (v >> 1) & 0x8000_0000 == 0
  {
  }

  lemma MaskNext(i: nat)
    ensures Mask(i + 1) == Mask(i) << 1
  {
  }

  /** The masks in hexadecimal. */
  lemma Masks()
    ensures Mask(0) == 0x1 && Mask(1) == 0x2 && Mask(2) == 0x4 && Mask(3) == 0x8
    ensures Mask(4) == 0x10 && Mask(5) == 0x20 && Mask(6) == 0x40 && Mask(7) == 0x80
    ensures Mask(8) == 0x100 && Mask(9) == 0x200 && Mask(10) == 0x400 && Mask(11) == 0x800
    ensures Mask(12) == 0x1000 && Mask(13) == 0x2000 && Mask(14) == 0x4000 && Mask(15) == 0x8000
    ensures Mask(16) == 0x10000 && Mask(17) == 0x20000 && Mask(18) == 0x40000 && Mask(19) == 0x80000
    ensures Mask(20) == 0x100000 && Mask(21) == 0x200000 && Mask(22) == 0x400000 && Mask(23) == 0x800000
    ensures Mask(24) == 0x1000000 && Mask(25) == 0x2000000 && Mask(26) == 0x4000000 && Mask(27) == 0x8000000
    ensures Mask(28) == 0x10000000 && Mask(29) == 0x20000000 && Mask(30) == 0x40000000 && Mask(31) == 0x80000000
  {
    MaskNext(0); MaskNext(1); MaskNext(2); MaskNext(3);
    MaskNext(4); MaskNext(5); MaskNext(6); MaskNext(7);
    MaskNext(8); MaskNext(9); MaskNext(10); MaskNext(11);
    MaskNext(12); MaskNext(13); MaskNext(14); MaskNext(15);
    MaskNext(16); MaskNext(17); MaskNext(18); MaskNext(19);
    MaskNext(20); MaskNext(21); MaskNext(22); MaskNext(23);
    MaskNext(24); MaskNext(25); MaskNext(26); MaskNext(27);
    MaskNext(28); MaskNext(29); MaskNext(30);
  }

  lemma HalfIsWord(v: bv32)
    ensures Half(RegOf(v)) == RegOf(v >> 1)
  {
    Masks();
    forall i | 0 <= i < 32 ensures Half(RegOf(v))[i] == RegOf(v >> 1)[i] {
      BitOfHalf(v, Mask(i));
      MaskNext(i);
    }
  }

  lemma PolyIsWord()
    ensures POLY == RegOf(0xEDB8_8320)
  {
    Masks();
  }

  lemma OnesIsWord()
    ensures Ones == RegOf(0xFFFF_FFFF)
  {
    Masks();
  }

  lemma LowBit(v: bv32)
    ensures RegOf(v)[0] == (v & 1 != 0)
  {
  }

  lemma ShiftOnce(c: reg, half: reg, odd: reg)
    requires Half(c) == half && Xor(half, POLY) == odd
    ensures Shift(c) == if c[0] then odd else half
  {
  }

  /** The register's shift is the source's. */
  lemma ShiftIsWord(v: bv32)
    ensures Shift(RegOf(v)) == RegOf(ShiftWord(v))
  {
    HalfIsWord(v);
    PolyIsWord();
    LowBit(v);
    XorIsWord(v >> 1, 0xEDB8_8320);
    ShiftOnce(RegOf(v), RegOf(v >> 1), RegOf((v >> 1) ^ 0xEDB8_8320));
  }

  lemma ShiftsAreWord(v: bv32, n: nat, w: bv32)
    requires Shifts(RegOf(v), n) == RegOf(w)
    ensures Shifts(RegOf(v), n + 1) == RegOf(ShiftWord(w))
  {
    ShiftIsWord(w);
  }

  /** A byte as a word. */
  predicate ByteWord(b: byte, x: bv32) { Bits(b, 32) == RegOf(x) }

  lemma FeedIsWord(v: bv32, b: byte, x: bv32)
    requires ByteWord(b, x)
    ensures Feed(RegOf(v), b) == RegOf(FeedWord(v, x))
  {
    XorIsWord(v, x);
    var w0 := v ^ x;
    var w1 := ShiftWord(w0);
    var w2 := ShiftWord(w1);
    var w3 := ShiftWord(w2);
    var w4 := ShiftWord(w3);
    var w5 := ShiftWord(w4);
    var w6 := ShiftWord(w5);
    ShiftsAreWord(w0, 0, w0); ShiftsAreWord(w0, 1, w1); ShiftsAreWord(w0, 2, w2); ShiftsAreWord(w0, 3, w3);
    ShiftsAreWord(w0, 4, w4); ShiftsAreWord(w0, 5, w5); ShiftsAreWord(w0, 6, w6); ShiftsAreWord(w0, 7, ShiftWord(w6));
  }

  /** The bits of a byte, given as two nibbles. */
  lemma ByteIsWord(b: byte, s: seq<bool>, x: bv32)
    requires |s| == 8 && Value(s) == b && x & 0xFFFF_FF00 == 0
    requires forall i :: 0 <= i < 8 ==> s[i] == (x & Mask(i) != 0)
    ensures ByteWord(b, x)
  {
    BitsOfLonger(s, 32);
    forall i | 0 <= i < 32 ensures Bits(b, 32)[i] == RegOf(x)[i] {
      if i >= 8 { HighMask(i); NoHighBit(x, Mask(i)); }
    }
  }

  lemma HighMask(i: nat)
    requires 8 <= i < 32
    ensures Mask(i) & 0xFF == 0
  {
    Masks();
  }

  lemma NoHighBit(x: bv32, mask: bv32)
    requires x & 0xFFFF_FF00 == 0 && mask & 0xFF == 0
    ensures x & mask == 0
  {
  }

  // ---- Known values --------------------------------------------------------------------------------------

  lemma NotIsWord(v: bv32)
    ensures Not(RegOf(v)) == RegOf(v ^ 0xFFFF_FFFF)
  {
    OnesIsWord();
    XorIsWord(v, 0xFFFF_FFFF);
    assert forall i :: 0 <= i < 32 ==> Ones[i];
    assert Not(RegOf(v)) == Xor(RegOf(v), Ones);
  }

  function Digit(hi: bool, c2: bool, c1: bool, c0: bool): seq<bool> { [c0, c1, c2, hi, true, true, false, false] }

  /** The ASCII digits. */
  lemma DigitIsWord(b: byte, x: bv32, hi: bool, c2: bool, c1: bool, c0: bool)
    requires b == 0x30 + (if hi then 8 else 0) + (if c2 then 4 else 0) + (if c1 then 2 else 0) + (if c0 then 1 else 0)
    requires x == 0x30 | (if hi then 8 else 0) | (if c2 then 4 else 0) | (if c1 then 2 else 0) | (if c0 then 1 else 0)
    ensures ByteWord(b, x)
  {
    var s := Digit(hi, c2, c1, c0);
    Nibble(s);
    Nibble(s[4..]);
    assert s[4..][4..] == [];
    Masks();
    ByteIsWord(b, s, x);
  }

  /** The text "123456789". */
  predicate IsNine(data: seq<byte>) { |data| == 9 && forall i :: 0 <= i < 9 ==> data[i] == 0x31 + i }

  predicate AfterDigits(data: seq<byte>, n: nat, v: bv32) { n <= |data| && Register(Ones, data[..n]) == RegOf(v) }

  lemma FedOnTo(data: seq<byte>, n: nat, v: bv32, x: bv32, w: bv32)
    requires n < |data| && AfterDigits(data, n, v) && ByteWord(data[n], x) && FeedWord(v, x) == w
    ensures AfterDigits(data, n + 1, w)
  {
    RegisterNext(Ones, data, n);
    FeedIsWord(v, data[n], x);
  }

  lemma NoDigits(data: seq<byte>)
    ensures AfterDigits(data, 0, 0xFFFF_FFFF)
  {
    OnesIsWord();
    assert data[..0] == [];
  }

  lemma Digit1(data: seq<byte>)
    requires IsNine(data) && AfterDigits(data, 0, 0xFFFFFFFF)
    ensures AfterDigits(data, 1, 0x7C231048)
  {
    DigitIsWord(data[0], 0x31, false, false, false, true);
    FedOnTo(data, 0, 0xFFFFFFFF, 0x31, 0x7C231048);
  }

  lemma Digit2(data: seq<byte>)
    requires IsNine(data) && AfterDigits(data, 1, 0x7C231048)
    ensures AfterDigits(data, 2, 0xB0ACBB32)
  {
    DigitIsWord(data[1], 0x32, false, false, true, false);
    FedOnTo(data, 1, 0x7C231048, 0x32, 0xB0ACBB32);
  }

  lemma Digit3(data: seq<byte>)
    requires IsNine(data) && AfterDigits(data, 2, 0xB0ACBB32)
    ensures AfterDigits(data, 3, 0x77B79C2D)
  {
    DigitIsWord(data[2], 0x33, false, false, true, true);
    FedOnTo(data, 2, 0xB0ACBB32, 0x33, 0x77B79C2D);
  }

  lemma Digit4(data: seq<byte>)
    requires IsNine(data) && AfterDigits(data, 3, 0x77B79C2D)
    ensures AfterDigits(data, 4, 0x641C1F5C)
  {
    DigitIsWord(data[3], 0x34, false, true, false, false);
    FedOnTo(data, 3, 0x77B79C2D, 0x34, 0x641C1F5C);
  }

  lemma Digit5(data: seq<byte>)
    requires IsNine(data) && AfterDigits(data, 4, 0x641C1F5C)
    ensures AfterDigits(data, 5, 0x340AC5E3)
  {
    DigitIsWord(data[4], 0x35, false, true, false, true);
    FedOnTo(data, 4, 0x641C1F5C, 0x35, 0x340AC5E3);
  }

  lemma Digit6(data: seq<byte>)
    requires IsNine(data) && AfterDigits(data, 5, 0x340AC5E3)
    ensures AfterDigits(data, 6, 0xF68D2C9E)
  {
    DigitIsWord(data[5], 0x36, false, true, true, false);
    FedOnTo(data, 5, 0x340AC5E3, 0x36, 0xF68D2C9E);
  }

  lemma Digit7(data: seq<byte>)
    requires IsNine(data) && AfterDigits(data, 6, 0xF68D2C9E)
    ensures AfterDigits(data, 7, 0xAFFC9660)
  {
    DigitIsWord(data[6], 0x37, false, true, true, true);
    FedOnTo(data, 6, 0xF68D2C9E, 0x37, 0xAFFC9660);
  }

  lemma Digit8(data: seq<byte>)
    requires IsNine(data) && AfterDigits(data, 7, 0xAFFC9660)
    ensures AfterDigits(data, 8, 0x651F2550)
  {
    DigitIsWord(data[7], 0x38, true, false, false, false);
    FedOnTo(data, 7, 0xAFFC9660, 0x38, 0x651F2550);
  }

  lemma Digit9(data: seq<byte>)
    requires IsNine(data) && AfterDigits(data, 8, 0x651F2550)
    ensures AfterDigits(data, 9, 0x340BC6D9)
  {
    DigitIsWord(data[8], 0x39, true, false, false, true);
    FedOnTo(data, 8, 0x651F2550, 0x39, 0x340BC6D9);
  }

  lemma RegisterOfNine(data: seq<byte>)
    requires IsNine(data)
    ensures Register(Ones, data) == RegOf(0x340B_C6D9)
  {
    NoDigits(data);
    Digit1(data); Digit2(data); Digit3(data); Digit4(data); Digit5(data);
    Digit6(data); Digit7(data); Digit8(data); Digit9(data);
    assert data[..9] == data;
  }

  function Nib(v: bv32, m0: bv32, m1: bv32, m2: bv32, m3: bv32): seq<bool> {
    [v & m0 != 0, v & m1 != 0, v & m2 != 0, v & m3 != 0]
  }

  lemma NibbleAnd(v: bv32, m0: bv32, m1: bv32, m2: bv32, m3: bv32, t: seq<bool>)
    ensures Value(Nib(v, m0, m1, m2, m3) + t) == WordNibble(v, m0, m1, m2, m3) + 16 * Value(t)
  {
    var s := Nib(v, m0, m1, m2, m3) + t;
    Nibble(s);
    assert s[4..] == t;
  }

  function UpperBits(v: bv32): seq<bool> {
    Nib(v, 0x1_0000, 0x2_0000, 0x4_0000, 0x8_0000)
    + (Nib(v, 0x10_0000, 0x20_0000, 0x40_0000, 0x80_0000)
    + (Nib(v, 0x100_0000, 0x200_0000, 0x400_0000, 0x800_0000)
    + (Nib(v, 0x1000_0000, 0x2000_0000, 0x4000_0000, 0x8000_0000) + [])))
  }

  function LowerBits(v: bv32, upper: seq<bool>): seq<bool> {
    Nib(v, 1, 2, 4, 8) + (Nib(v, 0x10, 0x20, 0x40, 0x80)
    + (Nib(v, 0x100, 0x200, 0x400, 0x800) + (Nib(v, 0x1000, 0x2000, 0x4000, 0x8000) + upper)))
  }

  lemma BitAt(v: bv32, i: nat, m: bv32)
    requires i < 32 && Mask(i) == m
    ensures RegOf(v)[i] == (v & m != 0)
  {
  }

  lemma FourAt(c: seq<bool>, k: nat, b0: bool, b1: bool, b2: bool, b3: bool)
    requires k + 4 <= |c| && c[k] == b0 && c[k + 1] == b1 && c[k + 2] == b2 && c[k + 3] == b3
    ensures c[k..k + 4] == [b0, b1, b2, b3]
  {
  }

  lemma Quad(v: bv32, k: nat, m0: bv32, m1: bv32, m2: bv32, m3: bv32)
    requires k + 4 <= 32 && Mask(k) == m0 && Mask(k + 1) == m1 && Mask(k + 2) == m2 && Mask(k + 3) == m3
    ensures RegOf(v)[k..k + 4] == Nib(v, m0, m1, m2, m3)
  {
    BitAt(v, k, m0);
    BitAt(v, k + 1, m1);
    BitAt(v, k + 2, m2);
    BitAt(v, k + 3, m3);
    FourAt(RegOf(v), k, v & m0 != 0, v & m1 != 0, v & m2 != 0, v & m3 != 0);
  }

  lemma InQuads(c: seq<bool>)
    requires |c| == 32
    ensures c == c[0..4] + (c[4..8] + (c[8..12] + (c[12..16] + (c[16..20] + (c[20..24] + (c[24..28] + (c[28..32] + [])))))))
  {
    From(c, 0); From(c, 4); From(c, 8); From(c, 12); From(c, 16); From(c, 20); From(c, 24); From(c, 28);
    assert c[32..32] == [] && c[0..32] == c;
  }

  lemma From(c: seq<bool>, k: nat)
    requires |c| == 32 && k + 4 <= 32
    ensures c[k..32] == c[k..k + 4] + c[k + 4..32]
  {
  }

  lemma UpperQuads(v: bv32)
    ensures var c := RegOf(v); UpperBits(v) == c[16..20] + (c[20..24] + (c[24..28] + (c[28..32] + [])))
  {
    Masks();
    Quad(v, 16, 0x1_0000, 0x2_0000, 0x4_0000, 0x8_0000);
    Quad(v, 20, 0x10_0000, 0x20_0000, 0x40_0000, 0x80_0000);
    Quad(v, 24, 0x100_0000, 0x200_0000, 0x400_0000, 0x800_0000);
    Quad(v, 28, 0x1000_0000, 0x2000_0000, 0x4000_0000, 0x8000_0000);
  }

  lemma LowerQuads(v: bv32, upper: seq<bool>)
    ensures var c := RegOf(v); LowerBits(v, upper) == c[0..4] + (c[4..8] + (c[8..12] + (c[12..16] + upper)))
  {
    Masks();
    Quad(v, 0, 0x1, 0x2, 0x4, 0x8);
    Quad(v, 4, 0x10, 0x20, 0x40, 0x80);
    Quad(v, 8, 0x100, 0x200, 0x400, 0x800);
    Quad(v, 12, 0x1000, 0x2000, 0x4000, 0x8000);
  }

  lemma RegNibbles(v: bv32)
    ensures RegOf(v) == LowerBits(v, UpperBits(v))
  {
    UpperQuads(v);
    LowerQuads(v, UpperBits(v));
    InQuads(RegOf(v));
  }

  function LowHalf(v: bv32): nat {
    WordNibble(v, 1, 2, 4, 8) + 16 * (WordNibble(v, 0x10, 0x20, 0x40, 0x80)
    + 16 * (WordNibble(v, 0x100, 0x200, 0x400, 0x800) + 16 * WordNibble(v, 0x1000, 0x2000, 0x4000, 0x8000)))
  }

  function HighHalf(v: bv32): nat {
    WordNibble(v, 0x1_0000, 0x2_0000, 0x4_0000, 0x8_0000) + 16 * (WordNibble(v, 0x10_0000, 0x20_0000, 0x40_0000, 0x80_0000)
    + 16 * (WordNibble(v, 0x100_0000, 0x200_0000, 0x400_0000, 0x800_0000)
    + 16 * WordNibble(v, 0x1000_0000, 0x2000_0000, 0x4000_0000, 0x8000_0000)))
  }

  lemma UpperValue(v: bv32)
    ensures Value(UpperBits(v)) == HighHalf(v)
  {
    var n7 := Nib(v, 0x1000_0000, 0x2000_0000, 0x4000_0000, 0x8000_0000) + [];
    var n6 := Nib(v, 0x100_0000, 0x200_0000, 0x400_0000, 0x800_0000) + n7;
    var n5 := Nib(v, 0x10_0000, 0x20_0000, 0x40_0000, 0x80_0000) + n6;
    NibbleAnd(v, 0x1000_0000, 0x2000_0000, 0x4000_0000, 0x8000_0000, []);
    NibbleAnd(v, 0x100_0000, 0x200_0000, 0x400_0000, 0x800_0000, n7);
    NibbleAnd(v, 0x10_0000, 0x20_0000, 0x40_0000, 0x80_0000, n6);
    NibbleAnd(v, 0x1_0000, 0x2_0000, 0x4_0000, 0x8_0000, n5);
  }

  lemma LowerValue(v: bv32, upper: seq<bool>)
    ensures Value(LowerBits(v, upper)) == LowHalf(v) + 0x1_0000 * Value(upper)
  {
    var n3 := Nib(v, 0x1000, 0x2000, 0x4000, 0x8000) + upper;
    var n2 := Nib(v, 0x100, 0x200, 0x400, 0x800) + n3;
    var n1 := Nib(v, 0x10, 0x20, 0x40, 0x80) + n2;
    NibbleAnd(v, 0x1000, 0x2000, 0x4000, 0x8000, upper);
    NibbleAnd(v, 0x100, 0x200, 0x400, 0x800, n3);
    NibbleAnd(v, 0x10, 0x20, 0x40, 0x80, n2);
    NibbleAnd(v, 1, 2, 4, 8, n1);
  }

  /** The value of a word, from its bits. */
  lemma WordValue(v: bv32)
    ensures Value(RegOf(v)) == LowHalf(v) + 0x1_0000 * HighHalf(v)
  {
    RegNibbles(v);
    UpperValue(v);
    LowerValue(v, UpperBits(v));
  }

  function WordNibble(v: bv32, m0: bv32, m1: bv32, m2: bv32, m3: bv32): nat {
    (if v & m0 != 0 then 1 else 0) + (if v & m1 != 0 then 2 else 0) + (if v & m2 != 0 then 4 else 0) + (if v & m3 != 0 then 8 else 0)
  }

  /** The nine bytes "123456789". */
  lemma CrcOfNine(data: seq<byte>)
    requires IsNine(data)
    ensures Crc(data) == 0xCBF4_3926
  {
    RegisterOfNine(data);
    NotIsWord(0x340B_C6D9);
    WordValue(0xCBF4_3926);
  }

  lemma CrcOfNothing()
    ensures Crc([]) == 0
  {
    OnesIsWord();
    NotIsWord(0xFFFF_FFFF);
    WordValue(0);
  }

  lemma CrcOfOneZero()
    ensures Crc([0]) == 0xD202_EF8D
  {
    OnesIsWord();
    Masks();
    ByteIsWord(0, Fill(false, 8), 0) by { ZeroValue(8); }
    FeedIsWord(0xFFFF_FFFF, 0, 0);
    assert FeedWord(0xFFFF_FFFF, 0) == 0x2DFD_1072;
    assert [0][..0] == [];
    NotIsWord(0x2DFD_1072);
    WordValue(0xD202_EF8D);
  }

  lemma {:induction false} ZeroValue(n: nat)
    ensures Value(Fill(false, n)) == 0
  {
    if n > 0 {
      ZeroValue(n - 1);
      assert Fill(false, n)[1..] == Fill(false, n - 1);
    }
  }

  // ---- Data with their CRC behind them ------------------------------------------------------------------

  lemma OnesAfter32()
    ensures Shifts(Ones, 32) == RegOf(0xDEBB_20E3)
  {
    OnesIsWord();
    Eight(0xFFFF_FFFF, 0);
    assert FeedWord(0xFFFF_FFFF, 0) == 0x2DFD_1072;
    Eight(0x2DFD_1072, 8);
    assert FeedWord(0x2DFD_1072, 0) == 0xBE26_ED00;
    Eight(0xBE26_ED00, 16);
    assert FeedWord(0xBE26_ED00, 0) == 0x00BE_26ED;
    Eight(0x00BE_26ED, 24);
    assert FeedWord(0x00BE_26ED, 0) == 0xDEBB_20E3;
  }

  lemma Eight(v: bv32, n: nat)
    requires Shifts(Ones, n) == RegOf(v)
    ensures Shifts(Ones, n + 8) == RegOf(FeedWord(v, 0))
  {
    Masks();
    ByteIsWord(0, Fill(false, 8), 0) by { ZeroValue(8); }
    FeedIsWord(v, 0, 0);
    XorIsWord(v, 0);
    assert v ^ 0 == v;
    ShiftsAdd(Ones, n, 8);
  }

  /** The bytes of a register's value, the low one first, are the bytes of its bits. */
  lemma FourIsLe32(z: reg, r: u32)
    requires r == Value(z)
    ensures Four(z) == Le32(r)
  {
    HalvesValue(z);
    BytesValue(z[..16]);
    BytesValue(z[16..]);
    Slices(z);
    Le32OfBytes(ByteAt(z, 0), ByteAt(z, 1), ByteAt(z, 2), ByteAt(z, 3));
  }

  lemma HalvesValue(z: seq<bool>)
    requires |z| == 32
    ensures Value(z) == Value(z[..16]) + 0x1_0000 * Value(z[16..])
  {
    assert z == z[..16] + z[16..];
    ValueSplit(z[..16], z[16..]);
    assert Pow2(16) == 0x1_0000 by { assert Pow2(8) == 0x100; }
  }

  lemma BytesValue(s: seq<bool>)
    requires |s| == 16
    ensures Value(s) == Value(s[..8]) + 0x100 * Value(s[8..])
  {
    assert s == s[..8] + s[8..];
    ValueSplit(s[..8], s[8..]);
    Pow2Values();
  }

  lemma Slices(z: seq<bool>)
    requires |z| == 32
    ensures z[0..8] == z[..16][..8] && z[8..16] == z[..16][8..] && z[16..24] == z[16..][..8] && z[24..32] == z[16..][8..]
  {
  }

  lemma Le32OfBytes(b0: byte, b1: byte, b2: byte, b3: byte)
    ensures Le32(b0 + 256 * b1 + 65536 * (b2 + 256 * b3)) == [b0, b1, b2, b3]
  {
    var w := b0 + 256 * b1 + 65536 * (b2 + 256 * b3);
    assert w == 256 * (256 * (256 * b3 + b2) + b1) + b0;
    assert w / 256 == 256 * (256 * b3 + b2) + b1;
    assert w / 65536 == 256 * b3 + b2;
    assert w / 16777216 == b3;
  }

  lemma {:induction false} ValueSplit(s: seq<bool>, t: seq<bool>)
    ensures Value(s + t) == Value(s) + Pow2(|s|) * Value(t)
  {
    if s == [] {
      assert s + t == t;
    } else {
      assert (s + t)[1..] == s[1..] + t;
      ValueSplit(s[1..], t);
      Doubled(Pow2(|s| - 1), Value(t));
    }
  }

  lemma Doubled(p: nat, v: nat)
    ensures 2 * (p * v) == 2 * p * v
  {
  }

  /** Any data followed by their CRC, low byte first, have one and the same CRC. */
  lemma CrcBehindData(data: seq<byte>)
    ensures Crc(data + Le32(Crc(data))) == 0x2144_DF1C
  {
    var r := Register(Ones, data);
    var z := Not(r);
    FourIsLe32(z, Crc(data));
    RegisterSplit(Ones, data, Four(z));
    FeedsAtOnce(r, z, 4);
    assert Four(z)[..4] == Four(z);
    assert Xor(r, z) == Ones;
    OnesAfter32();
    assert Xor(Shifts(Ones, 32), Down(z, 32)) == Shifts(Ones, 32);
    NotIsWord(0xDEBB_20E3);
    WordValue(0x2144_DF1C);
  }
}
