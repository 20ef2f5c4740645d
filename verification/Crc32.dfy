/**
  The CRC-32 of src/device/mod.rs: polynomial 0x04C11DB7 of IEEE 802.3 clause 3.2.9,
  bits reflected (0xEDB88320), initial value and final complement all ones.

  The 32-bit register is the sequence of its bits, the lowest first: `>> 1` drops the first
  bit, `^` is bitwise, `& 1` is the first bit.
*/
module Crc32 {
  import opened Words
  import opened Binary

  function Fill(b: bool, n: nat): (s: seq<bool>)
    ensures |s| == n && forall i :: 0 <= i < n ==> s[i] == b
  {
    if n == 0 then [] else [b] + Fill(b, n - 1)
  }

  type reg = s: seq<bool> | |s| == 32 witness Fill(false, 32)

  // ---- The register ------------------------------------------------------------------------------

  function Xor(a: reg, b: reg): reg { seq(32, i requires 0 <= i < 32 => a[i] != b[i]) }
  function Not(a: reg): reg { seq(32, i requires 0 <= i < 32 => !a[i]) }
  function Half(a: reg): reg { a[1..] + [false] }
  const Zero: reg := Fill(false, 32)
  const Ones: reg := Fill(true, 32)

  /** 0xEDB88320, nibble by nibble from the low end. */
  const POLY: reg :=
    [false, false, false, false] + [false, true, false, false] + [true, true, false, false] + [false, false, false, true]
    + [false, false, false, true] + [true, true, false, true] + [true, false, true, true] + [false, true, true, true]

  lemma Nibble(s: seq<bool>)
    requires |s| >= 4
    ensures Value(s) == (if s[0] then 1 else 0) + (if s[1] then 2 else 0) + (if s[2] then 4 else 0)
                        + (if s[3] then 8 else 0) + 16 * Value(s[4..])
  {
    assert s[1..][1..] == s[2..] && s[2..][1..] == s[3..] && s[3..][1..] == s[4..];
    assert Value(s[1..]) == (if s[1] then 1 else 0) + 2 * Value(s[2..]);
    assert Value(s[2..]) == (if s[2] then 1 else 0) + 2 * Value(s[3..]);
    assert Value(s[3..]) == (if s[3] then 1 else 0) + 2 * Value(s[4..]);
  }

  lemma PolyValue()
    ensures Value(POLY) == 0xEDB8_8320
  {
    var p: seq<bool> := POLY;
    Nibble(p); Nibble(p[4..]); Nibble(p[8..]); Nibble(p[12..]);
    Nibble(p[16..]); Nibble(p[20..]); Nibble(p[24..]); Nibble(p[28..]);
    assert p[4..][4..] == p[8..] && p[8..][4..] == p[12..] && p[12..][4..] == p[16..] && p[16..][4..] == p[20..];
    assert p[20..][4..] == p[24..] && p[24..][4..] == p[28..] && p[28..][4..] == [];
  }

  function Shift(c: reg): reg {
    if c[0] then Xor(Half(c), POLY) else Half(c)
  }

  function Shifts(c: reg, n: nat): reg {
    if n == 0 then c else Shift(Shifts(c, n - 1))
  }

  /** What one input byte advances the register by. */
  function Feed(c: reg, b: byte): reg { Shifts(Xor(c, Bits(b, 32)), 8) }

  /** The register after the whole input. */
  function Register(c: reg, data: seq<byte>): reg {
    if data == [] then c else Feed(Register(c, data[..|data| - 1]), data[|data| - 1])
  }

  function Crc(data: seq<byte>): (r: u32) {
    ValueBound(Not(Register(Ones, data)));
    Pow2Values();
    Value(Not(Register(Ones, data)))
  }

  /** The source's loop over the bytes and, inside it, over the bits. */
  method ComputeCrc(data: seq<byte>) returns (result: u32)
    ensures result == Crc(data)
  {
    var crc := Ones;
    for i := 0 to |data|
      invariant crc == Register(Ones, data[..i])
    {
      RegisterNext(Ones, data, i);
      crc := Xor(crc, Bits(data[i], 32));
      ghost var mixed := crc;
      for k := 0 to 8
        invariant crc == Shifts(mixed, k)
      {
        if crc[0] { crc := Xor(Half(crc), POLY); } else { crc := Half(crc); }
      }
    }
    assert data[..|data|] == data;
    ValueBound(Not(crc));
    Pow2Values();
    result := Value(Not(crc));
  }

  lemma RegisterNext(c: reg, data: seq<byte>, i: nat)
    requires i < |data|
    ensures Register(c, data[..i + 1]) == Feed(Register(c, data[..i]), data[i])
  {
    assert data[..i + 1][..i] == data[..i];
  }

  lemma {:induction false} RegisterSplit(c: reg, a: seq<byte>, b: seq<byte>)
    ensures Register(c, a + b) == Register(Register(c, a), b)
    decreases |b|
  {
    if b == [] {
      assert a + b == a;
    } else {
      var init := b[..|b| - 1];
      assert (a + b)[..|a + b| - 1] == a + init;
      RegisterSplit(c, a, init);
    }
  }

  // ---- The register is linear, and its top bits tell which byte was fed --------------------------

  lemma ShiftLinear(a: reg, b: reg)
    ensures Shift(Xor(a, b)) == Xor(Shift(a), Shift(b))
  {
  }

  lemma {:induction false} ShiftsLinear(a: reg, b: reg, n: nat)
    ensures Shifts(Xor(a, b), n) == Xor(Shifts(a, n), Shifts(b, n))
  {
    if n > 0 {
      ShiftsLinear(a, b, n - 1);
      ShiftLinear(Shifts(a, n - 1), Shifts(b, n - 1));
    }
  }

  /** The bits of `c` from `k` on are clear. */
  predicate ClearFrom(c: reg, k: nat) { forall i :: k <= i < 32 ==> !c[i] }

  /** A register whose top `n` bits are clear after `n` shifts had its low `n` bits clear
      before them, and the shifts only moved it down. */
  lemma {:induction false} TopBitsTell(c: reg, n: nat)
    requires n <= 32 && ClearFrom(Shifts(c, n), 32 - n)
    ensures forall i :: 0 <= i < n ==> !c[i]
    ensures forall i :: 0 <= i < 32 - n ==> Shifts(c, n)[i] == c[i + n]
  {
    if n > 0 {
      var x := Shifts(c, n - 1);
      var y := Shifts(c, n);
      assert y == Shift(x);
      assert POLY[31] && !y[31];
      assert !x[0];
      forall i | 33 - n <= i < 32 ensures !x[i] { assert y[i - 1] == x[i]; }
      TopBitsTell(c, n - 1);
      forall i | 0 <= i < 32 - n ensures y[i] == c[i + n] { assert y[i] == x[i + 1]; }
    }
  }

  // ---- Two inputs -----------------------------------------------------------------------------------

  lemma FeedDifference(c: reg, d: reg, b: byte, e: byte)
    ensures Xor(Feed(c, b), Feed(d, e)) == Shifts(Xor(Xor(c, d), Xor(Bits(b, 32), Bits(e, 32))), 8)
  {
    var x, y := Xor(c, Bits(b, 32)), Xor(d, Bits(e, 32));
    ShiftsLinear(x, y, 8);
    assert Xor(x, y) == Xor(Xor(c, d), Xor(Bits(b, 32), Bits(e, 32)));
  }

  lemma ByteDifference(b: byte, e: byte)
    ensures ClearFrom(Xor(Bits(b, 32), Bits(e, 32)), 8)
    ensures Xor(Bits(b, 32), Bits(e, 32)) == Zero ==> b == e
  {
    Pow2Values();
    forall i | 8 <= i < 32 ensures !Xor(Bits(b, 32), Bits(e, 32))[i] {
      HighBitsClear(b, 32, 8, i);
      HighBitsClear(e, 32, 8, i);
    }
    if Xor(Bits(b, 32), Bits(e, 32)) == Zero {
      forall i | 0 <= i < 32 ensures Bits(b, 32)[i] == Bits(e, 32)[i] { assert !Zero[i]; }
      assert Bits(b, 32) == Bits(e, 32);
      ValueOfBits(b, 32);
      ValueOfBits(e, 32);
    }
  }

  /** Two equal registers fed at most four bytes each agree afterwards, in all but the low bits,
      only if the bytes were the same. */
  lemma {:induction false} WindowTells(c: reg, v: seq<byte>, w: seq<byte>, j: nat)
    requires |v| == |w| && |v| + j <= 4
    requires ClearFrom(Xor(Register(c, v), Register(c, w)), 8 * j)
    ensures v == w
    decreases |v|
  {
    if v != [] {
      var n := |v| - 1;
      var rv, rw := Register(c, v[..n]), Register(c, w[..n]);
      var bytes := Xor(Bits(v[n], 32), Bits(w[n], 32));
      var x := Xor(Xor(rv, rw), bytes);
      FeedDifference(rv, rw, v[n], w[n]);
      assert Xor(Register(c, v), Register(c, w)) == Shifts(x, 8);
      TopBitsTell(x, 8);
      ByteDifference(v[n], w[n]);
      forall i | 8 * (j + 1) <= i < 32 ensures !Xor(rv, rw)[i] {
        assert x[i] == Shifts(x, 8)[i - 8];
        assert !bytes[i];
      }
      WindowTells(c, v[..n], w[..n], j + 1);
      assert rv == rw;
      forall i | 0 <= i < 32 ensures !bytes[i] { if i < 8 { assert !x[i]; } }
      assert bytes == Zero;
      assert v == v[..n] + [v[n]] && w == w[..n] + [w[n]];
    }
  }

  /** Feeding the same bytes keeps different registers different. */
  lemma {:induction false} SameBytesKeepDifference(c: reg, d: reg, s: seq<byte>)
    requires Register(c, s) == Register(d, s)
    ensures c == d
    decreases |s|
  {
    if s != [] {
      var n := |s| - 1;
      var x, y := Register(c, s[..n]), Register(d, s[..n]);
      FeedDifference(x, y, s[n], s[n]);
      var z := Xor(Xor(x, y), Xor(Bits(s[n], 32), Bits(s[n], 32)));
      assert Shifts(z, 8) == Zero;
      SameAfterShifts(z, 8);
      forall i | 0 <= i < 32 ensures x[i] == y[i] { assert !z[i]; }
      assert x == y;
      SameBytesKeepDifference(c, d, s[..n]);
    }
  }

  lemma {:induction false} SameAfterShifts(z: reg, n: nat)
    requires n <= 32 && Shifts(z, n) == Zero
    ensures z == Zero
  {
    if n > 0 {
      var x := Shifts(z, n - 1);
      assert POLY[31] && !Shift(x)[31];
      forall i | 0 <= i < 32 ensures !x[i] { if i > 0 { assert Shift(x)[i - 1] == x[i]; } }
      assert x == Zero;
      SameAfterShifts(z, n - 1);
    }
  }

  /** Two inputs of the same length that differ only inside one window of at most four
      consecutive bytes never have the same CRC. */
  lemma WindowChangesCrc(p: seq<byte>, v: seq<byte>, w: seq<byte>, s: seq<byte>)
    requires |v| == |w| <= 4 && v != w
    ensures Crc(p + v + s) != Crc(p + w + s)
  {
    if Crc(p + v + s) == Crc(p + w + s) {
      var rv, rw := Register(Ones, p + v + s), Register(Ones, p + w + s);
      ValueInjective(Not(rv), Not(rw));
      forall i | 0 <= i < 32 ensures rv[i] == rw[i] { assert Not(rv)[i] == !rv[i] && Not(rw)[i] == !rw[i]; }
      assert rv == rw;
      RegisterSplit(Ones, p + v, s);
      RegisterSplit(Ones, p + w, s);
      SameBytesKeepDifference(Register(Ones, p + v), Register(Ones, p + w), s);
      RegisterSplit(Ones, p, v);
      RegisterSplit(Ones, p, w);
      var c := Register(Ones, p);
      assert ClearFrom(Xor(Register(c, v), Register(c, w)), 0);
      WindowTells(c, v, w, 0);
    }
  }

  // ---- Every register can be reached by four bytes -------------------------------------------------

  function Unshift(t: reg): reg { if t[31] then [true] + Xor(t, POLY)[..31] else [false] + t[..31] }

  lemma HalfOfUp(b: bool, x: reg)
    ensures !x[31] ==> Half([b] + x[..31]) == x
  {
    assert ([b] + x[..31])[1..] == x[..31];
  }

  lemma XorTwice(a: reg, b: reg)
    ensures Xor(Xor(a, b), b) == a
  {
  }

  lemma UnshiftIsBefore(t: reg)
    ensures Shift(Unshift(t)) == t
  {
    HalfOfUp(true, Xor(t, POLY));
    HalfOfUp(false, t);
    XorTwice(t, POLY);
    assert POLY[31];
  }

  function Unshifts(t: reg, n: nat): reg
    decreases n
  {
    if n == 0 then t else Unshifts(Unshift(t), n - 1)
  }

  lemma {:induction false} UnshiftsAreBefore(t: reg, n: nat)
    ensures Shifts(Unshifts(t, n), n) == t
    decreases n
  {
    if n > 0 {
      UnshiftsAreBefore(Unshift(t), n - 1);
      UnshiftIsBefore(t);
    }
  }

  /** The register that `data` leads from to `t`. */
  function Before(t: reg, data: seq<byte>): reg
    decreases |data|
  {
    if data == [] then t
    else Before(Xor(Unshifts(t, 8), Bits(data[|data| - 1], 32)), data[..|data| - 1])
  }

  lemma {:induction false} BeforeLeadsTo(t: reg, data: seq<byte>)
    ensures Register(Before(t, data), data) == t
    decreases |data|
  {
    if data != [] {
      var last := Bits(data[|data| - 1], 32);
      var c := Unshifts(t, 8);
      BeforeLeadsTo(Xor(c, last), data[..|data| - 1]);
      assert Xor(Xor(c, last), last) == c;
      UnshiftsAreBefore(t, 8);
    }
  }

  lemma {:induction false} ShiftsAdd(c: reg, m: nat, n: nat)
    ensures Shifts(Shifts(c, m), n) == Shifts(c, m + n)
  {
    if n > 0 { ShiftsAdd(c, m, n - 1); }
  }

  /** The bits of `z` from `k` on, moved down. */
  function Down(z: reg, k: nat): reg
    requires k <= 32
  {
    z[k..] + Fill(false, k)
  }

  /** Shifts that push out only zeros move the register down. */
  lemma {:induction false} ZerosFallOut(c: reg, n: nat)
    requires n <= 32 && forall i :: 0 <= i < n ==> !c[i]
    ensures Shifts(c, n) == Down(c, n)
  {
    if n > 0 { ZerosFallOut(c, n - 1); }
  }

  function ByteAt(z: reg, k: nat): byte
    requires k < 4
  {
    ValueBound(z[8 * k..8 * k + 8]);
    Pow2Values();
    Value(z[8 * k..8 * k + 8])
  }

  lemma {:induction false} BitsOfLonger(s: seq<bool>, n: nat)
    requires |s| <= n
    ensures Bits(Value(s), n) == s + Fill(false, n - |s|)
  {
    if s == [] {
      if n > 0 { BitsOfLonger([], n - 1); }
    } else {
      BitsOfLonger(s[1..], n - 1);
    }
  }

  lemma ByteBits(z: reg, k: nat)
    requires k < 4
    ensures Xor(Down(z, 8 * k), Bits(ByteAt(z, k), 32)) == Fill(false, 8) + z[8 * k + 8..] + Fill(false, 8 * k)
  {
    BitsOfLonger(z[8 * k..8 * k + 8], 32);
  }

  function Four(z: reg): (w: seq<byte>)
    ensures |w| == 4
  {
    [ByteAt(z, 0), ByteAt(z, 1), ByteAt(z, 2), ByteAt(z, 3)]
  }

  lemma FeedOne(before: reg, z: reg, k: nat)
    requires k < 4
    ensures Feed(Xor(before, Down(z, 8 * k)), ByteAt(z, k)) == Xor(Shifts(before, 8), Down(z, 8 * (k + 1)))
  {
    var low, rest := Bits(ByteAt(z, k), 32), Fill(false, 8) + z[8 * k + 8..] + Fill(false, 8 * k);
    ByteBits(z, k);
    XorAssociates(before, Down(z, 8 * k), low);
    ShiftsLinear(before, rest, 8);
    ZerosFallOut(rest, 8);
    assert Down(rest, 8) == Down(z, 8 * (k + 1));
  }

  lemma XorAssociates(a: reg, b: reg, c: reg)
    ensures Xor(Xor(a, b), c) == Xor(a, Xor(b, c))
  {
  }

  /** The bytes of `z` fed one after the other are `z` mixed in at once. */
  lemma {:induction false} FeedsAtOnce(c: reg, z: reg, k: nat)
    requires k <= 4
    ensures Register(c, Four(z)[..k]) == Xor(Shifts(Xor(c, z), 8 * k), Down(z, 8 * k))
  {
    if k == 0 {
      XorTwice(c, z);
      assert Down(z, 0) == z;
    } else {
      var j := k - 1;
      FeedsAtOnce(c, z, j);
      RegisterNext(c, Four(z), j);
      assert Four(z)[j] == ByteAt(z, j);
      FeedOne(Shifts(Xor(c, z), 8 * j), z, j);
      ShiftsAdd(Xor(c, z), 8 * j, 8);
    }
  }

  /** Four bytes lead from any register to any other. */
  function Bridge(c: reg, t: reg): (w: seq<byte>)
    ensures |w| == 4
  {
    Four(Xor(c, Unshifts(t, 32)))
  }

  lemma BridgeLeads(c: reg, t: reg)
    ensures Register(c, Bridge(c, t)) == t
  {
    var u := Unshifts(t, 32);
    var z := Xor(c, u);
    FeedsAtOnce(c, z, 4);
    assert Four(z)[..4] == Four(z);
    assert Xor(c, z) == u;
    UnshiftsAreBefore(t, 32);
    assert Xor(t, Down(z, 32)) == t;
  }

  /** Whatever stands before and behind, some four bytes in between give any CRC that another
      input has: the window of `WindowChangesCrc` is as long as it can be. */
  lemma FourBytesReachAnyCrc(p: seq<byte>, s: seq<byte>, other: seq<byte>) returns (w: seq<byte>)
    ensures |w| == 4 && Crc(p + w + s) == Crc(other)
  {
    var t := Before(Register(Ones, other), s);
    w := Bridge(Register(Ones, p), t);
    BridgeLeads(Register(Ones, p), t);
    BeforeLeadsTo(Register(Ones, other), s);
    RegisterSplit(Ones, p, w);
    RegisterSplit(Ones, p + w, s);
  }

  /** So a window of five bytes is too long: anywhere in any input two of them give the same CRC. */
  lemma FiveBytesMayNotTell(p: seq<byte>, s: seq<byte>) returns (v: seq<byte>, w: seq<byte>)
    ensures |v| == |w| == 5 && v != w && Crc(p + v + s) == Crc(p + w + s)
  {
    v := [0, 0, 0, 0, 0];
    var four := FourBytesReachAnyCrc(p + [1], s, p + v + s);
    w := [1] + four;
    assert p + [1] + four + s == p + w + s;
    assert v[0] != w[0];
  }
}
