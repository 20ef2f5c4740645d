/** The bit order of the output expander: bytes go out with their bits reversed. */
module OutputExpander {
  import opened Words
  import opened Binary

  /** The value of `s` read with its first bit as the highest. */
  function FromTop(s: seq<bool>): nat {
    if s == [] then 0 else 2 * FromTop(s[..|s| - 1]) + (if s[|s| - 1] then 1 else 0)
  }

  function Reversed(s: seq<bool>): (r: seq<bool>)
    ensures |r| == |s|
  {
    if s == [] then [] else [s[|s| - 1]] + Reversed(s[..|s| - 1])
  }

  lemma {:induction false} FromTopIsReversed(s: seq<bool>)
    ensures FromTop(s) == Value(Reversed(s))
  {
    if s != [] {
      FromTopIsReversed(s[..|s| - 1]);
      assert Reversed(s)[1..] == Reversed(s[..|s| - 1]);
    }
  }

  lemma {:induction false} ReversedAppend(b: bool, s: seq<bool>)
    ensures Reversed([b] + s) == Reversed(s) + [b]
  {
    if s == [] {
      assert [b] + s == [b] && [b][..0] == [];
    } else {
      var t, n := [b] + s, |s|;
      assert t[n] == s[n - 1] && t[..n] == [b] + s[..n - 1];
      ReversedAppend(b, s[..n - 1]);
      assert [s[n - 1]] + (Reversed(s[..n - 1]) + [b]) == ([s[n - 1]] + Reversed(s[..n - 1])) + [b];
    }
  }

  lemma {:induction false} ReversedTwice(s: seq<bool>)
    ensures Reversed(Reversed(s)) == s
  {
    if s != [] {
      var n := |s| - 1;
      ReversedTwice(s[..n]);
      ReversedAppend(s[n], Reversed(s[..n]));
      assert s == s[..n] + [s[n]];
    }
  }

  lemma {:induction false} BitsOfValue(s: seq<bool>)
    ensures Bits(Value(s), |s|) == s
  {
    if s != [] {
      BitsOfValue(s[1..]);
      assert s == [s[0]] + s[1..];
    }
  }

  function Reverse8(b: byte): (r: byte) {
    FromTopIsReversed(Bits(b, 8));
    ValueBound(Reversed(Bits(b, 8)));
    Pow2Values();
    FromTop(Bits(b, 8))
  }

  /** Shifting the low bit of `x` into `result` eight times. */
  method BitReverse(b: byte) returns (result: byte)
    ensures result == Reverse8(b)
  {
    ghost var bits := Bits(b, 8);
    var r: nat, x: nat := 0, b;
    for k := 0 to 8
      invariant Bits(x, 8 - k) == bits[k..] && r == FromTop(bits[..k])
    {
      assert bits[k] == (x % 2 == 1) && Bits(x / 2, 8 - (k + 1)) == bits[k + 1..];
      assert bits[..k + 1][..k] == bits[..k];
      r := 2 * r + x % 2;
      x := x / 2;
    }
    assert bits[..8] == bits;
    assert r == Reverse8(b);
    result := r;
  }

  lemma {:induction false} ReversedAt(s: seq<bool>, i: nat)
    requires i < |s|
    ensures Reversed(s)[i] == s[|s| - 1 - i]
  {
    if i > 0 { ReversedAt(s[..|s| - 1], i - 1); }
  }

  lemma ReverseIsReversed(b: byte)
    ensures Bits(Reverse8(b), 8) == Reversed(Bits(b, 8))
  {
    FromTopIsReversed(Bits(b, 8));
    BitsOfValue(Reversed(Bits(b, 8)));
  }

  /** Bit `i` becomes bit `7 - i`. */
  lemma BitsTurnAround(b: byte, i: nat)
    requires i < 8
    ensures Bits(Reverse8(b), 8)[i] == Bits(b, 8)[7 - i]
  {
    ReverseIsReversed(b);
    TurnedAround(Bits(Reverse8(b), 8), Bits(b, 8), i);
  }

  lemma TurnedAround(a: seq<bool>, s: seq<bool>, i: nat)
    requires a == Reversed(s) && i < |s|
    ensures a[i] == s[|s| - 1 - i]
  {
    ReversedAt(s, i);
  }

  lemma ReverseTwice(b: byte)
    ensures Reverse8(Reverse8(b)) == b
  {
    var s := Bits(b, 8);
    FromTopIsReversed(s);
    BitsOfValue(Reversed(s));
    FromTopIsReversed(Reversed(s));
    ReversedTwice(s);
    Pow2Values();
    ValueOfBits(b, 8);
  }

  // ---- The output words on their chips -------------------------------------------------------------

  datatype Pair = Pair(lo: byte, hi: byte)

  /** What `worker_write_do` sends to `chips` expanders. */
  function WriteDo(value: nat, chips: nat): (regs: seq<Pair>)
    ensures |regs| == chips
  {
    if chips == 0 then [] else
    [Pair(Reverse8(value % 65536 % 256), Reverse8(value % 65536 / 256))] + WriteDo(value / 65536, chips - 1)
  }

  /** Byte `n` of a value, the lowest first. */
  function ByteOf(value: nat, n: nat): byte { if n == 0 then value % 256 else ByteOf(value / 256, n - 1) }

  lemma TwoBytesDown(value: nat, n: nat)
    ensures ByteOf(value / 65536, n) == ByteOf(value, n + 2)
  {
    assert value / 65536 == value / 256 / 256;
    assert ByteOf(value, n + 2) == ByteOf(value / 256, n + 1) == ByteOf(value / 256 / 256, n);
  }

  lemma LowBytes(value: nat)
    ensures value % 65536 % 256 == ByteOf(value, 0) && value % 65536 / 256 == ByteOf(value, 1)
  {
    TwoDigits(value / 256 / 256, value / 256 % 256, value % 256);
    assert ByteOf(value, 1) == ByteOf(value / 256, 0);
  }

  lemma TwoDigits(high: nat, mid: byte, low: byte)
    ensures var v := 256 * (256 * high + mid) + low;
            v % 65536 == 256 * mid + low && (256 * mid + low) % 256 == low && (256 * mid + low) / 256 == mid
  {
    assert 256 * (256 * high + mid) + low == 65536 * high + (256 * mid + low);
    Remainder(high, 256 * mid + low);
  }

  lemma Remainder(q: nat, r: nat)
    requires r < 65536
    ensures (65536 * q + r) % 65536 == r
  {
  }

  /** Chip `k` gets bytes `2 k` and `2 k + 1` of the value, each with its bits turned around. */
  lemma {:induction false} ChipGetsItsBytes(value: nat, chips: nat, k: nat)
    requires k < chips
    ensures WriteDo(value, chips)[k] == Pair(Reverse8(ByteOf(value, 2 * k)), Reverse8(ByteOf(value, 2 * k + 1)))
  {
    if k == 0 {
      LowBytes(value);
    } else {
      ChipGetsItsBytes(value / 65536, chips - 1, k - 1);
      TwoBytesDown(value, 2 * (k - 1));
      TwoBytesDown(value, 2 * (k - 1) + 1);
    }
  }

  /** What `worker_read_do` makes of their registers. */
  function ReadDo(regs: seq<Pair>): nat {
    if regs == [] then 0 else Reverse8(regs[0].lo) + 256 * Reverse8(regs[0].hi) + 65536 * ReadDo(regs[1..])
  }

  function Span(chips: nat): nat { if chips == 0 then 1 else 65536 * Span(chips - 1) }

  /** Registers that kept what was written read back as it, so the readback comparison passes
      exactly when the hardware holds the command: no other value reads the same. */
  lemma {:induction false} ReadsWhatWasWritten(value: nat, chips: nat)
    requires value < Span(chips)
    ensures ReadDo(WriteDo(value, chips)) == value
  {
    if chips > 0 {
      ReadsWhatWasWritten(value / 65536, chips - 1);
      ReverseTwice(value % 65536 % 256);
      ReverseTwice(value % 65536 / 256);
    }
  }

  lemma PairIsInjective(p: Pair, q: Pair)
    requires Reverse8(p.lo) + 256 * Reverse8(p.hi) == Reverse8(q.lo) + 256 * Reverse8(q.hi)
    ensures p == q
  {
    SameBytes(Reverse8(p.lo), Reverse8(p.hi), Reverse8(q.lo), Reverse8(q.hi));
    ReverseIsInjective(p.lo, q.lo);
    ReverseIsInjective(p.hi, q.hi);
  }

  lemma SameBytes(a: byte, b: byte, c: byte, d: byte)
    requires a + 256 * b == c + 256 * d
    ensures a == c && b == d
  {
  }

  lemma ReverseIsInjective(a: byte, b: byte)
    requires Reverse8(a) == Reverse8(b)
    ensures a == b
  {
    ReverseTwice(a);
    ReverseTwice(b);
  }

  lemma SameLowWord(x: nat, y: nat, u: nat, v: nat)
    requires x < 65536 && y < 65536 && x + 65536 * u == y + 65536 * v
    ensures x == y && u == v
  {
  }

  lemma {:induction false} ReadIsInjective(a: seq<Pair>, b: seq<Pair>)
    requires |a| == |b| && ReadDo(a) == ReadDo(b)
    ensures a == b
  {
    if a != [] {
      var x, y := Reverse8(a[0].lo) + 256 * Reverse8(a[0].hi), Reverse8(b[0].lo) + 256 * Reverse8(b[0].hi);
      SameLowWord(x, y, ReadDo(a[1..]), ReadDo(b[1..]));
      ReadIsInjective(a[1..], b[1..]);
      PairIsInjective(a[0], b[0]);
      assert a == [a[0]] + a[1..] && b == [b[0]] + b[1..];
    }
  }
}
