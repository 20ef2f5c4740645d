/** Binary numerals, the lowest bit first. */
module Binary {

  function Bits(v: nat, n: nat): (s: seq<bool>)
    ensures |s| == n
  {
    if n == 0 then [] else [v % 2 == 1] + Bits(v / 2, n - 1)
  }

  function Value(s: seq<bool>): nat {
    if s == [] then 0 else (if s[0] then 1 else 0) + 2 * Value(s[1..])
  }

  function Pow2(n: nat): (p: nat)
    ensures p > 0
  {
    if n == 0 then 1 else 2 * Pow2(n - 1)
  }

  lemma {:induction false} ValueBound(s: seq<bool>)
    ensures Value(s) < Pow2(|s|)
  {
    if s != [] { ValueBound(s[1..]); }
  }

  lemma {:induction false} ValueInjective(s: seq<bool>, t: seq<bool>)
    requires |s| == |t| && Value(s) == Value(t)
    ensures s == t
  {
    if s != [] {
      assert Value(s) % 2 == (if s[0] then 1 else 0) && Value(t) % 2 == (if t[0] then 1 else 0);
      ValueInjective(s[1..], t[1..]);
      assert s == [s[0]] + s[1..] && t == [t[0]] + t[1..];
    }
  }

  lemma {:induction false} ValueOfBits(v: nat, n: nat)
    requires v < Pow2(n)
    ensures Value(Bits(v, n)) == v
  {
    if n > 0 { ValueOfBits(v / 2, n - 1); }
  }

  lemma {:induction false} HighBitsClear(v: nat, n: nat, k: nat, i: nat)
    requires v < Pow2(k) && k <= i < n
    ensures !Bits(v, n)[i]
  {
    if i > 0 {
      if k > 0 { HighBitsClear(v / 2, n - 1, k - 1, i - 1); } else { HighBitsClear(0, n - 1, 0, i - 1); }
    }
  }

  lemma Pow2Values()
    ensures Pow2(8) == 256 && Pow2(32) == 0x1_0000_0000
  {
    assert Pow2(4) == 16;
    assert Pow2(8) == 16 * Pow2(4) by { assert Pow2(6) == 4 * Pow2(4); }
    assert Pow2(12) == 16 * Pow2(8) by { assert Pow2(10) == 4 * Pow2(8); }
    assert Pow2(16) == 16 * Pow2(12) by { assert Pow2(14) == 4 * Pow2(12); }
    assert Pow2(20) == 16 * Pow2(16) by { assert Pow2(18) == 4 * Pow2(16); }
    assert Pow2(24) == 16 * Pow2(20) by { assert Pow2(22) == 4 * Pow2(20); }
    assert Pow2(28) == 16 * Pow2(24) by { assert Pow2(26) == 4 * Pow2(24); }
    assert Pow2(32) == 16 * Pow2(28) by { assert Pow2(30) == 4 * Pow2(28); }
  }
}
