/** A value that may be absent. */
module Options {

  datatype Option<+T> = None | Some(value: T)
}

/** Unsigned machine words as bounded integers, and their byte orders. */
module Words {

  const WRAP: nat := 0x1_0000_0000
  const U32_MAX := 0xFFFF_FFFF

  type byte = x: int | 0 <= x < 0x100
  type u16 = x: int | 0 <= x < 0x1_0000
  type u32 = x: int | 0 <= x < 0x1_0000_0000

  function Lo(w: u16): byte { w % 256 }
  function Hi(w: u16): byte { w / 256 }
  function Join16(lo: byte, hi: byte): u16 { lo + 256 * hi }

  function SaturatingAdd(a: u32, b: nat): u32 { if a + b > U32_MAX then U32_MAX else a + b }

  function Le16(w: u16): (s: seq<byte>)
    ensures |s| == 2
  {
    [Lo(w), Hi(w)]
  }

  /** Little-endian bytes of a 32-bit word. */
  function Le32(w: u32): (s: seq<byte>)
    ensures |s| == 4
  {
    [w % 256, w / 256 % 256, w / 65536 % 256, w / 16777216]
  }

  function Join32(b0: byte, b1: byte, b2: byte, b3: byte): u32 {
    b0 + 256 * b1 + 65536 * b2 + 16777216 * b3
  }

  lemma Join32OfLe32(w: u32)
    ensures var s := Le32(w); Join32(s[0], s[1], s[2], s[3]) == w
  {
  }

  /** Two bytes as a number, the low one first. */
  function Number16(b: seq<byte>, k: nat): int
    requires k + 2 <= |b|
  {
    b[k] as int + 256 * (b[k + 1] as int)
  }

  function Number32(b: seq<byte>, k: nat): int
    requires k + 4 <= |b|
  {
    Number16(b, k) + 65536 * Number16(b, k + 2)
  }

  lemma Le16Number(w: u16, b: seq<byte>, k: nat)
    requires k + 2 <= |b| && b[k..k + 2] == Le16(w)
    ensures Number16(b, k) == w
  {
    var s := b[k..k + 2];
    assert b[k] == s[0] && b[k + 1] == s[1];
  }

  lemma Le32Number(w: u32, b: seq<byte>, k: nat)
    requires k + 4 <= |b| && b[k..k + 4] == Le32(w)
    ensures Number32(b, k) == w
  {
    Join32OfLe32(w);
    var s := b[k..k + 4];
    assert b[k] == s[0] && b[k + 1] == s[1] && b[k + 2] == s[2] && b[k + 3] == s[3];
  }

  function WordAt(blob: seq<byte>, k: nat): u16
    requires k + 2 <= |blob|
  {
    Join16(blob[k], blob[k + 1])
  }

  function LongAt(blob: seq<byte>, k: nat): u32
    requires k + 4 <= |blob|
  {
    Join32(blob[k], blob[k + 1], blob[k + 2], blob[k + 3])
  }

  function Zeros(n: nat): (s: seq<byte>)
    ensures |s| == n && forall i :: 0 <= i < n ==> s[i] == 0
  {
    if n == 0 then [] else Zeros(n - 1) + [0]
  }

  predicate SameOutside(a: seq<byte>, b: seq<byte>, from: nat, to: nat) {
    |a| == |b| && forall i :: 0 <= i < |a| && !(from <= i < to) ==> a[i] == b[i]
  }

  /** The words `ws` as little-endian bytes. */
  function LeBytes(ws: seq<u16>): (s: seq<byte>)
    ensures |s| == 2 * |ws|
  {
    if ws == [] then [] else [Lo(ws[0]), Hi(ws[0])] + LeBytes(ws[1..])
  }

  lemma {:induction false} LeBytesAt(ws: seq<u16>, k: nat)
    requires k < |ws|
    ensures LeBytes(ws)[2 * k] == Lo(ws[k]) && LeBytes(ws)[2 * k + 1] == Hi(ws[k])
  {
    if k > 0 { LeBytesAt(ws[1..], k - 1); }
  }

  lemma WordInside(b: seq<byte>, k: nat, ws: seq<u16>, i: nat)
    requires k + 2 * |ws| <= |b| && b[k..k + 2 * |ws|] == LeBytes(ws) && i < |ws|
    ensures Number16(b, k + 2 * i) == ws[i]
  {
    LeBytesAt(ws, i);
    PairInside(b, k, LeBytes(ws), 2 * i);
    LoHi(ws[i]);
  }

  lemma PairInside(b: seq<byte>, k: nat, s: seq<byte>, j: nat)
    requires k + |s| <= |b| && s == b[k..k + |s|] && j + 1 < |s|
    ensures b[k + j] == s[j] && b[k + j + 1] == s[j + 1]
  {
  }

  lemma LoHi(w: u16)
    ensures Lo(w) as int + 256 * (Hi(w) as int) == w
  {
  }

  /** Pairs of bytes read back as words. */
  function WordsOf(bs: seq<byte>): (ws: seq<u16>)
    requires |bs| % 2 == 0
    ensures 2 * |ws| == |bs|
  {
    if bs == [] then [] else [Join16(bs[0], bs[1])] + WordsOf(bs[2..])
  }

  lemma {:induction false} LeBytesOfWords(bs: seq<byte>)
    requires |bs| % 2 == 0
    ensures LeBytes(WordsOf(bs)) == bs
  {
    if bs != [] {
      LeBytesOfWords(bs[2..]);
      assert WordsOf(bs)[1..] == WordsOf(bs[2..]);
      assert bs == [bs[0], bs[1]] + bs[2..];
    }
  }

  lemma {:induction false} WordsOfLeBytes(ws: seq<u16>)
    ensures WordsOf(LeBytes(ws)) == ws
  {
    if ws != [] {
      assert LeBytes(ws)[2..] == LeBytes(ws[1..]);
      WordsOfLeBytes(ws[1..]);
    }
  }
}
