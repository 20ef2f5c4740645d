/**
  A 64-channel bit map, as the set of the channels whose bit is one.  `|`, `&` and `& !` of
  the source are union, intersection and difference; `1 << ch` is `{ch}`.
*/
module Bits64 {

  type bits = b: set<nat> | forall ch :: ch in b ==> ch < 64

  /** The 16-bit word `i` of a map, its bits still numbered within the map. */
  function Word(b: bits, i: nat): (w: bits) {
    set ch | ch in b && ch / 16 == i
  }

  function Join(w0: bits, w1: bits, w2: bits, w3: bits): bits { w0 + w1 + w2 + w3 }

  lemma JoinWords(b: bits)
    ensures Join(Word(b, 0), Word(b, 1), Word(b, 2), Word(b, 3)) == b
  {
    forall ch | ch in b ensures ch in Join(Word(b, 0), Word(b, 1), Word(b, 2), Word(b, 3)) {
      assert ch in Word(b, ch / 16);
    }
  }

  /** Replace the bits named by `mask` with those of `value`. */
  function Replace(b: bits, mask: bits, value: bits): bits {
    (b - mask) + (value * mask)
  }
}
