/**
  The choice of a raw slot at boot (src/device/holding_store.rs): the generation counter wraps,
  and of two slots that decode the one of the newer generation is loaded.
*/
module HoldingBoot {
  import opened HoldingCodec
  import opened Options
  import opened Words

  const HALF := 0x8000_0000

  function NextGeneration(g: u32): u32 { (g + 1) % WRAP }

  predicate Newer(candidate: u32, current: u32) {
    candidate != current && (candidate - current) % WRAP < HALF
  }

  /** Of two successive generations the later one is newer and the earlier one is not, also
      when the counter wraps between them. */
  lemma SuccessorIsNewer(g: u32)
    ensures Newer(NextGeneration(g), g) && !Newer(g, NextGeneration(g))
  {
    assert (NextGeneration(g) - g) % WRAP == 1;
    assert (g - NextGeneration(g)) % WRAP == WRAP - 1;
  }

  /** Newer means one to 2^31 - 1 generations on, around the end of the counter. */
  lemma NewerIsAhead(current: u32, k: nat)
    requires k < 0x1_0000_0000
    ensures Newer((current + k) % 0x1_0000_0000, current) <==> 1 <= k < 0x8000_0000
  {
    var candidate := (current + k) % WRAP;
    assert (candidate - current) % WRAP == k by { assert candidate == current + k || candidate == current + k - WRAP; }
  }

  // ---- Choosing a slot at boot --------------------------------------------------------------

  /** The best of the slots below `n`: a later slot wins only with a newer generation. */
  function BestOf(found: seq<Option<Decoded>>, n: nat): Option<Decoded>
    requires n <= |found|
  {
    if n == 0 then None else
    var best, next := BestOf(found, n - 1), found[n - 1];
    if next.Some? && (best.None? || Newer(next.value.generation, best.value.generation)) then next else best
  }

  datatype Load = Failed | Loaded(best: Option<Decoded>)

  /** A slot that cannot be read fails the load.  Otherwise the slot loaded is the only one that
      decodes, or of two the one that the other is not newer than. */
  method LoadBestRawSlot(slots: seq<seq<byte>>, broken: set<nat>) returns (load: Load)
    requires |slots| == 2
    ensures load.Failed? <==> 0 in broken || 1 in broken
    ensures load.Loaded? ==> load.best == BestOf(Scanned(slots), 2)
    ensures load.Loaded? ==>
              var a, b := Decode(slots[0], 0), Decode(slots[1], 1);
              && (load.best.None? <==> a.None? && b.None?)
              && (load.best.Some? ==> load.best == a || load.best == b)
              && (a.Some? && b.Some? ==>
                    load.best == if Newer(b.value.generation, a.value.generation) then b else a)
  {
    var best: Option<Decoded> := None;
    for slot := 0 to 2
      invariant forall k :: 0 <= k < slot ==> k !in broken
      invariant best == BestOf(Scanned(slots), slot)
    {
      if slot in broken { return Failed; }
      var decoded := Decode(slots[slot], slot);
      if decoded.Some? && (best.None? || Newer(decoded.value.generation, best.value.generation)) {
        best := decoded;
      }
    }
    BestOfTwo(Scanned(slots));
    load := Loaded(best);
  }

  function Scanned(slots: seq<seq<byte>>): (found: seq<Option<Decoded>>)
    requires |slots| == 2
    ensures |found| == 2 && found[0] == Decode(slots[0], 0) && found[1] == Decode(slots[1], 1)
  {
    [Decode(slots[0], 0), Decode(slots[1], 1)]
  }

  lemma BestOfTwo(f: seq<Option<Decoded>>)
    requires |f| == 2
    ensures BestOf(f, 2) ==
            if f[1].Some? && (f[0].None? || Newer(f[1].value.generation, f[0].value.generation)) then f[1] else f[0]
  {
    assert BestOf(f, 1) == f[0] by { assert BestOf(f, 0) == None; }
  }
}
