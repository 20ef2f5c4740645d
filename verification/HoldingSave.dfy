/**
  The save itself (src/device/holding_store.rs), on the shared buffer and the two raw slots.
*/
module HoldingSave {
  import opened HoldingBoot
  import opened HoldingCodec
  import opened HoldingStore
  import opened Options
  import opened Words

  /** Where a save meets an error: `erased` says whether a failing erase still took effect. */
  datatype Fault = NoFault | EraseFault(erased: bool) | ProgramFault(done: nat) | ReadFault

  class Store {
    var slots: seq<seq<byte>>
    var active: Option<nat>
    var generation: u32
    const blob: array<byte>

    ghost predicate Valid()
      reads this
    {
      |slots| == 2 && blob.Length == TOTAL_BYTES && (active.Some? ==> active.value < 2)
    }

    constructor ()
      ensures Valid() && fresh(blob)
      ensures slots == [Blank, Blank] && active == None && generation == 0
    {
      slots, active, generation := [Blank, Blank], None, 0;
      blob := new byte[TOTAL_BYTES];
    }

    /** Erase, program, read back and decode. */
    method WriteSlot(slot: nat, fault: Fault) returns (ok: bool)
      requires Valid() && slot < 2 && (fault.ProgramFault? ==> fault.done <= TOTAL_BYTES)
      modifies this`slots, blob
      ensures Valid() && slots[1 - slot] == old(slots)[1 - slot]
      ensures ok == (fault.NoFault? && Decode(old(blob[..]), slot).Some?)
      ensures slots[slot] ==
              match fault
              case EraseFault(erased) => if erased then Blank else old(slots)[slot]
              case ProgramFault(done) => Torn(old(blob[..]), done)
              case _ => old(blob[..])
    {
      if fault == EraseFault(false) { return false; }
      slots := slots[slot := Blank];
      if fault.EraseFault? { return false; }
      ghost var written := blob[..];
      var done := if fault.ProgramFault? then fault.done else TOTAL_BYTES;
      slots := slots[slot := Torn(blob[..], done)];
      if fault.ProgramFault? { return false; }
      assert slots[slot] == written;
      if fault.ReadFault? { return false; }
      var content := slots[slot];
      for i := 0 to TOTAL_BYTES
        modifies blob
        invariant forall j :: 0 <= j < i ==> blob[j] == content[j]
      {
        blob[i] := content[i];
      }
      assert blob[..] == written;
      ok := Decode(blob[..], slot).Some?;
    }

    /** The image is published only once its slot was read back whole: on an error the active
        slot is as it was, and so are the slot number and generation the device knows. */
    method SaveToNvs(image: Image, fault: Fault) returns (ok: bool)
      requires Valid() && (fault.ProgramFault? ==> fault.done <= TOTAL_BYTES)
      modifies this, blob
      ensures Valid() && ok == (Sized(image) && fault.NoFault?)
      ensures !Sized(image) ==> slots == old(slots)
      ensures !ok ==> active == old(active) && generation == old(generation)
      ensures var target := if old(active) == Some(0) then 1 else 0;
              && slots[1 - target] == old(slots)[1 - target]
              && (ok ==> active == Some(target) && generation == NextGeneration(old(generation))
                         && slots[target] == Encode(image, generation))
    {
      var next := NextGeneration(generation);
      var encoded := EncodeImage(blob, image, next);
      if !encoded { return false; }
      var target := if active == Some(0) then 1 else 0;
      assert Decode(blob[..], target).Some? by { RoundTrip(image, next, target); }
      ok := WriteSlot(target, fault);
      if ok { active, generation := Some(target), next; }
    }
  }
}
