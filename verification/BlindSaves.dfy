/**
  Saves after a boot that could not read the raw slots (src/device/holding_store.rs): the device
  knows of no active slot and no generation, writes generation 1 to slot 0, and may lose the last
  acknowledged image by it.
*/
module BlindSaves {
  import opened HoldingBoot
  import opened HoldingCodec
  import opened HoldingStore
  import opened Options
  import opened Words

  /** The outcome of a save without faults. */
  function Saved(s: State, image: Image, bytes: seq<byte>): State
    requires WellFormed(s) && Enabled(s, Begin(image)) && Sized(image)
  {
    var t, g, n := Target(s), NextGeneration(s.generation), |s.attempts| + 1;
    SetSlot(s, t, bytes, Some(Decoded(t, g, image))).(
      active := Some(t), generation := g, blind := false, attempts := s.attempts + [image], acked := n,
      tags := s.tags[t := n], gens := s.gens[t := g], phase := Idle)
  }

  lemma LastStepsSave(s: State, begun: State, image: Image, bytes: seq<byte>)
    requires WellFormed(s) && Enabled(s, Begin(image)) && Sized(image) && begun == ApplyBegin(s, image)
    ensures var t, g := Target(s), NextGeneration(s.generation);
            ApplyVerify(Programmed(ApplyErase(begun), TOTAL_BYTES, bytes, Some(Decoded(t, g, image)))) == Saved(s, image, bytes)
  {
    var t, g := Target(s), NextGeneration(s.generation);
    var f := Some(Decoded(t, g, image));
    assert s.slots[t := Blank][t := bytes] == s.slots[t := bytes];
    assert s.found[t := None][t := f] == s.found[t := f];
    assert s.tags[t := 0][t := |s.attempts| + 1] == s.tags[t := |s.attempts| + 1];
  }

  /** Begin, erase, program the whole blob and verify: the image is acknowledged and is what
      the slot decodes to. */
  lemma SaveIsFourSteps(s: State, image: Image)
    requires WellFormed(s) && Enabled(s, Begin(image)) && Sized(image)
    ensures var erased := ApplyErase(ApplyBegin(s, image));
            Enabled(erased, Program(TOTAL_BYTES))
            && ApplyVerify(ApplyProgram(erased, TOTAL_BYTES))
               == Saved(s, image, Torn(Encode(image, NextGeneration(s.generation)), TOTAL_BYTES))
  {
    WholeWrite(image, NextGeneration(s.generation), Target(s));
    LastStepsSave(s, ApplyBegin(s, image), image, Torn(Encode(image, NextGeneration(s.generation)), TOTAL_BYTES));
  }

  lemma {:induction false} RunsOn(s: State, steps: seq<Step>, m: State, step: Step)
    requires Runs(s, steps, m) && WellFormed(m) && Allowed(m, step)
    ensures Runs(s, steps + [step], Apply(m, step))
    decreases |steps|
  {
    var all := steps + [step];
    if steps == [] {
      assert all == [step] && all[1..] == [];
    } else {
      RunsOn(Apply(s, steps[0]), steps[1..], m, step);
      assert all[0] == steps[0] && all[1..] == steps[1..] + [step];
    }
  }

  lemma OneStep(steps: seq<Step>, s: State, step: Step) returns (steps': seq<Step>)
    requires Runs(Init(), steps, s) && Inv(s) && Allowed(s, step)
    ensures steps' == steps + [step] && Runs(Init(), steps', Apply(s, step)) && Inv(Apply(s, step))
  {
    RunsOn(Init(), steps, s, step);
    StepKeepsInv(s, step);
    steps' := steps + [step];
  }

  /** The steps of a save without a fault are all enabled. */
  lemma SaveRuns(steps: seq<Step>, s: State, image: Image) returns (steps': seq<Step>, s': State)
    requires Runs(Init(), steps, s) && Inv(s) && Enabled(s, Begin(image)) && Sized(image) && !s.blind
    ensures steps' == steps + [Begin(image)] + [Erase] + [Program(TOTAL_BYTES)] + [Verify] && Runs(Init(), steps', s') && Inv(s')
    ensures s' == Saved(s, image, Torn(Encode(image, NextGeneration(s.generation)), TOTAL_BYTES))
  {
    SaveIsFourSteps(s, image);
    steps' := OneStep(steps, s, Begin(image));
    var s1 := ApplyBegin(s, image);
    steps' := OneStep(steps', s1, Erase);
    var s2 := ApplyErase(s1);
    steps' := OneStep(steps', s2, Program(TOTAL_BYTES));
    var s3 := ApplyProgram(s2, TOTAL_BYTES);
    steps' := OneStep(steps', s3, Verify);
    s' := ApplyVerify(s3);
  }

  /** A save that meets no fault, on a device that knows its slots, is acknowledged: the next boot
      loads its image, and the slot that was active is as it was. */
  lemma SaveSucceeds(steps: seq<Step>, s: State, image: Image) returns (steps': seq<Step>, s': State)
    requires Runs(Init(), steps, s) && WellFormed(s) && Enabled(s, Begin(image)) && Sized(image) && !s.blind
    ensures steps' == steps + [Begin(image)] + [Erase] + [Program(TOTAL_BYTES)] + [Verify] && Runs(Init(), steps', s')
    ensures WellFormed(s') && s'.phase.Idle? && s'.attempts == s.attempts + [image] && s'.acked == |s'.attempts|
    ensures NextBoot(s').Some? && NextBoot(s').value.image == image
    ensures s.active.Some? ==> s'.slots[s.active.value] == s.slots[s.active.value] && s'.active == Some(1 - s.active.value)
  {
    InitInv();
    RunKeepsInv(Init(), steps, s);
    steps', s' := SaveRuns(steps, s, image);
    SavedFacts(s, image, Torn(Encode(image, NextGeneration(s.generation)), TOTAL_BYTES));
    ComesBack(steps', s');
  }

  lemma SavedFacts(s: State, image: Image, bytes: seq<byte>)
    requires WellFormed(s) && Enabled(s, Begin(image)) && Sized(image)
    ensures var s' := Saved(s, image, bytes);
            && WellFormed(s') && s'.phase.Idle? && s'.attempts == s.attempts + [image] && s'.acked == |s'.attempts|
            && (s.active.Some? ==> s'.slots[s.active.value] == s.slots[s.active.value] && s'.active == Some(1 - s.active.value))
  {
  }

  lemma ComesBack(steps: seq<Step>, s: State)
    requires Runs(Init(), steps, s) && WellFormed(s) && s.phase.Idle? && s.acked == |s.attempts| > 0
    ensures NextBoot(s).Some? && NextBoot(s).value.image == s.attempts[|s.attempts| - 1]
  {
    AcknowledgedComesBack(steps, s);
  }

  /** The image such a save acknowledges is the one the next boot loads exactly when slot 1 does
      not decode, or holds a generation that does not count as newer than 1. */
  lemma SaveWithoutActiveSurvives(s: State, image: Image, bytes: seq<byte>)
    requires WellFormed(s) && Enabled(s, Begin(image)) && Sized(image)
    requires s.active.None? && s.generation == 0
    requires s.found[1].Some? ==> s.found[1].value.slot == 1
    ensures BestOf(Saved(s, image, bytes).found, 2) == Some(Decoded(0, 1, image))
            <==> s.found[1].None? || !Newer(s.found[1].value.generation, 1)
  {
    BestOfTwo(Saved(s, image, bytes).found);
  }

  /** The next boot loads the last acknowledged attempt or a later one. */
  predicate Keeps(s: State)
    requires WellFormed(s) && WellFormed(Off(s))
  {
    s.acked <= LoadedAttempt(Off(s))
  }

  /** A device that booted without reading the slots, and is about to save. */
  predicate BlindSave(s: State, image: Image) { Inv(s) && Enabled(s, Begin(image)) && Sized(image) && s.blind }

  /** Where such a save may be cut off: begun, erased and `n` bytes programmed, all of them
      programmed, or acknowledged. */
  datatype Point = Begun | Cut(n: nat) | Whole | Acknowledged

  function SaveUpTo(s: State, image: Image, p: Point): (s': State)
    requires BlindSave(s, image) && (p.Cut? ==> p.n < TOTAL_BYTES)
    ensures WellFormed(s')
  {
    var begun := ApplyBegin(s, image);
    if p.Begun? then begun else
    var erased := ApplyErase(begun);
    if p == Cut(0) then erased else
    var written := ApplyProgram(erased, if p.Cut? then p.n else TOTAL_BYTES);
    if p.Acknowledged? then ApplyVerify(written) else written
  }

  /** Slot 0 of a blind save after the erase. */
  predicate ErasedFirst(s: State, e: State) {
    && WellFormed(s) && WellFormed(e) && e.phase.Programming? && e.phase.target == 0 && e.phase.generation == 1
    && e.phase.done == 0 && e.found[0].None? && |e.attempts| == |s.attempts| + 1 && e.acked == s.acked
    && e.tags[1] == s.tags[1] && e.gens[1] == s.gens[1] && e.running && e.active.None?
  }

  lemma BlindErase(s: State, image: Image)
    requires BlindSave(s, image)
    ensures ErasedFirst(s, ApplyErase(ApplyBegin(s, image)))
  {
  }

  /** What history says after the power went with slot 0 holding bytes that decode to `f`. */
  predicate Booked(s: State, off: State, whole: bool)
    requires WellFormed(s)
  {
    && WellFormed(off) && off.phase.Idle? && off.tags[1] == s.tags[1] && off.gens[1] == s.gens[1]
    && off.tags[0] == (if whole then |s.attempts| + 1 else 0) && (whole ==> off.gens[0] == 1)
  }

  lemma CutBooks(s: State, e: State)
    requires ErasedFirst(s, e)
    ensures Booked(s, Off(e), false) && Off(e).acked == s.acked
  {
  }

  lemma ProgrammedBooks(s: State, e: State, k: nat, bytes: seq<byte>, f: Option<Decoded>)
    requires ErasedFirst(s, e) && k <= TOTAL_BYTES && (k == TOTAL_BYTES ==> f.Some?)
    ensures var s' := Programmed(e, k, bytes, f);
            s'.found[0] == f && Booked(s, Off(s'), f.Some?) && Off(s').acked == s.acked
  {
  }

  lemma VerifiedBooks(s: State, e: State, bytes: seq<byte>, f: Option<Decoded>)
    requires ErasedFirst(s, e) && f.Some?
    ensures var s' := ApplyVerify(Programmed(e, TOTAL_BYTES, bytes, f));
            Booked(s, Off(s'), true) && Off(s').acked == |s.attempts| + 1
  {
  }

  /** What history says after the power went at a point of the save. */
  lemma BlindBooks(s: State, image: Image, p: Point)
    requires BlindSave(s, image) && !p.Begun? && (p.Cut? ==> p.n < TOTAL_BYTES)
    ensures var s' := SaveUpTo(s, image, p);
            && Booked(s, Off(s'), p.Cut? ==> s'.found[0].Some?)
            && Off(s').acked == if p.Acknowledged? then |s.attempts| + 1 else s.acked
  {
    var e := ApplyErase(ApplyBegin(s, image));
    BlindErase(s, image);
    if p == Cut(0) {
      CutBooks(s, e);
    } else {
      var k := if p.Cut? then p.n else TOTAL_BYTES;
      var bytes := Torn(Encode(image, 1), k);
      WholeSlotDecodes(e.phase, k);
      ProgrammedBooks(s, e, k, bytes, Decode(bytes, 0));
      if p.Acknowledged? { VerifiedBooks(s, e, bytes, Decode(bytes, 0)); }
    }
  }

  /** Cut off at any point, such a save leaves the last acknowledged image or a later one to be
      loaded exactly under these conditions on what slot 1 held before it.  With slot 0 erased
      slot 1 is all there is; with slot 0 whole it is a matter of the generations. */
  lemma BlindSaveSurvivesExactly(s: State, image: Image, p: Point)
    requires BlindSave(s, image) && (p.Cut? ==> p.n < TOTAL_BYTES)
    ensures var s' := SaveUpTo(s, image, p);
            && WellFormed(Off(s'))
            && (p.Begun? ==> Keeps(s'))
            && (p.Cut? && s'.found[0].None? ==> (Keeps(s') <==> s.acked <= s.tags[1]))
            && (p.Cut? && s'.found[0].Some? ==> (Keeps(s') <==> YieldsToFirst(s) || s.acked <= s.tags[1]))
            && (p.Whole? ==> (Keeps(s') <==> YieldsToFirst(s) || s.acked <= s.tags[1]))
            && (p.Acknowledged? ==> (Keeps(s') <==> YieldsToFirst(s)))
  {
    if !p.Begun? { BlindBooks(s, image, p); }
  }

  /** So the save keeps the promise wherever it is cut off if and only if it is safe. */
  lemma BlindSaveIsSafeExactly(s: State, image: Image)
    requires BlindSave(s, image)
    ensures SafeTarget(s) <==>
            forall p: Point :: (p.Cut? ==> p.n < TOTAL_BYTES) ==>
              WellFormed(Off(SaveUpTo(s, image, p))) && Keeps(SaveUpTo(s, image, p))
  {
    forall p: Point | p.Cut? ==> p.n < TOTAL_BYTES
      ensures WellFormed(Off(SaveUpTo(s, image, p)))
      ensures SafeTarget(s) ==> Keeps(SaveUpTo(s, image, p))
    {
      BlindSaveSurvivesExactly(s, image, p);
    }
    BlindSaveSurvivesExactly(s, image, Cut(0));
    BlindSaveSurvivesExactly(s, image, Acknowledged);
    assert SaveUpTo(s, image, Cut(0)).found[0].None?;
  }

  lemma ErasedBytes(s: State, image: Image)
    requires BlindSave(s, image)
    ensures var e := ApplyErase(ApplyBegin(s, image)); WellFormed(e) && SlotsInv(e) && BytesInv(e)
  {
    BeginKeepsSlots(s, image);
    SameBytes(s, ApplyBegin(s, image));
    EraseKeepsSlots(ApplyBegin(s, image));
    EraseKeepsBytes(ApplyBegin(s, image));
  }

  lemma ProgrammedBytes(e: State, n: nat)
    requires WellFormed(e) && SlotsInv(e) && BytesInv(e) && Enabled(e, Program(n))
    ensures var s' := ApplyProgram(e, n); WellFormed(s') && SlotsInv(s') && BytesInv(s')
  {
    ProgramKeepsSlots(e, n);
    NewBytes(e, ApplyProgram(e, n), e.phase.target, Torn(Encode(e.phase.image, e.phase.generation), e.phase.done + n));
  }

  lemma VerifiedBytes(s: State)
    requires WellFormed(s) && SlotsInv(s) && BytesInv(s) && s.phase.Verifying?
    ensures var s' := ApplyVerify(s); WellFormed(s') && SlotsInv(s') && BytesInv(s')
  {
    SameBytes(s, ApplyVerify(s));
  }

  lemma SaveUpToKeepsBytes(s: State, image: Image, p: Point)
    requires BlindSave(s, image) && (p.Cut? ==> p.n < TOTAL_BYTES)
    ensures SlotsInv(SaveUpTo(s, image, p)) && BytesInv(SaveUpTo(s, image, p))
  {
    if p.Begun? {
      BeginKeepsSlots(s, image);
      SameBytes(s, ApplyBegin(s, image));
    } else {
      ErasedBytes(s, image);
      var e := ApplyErase(ApplyBegin(s, image));
      if p != Cut(0) {
        ProgrammedBytes(e, if p.Cut? then p.n else TOTAL_BYTES);
        if p.Acknowledged? { VerifiedBytes(ApplyProgram(e, TOTAL_BYTES)); }
      }
    }
  }

  lemma OffLoads(s: State)
    requires WellFormed(s) && s.running && SlotsInv(s) && BytesInv(s) && TearShows(s)
    ensures WellFormed(Off(s)) && (NextBoot(s).None? <==> LoadedAttempt(Off(s)) == 0)
    ensures NextBoot(s).Some? ==> Attempted(s, NextBoot(s).value.image, LoadedAttempt(Off(s)))
  {
    EveryTearShows(s);
    InterruptedKeepsSlots(s);
    SameBytes(s, Off(s));
    NextBootLoads(s);
  }

  /** What the bytes load as after such a save is the attempt that `Keeps` speaks of. */
  lemma BlindSaveLoads(s: State, image: Image, p: Point)
    requires BlindSave(s, image) && (p.Cut? ==> p.n < TOTAL_BYTES) && TearShows(SaveUpTo(s, image, p))
    ensures var s' := SaveUpTo(s, image, p);
            && WellFormed(Off(s')) && (NextBoot(s').None? <==> LoadedAttempt(Off(s')) == 0)
            && (NextBoot(s').Some? ==> Attempted(s', NextBoot(s').value.image, LoadedAttempt(Off(s'))))
  {
    SaveUpToKeepsBytes(s, image, p);
    OffLoads(SaveUpTo(s, image, p));
  }

  // ---- Two ways to lose an acknowledged image ------------------------------------------------------

  /** The power goes and comes back, and the slots cannot be read. */
  function BlindBoot(s: State): State
    requires WellFormed(s) && s.phase.Idle?
  {
    ApplyBoot(s.(running := false, active := None, generation := 0), false)
  }

  /** Two saves, a boot that cannot read the slots, one more acknowledged save: the next boot
      loads the second image instead of the third. */
  lemma BlindSaveIsLost(a: Image, b: Image, c: Image, x: seq<byte>, y: seq<byte>, z: seq<byte>)
    requires Sized(a) && Sized(b) && Sized(c)
    ensures var two := Saved(Saved(ApplyBoot(Init(), true), a, x), b, y);
            var three := Saved(BlindBoot(two), c, z);
            && three.acked == 3 && three.attempts == [a, b, c]
            && BestOf(three.found, 2) == Some(Decoded(1, 2, b))
  {
    BestOfTwo(Init().found);
    var f := [Some(Decoded(0, 1, c)), Some(Decoded(1, 2, b))];
    BestOfTwo(f);
    var two := Saved(Saved(ApplyBoot(Init(), true), a, x), b, y);
    assert two.found == [Some(Decoded(0, 1, a)), Some(Decoded(1, 2, b))];
    assert Saved(BlindBoot(two), c, z).found == f;
  }

  /** Three saves, a boot that cannot read the slots, and a fourth save whose erase is the last
      thing that happens: the next boot loads the second image instead of the third. */
  lemma BlindEraseIsLost(a: Image, b: Image, c: Image, d: Image, x: seq<byte>, y: seq<byte>, z: seq<byte>)
    requires Sized(a) && Sized(b) && Sized(c) && Sized(d)
    ensures var three := Saved(Saved(Saved(ApplyBoot(Init(), true), a, x), b, y), c, z);
            var off := Off(ApplyErase(ApplyBegin(BlindBoot(three), d)));
            && off.acked == 3 && off.attempts == [a, b, c, d]
            && BestOf(off.found, 2) == Some(Decoded(1, 2, b))
  {
    BestOfTwo(Init().found);
    var f := [None, Some(Decoded(1, 2, b))];
    BestOfTwo(f);
    var two := Saved(Saved(ApplyBoot(Init(), true), a, x), b, y);
    assert two.found == [Some(Decoded(0, 1, a)), Some(Decoded(1, 2, b))];
    var three := Saved(two, c, z);
    assert three.found == [Some(Decoded(0, 3, c)), Some(Decoded(1, 2, b))];
    assert Off(ApplyErase(ApplyBegin(BlindBoot(three), d))).found == f;
  }
}
