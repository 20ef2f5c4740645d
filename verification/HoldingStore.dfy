/**
  The A/B raw slots of src/device/holding_store.rs as a state machine: a save erases the
  inactive slot, programs it byte after byte, reads it back, and only then publishes the new
  active slot and generation.  Any step may fail and the power may go between any two.

  `found[i]` is what decoding slot `i` gives.  `blind` (the last boot could not read the slots),
  `attempts`, `acked`, `tags` and `gens` are history: no step of the device tests them.  `tags[i]`
  is the number of the attempt whose whole image slot `i` holds (from 1), and 0 when the slot does
  not decode; `gens[i]` is the generation it was written with.
*/
module HoldingStore {
  import opened HoldingBoot
  import opened HoldingCodec
  import opened Options
  import opened Words

  // ---- The machine -----------------------------------------------------------------------------

  datatype Phase =
    | Idle
    | Erasing(target: nat, generation: u32, image: Image)
    | Programming(target: nat, generation: u32, image: Image, done: nat)
    | Verifying(target: nat, generation: u32)

  datatype State = State(
    slots: seq<seq<byte>>,
    found: seq<Option<Decoded>>,
    running: bool,
    active: Option<nat>,
    generation: u32,
    phase: Phase,
    blind: bool,
    attempts: seq<Image>,
    acked: nat,
    tags: seq<nat>,
    gens: seq<u32>)

  datatype Step =
    | Begin(image: Image)
    | Erase | EraseFails(erased: bool)
    | Program(n: nat) | ProgramFails
    | Verify | VerifyFails
    | PowerLoss | Boot(readable: bool)

  const Blank: seq<byte> := Erased(TOTAL_BYTES)

  function Init(): State {
    State([Blank, Blank], [None, None], false, None, 0, Idle, false, [], 0, [0, 0], [0, 0])
  }

  predicate WellFormed(s: State) {
    && |s.slots| == 2 && |s.found| == 2 && |s.tags| == 2 && |s.gens| == 2
    && (!s.phase.Idle? ==> s.running && s.phase.target < 2)
    && (s.phase.Erasing? || s.phase.Programming? ==> Sized(s.phase.image))
    && (s.phase.Programming? ==> s.phase.done < TOTAL_BYTES)
    && (s.active.Some? ==> s.active.value < 2)
  }

  predicate Enabled(s: State, step: Step) {
    match step
    case Begin(_) => s.running && s.phase.Idle?
    case Erase => s.phase.Erasing?
    case EraseFails(_) => s.phase.Erasing?
    case Program(n) => s.phase.Programming? && 0 < n && s.phase.done + n <= TOTAL_BYTES
    case ProgramFails => s.phase.Programming?
    case Verify => s.phase.Verifying?
    case VerifyFails => s.phase.Verifying?
    case PowerLoss => s.running
    case Boot(_) => !s.running
  }

  function Target(s: State): nat { if s.active == Some(0) then 1 else 0 }

  /** A write that stops here leaves the slot as it is: history notes whether it is whole. */
  function Interrupted(s: State): State
    requires WellFormed(s)
  {
    if !s.phase.Programming? then s.(phase := Idle) else
    var t := s.phase.target;
    s.(phase := Idle,
       tags := s.tags[t := if s.found[t].Some? then |s.attempts| else 0],
       gens := s.gens[t := s.phase.generation])
  }

  function ApplyBegin(s: State, image: Image): State {
    if !Sized(image) then s else
    var g := NextGeneration(s.generation);
    s.(phase := Erasing(Target(s), g, image), attempts := s.attempts + [image])
  }

  /** Slot `i` now holds `bytes`, which decode to `f`. */
  function SetSlot(s: State, i: nat, bytes: seq<byte>, f: Option<Decoded>): State
    requires WellFormed(s) && i < 2
  {
    s.(slots := s.slots[i := bytes], found := s.found[i := f])
  }

  function ApplyErase(s: State): State
    requires WellFormed(s) && s.phase.Erasing?
  {
    var t := s.phase.target;
    SetSlot(s, t, Blank, None).(tags := s.tags[t := 0], phase := Programming(t, s.phase.generation, s.phase.image, 0))
  }

  function Programmed(s: State, k: nat, bytes: seq<byte>, f: Option<Decoded>): State
    requires WellFormed(s) && s.phase.Programming?
  {
    var t, g := s.phase.target, s.phase.generation;
    var s' := SetSlot(s, t, bytes, f);
    if k < TOTAL_BYTES then s'.(phase := Programming(t, g, s.phase.image, k))
    else s'.(phase := Verifying(t, g), tags := s.tags[t := |s.attempts|], gens := s.gens[t := g])
  }

  function ApplyProgram(s: State, n: nat): State
    requires WellFormed(s) && Enabled(s, Program(n))
  {
    var k := s.phase.done + n;
    var bytes := Torn(Encode(s.phase.image, s.phase.generation), k);
    Programmed(s, k, bytes, Decode(bytes, s.phase.target))
  }

  function ApplyVerify(s: State): State
    requires WellFormed(s) && s.phase.Verifying?
  {
    var t := s.phase.target;
    if s.found[t].None? then s.(phase := Idle)
    else s.(phase := Idle, active := Some(t), generation := s.phase.generation, blind := false, acked := |s.attempts|)
  }

  /** A slot that cannot be read makes the whole load fail: nothing is known of the flash then. */
  function ApplyBoot(s: State, readable: bool): State
    requires WellFormed(s)
  {
    var best := if readable then BestOf(s.found, 2) else None;
    var s' := s.(running := true, phase := Idle, blind := !readable);
    if best.None? then s'.(active := None, generation := 0)
    else s'.(active := Some(best.value.slot), generation := best.value.generation)
  }

  function Apply(s: State, step: Step): State
    requires WellFormed(s) && Enabled(s, step)
  {
    match step
    case Begin(image) => ApplyBegin(s, image)
    case Erase => ApplyErase(s)
    case EraseFails(erased) => (if erased then ApplyErase(s) else s).(phase := Idle)
    case Program(n) => ApplyProgram(s, n)
    case ProgramFails => Interrupted(s)
    case Verify => ApplyVerify(s)
    case VerifyFails => s.(phase := Idle)
    case PowerLoss => Interrupted(s).(running := false, active := None, generation := 0)
    case Boot(readable) => ApplyBoot(s, readable)
  }

  // ---- The runs considered ----------------------------------------------------------------------

  /** The half-written slot left by an interrupted write does not decode, unless to the image
      that was being written. */
  predicate Shows(s: State)
    requires WellFormed(s)
  {
    s.phase.Programming? ==>
      var t := s.phase.target;
      s.found[t].None? || s.found[t] == Some(Decoded(t, s.phase.generation, s.phase.image))
  }

  /** That is assumed of writes torn between the eighth byte and the last four. */
  predicate TearShows(s: State)
    requires WellFormed(s)
  {
    s.phase.Programming? && 8 <= s.phase.done < TOTAL_BYTES - 4 ==> Shows(s)
  }

  /** A generation 1 in slot 0 is preferred to what slot 1 holds. */
  predicate YieldsToFirst(s: State)
    requires WellFormed(s)
  {
    s.tags[1] > 0 ==> !Newer(s.gens[1], 1)
  }

  /** A save that knows of no active slot writes generation 1 to slot 0.  That loses nothing when
      slot 1 holds the last acknowledged image or a later one, if there is any, and no generation
      that counts as newer than 1. */
  predicate SafeTarget(s: State)
    requires WellFormed(s)
  {
    s.acked <= s.tags[1] && YieldsToFirst(s)
  }

  /** After a boot that could not read the slots, only saves that are safe in this sense. */
  predicate Allowed(s: State, step: Step)
    requires WellFormed(s)
  {
    && Enabled(s, step)
    && (step.Begin? && s.blind ==> SafeTarget(s))
    && (step.ProgramFails? || step.PowerLoss? ==> TearShows(s))
  }

  ghost predicate Runs(s: State, steps: seq<Step>, s': State)
    decreases |steps|
  {
    if steps == [] then s' == s
    else WellFormed(s) && Allowed(s, steps[0]) && Runs(Apply(s, steps[0]), steps[1..], s')
  }

  // ---- What the slots hold -------------------------------------------------------------------

  /** `found` is what the bytes decode to, and a slot being programmed holds the bytes so far. */
  predicate SlotBytes(s: State, i: nat)
    requires WellFormed(s) && i < 2
  {
    && s.found[i] == Decode(s.slots[i], i)
    && (s.phase.Programming? && s.phase.target == i ==>
          s.slots[i] == Torn(Encode(s.phase.image, s.phase.generation), s.phase.done))
  }

  predicate BytesInv(s: State)
    requires WellFormed(s)
  {
    forall i :: 0 <= i < 2 ==> SlotBytes(s, i)
  }

  /** History tells the truth about a slot that is not being programmed. */
  predicate Truthful(s: State, i: nat)
    requires WellFormed(s) && i < 2
  {
    !(s.phase.Programming? && s.phase.target == i) ==>
      && s.tags[i] <= |s.attempts|
      && (s.tags[i] == 0 ==> s.found[i].None?)
      && (s.tags[i] > 0 ==> s.found[i] == Some(Decoded(i, s.gens[i], s.attempts[s.tags[i] - 1])))
  }

  /** The image being written is the newest attempt. */
  predicate SlotsInv(s: State)
    requires WellFormed(s)
  {
    && Truthful(s, 0) && Truthful(s, 1)
    && (s.phase.Erasing? || s.phase.Programming? ==>
          s.attempts != [] && s.phase.image == s.attempts[|s.attempts| - 1])
  }

  // ---- What history and memory say of each other -----------------------------------------------

  /** What history expects a boot to choose, and the attempt it finds there, 0 for none. */
  function BestTagged(s: State): Option<nat>
    requires WellFormed(s)
  {
    if s.tags[0] == 0 then (if s.tags[1] == 0 then None else Some(1))
    else if s.tags[1] > 0 && Newer(s.gens[1], s.gens[0]) then Some(1) else Some(0)
  }

  function LoadedAttempt(s: State): nat
    requires WellFormed(s)
  {
    if BestTagged(s).None? then 0 else s.tags[BestTagged(s).value]
  }

  /** What a running device knows of the slots. */
  predicate MemoryInv(s: State)
    requires WellFormed(s)
  {
    s.running ==>
      match s.active
      case None => s.generation == 0 && ((s.blind && s.phase.Idle?) || SafeTarget(s))
      case Some(a) => !s.blind && s.tags[a] > 0 && s.gens[a] == s.generation && s.acked <= s.tags[a]
  }

  predicate PhaseInv(s: State)
    requires WellFormed(s)
  {
    && (!s.phase.Idle? ==>
          s.attempts != [] && s.phase.target == Target(s) && s.phase.generation == NextGeneration(s.generation))
    && (s.phase.Programming? ==> s.tags[s.phase.target] == 0)
    && (s.phase.Verifying? ==>
          s.tags[s.phase.target] == |s.attempts| && s.gens[s.phase.target] == s.phase.generation)
  }

  /** The flash is never behind the last acknowledged attempt. */
  predicate BookInv(s: State)
    requires WellFormed(s)
  {
    PhaseInv(s) && MemoryInv(s) && s.acked <= |s.attempts| && s.acked <= LoadedAttempt(s)
  }

  predicate Inv(s: State) { WellFormed(s) && SlotsInv(s) && BookInv(s) && BytesInv(s) }

  lemma BlankDoesNotDecode(slot: nat)
    ensures Decode(Blank, slot).None?
  {
    assert Blank[7] == 0xFF;
  }

  lemma InitInv()
    ensures Inv(Init())
  {
    BlankDoesNotDecode(0);
    BlankDoesNotDecode(1);
  }

  // ---- Every step keeps the books -----------------------------------------------------------------

  lemma BeginKeepsBooks(s: State, image: Image)
    requires WellFormed(s) && BookInv(s) && Allowed(s, Begin(image))
    ensures WellFormed(ApplyBegin(s, image)) && BookInv(ApplyBegin(s, image))
  {
  }

  lemma EraseKeepsBooks(s: State)
    requires WellFormed(s) && BookInv(s) && s.phase.Erasing?
    ensures WellFormed(ApplyErase(s)) && BookInv(ApplyErase(s))
    ensures BookInv(ApplyErase(s).(phase := Idle))
  {
  }

  /** The target slot filled with the newest attempt: the flash stays at least as new, and once
      acknowledged the attempt is what a boot finds. */
  lemma FilledKeepsBooks(s: State, s': State)
    requires WellFormed(s) && BookInv(s) && s.phase.Programming? && WellFormed(s')
    requires s'.tags == s.tags[s.phase.target := |s.attempts|] && s'.gens == s.gens[s.phase.target := s.phase.generation]
    requires s'.attempts == s.attempts && s'.acked == s.acked
    requires s'.active == s.active && s'.generation == s.generation && s'.blind == s.blind && s'.running
    ensures s.acked <= LoadedAttempt(s') && MemoryInv(s')
  {
    SuccessorIsNewer(s.generation);
  }

  lemma ProgrammedKeepsBooks(s: State, k: nat, bytes: seq<byte>, f: Option<Decoded>)
    requires WellFormed(s) && BookInv(s) && s.phase.Programming?
    ensures var s' := Programmed(s, k, bytes, f); WellFormed(s') && BookInv(s')
  {
    if k >= TOTAL_BYTES { FilledKeepsBooks(s, Programmed(s, k, bytes, f)); }
  }

  lemma InterruptedKeepsBooks(s: State)
    requires WellFormed(s) && BookInv(s)
    ensures WellFormed(Interrupted(s)) && BookInv(Interrupted(s))
  {
    if s.phase.Programming? && s.found[s.phase.target].Some? {
      FilledKeepsBooks(s, Interrupted(s));
    }
  }

  lemma VerifyKeepsBooks(s: State)
    requires WellFormed(s) && BookInv(s) && s.phase.Verifying?
    ensures WellFormed(ApplyVerify(s)) && BookInv(ApplyVerify(s))
  {
    SuccessorIsNewer(s.generation);
  }

  /** Boot chooses what history expects, and what it chooses is the attempt history names. */
  lemma BootChooses(s: State)
    requires WellFormed(s) && s.phase.Idle? && SlotsInv(s)
    ensures BestOf(s.found, 2).None? <==> BestTagged(s).None?
    ensures BestTagged(s).Some? ==>
              var b := BestTagged(s).value;
              s.tags[b] > 0 && BestOf(s.found, 2) == Some(Decoded(b, s.gens[b], s.attempts[s.tags[b] - 1]))
  {
    BestOfTwo(s.found);
  }

  lemma BootKeepsBooks(s: State, readable: bool)
    requires WellFormed(s) && BookInv(s) && !s.running
    requires BestOf(s.found, 2).None? <==> BestTagged(s).None?
    requires BestTagged(s).Some? ==>
               BestOf(s.found, 2).value.slot == BestTagged(s).value
               && BestOf(s.found, 2).value.generation == s.gens[BestTagged(s).value]
    ensures WellFormed(ApplyBoot(s, readable)) && BookInv(ApplyBoot(s, readable))
  {
  }

  // ---- Every step keeps what the slots hold ------------------------------------------------------

  lemma WholeWrite(image: Image, generation: u32, t: nat)
    requires Sized(image)
    ensures Decode(Torn(Encode(image, generation), TOTAL_BYTES), t) == Some(Decoded(t, generation, image))
  {
    assert Torn(Encode(image, generation), TOTAL_BYTES) == Encode(image, generation);
    RoundTrip(image, generation, t);
  }

  lemma BeginKeepsSlots(s: State, image: Image)
    requires WellFormed(s) && SlotsInv(s) && Enabled(s, Begin(image))
    ensures var s' := ApplyBegin(s, image); WellFormed(s') && SlotsInv(s')
  {
  }

  lemma EraseKeepsSlots(s: State)
    requires WellFormed(s) && SlotsInv(s) && s.phase.Erasing?
    ensures var s' := ApplyErase(s); WellFormed(s') && SlotsInv(s') && SlotsInv(s'.(phase := Idle))
  {
  }

  lemma ProgrammedKeepsSlots(s: State, k: nat, bytes: seq<byte>, f: Option<Decoded>)
    requires WellFormed(s) && SlotsInv(s) && s.phase.Programming?
    requires k >= TOTAL_BYTES ==> f == Some(Decoded(s.phase.target, s.phase.generation, s.phase.image))
    ensures var s' := Programmed(s, k, bytes, f); WellFormed(s') && SlotsInv(s')
  {
  }

  lemma WholeSlotDecodes(p: Phase, k: nat)
    requires p.Programming? && Sized(p.image) && k <= TOTAL_BYTES
    ensures k == TOTAL_BYTES ==>
              Decode(Torn(Encode(p.image, p.generation), k), p.target) == Some(Decoded(p.target, p.generation, p.image))
  {
    if k == TOTAL_BYTES { WholeWrite(p.image, p.generation, p.target); }
  }

  lemma ProgramKeepsSlots(s: State, n: nat)
    requires WellFormed(s) && SlotsInv(s) && Enabled(s, Program(n))
    ensures var s' := ApplyProgram(s, n); WellFormed(s') && SlotsInv(s')
  {
    var k := s.phase.done + n;
    WholeSlotDecodes(s.phase, k);
    var bytes := Torn(Encode(s.phase.image, s.phase.generation), k);
    ProgrammedKeepsSlots(s, k, bytes, Decode(bytes, s.phase.target));
  }

  lemma InterruptedKeepsSlots(s: State)
    requires WellFormed(s) && SlotsInv(s) && Shows(s)
    ensures var s' := Interrupted(s); WellFormed(s') && SlotsInv(s')
  {
  }

  // ---- `found` is what the bytes decode to ---------------------------------------------------------

  lemma NothingWritten(image: Image, generation: u32)
    requires Sized(image)
    ensures Torn(Encode(image, generation), 0) == Blank
  {
  }

  lemma SameBytes(s: State, s': State)
    requires WellFormed(s) && BytesInv(s) && WellFormed(s')
    requires s'.slots == s.slots && s'.found == s.found && (s'.phase.Programming? ==> s'.phase == s.phase)
    ensures BytesInv(s')
  {
    forall i | 0 <= i < 2 ensures SlotBytes(s', i) { assert SlotBytes(s, i); }
  }

  lemma NewBytes(s: State, s': State, t: nat, bytes: seq<byte>)
    requires WellFormed(s) && BytesInv(s) && WellFormed(s') && t < 2
    requires s'.slots == s.slots[t := bytes] && s'.found == s.found[t := Decode(bytes, t)]
    requires s'.phase.Programming? ==>
               s'.phase.target == t && bytes == Torn(Encode(s'.phase.image, s'.phase.generation), s'.phase.done)
    ensures BytesInv(s')
  {
    forall i | 0 <= i < 2 ensures SlotBytes(s', i) { assert SlotBytes(s, i); }
  }

  lemma EraseKeepsBytes(s: State)
    requires WellFormed(s) && BytesInv(s) && s.phase.Erasing? && WellFormed(ApplyErase(s))
    ensures BytesInv(ApplyErase(s)) && BytesInv(ApplyErase(s).(phase := Idle))
  {
    BlankDoesNotDecode(s.phase.target);
    NothingWritten(s.phase.image, s.phase.generation);
    NewBytes(s, ApplyErase(s), s.phase.target, Blank);
    SameBytes(ApplyErase(s), ApplyErase(s).(phase := Idle));
  }

  /** A write torn below eight bytes, or in the last four, shows in any case. */
  lemma TornEndsShow(p: Phase, bytes: seq<byte>)
    requires p.Programming? && Sized(p.image) && p.done < TOTAL_BYTES
    requires p.done < 8 || p.done >= TOTAL_BYTES - 4
    requires bytes == Torn(Encode(p.image, p.generation), p.done)
    ensures Decode(bytes, p.target).None? || Decode(bytes, p.target) == Some(Decoded(p.target, p.generation, p.image))
  {
    RoundTrip(p.image, p.generation, p.target);
    if p.done < 8 {
      TornEarlyRejected(p.image, p.generation, p.done, p.target);
    } else {
      TornLateRejected(Encode(p.image, p.generation), p.done, p.target);
    }
  }

  lemma EveryTearShows(s: State)
    requires WellFormed(s) && BytesInv(s) && TearShows(s)
    ensures Shows(s)
  {
    if s.phase.Programming? && !(8 <= s.phase.done < TOTAL_BYTES - 4) {
      assert SlotBytes(s, s.phase.target);
      TornEndsShow(s.phase, s.slots[s.phase.target]);
    }
  }

  // ---- Every step keeps the invariant ---------------------------------------------------------------

  /** Reading the slot back finds the image, so a save that gets this far is acknowledged. */
  lemma VerifyAcknowledges(s: State)
    requires Inv(s) && s.phase.Verifying?
    ensures ApplyVerify(s).acked == |s.attempts| && SlotsInv(ApplyVerify(s))
  {
  }

  lemma ProgramKeepsInv(s: State, n: nat)
    requires Inv(s) && Enabled(s, Program(n))
    ensures Inv(ApplyProgram(s, n))
  {
    var k := s.phase.done + n;
    var bytes := Torn(Encode(s.phase.image, s.phase.generation), k);
    ProgrammedKeepsBooks(s, k, bytes, Decode(bytes, s.phase.target));
    ProgramKeepsSlots(s, n);
    NewBytes(s, ApplyProgram(s, n), s.phase.target, bytes);
  }

  lemma EraseKeepsInv(s: State)
    requires Inv(s) && s.phase.Erasing?
    ensures Inv(ApplyErase(s)) && Inv(ApplyErase(s).(phase := Idle)) && Inv(s.(phase := Idle))
  {
    EraseKeepsBooks(s);
    EraseKeepsSlots(s);
    EraseKeepsBytes(s);
    SameBytes(s, s.(phase := Idle));
  }

  lemma InterruptedKeepsInv(s: State)
    requires Inv(s) && TearShows(s)
    ensures Inv(Interrupted(s)) && Interrupted(s).phase.Idle?
  {
    EveryTearShows(s);
    InterruptedKeepsBooks(s);
    InterruptedKeepsSlots(s);
    SameBytes(s, Interrupted(s));
  }

  lemma OffIsInv(s: State)
    requires Inv(s) && s.phase.Idle?
    ensures Inv(s.(running := false, active := None, generation := 0))
  {
    SameBytes(s, s.(running := false, active := None, generation := 0));
  }

  lemma VerifyKeepsInv(s: State)
    requires Inv(s) && s.phase.Verifying?
    ensures Inv(ApplyVerify(s)) && Inv(s.(phase := Idle))
  {
    VerifyKeepsBooks(s);
    VerifyAcknowledges(s);
    SameBytes(s, ApplyVerify(s));
    SameBytes(s, s.(phase := Idle));
  }

  lemma BootKeepsInv(s: State, readable: bool)
    requires Inv(s) && !s.running
    ensures Inv(ApplyBoot(s, readable))
  {
    BootChooses(s);
    BootKeepsBooks(s, readable);
    SameBytes(s, ApplyBoot(s, readable));
  }

  lemma BeginKeepsInv(s: State, image: Image)
    requires Inv(s) && Allowed(s, Begin(image))
    ensures Inv(ApplyBegin(s, image))
  {
    BeginKeepsBooks(s, image);
    BeginKeepsSlots(s, image);
    SameBytes(s, ApplyBegin(s, image));
  }

  lemma SaveStepKeepsInv(s: State, step: Step)
    requires Inv(s) && Allowed(s, step)
    requires step.Begin? || step.Erase? || step.Program? || step.Verify?
    ensures Inv(Apply(s, step))
  {
    match step
    case Begin(image) => BeginKeepsInv(s, image);
    case Erase => EraseKeepsInv(s);
    case Program(n) => ProgramKeepsInv(s, n);
    case Verify => VerifyKeepsInv(s);
  }

  lemma FaultKeepsInv(s: State, step: Step)
    requires Inv(s) && Allowed(s, step)
    requires step.EraseFails? || step.ProgramFails? || step.VerifyFails? || step.PowerLoss? || step.Boot?
    ensures Inv(Apply(s, step))
  {
    match step
    case EraseFails(_) => EraseKeepsInv(s);
    case ProgramFails => InterruptedKeepsInv(s);
    case VerifyFails => VerifyKeepsInv(s);
    case PowerLoss => InterruptedKeepsInv(s); OffIsInv(Interrupted(s));
    case Boot(readable) => BootKeepsInv(s, readable);
  }

  lemma StepKeepsInv(s: State, step: Step)
    requires Inv(s) && Allowed(s, step)
    ensures Inv(Apply(s, step))
  {
    if step.Begin? || step.Erase? || step.Program? || step.Verify? {
      SaveStepKeepsInv(s, step);
    } else {
      FaultKeepsInv(s, step);
    }
  }

  lemma {:induction false} RunKeepsInv(s: State, steps: seq<Step>, s': State)
    requires Inv(s) && Runs(s, steps, s')
    ensures Inv(s')
    decreases |steps|
  {
    if steps != [] {
      StepKeepsInv(s, steps[0]);
      RunKeepsInv(Apply(s, steps[0]), steps[1..], s');
    }
  }

  // ---- Crash safety ------------------------------------------------------------------------------

  /** The power goes, whatever the device is doing. */
  function Off(s: State): State
    requires WellFormed(s)
  {
    if s.running then Apply(s, PowerLoss) else s
  }

  /** What the next boot that can read the slots makes of their bytes. */
  function NextBoot(s: State): Option<Decoded>
    requires WellFormed(s)
  {
    BestOf(Scanned(Off(s).slots), 2)
  }

  predicate Attempted(s: State, image: Image, n: nat) {
    0 < n <= |s.attempts| && s.attempts[n - 1] == image
  }

  lemma ScannedIsFound(s: State)
    requires WellFormed(s) && BytesInv(s)
    ensures Scanned(s.slots) == s.found
  {
    assert SlotBytes(s, 0) && SlotBytes(s, 1);
  }

  /** The bytes left in the slots load as the attempt history names. */
  lemma NextBootLoads(s: State)
    requires WellFormed(s) && WellFormed(Off(s)) && Off(s).phase.Idle? && SlotsInv(Off(s)) && BytesInv(Off(s))
    ensures NextBoot(s).None? <==> LoadedAttempt(Off(s)) == 0
    ensures NextBoot(s).Some? ==> Attempted(s, NextBoot(s).value.image, LoadedAttempt(Off(s)))
  {
    BootChooses(Off(s));
    ScannedIsFound(Off(s));
  }

  lemma OffKeepsInv(s: State)
    requires Inv(s) && TearShows(s)
    ensures Inv(Off(s)) && (s.running || s.phase.Idle? ==> Off(s).phase.Idle?)
  {
    if s.running { StepKeepsInv(s, PowerLoss); }
  }

  /** Whenever the power goes, the next boot that can read the slots loads the last
      acknowledged image or one attempted after it. */
  lemma RebootLoadsAcknowledged(steps: seq<Step>, s: State)
    requires Runs(Init(), steps, s) && WellFormed(s) && TearShows(s)
    ensures NextBoot(s).None? ==> s.acked == 0
    ensures NextBoot(s).Some? ==> exists n :: s.acked <= n && Attempted(s, NextBoot(s).value.image, n)
  {
    InitInv();
    RunKeepsInv(Init(), steps, s);
    OffKeepsInv(s);
    NextBootLoads(s);
  }

  lemma OnlyTheLast(s: State, best: Option<Decoded>)
    requires s.acked == |s.attempts| > 0 && (best.None? ==> s.acked == 0)
    requires best.Some? ==> exists n :: s.acked <= n && Attempted(s, best.value.image, n)
    ensures best.Some? && best.value.image == s.attempts[s.acked - 1]
  {
  }

  /** With nothing attempted after it, exactly the acknowledged image comes back. */
  lemma AcknowledgedComesBack(steps: seq<Step>, s: State)
    requires Runs(Init(), steps, s) && WellFormed(s) && TearShows(s) && s.acked == |s.attempts| > 0
    ensures NextBoot(s).Some? && NextBoot(s).value.image == s.attempts[s.acked - 1]
  {
    RebootLoadsAcknowledged(steps, s);
    OnlyTheLast(s, NextBoot(s));
  }
}
