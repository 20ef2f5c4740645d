/**
  What can come of the work under way on the receive slots of `BleEpochs`: nothing stale, as
  long as the callback is not giving back the slot that the main loop is checking, or the
  request queue is too full for the callback to claim that slot again.
*/
module BleContinuations {
  import opened BleEpochs
  import opened Options

  /** Nothing but what is under way: the main loop takes up no further frame, and the callback is
      not refused again. */
  predicate Plain(step: Step) { step != Bt(EnqueueFails) && step != Loop(Take) }

  ghost predicate PlainRuns(s: State, steps: seq<Step>, s': State)
    decreases |steps|
  {
    if steps == [] then s' == s
    else WellFormed(s) && Enabled(s, steps[0]) && Plain(steps[0]) && PlainRuns(Apply(s, steps[0]), steps[1..], s')
  }

  function One(b: bool): nat { if b then 1 else 0 }

  /** The free slots that a claim would take before slot `j`. */
  function FreeBelow(s: State, j: nat): nat
    requires WellFormed(s)
  {
    One(0 < j && s.slots[0].phase.Free?) + One(1 < j && s.slots[1].phase.Free?) + One(2 < j && s.slots[2].phase.Free?)
  }

  /** The request queue has room for a frame in each of them. */
  predicate Room(s: State)
    requires WellFormed(s) && Works(s.main)
  {
    FreeBelow(s, s.main.j) + |s.queue| <= QUEUE_MAX
  }

  predicate Live(m: Main) { m.Taken? || m.HasConn? || m.HasEpoch? || m.Checked? || m.Executing? }

  // Without room the callback can never claim the slot it has freed.

  /** One for a slot below that the callback is using. */
  function Pending(s: State, j: nat): nat { One((Holds(s.callback) && s.callback.i < j) || s.active.Some?) }

  predicate Crowded(s: State, j: nat)
    requires WellFormed(s)
  {
    FreeBelow(s, j) + |s.queue| + Pending(s, j) > QUEUE_MAX
  }

  /** Slot `j` is out of the callback's reach. */
  predicate Outside(s: State, j: nat)
    requires WellFormed(s)
  {
    var b := s.callback;
    && (s.active.Some? ==> s.active.value < j && s.slots[s.active.value].phase.Assembling?)
    && (Holds(b) ==> b.i < j || (b.i == j && (b.Dropping? || b.Freeing?)))
    && (Holds(b) && !b.Queueing? && !b.Dropping? && !b.Freeing? ==> s.slots[b.i].phase.Assembling?)
    && (Holds(b) && b.i < j ==> !s.slots[b.i].phase.Free?)
    && (b.Chosen? || b.Appending? || b.Closing? ==> s.active == Some(b.i))
    && (b.Scanning? ==> forall k :: 0 <= k < b.i ==> !s.slots[k].phase.Free?)
  }

  predicate MainHasIt(s: State)
    requires WellFormed(s)
  {
    var m := s.main;
    && Live(m)
    && (m.HasEpoch? ==> m.e <= s.epoch && (m.e == s.epoch ==> s.slots[m.j].epoch == m.e))
    && (m.Checked? || m.Executing? ==> AllIn(s.slots[m.j].stamps, m.e, m.e))
  }

  predicate Shut(s: State) {
    && WellFormed(s) && SlotsOk(s) && LocksOk(s) && CallbackOk(s) && MainHasIt(s)
    && Outside(s, s.main.j) && Crowded(s, s.main.j)
  }

  lemma ScanStaysBelow(s: State, j: nat)
    requires WellFormed(s) && Outside(s, j) && CallbackOk(s) && Crowded(s, j) && s.callback.Scanning? && j < SLOT_COUNT
    ensures s.callback.i < j
  {
  }

  /** The callback is on its way to a claimed slot, or not. */
  predicate Claimant(b: Callback) { b.Scanning? || b.Claiming? || b.Cleared? || b.Owned? || b.Stamped? }

  lemma ClaimKeepsOutside(s: State, op: CallbackOp)
    requires Shut(s) && CanBt(s, op) && Claimant(s.callback) && WellFormed(ApplyBt(s, op))
    ensures Outside(ApplyBt(s, op), s.main.j)
  {
    if s.callback.Scanning? { ScanStaysBelow(s, s.main.j); }
  }

  lemma RestKeepsOutside(s: State, op: CallbackOp)
    requires Shut(s) && CanBt(s, op) && !Claimant(s.callback) && WellFormed(ApplyBt(s, op))
    ensures Outside(ApplyBt(s, op), s.main.j)
  {
  }

  lemma BtKeepsOutside(s: State, op: CallbackOp)
    requires Shut(s) && CanBt(s, op) && WellFormed(ApplyBt(s, op))
    ensures Outside(ApplyBt(s, op), s.main.j)
  {
    if Claimant(s.callback) { ClaimKeepsOutside(s, op); } else { RestKeepsOutside(s, op); }
  }

  lemma ClaimKeepsCrowded(s: State, op: CallbackOp)
    requires Shut(s) && CanBt(s, op) && Claimant(s.callback) && WellFormed(ApplyBt(s, op))
    ensures Crowded(ApplyBt(s, op), s.main.j)
  {
    if s.callback.Scanning? { ScanStaysBelow(s, s.main.j); }
  }

  lemma RestKeepsCrowded(s: State, op: CallbackOp)
    requires Shut(s) && CanBt(s, op) && !Claimant(s.callback) && WellFormed(ApplyBt(s, op))
    ensures Crowded(ApplyBt(s, op), s.main.j)
  {
  }

  lemma BtKeepsCrowded(s: State, op: CallbackOp)
    requires Shut(s) && CanBt(s, op) && WellFormed(ApplyBt(s, op))
    ensures Crowded(ApplyBt(s, op), s.main.j)
  {
    if Claimant(s.callback) { ClaimKeepsCrowded(s, op); } else { RestKeepsCrowded(s, op); }
  }

  lemma BtKeepsMainHasIt(s: State, op: CallbackOp)
    requires Shut(s) && CanBt(s, op) && WellFormed(ApplyBt(s, op))
    ensures MainHasIt(ApplyBt(s, op)) && ApplyBt(s, op).main == s.main && ApplyBt(s, op).executed == s.executed
  {
    if s.callback.Scanning? { ScanStaysBelow(s, s.main.j); }
  }

  lemma BtKeepsShut(s: State, op: CallbackOp)
    requires Shut(s) && CanBt(s, op)
    ensures Shut(ApplyBt(s, op)) && ApplyBt(s, op).executed == s.executed
  {
    BtKeepsForm(s, op);
    BtKeepsSlots(s, op, 0); BtKeepsSlots(s, op, 1); BtKeepsSlots(s, op, 2); BtKeepsSlots(s, op, 3);
    BtKeepsLocks(s, op, 0); BtKeepsLocks(s, op, 1); BtKeepsLocks(s, op, 2); BtKeepsLocks(s, op, 3);
    BtKeepsCallback(s, op);
    BtKeepsOutside(s, op);
    BtKeepsCrowded(s, op);
    BtKeepsMainHasIt(s, op);
  }

  /** The frames executed since are all current. */
  predicate NothingStale(s: State, s': State) {
    && |s.executed| <= |s'.executed|
    && forall k :: |s.executed| <= k < |s'.executed| ==> AllIn(s'.executed[k].stamps, s'.executed[k].checked, s'.executed[k].checked)
  }

  predicate OnlyMainMoves(s: State, s': State)
    requires WellFormed(s) && WellFormed(s')
  {
    && s'.callback == s.callback && s'.active == s.active && s'.queue == s.queue
    && forall k :: 0 <= k < SLOT_COUNT ==> s'.slots[k].(locked := s.slots[k].locked) == s.slots[k]
  }

  lemma SameOutside(s: State, s': State, j: nat)
    requires WellFormed(s) && WellFormed(s') && OnlyMainMoves(s, s') && Outside(s, j) && Crowded(s, j) && CallbackOk(s)
    ensures Outside(s', j) && Crowded(s', j) && CallbackOk(s')
  {
    assert forall k :: 0 <= k < SLOT_COUNT ==> s'.slots[k].phase == s.slots[k].phase && s'.slots[k].stamps == s.slots[k].stamps;
  }

  lemma LiveLoopMovesMain(s: State, op: MainOp)
    requires Shut(s) && CanLoop(s, op) && WellFormed(ApplyLoop(s, op)) && Live(ApplyLoop(s, op).main)
    ensures var s' := ApplyLoop(s, op);
            OnlyMainMoves(s, s') && s'.main.j == s.main.j && MainHasIt(s') && s'.executed == s.executed
  {
    assert op.LoadConn? || op.LoadEpoch? || op.Compare? || op.LockExec?;
  }

  lemma ShutExecutesCurrent(s: State, op: MainOp)
    requires Shut(s) && CanLoop(s, op)
    ensures NothingStale(s, ApplyLoop(s, op))
  {
  }

  lemma LoopKeepsShut(s: State, op: MainOp)
    requires Shut(s) && CanLoop(s, op) && op != Take
    ensures var s' := ApplyLoop(s, op);
            WellFormed(s') && NothingStale(s, s') && (Live(s'.main) ==> Shut(s'))
  {
    var s' := ApplyLoop(s, op);
    LoopKeepsForm(s, op);
    ShutExecutesCurrent(s, op);
    if Live(s'.main) {
      LoopKeepsSlots(s, op, 0); LoopKeepsSlots(s, op, 1); LoopKeepsSlots(s, op, 2); LoopKeepsSlots(s, op, 3);
      LoopKeepsLocks(s, op, 0); LoopKeepsLocks(s, op, 1); LoopKeepsLocks(s, op, 2); LoopKeepsLocks(s, op, 3);
      LiveLoopMovesMain(s, op);
      SameOutside(s, s', s.main.j);
    }
  }

  lemma CrowdedDangerIsShut(s: State)
    requires Inv(s) && Danger(s) && !Room(s)
    ensures Shut(s)
  {
  }

  lemma BtStaysCalm(s: State, op: CallbackOp)
    requires WellFormed(s) && CallbackOk(s) && MainOk(s) && !Danger(s) && CanBt(s, op) && op != EnqueueFails
    requires WellFormed(ApplyBt(s, op))
    ensures !Danger(ApplyBt(s, op))
  {
  }

  lemma LoopStaysCalm(s: State, op: MainOp)
    requires WellFormed(s) && !Danger(s) && CanLoop(s, op) && op != Take && WellFormed(ApplyLoop(s, op))
    ensures !Danger(ApplyLoop(s, op))
  {
  }

  /** A plain step does not lead into danger. */
  lemma PlainStaysCalm(s: State, step: Step)
    requires Inv(s) && !Danger(s) && Enabled(s, step) && Plain(step) && WellFormed(Apply(s, step))
    ensures !Danger(Apply(s, step))
  {
    match step
    case Bt(op) => BtStaysCalm(s, op);
    case Loop(op) => LoopStaysCalm(s, op);
  }

  /** From here no frame can be executed that is not current, for one of three reasons. */
  predicate Fine(s: State) { (Inv(s) && !Danger(s)) || Shut(s) || (WellFormed(s) && !Live(s.main)) }

  lemma CalmStepIsFine(s: State, step: Step)
    requires Inv(s) && !Danger(s) && Enabled(s, step) && Plain(step)
    ensures Fine(Apply(s, step)) && NothingStale(s, Apply(s, step))
  {
    StepKeepsInv(s, step);
    PlainStaysCalm(s, step);
    ExecutedGrows(s, Apply(s, step), step);
    AllCurrent(s, Apply(s, step));
  }

  lemma AllCurrent(s: State, s': State)
    requires ExecutedOk(s') && s.executed <= s'.executed
    ensures NothingStale(s, s')
  {
  }

  lemma IdleStepIsFine(s: State, step: Step)
    requires WellFormed(s) && !Live(s.main) && Enabled(s, step) && Plain(step)
    ensures WellFormed(Apply(s, step)) && !Live(Apply(s, step).main) && Apply(s, step).executed == s.executed
  {
    match step
    case Bt(op) => BtKeepsForm(s, op);
    case Loop(op) => LoopKeepsForm(s, op);
  }

  lemma FineStep(s: State, step: Step)
    requires Fine(s) && Enabled(s, step) && Plain(step)
    ensures Fine(Apply(s, step)) && NothingStale(s, Apply(s, step))
  {
    if Inv(s) && !Danger(s) {
      CalmStepIsFine(s, step);
    } else if Shut(s) {
      match step {
        case Bt(op) => BtKeepsShut(s, op);
        case Loop(op) => LoopKeepsShut(s, op);
      }
    } else {
      IdleStepIsFine(s, step);
    }
  }

  lemma {:induction false} FineRun(s: State, steps: seq<Step>, s': State)
    requires Fine(s) && PlainRuns(s, steps, s')
    ensures NothingStale(s, s')
    decreases |steps|
  {
    if steps != [] {
      FineStep(s, steps[0]);
      FineRun(Apply(s, steps[0]), steps[1..], s');
      ExecutedGrows(s, Apply(s, steps[0]), steps[0]);
      StaleTransitive(s, Apply(s, steps[0]), s', steps[1..]);
    }
  }

  lemma ExecutedGrows(s: State, s': State, step: Step)
    requires WellFormed(s) && Enabled(s, step) && s' == Apply(s, step)
    ensures s.executed <= s'.executed
  {
    match step
    case Bt(op) => BtExecutesNothing(s, op);
    case Loop(op) => if !op.Execute? { OthersExecuteNothing(s, op); }
  }

  lemma BtExecutesNothing(s: State, op: CallbackOp)
    requires WellFormed(s) && CanBt(s, op)
    ensures ApplyBt(s, op).executed == s.executed
  {
  }

  lemma OthersExecuteNothing(s: State, op: MainOp)
    requires WellFormed(s) && CanLoop(s, op) && !op.Execute?
    ensures ApplyLoop(s, op).executed == s.executed
  {
  }

  lemma {:induction false} ExecutedOnlyGrows(s: State, steps: seq<Step>, s': State)
    requires PlainRuns(s, steps, s')
    ensures s.executed <= s'.executed
    decreases |steps|
  {
    if steps != [] {
      ExecutedGrows(s, Apply(s, steps[0]), steps[0]);
      ExecutedOnlyGrows(Apply(s, steps[0]), steps[1..], s');
    }
  }

  lemma StaleTransitive(a: State, b: State, c: State, steps: seq<Step>)
    requires NothingStale(a, b) && NothingStale(b, c) && PlainRuns(b, steps, c)
    ensures NothingStale(a, c)
  {
    ExecutedOnlyGrows(b, steps, c);
    forall k | |a.executed| <= k < |c.executed|
      ensures AllIn(c.executed[k].stamps, c.executed[k].checked, c.executed[k].checked)
    {
      if k < |b.executed| { assert c.executed[k] == b.executed[k]; }
    }
  }
}
