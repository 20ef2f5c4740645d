/**
  Whole runs on the receive slots of `BleEpochs`, with every step allowed: no stale frame is
  executed unless the callback at some moment gives back the slot that the main loop is checking
  while the request queue has room for a frame in every free slot below.
*/
module BleExposure {
  import opened BleContinuations
  import opened BleEpochs
  import opened Options

  predicate Exposed(s: State) { WellFormed(s) && Danger(s) && Room(s) }

  /** A run on which that moment has not come before its end. */
  ghost predicate GuardedRuns(s: State, steps: seq<Step>, s': State)
    decreases |steps|
  {
    if steps == [] then s' == s
    else WellFormed(s) && !Exposed(s) && Enabled(s, steps[0]) && GuardedRuns(Apply(s, steps[0]), steps[1..], s')
  }

  /** The invariant holds, or the callback cannot come back to the slot as long as the main loop
      has it. */
  predicate Kept(s: State) { Inv(s) || (Shut(s) && ExecutedOk(s)) }

  lemma ShutIsNotExposed(s: State)
    requires Shut(s)
    ensures !Exposed(s)
  {
  }

  lemma LeftCallbackOk(s: State, op: MainOp)
    requires Shut(s) && CanLoop(s, op) && WellFormed(ApplyLoop(s, op)) && !Live(ApplyLoop(s, op).main)
    ensures CallbackOk(ApplyLoop(s, op)) && MainOk(ApplyLoop(s, op))
  {
    assert op.LoadConn? || op.Compare? || op.LockExecFails? || op.Execute?;
  }

  lemma LeftExecutedOk(s: State, op: MainOp)
    requires WellFormed(s) && MainHasIt(s) && ExecutedOk(s) && CanLoop(s, op)
    ensures ExecutedOk(ApplyLoop(s, op))
  {
    if op.Execute? {
      var s', m := ApplyLoop(s, op), s.main;
      assert s'.executed == s.executed + [Exec(m.e, s.slots[m.j].stamps)];
    }
  }

  /** When the main loop lets go of the slot, all is in order again. */
  lemma LetsGoInOrder(s: State, op: MainOp)
    requires Shut(s) && ExecutedOk(s) && CanLoop(s, op)
    ensures WellFormed(ApplyLoop(s, op)) && (!Live(ApplyLoop(s, op).main) ==> Inv(ApplyLoop(s, op)))
    ensures ExecutedOk(ApplyLoop(s, op))
  {
    var s' := ApplyLoop(s, op);
    LoopKeepsForm(s, op);
    LeftExecutedOk(s, op);
    if !Live(s'.main) {
      LoopKeepsSlots(s, op, 0); LoopKeepsSlots(s, op, 1); LoopKeepsSlots(s, op, 2); LoopKeepsSlots(s, op, 3);
      LoopKeepsLocks(s, op, 0); LoopKeepsLocks(s, op, 1); LoopKeepsLocks(s, op, 2); LoopKeepsLocks(s, op, 3);
      LeftCallbackOk(s, op);
    }
  }

  lemma ShutStepIsKept(s: State, step: Step)
    requires Shut(s) && ExecutedOk(s) && Enabled(s, step)
    ensures Kept(Apply(s, step))
  {
    match step
    case Bt(op) => BtKeepsShut(s, op);
    case Loop(op) =>
      LetsGoInOrder(s, op);
      if Live(ApplyLoop(s, op).main) { LoopKeepsShut(s, op); }
  }

  lemma StepIsKept(s: State, step: Step)
    requires Kept(s) && !Exposed(s) && Enabled(s, step)
    ensures Kept(Apply(s, step))
  {
    if Inv(s) && !Danger(s) {
      StepKeepsInv(s, step);
    } else {
      if Inv(s) { CrowdedDangerIsShut(s); }
      ShutStepIsKept(s, step);
    }
  }

  lemma StepKeepsLedger(s: State, step: Step)
    requires Kept(s) && Ledger(s) && !Exposed(s) && Enabled(s, step)
    ensures Kept(Apply(s, step)) && Ledger(Apply(s, step))
  {
    StepIsKept(s, step);
    match step
    case Bt(op) => BtKeepsLedger(s, op);
    case Loop(op) => LoopKeepsLedger(s, op);
  }

  lemma {:induction false} GuardedRunIsKept(s: State, steps: seq<Step>, s': State)
    requires Kept(s) && Ledger(s) && GuardedRuns(s, steps, s')
    ensures Kept(s') && Ledger(s')
    decreases |steps|
  {
    if steps != [] {
      StepKeepsLedger(s, steps[0]);
      GuardedRunIsKept(Apply(s, steps[0]), steps[1..], s');
    }
  }

  lemma {:induction false} FirstExposure(s: State, steps: seq<Step>, s': State) returns (k: nat, m: State)
    requires Kept(s) && Runs(s, steps, s') && !ExecutedOk(s')
    ensures k <= |steps| && GuardedRuns(s, steps[..k], m) && Exposed(m) && Runs(m, steps[k..], s')
    decreases |steps|
  {
    if Exposed(s) {
      k, m := 0, s;
      assert steps[..0] == [] && steps[0..] == steps;
    } else {
      var rest: nat;
      StepIsKept(s, steps[0]);
      rest, m := FirstExposure(Apply(s, steps[0]), steps[1..], s');
      k := rest + 1;
      assert steps[..k][0] == steps[0] && steps[..k][1..] == steps[1..][..rest] && steps[k..] == steps[1..][rest..];
    }
  }

  /** On every run, whatever the main loop takes up and however often the callback is refused: if
      a frame was executed with bytes of another connection epoch than the one it was checked for,
      then that moment came before, and until then every executed frame was current. */
  lemma StaleNeedsExposure(steps: seq<Step>, s: State) returns (k: nat, m: State)
    requires Runs(Init(), steps, s) && !ExecutedOk(s)
    ensures k < |steps| && GuardedRuns(Init(), steps[..k], m) && Exposed(m) && Runs(m, steps[k..], s)
    ensures ExecutedOk(m) && m.held < m.slots[m.main.j].frame
  {
    k, m := FirstExposure(Init(), steps, s);
    GuardedRunIsKept(Init(), steps[..k], m);
  }
}
