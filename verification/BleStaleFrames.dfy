/**
  Exactly when a frame with bytes of another connection than the one it was checked for can be
  executed, and a run that ends so.
*/
module BleStaleFrames {
  import opened BleContinuations
  import opened BleEpochs
  import opened BleExposure
  import opened BleSchedules
  import opened Options

  /** At every moment up to the first exposure: what is under way can end in a stale frame being
      executed if and only if the exposure is now.  The main loop came to the slot through an entry
      of an earlier frame. */
  lemma StaleExactly(steps: seq<Step>, s: State)
    requires GuardedRuns(Init(), steps, s)
    ensures (exists s' :: Can(s, s') && !NothingStale(s, s')) <==> Exposed(s)
    ensures Exposed(s) ==> s.held < s.slots[s.main.j].frame
  {
    GuardedRunIsKept(Init(), steps, s);
    if Exposed(s) {
      var s' := DangerWithRoomGoesWrong(s);
    } else {
      OtherwiseNothingIsStale(s);
    }
  }

  lemma OtherwiseNothingIsStale(s: State)
    requires Kept(s) && !Exposed(s)
    ensures forall s' :: Can(s, s') ==> NothingStale(s, s')
  {
    if Inv(s) && Danger(s) { CrowdedDangerIsShut(s); }
    forall s' | Can(s, s') ensures NothingStale(s, s') {
      var steps :| PlainRuns(s, steps, s');
      FineRun(s, steps, s');
    }
  }

  // ---- That moment does come -------------------------------------------------------------------------------------

  lemma {:induction false} PlainRunIsCalm(s: State, steps: seq<Step>, s': State)
    requires Inv(s) && !Danger(s) && PlainRuns(s, steps, s')
    ensures CalmRuns(s, steps, s') && Inv(s') && !Danger(s')
    decreases |steps|
  {
    if steps != [] {
      StepKeepsInv(s, steps[0]);
      PlainStaysCalm(s, steps[0]);
      PlainRunIsCalm(Apply(s, steps[0]), steps[1..], s');
    }
  }

  lemma {:induction false} CalmIsGuarded(s: State, steps: seq<Step>, s': State)
    requires CalmRuns(s, steps, s')
    ensures GuardedRuns(s, steps, s')
    decreases |steps|
  {
    if steps != [] { CalmIsGuarded(Apply(s, steps[0]), steps[1..], s'); }
  }

  lemma {:induction false} OneMoreCalm(s: State, steps: seq<Step>, m: State, step: Step)
    requires CalmRuns(s, steps, m) && WellFormed(m) && !Danger(m) && Enabled(m, step)
    ensures CalmRuns(s, steps + [step], Apply(m, step))
    decreases |steps|
  {
    var all := steps + [step];
    if steps == [] {
      assert all == [step] && all[1..] == [];
    } else {
      OneMoreCalm(Apply(s, steps[0]), steps[1..], m, step);
      assert all[0] == steps[0] && all[1..] == steps[1..] + [step];
    }
  }

  function Wiped(slot: Slot): Slot { slot.(stamps := [], conn := NO_CONN, phase := Free) }

  lemma WipesBytes(s0: State, s: State, k: nat)
    requires Can(s0, s) && WellFormed(s) && s.main == Cleaning(k) && k < SLOT_COUNT && !s.slots[k].locked
    ensures Can(s0, s.(slots := s.slots[k := s.slots[k].(stamps := [])], main := CleanFreeing(k)))
  {
    ThenLoop(s0, s, CleanClear, s.(slots := s.slots[k := s.slots[k].(stamps := [])], main := CleanFreeing(k)));
  }

  lemma WipesRest(s0: State, s: State, k: nat)
    requires Can(s0, s) && WellFormed(s) && s.main == CleanFreeing(k)
    ensures Can(s0, s.(slots := s.slots[k := s.slots[k].(conn := NO_CONN, phase := Free)], main := Cleaning(k + 1)))
  {
    ThenLoop(s0, s, CleanFree, s.(slots := s.slots[k := s.slots[k].(conn := NO_CONN, phase := Free)], main := Cleaning(k + 1)));
  }

  lemma CleansSlot(s0: State, s: State, k: nat)
    requires Can(s0, s) && WellFormed(s) && s.main == Cleaning(k) && k < SLOT_COUNT && !s.slots[k].locked
    ensures Can(s0, s.(slots := s.slots[k := Wiped(s.slots[k])], main := Cleaning(k + 1)))
  {
    var x := s.slots[k].(stamps := []);
    WipesBytes(s0, s, k);
    WipesRest(s0, s.(slots := s.slots[k := x], main := CleanFreeing(k)), k);
    Twice(s.slots, k, x, Wiped(s.slots[k]));
  }

  lemma StartsCleaning(s0: State, s: State)
    requires Can(s0, s) && WellFormed(s) && s.main.Resting? && s.dirty && s.queue == []
    ensures Can(s0, s.(dirty := false, active := None, main := Cleaning(0)))
  {
    var a := s.(dirty := false, main := CleanActive);
    var b := s.(dirty := false, active := None, main := CleanQueue);
    ThenLoop(s0, s, StartClean, a);
    ThenLoop(s0, a, ClearActive, b);
    ThenLoop(s0, b, ClearEnd, s.(dirty := false, active := None, main := Cleaning(0)));
  }

  /** The clean-up after a disconnect frees every slot, also one whose frame waits to be queued. */
  lemma CleansUp(s0: State, s: State) returns (s': State)
    requires Can(s0, s) && WellFormed(s) && s.main.Resting? && s.dirty && s.queue == [] && Unlocked(s)
    ensures Can(s0, s') && WellFormed(s')
    ensures s' == s.(slots := [Wiped(s.slots[0]), Wiped(s.slots[1]), Wiped(s.slots[2]), Wiped(s.slots[3])],
                     dirty := false, active := None)
  {
    StartsCleaning(s0, s);
    s' := s.(dirty := false, active := None, main := Cleaning(0));
    for k := 0 to SLOT_COUNT
      invariant Can(s0, s') && WellFormed(s') && s'.main == Cleaning(k) && Unlocked(s')
      invariant s' == s.(slots := s'.slots, dirty := false, active := None, main := Cleaning(k))
      invariant forall i :: 0 <= i < SLOT_COUNT ==> s'.slots[i] == if i < k then Wiped(s.slots[i]) else s.slots[i]
    {
      CleansSlot(s0, s', k);
      s' := s'.(slots := s'.slots[k := Wiped(s'.slots[k])], main := Cleaning(k + 1));
    }
    ThenLoop(s0, s', CleanEnd, s'.(main := Resting));
    s' := s'.(main := Resting);
    assert s'.slots == [Wiped(s.slots[0]), Wiped(s.slots[1]), Wiped(s.slots[2]), Wiped(s.slots[3])];
  }

  /** A frame waits to be queued for slot 0, whose left-over entry is in the queue. */
  predicate BeforeDanger(s: State) {
    && Inv(s) && s.callback == Queueing(0) && s.main.Resting? && s.slots[0].phase.Ready?
    && s.queue == [Entry(0, 1)] && s.executed == []
  }

  /** Connected, and a frame complete in slot 0. */
  lemma CompletesFrame() returns (s: State)
    ensures Can(Init(), s) && WellFormed(s) && Unlocked(s) && s.callback == Queueing(0) && s.slots[0].frame == 1
    ensures s.main.Resting? && s.dirty && s.queue == [] && s.active.None? && s.executed == []
  {
    var i := Init();
    CanStay(i);
    Reconnects(i, i, 7);
    var a := i.(conn := 7, epoch := 2, dirty := true);
    Offers(i, a, 7, 0);
    s := Offered(a, 7, 0);
  }

  /** It is cleaned away by the main loop, and its entry queued all the same. */
  lemma LeavesStaleEntry() returns (s: State)
    ensures Can(Init(), s) && Open(s) && FirstFree(s, 0) && s.queue == [Entry(0, 1)] && s.main.Resting? && s.executed == []
  {
    var a := CompletesFrame();
    var b := CleansUp(Init(), a);
    Queues(Init(), b, 0);
    s := b.(queue := b.queue + [Entry(0, b.slots[0].frame)], callback := Quiet);
  }

  /** Then another frame complete in slot 0. */
  lemma ComesBeforeDanger() returns (s: State)
    ensures Can(Init(), s) && BeforeDanger(s)
  {
    var a := LeavesStaleEntry();
    Offers(Init(), a, 7, 0);
    s := Offered(a, 7, 0);
    var steps :| PlainRuns(Init(), steps, s);
    PlainRunIsCalm(Init(), steps, s);
  }

  /** The enqueue meets the main loop at the queue and is refused; the main loop gets the
      left-over entry. */
  lemma GetsStaleEntry(a: State) returns (b: State, d: State)
    requires BeforeDanger(a)
    ensures CanBt(a, EnqueueFails) && b == ApplyBt(a, EnqueueFails) && WellFormed(b)
    ensures CanLoop(b, Dequeue(7)) && d == ApplyLoop(b, Dequeue(7)) && WellFormed(d) && !Danger(a) && !Danger(b) && !Danger(d)
    ensures d.callback == Dropping(0) && d.main == Got(0, 7) && d.queue == [] && d.slots == a.slots && d.executed == []
  {
    b := ApplyBt(a, EnqueueFails);
    d := ApplyLoop(b, Dequeue(7));
  }

  lemma TakesNewFrame(d: State) returns (s: State)
    requires WellFormed(d) && d.callback == Dropping(0) && d.main == Got(0, 7) && d.queue == [] && d.slots[0].phase.Ready?
    ensures CanLoop(d, Take) && s == ApplyLoop(d, Take) && WellFormed(s) && Danger(s) && Room(s) && s.executed == d.executed
  {
    s := ApplyLoop(d, Take);
  }

  /** And it takes the new frame, which the callback is about to give back. */
  lemma DangerIsReached() returns (steps: seq<Step>, s: State)
    ensures GuardedRuns(Init(), steps, s) && Exposed(s) && s.executed == []
  {
    var a := ComesBeforeDanger();
    var first :| PlainRuns(Init(), first, a);
    PlainRunIsCalm(Init(), first, a);
    var b, d := GetsStaleEntry(a);
    s := TakesNewFrame(d);
    OneMoreCalm(Init(), first, a, Bt(EnqueueFails));
    OneMoreCalm(Init(), first + [Bt(EnqueueFails)], b, Loop(Dequeue(7)));
    OneMoreCalm(Init(), first + [Bt(EnqueueFails)] + [Loop(Dequeue(7))], d, Loop(Take));
    steps := first + [Bt(EnqueueFails)] + [Loop(Dequeue(7))] + [Loop(Take)];
    CalmIsGuarded(Init(), steps, s);
  }

  /** So with a refused enqueue a frame can be executed with bytes that are not of the connection
      it was checked for. */
  lemma RefusedFrameCanBeStale() returns (steps: seq<Step>, more: seq<Step>, m: State, s: State)
    ensures GuardedRuns(Init(), steps, m) && PlainRuns(m, more, s)
    ensures m.executed == [] && exists k :: 0 <= k < |s.executed| && !AllIn(s.executed[k].stamps, s.executed[k].checked, s.executed[k].checked)
  {
    steps, m := DangerIsReached();
    StaleExactly(steps, m);
    s :| Can(m, s) && !NothingStale(m, s);
    more :| PlainRuns(m, more, s);
    ExecutedOnlyGrows(m, more, s);
  }
}
