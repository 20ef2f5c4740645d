/**
  The same receive slots (src/ble_at/mod.rs) under their real concurrency: the Bluetooth
  callback fills and queues slots, connects and disconnects; the main loop processes queued
  slots, and clears all of them after a disconnect.  One atomic access is one step.

  Of a frame only the connection epochs at which its bytes arrived are kept, as `stamps`.  A
  `try_lock` fails exactly while the other side may hold the lock.  `executed`, `frames`, `held`
  and the frame numbers of slots and queue entries are history: `held` is the frame that the
  entry was queued for through which the main loop came to its slot.
*/
module BleEpochs {
  import opened Options

  const SLOT_COUNT := 4
  const QUEUE_MAX := 4
  const NO_CONN := 0xFFFF

  datatype Phase = Free | Assembling | Ready | Processing

  datatype Slot = Slot(phase: Phase, stamps: seq<nat>, locked: bool, conn: nat, epoch: nat, frame: nat)

  datatype Entry = Entry(slot: nat, frame: nat)

  /** Where the callback stands; `i` is the slot it works on, or looks at. */
  datatype Callback =
    | Quiet
    | Connecting(c: nat) | Disconnecting | Leaving
    | Writing(c: nat) | Scanning(c: nat, i: nat)
    | Claiming(c: nat, i: nat) | Cleared(c: nat, i: nat) | Owned(i: nat) | Stamped(i: nat)
    | Chosen(i: nat) | Appending(i: nat) | Closing(i: nat, good: bool)
    | Finishing(i: nat) | Queueing(i: nat)
    | Dropping(i: nat) | Freeing(i: nat)

  /** Where the main loop stands; `e` is the epoch it read from the slot, and checked it against. */
  datatype Main =
    | Resting
    | CleanActive | CleanQueue | Cleaning(k: nat) | CleanFreeing(k: nat)
    | Got(j: nat, current: nat) | Taken(j: nat, current: nat) | HasConn(j: nat) | HasEpoch(j: nat, e: nat)
    | Checked(j: nat, e: nat) | Executing(j: nat, e: nat)
    | Requeueing(j: nat) | Done(j: nat) | Freed(j: nat)

  datatype Exec = Exec(checked: nat, stamps: seq<nat>)

  datatype State = State(
    slots: seq<Slot>, active: Option<nat>, queue: seq<Entry>, epoch: nat, conn: nat, dirty: bool,
    callback: Callback, main: Main, executed: seq<Exec>, frames: nat, held: nat)

  datatype Result = Partial | Bad | Complete

  datatype CallbackOp =
    | Connect(c: nat) | SetConn | Disconnect | EpochUp | SetDirty
    | Write(c: nat) | LoadActive | Claim | GiveUp
    | ClearClaim | ClaimLockFails | StoreConn | StoreEpoch | StoreActive
    | LockFrame | LockFails | Append(result: Result) | Close
    | MarkReady | Enqueue | EnqueueFails | DropClear | DropFails | DropFree

  datatype MainOp =
    | StartClean | ClearActive | ClearOne | ClearEnd | CleanClear | CleanSkip | CleanFree | CleanEnd
    | Dequeue(current: nat) | Take | LoadConn | LoadEpoch | Compare | LockExec | LockExecFails
    | Requeue | RequeueFails | Execute | DoneClear | DoneFails | DoneFree

  datatype Step = Bt(bop: CallbackOp) | Loop(mop: MainOp)

  const EmptySlot := Slot(Free, [], false, NO_CONN, 0, 0)

  function Init(): State {
    State([EmptySlot, EmptySlot, EmptySlot, EmptySlot], None, [], 0, NO_CONN, false, Quiet, Resting, [], 0, 0)
  }

  /** The callback is working on slot `b.i`. */
  predicate Holds(b: Callback) {
    b.Claiming? || b.Cleared? || b.Owned? || b.Stamped? || b.Chosen? || b.Appending? || b.Closing? || b.Finishing?
    || b.Queueing? || b.Dropping? || b.Freeing?
  }

  predicate Works(m: Main) {
    m.Got? || m.Taken? || m.HasConn? || m.HasEpoch? || m.Checked? || m.Executing? || m.Requeueing? || m.Done? || m.Freed?
  }

  predicate Queued(q: seq<Entry>) { forall k :: 0 <= k < |q| ==> q[k].slot < SLOT_COUNT }

  predicate WellFormed(s: State) {
    && |s.slots| == SLOT_COUNT
    && (s.active.Some? ==> s.active.value < SLOT_COUNT)
    && Queued(s.queue)
    && (Holds(s.callback) ==> s.callback.i < SLOT_COUNT)
    && (s.callback.Scanning? ==> s.callback.i <= SLOT_COUNT)
    && (Works(s.main) ==> s.main.j < SLOT_COUNT)
    && (s.main.CleanFreeing? ==> s.main.k < SLOT_COUNT)
    && (s.main.Cleaning? ==> s.main.k <= SLOT_COUNT)
  }

  /** The main loop has the lock of slot `i`, or takes it in its next step. */
  predicate MainMayHold(s: State, i: nat)
    requires WellFormed(s) && i < SLOT_COUNT
  {
    s.slots[i].locked || (s.main.Cleaning? && s.main.k == i) || (s.main.Done? && s.main.j == i)
  }

  predicate CallbackMayHold(s: State, i: nat)
    requires WellFormed(s) && i < SLOT_COUNT
  {
    s.slots[i].locked || ((s.callback.Claiming? || s.callback.Dropping?) && s.callback.i == i)
  }

  predicate CanBt(s: State, op: CallbackOp)
    requires WellFormed(s)
  {
    var b := s.callback;
    match op
    case Connect(c) => b.Quiet? && c != NO_CONN
    case SetConn => b.Connecting?
    case Disconnect => b.Quiet?
    case EpochUp => b.Disconnecting?
    case SetDirty => b.Leaving?
    case Write(c) => b.Quiet? && c != NO_CONN
    case LoadActive => b.Writing?
    case Claim => b.Scanning? && b.i < SLOT_COUNT
    case GiveUp => b.Scanning? && b.i == SLOT_COUNT
    case ClearClaim => b.Claiming? && !s.slots[b.i].locked
    case ClaimLockFails => b.Claiming? && MainMayHold(s, b.i)
    case StoreConn => b.Cleared?
    case StoreEpoch => b.Owned?
    case StoreActive => b.Stamped?
    case LockFrame => b.Chosen? && !s.slots[b.i].locked
    case LockFails => b.Chosen? && MainMayHold(s, b.i)
    case Append(_) => b.Appending?
    case Close => b.Closing?
    case MarkReady => b.Finishing?
    case Enqueue => b.Queueing? && |s.queue| < QUEUE_MAX
    case EnqueueFails => b.Queueing? && (|s.queue| >= QUEUE_MAX || s.main.Resting? || s.main.CleanQueue? || s.main.Requeueing?)
    case DropClear => b.Dropping? && !s.slots[b.i].locked
    case DropFails => b.Dropping? && MainMayHold(s, b.i)
    case DropFree => b.Freeing?
  }

  predicate CanLoop(s: State, op: MainOp)
    requires WellFormed(s)
  {
    var m := s.main;
    match op
    case StartClean => m.Resting? && s.dirty
    case ClearActive => m.CleanActive?
    case ClearOne => m.CleanQueue? && s.queue != []
    case ClearEnd => m.CleanQueue? && (s.queue == [] || s.callback.Queueing?)
    case CleanClear => m.Cleaning? && m.k < SLOT_COUNT && !s.slots[m.k].locked
    case CleanSkip => m.Cleaning? && m.k < SLOT_COUNT && CallbackMayHold(s, m.k)
    case CleanFree => m.CleanFreeing?
    case CleanEnd => m.Cleaning? && m.k == SLOT_COUNT
    case Dequeue(current) => m.Resting? && s.queue != [] && current != NO_CONN
    case Take => m.Got?
    case LoadConn => m.Taken?
    case LoadEpoch => m.HasConn?
    case Compare => m.HasEpoch?
    case LockExec => m.Checked? && !s.slots[m.j].locked
    case LockExecFails => m.Checked? && CallbackMayHold(s, m.j)
    case Requeue => m.Requeueing? && |s.queue| < QUEUE_MAX
    case RequeueFails => m.Requeueing? && (|s.queue| >= QUEUE_MAX || s.callback.Queueing?)
    case Execute => m.Executing?
    case DoneClear => m.Done? && !s.slots[m.j].locked
    case DoneFails => m.Done? && CallbackMayHold(s, m.j)
    case DoneFree => m.Freed?
  }

  predicate Enabled(s: State, step: Step)
    requires WellFormed(s)
  {
    match step
    case Bt(op) => CanBt(s, op)
    case Loop(op) => CanLoop(s, op)
  }

  function Put(s: State, i: nat, slot: Slot): State
    requires i < |s.slots|
  {
    s.(slots := s.slots[i := slot])
  }

  function ApplyBt(s: State, op: CallbackOp): State
    requires WellFormed(s) && CanBt(s, op)
  {
    var b := s.callback;
    match op
    case Connect(c) => s.(epoch := s.epoch + 1, callback := Connecting(c))
    case SetConn => s.(conn := b.c, callback := Quiet)
    case Disconnect => s.(conn := NO_CONN, callback := Disconnecting)
    case EpochUp => s.(epoch := s.epoch + 1, callback := Leaving)
    case SetDirty => s.(dirty := true, callback := Quiet)
    case Write(c) => s.(callback := Writing(c))
    case LoadActive => s.(callback := if s.active.Some? then Chosen(s.active.value) else Scanning(b.c, 0))
    case Claim =>
      if s.slots[b.i].phase.Free? then
        Put(s, b.i, s.slots[b.i].(phase := Assembling, frame := s.frames + 1)).(
          frames := s.frames + 1, callback := Claiming(b.c, b.i))
      else s.(callback := Scanning(b.c, b.i + 1))
    case GiveUp => s.(callback := Quiet)
    case ClearClaim => Put(s, b.i, s.slots[b.i].(stamps := [])).(callback := Cleared(b.c, b.i))
    case ClaimLockFails => Put(s, b.i, s.slots[b.i].(phase := Free)).(callback := Scanning(b.c, b.i + 1))
    case StoreConn => Put(s, b.i, s.slots[b.i].(conn := b.c)).(callback := Owned(b.i))
    case StoreEpoch => Put(s, b.i, s.slots[b.i].(epoch := s.epoch)).(callback := Stamped(b.i))
    case StoreActive => s.(active := Some(b.i), callback := Chosen(b.i))
    case LockFrame => Put(s, b.i, s.slots[b.i].(locked := true)).(callback := Appending(b.i))
    case LockFails => s.(callback := Quiet)
    case Append(result) =>
      var slot := s.slots[b.i];
      Put(s, b.i, slot.(stamps := slot.stamps + [s.epoch], locked := false)).(
        callback := if result.Partial? then Quiet else Closing(b.i, result.Complete?))
    case Close => s.(active := None, callback := if b.good then Finishing(b.i) else Dropping(b.i))
    case MarkReady => Put(s, b.i, s.slots[b.i].(phase := Ready)).(callback := Queueing(b.i))
    case Enqueue => s.(queue := s.queue + [Entry(b.i, s.slots[b.i].frame)], callback := Quiet)
    case EnqueueFails => s.(callback := Dropping(b.i))
    case DropClear => Put(s, b.i, s.slots[b.i].(stamps := [])).(callback := Freeing(b.i))
    case DropFails => s.(callback := Quiet)
    case DropFree => Put(s, b.i, s.slots[b.i].(conn := NO_CONN, phase := Free)).(callback := Quiet)
  }

  function ApplyLoop(s: State, op: MainOp): State
    requires WellFormed(s) && CanLoop(s, op)
  {
    var m := s.main;
    match op
    case StartClean => s.(dirty := false, main := CleanActive)
    case ClearActive => s.(active := None, main := CleanQueue)
    case ClearOne => s.(queue := s.queue[1..])
    case ClearEnd => s.(main := Cleaning(0))
    case CleanClear => Put(s, m.k, s.slots[m.k].(stamps := [])).(main := CleanFreeing(m.k))
    case CleanSkip => s.(dirty := true, main := Cleaning(m.k + 1))
    case CleanFree => Put(s, m.k, s.slots[m.k].(conn := NO_CONN, phase := Free)).(main := Cleaning(m.k + 1))
    case CleanEnd => s.(main := Resting)
    case Dequeue(current) => s.(queue := s.queue[1..], main := Got(s.queue[0].slot, current), held := s.queue[0].frame)
    case Take =>
      if s.slots[m.j].phase.Ready? then Put(s, m.j, s.slots[m.j].(phase := Processing)).(main := Taken(m.j, m.current))
      else s.(main := Resting)
    case LoadConn => s.(main := if s.slots[m.j].conn == m.current then HasConn(m.j) else Done(m.j))
    case LoadEpoch => s.(main := HasEpoch(m.j, s.slots[m.j].epoch))
    case Compare => s.(main := if m.e == s.epoch then Checked(m.j, m.e) else Done(m.j))
    case LockExec => Put(s, m.j, s.slots[m.j].(locked := true)).(main := Executing(m.j, m.e))
    case LockExecFails => Put(s, m.j, s.slots[m.j].(phase := Ready)).(main := Requeueing(m.j))
    case Requeue => s.(queue := s.queue + [Entry(m.j, s.held)], main := Resting)
    case RequeueFails => s.(dirty := true, main := Resting)
    case Execute =>
      Put(s, m.j, s.slots[m.j].(locked := false)).(
        main := Done(m.j), executed := s.executed + [Exec(m.e, s.slots[m.j].stamps)])
    case DoneClear => Put(s, m.j, s.slots[m.j].(stamps := [])).(main := Freed(m.j))
    case DoneFails => s.(dirty := true, main := Resting)
    case DoneFree => Put(s, m.j, s.slots[m.j].(conn := NO_CONN, phase := Free)).(main := Resting)
  }

  function Apply(s: State, step: Step): State
    requires WellFormed(s) && Enabled(s, step)
  {
    match step
    case Bt(op) => ApplyBt(s, op)
    case Loop(op) => ApplyLoop(s, op)
  }

  ghost predicate Runs(s: State, steps: seq<Step>, s': State)
    decreases |steps|
  {
    if steps == [] then s' == s
    else WellFormed(s) && Enabled(s, steps[0]) && Runs(Apply(s, steps[0]), steps[1..], s')
  }

  // ---- The dangerous moment -----------------------------------------------------------------------------

  /** The main loop has taken slot `j`, has found nothing wrong with it, and has not locked it yet. */
  predicate Checking(m: Main, epoch: nat) {
    m.Taken? || m.HasConn? || (m.HasEpoch? && m.e == epoch) || m.Checked?
  }

  /** The callback is giving back the very slot that the main loop is checking: it does so after
      a refused enqueue without looking at the slot's phase. */
  predicate Danger(s: State)
    requires WellFormed(s)
  {
    (s.callback.Dropping? || s.callback.Freeing?) && Checking(s.main, s.epoch) && s.callback.i == s.main.j
  }

  /** A run on which that moment has not come before its end. */
  ghost predicate CalmRuns(s: State, steps: seq<Step>, s': State)
    decreases |steps|
  {
    if steps == [] then s' == s
    else WellFormed(s) && !Danger(s) && Enabled(s, steps[0]) && CalmRuns(Apply(s, steps[0]), steps[1..], s')
  }

  // ---- The invariant ------------------------------------------------------------------------------------

  predicate AllIn(stamps: seq<nat>, lo: nat, hi: nat) { forall k :: 0 <= k < |stamps| ==> lo <= stamps[k] <= hi }

  /** Bytes in a slot are no older than its epoch, and none is from the future. */
  predicate SlotOk(s: State, i: nat)
    requires WellFormed(s) && i < SLOT_COUNT
  {
    s.slots[i].epoch <= s.epoch && AllIn(s.slots[i].stamps, s.slots[i].epoch, s.epoch)
  }

  predicate SlotsOk(s: State)
    requires WellFormed(s)
  {
    SlotOk(s, 0) && SlotOk(s, 1) && SlotOk(s, 2) && SlotOk(s, 3)
  }

  predicate Filling(slot: Slot) { slot.phase.Assembling? || slot.phase.Free? }

  /** The slot the callback is filling is neither ready nor being processed, nor is the active
      slot. */
  predicate CallbackOk(s: State)
    requires WellFormed(s)
  {
    var b := s.callback;
    && (Holds(b) && !b.Queueing? && !b.Dropping? && !b.Freeing? ==> Filling(s.slots[b.i]))
    && (s.active.Some? ==> Filling(s.slots[s.active.value]))
    && (b.Cleared? || b.Owned? ==> s.slots[b.i].stamps == [])
    && (b.Scanning? || b.Claiming? || b.Cleared? || b.Owned? || b.Stamped? ==> s.active.None?)
    && (b.Finishing? || b.Queueing? || b.Dropping? || b.Freeing? ==> s.active.None?)
    && |s.queue| <= QUEUE_MAX
  }

  /** The slot the main loop checks or executes stays its own, and what it read stays true. */
  predicate MainOk(s: State)
    requires WellFormed(s)
  {
    var m := s.main;
    && (m.Got? || m.Taken? ==> m.current != NO_CONN)
    && (Checking(m, s.epoch) || m.Executing? ==> s.slots[m.j].phase.Processing?)
    && (m.HasEpoch? ==> m.e <= s.epoch && (m.e == s.epoch ==> s.slots[m.j].epoch == m.e))
    && (m.Checked? || m.Executing? ==> AllIn(s.slots[m.j].stamps, m.e, m.e))
    && (m.Executing? ==> s.callback != Freeing(m.j))
  }

  /** A lock is held by whoever is at work under it. */
  predicate LockOk(s: State, i: nat)
    requires WellFormed(s) && i < SLOT_COUNT
  {
    && (s.slots[i].locked <==> s.callback == Appending(i) || (s.main.Executing? && s.main.j == i))
    && !(s.callback == Appending(i) && s.main.Executing? && s.main.j == i)
  }

  predicate LocksOk(s: State)
    requires WellFormed(s)
  {
    LockOk(s, 0) && LockOk(s, 1) && LockOk(s, 2) && LockOk(s, 3)
  }

  predicate ExecutedOk(s: State) {
    forall k :: 0 <= k < |s.executed| ==> AllIn(s.executed[k].stamps, s.executed[k].checked, s.executed[k].checked)
  }

  predicate Inv(s: State) {
    WellFormed(s) && SlotsOk(s) && CallbackOk(s) && MainOk(s) && LocksOk(s) && ExecutedOk(s)
  }

  lemma BtKeepsForm(s: State, op: CallbackOp)
    requires WellFormed(s) && CanBt(s, op)
    ensures WellFormed(ApplyBt(s, op))
  {
  }

  lemma LoopKeepsForm(s: State, op: MainOp)
    requires WellFormed(s) && CanLoop(s, op)
    ensures WellFormed(ApplyLoop(s, op))
  {
  }

  lemma BtKeepsSlots(s: State, op: CallbackOp, i: nat)
    requires WellFormed(s) && i < SLOT_COUNT && SlotOk(s, i) && CallbackOk(s) && CanBt(s, op) && WellFormed(ApplyBt(s, op))
    ensures SlotOk(ApplyBt(s, op), i)
  {
  }

  lemma BtKeepsCallback(s: State, op: CallbackOp)
    requires WellFormed(s) && CallbackOk(s) && CanBt(s, op) && WellFormed(ApplyBt(s, op))
    ensures CallbackOk(ApplyBt(s, op))
  {
  }

  /** The callback is at the slot the main loop works on. */
  predicate Meet(s: State) { Holds(s.callback) && Works(s.main) && s.callback.i == s.main.j }

  lemma MeetingKeepsMain(s: State, op: CallbackOp)
    requires WellFormed(s) && CallbackOk(s) && MainOk(s) && LocksOk(s) && !Danger(s) && CanBt(s, op) && WellFormed(ApplyBt(s, op))
    requires Meet(s)
    ensures MainOk(ApplyBt(s, op))
  {
  }

  lemma ApartKeepsMain(s: State, op: CallbackOp)
    requires WellFormed(s) && CallbackOk(s) && MainOk(s) && CanBt(s, op) && WellFormed(ApplyBt(s, op))
    requires !Meet(s)
    ensures MainOk(ApplyBt(s, op))
  {
  }

  lemma BtKeepsMain(s: State, op: CallbackOp)
    requires WellFormed(s) && CallbackOk(s) && MainOk(s) && LocksOk(s) && !Danger(s) && CanBt(s, op) && WellFormed(ApplyBt(s, op))
    ensures MainOk(ApplyBt(s, op)) && ApplyBt(s, op).executed == s.executed
  {
    if Meet(s) { MeetingKeepsMain(s, op); } else { ApartKeepsMain(s, op); }
  }

  lemma BtKeepsLocks(s: State, op: CallbackOp, i: nat)
    requires WellFormed(s) && i < SLOT_COUNT && LockOk(s, i) && CanBt(s, op) && WellFormed(ApplyBt(s, op))
    ensures LockOk(ApplyBt(s, op), i)
  {
  }

  lemma LoopKeepsSlots(s: State, op: MainOp, i: nat)
    requires WellFormed(s) && i < SLOT_COUNT && SlotOk(s, i) && CanLoop(s, op) && WellFormed(ApplyLoop(s, op))
    ensures SlotOk(ApplyLoop(s, op), i)
  {
  }

  lemma LoopKeepsCallback(s: State, op: MainOp)
    requires WellFormed(s) && CallbackOk(s) && MainOk(s) && CanLoop(s, op) && WellFormed(ApplyLoop(s, op))
    ensures CallbackOk(ApplyLoop(s, op))
  {
  }

  lemma LoopKeepsMain(s: State, op: MainOp)
    requires WellFormed(s) && SlotsOk(s) && MainOk(s) && !Danger(s) && CanLoop(s, op) && WellFormed(ApplyLoop(s, op))
    ensures MainOk(ApplyLoop(s, op))
  {
  }

  lemma LoopKeepsExecuted(s: State, op: MainOp)
    requires WellFormed(s) && MainOk(s) && ExecutedOk(s) && CanLoop(s, op)
    ensures ExecutedOk(ApplyLoop(s, op))
  {
  }

  lemma LoopKeepsLocks(s: State, op: MainOp, i: nat)
    requires WellFormed(s) && i < SLOT_COUNT && LockOk(s, i) && CanLoop(s, op) && WellFormed(ApplyLoop(s, op))
    ensures LockOk(ApplyLoop(s, op), i)
  {
  }

  lemma StepKeepsInv(s: State, step: Step)
    requires Inv(s) && !Danger(s) && Enabled(s, step)
    ensures Inv(Apply(s, step))
  {
    match step
    case Bt(op) =>
      BtKeepsForm(s, op);
      BtKeepsSlots(s, op, 0); BtKeepsSlots(s, op, 1); BtKeepsSlots(s, op, 2); BtKeepsSlots(s, op, 3);
      BtKeepsCallback(s, op);
      BtKeepsMain(s, op);
      BtKeepsLocks(s, op, 0); BtKeepsLocks(s, op, 1); BtKeepsLocks(s, op, 2); BtKeepsLocks(s, op, 3);
    case Loop(op) =>
      LoopKeepsForm(s, op);
      LoopKeepsSlots(s, op, 0); LoopKeepsSlots(s, op, 1); LoopKeepsSlots(s, op, 2); LoopKeepsSlots(s, op, 3);
      LoopKeepsCallback(s, op);
      LoopKeepsMain(s, op);
      LoopKeepsExecuted(s, op);
      LoopKeepsLocks(s, op, 0); LoopKeepsLocks(s, op, 1); LoopKeepsLocks(s, op, 2); LoopKeepsLocks(s, op, 3);
  }

  lemma {:induction false} CalmRunKeepsInv(s: State, steps: seq<Step>, s': State)
    requires Inv(s) && CalmRuns(s, steps, s')
    ensures Inv(s')
    decreases |steps|
  {
    if steps != [] {
      StepKeepsInv(s, steps[0]);
      CalmRunKeepsInv(Apply(s, steps[0]), steps[1..], s');
    }
  }

  /** Until the callback gives back a slot that the main loop is checking, every executed frame
      consists of bytes received in the very connection epoch that was current when it was
      checked. */
  lemma ExecutedFramesAreCurrent(steps: seq<Step>, s: State, k: nat, b: nat)
    requires CalmRuns(Init(), steps, s) && k < |s.executed| && b < |s.executed[k].stamps|
    ensures s.executed[k].stamps[b] == s.executed[k].checked
  {
    CalmRunKeepsInv(Init(), steps, s);
  }

  // ---- Only a refused enqueue leads there ------------------------------------------------------------------

  /** What the callback gives back it was still filling. */
  predicate DropsFilling(s: State)
    requires WellFormed(s)
  {
    s.callback.Dropping? || s.callback.Freeing? ==> Filling(s.slots[s.callback.i])
  }

  lemma BtKeepsDrops(s: State, op: CallbackOp)
    requires WellFormed(s) && CallbackOk(s) && DropsFilling(s) && CanBt(s, op) && op != EnqueueFails && WellFormed(ApplyBt(s, op))
    ensures DropsFilling(ApplyBt(s, op))
  {
  }

  lemma LoopKeepsDrops(s: State, op: MainOp)
    requires WellFormed(s) && DropsFilling(s) && MainOk(s) && CanLoop(s, op) && WellFormed(ApplyLoop(s, op))
    ensures DropsFilling(ApplyLoop(s, op))
  {
  }

  lemma FillingIsCalm(s: State)
    requires WellFormed(s) && MainOk(s) && DropsFilling(s)
    ensures !Danger(s)
  {
  }

  lemma {:induction false} AcceptedRunIsCalm(s: State, steps: seq<Step>, s': State)
    requires Inv(s) && DropsFilling(s) && Runs(s, steps, s') && Bt(EnqueueFails) !in steps
    ensures CalmRuns(s, steps, s') && Inv(s') && DropsFilling(s')
    decreases |steps|
  {
    if steps != [] {
      assert steps[0] in steps;
      FillingIsCalm(s);
      StepKeepsInv(s, steps[0]);
      match steps[0] {
        case Bt(op) => BtKeepsForm(s, op); BtKeepsDrops(s, op);
        case Loop(op) => LoopKeepsForm(s, op); LoopKeepsDrops(s, op);
      }
      AcceptedRunIsCalm(Apply(s, steps[0]), steps[1..], s');
    }
  }

  /** On a run in which no completed frame is refused by the request queue that moment never
      comes. */
  lemma AcceptedIsHarmless(steps: seq<Step>, s: State)
    requires Runs(Init(), steps, s) && Bt(EnqueueFails) !in steps
    ensures CalmRuns(Init(), steps, s) && WellFormed(s) && !Danger(s)
  {
    AcceptedRunIsCalm(Init(), steps, s);
    FillingIsCalm(s);
  }

  // ---- The queue entry that leads there --------------------------------------------------------------------

  /** The frame now in slot `i` has not been queued yet. */
  predicate Unqueued(s: State, i: nat) { (Holds(s.callback) && s.callback.i == i) || s.active == Some(i) }

  /** What was queued for a slot was queued for the frame in it or an earlier one, and for an
      earlier one as long as that frame is not queued. */
  predicate EntryOk(s: State, e: Entry)
    requires WellFormed(s)
  {
    e.slot < SLOT_COUNT && e.frame <= s.slots[e.slot].frame && (Unqueued(s, e.slot) ==> e.frame < s.slots[e.slot].frame)
  }

  predicate Ledger(s: State)
    requires WellFormed(s)
  {
    && (forall k :: 0 <= k < SLOT_COUNT ==> s.slots[k].frame <= s.frames)
    && (forall k :: 0 <= k < |s.queue| ==> EntryOk(s, s.queue[k]))
    && (Works(s.main) ==> EntryOk(s, Entry(s.main.j, s.held)))
  }

  lemma BtKeepsEntry(s: State, op: CallbackOp, e: Entry)
    requires WellFormed(s) && CallbackOk(s) && CanBt(s, op) && WellFormed(ApplyBt(s, op))
    requires EntryOk(s, e) && s.slots[e.slot].frame <= s.frames
    ensures EntryOk(ApplyBt(s, op), e)
  {
  }

  lemma BtKeepsLedger(s: State, op: CallbackOp)
    requires WellFormed(s) && CallbackOk(s) && Ledger(s) && CanBt(s, op) && WellFormed(ApplyBt(s, op))
    ensures Ledger(ApplyBt(s, op))
  {
    var s' := ApplyBt(s, op);
    forall k | 0 <= k < |s'.queue| ensures EntryOk(s', s'.queue[k]) {
      if k < |s.queue| { BtKeepsEntry(s, op, s.queue[k]); }
    }
    if Works(s.main) { BtKeepsEntry(s, op, Entry(s.main.j, s.held)); }
  }

  lemma LoopKeepsEntry(s: State, op: MainOp, e: Entry)
    requires WellFormed(s) && CanLoop(s, op) && WellFormed(ApplyLoop(s, op)) && EntryOk(s, e)
    ensures EntryOk(ApplyLoop(s, op), e)
  {
  }

  lemma LoopKeepsLedger(s: State, op: MainOp)
    requires WellFormed(s) && Ledger(s) && CanLoop(s, op) && WellFormed(ApplyLoop(s, op))
    ensures Ledger(ApplyLoop(s, op))
  {
    var s' := ApplyLoop(s, op);
    forall e | e in s.queue ensures EntryOk(s', e) { LoopKeepsEntry(s, op, e); }
    if Works(s.main) { LoopKeepsEntry(s, op, Entry(s.main.j, s.held)); }
  }

  lemma {:induction false} CalmRunKeepsLedger(s: State, steps: seq<Step>, s': State)
    requires Inv(s) && Ledger(s) && CalmRuns(s, steps, s')
    ensures Inv(s') && Ledger(s')
    decreases |steps|
  {
    if steps != [] {
      StepKeepsInv(s, steps[0]);
      match steps[0] {
        case Bt(op) => BtKeepsLedger(s, op);
        case Loop(op) => LoopKeepsLedger(s, op);
      }
      CalmRunKeepsLedger(Apply(s, steps[0]), steps[1..], s');
    }
  }

  /** It is through an entry left over from an earlier frame in the slot that the main loop comes
      to a slot that the callback has not let go of. */
  lemma StaleEntryLeadsToDanger(steps: seq<Step>, s: State)
    requires CalmRuns(Init(), steps, s) && WellFormed(s) && Danger(s)
    ensures s.held < s.slots[s.main.j].frame
  {
    CalmRunKeepsLedger(Init(), steps, s);
  }
}
