/**
  The continuation by which a slot given back too early ends in a stale frame: with room in the
  request queue the callback fills the free slots below it, claims it again, and goes on writing
  to it over a reconnection, while the main loop goes on with its checks.
*/
module BleSchedules {
  import opened BleContinuations
  import opened BleEpochs
  import opened Options

  ghost predicate Can(s: State, s': State) { exists steps :: PlainRuns(s, steps, s') }

  lemma CanStay(s: State)
    ensures Can(s, s)
  {
    assert PlainRuns(s, [], s);
  }

  lemma {:induction false} OneMore(s: State, steps: seq<Step>, m: State, step: Step)
    requires PlainRuns(s, steps, m) && WellFormed(m) && Enabled(m, step) && Plain(step)
    ensures PlainRuns(s, steps + [step], Apply(m, step))
    decreases |steps|
  {
    var all := steps + [step];
    if steps == [] {
      assert all == [step] && all[1..] == [];
    } else {
      OneMore(Apply(s, steps[0]), steps[1..], m, step);
      assert all[0] == steps[0] && all[1..] == steps[1..] + [step];
    }
  }

  lemma ThenBt(s0: State, s: State, op: CallbackOp, s': State)
    requires Can(s0, s) && WellFormed(s) && CanBt(s, op) && op != EnqueueFails && s' == ApplyBt(s, op)
    ensures Can(s0, s')
  {
    var steps :| PlainRuns(s0, steps, s);
    OneMore(s0, steps, s, Bt(op));
  }

  lemma ThenLoop(s0: State, s: State, op: MainOp, s': State)
    requires Can(s0, s) && WellFormed(s) && CanLoop(s, op) && op != Take && s' == ApplyLoop(s, op)
    ensures Can(s0, s')
  {
    var steps :| PlainRuns(s0, steps, s);
    OneMore(s0, steps, s, Loop(op));
  }

  lemma Twice(slots: seq<Slot>, k: nat, x: Slot, y: Slot)
    requires k < |slots|
    ensures slots[k := x][k := y] == slots[k := y]
  {
  }

  /** The callback has nothing in hand and no slot is active. */
  predicate Open(s: State) { WellFormed(s) && s.callback.Quiet? && s.active.None? }

  predicate FirstFree(s: State, k: nat) {
    && WellFormed(s) && k < SLOT_COUNT && s.slots[k].phase.Free? && !s.slots[k].locked
    && forall i :: 0 <= i < k ==> !s.slots[i].phase.Free?
  }

  lemma {:induction false} ScansTo(s0: State, s: State, c: nat, k: nat)
    requires Can(s0, s) && Open(s) && c != NO_CONN && k < SLOT_COUNT && forall i :: 0 <= i < k ==> !s.slots[i].phase.Free?
    ensures Can(s0, s.(callback := Scanning(c, k)))
  {
    if k == 0 {
      ThenBt(s0, s, Write(c), s.(callback := Writing(c)));
      ThenBt(s0, s.(callback := Writing(c)), LoadActive, s.(callback := Scanning(c, 0)));
    } else {
      ScansTo(s0, s, c, k - 1);
      ThenBt(s0, s.(callback := Scanning(c, k - 1)), Claim, s.(callback := Scanning(c, k)));
    }
  }

  /** Slot `k` newly claimed. */
  function Claimed(s: State, c: nat, k: nat): State
    requires k < |s.slots|
  {
    s.(slots := s.slots[k := Slot(Assembling, [], false, c, s.epoch, s.frames + 1)], frames := s.frames + 1)
  }

  function Marked(s: State, k: nat): Slot
    requires k < |s.slots|
  {
    s.slots[k].(phase := Assembling, frame := s.frames + 1)
  }

  lemma MarksFree(s0: State, s: State, c: nat, k: nat)
    requires Can(s0, s) && WellFormed(s) && s.callback == Scanning(c, k) && k < SLOT_COUNT && s.slots[k].phase.Free?
    ensures Can(s0, s.(slots := s.slots[k := Marked(s, k)], frames := s.frames + 1, callback := Claiming(c, k)))
  {
    ThenBt(s0, s, Claim, s.(slots := s.slots[k := Marked(s, k)], frames := s.frames + 1, callback := Claiming(c, k)));
  }

  lemma Marks(s0: State, s: State, c: nat, k: nat)
    requires Can(s0, s) && Open(s) && c != NO_CONN && FirstFree(s, k)
    ensures Can(s0, s.(slots := s.slots[k := Marked(s, k)], frames := s.frames + 1, callback := Claiming(c, k)))
  {
    ScansTo(s0, s, c, k);
    MarksFree(s0, s.(callback := Scanning(c, k)), c, k);
  }

  lemma Stamps(s0: State, s: State, c: nat, k: nat)
    requires Can(s0, s) && WellFormed(s) && s.callback == Claiming(c, k) && !s.slots[k].locked && s.slots[k].phase.Assembling?
    ensures Can(s0, s.(slots := s.slots[k := Slot(Assembling, [], false, c, s.epoch, s.slots[k].frame)], callback := Stamped(k)))
  {
    var x, y := s.slots[k].(stamps := []), s.slots[k].(stamps := [], conn := c);
    var z := Slot(Assembling, [], false, c, s.epoch, s.slots[k].frame);
    Twice(s.slots, k, x, y);
    Twice(s.slots, k, y, z);
    ThenBt(s0, s, ClearClaim, s.(slots := s.slots[k := x], callback := Cleared(c, k)));
    ThenBt(s0, s.(slots := s.slots[k := x], callback := Cleared(c, k)), StoreConn, s.(slots := s.slots[k := y], callback := Owned(k)));
    ThenBt(s0, s.(slots := s.slots[k := y], callback := Owned(k)), StoreEpoch, s.(slots := s.slots[k := z], callback := Stamped(k)));
  }

  lemma Claims(s0: State, s: State, c: nat, k: nat)
    requires Can(s0, s) && Open(s) && c != NO_CONN && FirstFree(s, k)
    ensures Can(s0, Claimed(s, c, k).(callback := Stamped(k)))
  {
    Marks(s0, s, c, k);
    var a := s.(slots := s.slots[k := Marked(s, k)], frames := s.frames + 1, callback := Claiming(c, k));
    Stamps(s0, a, c, k);
    Twice(s.slots, k, Marked(s, k), Slot(Assembling, [], false, c, s.epoch, s.frames + 1));
  }

  function More(slot: Slot, epoch: nat): Slot { slot.(stamps := slot.stamps + [epoch]) }

  /** Bytes written to the chosen slot. */
  lemma Appends(s0: State, s: State, k: nat, whole: bool)
    requires Can(s0, s) && WellFormed(s) && s.callback == Chosen(k) && !s.slots[k].locked
    ensures Can(s0, s.(slots := s.slots[k := More(s.slots[k], s.epoch)], callback := if whole then Closing(k, true) else Quiet))
  {
    var x, y := s.slots[k].(locked := true), More(s.slots[k], s.epoch);
    Twice(s.slots, k, x, y);
    var a := s.(slots := s.slots[k := x], callback := Appending(k));
    ThenBt(s0, s, LockFrame, a);
    ThenBt(s0, a, Append(if whole then Complete else Partial), s.(slots := s.slots[k := y], callback := if whole then Closing(k, true) else Quiet));
  }

  lemma Activates(s0: State, s: State, c: nat, k: nat)
    requires Can(s0, s) && Open(s) && c != NO_CONN && FirstFree(s, k)
    ensures Can(s0, Claimed(s, c, k).(active := Some(k), callback := Chosen(k)))
  {
    Claims(s0, s, c, k);
    ThenBt(s0, Claimed(s, c, k).(callback := Stamped(k)), StoreActive, Claimed(s, c, k).(active := Some(k), callback := Chosen(k)));
  }

  /** A first write with bytes in slot `k`. */
  lemma FirstWrite(s0: State, s: State, c: nat, k: nat, whole: bool)
    requires Can(s0, s) && Open(s) && c != NO_CONN && FirstFree(s, k)
    ensures Can(s0, s.(slots := s.slots[k := Slot(Assembling, [s.epoch], false, c, s.epoch, s.frames + 1)],
                       frames := s.frames + 1, active := Some(k), callback := if whole then Closing(k, true) else Quiet))
  {
    Activates(s0, s, c, k);
    var b := Claimed(s, c, k).(active := Some(k), callback := Chosen(k));
    Appends(s0, b, k, whole);
    assert [] + [s.epoch] == [s.epoch];
    Twice(s.slots, k, b.slots[k], More(b.slots[k], s.epoch));
  }

  /** A write of one whole frame, up to the point where it is to be queued. */
  function Offered(s: State, c: nat, k: nat): State
    requires k < |s.slots|
  {
    s.(slots := s.slots[k := Slot(Ready, [s.epoch], false, c, s.epoch, s.frames + 1)],
       frames := s.frames + 1, active := None, callback := Queueing(k))
  }

  lemma Readies(s0: State, s: State, k: nat)
    requires Can(s0, s) && WellFormed(s) && s.callback == Closing(k, true)
    ensures Can(s0, s.(slots := s.slots[k := s.slots[k].(phase := Ready)], active := None, callback := Queueing(k)))
  {
    ThenBt(s0, s, Close, s.(active := None, callback := Finishing(k)));
    ThenBt(s0, s.(active := None, callback := Finishing(k)), MarkReady,
           s.(slots := s.slots[k := s.slots[k].(phase := Ready)], active := None, callback := Queueing(k)));
  }

  lemma Offers(s0: State, s: State, c: nat, k: nat)
    requires Can(s0, s) && Open(s) && c != NO_CONN && FirstFree(s, k)
    ensures Can(s0, Offered(s, c, k))
  {
    FirstWrite(s0, s, c, k, true);
    var x := Slot(Assembling, [s.epoch], false, c, s.epoch, s.frames + 1);
    Readies(s0, s.(slots := s.slots[k := x], frames := s.frames + 1, active := Some(k), callback := Closing(k, true)), k);
    Twice(s.slots, k, x, x.(phase := Ready));
  }

  lemma Queues(s0: State, s: State, k: nat)
    requires Can(s0, s) && WellFormed(s) && s.callback == Queueing(k) && |s.queue| < QUEUE_MAX
    ensures Can(s0, s.(queue := s.queue + [Entry(k, s.slots[k].frame)], callback := Quiet))
  {
    ThenBt(s0, s, Enqueue, s.(queue := s.queue + [Entry(k, s.slots[k].frame)], callback := Quiet));
  }

  lemma Loses(s0: State, s: State)
    requires Can(s0, s) && WellFormed(s) && s.callback.Quiet?
    ensures Can(s0, s.(conn := NO_CONN, epoch := s.epoch + 1, dirty := true))
  {
    var a := s.(conn := NO_CONN, callback := Disconnecting);
    var b := s.(conn := NO_CONN, epoch := s.epoch + 1, callback := Leaving);
    ThenBt(s0, s, Disconnect, a);
    ThenBt(s0, a, EpochUp, b);
    ThenBt(s0, b, SetDirty, s.(conn := NO_CONN, epoch := s.epoch + 1, dirty := true));
  }

  /** Lost and made again. */
  lemma Reconnects(s0: State, s: State, c: nat)
    requires Can(s0, s) && WellFormed(s) && s.callback.Quiet? && c != NO_CONN
    ensures Can(s0, s.(conn := c, epoch := s.epoch + 2, dirty := true))
  {
    Loses(s0, s);
    var a := s.(conn := NO_CONN, epoch := s.epoch + 1, dirty := true);
    var b := a.(epoch := s.epoch + 2, callback := Connecting(c));
    ThenBt(s0, a, Connect(c), b);
    ThenBt(s0, b, SetConn, s.(conn := c, epoch := s.epoch + 2, dirty := true));
  }

  /** What stays as it is while the callback fills slots below `j`. */
  predicate SameFrom(s: State, s': State, j: nat)
    requires WellFormed(s) && WellFormed(s')
  {
    && s'.epoch == s.epoch && s'.main == s.main && s'.executed == s.executed
    && forall k :: j <= k < SLOT_COUNT ==> s'.slots[k] == s.slots[k]
  }

  predicate Unlocked(s: State)
    requires WellFormed(s)
  {
    forall k :: 0 <= k < SLOT_COUNT ==> !s.slots[k].locked
  }

  predicate FullBelow(s: State, k: nat)
    requires WellFormed(s) && k <= SLOT_COUNT
  {
    forall i :: 0 <= i < k ==> !s.slots[i].phase.Free?
  }

  lemma FillsOne(s0: State, s: State, k: nat, j: nat) returns (s': State)
    requires Can(s0, s) && Open(s) && Unlocked(s) && k < j < SLOT_COUNT && FullBelow(s, k)
    requires FreeBelow(s, j) + |s.queue| <= QUEUE_MAX
    ensures Can(s0, s') && Open(s') && Unlocked(s') && FullBelow(s', k + 1) && SameFrom(s, s', k + 1)
    ensures FreeBelow(s', j) + |s'.queue| <= QUEUE_MAX
  {
    s' := s;
    if s.slots[k].phase.Free? {
      Offers(s0, s, 0, k);
      var o := Offered(s, 0, k);
      Queues(s0, o, k);
      s' := o.(queue := o.queue + [Entry(k, o.slots[k].frame)], callback := Quiet);
    }
  }

  lemma {:induction false} FillsBelow(s0: State, s: State, k: nat, j: nat) returns (s': State)
    requires Can(s0, s) && Open(s) && Unlocked(s) && k <= j < SLOT_COUNT && FullBelow(s, k)
    requires FreeBelow(s, j) + |s.queue| <= QUEUE_MAX
    ensures Can(s0, s') && Open(s') && Unlocked(s') && FullBelow(s', j) && SameFrom(s, s', j)
    decreases j - k
  {
    s' := s;
    if k < j {
      s' := FillsOne(s0, s, k, j);
      s' := FillsBelow(s0, s', k + 1, j);
    }
  }

  /** The main loop goes on to the end of its checks, which the new claim passes. */
  lemma FinishesChecks(s0: State, s: State, j: nat, c: nat) returns (e: nat)
    requires Can(s0, s) && WellFormed(s) && Works(s.main) && s.main.j == j && Checking(s.main, s.epoch)
    requires s.slots[j].epoch == s.epoch && s.slots[j].conn == c && (s.main.Taken? ==> s.main.current == c)
    ensures Can(s0, s.(main := Checked(j, e))) && (!s.main.Checked? ==> e == s.epoch)
  {
    var e0 := s.epoch;
    if s.main.Checked? {
      e := s.main.e;
      assert s.(main := Checked(j, e)) == s;
    } else {
      e := e0;
      if s.main.Taken? { ThenLoop(s0, s, LoadConn, s.(main := HasConn(j))); }
      if !s.main.HasEpoch? { ThenLoop(s0, s.(main := HasConn(j)), LoadEpoch, s.(main := HasEpoch(j, e0))); }
      ThenLoop(s0, s.(main := HasEpoch(j, e0)), Compare, s.(main := Checked(j, e0)));
    }
  }

  lemma Frees(s0: State, s: State, j: nat) returns (s': State)
    requires Can(s0, s) && WellFormed(s) && s.callback == Freeing(j) && s.active.None? && Unlocked(s)
    ensures Can(s0, s') && Open(s') && Unlocked(s') && s'.slots[j].phase.Free?
    ensures s' == s.(slots := s'.slots, callback := Quiet) && forall k :: 0 <= k < SLOT_COUNT && k != j ==> s'.slots[k] == s.slots[k]
  {
    s' := s.(slots := s.slots[j := s.slots[j].(conn := NO_CONN, phase := Free)], callback := Quiet);
    ThenBt(s0, s, DropFree, s');
  }

  lemma DangerIsUnlocked(s: State)
    requires Inv(s) && Danger(s)
    ensures Unlocked(s) && s.active.None?
  {
  }

  /** The callback finishes giving the slot back. */
  lemma FinishesDrop(s: State) returns (s': State)
    requires Inv(s) && Danger(s)
    ensures Can(s, s') && Open(s') && Unlocked(s') && s'.slots[s.main.j].phase.Free?
    ensures s' == s.(slots := s'.slots, callback := Quiet)
    ensures forall k :: 0 <= k < SLOT_COUNT && k != s.main.j ==> s'.slots[k] == s.slots[k]
  {
    DangerIsUnlocked(s);
    CanStay(s);
    var j := s.main.j;
    var a := s;
    if s.callback.Dropping? {
      a := s.(slots := s.slots[j := s.slots[j].(stamps := [])], callback := Freeing(j));
      ThenBt(s, s, DropClear, a);
    }
    s' := Frees(s, a, j);
  }

  /** Another write to the active slot. */
  lemma WritesMore(s0: State, s: State, j: nat)
    requires Can(s0, s) && WellFormed(s) && s.callback.Quiet? && s.active == Some(j) && !s.slots[j].locked
    ensures Can(s0, s.(slots := s.slots[j := More(s.slots[j], s.epoch)]))
  {
    ThenBt(s0, s, Write(0), s.(callback := Writing(0)));
    ThenBt(s0, s.(callback := Writing(0)), LoadActive, s.(callback := Chosen(j)));
    Appends(s0, s.(callback := Chosen(j)), j, false);
  }

  lemma Executes(s0: State, s: State, j: nat, e: nat)
    requires Can(s0, s) && WellFormed(s) && s.main == Checked(j, e) && !s.slots[j].locked
    ensures Can(s0, s.(main := Done(j), executed := s.executed + [Exec(e, s.slots[j].stamps)]))
  {
    var x := s.slots[j].(locked := true);
    Twice(s.slots, j, x, s.slots[j]);
    var d := s.(slots := s.slots[j := x], main := Executing(j, e));
    ThenLoop(s0, s, LockExec, d);
    ThenLoop(s0, d, Execute, s.(main := Done(j), executed := s.executed + [Exec(e, s.slots[j].stamps)]));
  }

  /** The last stretch: a reconnection, more bytes into the slot, and the frame is executed. */
  lemma ExecutesStale(s0: State, s: State, j: nat, e: nat) returns (s': State)
    requires Can(s0, s) && WellFormed(s) && s.callback.Quiet? && s.active == Some(j) && s.main == Checked(j, e)
    requires !s.slots[j].locked && s.slots[j].stamps == [s.epoch] && s.executed == s0.executed
    ensures Can(s0, s') && !NothingStale(s0, s')
  {
    Reconnects(s0, s, 0);
    var a := s.(conn := 0, epoch := s.epoch + 2, dirty := true);
    WritesMore(s0, a, j);
    var x := More(s.slots[j], a.epoch);
    var b := a.(slots := s.slots[j := x]);
    Executes(s0, b, j, e);
    s' := b.(main := Done(j), executed := s.executed + [Exec(e, x.stamps)]);
    assert x.stamps[0] == s.epoch && x.stamps[1] == s.epoch + 2;
    assert s'.executed[|s0.executed|] == Exec(e, x.stamps);
  }

  /** The slot given back is claimed again, for the connection the main loop will look for. */
  lemma ClaimsItAgain(s: State, c: nat) returns (d: State)
    requires Inv(s) && Danger(s) && Room(s) && c != NO_CONN
    ensures Can(s, d) && WellFormed(d) && d.callback.Quiet? && d.active == Some(s.main.j)
    ensures d.main == s.main && d.epoch == s.epoch && d.executed == s.executed
    ensures var slot := d.slots[s.main.j];
            !slot.locked && slot.stamps == [s.epoch] && slot.epoch == s.epoch && slot.conn == c
  {
    var j := s.main.j;
    var a := FinishesDrop(s);
    var b := FillsBelow(s, a, 0, j);
    FirstWrite(s, b, c, j, false);
    d := b.(slots := b.slots[j := Slot(Assembling, [b.epoch], false, c, b.epoch, b.frames + 1)],
            frames := b.frames + 1, active := Some(j), callback := Quiet);
  }

  lemma DangerWithRoomGoesWrong(s: State) returns (s': State)
    requires Inv(s) && Danger(s) && Room(s)
    ensures Can(s, s') && !NothingStale(s, s')
  {
    var c := if s.main.Taken? then s.main.current else 0;
    var d := ClaimsItAgain(s, c);
    var e := FinishesChecks(s, d, s.main.j, c);
    s' := ExecutesStale(s, d.(main := Checked(s.main.j, e)), s.main.j, e);
  }
}
