/**
  That a frame on the receive slots of `BleEpochs` comes to be executed, that the main loop
  leaves its slot free, and that frames of another connection are dropped.
*/
module BleProgress {
  import opened BleContinuations
  import opened BleEpochs
  import opened BleSchedules
  import opened Options

  /** The main loop lets go of its slot. */
  lemma LetsGo(s0: State, s: State, j: nat) returns (s': State)
    requires Can(s0, s) && WellFormed(s) && s.main == Done(j) && !s.slots[j].locked
    ensures Can(s0, s') && |s'.slots| == SLOT_COUNT && s' == s.(slots := s'.slots, main := Resting)
    ensures s'.slots[j].phase.Free? && s'.slots[j].stamps == [] && s'.slots[j].conn == NO_CONN
    ensures forall k :: 0 <= k < SLOT_COUNT && k != j ==> s'.slots[k] == s.slots[k]
  {
    var x := s.slots[j].(stamps := []);
    var a := s.(slots := s.slots[j := x], main := Freed(j));
    ThenLoop(s0, s, DoneClear, a);
    s' := a.(slots := a.slots[j := x.(conn := NO_CONN, phase := Free)], main := Resting);
    ThenLoop(s0, a, DoneFree, s');
  }

  /** A frame written whole is queued, and the main loop fetches its entry. */
  lemma IsFetched(s: State, c: nat, k: nat) returns (s': State)
    requires Open(s) && c != NO_CONN && FirstFree(s, k) && s.main.Resting? && s.queue == []
    ensures Can(s, s') && WellFormed(s') && CanLoop(s', Take) && s'.main == Got(k, c) && s'.queue == [] && s'.callback.Quiet?
    ensures s'.active.None? && s'.epoch == s.epoch && s'.executed == s.executed && s'.conn == s.conn
    ensures s'.slots == s.slots[k := Slot(Ready, [s.epoch], false, c, s.epoch, s.frames + 1)]
  {
    IsQueued(s, c, k);
    var b := Waiting(s, c, k);
    s' := b.(queue := [], main := Got(k, c), held := s.frames + 1);
    ThenLoop(s, b, Dequeue(c), s');
  }

  /** The frame's entry is in the queue. */
  function Waiting(s: State, c: nat, k: nat): State
    requires k < |s.slots|
  {
    Offered(s, c, k).(queue := [Entry(k, s.frames + 1)], callback := Quiet)
  }

  lemma IsQueued(s: State, c: nat, k: nat)
    requires Open(s) && c != NO_CONN && FirstFree(s, k) && s.queue == []
    ensures Can(s, Waiting(s, c, k))
  {
    CanStay(s);
    Offers(s, s, c, k);
    Queues(s, Offered(s, c, k), k);
    assert [] + [Entry(k, s.frames + 1)] == [Entry(k, s.frames + 1)];
  }

  /** Taken, checked, executed and let go. */
  lemma IsExecuted(s: State, j: nat, c: nat) returns (s': State)
    requires WellFormed(s) && s.main == Taken(j, c) && s.slots[j].conn == c && s.slots[j].epoch == s.epoch && !s.slots[j].locked
    ensures Can(s, s') && WellFormed(s') && s'.main.Resting? && s'.slots[j].phase.Free? && s'.queue == s.queue
    ensures s'.executed == s.executed + [Exec(s.epoch, s.slots[j].stamps)]
  {
    CanStay(s);
    var e := FinishesChecks(s, s, j, c);
    Executes(s, s.(main := Checked(j, e)), j, e);
    var d := s.(main := Done(j), executed := s.executed + [Exec(e, s.slots[j].stamps)]);
    s' := LetsGo(s, d, j);
  }

  /** A whole frame of the current connection that finds a slot free, an idle main loop and an empty
      queue is executed with the bytes of its epoch, and its slot is free again. */
  lemma FrameIsExecuted(s: State, c: nat, k: nat) returns (a: State, b: State, s': State)
    requires Open(s) && c != NO_CONN && FirstFree(s, k) && s.main.Resting? && s.queue == []
    ensures Can(s, a) && WellFormed(a) && CanLoop(a, Take) && b == ApplyLoop(a, Take) && Can(b, s')
    ensures s'.executed == s.executed + [Exec(s.epoch, [s.epoch])]
    ensures WellFormed(s') && s'.main.Resting? && s'.slots[k].phase.Free? && s'.queue == []
  {
    a := IsFetched(s, c, k);
    b := ApplyLoop(a, Take);
    s' := IsExecuted(b, k, c);
  }

  /** A frame of another connection than the current one, or of an earlier epoch, is not executed,
      and its slot is free again. */
  lemma StrangerIsDropped(s: State, j: nat) returns (s': State)
    requires WellFormed(s) && s.main.Taken? && s.main.j == j && !s.slots[j].locked
    requires s.slots[j].conn != s.main.current || s.slots[j].epoch != s.epoch
    ensures Can(s, s') && WellFormed(s') && s'.executed == s.executed && s'.main.Resting? && s'.slots[j].phase.Free?
  {
    CanStay(s);
    var d := s.(main := Done(j));
    if s.slots[j].conn != s.main.current {
      ThenLoop(s, s, LoadConn, d);
    } else {
      var e := s.slots[j].epoch;
      ThenLoop(s, s, LoadConn, s.(main := HasConn(j)));
      ThenLoop(s, s.(main := HasConn(j)), LoadEpoch, s.(main := HasEpoch(j, e)));
      ThenLoop(s, s.(main := HasEpoch(j, e)), Compare, d);
    }
    s' := LetsGo(s, d, j);
  }
}
