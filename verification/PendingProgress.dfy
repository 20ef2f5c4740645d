/**
  When a save of `PendingSave` succeeds: a flush that runs alone and meets no fault, from whatever
  state with the locks free, and what a save that meets one leaves behind.
*/
module PendingProgress {
  import opened Options
  import opened PendingSave
  import opened Words

  // ---- One store under its lock ------------------------------------------------------------------------

  ghost predicate OpsLead(i: nat, st: Store, ops: seq<Op>, st': Store)
    decreases |ops|
  {
    if ops == [] then st' == st
    else OpEnabled(i, st, ops[0]) && OpsLead(i, ApplyOp(i, st, ops[0]), ops[1..], st')
  }

  predicate NoFault(op: Op) { !op.WriteFails? && !op.EncodeFails? }

  function Held(st: Store, h: Holder, phase: Phase): Store { st.(holder := Some(h.(phase := phase))) }

  lemma ThenOp(i: nat, st: Store, op: Op, rest: seq<Op>, st': Store)
    requires OpEnabled(i, st, op) && OpsLead(i, ApplyOp(i, st, op), rest, st')
    ensures OpsLead(i, st, [op] + rest, st')
  {
    assert ([op] + rest)[1..] == rest;
  }

  /** What a save without faults makes of its store. */
  function Saved(st: Store, saves: bool): Store { st.(dirty := {}, flash := if saves then st.ram else st.flash) }

  lemma Writes(i: nat, st: Store, h: Holder, took: set<Flag>)
    requires took != {} || (h.force && i != HOLDING)
    ensures OpsLead(i, Held(st, h, Taken(took)), [LoadGeneration, Capture, WriteOk, CheckGeneration],
                    Held(st.(flash := st.ram), h, Finished))
  {
    var p1 := HasGeneration(took, st.generation, st.bumps);
    var p2 := Captured(took, st.generation, st.bumps, st.ram);
    var p3 := Written(took, st.generation, st.bumps);
    var st3 := Held(st.(flash := st.ram), h, p3);
    assert [LoadGeneration, Capture, WriteOk, CheckGeneration][1..] == [Capture, WriteOk, CheckGeneration];
    assert [Capture, WriteOk, CheckGeneration][1..] == [WriteOk, CheckGeneration];
    assert [WriteOk, CheckGeneration][1..] == [CheckGeneration] && [CheckGeneration][1..] == [];
    assert ApplyOp(i, Held(st, h, Taken(took)), LoadGeneration) == Held(st, h, p1);
    assert ApplyOp(i, Held(st, h, p1), Capture) == Held(st, h, p2);
    assert ApplyOp(i, Held(st, h, p2), WriteOk) == st3;
    assert ApplyOp(i, st3, CheckGeneration) == Held(st.(flash := st.ram), h, Finished);
  }

  lemma Takes(i: nat, st: Store, h: Holder, rest: seq<Op>, st': Store)
    requires OpsLead(i, Held(st.(dirty := {}), h, Taken(st.dirty)), rest, st')
    ensures OpsLead(i, Held(st, h, Locked), [TakePrimary] + ([TakeLegacy] + rest), st')
  {
    var half := Held(st.(dirty := st.dirty - {Primary}), h, Half(st.dirty * {Primary}));
    forall f | f in st.dirty ensures f == Primary || f == Legacy { }
    assert st.dirty * {Primary} + (st.dirty - {Primary}) * {Legacy} == st.dirty;
    assert st.dirty - {Primary} - {Legacy} == {};
    assert ApplyOp(i, half, TakeLegacy) == Held(st.(dirty := {}), h, Taken(st.dirty));
    ThenOp(i, half, TakeLegacy, rest, st');
    ThenOp(i, Held(st, h, Locked), TakePrimary, [TakeLegacy] + rest, st');
  }

  /** Alone under its lock and without a fault, a save writes what is published if a flag was up, or
      if it was forced to, and leaves no flag up. */
  lemma SavesAlone(i: nat, st: Store, h: Holder) returns (ops: seq<Op>)
    requires h.phase.Locked?
    ensures (forall k :: 0 <= k < |ops| ==> NoFault(ops[k]))
    ensures OpsLead(i, st.(holder := Some(h)), ops,
                    Held(Saved(st, st.dirty != {} || (h.force && i != HOLDING)), h, Finished))
  {
    assert Held(st, h, Locked) == st.(holder := Some(h));
    if st.dirty != {} || (h.force && i != HOLDING) {
      ops := [LoadGeneration, Capture, WriteOk, CheckGeneration];
      Writes(i, st.(dirty := {}), h, st.dirty);
    } else {
      ops := [Skip];
      var clean := Held(st.(dirty := {}), h, Taken(st.dirty));
      assert [Skip][1..] == [];
      assert ApplyOp(i, clean, Skip) == Held(Saved(st, false), h, Finished);
    }
    Takes(i, st, h, ops, Held(Saved(st, st.dirty != {} || (h.force && i != HOLDING)), h, Finished));
    ops := [TakePrimary] + ([TakeLegacy] + ops);
  }

  // ---- The steps of one call alone ----------------------------------------------------------------------

  predicate IsBy(t: Tid, step: Step) {
    match step
    case Begin(u, _, _) => u == t
    case Acquire(u) => u == t
    case Under(_, op) => NoFault(op)
    case Release(_) => true
    case CheckDirty(u) => u == t
    case Return(u) => u == t
    case _ => false
  }

  ghost predicate Reaches(t: Tid, s: State, s': State) {
    exists steps :: (forall k :: 0 <= k < |steps| ==> IsBy(t, steps[k])) && Runs(s, steps, s')
  }

  lemma Stays(t: Tid, s: State)
    ensures Reaches(t, s, s)
  {
    assert Runs(s, [], s);
  }

  lemma {:induction false} OneMore(s: State, steps: seq<Step>, s': State, step: Step)
    requires Runs(s, steps, s') && WellFormed(s') && Enabled(s', step)
    ensures Runs(s, steps + [step], Apply(s', step))
    decreases |steps|
  {
    var all := steps + [step];
    if steps == [] {
      assert all == [step] && all[1..] == [];
    } else {
      OneMore(Apply(s, steps[0]), steps[1..], s', step);
      assert all[0] == steps[0] && all[1..] == steps[1..] + [step];
    }
  }

  lemma Goes(t: Tid, s0: State, s: State, step: Step)
    requires Reaches(t, s0, s) && WellFormed(s) && Enabled(s, step) && IsBy(t, step)
    ensures WellFormed(Apply(s, step)) && Reaches(t, s0, Apply(s, step))
  {
    StepKeepsShape(s, step);
    var steps :| (forall k :: 0 <= k < |steps| ==> IsBy(t, steps[k])) && Runs(s0, steps, s);
    OneMore(s0, steps, s, step);
  }

  function WithStore(s: State, i: nat, st: Store): State
    requires |s.stores| == 3 && i < 3
  {
    s.(stores := s.stores[i := st])
  }

  lemma {:induction false} GoesUnder(t: Tid, s0: State, s: State, i: nat, ops: seq<Op>, st': Store)
    requires Reaches(t, s0, s) && WellFormed(s) && i < 3
    requires (forall k :: 0 <= k < |ops| ==> NoFault(ops[k])) && OpsLead(i, s.stores[i], ops, st')
    ensures Reaches(t, s0, WithStore(s, i, st')) && WellFormed(WithStore(s, i, st'))
    decreases |ops|
  {
    if ops == [] {
      assert WithStore(s, i, st') == s;
    } else {
      var s1 := Apply(s, Under(i, ops[0]));
      Goes(t, s0, s, Under(i, ops[0]));
      GoesUnder(t, s0, s1, i, ops[1..], st');
      assert s.stores[i := s1.stores[i]][i := st'] == s.stores[i := st'];
    }
  }

  function Locking(s: State, t: Tid): Holder
    requires WellFormed(s) && Going(s, t) && s.callers[t].pos < |s.callers[t].order|
  {
    Holder(t, s.callers[t].force, s.callers[t].begun[s.callers[t].order[s.callers[t].pos]], Locked)
  }

  predicate IsAt(s: State, t: Tid, i: nat) {
    WellFormed(s) && Going(s, t) && s.callers[t].pos < |s.callers[t].order| && s.callers[t].order[s.callers[t].pos] == i && i < 3
  }

  lemma Acquires(t: Tid, s0: State, s: State, i: nat)
    requires Reaches(t, s0, s) && IsAt(s, t, i) && s.stores[i].holder.None?
    ensures var s' := WithStore(s, i, s.stores[i].(holder := Some(Locking(s, t)))); Reaches(t, s0, s') && WellFormed(s')
  {
    Goes(t, s0, s, Acquire(t));
  }

  function Saves(s: State, t: Tid, i: nat): bool
    requires IsAt(s, t, i)
  {
    s.stores[i].dirty != {} || (s.callers[t].force && i != HOLDING)
  }

  lemma SavesUnder(t: Tid, s0: State, s: State, i: nat, h: Holder)
    requires Reaches(t, s0, s) && IsAt(s, t, i) && s.stores[i].holder == Some(h) && h.phase.Locked? && h.force == s.callers[t].force
    ensures var s' := WithStore(s, i, Held(Saved(s.stores[i], Saves(s, t, i)), h, Finished)); Reaches(t, s0, s') && WellFormed(s')
  {
    var st := s.stores[i];
    var ops := SavesAlone(i, st, h);
    assert st.(holder := Some(h)) == st;
    GoesUnder(t, s0, s, i, ops, Held(Saved(st, Saves(s, t, i)), h, Finished));
  }

  /** The call is done with its store. */
  function Onward(s: State, t: Tid, i: nat, st: Store): State
    requires i < |s.stores| && t in s.callers
  {
    var c := s.callers[t];
    State(s.stores[i := st],
          s.callers[t := c.(pos := c.pos + 1, status := if i == CONFIG && !c.force then Checking else Active)], s.writers)
  }

  lemma SameOnward(s: State, t: Tid, i: nat, a: Store, b: Store)
    requires |s.stores| == 3 && i < 3 && t in s.callers
    ensures Onward(WithStore(s, i, a), t, i, b) == Onward(s, t, i, b)
  {
    SameStores(s.stores, i, a, b);
  }

  lemma ReleaseIsOnward(s: State, t: Tid, i: nat)
    requires IsAt(s, t, i)
    requires s.stores[i].holder.Some? && s.stores[i].holder.value.phase.Finished? && s.stores[i].holder.value.tid == t
    ensures Enabled(s, Release(i)) && Apply(s, Release(i)) == Onward(s, t, i, s.stores[i].(holder := None))
  {
  }

  lemma Releases(t: Tid, s0: State, s: State, i: nat)
    requires Reaches(t, s0, s) && IsAt(s, t, i)
    requires s.stores[i].holder.Some? && s.stores[i].holder.value.phase.Finished? && s.stores[i].holder.value.tid == t
    ensures var s' := Onward(s, t, i, s.stores[i].(holder := None)); Reaches(t, s0, s') && WellFormed(s')
  {
    ReleaseIsOnward(s, t, i);
    Goes(t, s0, s, Release(i));
  }

  /** One store of a call: locked, saved and released. */
  lemma SavesStore(t: Tid, s0: State, s: State, i: nat) returns (s': State)
    requires Reaches(t, s0, s) && IsAt(s, t, i) && s.stores[i].holder.None?
    ensures Reaches(t, s0, s') && WellFormed(s') && s' == Onward(s, t, i, Saved(s.stores[i], Saves(s, t, i)))
  {
    var st, h := s.stores[i], Locking(s, t);
    var done := Held(Saved(st, Saves(s, t, i)), h, Finished);
    Acquires(t, s0, s, i);
    Savings(t, s0, s, i, h);
    SavedAndReleased(t, s0, s, i, done);
    s' := Onward(s, t, i, done.(holder := None));
  }

  lemma SavedAndReleased(t: Tid, s0: State, s: State, i: nat, done: Store)
    requires IsAt(s, t, i) && Reaches(t, s0, WithStore(s, i, done)) && WellFormed(WithStore(s, i, done))
    requires done.holder.Some? && done.holder.value.phase.Finished? && done.holder.value.tid == t
    ensures var s' := Onward(s, t, i, done.(holder := None)); Reaches(t, s0, s') && WellFormed(s')
  {
    var s2 := WithStore(s, i, done);
    Releases(t, s0, s2, i);
    SameOnward(s, t, i, done, done.(holder := None));
  }

  lemma Savings(t: Tid, s0: State, s: State, i: nat, h: Holder)
    requires IsAt(s, t, i) && s.stores[i].holder.None? && h == Locking(s, t)
    requires var s1 := WithStore(s, i, s.stores[i].(holder := Some(h))); Reaches(t, s0, s1) && WellFormed(s1)
    ensures var s2 := WithStore(s, i, Held(Saved(s.stores[i], Saves(s, t, i)), h, Finished)); Reaches(t, s0, s2) && WellFormed(s2)
  {
    var s1 := WithStore(s, i, s.stores[i].(holder := Some(h)));
    SavesUnder(t, s0, s1, i, h);
    SameStores(s.stores, i, s1.stores[i], Held(Saved(s1.stores[i], Saves(s1, t, i)), h, Finished));
  }

  lemma SameStores(stores: seq<Store>, i: nat, a: Store, b: Store)
    requires i < |stores|
    ensures stores[i := a][i := b] == stores[i := b]
  {
  }

  /** What a flush makes of a store. */
  function Flushed(st: Store): Store { Saved(st, st.dirty != {}) }

  /** A flush that is done with `k` stores. */
  predicate Midway(s: State, s': State, t: Tid, k: nat) {
    && WellFormed(s) && WellFormed(s') && Going(s', t) && s'.callers[t].order == Flush && s'.callers[t].pos == k
    && !s'.callers[t].force && k <= 3
    && (forall i | 0 <= i < 3 :: s'.stores[i] == if i < k then Flushed(s.stores[i]) else s.stores[i])
  }

  lemma FlushesNext(t: Tid, s0: State, s: State, k: nat) returns (s': State)
    requires Reaches(t, s0, s) && Midway(s0, s, t, k) && 0 < k < 3 && s0.stores[k].holder.None?
    ensures Reaches(t, s0, s') && Midway(s0, s', t, k + 1)
  {
    s' := SavesStore(t, s0, s, k);
  }

  /** A flush that has just begun. */
  function Begun(s: State, t: Tid): State
    requires WellFormed(s)
  {
    var marked := [s.stores[0].marked, s.stores[1].marked, s.stores[2].marked];
    s.(callers := s.callers[t := Caller(Flush, 0, false, marked, Active)])
  }

  lemma Begins(t: Tid, s: State)
    requires WellFormed(s) && t !in s.callers
    ensures Reaches(t, s, Begun(s, t)) && WellFormed(Begun(s, t)) && IsAt(Begun(s, t), t, CONFIG)
  {
    Stays(t, s);
    Goes(t, s, s, Begin(t, Flush, false));
  }

  /** The look at the configuration's flag finds it down. */
  lemma ChecksClean(t: Tid, s0: State, s: State) returns (s': State)
    requires Reaches(t, s0, s) && WellFormed(s) && t in s.callers && s.callers[t].status.Checking? && s.stores[CONFIG].dirty == {}
    ensures Reaches(t, s0, s') && WellFormed(s') && s' == s.(callers := s.callers[t := s.callers[t].(status := Active)])
  {
    Goes(t, s0, s, CheckDirty(t));
    s' := Apply(s, CheckDirty(t));
  }

  lemma FlushesFirst(t: Tid, s: State) returns (s': State)
    requires WellFormed(s) && t !in s.callers && s.stores[CONFIG].holder.None?
    ensures Reaches(t, s, s') && Midway(s, s', t, 1)
  {
    Begins(t, s);
    var s1 := SavesStore(t, s, Begun(s, t), CONFIG);
    s' := ChecksClean(t, s, s1);
  }

  /** A flush that runs alone and meets no fault succeeds, whatever is pending: then no flag is up,
      every store whose flag was up has in its flash what was published last, and nothing else of
      the stores has changed. */
  lemma FlushSucceeds(s: State, t: Tid) returns (s': State)
    requires WellFormed(s) && t !in s.callers && forall i | 0 <= i < 3 :: s.stores[i].holder.None?
    ensures Reaches(t, s, s') && |s'.stores| == 3 && t in s'.callers && s'.callers[t].status == Returned(true)
    ensures forall i | 0 <= i < 3 :: s'.stores[i].dirty == {} && (s.stores[i].dirty != {} ==> s'.stores[i].flash == s'.stores[i].ram)
    ensures forall i | 0 <= i < 3 :: s'.stores[i] == s.stores[i].(dirty := s'.stores[i].dirty, flash := s'.stores[i].flash)
    ensures forall i | 0 <= i < 3 :: s.stores[i].dirty == {} ==> s'.stores[i] == s.stores[i]
  {
    var s1 := FlushesFirst(t, s);
    var s2 := FlushesNext(t, s, s1, 1);
    var s3 := FlushesNext(t, s, s2, 2);
    Goes(t, s, s3, Return(t));
    s' := Apply(s3, Return(t));
  }

  // ---- A save that meets a fault ---------------------------------------------------------------------------

  /** A save whose write fails sets every flag again that it took. */
  lemma FailedSaveRestores(i: nat, st: Store, op: Op)
    requires OpEnabled(i, st, op) && !NoFault(op)
    ensures var st' := ApplyOp(i, st, op);
            && st'.holder.Some? && st'.holder.value.phase.Failing?
            && st.holder.value.phase.took <= Restored(st').dirty && st.dirty <= Restored(st').dirty
            && (op.WriteFails? ==> Primary in Restored(st').dirty) && Restored(st').holder.None?
  {
  }
}
