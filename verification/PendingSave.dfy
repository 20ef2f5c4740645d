/**
  The persistence barrier: `commit_pending` of src/device/pending_save.rs, the holding save's
  own copy of it, and `flush_pending_before_reset` of src/device/mod.rs over the three stores,
  interleaved with any number of writers and savers.

  A mutation is numbered by the version of the store's RAM contents it published, from 1 on;
  version 0 is what is saved when nothing was published yet (for the configuration its defaults).
  The flash of a store is the version it was last given.  A writer publishes first and marks afterwards.
  `marked`, `bumped`, `bumps` and `begun` are history: no step tests them.
*/
module PendingSave {
  import opened Options
  import opened Words

  type Tid = nat

  const CONFIG := 0
  const HOLDING := 1
  const TEXT := 2

  /** The holding store has two dirty flags, the others one. */
  datatype Flag = Primary | Legacy

  datatype Mutation = Mutation(flag: Flag, version: nat)

  datatype Phase =
    | Locked
    | Half(took: set<Flag>)
    | Taken(took: set<Flag>)
    | HasGeneration(took: set<Flag>, generation: nat, since: nat)
    | Captured(took: set<Flag>, generation: nat, since: nat, version: nat)
    | Written(took: set<Flag>, generation: nat, since: nat)
    | Failing(took: set<Flag>, all: bool)
    | Finished

  /** Whoever holds the store's lock; `begun` is what was marked when its call began. */
  datatype Holder = Holder(tid: Tid, force: bool, begun: set<Mutation>, phase: Phase)

  datatype Store = Store(
    ram: nat,
    flash: nat,
    dirty: set<Flag>,
    generation: nat,
    holder: Option<Holder>,
    marked: set<Mutation>,
    bumped: set<nat>,
    bumps: nat)

  /** A call that saves the stores of `order` one after the other; `pos` of them are done. */
  datatype Caller = Caller(order: seq<nat>, pos: nat, force: bool, begun: seq<set<Mutation>>, status: Status)

  datatype Status = Active | Checking | Returned(ok: bool)

  /** A writer between publishing and marking. */
  datatype Writer = Writer(store: nat, m: Mutation, hasBumped: bool)

  datatype State = State(stores: seq<Store>, callers: map<Tid, Caller>, writers: map<Tid, Writer>)

  // ---- One store under its lock ----------------------------------------------------------------

  datatype Op =
    | TakePrimary | TakeLegacy | Skip
    | LoadGeneration | Capture
    | WriteOk | WriteFails(wrote: bool) | EncodeFails
    | CheckGeneration

  predicate OpEnabled(i: nat, st: Store, op: Op) {
    st.holder.Some? &&
    var h := st.holder.value;
    match op
    case TakePrimary => h.phase.Locked?
    case TakeLegacy => h.phase.Half?
    case Skip => h.phase.Taken? && h.phase.took == {} && !(h.force && i != HOLDING)
    case LoadGeneration => h.phase.Taken? && (h.phase.took != {} || (h.force && i != HOLDING))
    case Capture => h.phase.HasGeneration?
    case WriteOk => h.phase.Captured?
    case WriteFails(_) => h.phase.Captured?
    case EncodeFails => h.phase.HasGeneration? && i == HOLDING
    case CheckGeneration => h.phase.Written?
  }

  /** Only the configuration save compares the generation before and after. */
  function NextPhase(i: nat, st: Store, op: Op): Phase
    requires OpEnabled(i, st, op)
  {
    var p := st.holder.value.phase;
    match op
    case TakePrimary => Half(st.dirty * {Primary})
    case TakeLegacy => Taken(p.took + st.dirty * {Legacy})
    case Skip => Finished
    case LoadGeneration => HasGeneration(p.took, st.generation, st.bumps)
    case Capture => Captured(p.took, p.generation, p.since, st.ram)
    case WriteOk => Written(p.took, p.generation, p.since)
    case WriteFails(_) => Failing(p.took, true)
    case EncodeFails => Failing(p.took, false)
    case CheckGeneration =>
      if i == CONFIG && st.generation != p.generation then Failing(p.took, true) else Finished
  }

  function ApplyOp(i: nat, st: Store, op: Op): Store
    requires OpEnabled(i, st, op)
  {
    var p := st.holder.value.phase;
    var st' := st.(holder := Some(st.holder.value.(phase := NextPhase(i, st, op))));
    match op
    case TakePrimary => st'.(dirty := st.dirty - {Primary})
    case TakeLegacy => st'.(dirty := st.dirty - {Legacy})
    case WriteOk => st'.(flash := p.version)
    case WriteFails(wrote) => if wrote then st'.(flash := p.version) else st'
    case _ => st'
  }

  /** The flags a failing save sets again before it lets go of the lock. */
  function Restored(st: Store): Store
    requires st.holder.Some? && st.holder.value.phase.Failing?
  {
    var p := st.holder.value.phase;
    st.(dirty := st.dirty + p.took + (if p.all then {Primary} else {}), holder := None)
  }

  // ---- The whole machine --------------------------------------------------------------------------

  datatype Step =
    | Publish(w: Tid, store: nat, flag: Flag) | Bump(w: Tid) | Mark(w: Tid)
    | Begin(t: Tid, order: seq<nat>, force: bool)
    | Acquire(t: Tid) | Under(i: nat, op: Op) | Release(i: nat) | Restore(i: nat)
    | Nudge(i: nat) | CheckDirty(t: Tid) | LaterPartFails(t: Tid) | Return(t: Tid)

  const Flush := [CONFIG, HOLDING, TEXT]

  function EmptyStore(): Store { Store(0, 0, {}, 0, None, {}, {}, 0) }

  function Init(): State { State([EmptyStore(), EmptyStore(), EmptyStore()], map[], map[]) }

  predicate Going(s: State, t: Tid) { t in s.callers && s.callers[t].status.Active? }

  predicate CallerShape(c: Caller) {
    |c.begun| == 3 && c.pos <= |c.order| && forall k | 0 <= k < |c.order| :: c.order[k] < 3
  }

  /** A lock is held by a call that is at that store. */
  predicate LockShape(s: State, i: nat)
    requires i < |s.stores|
  {
    s.stores[i].holder.Some? ==>
      var h := s.stores[i].holder.value;
      Going(s, h.tid) &&
      var c := s.callers[h.tid];
      CallerShape(c) && c.pos < |c.order| && c.order[c.pos] == i && h.begun == (if i < 3 then c.begun[i] else {})
  }

  predicate WellFormed(s: State) {
    && |s.stores| == 3
    && (forall t | t in s.callers :: CallerShape(s.callers[t]))
    && (forall w | w in s.writers :: s.writers[w].store < 3)
    && (forall i {:trigger s.stores[i]} | 0 <= i < 3 :: LockShape(s, i))
  }

  predicate Enabled(s: State, step: Step)
    requires WellFormed(s)
  {
    match step
    case Publish(w, i, flag) => w !in s.writers && i < 3 && (flag.Legacy? ==> i == HOLDING)
    case Bump(w) => w in s.writers && !s.writers[w].hasBumped
    case Mark(w) => w in s.writers && s.writers[w].hasBumped
    case Begin(t, order, _) => t !in s.callers && forall k | 0 <= k < |order| :: order[k] < 3
    case Acquire(t) =>
      Going(s, t) && s.callers[t].pos < |s.callers[t].order| && s.stores[s.callers[t].order[s.callers[t].pos]].holder.None?
    case Under(i, op) => i < 3 && OpEnabled(i, s.stores[i], op)
    case Release(i) => i < 3 && s.stores[i].holder.Some? && s.stores[i].holder.value.phase.Finished?
    case Restore(i) => i < 3 && s.stores[i].holder.Some? && s.stores[i].holder.value.phase.Failing?
    case Nudge(i) => i < 3
    case CheckDirty(t) => t in s.callers && s.callers[t].status.Checking?
    case LaterPartFails(t) => Going(s, t) && s.callers[t].pos == |s.callers[t].order|
    case Return(t) => Going(s, t) && s.callers[t].pos == |s.callers[t].order|
  }

  /** After an unforced configuration save, `persist_config_now` looks at the flag once more;
      an actor whose save failed sets the flag again of its own accord (`Nudge`). */
  function Apply(s: State, step: Step): State
    requires WellFormed(s) && Enabled(s, step)
  {
    match step
    case Publish(w, i, flag) =>
      var v := s.stores[i].ram + 1;
      s.(stores := s.stores[i := s.stores[i].(ram := v)],
         writers := s.writers[w := Writer(i, Mutation(flag, v), i != CONFIG)])
    case Bump(w) =>
      var i, v := s.writers[w].store, s.writers[w].m.version;
      var st := s.stores[i];
      s.(stores := s.stores[i := st.(generation := (st.generation + 1) % WRAP, bumped := st.bumped + {v}, bumps := st.bumps + 1)],
         writers := s.writers[w := s.writers[w].(hasBumped := true)])
    case Mark(w) =>
      var i, m := s.writers[w].store, s.writers[w].m;
      var st := s.stores[i];
      s.(stores := s.stores[i := st.(dirty := st.dirty + {m.flag}, marked := st.marked + {m})], writers := s.writers - {w})
    case Begin(t, order, force) =>
      s.(callers := s.callers[t := Caller(order, 0, force, [s.stores[0].marked, s.stores[1].marked, s.stores[2].marked], Active)])
    case Acquire(t) =>
      var c := s.callers[t];
      var i := c.order[c.pos];
      s.(stores := s.stores[i := s.stores[i].(holder := Some(Holder(t, c.force, c.begun[i], Locked)))])
    case Under(i, op) => s.(stores := s.stores[i := ApplyOp(i, s.stores[i], op)])
    case Release(i) =>
      var t := s.stores[i].holder.value.tid;
      var c := s.callers[t];
      s.(stores := s.stores[i := s.stores[i].(holder := None)],
         callers := s.callers[t := c.(pos := c.pos + 1, status := if i == CONFIG && !c.force then Checking else Active)])
    case Restore(i) =>
      var t := s.stores[i].holder.value.tid;
      s.(stores := s.stores[i := Restored(s.stores[i])], callers := s.callers[t := s.callers[t].(status := Returned(false))])
    case Nudge(i) => s.(stores := s.stores[i := s.stores[i].(dirty := s.stores[i].dirty + {Primary})])
    case CheckDirty(t) =>
      s.(callers := s.callers[t := s.callers[t].(status := if s.stores[CONFIG].dirty != {} then Returned(false) else Active)])
    case LaterPartFails(t) => s.(callers := s.callers[t := s.callers[t].(status := Returned(false))])
    case Return(t) => s.(callers := s.callers[t := s.callers[t].(status := Returned(true))])
  }

  ghost predicate Runs(s: State, steps: seq<Step>, s': State)
    decreases |steps|
  {
    if steps == [] then s' == s
    else WellFormed(s) && Enabled(s, steps[0]) && Runs(Apply(s, steps[0]), steps[1..], s')
  }

  // ---- What holds of one store -----------------------------------------------------------------------

  /** A save that has consumed the mutation's flag is on its way to the flash. */
  predicate InFlight(h: Holder, m: Mutation) {
    match h.phase
    case Half(took) => m.flag in took
    case Taken(took) => m.flag in took
    case HasGeneration(took, _, _) => m.flag in took
    case Captured(took, _, _, version) => m.flag in took && m.version <= version
    case Failing(took, _) => m.flag in took
    case _ => false
  }

  /** A marked mutation is in the flash, or its flag is up, or a save is under way with it. */
  predicate Covered(st: Store, m: Mutation) {
    m.version <= st.flash || m.flag in st.dirty || (st.holder.Some? && InFlight(st.holder.value, m))
  }

  /** What the lock's holder owes the mutations that were marked when its call began. */
  predicate Owed(st: Store, h: Holder, m: Mutation) {
    match h.phase
    case Locked => true
    case Half(took) => m.flag.Primary? ==> m.version <= st.flash || m.flag in took
    case Taken(took) => m.version <= st.flash || m.flag in took
    case HasGeneration(took, _, _) => m.version <= st.flash || m.flag in took
    case Captured(_, _, _, version) => m.version <= version
    case Written(_, _, _) => m.version <= st.flash
    case Failing(_, _) => true
    case Finished => m.version <= st.flash
  }

  predicate PhaseOk(st: Store, p: Phase) {
    && (p.Captured? ==> st.flash <= p.version <= st.ram)
    && (p.HasGeneration? || p.Captured? || p.Written? ==> p.since <= st.bumps && p.generation == p.since % WRAP)
    && (p.Captured? && p.since == st.bumps ==> forall v :: v in st.bumped ==> v <= p.version)
    && (p.Written? && p.since == st.bumps ==> forall v :: v in st.bumped ==> v <= st.flash)
  }

  predicate StoreInv(st: Store) {
    && st.flash <= st.ram && st.generation == st.bumps % WRAP
    && (forall v :: v in st.bumped ==> v <= st.ram)
    && (forall m :: m in st.marked ==> m.version <= st.ram && Covered(st, m))
    && (st.holder.Some? ==>
          && PhaseOk(st, st.holder.value.phase)
          && st.holder.value.begun <= st.marked
          && forall m :: m in st.holder.value.begun ==> Owed(st, st.holder.value, m))
  }

  lemma OpKeepsBounds(i: nat, st: Store, op: Op)
    requires StoreInv(st) && OpEnabled(i, st, op)
    ensures var st' := ApplyOp(i, st, op);
            st.flash <= st'.flash <= st'.ram && st'.holder.Some? && PhaseOk(st', st'.holder.value.phase)
  {
  }

  lemma OpKeepsCovered(i: nat, st: Store, op: Op, m: Mutation)
    requires StoreInv(st) && OpEnabled(i, st, op) && m in st.marked
    ensures Covered(ApplyOp(i, st, op), m)
  {
    assert Covered(st, m);
  }

  lemma OpKeepsOwed(i: nat, st: Store, op: Op, m: Mutation)
    requires StoreInv(st) && OpEnabled(i, st, op) && m in st.holder.value.begun
    ensures var st' := ApplyOp(i, st, op); Owed(st', st'.holder.value, m)
  {
    assert Covered(st, m) && Owed(st, st.holder.value, m);
  }

  lemma OpKeepsStore(i: nat, st: Store, op: Op)
    requires StoreInv(st) && OpEnabled(i, st, op)
    ensures StoreInv(ApplyOp(i, st, op)) && st.flash <= ApplyOp(i, st, op).flash
  {
    var st' := ApplyOp(i, st, op);
    OpKeepsBounds(i, st, op);
    forall m | m in st'.marked ensures m.version <= st'.ram && Covered(st', m) { OpKeepsCovered(i, st, op, m); }
    forall m | m in st'.holder.value.begun ensures Owed(st', st'.holder.value, m) { OpKeepsOwed(i, st, op, m); }
  }

  // ---- What holds of the callers ----------------------------------------------------------------------

  predicate InFlash(st: Store, ms: set<Mutation>) { forall m :: m in ms ==> m.version <= st.flash }

  /** Every store a call is done with has in its flash what was marked when the call began. */
  predicate CallerInv(s: State, c: Caller)
    requires WellFormed(s) && CallerShape(c)
  {
    && (forall i | 0 <= i < 3 :: c.begun[i] <= s.stores[i].marked)
    && (forall k | 0 <= k < c.pos :: InFlash(s.stores[c.order[k]], c.begun[c.order[k]]))
    && (c.status == Returned(true) ==> c.pos == |c.order|)
  }

  predicate WriterInv(s: State, w: Writer)
    requires WellFormed(s) && w.store < 3
  {
    w.m.version <= s.stores[w.store].ram
  }

  predicate Inv(s: State) {
    && WellFormed(s)
    && (forall i | 0 <= i < 3 :: StoreInv(s.stores[i]))
    && (forall t | t in s.callers :: CallerInv(s, s.callers[t]))
    && (forall w | w in s.writers :: WriterInv(s, s.writers[w]))
  }

  lemma PublishKeepsStore(st: Store)
    requires StoreInv(st)
    ensures StoreInv(st.(ram := st.ram + 1))
  {
    var st' := st.(ram := st.ram + 1);
    forall m | m in st'.marked ensures Covered(st', m) { assert Covered(st, m); }
    if st.holder.Some? {
      forall m | m in st.holder.value.begun ensures Owed(st', st.holder.value, m) { assert Owed(st, st.holder.value, m); }
    }
  }

  lemma BumpKeepsStore(st: Store, v: nat)
    requires StoreInv(st) && v <= st.ram
    ensures StoreInv(st.(generation := (st.generation + 1) % WRAP, bumped := st.bumped + {v}, bumps := st.bumps + 1))
  {
    var st' := st.(generation := (st.generation + 1) % WRAP, bumped := st.bumped + {v}, bumps := st.bumps + 1);
    forall m | m in st'.marked ensures Covered(st', m) { assert Covered(st, m); }
    if st.holder.Some? {
      forall m | m in st.holder.value.begun ensures Owed(st', st.holder.value, m) { assert Owed(st, st.holder.value, m); }
    }
  }

  lemma MarkKeepsStore(st: Store, flag: Flag, more: set<Mutation>)
    requires StoreInv(st) && forall m :: m in more ==> m.flag == flag && m.version <= st.ram
    ensures StoreInv(st.(dirty := st.dirty + {flag}, marked := st.marked + more))
  {
    var st' := st.(dirty := st.dirty + {flag}, marked := st.marked + more);
    forall m | m in st'.marked ensures Covered(st', m) { if m in st.marked { assert Covered(st, m); } }
    if st.holder.Some? {
      forall m | m in st.holder.value.begun ensures Owed(st', st.holder.value, m) { assert Owed(st, st.holder.value, m); }
    }
  }

  lemma AcquireKeepsStore(st: Store, h: Holder)
    requires StoreInv(st) && st.holder.None? && h.phase.Locked? && h.begun <= st.marked
    ensures StoreInv(st.(holder := Some(h)))
  {
    forall m | m in st.marked ensures Covered(st.(holder := Some(h)), m) { assert Covered(st, m); }
  }

  lemma ReleaseKeepsStore(st: Store)
    requires StoreInv(st) && st.holder.Some? && st.holder.value.phase.Finished?
    ensures StoreInv(st.(holder := None)) && InFlash(st, st.holder.value.begun)
  {
    forall m | m in st.marked ensures Covered(st.(holder := None), m) { assert Covered(st, m); }
    forall m | m in st.holder.value.begun ensures m.version <= st.flash { assert Owed(st, st.holder.value, m); }
  }

  lemma RestoreKeepsStore(st: Store)
    requires StoreInv(st) && st.holder.Some? && st.holder.value.phase.Failing?
    ensures StoreInv(Restored(st))
  {
    forall m | m in st.marked ensures Covered(Restored(st), m) { assert Covered(st, m); }
  }

  /** What the step does to one store. */
  function StoreAfter(s: State, step: Step, i: nat): Store
    requires WellFormed(s) && Enabled(s, step) && i < 3
  {
    Apply(s, step).stores[i]
  }

  lemma WriterStepKeepsStore(s: State, step: Step, i: nat)
    requires Inv(s) && Enabled(s, step) && i < 3 && (step.Publish? || step.Bump? || step.Mark?)
    ensures StoreInv(StoreAfter(s, step, i)) && s.stores[i].flash == StoreAfter(s, step, i).flash
    ensures s.stores[i].marked <= StoreAfter(s, step, i).marked && s.stores[i].ram <= StoreAfter(s, step, i).ram
  {
    var st := s.stores[i];
    match step
    case Publish(_, _, _) => PublishKeepsStore(st);
    case Bump(w) =>
      assert WriterInv(s, s.writers[w]);
      if s.writers[w].store == i { BumpKeepsStore(st, s.writers[w].m.version); }
    case Mark(w) =>
      assert WriterInv(s, s.writers[w]);
      if s.writers[w].store == i { MarkKeepsStore(st, s.writers[w].m.flag, {s.writers[w].m}); }
  }

  lemma SaverStepKeepsStore(s: State, step: Step, i: nat)
    requires Inv(s) && Enabled(s, step) && i < 3 && !(step.Publish? || step.Bump? || step.Mark?)
    ensures StoreInv(StoreAfter(s, step, i)) && s.stores[i].flash <= StoreAfter(s, step, i).flash
    ensures s.stores[i].marked == StoreAfter(s, step, i).marked && s.stores[i].ram == StoreAfter(s, step, i).ram
  {
    var st := s.stores[i];
    match step
    case Acquire(t) =>
      assert CallerInv(s, s.callers[t]);
      AcquireOne(s, t, i);
    case Under(j, op) => if i == j { OpKeepsStore(i, st, op); }
    case Release(j) => if i == j { ReleaseKeepsStore(st); }
    case Restore(j) => if i == j { RestoreKeepsStore(st); }
    case Nudge(j) => if i == j { MarkKeepsStore(st, Primary, {}); assert st.marked + {} == st.marked; }
    case _ =>
  }

  lemma AcquireOne(s: State, t: Tid, i: nat)
    requires Inv(s) && Enabled(s, Acquire(t)) && i < 3
    ensures StoreInv(Apply(s, Acquire(t)).stores[i])
  {
    var c := s.callers[t];
    assert CallerInv(s, c);
    if c.order[c.pos] == i { AcquireKeepsStore(s.stores[i], Holder(t, c.force, c.begun[i], Locked)); }
  }

  /** A caller that does not move keeps what it was promised: flash and marks only grow. */
  lemma CallerUnmoved(s: State, s': State, c: Caller)
    requires WellFormed(s) && WellFormed(s') && CallerShape(c) && CallerInv(s, c)
    requires forall i | 0 <= i < 3 :: s.stores[i].flash <= s'.stores[i].flash && s.stores[i].marked <= s'.stores[i].marked
    ensures CallerInv(s', c)
  {
    forall k | 0 <= k < c.pos ensures InFlash(s'.stores[c.order[k]], c.begun[c.order[k]]) {
      assert InFlash(s.stores[c.order[k]], c.begun[c.order[k]]);
    }
  }

  lemma StepKeepsStores(s: State, step: Step)
    requires Inv(s) && Enabled(s, step)
    ensures forall i | 0 <= i < 3 :: StoreInv(StoreAfter(s, step, i))
    ensures forall i | 0 <= i < 3 :: s.stores[i].flash <= StoreAfter(s, step, i).flash
              && s.stores[i].marked <= StoreAfter(s, step, i).marked && s.stores[i].ram <= StoreAfter(s, step, i).ram
  {
    forall i | 0 <= i < 3
      ensures StoreInv(StoreAfter(s, step, i)) && s.stores[i].flash <= StoreAfter(s, step, i).flash
              && s.stores[i].marked <= StoreAfter(s, step, i).marked && s.stores[i].ram <= StoreAfter(s, step, i).ram
    {
      if step.Publish? || step.Bump? || step.Mark? { WriterStepKeepsStore(s, step, i); } else { SaverStepKeepsStore(s, step, i); }
    }
  }

  predicate StoreStep(step: Step) { step.Publish? || step.Bump? || step.Mark? || step.Under? || step.Nudge? }

  predicate LockStep(step: Step) { step.Acquire? || step.Release? || step.Restore? }

  lemma StoreStepKeepsShape(s: State, step: Step)
    requires WellFormed(s) && Enabled(s, step) && StoreStep(step)
    ensures WellFormed(Apply(s, step))
  {
    forall i | 0 <= i < 3 ensures LockShape(Apply(s, step), i) { assert LockShape(s, i); }
  }

  lemma LockStepKeepsShape(s: State, step: Step)
    requires WellFormed(s) && Enabled(s, step) && LockStep(step)
    ensures WellFormed(Apply(s, step))
  {
    forall i | 0 <= i < 3 ensures LockShape(Apply(s, step), i) {
      assert LockShape(s, i);
      if !step.Acquire? { assert LockShape(s, step.i); }
    }
  }

  lemma CallStepKeepsShape(s: State, step: Step)
    requires WellFormed(s) && Enabled(s, step) && !StoreStep(step) && !LockStep(step)
    ensures WellFormed(Apply(s, step))
  {
    forall i | 0 <= i < 3 ensures LockShape(Apply(s, step), i) { assert LockShape(s, i); }
  }

  lemma StepKeepsShape(s: State, step: Step)
    requires WellFormed(s) && Enabled(s, step)
    ensures WellFormed(Apply(s, step))
  {
    if StoreStep(step) { StoreStepKeepsShape(s, step); }
    else if LockStep(step) { LockStepKeepsShape(s, step); }
    else { CallStepKeepsShape(s, step); }
  }

  lemma StepKeepsWriters(s: State, step: Step)
    requires Inv(s) && Enabled(s, step) && WellFormed(Apply(s, step))
    ensures var s' := Apply(s, step); forall w | w in s'.writers :: WriterInv(s', s'.writers[w])
  {
    var s' := Apply(s, step);
    StepKeepsStores(s, step);
    forall w | w in s'.writers ensures WriterInv(s', s'.writers[w]) {
      if w in s.writers { assert WriterInv(s, s.writers[w]); }
    }
  }

  /** What the step makes of a call that was there before. */
  lemma CallAfter(s: State, step: Step, t: Tid)
    requires WellFormed(s) && Enabled(s, step) && t in s.callers
    ensures t in Apply(s, step).callers
    ensures var c, c' := s.callers[t], Apply(s, step).callers[t];
            || c' == c
            || (c'.(status := c.status) == c && (c'.status == Returned(true) ==> c.pos == |c.order|))
            || (step.Release? && step.i == c.order[c.pos] && s.stores[step.i].holder.value.tid == t
                && c' == c.(pos := c.pos + 1, status := c'.status) && !c'.status.Returned?)
  {
    if step.Release? { assert LockShape(s, step.i); }
    if step.Restore? { assert LockShape(s, step.i); }
  }

  lemma AdvancedCaller(s: State, c: Caller, status: Status)
    requires WellFormed(s) && CallerShape(c) && CallerInv(s, c) && c.pos < |c.order| && !status.Returned?
    requires InFlash(s.stores[c.order[c.pos]], c.begun[c.order[c.pos]])
    ensures CallerInv(s, c.(pos := c.pos + 1, status := status))
  {
  }

  lemma ReleasedInFlash(s: State, i: nat)
    requires WellFormed(s) && i < 3 && StoreInv(s.stores[i]) && Enabled(s, Release(i))
    ensures var t := s.stores[i].holder.value.tid;
            InFlash(Apply(s, Release(i)).stores[i], s.callers[t].begun[i])
  {
    ReleaseKeepsStore(s.stores[i]);
    assert LockShape(s, i);
  }

  lemma StepKeepsCaller(s: State, s': State, step: Step, t: Tid)
    requires WellFormed(s) && Enabled(s, step) && s' == Apply(s, step) && WellFormed(s') && t in s.callers
    requires CallerInv(s, s.callers[t]) && (step.Release? ==> StoreInv(s.stores[step.i]))
    requires forall i | 0 <= i < 3 :: s.stores[i].flash <= s'.stores[i].flash && s.stores[i].marked <= s'.stores[i].marked
    ensures t in s'.callers && CallerInv(s', s'.callers[t])
  {
    var c := s.callers[t];
    CallAfter(s, step, t);
    CallerUnmoved(s, s', c);
    if s'.callers[t].pos == c.pos + 1 {
      ReleasedInFlash(s, step.i);
      AdvancedCaller(s', c, s'.callers[t].status);
    }
  }

  lemma NewCaller(s: State, step: Step, t: Tid)
    requires WellFormed(s) && Enabled(s, step) && WellFormed(Apply(s, step)) && t in Apply(s, step).callers && t !in s.callers
    ensures CallerInv(Apply(s, step), Apply(s, step).callers[t])
  {
  }

  lemma StepKeepsInv(s: State, step: Step)
    requires Inv(s) && Enabled(s, step)
    ensures Inv(Apply(s, step))
  {
    var s' := Apply(s, step);
    StepKeepsShape(s, step);
    StepKeepsStores(s, step);
    StepKeepsWriters(s, step);
    forall t | t in s'.callers ensures CallerInv(s', s'.callers[t]) {
      if t in s.callers { StepKeepsCaller(s, s', step, t); } else { NewCaller(s, step, t); }
    }
    forall i | 0 <= i < 3 ensures StoreInv(s'.stores[i]) { assert s'.stores[i] == StoreAfter(s, step, i); }
  }

  lemma {:induction false} RunKeepsInv(s: State, steps: seq<Step>, s': State)
    requires Inv(s) && Runs(s, steps, s')
    ensures Inv(s')
    decreases |steps|
  {
    if steps != [] {
      StepKeepsInv(s, steps[0]);
      RunKeepsInv(Apply(s, steps[0]), steps[1..], s');
    }
  }

  // ---- The barrier ----------------------------------------------------------------------------------

  /** Nothing that was marked is ever lost: it is in the flash, its flag is up, or a save that
      consumed the flag is still under way. */
  lemma MarkedIsNeverLost(steps: seq<Step>, s: State, i: nat, m: Mutation)
    requires Runs(Init(), steps, s) && i < 3 && |s.stores| == 3 && m in s.stores[i].marked
    ensures m.version <= s.stores[i].flash || m.flag in s.stores[i].dirty
            || (s.stores[i].holder.Some? && InFlight(s.stores[i].holder.value, m))
  {
    InitInv();
    RunKeepsInv(Init(), steps, s);
    assert StoreInv(s.stores[i]) && Covered(s.stores[i], m);
  }

  /** A call that returned success has put into the flash everything that was marked, in the
      stores it saves, when it began; and it stays there. */
  lemma SuccessIsABarrier(steps: seq<Step>, s: State, t: Tid, i: nat, m: Mutation)
    requires Runs(Init(), steps, s) && WellFormed(s)
    requires t in s.callers && s.callers[t].status == Returned(true)
    requires i < 3 && i in s.callers[t].order && m in s.callers[t].begun[i]
    ensures m.version <= s.stores[i].flash
  {
    InitInv();
    RunKeepsInv(Init(), steps, s);
    var c := s.callers[t];
    assert CallerInv(s, c);
    var k :| 0 <= k < |c.order| && c.order[k] == i;
    assert InFlash(s.stores[c.order[k]], c.begun[c.order[k]]);
  }

  lemma FlushCoversAllStores(steps: seq<Step>, s: State, t: Tid)
    requires Runs(Init(), steps, s) && WellFormed(s)
    requires t in s.callers && s.callers[t].order == Flush && s.callers[t].status == Returned(true)
    ensures forall i | 0 <= i < 3 :: InFlash(s.stores[i], s.callers[t].begun[i])
  {
    forall i, m | 0 <= i < 3 && m in s.callers[t].begun[i] ensures m.version <= s.stores[i].flash {
      assert Flush[i] == i;
      SuccessIsABarrier(steps, s, t, i, m);
    }
  }

  lemma ConfigPhaseOk(st: Store)
    requires StoreInv(st) && st.holder.Some? && st.holder.value.phase.Written?
    ensures var p := st.holder.value.phase;
            && p.since <= st.bumps && p.generation == p.since % WRAP && st.generation == st.bumps % WRAP
            && (p.since == st.bumps ==> forall v :: v in st.bumped ==> v <= st.flash)
  {
  }

  lemma InitInv()
    ensures Inv(Init())
  {
  }

  /** The configuration save passes its generation check with every write that was counted by
      then in the flash, also those that came while it ran, as long as fewer than 2^32 came. */
  lemma GenerationCheckIsExact(steps: seq<Step>, s: State)
    requires Runs(Init(), steps, s) && WellFormed(s) && Enabled(s, Under(CONFIG, CheckGeneration))
    requires s.stores[CONFIG].bumps < s.stores[CONFIG].holder.value.phase.since + WRAP
    requires NextPhase(CONFIG, s.stores[CONFIG], CheckGeneration).Finished?
    ensures forall v :: v in s.stores[CONFIG].bumped ==> v <= s.stores[CONFIG].flash
  {
    InitInv();
    RunKeepsInv(Init(), steps, s);
    var st := s.stores[CONFIG];
    ConfigPhaseOk(st);
    var since := st.holder.value.phase.since;
    assert since % WRAP == st.bumps % WRAP && since <= st.bumps < since + WRAP;
    assert since == st.bumps;
  }
}
