/**
  That the calls of `Rcu` come to an end: a read on its own, from wherever it stands, and a write
  on its own, once nobody is registered under the parity it leaves.
*/
module RcuProgress {
  import opened Options
  import opened Rcu

  // ---- Steps of one task alone --------------------------------------------------------------------------

  datatype Task = Reading(t: Tid) | Writing

  predicate IsBy(task: Task, step: Step) {
    match task
    case Reading(t) => step.Read? && step.t == t
    case Writing => step.Write?
  }

  predicate Alone(task: Task, steps: seq<Step>) { forall k :: 0 <= k < |steps| ==> IsBy(task, steps[k]) }

  /** Enabled one after the other, steps of that task alone lead from one state to the other. */
  ghost predicate Reaches(m: nat, task: Task, s: State, s': State)
    requires m > 0
  {
    exists steps :: Alone(task, steps) && Runs(m, s, steps, s')
  }

  lemma Stays(m: nat, task: Task, s: State)
    requires m > 0
    ensures Reaches(m, task, s, s)
  {
    assert Alone(task, []) && Runs(m, s, [], s);
  }

  lemma {:induction false} OneMore(m: nat, s: State, steps: seq<Step>, s': State, step: Step)
    requires m > 0 && Runs(m, s, steps, s') && Enabled(s', step)
    ensures Runs(m, s, steps + [step], Apply(m, s', step))
    decreases |steps|
  {
    var all := steps + [step];
    if steps == [] {
      assert all == [step] && all[1..] == [];
    } else {
      OneMore(m, Apply(m, s, steps[0]), steps[1..], s', step);
      assert all[0] == steps[0] && all[1..] == steps[1..] + [step];
    }
  }

  lemma Goes(m: nat, task: Task, s0: State, s: State, step: Step)
    requires m > 0 && Reaches(m, task, s0, s) && Enabled(s, step) && IsBy(task, step)
    ensures Reaches(m, task, s0, Apply(m, s, step))
  {
    var steps :| Alone(task, steps) && Runs(m, s0, steps, s);
    OneMore(m, s0, steps, s, step);
    assert Alone(task, steps + [step]);
  }

  lemma {:induction false} RunsJoin(m: nat, a: State, first: seq<Step>, b: State, second: seq<Step>, c: State)
    requires m > 0 && Runs(m, a, first, b) && Runs(m, b, second, c)
    ensures Runs(m, a, first + second, c)
    decreases |first|
  {
    var all := first + second;
    if first == [] {
      assert all == second;
    } else {
      RunsJoin(m, Apply(m, a, first[0]), first[1..], b, second, c);
      assert all[0] == first[0] && all[1..] == first[1..] + second;
    }
  }

  lemma Joins(m: nat, task: Task, a: State, b: State, c: State)
    requires m > 0 && Reaches(m, task, a, b) && Reaches(m, task, b, c)
    ensures Reaches(m, task, a, c)
  {
    var first :| Alone(task, first) && Runs(m, a, first, b);
    var second :| Alone(task, second) && Runs(m, b, second, c);
    RunsJoin(m, a, first, b, second, c);
    assert Alone(task, first + second);
  }

  // ---- A read ----------------------------------------------------------------------------------------------

  /** All but the reader, the counters and the references. */
  predicate SameOutside(s: State, s': State, t: Tid) {
    && s'.ptr == s.ptr && s'.epoch == s.epoch && s'.writer == s.writer && s'.pending == s.pending && s'.next == s.next
    && s'.frees == s.frees && s'.published == s.published && s'.dropped == s.dropped && s'.readers - {t} == s.readers - {t}
  }

  /** The reader is registered or not; everybody else's registrations count as in `s`. */
  predicate Counted(s: State, s': State, epoch: nat, more: int) {
    && Readers(s', epoch) == Readers(s, epoch) + more && Readers(s', epoch + 1) == Readers(s, epoch + 1)
  }

  predicate SameReferences(s: State, s': State) { s'.held == s.held && s'.counts == s.counts }

  /** The steps before the reference is taken. */
  lemma Moves(m: nat, s: State, t: Tid, op: ReadOp)
    requires m > 0 && CanRead(s, t, op) && !op.Increment? && !op.Return? && !op.ReturnNone?
    ensures var s', e := Apply(m, s, Read(t, op)), if op.Start? then 0 else if op.LoadEpoch? then 0 else s.readers[t].epoch;
            && SameOutside(s, s', t) && SameReferences(s, s') && t in s'.readers
            && Some(s'.readers[t]) == NextReader(s, t, op)
            && Counted(s, s', e, if op.Register? then 1 else if op.Retry? then -1 else 0)
  {
  }

  /** The read has returned what the container holds. */
  predicate Returned(s: State, s': State, t: Tid) {
    && SameOutside(s, s', t) && t !in s'.readers
    && s'.held == (if s.ptr.Some? then s.held + multiset{s.ptr.value} else s.held)
    && s'.counts == if s.ptr.Some? then s.counts[s.ptr.value := Count(s, s.ptr.value) + 1] else s.counts
  }

  lemma NoneReturns(m: nat, s: State, t: Tid)
    requires m > 0 && CanRead(s, t, ReturnNone)
    ensures var s' := Apply(m, s, Read(t, ReturnNone));
            && SameOutside(s, s', t) && SameReferences(s, s') && t !in s'.readers && Counted(s, s', s.readers[t].epoch, -1)
  {
  }

  lemma Increments(m: nat, s: State, t: Tid)
    requires m > 0 && CanRead(s, t, Increment)
    ensures var s', v, r := Apply(m, s, Read(t, Increment)), s.readers[t].ptr.value, s.readers[t];
            && SameOutside(s, s', t) && s'.held == s.held && s'.counts == s.counts[v := Count(s, v) + 1]
            && t in s'.readers && s'.readers[t] == Owning(r.start, r.epoch, v, r.at) && Counted(s, s', 0, 0)
  {
  }

  lemma OwnerReturns(m: nat, s: State, t: Tid)
    requires m > 0 && CanRead(s, t, Return)
    ensures var s' := Apply(m, s, Read(t, Return));
            && SameOutside(s, s', t) && s'.held == s.held + multiset{s.readers[t].val} && s'.counts == s.counts
            && t !in s'.readers && Counted(s, s', s.readers[t].epoch, -1)
  {
  }

  /** What the steps of a call lead through. */
  function After(m: nat, s: State, t: Tid, op: ReadOp): State
    requires m > 0 && CanRead(s, t, op)
  {
    Apply(m, s, Read(t, op))
  }

  /** Validated, the read returns what the container holds and gives up its registration. */
  lemma ValidatedReturns(m: nat, s: State, t: Tid) returns (s': State)
    requires m > 0 && t in s.readers && s.readers[t].Validated?
    ensures Reaches(m, Reading(t), s, s') && Returned(s, s', t) && Counted(s, s', s.readers[t].epoch, -1)
  {
    var s1 := Loads(m, s, t);
    s' := LoadedEndsFrom(m, s, s1, t, s.readers[t].epoch);
  }

  lemma LoadedEndsFrom(m: nat, s: State, s1: State, t: Tid, epoch: nat) returns (s': State)
    requires m > 0 && Reaches(m, Reading(t), s, s1) && SameOutside(s, s1, t) && SameReferences(s, s1) && t in s1.readers
    requires s1.readers[t].Pinned? && s1.readers[t].ptr == s.ptr && s1.readers[t].epoch == epoch && Counted(s, s1, epoch, 0)
    ensures Reaches(m, Reading(t), s, s') && Returned(s, s', t) && Counted(s, s', epoch, -1)
  {
    s' := LoadedEnds(m, s1, t);
    Joins(m, Reading(t), s, s1, s');
    LoadedReturns(s, s1, s', t, epoch);
  }

  lemma Loads(m: nat, s: State, t: Tid) returns (s': State)
    requires m > 0 && t in s.readers && s.readers[t].Validated?
    ensures Reaches(m, Reading(t), s, s') && SameOutside(s, s', t) && SameReferences(s, s') && t in s'.readers
    ensures s'.readers[t].Pinned? && s'.readers[t].ptr == s.ptr && s'.readers[t].epoch == s.readers[t].epoch
    ensures Counted(s, s', s.readers[t].epoch, 0)
  {
    Stays(m, Reading(t), s);
    Moves(m, s, t, LoadPtr);
    Goes(m, Reading(t), s, s, Read(t, LoadPtr));
    s' := After(m, s, t, LoadPtr);
  }

  lemma LoadedEnds(m: nat, s: State, t: Tid) returns (s': State)
    requires m > 0 && t in s.readers && s.readers[t].Pinned?
    ensures Reaches(m, Reading(t), s, s') && SameOutside(s, s', t) && t !in s'.readers && Counted(s, s', s.readers[t].epoch, -1)
    ensures var p := s.readers[t].ptr;
            && (p.None? ==> SameReferences(s, s'))
            && (p.Some? ==> s'.held == s.held + multiset{p.value} && s'.counts == s.counts[p.value := Count(s, p.value) + 1])
  {
    if s.readers[t].ptr.None? { s' := PinnedNoneReturns(m, s, t); } else { s' := PinnedReturns(m, s, t); }
  }

  lemma LoadedReturns(s: State, s1: State, s': State, t: Tid, epoch: nat)
    requires SameOutside(s, s1, t) && SameReferences(s, s1) && Counted(s, s1, epoch, 0)
    requires SameOutside(s1, s', t) && Counted(s1, s', epoch, -1) && t !in s'.readers
    requires s.ptr.None? ==> SameReferences(s1, s')
    requires s.ptr.Some? ==> s'.held == s1.held + multiset{s.ptr.value}
                             && s'.counts == s1.counts[s.ptr.value := Count(s1, s.ptr.value) + 1]
    ensures Returned(s, s', t) && Counted(s, s', epoch, -1)
  {
  }

  lemma PinnedNoneReturns(m: nat, s: State, t: Tid) returns (s': State)
    requires m > 0 && t in s.readers && s.readers[t].Pinned? && s.readers[t].ptr.None?
    ensures Reaches(m, Reading(t), s, s') && SameOutside(s, s', t) && SameReferences(s, s') && t !in s'.readers
    ensures Counted(s, s', s.readers[t].epoch, -1)
  {
    Stays(m, Reading(t), s);
    NoneReturns(m, s, t);
    Goes(m, Reading(t), s, s, Read(t, ReturnNone));
    s' := After(m, s, t, ReturnNone);
  }

  lemma PinnedReturns(m: nat, s: State, t: Tid) returns (s': State)
    requires m > 0 && t in s.readers && s.readers[t].Pinned? && s.readers[t].ptr.Some?
    ensures Reaches(m, Reading(t), s, s') && SameOutside(s, s', t) && t !in s'.readers && Counted(s, s', s.readers[t].epoch, -1)
    ensures var v := s.readers[t].ptr.value; s'.held == s.held + multiset{v} && s'.counts == s.counts[v := Count(s, v) + 1]
  {
    Stays(m, Reading(t), s);
    Increments(m, s, t);
    Goes(m, Reading(t), s, s, Read(t, Increment));
    var s1 := After(m, s, t, Increment);
    OwnerReturns(m, s1, t);
    Goes(m, Reading(t), s, s1, Read(t, Return));
    s' := After(m, s1, t, Return);
    Chain(s, s1, s', t);
  }

  lemma Chain(a: State, b: State, c: State, t: Tid)
    requires SameOutside(a, b, t) && SameOutside(b, c, t)
    ensures SameOutside(a, c, t)
  {
  }

  /** A read that is about to look at the epoch finds it unchanged when it looks again. */
  lemma StartedValidates(m: nat, s: State, t: Tid) returns (s': State)
    requires m > 0 && t in s.readers && s.readers[t].Started?
    ensures Reaches(m, Reading(t), s, s') && SameOutside(s, s', t) && SameReferences(s, s')
    ensures t in s'.readers && s'.readers[t] == Validated(s.readers[t].start, s.epoch) && Counted(s, s', s.epoch, 1)
  {
    Stays(m, Reading(t), s);
    Moves(m, s, t, LoadEpoch);
    Goes(m, Reading(t), s, s, Read(t, LoadEpoch));
    var s1 := After(m, s, t, LoadEpoch);
    Moves(m, s1, t, Register);
    Goes(m, Reading(t), s, s1, Read(t, Register));
    var s2 := After(m, s1, t, Register);
    Moves(m, s2, t, Validate);
    Goes(m, Reading(t), s, s2, Read(t, Validate));
    s' := After(m, s2, t, Validate);
  }

  /** A read that runs alone returns what the container holds, and leaves the readers and their
      counters as they were. */
  lemma ReadReturns(m: nat, s: State, t: Tid) returns (s': State)
    requires m > 0 && !s.dropped && t !in s.readers
    ensures Reaches(m, Reading(t), s, s') && s'.readers == s.readers
    ensures s'.registered0 == s.registered0 && s'.registered1 == s.registered1
    ensures s'.held == if s.ptr.Some? then s.held + multiset{s.ptr.value} else s.held
    ensures s'.ptr == s.ptr && s'.epoch == s.epoch && s'.writer == s.writer && s'.published == s.published
    ensures forall v: Val :: Count(s', v) == Count(s, v) + One(s.ptr == Some(v))
  {
    var s1 := NewValidates(m, s, t);
    s' := ValidatedReturns(m, s1, t);
    Joins(m, Reading(t), s, s1, s');
    Chain(s, s1, s', t);
    AllAsBefore(s, s1, s', t, s.epoch);
  }

  lemma NewValidates(m: nat, s: State, t: Tid) returns (s': State)
    requires m > 0 && !s.dropped && t !in s.readers
    ensures Reaches(m, Reading(t), s, s') && SameOutside(s, s', t) && SameReferences(s, s') && t in s'.readers
    ensures s'.readers[t].Validated? && s'.readers[t].epoch == s.epoch && Counted(s, s', s.epoch, 1)
  {
    Stays(m, Reading(t), s);
    Moves(m, s, t, Start);
    Goes(m, Reading(t), s, s, Read(t, Start));
    var s1 := After(m, s, t, Start);
    s' := StartedValidates(m, s1, t);
    Joins(m, Reading(t), s, s1, s');
    Chain(s, s1, s', t);
  }

  lemma AllAsBefore(s: State, s2: State, s': State, t: Tid, epoch: nat)
    requires SameOutside(s, s2, t) && SameReferences(s, s2) && Returned(s2, s', t) && SameOutside(s, s', t) && t !in s.readers
    requires Counted(s, s2, epoch, 1) && Counted(s2, s', epoch, -1)
    ensures s'.readers == s.readers && s'.registered0 == s.registered0 && s'.registered1 == s.registered1
    ensures forall v: Val :: Count(s', v) == Count(s, v) + One(s.ptr == Some(v))
  {
    assert s'.readers - {t} == s'.readers && s.readers - {t} == s.readers;
  }

  /** Wherever a read stands, on its own it comes to its end. */
  lemma ReaderReturns(m: nat, s: State, t: Tid) returns (s': State)
    requires m > 0 && t in s.readers
    ensures Reaches(m, Reading(t), s, s') && t !in s'.readers && SameOutside(s, s', t)
  {
    var r := s.readers[t];
    Stays(m, Reading(t), s);
    match r
    case Started(_) => s' := FromStarted(m, s, t);
    case HasEpoch(_, _) =>
      Moves(m, s, t, Register);
      Goes(m, Reading(t), s, s, Read(t, Register));
      var s1 := After(m, s, t, Register);
      s' := FromRegistered(m, s1, t);
      Joins(m, Reading(t), s, s1, s');
      Chain(s, s1, s', t);
    case Registered(_, _) => s' := FromRegistered(m, s, t);
    case Stale(_, _) => s' := FromStale(m, s, t);
    case Validated(_, _) => s' := ValidatedReturns(m, s, t);
    case Pinned(_, _, ptr, _) => if ptr.None? { s' := PinnedNoneReturns(m, s, t); } else { s' := PinnedReturns(m, s, t); }
    case Owning(_, _, _, _) =>
      OwnerReturns(m, s, t);
      Goes(m, Reading(t), s, s, Read(t, Return));
      s' := After(m, s, t, Return);
  }

  lemma FromStarted(m: nat, s: State, t: Tid) returns (s': State)
    requires m > 0 && t in s.readers && s.readers[t].Started?
    ensures Reaches(m, Reading(t), s, s') && t !in s'.readers && SameOutside(s, s', t)
  {
    var s1 := StartedValidates(m, s, t);
    s' := ValidatedReturns(m, s1, t);
    Joins(m, Reading(t), s, s1, s');
    Chain(s, s1, s', t);
  }

  lemma FromStale(m: nat, s: State, t: Tid) returns (s': State)
    requires m > 0 && t in s.readers && s.readers[t].Stale?
    ensures Reaches(m, Reading(t), s, s') && t !in s'.readers && SameOutside(s, s', t)
  {
    Stays(m, Reading(t), s);
    Moves(m, s, t, Retry);
    Goes(m, Reading(t), s, s, Read(t, Retry));
    var s1 := After(m, s, t, Retry);
    s' := FromStarted(m, s1, t);
    Joins(m, Reading(t), s, s1, s');
    Chain(s, s1, s', t);
  }

  lemma FromRegistered(m: nat, s: State, t: Tid) returns (s': State)
    requires m > 0 && t in s.readers && s.readers[t].Registered?
    ensures Reaches(m, Reading(t), s, s') && t !in s'.readers && SameOutside(s, s', t)
  {
    Stays(m, Reading(t), s);
    Moves(m, s, t, Validate);
    Goes(m, Reading(t), s, s, Read(t, Validate));
    var s1 := After(m, s, t, Validate);
    if s1.readers[t].Stale? { s' := FromStale(m, s1, t); } else { s' := ValidatedReturns(m, s1, t); }
    Joins(m, Reading(t), s, s1, s');
    Chain(s, s1, s', t);
  }

  // ---- A write ---------------------------------------------------------------------------------------------

  /** The epoch the writer waits for, or is going to. */
  function Leaving(s: State): nat { if s.writer.Waiting? then s.writer.oldEpoch else s.epoch }

  /** The value it has put out of the container, or is going to. */
  function Retired(s: State): Option<Val> {
    match s.writer
    case Idle => None
    case Entered(_) => s.ptr
    case Swapped(retired) => retired
    case Waiting(retired, _) => retired
    case Draining(retired) => retired
  }

  /** What a write leaves alone. */
  predicate SameReaders(s: State, s': State) {
    && s'.readers == s.readers && s'.registered0 == s.registered0 && s'.registered1 == s.registered1 && s'.held == s.held
    && s'.pending == s.pending && s'.dropped == s.dropped && s'.next == s.next
  }

  /** The writer is done, and has given up its reference to the value it put out. */
  ghost predicate Done(s: State, s': State, retired: Option<Val>) {
    && SameReaders(s, s') && s'.writer.Idle?
    && (forall v: Val :: Count(s', v) == Count(s, v) - One(retired == Some(v)))
    && (forall v: Val :: s'.frees[v] == s.frees[v] + One(retired == Some(v) && Count(s, v) == 1))
  }

  lemma Retires(m: nat, s: State)
    requires m > 0 && s.writer.Draining? && (s.writer.retired.Some? ==> Count(s, s.writer.retired.value) > 0)
    ensures var s' := Apply(m, s, Write(Retire)); Done(s, s', s.writer.retired) && s'.ptr == s.ptr && s'.epoch == s.epoch
  {
  }

  lemma DrainingEnds(m: nat, s0: State, s: State) returns (s': State)
    requires m > 0 && Reaches(m, Writing, s0, s)
    requires s.writer.Draining? && (s.writer.retired.Some? ==> Count(s, s.writer.retired.value) > 0)
    ensures Reaches(m, Writing, s0, s') && Done(s, s', s.writer.retired) && s'.ptr == s.ptr && s'.epoch == s.epoch
    ensures s'.published == s.published
  {
    Retires(m, s);
    Goes(m, Writing, s0, s, Write(Retire));
    s' := Apply(m, s, Write(Retire));
  }

  /** With nobody registered under the parity it leaves, the wait is over at the next look. */
  lemma WaitingEnds(m: nat, s0: State, s: State) returns (s': State)
    requires m > 0 && Reaches(m, Writing, s0, s) && s.writer.Waiting? && Readers(s, s.writer.oldEpoch) == 0
    requires s.writer.retired.Some? ==> Count(s, s.writer.retired.value) > 0
    ensures Reaches(m, Writing, s0, s') && Done(s, s', s.writer.retired) && s'.ptr == s.ptr && s'.epoch == s.epoch
    ensures s'.published == s.published
  {
    Goes(m, Writing, s0, s, Write(Poll));
    s' := DrainingEnds(m, s0, Apply(m, s, Write(Poll)));
  }

  lemma SwappedEnds(m: nat, s0: State, s: State) returns (s': State)
    requires m > 0 && Reaches(m, Writing, s0, s) && s.writer.Swapped? && Readers(s, s.epoch) == 0
    requires s.writer.retired.Some? ==> Count(s, s.writer.retired.value) > 0
    ensures Reaches(m, Writing, s0, s') && Done(s, s', s.writer.retired) && s'.ptr == s.ptr && s'.epoch == (s.epoch + 1) % m
    ensures s'.published == s.published
  {
    Goes(m, Writing, s0, s, Write(Advance));
    s' := WaitingEnds(m, s0, Apply(m, s, Write(Advance)));
  }

  lemma EnteredEnds(m: nat, s0: State, s: State) returns (s': State)
    requires m > 0 && Reaches(m, Writing, s0, s) && s.writer.Entered? && Readers(s, s.epoch) == 0
    requires s.ptr.Some? ==> Count(s, s.ptr.value) > 0
    ensures Reaches(m, Writing, s0, s') && Done(s, s', s.ptr) && s'.ptr == Some(s.writer.incoming)
    ensures s'.epoch == (s.epoch + 1) % m && s'.published == s.published + [s.writer.incoming]
  {
    Goes(m, Writing, s0, s, Write(Swap));
    s' := SwappedEnds(m, s0, Apply(m, s, Write(Swap)));
  }

  lemma RetiredIsCounted(m: nat, start: State, steps: seq<Step>, s: State)
    requires m > 0 && Starts(start) && Runs(m, start, steps, s)
    ensures Retired(s).Some? ==> Count(s, Retired(s).value) > 0
    ensures s.ptr.Some? ==> Count(s, s.ptr.value) > 0
  {
    if Retired(s).Some? { CountsAreOwners(m, start, steps, s, Retired(s).value); }
    if s.ptr.Some? { CountsAreOwners(m, start, steps, s, s.ptr.value); }
  }

  /** Wherever a writer stands, when nobody is registered under the parity it leaves it comes to
      its end on its own, and gives up its reference to the value it put out, which is freed if
      that was the last one. */
  lemma WriterReturns(m: nat, start: State, steps: seq<Step>, s: State) returns (s': State)
    requires m > 0 && Starts(start) && Runs(m, start, steps, s) && !s.writer.Idle?
    requires s.writer.Draining? || Readers(s, Leaving(s)) == 0
    ensures Reaches(m, Writing, s, s') && Done(s, s', Retired(s))
    ensures s'.ptr == if s.writer.Entered? then Some(s.writer.incoming) else s.ptr
  {
    RetiredIsCounted(m, start, steps, s);
    Stays(m, Writing, s);
    match s.writer
    case Entered(_) => s' := EnteredEnds(m, s, s);
    case Swapped(_) => s' := SwappedEnds(m, s, s);
    case Waiting(_, _) => s' := WaitingEnds(m, s, s);
    case Draining(_) => s' := DrainingEnds(m, s, s);
  }

  /** A whole write, alone and with nobody registered under the current parity: its value is what
      the container holds, in the next epoch. */
  lemma WriteReturns(m: nat, start: State, steps: seq<Step>, s: State) returns (s': State)
    requires m > 0 && Starts(start) && Runs(m, start, steps, s)
    requires !s.dropped && s.writer.Idle? && Readers(s, s.epoch) == 0
    ensures Reaches(m, Writing, s, s') && s'.writer.Idle? && s'.readers == s.readers && s'.pending == s.pending - {s.next}
    ensures s'.ptr == Some(s.next) && s'.published == s.published + [s.next] && s'.epoch == (s.epoch + 1) % m
  {
    RetiredIsCounted(m, start, steps, s);
    Stays(m, Writing, s);
    Goes(m, Writing, s, s, Write(Create));
    var s1 := Apply(m, s, Write(Create));
    Goes(m, Writing, s, s1, Write(Lock(s.next)));
    s' := EnteredEnds(m, s, Apply(m, s1, Write(Lock(s.next))));
  }
}
