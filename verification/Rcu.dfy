/**
  The epoch-based read-copy-update container of src/bus/rcu.rs, as an interleaving of
  atomic steps by any number of readers and writers.

  Every pointer, epoch and reader-counter access of the source is sequentially consistent,
  so one step here is one of those accesses.  A value is the identity of one `Arc`
  allocation; `counts` holds the strong counts of the allocations that are not yet freed.
  The epoch counter wraps modulo `m`.
*/
module Rcu {
  import opened Options

  type Tid = nat
  type Val = nat

  /** Where one call of `read` stands.  `start` is how many values had been published when
      the call began; `at` is the position in that history of the value it loaded. */
  datatype Reader =
    | Started(start: nat)
    | HasEpoch(start: nat, epoch: nat)
    | Registered(start: nat, epoch: nat)
    | Stale(start: nat, epoch: nat)
    | Validated(start: nat, epoch: nat)
    | Pinned(start: nat, epoch: nat, ptr: Option<Val>, at: nat)
    | Owning(start: nat, epoch: nat, val: Val, at: nat)

  /** Where the holder of the writer mutex stands. */
  datatype Writer =
    | Idle
    | Entered(incoming: Val)
    | Swapped(retired: Option<Val>)
    | Waiting(retired: Option<Val>, oldEpoch: nat)
    | Draining(retired: Option<Val>)

  datatype State = State(
    ptr: Option<Val>,
    epoch: nat,
    registered0: int,
    registered1: int,
    readers: map<Tid, Reader>,
    writer: Writer,
    pending: set<Val>,
    counts: map<Val, nat>,
    held: multiset<Val>,
    frees: multiset<Val>,
    next: Val,
    published: seq<Val>,
    dropped: bool)

  datatype ReadOp = Start | LoadEpoch | Register | Validate | Retry | LoadPtr | ReturnNone | Increment | Return

  datatype WriteOp = Create | Lock(v: Val) | Swap | Advance | Poll | Retire

  datatype OwnerOp = CloneHandle(v: Val) | DropHandle(v: Val) | DropContainer

  datatype Step = Read(t: Tid, rop: ReadOp) | Write(wop: WriteOp) | Owner(oop: OwnerOp)

  function Empty(): State {
    State(None, 0, 0, 0, map[], Idle, {}, map[], multiset{}, multiset{}, 0, [], false)
  }

  /** A container made with a first value. */
  function New(): State {
    Empty().(ptr := Some(0), counts := map[0 := 1], next := 1, published := [0])
  }

  predicate Starts(s: State) { s == Empty() || s == New() }

  function Count(s: State, v: Val): nat {
    if v in s.counts then s.counts[v] else 0
  }

  /** Dropping one reference: the last one frees the allocation. */
  function Release(s: State, v: Val): State {
    if Count(s, v) <= 1 then
      s.(counts := s.counts - {v}, frees := s.frees + multiset{v})
    else
      s.(counts := s.counts[v := s.counts[v] - 1])
  }

  function AddReaders(s: State, parity: nat, delta: int): State {
    if parity % 2 == 0 then s.(registered0 := s.registered0 + delta)
    else s.(registered1 := s.registered1 + delta)
  }

  function Readers(s: State, parity: nat): int {
    if parity % 2 == 0 then s.registered0 else s.registered1
  }

  predicate CanRead(s: State, t: Tid, op: ReadOp) {
    match op
    case Start => !s.dropped && t !in s.readers
    case LoadEpoch => t in s.readers && s.readers[t].Started?
    case Register => t in s.readers && s.readers[t].HasEpoch?
    case Validate => t in s.readers && s.readers[t].Registered?
    case Retry => t in s.readers && s.readers[t].Stale?
    case LoadPtr => t in s.readers && s.readers[t].Validated?
    case ReturnNone => t in s.readers && s.readers[t].Pinned? && s.readers[t].ptr.None?
    case Increment => t in s.readers && s.readers[t].Pinned? && s.readers[t].ptr.Some?
    case Return => t in s.readers && s.readers[t].Owning?
  }

  predicate CanWrite(s: State, op: WriteOp) {
    match op
    case Create => !s.dropped
    case Lock(v) => v in s.pending && s.writer.Idle?
    case Swap => s.writer.Entered?
    case Advance => s.writer.Swapped?
    case Poll => s.writer.Waiting?
    case Retire => s.writer.Draining?
  }

  predicate CanOwn(s: State, op: OwnerOp) {
    match op
    case CloneHandle(v) => v in s.held
    case DropHandle(v) => v in s.held
    case DropContainer => !s.dropped && s.readers == map[] && s.writer.Idle? && s.pending == {}
  }

  /** Which step may run.  Nothing here looks at reference counts: whether a reference may
      be taken is what the theorems establish. */
  predicate Enabled(s: State, step: Step) {
    match step
    case Read(t, op) => CanRead(s, t, op)
    case Write(op) => CanWrite(s, op)
    case Owner(op) => CanOwn(s, op)
  }

  /** The reader's own next position; none once the call has returned. */
  function NextReader(s: State, t: Tid, op: ReadOp): Option<Reader>
    requires CanRead(s, t, op)
  {
    match op
    case Start => Some(Started(|s.published|))
    case LoadEpoch => Some(HasEpoch(s.readers[t].start, s.epoch))
    case Register => Some(Registered(s.readers[t].start, s.readers[t].epoch))
    case Validate =>
      var r := s.readers[t];
      Some(if r.epoch == s.epoch then Validated(r.start, r.epoch) else Stale(r.start, r.epoch))
    case Retry => Some(Started(s.readers[t].start))
    case LoadPtr =>
      var r := s.readers[t];
      Some(Pinned(r.start, r.epoch, s.ptr, if s.published == [] then 0 else |s.published| - 1))
    case ReturnNone => None
    case Increment =>
      var r := s.readers[t];
      Some(Owning(r.start, r.epoch, r.ptr.value, r.at))
    case Return => None
  }

  /** What the step does to the shared counters and to the handles. */
  function ReadEffect(s: State, t: Tid, op: ReadOp): State
    requires CanRead(s, t, op)
  {
    match op
    case Register => AddReaders(s, s.readers[t].epoch, 1)
    case Retry => AddReaders(s, s.readers[t].epoch, -1)
    case ReturnNone => AddReaders(s, s.readers[t].epoch, -1)
    case Return => AddReaders(s, s.readers[t].epoch, -1).(held := s.held + multiset{s.readers[t].val})
    case Increment =>
      var v := s.readers[t].ptr.value;
      s.(counts := s.counts[v := Count(s, v) + 1])
    case _ => s
  }

  function ApplyRead(s: State, t: Tid, op: ReadOp): State
    requires CanRead(s, t, op)
  {
    var r := NextReader(s, t, op);
    ReadEffect(s, t, op).(readers := if r.Some? then s.readers[t := r.value] else s.readers - {t})
  }

  function ApplyWrite(m: nat, s: State, op: WriteOp): State
    requires m > 0 && CanWrite(s, op)
  {
    match op
    case Create =>
      s.(counts := s.counts[s.next := 1], pending := s.pending + {s.next}, next := s.next + 1)
    case Lock(v) => s.(pending := s.pending - {v}, writer := Entered(v))
    case Swap =>
      s.(ptr := Some(s.writer.incoming), writer := Swapped(s.ptr), published := s.published + [s.writer.incoming])
    case Advance => s.(epoch := (s.epoch + 1) % m, writer := Waiting(s.writer.retired, s.epoch))
    case Poll =>
      if Readers(s, s.writer.oldEpoch) != 0 then s else s.(writer := Draining(s.writer.retired))
    case Retire =>
      (if s.writer.retired.Some? then Release(s, s.writer.retired.value) else s).(writer := Idle)
  }

  function ApplyOwner(s: State, op: OwnerOp): State
    requires CanOwn(s, op)
  {
    match op
    case CloneHandle(v) => s.(held := s.held + multiset{v}, counts := s.counts[v := Count(s, v) + 1])
    case DropHandle(v) => Release(s, v).(held := s.held - multiset{v})
    case DropContainer =>
      (if s.ptr.Some? then Release(s, s.ptr.value) else s).(ptr := None, dropped := true)
  }

  function Apply(m: nat, s: State, step: Step): State
    requires m > 0 && Enabled(s, step)
  {
    match step
    case Read(t, op) => ApplyRead(s, t, op)
    case Write(op) => ApplyWrite(m, s, op)
    case Owner(op) => ApplyOwner(s, op)
  }

  /** The state after a run, when every step of it was enabled in turn. */
  ghost predicate Runs(m: nat, s: State, steps: seq<Step>, s': State)
    requires m > 0
    decreases |steps|
  {
    if steps == [] then s' == s
    else Enabled(s, steps[0]) && Runs(m, Apply(m, s, steps[0]), steps[1..], s')
  }

  // ---- Counting readers ------------------------------------------------------

  datatype Kind = Parity(p: nat) | Owns(v: Val)

  predicate IsRegistered(r: Reader) {
    r.Registered? || r.Stale? || r.Validated? || r.Pinned? || r.Owning?
  }

  predicate IsValidated(r: Reader) {
    r.Validated? || r.Pinned? || r.Owning?
  }

  predicate Matches(r: Reader, k: Kind) {
    match k
    case Parity(p) => IsRegistered(r) && r.epoch % 2 == p % 2
    case Owns(v) => r.Owning? && r.val == v
  }

  function Select(readers: map<Tid, Reader>, k: Kind): set<Tid> {
    set t | t in readers && Matches(readers[t], k)
  }

  function One(b: bool): nat { if b then 1 else 0 }

  lemma Without<T>(a: set<T>, x: T)
    ensures |a - {x}| == |a| - One(x in a)
  {
    if x !in a { assert a - {x} == a; }
  }

  lemma SelectUpdate(readers: map<Tid, Reader>, t: Tid, r: Reader, k: Kind)
    ensures |Select(readers[t := r], k)| ==
            |Select(readers, k)| - One(t in readers && Matches(readers[t], k)) + One(Matches(r, k))
  {
    var a, b := Select(readers, k), Select(readers[t := r], k);
    Without(a, t);
    Without(b, t);
    forall x ensures x in a - {t} <==> x in b - {t} {
      if x != t { assert x in readers[t := r] <==> x in readers; }
    }
    assert a - {t} == b - {t};
  }

  lemma SelectRemove(readers: map<Tid, Reader>, t: Tid, k: Kind)
    requires t in readers
    ensures |Select(readers - {t}, k)| == |Select(readers, k)| - One(Matches(readers[t], k))
  {
    var a, b := Select(readers, k), Select(readers - {t}, k);
    Without(a, t);
    assert a - {t} == b;
  }

  // ---- The invariant -----------------------------------------------------------

  ghost predicate EpochInv(m: nat, s: State) {
    && s.epoch < m
    && s.registered0 == |Select(s.readers, Parity(0))|
    && s.registered1 == |Select(s.readers, Parity(1))|
  }

  /** A validated registration sits in the current parity, or in the one the writer waits for. */
  predicate Shielded(s: State, r: Reader) {
    IsValidated(r) ==>
      || r.epoch % 2 == s.epoch % 2
      || (s.writer.Waiting? && r.epoch % 2 == s.writer.oldEpoch % 2)
  }

  /** A loaded pointer is still owned by the container, or by a writer that waits for this reader. */
  predicate Protected(s: State, r: Reader) {
    r.Pinned? && r.ptr.Some? ==>
      || s.ptr == r.ptr
      || (s.writer.Swapped? && s.writer.retired == r.ptr)
      || (s.writer.Waiting? && s.writer.retired == r.ptr && r.epoch % 2 == s.writer.oldEpoch % 2)
  }

  /** What the call will return was current at some moment since it began. */
  predicate Current(s: State, r: Reader) {
    && r.start <= |s.published|
    && (r.Pinned? && r.ptr.None? ==> r.start == 0)
    && (r.Pinned? && r.ptr.Some? ==> r.at < |s.published| && r.start <= r.at + 1 && s.published[r.at] == r.ptr.value)
    && (r.Owning? ==> r.at < |s.published| && r.start <= r.at + 1 && s.published[r.at] == r.val)
  }

  ghost predicate ReaderOk(s: State, r: Reader) {
    Shielded(s, r) && Protected(s, r) && Current(s, r)
  }

  ghost predicate ReaderInv(s: State) {
    forall t | t in s.readers :: ReaderOk(s, s.readers[t])
  }

  function WriterOwns(w: Writer, v: Val): nat {
    match w
    case Idle => 0
    case Entered(incoming) => One(incoming == v)
    case Swapped(retired) => One(retired == Some(v))
    case Waiting(retired, _) => One(retired == Some(v))
    case Draining(retired) => One(retired == Some(v))
  }

  /** Everyone that owns a reference to `v`. */
  function Owners(s: State, v: Val): nat {
    One(s.ptr == Some(v)) + WriterOwns(s.writer, v) + One(v in s.pending)
    + |Select(s.readers, Owns(v))| + s.held[v]
  }

  /** What the count invariant says about one value. */
  ghost predicate CountAt(s: State, v: Val) {
    && Count(s, v) == Owners(s, v)
    && (v in s.counts ==> v < s.next && s.counts[v] > 0)
    && s.frees[v] == One(v < s.next && v !in s.counts)
  }

  ghost predicate CountInv(s: State) {
    forall v: Val :: CountAt(s, v)
  }

  ghost predicate HistoryInv(s: State) {
    && (!s.dropped ==> s.ptr == if s.published == [] then None else Some(s.published[|s.published| - 1]))
    && (s.dropped ==> s.ptr.None? && s.readers == map[] && s.writer.Idle? && s.pending == {})
  }

  ghost predicate Inv(m: nat, s: State) {
    EpochInv(m, s) && ReaderInv(s) && CountInv(s) && HistoryInv(s)
  }

  // ---- Every step keeps the invariant --------------------------------------------

  /** How one reader step changes the number of readers of a kind. */
  lemma SelectStep(s: State, t: Tid, op: ReadOp, k: Kind)
    requires CanRead(s, t, op)
    ensures |Select(ApplyRead(s, t, op).readers, k)| == |Select(s.readers, k)|
            - One(t in s.readers && Matches(s.readers[t], k))
            + One(NextReader(s, t, op).Some? && Matches(NextReader(s, t, op).value, k))
  {
    var r := NextReader(s, t, op);
    if r.Some? {
      SelectUpdate(s.readers, t, r.value, k);
    } else {
      SelectRemove(s.readers, t, k);
    }
  }

  lemma ReadKeepsEpochInv(m: nat, s: State, t: Tid, op: ReadOp)
    requires EpochInv(m, s) && CanRead(s, t, op)
    ensures EpochInv(m, ApplyRead(s, t, op))
  {
    SelectStep(s, t, op, Parity(0));
    SelectStep(s, t, op, Parity(1));
  }

  lemma ReaderMoves(s: State, t: Tid, op: ReadOp)
    requires ReaderInv(s) && HistoryInv(s) && CanRead(s, t, op)
    ensures var r := NextReader(s, t, op); r.Some? ==> ReaderOk(s, r.value)
  {
    if t in s.readers {
      assert ReaderOk(s, s.readers[t]);
    }
  }

  lemma ReadKeepsReaderInv(s: State, t: Tid, op: ReadOp)
    requires ReaderInv(s) && HistoryInv(s) && CanRead(s, t, op)
    ensures ReaderInv(ApplyRead(s, t, op))
  {
    var s' := ApplyRead(s, t, op);
    ReaderMoves(s, t, op);
    assert s'.ptr == s.ptr && s'.epoch == s.epoch && s'.writer == s.writer && s'.published == s.published;
    forall u | u in s'.readers ensures ReaderOk(s', s'.readers[u]) {
      assert ReaderOk(s, s'.readers[u]);
    }
  }

  lemma NobodyRegistered(m: nat, s: State, parity: nat, t: Tid)
    requires EpochInv(m, s) && Readers(s, parity) == 0 && t in s.readers
    ensures !(IsRegistered(s.readers[t]) && s.readers[t].epoch % 2 == parity % 2)
  {
    var same := Select(s.readers, Parity(parity % 2));
    assert |same| == 0 && t !in same;
  }

  lemma WriteKeepsReaderInv(m: nat, s: State, op: WriteOp)
    requires m > 0 && Inv(m, s) && CanWrite(s, op)
    ensures ReaderInv(ApplyWrite(m, s, op))
  {
    var s' := ApplyWrite(m, s, op);
    forall t | t in s'.readers ensures ReaderOk(s', s'.readers[t]) {
      assert ReaderOk(s, s.readers[t]);
      if op.Poll? && Readers(s, s.writer.oldEpoch) == 0 {
        NobodyRegistered(m, s, s.writer.oldEpoch, t);
      }
    }
  }

  lemma OwnerKeepsReaderInv(m: nat, s: State, op: OwnerOp)
    requires Inv(m, s) && CanOwn(s, op)
    ensures ReaderInv(ApplyOwner(s, op))
  {
    var s' := ApplyOwner(s, op);
    forall t | t in s'.readers ensures ReaderOk(s', s'.readers[t]) {
      assert ReaderOk(s, s.readers[t]);
    }
  }

  lemma ReleaseCount(s: State, v: Val, u: Val)
    requires Count(s, v) > 0
    ensures Count(Release(s, v), u) == Count(s, u) - One(u == v)
    ensures Release(s, v).frees[u] == s.frees[u] + One(u == v && Count(s, v) == 1)
    ensures u in Release(s, v).counts <==> u in s.counts && !(u == v && Count(s, v) == 1)
    ensures u in Release(s, v).counts ==> Release(s, v).counts[u] == Count(Release(s, v), u)
  {
  }

  /** A read step moves a reference between the shared counts, the call and the handles. */
  lemma ReadOwnership(m: nat, s: State, t: Tid, op: ReadOp, v: Val)
    requires Inv(m, s) && CanRead(s, t, op)
    ensures var s' := ReadEffect(s, t, op);
            var before := One(t in s.readers && Matches(s.readers[t], Owns(v)));
            var after := One(NextReader(s, t, op).Some? && Matches(NextReader(s, t, op).value, Owns(v)));
            && Count(s', v) - s'.held[v] - after == Count(s, v) - s.held[v] - before
            && (v in s'.counts <==> v in s.counts)
            && (v in s'.counts ==> s'.counts[v] == Count(s', v))
            && Count(s', v) >= Count(s, v)
  {
    if op.Increment? { IncrementIsSafe(m, s, t); }
  }

  /** No read step touches the pointer, the writers or the record of what was freed. */
  lemma ReadLeavesWriters(s: State, t: Tid, op: ReadOp)
    requires CanRead(s, t, op)
    ensures SameWriters(s, ReadEffect(s, t, op))
  {
  }

  predicate SameWriters(s: State, s': State) {
    s'.ptr == s.ptr && s'.writer == s.writer && s'.pending == s.pending && s'.next == s.next && s'.frees == s.frees
  }

  lemma CountMoves(s: State, s': State, v: Val, gain: int)
    requires CountAt(s, v) && SameWriters(s, s') && (v in s'.counts <==> v in s.counts)
    requires v in s'.counts ==> s'.counts[v] == Count(s', v)
    requires |Select(s'.readers, Owns(v))| == |Select(s.readers, Owns(v))| + gain
    requires Count(s', v) - s'.held[v] == Count(s, v) - s.held[v] + gain && Count(s', v) >= Count(s, v)
    ensures CountAt(s', v)
  {
  }

  lemma ReadKeepsCount(m: nat, s: State, t: Tid, op: ReadOp, v: Val)
    requires Inv(m, s) && CanRead(s, t, op)
    ensures CountAt(ApplyRead(s, t, op), v)
  {
    var s' := ApplyRead(s, t, op);
    assert CountAt(s, v);
    SelectStep(s, t, op, Owns(v));
    ReadOwnership(m, s, t, op, v);
    ReadLeavesWriters(s, t, op);
    assert s' == ReadEffect(s, t, op).(readers := s'.readers);
    CountMoves(s, s', v, |Select(s'.readers, Owns(v))| - |Select(s.readers, Owns(v))|);
  }

  lemma WriteKeepsCount(m: nat, s: State, op: WriteOp, v: Val)
    requires m > 0 && Inv(m, s) && CanWrite(s, op)
    ensures CountAt(ApplyWrite(m, s, op), v)
  {
    assert CountAt(s, v);
    match op
    case Create => assert CountAt(s, s.next);
    case Retire =>
      if s.writer.retired.Some? {
        assert CountAt(s, s.writer.retired.value);
        ReleaseCount(s, s.writer.retired.value, v);
      }
    case _ =>
  }

  lemma CloneKeepsCount(s: State, u: Val, v: Val)
    requires CountInv(s) && CanOwn(s, CloneHandle(u))
    ensures CountAt(ApplyOwner(s, CloneHandle(u)), v)
  {
    assert CountAt(s, v);
    assert CountAt(s, u);
  }

  lemma DropKeepsCount(s: State, u: Val, v: Val)
    requires CountInv(s) && CanOwn(s, DropHandle(u))
    ensures CountAt(ApplyOwner(s, DropHandle(u)), v)
  {
    assert CountAt(s, v);
    assert CountAt(s, u);
    ReleaseCount(s, u, v);
  }

  lemma ContainerDropKeepsCount(s: State, v: Val)
    requires CountInv(s) && CanOwn(s, DropContainer)
    ensures CountAt(ApplyOwner(s, DropContainer), v)
  {
    assert CountAt(s, v);
    if s.ptr.Some? {
      assert CountAt(s, s.ptr.value);
      ReleaseCount(s, s.ptr.value, v);
    }
  }

  lemma ReadKeepsInv(m: nat, s: State, t: Tid, op: ReadOp)
    requires Inv(m, s) && CanRead(s, t, op)
    ensures Inv(m, ApplyRead(s, t, op))
  {
    forall v: Val ensures CountAt(ApplyRead(s, t, op), v) { ReadKeepsCount(m, s, t, op, v); }
    ReadKeepsEpochInv(m, s, t, op);
    ReadKeepsReaderInv(s, t, op);
  }

  lemma WriteKeepsInv(m: nat, s: State, op: WriteOp)
    requires m > 0 && Inv(m, s) && CanWrite(s, op)
    ensures Inv(m, ApplyWrite(m, s, op))
  {
    forall v: Val ensures CountAt(ApplyWrite(m, s, op), v) { WriteKeepsCount(m, s, op, v); }
    WriteKeepsReaderInv(m, s, op);
  }

  lemma OwnerKeepsInv(m: nat, s: State, op: OwnerOp)
    requires Inv(m, s) && CanOwn(s, op)
    ensures Inv(m, ApplyOwner(s, op))
  {
    forall v: Val ensures CountAt(ApplyOwner(s, op), v) {
      match op
      case CloneHandle(u) => CloneKeepsCount(s, u, v);
      case DropHandle(u) => DropKeepsCount(s, u, v);
      case DropContainer => ContainerDropKeepsCount(s, v);
    }
    OwnerKeepsReaderInv(m, s, op);
  }

  lemma StepKeepsInv(m: nat, s: State, step: Step)
    requires m > 0 && Inv(m, s) && Enabled(s, step)
    ensures Inv(m, Apply(m, s, step))
  {
    match step
    case Read(t, op) => ReadKeepsInv(m, s, t, op);
    case Write(op) => WriteKeepsInv(m, s, op);
    case Owner(op) => OwnerKeepsInv(m, s, op);
  }

  lemma StartInv(m: nat, s: State)
    requires m > 0 && Starts(s)
    ensures Inv(m, s)
  {
    assert Select(s.readers, Parity(0)) == {} && Select(s.readers, Parity(1)) == {};
    forall v: Val ensures CountAt(s, v) { assert Select(s.readers, Owns(v)) == {}; }
  }

  lemma {:induction false} RunKeepsInv(m: nat, s: State, steps: seq<Step>, s': State)
    requires m > 0 && Inv(m, s) && Runs(m, s, steps, s')
    ensures Inv(m, s')
    decreases |steps|
  {
    if steps != [] {
      StepKeepsInv(m, s, steps[0]);
      RunKeepsInv(m, Apply(m, s, steps[0]), steps[1..], s');
    }
  }

  // ---- Results over every run --------------------------------------------------------

  /** The container, or a writer that has not finished retiring, still owns `v`. */
  predicate ContainerOwns(s: State, v: Val) {
    s.ptr == Some(v) || WriterOwns(s.writer, v) == 1
  }

  lemma IncrementIsSafe(m: nat, s: State, t: Tid)
    requires Inv(m, s) && Enabled(s, Read(t, Increment))
    ensures ContainerOwns(s, s.readers[t].ptr.value)
    ensures s.readers[t].ptr.value in s.counts
  {
    var v := s.readers[t].ptr.value;
    assert Protected(s, s.readers[t]);
    assert CountAt(s, v);
  }

  /** No reader ever takes a reference to a value whose container reference is gone. */
  lemma NoUseAfterFree(m: nat, start: State, steps: seq<Step>, s: State, t: Tid)
    requires m > 0 && Starts(start) && Runs(m, start, steps, s) && Enabled(s, Read(t, Increment))
    ensures ContainerOwns(s, s.readers[t].ptr.value)
    ensures s.readers[t].ptr.value in s.counts && s.frees[s.readers[t].ptr.value] == 0
  {
    StartInv(m, start);
    RunKeepsInv(m, start, steps, s);
    IncrementIsSafe(m, s, t);
    assert CountAt(s, s.readers[t].ptr.value);
  }

  /** Strong counts are exactly the live owners, and nothing is freed twice or while owned. */
  lemma CountsAreOwners(m: nat, start: State, steps: seq<Step>, s: State, v: Val)
    requires m > 0 && Starts(start) && Runs(m, start, steps, s)
    ensures Count(s, v) == Owners(s, v)
    ensures s.frees[v] == One(v < s.next && Owners(s, v) == 0)
  {
    StartInv(m, start);
    RunKeepsInv(m, start, steps, s);
    assert CountAt(s, v);
  }

  /** Once the container and every handle are gone, every value ever created has been freed exactly once. */
  lemma EverythingIsReclaimedOnce(m: nat, start: State, steps: seq<Step>, s: State, v: Val)
    requires m > 0 && Starts(start) && Runs(m, start, steps, s)
    requires s.dropped && s.held == multiset{} && v < s.next
    ensures s.frees[v] == 1
  {
    CountsAreOwners(m, start, steps, s, v);
    RunKeepsHistory(m, start, steps, s);
    assert Select(s.readers, Owns(v)) == {};
  }

  lemma RunKeepsHistory(m: nat, start: State, steps: seq<Step>, s: State)
    requires m > 0 && Starts(start) && Runs(m, start, steps, s)
    ensures HistoryInv(s) && ReaderInv(s)
  {
    StartInv(m, start);
    RunKeepsInv(m, start, steps, s);
  }

  /** A call returns a value that was the newest one at some moment since it began; in
      particular one at least as new as any write that had finished by then.  It returns
      nothing only if nothing had been published when it began. */
  lemma ReadIsCurrent(m: nat, start: State, steps: seq<Step>, s: State, t: Tid)
    requires m > 0 && Starts(start) && Runs(m, start, steps, s)
    requires Enabled(s, Read(t, Return)) || Enabled(s, Read(t, ReturnNone))
    ensures Enabled(s, Read(t, Return)) ==>
              && s.readers[t].start - 1 <= s.readers[t].at < |s.published|
              && s.published[s.readers[t].at] == s.readers[t].val
              && s.readers[t].val in s.counts
    ensures Enabled(s, Read(t, ReturnNone)) ==> s.readers[t].start == 0
  {
    RunKeepsHistory(m, start, steps, s);
    assert Current(s, s.readers[t]);
    if Enabled(s, Read(t, Return)) {
      CountsAreOwners(m, start, steps, s, s.readers[t].val);
      assert t in Select(s.readers, Owns(s.readers[t].val));
    }
  }
}
