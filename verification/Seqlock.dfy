/**
  `AtomicBits64` of src/sync.rs: a 64-bit map kept as four 16-bit words under an odd/even
  sequence word.  Any number of writers and readers interleave, one atomic access a step.

  `total` is the sequence number without its 32-bit wrap-around, and `values`/`log` record
  the committed maps and the operations that produced them; no step tests them.
*/
module Seqlock {
  import opened Bits64
  import opened Options
  import opened Words

  type Tid = nat

  datatype Op = StoreBits(bits: bits) | SetBit(ch: nat, on: bool) | MaskReplace(mask: bits, bits: bits)

  /** `set_bit` refuses a channel past 63 before it touches anything. */
  predicate Admitted(op: Op) { op.SetBit? ==> op.ch < 64 }

  // ---- What an operation means for the whole map ---------------------------------------

  function ApplyOp(op: Op, b: bits): bits
    requires Admitted(op)
  {
    match op
    case StoreBits(bits) => bits
    case SetBit(ch, on) => if on then b + {ch} else b - {ch}
    case MaskReplace(mask, bits) => Replace(b, mask, bits)
  }

  // ---- What it does to one word ----------------------------------------------------------

  predicate Touches(op: Op, i: nat) {
    match op
    case StoreBits(_) => true
    case SetBit(ch, _) => i == ch / 16
    case MaskReplace(mask, _) => Word(mask, i) != {}
  }

  function WordOp(op: Op, i: nat, cur: bits): bits
    requires Admitted(op)
  {
    if !Touches(op, i) then cur else
    match op
    case StoreBits(bits) => Word(bits, i)
    case SetBit(ch, on) => if on then cur + {ch} else cur - {ch}
    case MaskReplace(mask, bits) => (cur - Word(mask, i)) + (Word(bits, i) * Word(mask, i))
  }

  lemma WordOpIsApplyOp(op: Op, b: bits, i: nat)
    requires Admitted(op)
    ensures WordOp(op, i, Word(b, i)) == Word(ApplyOp(op, b), i)
  {
    match op
    case StoreBits(_) =>
    case SetBit(_, _) =>
    case MaskReplace(mask, bits) =>
      forall ch: nat ensures ch in WordOp(op, i, Word(b, i)) <==> ch in Word(ApplyOp(op, b), i) {
        if ch in mask && ch / 16 == i { assert ch in Word(mask, i); }
      }
  }

  // ---- The protocol -----------------------------------------------------------------------

  /** A write call before it owns the map. */
  datatype Call = Spinning(op: Op) | Seen(op: Op, seen: nat)

  /** The owner: it has stored the words below `i`; `loaded` is the word it has read for `i`. */
  datatype Owner = Owner(op: Op, writeSeq: nat, i: nat, loaded: Option<bits>)

  /** A bounded read: `left` attempts remain.  `since` is `total` when the attempt began. */
  datatype Reader = Ready(left: nat) | Reading(left: nat, before: nat, since: nat, got: seq<bits>)

  datatype State = State(
    words: seq<bits>,
    seqWord: nat,
    calls: map<Tid, Call>,
    owner: Option<Owner>,
    readers: map<Tid, Reader>,
    total: nat,
    values: seq<bits>,
    log: seq<Op>)

  datatype Step =
    | Begin(t: Tid, op: Op) | LoadSeq(t: Tid) | Cas(t: Tid) | CasFails(t: Tid)
    | LoadWord | StoreWord | End
    | BeginRead(t: Tid, attempts: nat) | ReadSeq(t: Tid) | ReadWord(t: Tid) | ReadCheck(t: Tid)

  function Split(b: bits): seq<bits> { [Word(b, 0), Word(b, 1), Word(b, 2), Word(b, 3)] }

  function Init(b: bits): State { State(Split(b), 0, map[], None, map[], 0, [b], []) }

  /** The next word the operation stores, from `i` on. */
  function NextWord(op: Op, i: nat): (j: nat)
    ensures j <= 4 && (i <= 4 ==> i <= j)
    ensures j < 4 ==> Touches(op, j)
    ensures forall k :: i <= k < j ==> !Touches(op, k)
    decreases 4 - i
  {
    if i >= 4 then 4 else if Touches(op, i) then i else NextWord(op, i + 1)
  }

  predicate Enabled(s: State, step: Step) {
    match step
    case Begin(t, op) => t !in s.calls && Admitted(op)
    case LoadSeq(t) => t in s.calls && s.calls[t].Spinning?
    case Cas(t) => t in s.calls && s.calls[t].Seen?
    case CasFails(t) => t in s.calls && s.calls[t].Seen?
    case LoadWord => s.owner.Some? && s.owner.value.i < 4 && s.owner.value.loaded.None? && !s.owner.value.op.StoreBits?
    case StoreWord => s.owner.Some? && s.owner.value.i < 4 && (s.owner.value.loaded.Some? || s.owner.value.op.StoreBits?)
    case End => s.owner.Some? && s.owner.value.i == 4
    case BeginRead(t, _) => t !in s.readers
    case ReadSeq(t) => t in s.readers && s.readers[t].Ready? && s.readers[t].left > 0
    case ReadWord(t) => t in s.readers && s.readers[t].Reading? && |s.readers[t].got| < 4
    case ReadCheck(t) => t in s.readers && s.readers[t].Reading? && |s.readers[t].got| == 4
  }

  /** A read that ends its attempt with the sequence word unchanged returns what it read. */
  predicate Returns(s: State, t: Tid) {
    Enabled(s, ReadCheck(t)) && s.readers[t].before == s.seqWord
  }

  function Result(s: State, t: Tid): bits
    requires Enabled(s, ReadCheck(t))
  {
    var g := s.readers[t].got;
    Join(g[0], g[1], g[2], g[3])
  }

  predicate WellFormed(s: State) {
    && |s.words| == 4
    && s.values != []
    && (s.owner.Some? ==> Admitted(s.owner.value.op) && s.owner.value.i <= 4)
    && (forall t | t in s.calls :: Admitted(s.calls[t].op))
  }

  function Last(s: State): bits
    requires s.values != []
  {
    s.values[|s.values| - 1]
  }

  function Apply(s: State, step: Step): State
    requires WellFormed(s) && Enabled(s, step)
  {
    match step
    case Begin(t, op) => s.(calls := s.calls[t := Spinning(op)])
    case LoadSeq(t) =>
      if s.seqWord % 2 != 0 then s else s.(calls := s.calls[t := Seen(s.calls[t].op, s.seqWord)])
    case Cas(t) =>
      var op := s.calls[t].op;
      if s.seqWord == s.calls[t].seen then
        s.(calls := s.calls - {t}, owner := Some(Owner(op, s.seqWord, NextWord(op, 0), None)),
           seqWord := (s.seqWord + 1) % WRAP, total := s.total + 1)
      else s.(calls := s.calls[t := Spinning(op)])
    case CasFails(t) => s.(calls := s.calls[t := Spinning(s.calls[t].op)])
    case LoadWord =>
      var o := s.owner.value;
      s.(owner := Some(o.(loaded := Some(s.words[o.i]))))
    case StoreWord =>
      var o := s.owner.value;
      var cur := if o.loaded.Some? then o.loaded.value else {};
      s.(words := s.words[o.i := WordOp(o.op, o.i, cur)],
         owner := Some(o.(i := NextWord(o.op, o.i + 1), loaded := None)))
    case End =>
      var o := s.owner.value;
      s.(seqWord := (o.writeSeq + 2) % WRAP, owner := None, total := s.total + 1,
         values := s.values + [ApplyOp(o.op, Last(s))], log := s.log + [o.op])
    case BeginRead(t, attempts) => s.(readers := s.readers[t := Ready(attempts)])
    case ReadSeq(t) =>
      var left := s.readers[t].left - 1;
      s.(readers := s.readers[t := if s.seqWord % 2 != 0 then Ready(left) else Reading(left, s.seqWord, s.total, [])])
    case ReadWord(t) =>
      var r := s.readers[t];
      s.(readers := s.readers[t := r.(got := r.got + [s.words[|r.got|]])])
    case ReadCheck(t) =>
      if s.readers[t].before == s.seqWord then s.(readers := s.readers - {t})
      else s.(readers := s.readers[t := Ready(s.readers[t].left)])
  }

  // ---- The invariant ------------------------------------------------------------------------

  /** While idle the words are the last committed map; the owner has changed a prefix of them. */
  predicate WordsOk(s: State)
    requires WellFormed(s)
  {
    forall k | 0 <= k < 4 ::
      s.words[k] == if s.owner.Some? && k < s.owner.value.i then Word(ApplyOp(s.owner.value.op, Last(s)), k)
                    else Word(Last(s), k)
  }

  predicate OwnerOk(s: State)
    requires WellFormed(s)
  {
    && s.seqWord == s.total % WRAP
    && s.total == 2 * |s.log| + One(s.owner.Some?)
    && (s.owner.Some? ==>
          var o := s.owner.value;
          && (o.writeSeq + 1) % WRAP == s.seqWord && o.writeSeq % 2 == 0
          && (o.i < 4 ==> Touches(o.op, o.i))
          && (o.loaded.Some? ==> o.i < 4 && o.loaded.value == s.words[o.i]))
  }

  function One(b: bool): nat { if b then 1 else 0 }

  predicate CallsOk(s: State) {
    forall t | t in s.calls && s.calls[t].Seen? :: s.calls[t].seen % 2 == 0
  }

  /** As long as nobody has written since the attempt began, what was read is what is there. */
  predicate ReaderOk(s: State, r: Reader)
    requires WellFormed(s)
  {
    r.Reading? ==>
      && |r.got| <= 4
      && r.since <= s.total && r.since % 2 == 0 && r.before == r.since % WRAP
      && (r.since == s.total ==> forall k | 0 <= k < |r.got| :: r.got[k] == s.words[k])
  }

  predicate LogOk(s: State)
    requires WellFormed(s)
  {
    && |s.values| == |s.log| + 1
    && forall k | 0 <= k < |s.log| :: Admitted(s.log[k]) && s.values[k + 1] == ApplyOp(s.log[k], s.values[k])
  }

  predicate Inv(s: State) {
    && WellFormed(s) && WordsOk(s) && OwnerOk(s) && CallsOk(s) && LogOk(s)
    && forall t | t in s.readers :: ReaderOk(s, s.readers[t])
  }

  // ---- Every step keeps it -------------------------------------------------------------------

  lemma NextMod(a: nat, b: nat)
    requires a % WRAP == b % WRAP
    ensures (a + 1) % WRAP == (b + 1) % WRAP
  {
  }

  lemma ReadersUnmoved(s: State, s': State)
    requires Inv(s) && WellFormed(s') && s'.readers == s.readers && s.total <= s'.total
    requires s'.total == s.total ==> s'.words == s.words || s.total % 2 == 1
    ensures forall t | t in s'.readers :: ReaderOk(s', s'.readers[t])
  {
    forall t | t in s'.readers ensures ReaderOk(s', s'.readers[t]) {
      assert ReaderOk(s, s.readers[t]);
    }
  }

  lemma CallStep(s: State, step: Step)
    requires Inv(s) && Enabled(s, step) && (step.Begin? || step.LoadSeq? || step.CasFails?)
    ensures Inv(Apply(s, step))
  {
    ReadersUnmoved(s, Apply(s, step));
  }

  /** Words an operation does not touch already have their final value. */
  lemma UntouchedPrefix(op: Op, b: bits, n: nat)
    requires Admitted(op) && n <= 4 && forall k :: 0 <= k < n ==> !Touches(op, k)
    ensures forall k | 0 <= k < n :: Word(b, k) == Word(ApplyOp(op, b), k)
  {
    forall k | 0 <= k < n ensures Word(b, k) == Word(ApplyOp(op, b), k) { WordOpIsApplyOp(op, b, k); }
  }

  lemma CasWins(s: State, t: Tid)
    requires Inv(s) && Enabled(s, Cas(t)) && s.seqWord == s.calls[t].seen
    ensures Inv(Apply(s, Cas(t)))
  {
    var s' := Apply(s, Cas(t));
    var op := s.calls[t].op;
    assert s.owner.None?;
    ReadersUnmoved(s, s');
    NextMod(s.total, s.seqWord);
    UntouchedPrefix(op, Last(s), NextWord(op, 0));
    assert WordsOk(s') && OwnerOk(s');
  }

  lemma CasStep(s: State, t: Tid)
    requires Inv(s) && Enabled(s, Cas(t))
    ensures Inv(Apply(s, Cas(t)))
  {
    if s.seqWord == s.calls[t].seen {
      CasWins(s, t);
    } else {
      ReadersUnmoved(s, Apply(s, Cas(t)));
    }
  }

  lemma StoreWordStep(s: State)
    requires Inv(s) && Enabled(s, StoreWord)
    ensures Inv(Apply(s, StoreWord))
  {
    var s' := Apply(s, StoreWord);
    var o := s.owner.value;
    WordOpIsApplyOp(o.op, Last(s), o.i);
    forall k | 0 <= k < 4
      ensures s'.words[k] == if k < s'.owner.value.i then Word(ApplyOp(o.op, Last(s)), k) else Word(Last(s), k)
    {
      WordOpIsApplyOp(o.op, Last(s), k);
    }
    ReadersUnmoved(s, s');
  }

  lemma LoadWordStep(s: State)
    requires Inv(s) && Enabled(s, LoadWord)
    ensures Inv(Apply(s, LoadWord))
  {
    ReadersUnmoved(s, Apply(s, LoadWord));
  }

  lemma EndStep(s: State)
    requires Inv(s) && Enabled(s, End)
    ensures Inv(Apply(s, End))
  {
    var s' := Apply(s, End);
    NextMod(s.owner.value.writeSeq + 1, s.total);
    ReadersUnmoved(s, s');
    assert forall k | 0 <= k < 4 :: s'.words[k] == Word(Last(s'), k);
  }

  /** A step of reader `t` alone keeps the invariant if it leaves `t` in order. */
  lemma ReaderMoves(s: State, s': State, t: Tid)
    requires Inv(s) && WellFormed(s') && s' == s.(readers := s'.readers)
    requires s'.readers - {t} == s.readers - {t}
    requires t in s'.readers ==> ReaderOk(s, s'.readers[t])
    ensures Inv(s')
  {
    forall u | u in s'.readers ensures ReaderOk(s', s'.readers[u]) {
      if u != t {
        assert u in s'.readers - {t} && u in s.readers && s.readers[u] == (s.readers - {t})[u] == s'.readers[u];
        assert ReaderOk(s, s.readers[u]);
      }
    }
  }

  lemma ReaderStep(s: State, step: Step)
    requires Inv(s) && Enabled(s, step) && (step.BeginRead? || step.ReadSeq? || step.ReadCheck?)
    ensures Inv(Apply(s, step))
  {
    ReaderMoves(s, Apply(s, step), step.t);
  }

  lemma ReadWordStep(s: State, t: Tid)
    requires Inv(s) && Enabled(s, ReadWord(t))
    ensures Inv(Apply(s, ReadWord(t)))
  {
    assert ReaderOk(s, s.readers[t]);
    ReaderMoves(s, Apply(s, ReadWord(t)), t);
  }

  lemma StepKeepsInv(s: State, step: Step)
    requires Inv(s) && Enabled(s, step)
    ensures Inv(Apply(s, step))
  {
    match step
    case StoreWord => StoreWordStep(s);
    case LoadWord => LoadWordStep(s);
    case End => EndStep(s);
    case Begin(_, _) => CallStep(s, step);
    case LoadSeq(_) => CallStep(s, step);
    case Cas(t) => CasStep(s, t);
    case CasFails(_) => CallStep(s, step);
    case ReadWord(t) => ReadWordStep(s, t);
    case _ => ReaderStep(s, step);
  }

  ghost predicate Runs(s: State, steps: seq<Step>, s': State)
    decreases |steps|
  {
    if steps == [] then s' == s
    else WellFormed(s) && Enabled(s, steps[0]) && Runs(Apply(s, steps[0]), steps[1..], s')
  }

  lemma {:induction false} RunKeepsInv(s: State, steps: seq<Step>, s': State)
    requires Inv(s) && Runs(s, steps, s')
    ensures Inv(s')
    decreases |steps|
  {
    if steps != [] {
      StepKeepsInv(s, steps[0]);
      RunKeepsInv(Apply(s, steps[0]), steps[1..], s');
    }
  }

  lemma InitInv(b: bits)
    ensures Inv(Init(b))
  {
  }

  // ---- Results over every run ------------------------------------------------------------------

  /** At most one call owns the map: a compare-and-swap never succeeds while another call is writing. */
  lemma OneWriter(b: bits, steps: seq<Step>, s: State, t: Tid)
    requires Runs(Init(b), steps, s) && Enabled(s, Cas(t)) && s.calls[t].seen == s.seqWord
    ensures s.owner.None?
  {
    InitInv(b);
    RunKeepsInv(Init(b), steps, s);
    assert s.calls[t].seen % 2 == 0;
  }

  /** The calls that have not got hold of the map yet and are to do `op`. */
  function CallsFor(calls: map<Tid, Call>, op: Op): set<Tid> { set t | t in calls && calls[t].op == op }

  lemma Without(a: set<Tid>, t: Tid)
    ensures |a - {t}| == |a| - One(t in a)
  {
    if t !in a { assert a - {t} == a; }
  }

  lemma CallAdded(calls: map<Tid, Call>, t: Tid, c: Call, op: Op)
    ensures |CallsFor(calls[t := c], op)| ==
            |CallsFor(calls, op)| - One(t in calls && calls[t].op == op) + One(c.op == op)
  {
    var x, y := CallsFor(calls, op), CallsFor(calls[t := c], op);
    Without(x, t);
    Without(y, t);
    forall u ensures u in x - {t} <==> u in y - {t} {
      if u != t { assert u in calls[t := c] <==> u in calls; }
    }
    assert x - {t} == y - {t};
  }

  lemma CallRemoved(calls: map<Tid, Call>, t: Tid, op: Op)
    requires t in calls
    ensures |CallsFor(calls - {t}, op)| == |CallsFor(calls, op)| - One(calls[t].op == op)
  {
    Without(CallsFor(calls, op), t);
    assert CallsFor(calls, op) - {t} == CallsFor(calls - {t}, op);
  }

  /** How often `op` is committed, being written, or still to be written. */
  function Held(s: State, op: Op): nat {
    multiset(s.log)[op] + One(s.owner.Some? && s.owner.value.op == op) + |CallsFor(s.calls, op)|
  }

  function Asked(steps: seq<Step>, op: Op): nat {
    if steps == [] then 0 else One(steps[0].Begin? && steps[0].op == op) + Asked(steps[1..], op)
  }

  lemma CallStepHolds(s: State, step: Step, op: Op)
    requires Inv(s) && Enabled(s, step) && (step.Begin? || step.LoadSeq? || step.Cas? || step.CasFails?)
    ensures Held(Apply(s, step), op) == Held(s, op) + One(step.Begin? && step.op == op)
  {
    match step
    case Begin(t, o) => CallAdded(s.calls, t, Spinning(o), op);
    case LoadSeq(t) => CallAdded(s.calls, t, Seen(s.calls[t].op, s.seqWord), op);
    case CasFails(t) => CallAdded(s.calls, t, Spinning(s.calls[t].op), op);
    case Cas(t) =>
      assert s.calls[t].seen % 2 == 0;
      CallRemoved(s.calls, t, op);
      CallAdded(s.calls, t, Spinning(s.calls[t].op), op);
  }

  lemma StepHolds(s: State, step: Step, op: Op)
    requires Inv(s) && Enabled(s, step)
    ensures Held(Apply(s, step), op) == Held(s, op) + One(step.Begin? && step.op == op)
  {
    if step.Begin? || step.LoadSeq? || step.Cas? || step.CasFails? { CallStepHolds(s, step, op); }
  }

  lemma {:induction false} RunHolds(s: State, steps: seq<Step>, s': State, op: Op)
    requires Inv(s) && Runs(s, steps, s')
    ensures Held(s', op) == Held(s, op) + Asked(steps, op)
    decreases |steps|
  {
    if steps != [] {
      StepKeepsInv(s, steps[0]);
      StepHolds(s, steps[0], op);
      RunHolds(Apply(s, steps[0]), steps[1..], s', op);
    }
  }

  /** No call's operation is lost and none is done twice: as often as it was asked for it is
      committed, being written, or waiting to be. */
  lemma NoWriteIsLost(b: bits, steps: seq<Step>, s: State, op: Op)
    requires Runs(Init(b), steps, s)
    ensures multiset(s.log)[op] + One(s.owner.Some? && s.owner.value.op == op) + |CallsFor(s.calls, op)| == Asked(steps, op)
  {
    InitInv(b);
    RunHolds(Init(b), steps, s, op);
  }

  lemma {:induction false} FirstStays(s: State, steps: seq<Step>, s': State)
    requires s.values != [] && Runs(s, steps, s')
    ensures s'.values != [] && s'.values[0] == s.values[0]
    decreases |steps|
  {
    if steps != [] { FirstStays(Apply(s, steps[0]), steps[1..], s'); }
  }

  /** From the starting map on, the committed maps are the committed operations applied one after
      the other, in one order. */
  lemma WritesAreSerial(b: bits, steps: seq<Step>, s: State)
    requires Runs(Init(b), steps, s)
    ensures |s.values| == |s.log| + 1 && s.values[0] == b
    ensures forall k | 0 <= k < |s.log| :: Admitted(s.log[k]) && s.values[k + 1] == ApplyOp(s.log[k], s.values[k])
    ensures s.owner.None? ==> |s.words| == 4 && Join(s.words[0], s.words[1], s.words[2], s.words[3]) == Last(s)
  {
    InitInv(b);
    RunKeepsInv(Init(b), steps, s);
    FirstStays(Init(b), steps, s);
    JoinWords(Last(s));
  }

  /** A bounded read returns a map that was committed when its attempt began and still is, as
      long as fewer than 2^31 writes complete during the attempt. */
  lemma ReadIsCommitted(b: bits, steps: seq<Step>, s: State, t: Tid)
    requires Runs(Init(b), steps, s) && Returns(s, t)
    requires |s.log| - s.readers[t].since / 2 < WRAP / 2
    ensures s.readers[t].since / 2 == |s.log| && s.owner.None?
    ensures s.values != [] && Result(s, t) == Last(s)
  {
    InitInv(b);
    RunKeepsInv(Init(b), steps, s);
    var r := s.readers[t];
    assert ReaderOk(s, r);
    WrapDistance(r.since, s.total);
    JoinWords(Last(s));
  }

  lemma WrapDistance(a: nat, b: nat)
    requires a <= b < a + WRAP && a % WRAP == b % WRAP
    ensures a == b
  {
  }

  /** `get_bit` reads one word without the sequence word: it sees the committed bit, or the bit
      of the write that is about to be committed. */
  lemma GetBitIsLinear(b: bits, steps: seq<Step>, s: State, ch: nat)
    requires Runs(Init(b), steps, s) && ch < 64
    ensures |s.words| == 4 && s.values != []
    ensures || (ch in s.words[ch / 16] <==> ch in Last(s))
            || (s.owner.Some? && Admitted(s.owner.value.op) &&
                (ch in s.words[ch / 16] <==> ch in ApplyOp(s.owner.value.op, Last(s))))
  {
    InitInv(b);
    RunKeepsInv(Init(b), steps, s);
  }

  // ---- Exactly where the 2^31 bound comes from ----------------------------------------------------

  /** The sequence word cannot tell writes apart that are a multiple of 2^31 apart, and nothing else. */
  lemma ReturnsExactly(b: bits, steps: seq<Step>, s: State, t: Tid)
    requires Runs(Init(b), steps, s) && Enabled(s, ReadCheck(t))
    ensures Returns(s, t) <==> s.owner.None? && (|s.log| - s.readers[t].since / 2) % (WRAP / 2) == 0
  {
    InitInv(b);
    RunKeepsInv(Init(b), steps, s);
    var r := s.readers[t];
    assert ReaderOk(s, r);
    var d := |s.log| - r.since / 2;
    if s.owner.None? {
      assert s.total == r.since + 2 * d;
      HalfWrap(r.since, s.total, d);
    } else {
      Parity(r.since, s.total);
    }
  }

  lemma Parity(a: nat, b: nat)
    requires a % 2 == 0 && b % 2 == 1
    ensures a % WRAP != b % WRAP
  {
  }

  lemma HalfWrap(a: nat, b: nat, d: int)
    requires b == a + 2 * d && d >= 0
    ensures a % WRAP == b % WRAP <==> d % (WRAP / 2) == 0
  {
    var k, e := d / (WRAP / 2), d % (WRAP / 2);
    assert b == a + 2 * e + WRAP * k;
    AddWraps(a + 2 * e, k);
  }

  lemma AddWraps(a: nat, k: nat)
    ensures (a + WRAP * k) % WRAP == a % WRAP
  {
  }

  // ---- A read that is fooled ----------------------------------------------------------------

  datatype Recorded = Recorded(steps: seq<Step>, last: State)

  /** A run from the empty map, with the state it ends in. */
  type Trace = r: Recorded | Runs(Init({}), r.steps, r.last) ghost witness Recorded([], Init({}))

  lemma {:induction false} OneMore(s: State, steps: seq<Step>, s': State, step: Step)
    requires Runs(s, steps, s') && WellFormed(s') && Enabled(s', step)
    ensures Runs(s, steps + [step], Apply(s', step))
    decreases |steps|
  {
    var all := steps + [step];
    if steps == [] {
      assert all == [step] && all[1..] == [];
    } else {
      OneMore(Apply(s, steps[0]), steps[1..], s', step);
      assert all[0] == steps[0] && all[1..] == steps[1..] + [step];
    }
  }

  lemma Go(t: Trace, step: Step) returns (u: Trace)
    requires WellFormed(t.last) && Enabled(t.last, step)
    ensures u.last == Apply(t.last, step)
  {
    OneMore(Init({}), t.steps, t.last, step);
    u := Recorded(t.steps + [step], Apply(t.last, step));
  }

  predicate Quiet(s: State) {
    WellFormed(s) && s.owner.None? && s.calls == map[] && s.seqWord % 2 == 0 && s.seqWord < WRAP
  }

  function Stored(s: State, b: bits): State {
    s.(words := Split(b), seqWord := (s.seqWord + 2) % WRAP, total := s.total + 2,
       values := s.values + [b], log := s.log + [StoreBits(b)])
  }

  function Owning(s: State, b: bits): State {
    s.(owner := Some(Owner(StoreBits(b), s.seqWord, 0, None)), seqWord := (s.seqWord + 1) % WRAP, total := s.total + 1)
  }

  lemma Owns(t: Trace, tid: Tid, b: bits) returns (u: Trace)
    requires Quiet(t.last)
    ensures u.last == Owning(t.last, b)
  {
    u := Go(t, Begin(tid, StoreBits(b)));
    u := Go(u, LoadSeq(tid));
    assert u.last.calls == map[tid := Seen(StoreBits(b), t.last.seqWord)];
    u := Go(u, Cas(tid));
    assert u.last.calls == map[];
  }

  /** The four stores and the closing store of a `store_bits` call that owns the map. */
  lemma Stores(t: Trace, b: bits, ws: nat) returns (u: Trace)
    requires WellFormed(t.last) && t.last.owner == Some(Owner(StoreBits(b), ws, 0, None))
    ensures u.last == t.last.(words := Split(b), owner := None, seqWord := (ws + 2) % WRAP,
                              total := t.last.total + 1, values := t.last.values + [b], log := t.last.log + [StoreBits(b)])
  {
    u := Go(t, StoreWord);
    u := Go(u, StoreWord);
    u := Go(u, StoreWord);
    u := Go(u, StoreWord);
    assert u.last.words == Split(b);
    u := Go(u, End);
  }

  /** A whole `store_bits` call by thread `tid`, from the first load to the closing store. */
  lemma StoresOnce(t: Trace, tid: Tid, b: bits) returns (u: Trace)
    requires Quiet(t.last)
    ensures u.last == Stored(t.last, b) && Quiet(u.last)
  {
    u := Owns(t, tid, b);
    u := Stores(u, b, t.last.seqWord);
  }

  lemma {:induction false} StoresManyTimes(t: Trace, tid: Tid, b: bits, n: nat) returns (u: Trace)
    requires Quiet(t.last)
    ensures Quiet(u.last) && u.last.readers == t.last.readers
    ensures u.last.seqWord == (t.last.seqWord + 2 * n) % WRAP && (n > 0 ==> u.last.words == Split(b))
    ensures forall v :: v in u.last.values ==> v in t.last.values || v == b
  {
    u := t;
    if n > 0 {
      u := StoresManyTimes(t, tid, b, n - 1);
      TwoMore(t.last.seqWord, n);
      u := StoresOnce(u, tid, b);
    }
  }

  lemma TwoMore(a: nat, n: nat)
    requires n > 0
    ensures ((a + 2 * (n - 1)) % WRAP + 2) % WRAP == (a + 2 * n) % WRAP
  {
  }

  /** A reader has begun its only attempt and has read the first word of the empty map. */
  const HalfRead := Reading(0, 0, 0, [Word({}, 0)])

  lemma ReadsOneWord() returns (u: Trace)
    ensures u.last == Init({}).(readers := map[0 := HalfRead])
  {
    u := Recorded([], Init({}));
    u := Go(u, BeginRead(0, 1));
    u := Go(u, ReadSeq(0));
    u := Go(u, ReadWord(0));
    assert u.last.readers[0] == HalfRead;
    assert u.last.readers == map[0 := HalfRead];
  }

  /** It reads the other three words after somebody stored `{0, 16}`. */
  lemma ReadsTheRest(t: Trace) returns (u: Trace)
    requires WellFormed(t.last) && t.last.readers == map[0 := HalfRead] && t.last.words == Split({0, 16})
    ensures u.last == t.last.(readers := u.last.readers) && Enabled(u.last, ReadCheck(0))
    ensures u.last.readers[0].before == 0
    ensures u.last.readers[0].got == [Word({}, 0), Word({0, 16}, 1), Word({0, 16}, 2), Word({0, 16}, 3)]
  {
    u := Go(t, ReadWord(0));
    u := Go(u, ReadWord(0));
    u := Go(u, ReadWord(0));
  }

  /** With exactly 2^31 writes inside one attempt a read returns a map that was never stored. */
  lemma TornReadAfterWrap() returns (u: Trace)
    ensures Returns(u.last, 0) && Result(u.last, 0) !in u.last.values
  {
    u := ReadsOneWord();
    u := StoresManyTimes(u, 0, {0, 16}, WRAP / 2);
    u := ReadsTheRest(u);
    assert 16 in Word({0, 16}, 1) && 16 in Result(u.last, 0) && 0 !in Result(u.last, 0);
  }
}
