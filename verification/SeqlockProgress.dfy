/**
  What the operations of `Seqlock` do to each channel, and that its calls come to an end: a write
  on its own commits its operation, and a bounded read with no writer inside returns the map.
*/
module SeqlockProgress {
  import opened Bits64
  import opened Options
  import opened Seqlock
  import opened Words

  // ---- The operations, channel by channel ---------------------------------------------------------------

  lemma StoreBitsMeans(value: bits, b: bits, ch: nat)
    ensures ch in ApplyOp(StoreBits(value), b) <==> ch in value
  {
  }

  lemma SetBitMeans(at: nat, on: bool, b: bits, ch: nat)
    requires at < 64
    ensures ch in ApplyOp(SetBit(at, on), b) <==> if ch == at then on else ch in b
  {
  }

  lemma MaskReplaceMeans(mask: bits, value: bits, b: bits, ch: nat)
    ensures ch in ApplyOp(MaskReplace(mask, value), b) <==> if ch in mask then ch in value else ch in b
  {
  }

  /** What an operation makes of a channel, in terms of the call's arguments. */
  predicate OnAfter(op: Op, b: bits, ch: nat) {
    match op
    case StoreBits(value) => ch in value
    case SetBit(at, on) => if ch == at then on else ch in b
    case MaskReplace(mask, value) => if ch in mask then ch in value else ch in b
  }

  // ---- Runs of one task ---------------------------------------------------------------------------------

  datatype Task = WriterTask(t: Tid) | ReaderTask(t: Tid)

  /** The owner's steps belong to the call that has won. */
  predicate IsBy(task: Task, step: Step) {
    match step
    case Begin(t, _) => task == WriterTask(t)
    case LoadSeq(t) => task == WriterTask(t)
    case Cas(t) => task == WriterTask(t)
    case LoadWord => task.WriterTask?
    case StoreWord => task.WriterTask?
    case End => task.WriterTask?
    case BeginRead(t, _) => task == ReaderTask(t)
    case ReadSeq(t) => task == ReaderTask(t)
    case ReadWord(t) => task == ReaderTask(t)
    case ReadCheck(t) => task == ReaderTask(t)
    case CasFails(_) => false
  }

  ghost predicate Reaches(task: Task, s: State, s': State) {
    exists steps :: (forall k :: 0 <= k < |steps| ==> IsBy(task, steps[k])) && Runs(s, steps, s')
  }

  lemma Stays(task: Task, s: State)
    ensures Reaches(task, s, s)
  {
    assert Runs(s, [], s);
  }

  lemma Goes(task: Task, s0: State, s: State, step: Step)
    requires Reaches(task, s0, s) && Inv(s) && Enabled(s, step) && IsBy(task, step)
    ensures Reaches(task, s0, Apply(s, step)) && Inv(Apply(s, step))
  {
    var steps :| (forall k :: 0 <= k < |steps| ==> IsBy(task, steps[k])) && Runs(s0, steps, s);
    OneMore(s0, steps, s, step);
    StepKeepsInv(s, step);
  }

  // ---- A write --------------------------------------------------------------------------------------------

  /** All but the map, the sequence word and the owner. */
  predicate SameOutside(s: State, s': State) { s'.calls == s.calls && s'.readers == s.readers }

  /** Whoever owns the map comes to the end of its operation, which is then the last one committed. */
  lemma {:induction false} OwnerCommits(t: Tid, s0: State, s: State) returns (s': State)
    requires Reaches(WriterTask(t), s0, s) && Inv(s) && s.owner.Some?
    ensures Reaches(WriterTask(t), s0, s') && Inv(s') && s'.owner.None? && SameOutside(s, s')
    ensures s'.log == s.log + [s.owner.value.op] && s'.values == s.values + [ApplyOp(s.owner.value.op, Last(s))]
    decreases 4 - s.owner.value.i, s.owner.value.loaded.None?
  {
    var o := s.owner.value;
    if o.i == 4 {
      Goes(WriterTask(t), s0, s, End);
      s' := Apply(s, End);
    } else {
      var step := if o.loaded.Some? || o.op.StoreBits? then StoreWord else LoadWord;
      Goes(WriterTask(t), s0, s, step);
      s' := OwnerCommits(t, s0, Apply(s, step));
    }
  }

  /** A call that has not got hold of the map gets it when nobody has. */
  lemma Wins(t: Tid, s0: State, s: State) returns (s': State)
    requires Reaches(WriterTask(t), s0, s) && Inv(s) && s.owner.None? && t in s.calls && s.calls[t].Spinning?
    ensures Reaches(WriterTask(t), s0, s') && Inv(s') && s'.owner.Some? && s'.owner.value.op == s.calls[t].op
    ensures s'.calls == s.calls - {t} && s'.readers == s.readers && s'.log == s.log && s'.values == s.values
  {
    Goes(WriterTask(t), s0, s, LoadSeq(t));
    var s1 := Apply(s, LoadSeq(t));
    assert s1 == s.(calls := s.calls[t := Seen(s.calls[t].op, s.seqWord)]);
    s' := Exchanges(t, s0, s1);
    assert s1.calls - {t} == s.calls - {t};
  }

  lemma Exchanges(t: Tid, s0: State, s: State) returns (s': State)
    requires Reaches(WriterTask(t), s0, s) && Inv(s) && s.owner.None? && t in s.calls && s.calls[t].Seen? && s.calls[t].seen == s.seqWord
    ensures Reaches(WriterTask(t), s0, s') && Inv(s') && s'.owner.Some? && s'.owner.value.op == s.calls[t].op
    ensures s'.calls == s.calls - {t} && s'.readers == s.readers && s'.log == s.log && s'.values == s.values
  {
    Goes(WriterTask(t), s0, s, Cas(t));
    s' := Apply(s, Cas(t));
  }

  /** A write that begins with nobody inside commits, and makes of every channel what was asked. */
  lemma WriteCommits(b: bits, steps: seq<Step>, s: State, t: Tid, op: Op) returns (s': State)
    requires Runs(Init(b), steps, s) && s.owner.None? && t !in s.calls && Admitted(op)
    ensures Reaches(WriterTask(t), s, s') && s'.owner.None? && SameOutside(s, s')
    ensures |s.values| > 0 && |s'.values| == |s.values| + 1 && s'.values[..|s.values|] == s.values
    ensures |s'.words| == 4
    ensures forall ch: nat :: ch < 64 ==> (ch in Last(s') <==> OnAfter(op, Last(s), ch))
    ensures forall ch: nat :: ch < 64 ==> (ch in s'.words[ch / 16] <==> OnAfter(op, Last(s), ch))
  {
    InitInv(b);
    RunKeepsInv(Init(b), steps, s);
    Stays(WriterTask(t), s);
    Goes(WriterTask(t), s, s, Begin(t, op));
    var s1 := Apply(s, Begin(t, op));
    var s2 := Wins(t, s, s1);
    assert s1.calls - {t} == s.calls;
    s' := OwnerCommits(t, s, s2);
    forall ch: nat | ch < 64 ensures ch in Last(s') <==> OnAfter(op, Last(s), ch) {
      MeansOnAfter(op, Last(s), ch);
    }
    assert WordsOk(s');
  }

  lemma MeansOnAfter(op: Op, b: bits, ch: nat)
    requires Admitted(op)
    ensures ch in ApplyOp(op, b) <==> OnAfter(op, b, ch)
  {
    match op
    case StoreBits(value) => StoreBitsMeans(value, b, ch);
    case SetBit(at, on) => SetBitMeans(at, on, b, ch);
    case MaskReplace(mask, value) => MaskReplaceMeans(mask, value, b, ch);
  }

  // ---- A bounded read ----------------------------------------------------------------------------------------

  lemma {:induction false} ReadsWords(t: Tid, s0: State, s: State) returns (s': State)
    requires Reaches(ReaderTask(t), s0, s) && Inv(s) && s.owner.None?
    requires t in s.readers && s.readers[t].Reading? && s.readers[t].since == s.total
    ensures Reaches(ReaderTask(t), s0, s') && Inv(s') && s'.(readers := s.readers) == s && s'.readers - {t} == s.readers - {t}
    ensures Returns(s', t) && s'.readers[t].since == s'.total
    decreases 4 - |s.readers[t].got|
  {
    assert ReaderOk(s, s.readers[t]);
    if |s.readers[t].got| == 4 {
      s' := s;
    } else {
      Goes(ReaderTask(t), s0, s, ReadWord(t));
      s' := ReadsWords(t, s0, Apply(s, ReadWord(t)));
    }
  }

  lemma ReadBegins(t: Tid, s: State, attempts: nat) returns (s': State)
    requires Inv(s) && s.owner.None? && t !in s.readers && attempts > 0
    ensures Reaches(ReaderTask(t), s, s') && Inv(s') && s'.(readers := s.readers) == s && s'.readers - {t} == s.readers - {t}
    ensures t in s'.readers && s'.readers[t].Reading? && s'.readers[t].since == s.total
  {
    Stays(ReaderTask(t), s);
    Goes(ReaderTask(t), s, s, BeginRead(t, attempts));
    s' := AttemptBegins(t, s, Apply(s, BeginRead(t, attempts)));
  }

  /** With no writer inside the sequence word is even. */
  lemma AttemptBegins(t: Tid, s0: State, s: State) returns (s': State)
    requires Reaches(ReaderTask(t), s0, s) && Inv(s) && s.owner.None?
    requires t in s.readers && s.readers[t].Ready? && s.readers[t].left > 0
    ensures Reaches(ReaderTask(t), s0, s') && Inv(s') && s'.(readers := s.readers) == s && s'.readers - {t} == s.readers - {t}
    ensures t in s'.readers && s'.readers[t].Reading? && s'.readers[t].since == s.total
  {
    Goes(ReaderTask(t), s0, s, ReadSeq(t));
    s' := Apply(s, ReadSeq(t));
  }

  lemma ReturnedIsLast(s: State, t: Tid)
    requires Inv(s) && s.owner.None? && Returns(s, t) && s.readers[t].since == s.total
    ensures Result(s, t) == Last(s)
  {
    assert ReaderOk(s, s.readers[t]) && WordsOk(s);
    JoinWords(Last(s));
  }

  /** A bounded read with any attempts at all, and no writer inside, returns the last committed map,
      and leaves everything as it was. */
  lemma ReadReturns(b: bits, steps: seq<Step>, s: State, t: Tid, attempts: nat) returns (m: State, s': State)
    requires Runs(Init(b), steps, s) && s.owner.None? && t !in s.readers && attempts > 0
    ensures Reaches(ReaderTask(t), s, m) && Returns(m, t) && s.values != [] && Result(m, t) == Last(s)
    ensures WellFormed(m) && s' == Apply(m, ReadCheck(t)) && s' == s
  {
    InitInv(b);
    RunKeepsInv(Init(b), steps, s);
    var s1 := ReadBegins(t, s, attempts);
    m := ReadsWords(t, s, s1);
    ReturnedIsLast(m, t);
    CheckLeaves(s, m, t);
    s' := s;
  }

  lemma CheckLeaves(s: State, m: State, t: Tid)
    requires WellFormed(m) && Returns(m, t) && m.(readers := s.readers) == s
    requires m.readers - {t} == s.readers - {t} && t !in s.readers
    ensures Apply(m, ReadCheck(t)) == s
  {
    assert s.readers - {t} == s.readers;
  }

  /** A read that meets a writer gives up when its attempts are used up. */
  lemma {:induction false} ReadGivesUp(t: Tid, s0: State, s: State) returns (s': State)
    requires Reaches(ReaderTask(t), s0, s) && Inv(s) && s.owner.Some? && t in s.readers && s.readers[t].Ready?
    ensures Reaches(ReaderTask(t), s0, s') && t in s'.readers && s'.readers[t] == Ready(0) && s'.(readers := s.readers) == s
    decreases s.readers[t].left
  {
    if s.readers[t].left == 0 {
      s' := s;
    } else {
      Goes(ReaderTask(t), s0, s, ReadSeq(t));
      s' := ReadGivesUp(t, s0, Apply(s, ReadSeq(t)));
    }
  }
}
