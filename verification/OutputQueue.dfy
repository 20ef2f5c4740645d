/**
  The digital-output command ring of src/hal/io_worker_state.rs, and the worker of
  src/hal/pca9555.rs that takes its front, writes the expander, reads it back and confirms.
*/
module OutputQueue {
  import opened Bits64
  import opened Options
  import opened Words

  const CAPACITY := 32

  datatype Command = Command(generation: u32, bits: bits)

  const Initial := Command(0, {})

  function Next(latest: Command, bits: bits): Command { Command((latest.generation + 1) % 0x1_0000_0000, bits) }

  /** The `len` slots from `head` on, around the end of the array. */
  function Ring(slots: seq<Command>, head: nat, len: nat): (s: seq<Command>)
    requires |slots| == CAPACITY
    ensures |s| == len && forall i :: 0 <= i < len ==> s[i] == slots[(head + i) % CAPACITY]
  {
    seq(len, i requires 0 <= i < len => slots[(head + i) % CAPACITY])
  }

  function Wrap(i: nat): nat { if i >= CAPACITY then i - CAPACITY else i }

  lemma WrapIsMod(i: nat)
    requires i < 2 * CAPACITY
    ensures i % CAPACITY == Wrap(i)
  {
  }

  lemma RingPush(slots: seq<Command>, head: nat, len: nat, c: Command)
    requires |slots| == CAPACITY && head < CAPACITY && len < CAPACITY
    ensures Ring(slots[(head + len) % CAPACITY := c], head, len + 1) == Ring(slots, head, len) + [c]
  {
    var at := (head + len) % CAPACITY;
    WrapIsMod(head + len);
    var a, b := Ring(slots[at := c], head, len + 1), Ring(slots, head, len) + [c];
    forall i | 0 <= i < len + 1 ensures a[i] == b[i] {
      WrapIsMod(head + i);
      assert a[i] == slots[at := c][(head + i) % CAPACITY];
      if i < len { assert b[i] == slots[(head + i) % CAPACITY]; }
    }
  }

  lemma RingPop(slots: seq<Command>, head: nat, len: nat)
    requires |slots| == CAPACITY && head < CAPACITY && 0 < len <= CAPACITY
    ensures Ring(slots, (head + 1) % CAPACITY, len - 1) == Ring(slots, head, len)[1..]
  {
    WrapIsMod(head + 1);
    var a, b := Ring(slots, (head + 1) % CAPACITY, len - 1), Ring(slots, head, len)[1..];
    forall i | 0 <= i < len - 1 ensures a[i] == b[i] {
      WrapIsMod((head + 1) % CAPACITY + i);
      WrapIsMod(head + (i + 1));
      assert b[i] == Ring(slots, head, len)[i + 1] == slots[(head + (i + 1)) % CAPACITY];
      assert a[i] == slots[((head + 1) % CAPACITY + i) % CAPACITY];
    }
  }

  class Queue {
    const commands: array<Command>
    var head: nat
    var len: nat
    var latest: Command
    var highWater: nat
    var rejected: u32
    var canceled: u32

    constructor ()
      ensures Valid() && fresh(commands)
      ensures Contents() == [] && latest == Initial && rejected == 0 && canceled == 0
    {
      commands := new Command[CAPACITY](_ => Initial);
      head, len, latest, highWater, rejected, canceled := 0, 0, Initial, 0, 0, 0;
    }

    ghost predicate Valid()
      reads this, commands
    {
      && commands.Length == CAPACITY && head < CAPACITY && len <= CAPACITY
      && (len > 0 ==> Contents()[len - 1] == latest)
    }

    ghost function Contents(): (s: seq<Command>)
      requires commands.Length == CAPACITY
      reads this, commands
      ensures |s| == len
    {
      Ring(commands[..], head, len)
    }

    /** A request for what is already the latest is accepted without a command; a full ring
        refuses, and touches no queued edge. */
    method Submit(bits: bits) returns (ok: bool)
      requires Valid()
      modifies this, commands
      ensures Valid()
      ensures ok <==> bits == old(latest).bits || |old(Contents())| < CAPACITY
      ensures ok && bits != old(latest).bits ==>
                && Contents() == old(Contents()) + [latest] && latest.bits == bits
                && latest.generation == (old(latest).generation + 1) % 0x1_0000_0000
      ensures !ok || bits == old(latest).bits ==> latest == old(latest) && Contents() == old(Contents())
      ensures rejected == if ok then old(rejected) else SaturatingAdd(old(rejected), 1)
      ensures canceled == old(canceled) && head == old(head)
    {
      if bits == latest.bits { return true; }
      if len == CAPACITY {
        rejected := SaturatingAdd(rejected, 1);
        return false;
      }
      var command := Next(latest, bits);
      RingPush(commands[..], head, len, command);
      ghost var before := commands[..];
      var at := (head + len) % CAPACITY;
      commands[at] := command;
      assert commands[..] == before[at := command];
      len := len + 1;
      highWater := if highWater > len then highWater else len;
      latest := command;
      ok := true;
    }

    /** After a hardware fault only the newest target is kept; the edges dropped are counted. */
    method RetainLatestAfterFault()
      requires Valid()
      modifies this, commands
      ensures Valid() && latest == old(latest) && rejected == old(rejected)
      ensures Contents() == if |old(Contents())| > 1 then [latest] else old(Contents())
      ensures canceled == if |old(Contents())| > 1 then SaturatingAdd(old(canceled), |old(Contents())| - 1) else old(canceled)
    {
      if len > 1 {
        canceled := SaturatingAdd(canceled, len - 1);
        commands[0] := latest;
        head, len := 0, 1;
        assert Contents() == [latest];
      }
    }

    method Front() returns (front: Option<Command>)
      requires Valid()
      ensures front == if Contents() == [] then None else Some(Contents()[0])
    {
      front := if len == 0 then None else Some(commands[head]);
    }

    method Confirm(command: Command) returns (ok: bool)
      requires Valid()
      modifies this`head, this`len
      ensures Valid()
      ensures ok <==> old(Contents()) != [] && old(Contents())[0] == command
      ensures Contents() == if ok then old(Contents())[1..] else old(Contents())
    {
      if len == 0 || commands[head] != command { return false; }
      RingPop(commands[..], head, len);
      head := (head + 1) % CAPACITY;
      len := len - 1;
      ok := true;
    }
  }

  // ---- The worker beside any number of submitters ---------------------------------------------------

  /** `accepted`, `confirmed` and `dropped` are history; `canceled` is the counter the device
      shows. */
  datatype State = State(
    queue: seq<Command>, latest: Command, canceled: u32,
    hand: Option<Command>, failing: bool,
    accepted: seq<Command>, confirmed: seq<Command>, dropped: nat)

  /** `Contended` is a submission that finds the queue locked, and is refused as busy.  `Take` is one
      locked look at the queue, with the fault rule before it; `NotYet` follows when
      the retry is not due, `Confirmed` a write that read back right, `Missed` one that did not.
      `Checked` is the idle readback. */
  datatype Step = Submit(bits: bits) | Contended(bits: bits) | Take | NotYet | Confirmed | Missed | Checked(ok: bool)

  function Init(): State { State([], Initial, 0, None, false, [], [], 0) }

  predicate Enabled(s: State, step: Step) {
    match step
    case Submit(_) => true
    case Contended(_) => true
    case Take => s.hand.None?
    case NotYet => s.hand.Some?
    case Confirmed => s.hand.Some?
    case Missed => s.hand.Some?
    case Checked(_) => s.hand.None?
  }

  function Apply(s: State, step: Step): State
    requires Enabled(s, step)
  {
    match step
    case Submit(bits) =>
      if bits == s.latest.bits || |s.queue| >= CAPACITY then s else
      var c := Next(s.latest, bits);
      s.(queue := s.queue + [c], latest := c, accepted := s.accepted + [c])
    case Contended(_) => s
    case Take =>
      var s' := if s.failing && |s.queue| > 1
                then s.(queue := [s.latest], canceled := SaturatingAdd(s.canceled, |s.queue| - 1), dropped := s.dropped + |s.queue| - 1)
                else s;
      s'.(hand := if s'.queue == [] then None else Some(s'.queue[0]))
    case NotYet => s.(hand := None)
    case Confirmed =>
      var s' := s.(hand := None, failing := false, confirmed := s.confirmed + [s.hand.value]);
      if s.queue != [] && s.queue[0] == s.hand.value then s'.(queue := s.queue[1..]) else s'
    case Missed => s.(hand := None, failing := true)
    case Checked(ok) => s.(failing := !ok)
  }

  ghost predicate Runs(s: State, steps: seq<Step>, s': State)
    decreases |steps|
  {
    if steps == [] then s' == s
    else Enabled(s, steps[0]) && Runs(Apply(s, steps[0]), steps[1..], s')
  }

  /** `a` is `b` with some elements left out. */
  predicate Subsequence(a: seq<Command>, b: seq<Command>) {
    if a == [] then true
    else if b == [] then false
    else
      || (a[|a| - 1] == b[|b| - 1] && Subsequence(a[..|a| - 1], b[..|b| - 1]))
      || Subsequence(a, b[..|b| - 1])
  }

  lemma {:induction false} PrefixOfSubsequence(a: seq<Command>, n: nat, b: seq<Command>)
    requires n <= |a| && Subsequence(a, b)
    ensures Subsequence(a[..n], b)
    decreases |b|
  {
    if n < |a| && n > 0 {
      if a[|a| - 1] == b[|b| - 1] && Subsequence(a[..|a| - 1], b[..|b| - 1]) {
        PrefixOfSubsequence(a[..|a| - 1], n, b[..|b| - 1]);
        assert a[..|a| - 1][..n] == a[..n];
      } else {
        PrefixOfSubsequence(a, n, b[..|b| - 1]);
      }
    } else {
      assert n == |a| ==> a[..n] == a;
    }
  }

  /** Leaving out what comes between a prefix and the last element. */
  lemma {:induction false} LastAfterPrefix(a: seq<Command>, n: nat, b: seq<Command>)
    requires n < |a| && Subsequence(a, b)
    ensures Subsequence(a[..n] + [a[|a| - 1]], b)
    decreases |b|
  {
    var r := a[..n] + [a[|a| - 1]];
    assert r[..|r| - 1] == a[..n];
    if a[|a| - 1] == b[|b| - 1] && Subsequence(a[..|a| - 1], b[..|b| - 1]) {
      PrefixOfSubsequence(a[..|a| - 1], n, b[..|b| - 1]);
      assert a[..|a| - 1][..n] == a[..n];
    } else {
      LastAfterPrefix(a, n, b[..|b| - 1]);
    }
  }

  predicate Inv(s: State) {
    && (s.queue != [] ==> s.queue[|s.queue| - 1] == s.latest)
    && (s.hand.Some? ==> s.queue != [] && s.queue[0] == s.hand.value)
    && |s.accepted| == |s.confirmed| + s.dropped + |s.queue|
    && Subsequence(s.confirmed + s.queue, s.accepted)
    && s.latest == (if s.accepted == [] then Initial else s.accepted[|s.accepted| - 1])
    && (s.queue == [] && s.confirmed == [] ==> s.accepted == [])
    && (s.queue == [] && s.confirmed != [] ==> s.confirmed[|s.confirmed| - 1] == s.latest)
    && s.canceled == SaturatingAdd(0, s.dropped)
  }

  lemma AddedToBoth(a: seq<Command>, b: seq<Command>, c: Command)
    requires Subsequence(a, b)
    ensures Subsequence(a + [c], b + [c])
  {
    assert (a + [c])[..|a|] == a && (b + [c])[..|b|] == b;
  }

  lemma SubmitKeepsInv(s: State, bits: bits)
    requires Inv(s)
    ensures Inv(Apply(s, Submit(bits)))
  {
    var s' := Apply(s, Submit(bits));
    if s' != s {
      var a, b := s'.confirmed + s'.queue, s'.accepted;
      assert a == s.confirmed + s.queue + [s'.latest];
      AddedToBoth(s.confirmed + s.queue, s.accepted, s'.latest);
    }
  }

  lemma TakeKeepsInv(s: State)
    requires Inv(s) && Enabled(s, Take)
    ensures Inv(Apply(s, Take))
  {
    if s.failing && |s.queue| > 1 {
      var a := s.confirmed + s.queue;
      LastAfterPrefix(a, |s.confirmed|, s.accepted);
      assert a[..|s.confirmed|] == s.confirmed;
    }
  }

  lemma MovedAcross(a: seq<Command>, b: seq<Command>)
    requires b != []
    ensures (a + [b[0]]) + b[1..] == a + b
  {
  }

  lemma ConfirmKeepsInv(s: State)
    requires Inv(s) && Enabled(s, Confirmed)
    ensures Inv(Apply(s, Confirmed))
  {
    MovedAcross(s.confirmed, s.queue);
  }

  lemma StepKeepsInv(s: State, step: Step)
    requires Inv(s) && Enabled(s, step)
    ensures Inv(Apply(s, step))
  {
    match step
    case Submit(bits) => SubmitKeepsInv(s, bits);
    case Take => TakeKeepsInv(s);
    case Confirmed => ConfirmKeepsInv(s);
    case _ =>
  }

  lemma {:induction false} RunKeepsInv(s: State, steps: seq<Step>, s': State)
    requires Inv(s) && Runs(s, steps, s')
    ensures Inv(s')
    decreases |steps|
  {
    if steps != [] {
      StepKeepsInv(s, steps[0]);
      RunKeepsInv(Apply(s, steps[0]), steps[1..], s');
    }
  }

  /** Every accepted command is confirmed, counted as cancelled, or still queued; what was
      confirmed, and what is still to come, is in the order it was accepted in. */
  lemma NothingIsLost(steps: seq<Step>, s: State)
    requires Runs(Init(), steps, s)
    ensures |s.accepted| == |s.confirmed| + s.dropped + |s.queue|
    ensures s.dropped <= U32_MAX ==> s.canceled == s.dropped
    ensures Subsequence(s.confirmed + s.queue, s.accepted) && Subsequence(s.confirmed, s.accepted)
  {
    RunKeepsInv(Init(), steps, s);
    PrefixOfSubsequence(s.confirmed + s.queue, |s.confirmed|, s.accepted);
    assert (s.confirmed + s.queue)[..|s.confirmed|] == s.confirmed;
  }

  /** The command the worker holds is still the front when it confirms it. */
  lemma ConfirmNeverMisses(steps: seq<Step>, s: State)
    requires Runs(Init(), steps, s) && Enabled(s, Confirmed)
    ensures s.queue != [] && s.queue[0] == s.hand.value && Apply(s, Confirmed).queue == s.queue[1..]
  {
    RunKeepsInv(Init(), steps, s);
  }

  /** Once the queue is empty the last bits confirmed are the last bits asked for. */
  lemma EmptyMeansDone(steps: seq<Step>, s: State)
    requires Runs(Init(), steps, s) && s.queue == [] && s.accepted != []
    ensures s.confirmed != [] && s.confirmed[|s.confirmed| - 1] == s.latest == s.accepted[|s.accepted| - 1]
  {
    RunKeepsInv(Init(), steps, s);
  }

  // ---- What is accepted, and that it comes to be confirmed -----------------------------------------

  /** The accepted commands are numbered one after the other, from 1 on and around the end of the
      counter, and each asks for other bits than the one before. */
  predicate Numbered(s: State) {
    && (forall k :: 0 <= k < |s.accepted| ==> s.accepted[k].generation == (k + 1) % 0x1_0000_0000)
    && (forall k :: 0 < k < |s.accepted| ==> s.accepted[k].bits != s.accepted[k - 1].bits)
    && s.latest == (if s.accepted == [] then Initial else s.accepted[|s.accepted| - 1])
  }

  lemma StepIsNumbered(s: State, step: Step)
    requires Numbered(s) && Enabled(s, step)
    ensures Numbered(Apply(s, step))
  {
    if step.Submit? && Apply(s, step) != s { NextIsNumbered(s, Next(s.latest, step.bits)); }
  }

  lemma NextIsNumbered(s: State, c: Command)
    requires Numbered(s) && c.generation == (s.latest.generation + 1) % 0x1_0000_0000 && c.bits != s.latest.bits
    ensures Numbered(s.(latest := c, accepted := s.accepted + [c]))
  {
    var n := |s.accepted|;
    assert s.latest.generation == n % 0x1_0000_0000;
  }

  lemma {:induction false} RunIsNumbered(s: State, steps: seq<Step>, s': State)
    requires Numbered(s) && Runs(s, steps, s')
    ensures Numbered(s')
    decreases |steps|
  {
    if steps != [] {
      StepIsNumbered(s, steps[0]);
      RunIsNumbered(Apply(s, steps[0]), steps[1..], s');
    }
  }

  lemma CommandsAreNumbered(steps: seq<Step>, s: State, k: nat)
    requires Runs(Init(), steps, s) && k < |s.accepted|
    ensures s.accepted[k].generation == (k + 1) % 0x1_0000_0000
    ensures k > 0 ==> s.accepted[k].bits != s.accepted[k - 1].bits
  {
    RunIsNumbered(Init(), steps, s);
  }

  /** A submission with room in the queue makes its bits the last ones asked for; one for the bits
      already asked for, one that finds no room and one that finds the queue locked change nothing. */
  lemma SubmissionIsAccepted(s: State, bits: bits)
    ensures var s' := Apply(s, Submit(bits));
            && (bits != s.latest.bits && |s.queue| < 32 ==>
                  && |s'.queue| == |s.queue| + 1 && s'.queue[..|s.queue|] == s.queue
                  && s'.queue[|s.queue|].bits == bits && s'.latest.bits == bits)
            && (bits == s.latest.bits || |s.queue| >= 32 ==> s' == s)
            && Apply(s, Contended(bits)) == s
  {
  }

  lemma {:induction false} RunsOn(s: State, steps: seq<Step>, m: State, step: Step)
    requires Runs(s, steps, m) && Enabled(m, step)
    ensures Runs(s, steps + [step], Apply(m, step))
    decreases |steps|
  {
    var all := steps + [step];
    if steps == [] {
      assert all == [step] && all[1..] == [];
    } else {
      RunsOn(Apply(s, steps[0]), steps[1..], m, step);
      assert all[0] == steps[0] && all[1..] == steps[1..] + [step];
    }
  }

  /** Steps of the worker whose writes all succeed. */
  predicate Succeeding(steps: seq<Step>) { forall k :: 0 <= k < |steps| ==> steps[k].Take? || steps[k].Confirmed? }

  ghost predicate Works(s: State, s': State) { exists steps :: Succeeding(steps) && Runs(s, steps, s') }

  lemma WorksOn(s: State, m: State, step: Step)
    requires Works(s, m) && Enabled(m, step) && (step.Take? || step.Confirmed?)
    ensures Works(s, Apply(m, step))
  {
    var steps :| Succeeding(steps) && Runs(s, steps, m);
    RunsOn(s, steps, m, step);
  }

  /** A worker whose writes succeed empties the queue, confirming every command in its order; after
      a fault it confirms the newest one only. */
  lemma {:induction false} WorkerDrains(s0: State, s: State) returns (s': State)
    requires Works(s0, s) && Inv(s) && s.hand.None?
    ensures Works(s0, s') && s'.queue == [] && s'.hand.None? && s'.accepted == s.accepted
    ensures s'.confirmed == s.confirmed + (if s.failing && |s.queue| > 1 then [s.latest] else s.queue)
    decreases |s.queue|
  {
    if s.queue == [] {
      s' := s;
    } else {
      TakeKeepsInv(s);
      var s1 := Apply(s, Take);
      WorksOn(s0, s, Take);
      ConfirmKeepsInv(s1);
      var s2 := Apply(s1, Confirmed);
      WorksOn(s0, s1, Confirmed);
      s' := WorkerDrains(s0, s2);
      assert s1.queue == [s1.queue[0]] + s1.queue[1..];
    }
  }

  lemma QueueDrains(steps: seq<Step>, s: State) returns (s': State)
    requires Runs(Init(), steps, s) && s.hand.None?
    ensures Works(s, s') && s'.queue == []
    ensures s'.confirmed == s.confirmed + (if s.failing && |s.queue| > 1 then [s.latest] else s.queue)
  {
    RunKeepsInv(Init(), steps, s);
    assert Succeeding([]) && Runs(s, [], s);
    s' := WorkerDrains(s, s);
  }
}
