/**
  `await_pending_persistence` of src/device/mod.rs: callers take a ticket, put a flush command
  into the FIFO mailbox of the device actor, and poll for the ticket that was last completed.
  Callers give up after a time-out and leave their command behind.

  Calls are numbered as they take tickets; a ticket is that number modulo 2^32.  `issued`,
  `completedNo`, `ran` and `clock`, and the numbers beside tickets, are history.
*/
module FlushTicket {
  import opened Options
  import opened Words

  type Tid = nat

  datatype Msg = Other | Flush(ticket: nat, n: nat)

  /** A call since it won the busy flag at time `started`.  `seen` (`took`) is the number of the call
      whose completion it took for its own. */
  datatype Call =
    | Claimed(started: nat)
    | Ticketed(started: nat, ticket: nat, n: nat)
    | Waiting(started: nat, ticket: nat, n: nat)
    | Matched(started: nat, n: nat, seen: nat)
    | Returned(started: nat, n: nat, took: Option<nat>, ok: bool)

  datatype Actor = Ready | Got(ticket: nat, n: nat) | Done(ticket: nat, n: nat, ok: bool) | Noted(ticket: nat, n: nat)

  /** When the actor ran the flush of a call, and whether it succeeded. */
  datatype Ran = Ran(at: nat, ok: bool)

  datatype State = State(
    busy: bool,
    next: nat,
    completed: nat,
    ok: bool,
    mailbox: seq<Msg>,
    actor: Actor,
    calls: map<Tid, Call>,
    issued: nat,
    completedNo: nat,
    ran: map<nat, Ran>,
    clock: nat)

  datatype CallOp = Claim | TakeTicket | Send(accepted: bool) | Poll | ReadOk | TimeOut

  datatype ActorOp = Receive | RunFlush(ok: bool) | StoreOk | StoreCompleted | Enqueue

  datatype Step = By(t: Tid, cop: CallOp) | Actor(aop: ActorOp)

  function Init(): State { State(false, 0, 0, false, [], Ready, map[], 0, 0, map[], 0) }

  predicate CanCall(s: State, t: Tid, op: CallOp) {
    match op
    case Claim => t !in s.calls && !s.busy
    case TakeTicket => t in s.calls && s.calls[t].Claimed?
    case Send(_) => t in s.calls && s.calls[t].Ticketed?
    case Poll => t in s.calls && s.calls[t].Waiting?
    case ReadOk => t in s.calls && s.calls[t].Matched?
    case TimeOut => t in s.calls && s.calls[t].Waiting?
  }

  predicate CanAct(s: State, op: ActorOp) {
    match op
    case Receive => s.actor.Ready? && s.mailbox != []
    case RunFlush(_) => s.actor.Got?
    case StoreOk => s.actor.Done?
    case StoreCompleted => s.actor.Noted?
    case Enqueue => true
  }

  predicate Enabled(s: State, step: Step) {
    match step
    case By(t, op) => CanCall(s, t, op)
    case Actor(op) => CanAct(s, op)
  }

  function ApplyCall(s: State, t: Tid, op: CallOp): State
    requires CanCall(s, t, op)
  {
    match op
    case Claim => s.(busy := true, calls := s.calls[t := Claimed(s.clock)])
    case TakeTicket =>
      var ticket := (s.next + 1) % WRAP;
      s.(next := ticket, issued := s.issued + 1, calls := s.calls[t := Ticketed(s.calls[t].started, ticket, s.issued + 1)])
    case Send(accepted) =>
      var c := s.calls[t];
      if accepted then
        s.(mailbox := s.mailbox + [Flush(c.ticket, c.n)], calls := s.calls[t := Waiting(c.started, c.ticket, c.n)])
      else s.(busy := false, calls := s.calls[t := Returned(c.started, c.n, None, false)])
    case Poll =>
      var c := s.calls[t];
      if s.completed == c.ticket then s.(calls := s.calls[t := Matched(c.started, c.n, s.completedNo)]) else s
    case ReadOk =>
      var c := s.calls[t];
      s.(busy := false, calls := s.calls[t := Returned(c.started, c.n, Some(c.seen), s.ok)])
    case TimeOut => s.(busy := false, calls := s.calls[t := Returned(s.calls[t].started, s.calls[t].n, None, false)])
  }

  /** The actor stores the result of a flush before the ticket. */
  function ApplyActor(s: State, op: ActorOp): State
    requires CanAct(s, op)
  {
    match op
    case Receive =>
      var m := s.mailbox[0];
      s.(mailbox := s.mailbox[1..], actor := if m.Flush? then Got(m.ticket, m.n) else Ready)
    case RunFlush(ok) =>
      s.(actor := Done(s.actor.ticket, s.actor.n, ok), ran := s.ran[s.actor.n := Ran(s.clock, ok)])
    case StoreOk => s.(ok := s.actor.ok, actor := Noted(s.actor.ticket, s.actor.n))
    case StoreCompleted => s.(completed := s.actor.ticket, completedNo := s.actor.n, actor := Ready)
    case Enqueue => s.(mailbox := s.mailbox + [Other])
  }

  function Tick(s: State): State { s.(clock := s.clock + 1) }

  function Apply(s: State, step: Step): State
    requires Enabled(s, step)
  {
    match step
    case By(t, op) => Tick(ApplyCall(s, t, op))
    case Actor(op) => Tick(ApplyActor(s, op))
  }

  ghost predicate Runs(s: State, steps: seq<Step>, s': State)
    decreases |steps|
  {
    if steps == [] then s' == s
    else Enabled(s, steps[0]) && Runs(Apply(s, steps[0]), steps[1..], s')
  }

  // ---- The invariant ----------------------------------------------------------------------------------

  predicate Live(c: Call) { !c.Returned? }

  predicate SomeoneLive(s: State) { exists t :: t in s.calls && Live(s.calls[t]) }

  /** The busy flag is up exactly while a call is under way, and there is at most one. */
  predicate BusyInv(s: State) {
    && (s.busy <==> SomeoneLive(s))
    && (forall t, u | t in s.calls && u in s.calls && Live(s.calls[t]) && Live(s.calls[u]) :: t == u)
  }

  /** What is still to be completed was numbered later than what is. */
  predicate OrderInv(s: State) {
    && s.next == s.issued % WRAP && s.completed == s.completedNo % WRAP
    && s.completedNo <= s.issued
    && (!s.actor.Ready? ==>
          s.actor.ticket == s.actor.n % WRAP && s.completedNo < s.actor.n <= s.issued)
    && (forall i | 0 <= i < |s.mailbox| && s.mailbox[i].Flush? ::
          s.mailbox[i].ticket == s.mailbox[i].n % WRAP && s.completedNo < s.mailbox[i].n <= s.issued
          && (!s.actor.Ready? ==> s.actor.n < s.mailbox[i].n))
    && (forall i, j | 0 <= i < j < |s.mailbox| && s.mailbox[i].Flush? && s.mailbox[j].Flush? ::
          s.mailbox[i].n < s.mailbox[j].n)
  }

  predicate RanInv(s: State) {
    && (s.completedNo > 0 ==> s.completedNo in s.ran)
    && (s.completedNo > 0 && !s.actor.Noted? ==> s.ok == s.ran[s.completedNo].ok)
    && (s.actor.Done? ==> s.actor.n in s.ran && s.ran[s.actor.n].ok == s.actor.ok)
    && (s.actor.Noted? ==> s.actor.n in s.ran && s.ran[s.actor.n].ok == s.ok)
    && (forall n | n in s.ran :: n <= s.issued)
    && (s.actor.Got? ==> s.actor.n !in s.ran)
    && (forall i | 0 <= i < |s.mailbox| && s.mailbox[i].Flush? :: s.mailbox[i].n !in s.ran)
  }

  predicate NotQueued(s: State, n: nat) {
    && n !in s.ran && (!s.actor.Ready? ==> s.actor.n != n)
    && forall i | 0 <= i < |s.mailbox| && s.mailbox[i].Flush? :: s.mailbox[i].n != n
  }

  predicate RanSince(s: State, started: nat, n: nat) { n in s.ran ==> started <= s.ran[n].at }

  predicate CallInv(s: State, c: Call) {
    c.started <= s.clock &&
    match c
    case Claimed(_) => true
    case Ticketed(_, ticket, n) => n == s.issued > s.completedNo && ticket == n % WRAP && NotQueued(s, n)
    case Waiting(started, ticket, n) => n == s.issued > 0 && ticket == n % WRAP && RanSince(s, started, n)
    case Matched(started, n, seen) =>
      && n == s.issued > 0 && seen <= s.completedNo && seen % WRAP == n % WRAP && RanSince(s, started, n)
    case Returned(started, n, seen, ok) =>
      && n <= s.issued && (ok ==> seen.Some?)
      && (seen.Some? ==> 0 < n && seen.value <= n && seen.value % WRAP == n % WRAP)
      && (seen == Some(n) ==> n in s.ran && s.ran[n].ok == ok && started <= s.ran[n].at)
  }

  predicate Inv(s: State) {
    && BusyInv(s) && OrderInv(s) && RanInv(s)
    && forall t | t in s.calls :: CallInv(s, s.calls[t])
  }

  lemma CallKeepsBusy(s: State, t: Tid, op: CallOp)
    requires BusyInv(s) && CanCall(s, t, op)
    ensures BusyInv(ApplyCall(s, t, op))
  {
    var s' := ApplyCall(s, t, op);
    if Live(s'.calls[t]) {
      assert SomeoneLive(s');
    } else {
      assert t in s.calls && Live(s.calls[t]);
      forall u | u in s'.calls ensures !Live(s'.calls[u]) { }
    }
  }

  lemma CallKeepsOrder(s: State, t: Tid, op: CallOp)
    requires OrderInv(s) && CanCall(s, t, op) && (t in s.calls ==> CallInv(s, s.calls[t]))
    ensures OrderInv(ApplyCall(s, t, op))
  {
    if op == Send(true) {
      var s' := ApplyCall(s, t, op);
      assert s'.mailbox[..|s.mailbox|] == s.mailbox;
      forall i | 0 <= i < |s.mailbox| && s.mailbox[i].Flush? ensures s.mailbox[i].n < s.calls[t].n {
        assert s.mailbox[i].n <= s.issued;
      }
    }
  }

  lemma CallKeepsRan(s: State, t: Tid, op: CallOp)
    requires RanInv(s) && CanCall(s, t, op) && (t in s.calls ==> CallInv(s, s.calls[t]))
    ensures RanInv(ApplyCall(s, t, op))
  {
  }

  lemma CallKeepsOthers(s: State, t: Tid, op: CallOp, u: Tid)
    requires Inv(s) && CanCall(s, t, op) && u in s.calls && u != t
    ensures CallInv(ApplyCall(s, t, op), s.calls[u])
  {
    assert CallInv(s, s.calls[u]);
    assert t in s.calls ==> CallInv(s, s.calls[t]);
  }

  lemma CallKeepsOwn(s: State, t: Tid, op: CallOp)
    requires Inv(s) && CanCall(s, t, op)
    ensures CallInv(ApplyCall(s, t, op), ApplyCall(s, t, op).calls[t])
  {
    if t in s.calls { assert CallInv(s, s.calls[t]); }
  }

  lemma ActorKeepsOrder(s: State, op: ActorOp)
    requires Inv(s) && CanAct(s, op)
    ensures OrderInv(ApplyActor(s, op)) && RanInv(ApplyActor(s, op))
  {
  }

  lemma ActorKeepsCall(s: State, op: ActorOp, t: Tid)
    requires Inv(s) && CanAct(s, op) && t in s.calls
    ensures CallInv(ApplyActor(s, op), s.calls[t])
  {
    assert CallInv(s, s.calls[t]);
  }

  lemma Ticks(s: State)
    requires Inv(s)
    ensures Inv(Tick(s))
  {
    forall t | t in s.calls ensures CallInv(Tick(s), s.calls[t]) { assert CallInv(s, s.calls[t]); }
  }

  lemma CallKeepsInv(s: State, t: Tid, op: CallOp)
    requires Inv(s) && CanCall(s, t, op)
    ensures Inv(ApplyCall(s, t, op))
  {
    var s' := ApplyCall(s, t, op);
    CallKeepsBusy(s, t, op);
    CallKeepsOrder(s, t, op);
    CallKeepsRan(s, t, op);
    forall u | u in s'.calls ensures CallInv(s', s'.calls[u]) {
      if u == t { CallKeepsOwn(s, t, op); } else { CallKeepsOthers(s, t, op, u); }
    }
  }

  lemma ActorKeepsInv(s: State, op: ActorOp)
    requires Inv(s) && CanAct(s, op)
    ensures Inv(ApplyActor(s, op))
  {
    var s' := ApplyActor(s, op);
    ActorKeepsOrder(s, op);
    forall t | t in s'.calls ensures CallInv(s', s'.calls[t]) { ActorKeepsCall(s, op, t); }
  }

  lemma StepKeepsInv(s: State, step: Step)
    requires Inv(s) && Enabled(s, step)
    ensures Inv(Apply(s, step))
  {
    match step
    case By(t, op) => CallKeepsInv(s, t, op); Ticks(ApplyCall(s, t, op));
    case Actor(op) => ActorKeepsInv(s, op); Ticks(ApplyActor(s, op));
  }

  lemma {:induction false} RunKeepsInv(s: State, steps: seq<Step>, s': State)
    requires Inv(s) && Runs(s, steps, s')
    ensures Inv(s')
    decreases |steps|
  {
    if steps != [] {
      StepKeepsInv(s, steps[0]);
      RunKeepsInv(Apply(s, steps[0]), steps[1..], s');
    }
  }

  // ---- What a returned call may rely on ------------------------------------------------------------

  /** At most one call is between winning the busy flag and returning. */
  lemma OneCallAtATime(steps: seq<Step>, s: State, t: Tid, u: Tid)
    requires Runs(Init(), steps, s)
    requires t in s.calls && u in s.calls && Live(s.calls[t]) && Live(s.calls[u])
    ensures t == u
  {
    RunKeepsInv(Init(), steps, s);
  }

  /** The busy flag is up exactly while a call is under way; so after any return, by confirmation,
      refusal or time-out, every new call wins it. */
  lemma BusyMeansLive(steps: seq<Step>, s: State, t: Tid)
    requires Runs(Init(), steps, s)
    ensures s.busy <==> exists u :: u in s.calls && !s.calls[u].Returned?
    ensures (forall u :: u in s.calls ==> s.calls[u].Returned?) && t !in s.calls ==> Enabled(s, By(t, Claim))
  {
    RunKeepsInv(Init(), steps, s);
    if s.busy {
      var u :| u in s.calls && Live(s.calls[u]);
    } else if u :| u in s.calls && !s.calls[u].Returned? {
      assert SomeoneLive(s);
    }
  }

  /** A call that returned "saved" took for its own the completion of some call numbered at or
      before it, and the gap is a multiple of 2^32.  If the gap is less than 2^32, its own
      flush ran after the call began, and succeeded. */
  lemma SavedIsSaved(steps: seq<Step>, s: State, t: Tid)
    requires Runs(Init(), steps, s) && t in s.calls && s.calls[t].Returned? && s.calls[t].ok
    ensures var c := s.calls[t];
            && c.took.Some? && c.took.value <= c.n && (c.n - c.took.value) % WRAP == 0
            && (c.n - c.took.value < WRAP ==> c.n in s.ran && s.ran[c.n].ok && c.started <= s.ran[c.n].at)
  {
    RunKeepsInv(Init(), steps, s);
    assert CallInv(s, s.calls[t]);
  }

  lemma TicketsMatch(s: State, ticket: nat, n: nat)
    requires OrderInv(s) && n == s.issued && ticket == n % WRAP
    ensures s.completedNo <= n && (s.completed == ticket <==> (n - s.completedNo) % WRAP == 0)
  {
  }

  /** While a call waits, the poll takes the completion for its own exactly when it is, or when
      a positive multiple of 2^32 tickets was issued since the last completed one. */
  lemma PollMatchesExactly(steps: seq<Step>, s: State, t: Tid)
    requires Runs(Init(), steps, s) && Enabled(s, By(t, Poll))
    ensures s.completedNo <= s.calls[t].n
    ensures Apply(s, By(t, Poll)).calls[t].Matched? <==> (s.calls[t].n - s.completedNo) % WRAP == 0
  {
    RunKeepsInv(Init(), steps, s);
    assert CallInv(s, s.calls[t]);
    TicketsMatch(s, s.calls[t].ticket, s.calls[t].n);
  }

  // ---- 2^32 tickets without a completion -----------------------------------------------------------

  datatype Recorded = Recorded(steps: seq<Step>, last: State)

  /** A run from the start, with the state it ends in. */
  type Trace = r: Recorded | Runs(Init(), r.steps, r.last) ghost witness Recorded([], Init())

  lemma {:induction false} OneMore(s: State, steps: seq<Step>, s': State, step: Step)
    requires Runs(s, steps, s') && Enabled(s', step)
    ensures Runs(s, steps + [step], Apply(s', step))
    decreases |steps|
  {
    var all := steps + [step];
    if steps == [] {
      assert all == [step] && all[1..] == [];
    } else {
      OneMore(Apply(s, steps[0]), steps[1..], s', step);
      assert all[0] == steps[0] && all[1..] == steps[1..] + [step];
    }
  }

  lemma Go(h: Trace, step: Step) returns (u: Trace)
    requires Enabled(h.last, step)
    ensures u.last == Apply(h.last, step)
  {
    OneMore(Init(), h.steps, h.last, step);
    u := Recorded(h.steps + [step], Apply(h.last, step));
  }

  lemma TakesTicket(h: Trace, t: Tid) returns (u: Trace)
    requires !h.last.busy && t !in h.last.calls
    ensures var s, ticket, n := h.last, (h.last.next + 1) % WRAP, h.last.issued + 1;
            u.last == s.(busy := true, next := ticket, issued := n, clock := s.clock + 2,
                         calls := s.calls[t := Ticketed(s.clock, ticket, n)])
  {
    u := Go(h, By(t, Claim));
    u := Go(u, By(t, TakeTicket));
    assert u.last.calls == h.last.calls[t := u.last.calls[t]];
  }

  /** A call that has sent its command, when the mailbox takes it, or was refused. */
  lemma Sends(h: Trace, t: Tid, accepted: bool) returns (u: Trace)
    requires !h.last.busy && t !in h.last.calls
    ensures var s, ticket, n := h.last, (h.last.next + 1) % WRAP, h.last.issued + 1;
            u.last == s.(busy := accepted, next := ticket, issued := n, clock := s.clock + 3,
                         mailbox := if accepted then s.mailbox + [Flush(ticket, n)] else s.mailbox,
                         calls := s.calls[t := if accepted then Waiting(s.clock, ticket, n) else Returned(s.clock, n, None, false)])
  {
    u := TakesTicket(h, t);
    u := Go(u, By(t, Send(accepted)));
    assert u.last.calls == h.last.calls[t := u.last.calls[t]];
  }

  lemma RunsFlush(h: Trace, ticket: nat, n: nat, ok: bool) returns (u: Trace)
    requires h.last.actor.Ready? && h.last.mailbox == [Flush(ticket, n)]
    ensures var s := h.last;
            u.last == s.(actor := Done(ticket, n, ok), mailbox := [], ran := s.ran[n := Ran(s.clock + 1, ok)], clock := s.clock + 2)
  {
    u := Go(h, Actor(Receive));
    u := Go(u, Actor(RunFlush(ok)));
  }

  /** The actor serves the one flush in the mailbox, which succeeds or fails. */
  lemma Serves(h: Trace, ticket: nat, n: nat, ok: bool) returns (u: Trace)
    requires h.last.actor.Ready? && h.last.mailbox == [Flush(ticket, n)]
    ensures var s := h.last;
            u.last == s.(completed := ticket, ok := ok, mailbox := [], completedNo := n,
                         ran := s.ran[n := Ran(s.clock + 1, ok)], clock := s.clock + 4)
  {
    u := RunsFlush(h, ticket, n, ok);
    u := Go(u, Actor(StoreOk));
    u := Go(u, Actor(StoreCompleted));
  }

  /** A call finds its ticket completed and reads the result. */
  lemma Finishes(h: Trace, t: Tid) returns (u: Trace)
    requires t in h.last.calls && h.last.calls[t].Waiting? && h.last.calls[t].ticket == h.last.completed
    ensures var s := h.last;
            u.last == s.(busy := false, clock := s.clock + 2,
                         calls := s.calls[t := Returned(s.calls[t].started, s.calls[t].n, Some(s.completedNo), s.ok)])
  {
    u := Go(h, By(t, Poll));
    u := Go(u, By(t, ReadOk));
    assert u.last.calls == h.last.calls[t := u.last.calls[t]];
  }

  /** A call that is alone with an idle actor learns what became of its flush. */
  lemma AloneIsAnswered(h: Trace, t: Tid, ok: bool) returns (u: Trace)
    requires !h.last.busy && t !in h.last.calls && h.last.actor.Ready? && h.last.mailbox == []
    ensures t in u.last.calls && u.last.calls[t].Returned? && u.last.calls[t].ok == ok && !u.last.busy
    ensures var n := u.last.calls[t].n; u.last.calls[t].took == Some(n) && n in u.last.ran && u.last.ran[n].ok == ok
    ensures u.last.calls[t].n == h.last.issued + 1 && u.last.mailbox == [] && u.last.actor.Ready?
  {
    u := Sends(h, t, true);
    u := Serves(u, (h.last.next + 1) % WRAP, h.last.issued + 1, ok);
    u := Finishes(u, t);
  }

  predicate FreshFrom(s: State, t: Tid) { forall u | u >= t :: u !in s.calls }

  /** Calls whose command the mailbox refuses use up their tickets all the same. */
  lemma {:induction false} RefusedManyTimes(h: Trace, t: Tid, k: nat) returns (u: Trace)
    requires !h.last.busy && FreshFrom(h.last, t) && h.last.next == h.last.issued % WRAP
    ensures !u.last.busy && FreshFrom(u.last, t + k)
    ensures u.last.issued == h.last.issued + k && u.last.next == u.last.issued % WRAP
    ensures u.last == h.last.(next := u.last.next, issued := u.last.issued, clock := u.last.clock, calls := u.last.calls)
  {
    u := h;
    if k > 0 {
      u := RefusedManyTimes(h, t, k - 1);
      u := Sends(u, t + (k - 1), false);
    }
  }

  /** After 2^32 - 1 refused calls, the next call is told "saved" with its flush still waiting
      in the mailbox. */
  lemma SavedWithoutSaving() returns (u: Trace, t: Tid)
    ensures t in u.last.calls && u.last.calls[t].Returned? && u.last.calls[t].ok
    ensures u.last.calls[t].n !in u.last.ran && Flush(u.last.completed, u.last.calls[t].n) in u.last.mailbox
  {
    u := Recorded([], Init());
    u := Sends(u, 0, true);
    u := Serves(u, 1, 1, true);
    u := Finishes(u, 0);
    u := RefusedManyTimes(u, 1, WRAP - 1);
    t := WRAP;
    u := Sends(u, t, true);
    u := Finishes(u, t);
  }
}
