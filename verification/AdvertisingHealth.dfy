/**
  The advertising lease of src/ble_at/advertising_health.rs: one pending operation, timers on a
  32-bit millisecond clock that wraps, and callbacks that carry no request number.
*/
module AdvertisingHealth {
  import opened Options
  import opened Words

  const RENEW_INTERVAL_MS := 60_000
  const RETRY_INTERVAL_MS := 5_000

  datatype Operation = Name | Configure | Start | Stop

  datatype Recovery = Idle | Retry | Renew

  datatype Health = Health(
    active: bool, pending: Option<Operation>, lastAttempt: u32, lastConfirmed: u32, retryBackoff: bool)

  function Since(now: u32, then_: u32): u32 { (now - then_) % WRAP }

  // ---- What each transition does --------------------------------------------------------------------

  function Begun(h: Health, op: Operation, now: u32): Health {
    if h.pending.Some? then h else h.(pending := Some(op), lastAttempt := now, retryBackoff := false)
  }

  predicate Accepts(h: Health, op: Operation) { h.pending == Some(op) }

  function Completed(h: Health, op: Operation, success: bool, now: u32): Health {
    if !Accepts(h, op) then h else
    var up := op.Start? && success;
    Health(up, None, now, if up then now else h.lastConfirmed, !success)
  }

  function Connected(h: Health, now: u32): Health {
    h.(active := false, pending := None, lastAttempt := now, retryBackoff := false)
  }

  function Stopped(h: Health, now: u32): Health {
    if h.pending.Some? then h else h.(active := false, lastAttempt := now, retryBackoff := false)
  }

  function Answer(h: Health, now: u32, ready: bool, connected: bool, rename: bool): Recovery {
    if !ready || connected then Idle
    else if h.pending.Some? then (if Since(now, h.lastAttempt) < RETRY_INTERVAL_MS then Idle else Retry)
    else if rename then Idle
    else if !h.active then (if Since(now, h.lastAttempt) >= RETRY_INTERVAL_MS then Retry else Idle)
    else if Since(now, h.lastConfirmed) >= RENEW_INTERVAL_MS then Renew else Idle
  }

  function Recovered(h: Health, now: u32, ready: bool, connected: bool, rename: bool): Health {
    if h.pending.Some? && Answer(h, now, ready, connected, rename).Retry? then h.(pending := None, active := false) else h
  }

  predicate MayUpdateName(h: Health, now: u32) {
    h.pending.None? && (!h.retryBackoff || Since(now, h.lastAttempt) >= RETRY_INTERVAL_MS)
  }

  // ---- The object -------------------------------------------------------------------------------------

  class Lease {
    var active: bool
    var pending: Option<Operation>
    var lastAttempt: u32
    var lastConfirmed: u32
    var retryBackoff: bool

    ghost function View(): Health
      reads this
    {
      Health(active, pending, lastAttempt, lastConfirmed, retryBackoff)
    }

    constructor ()
      ensures View() == Health(false, None, 0, 0, false)
    {
      active, pending, lastAttempt, lastConfirmed, retryBackoff := false, None, 0, 0, false;
    }

    method CanUpdateName(now: u32) returns (ok: bool)
      ensures ok <==> MayUpdateName(View(), now)
    {
      ok := pending.None? && (!retryBackoff || (now - lastAttempt) % WRAP >= RETRY_INTERVAL_MS);
    }

    method Begin(op: Operation, now: u32) returns (ok: bool)
      modifies this
      ensures ok == old(pending).None? && View() == Begun(old(View()), op, now)
    {
      if pending.Some? { return false; }
      pending := Some(op);
      lastAttempt := now;
      retryBackoff := false;
      ok := true;
    }

    method Complete(op: Operation, success: bool, now: u32) returns (ok: bool)
      modifies this
      ensures ok == Accepts(old(View()), op) && View() == Completed(old(View()), op, success, now)
    {
      if pending != Some(op) { return false; }
      pending := None;
      lastAttempt := now;
      active := op == Start && success;
      retryBackoff := !success;
      if active { lastConfirmed := now; }
      ok := true;
    }

    method OnConnected(now: u32)
      modifies this
      ensures View() == Connected(old(View()), now)
    {
      active := false;
      pending := None;
      lastAttempt := now;
      retryBackoff := false;
    }

    method UnexpectedStop(now: u32) returns (ok: bool)
      modifies this
      ensures ok == old(pending).None? && View() == Stopped(old(View()), now)
    {
      if pending.Some? { return false; }
      active := false;
      lastAttempt := now;
      retryBackoff := false;
      ok := true;
    }

    method Recover(now: u32, ready: bool, connected: bool, rename: bool) returns (r: Recovery)
      modifies this
      ensures r == Answer(old(View()), now, ready, connected, rename)
      ensures View() == Recovered(old(View()), now, ready, connected, rename)
    {
      if !ready || connected { return Idle; }
      if pending.Some? {
        if (now - lastAttempt) % WRAP < RETRY_INTERVAL_MS { return Idle; }
        pending := None;
        active := false;
        return Retry;
      }
      if rename { return Idle; }
      if !active {
        if (now - lastAttempt) % WRAP >= RETRY_INTERVAL_MS { return Retry; }
      } else if (now - lastConfirmed) % WRAP >= RENEW_INTERVAL_MS {
        return Renew;
      }
      r := Idle;
    }
  }

  // ---- Whole runs on an unbounded clock -----------------------------------------------------------------

  /** What last decided whether the lease is up. */
  datatype Verdict = Nothing | Confirmed(op: Operation, success: bool) | Dropped

  /** `clock` is the true time; the rest is history.  `request` is the number of the pending
      request, `requests` how many began, `settled` how many were answered, cancelled by a
      connection or given up; `failedAt` is when the last operation failed, if nothing began or
      happened since. */
  datatype State = State(
    h: Health, clock: nat, attemptAt: nat, confirmedAt: nat, verdict: Verdict,
    request: nat, requests: nat, settled: nat, failedAt: Option<nat>)

  /** A callback names the request it answers; the device is only told the operation. */
  datatype Event =
    | Begin(op: Operation) | Callback(op: Operation, success: bool, request: nat)
    | Connect | SelfStop | Poll(ready: bool, connected: bool, rename: bool) | Wait(ms: nat)

  function Now(s: State): u32 { s.clock % WRAP }

  function Init(): State { State(Health(false, None, 0, 0, false), 0, 0, 0, Nothing, 0, 0, 0, None) }

  function One(b: bool): nat { if b then 1 else 0 }

  function Apply(s: State, e: Event): State {
    match e
    case Begin(op) =>
      if s.h.pending.Some? then s
      else s.(h := Begun(s.h, op, Now(s)), attemptAt := s.clock, failedAt := None,
              request := s.requests + 1, requests := s.requests + 1)
    case Callback(op, success, _) =>
      if !Accepts(s.h, op) then s else
      var h := Completed(s.h, op, success, Now(s));
      s.(h := h, attemptAt := s.clock, confirmedAt := if h.active then s.clock else s.confirmedAt,
         verdict := Confirmed(op, success), settled := s.settled + 1, failedAt := if success then None else Some(s.clock))
    case Connect =>
      s.(h := Connected(s.h, Now(s)), attemptAt := s.clock, verdict := Dropped, failedAt := None,
         settled := s.settled + One(s.h.pending.Some?))
    case SelfStop =>
      if s.h.pending.Some? then s
      else s.(h := Stopped(s.h, Now(s)), attemptAt := s.clock, verdict := Dropped, failedAt := None)
    case Poll(ready, connected, rename) =>
      var h := Recovered(s.h, Now(s), ready, connected, rename);
      if h == s.h then s else s.(h := h, verdict := Dropped, settled := s.settled + 1)
    case Wait(ms) => s.(clock := s.clock + ms)
  }

  function Run(s: State, es: seq<Event>): State
    decreases |es|
  {
    if es == [] then s else Run(Apply(s, es[0]), es[1..])
  }

  predicate Inv(s: State) {
    && s.attemptAt <= s.clock && s.confirmedAt <= s.clock
    && s.h.lastAttempt == s.attemptAt % WRAP && s.h.lastConfirmed == s.confirmedAt % WRAP
    && (s.h.active <==> s.verdict == Confirmed(Start, true))
    && s.requests == s.settled + One(s.h.pending.Some?) && (s.h.pending.Some? ==> s.request == s.requests)
    && (s.h.retryBackoff <==> s.failedAt.Some?) && (s.failedAt.Some? ==> s.failedAt.value == s.attemptAt)
  }

  lemma StepKeepsInv(s: State, e: Event)
    requires Inv(s)
    ensures Inv(Apply(s, e))
  {
  }

  lemma {:induction false} RunKeepsInv(s: State, es: seq<Event>)
    requires Inv(s)
    ensures Inv(Run(s, es))
    decreases |es|
  {
    if es != [] {
      StepKeepsInv(s, es[0]);
      RunKeepsInv(Apply(s, es[0]), es[1..]);
    }
  }

  /** The lease is up exactly when the last thing that decided about it was an accepted,
      successful start. */
  lemma ActiveMeansStarted(es: seq<Event>)
    ensures var s := Run(Init(), es); s.h.active <==> s.verdict == Confirmed(Start, true)
  {
    RunKeepsInv(Init(), es);
  }

  lemma WrappedElapsed(clock: nat, at: nat, interval: nat)
    requires at <= clock < at + WRAP && interval < WRAP
    ensures Since(clock % WRAP, at % WRAP) >= interval <==> clock - at >= interval
  {
    assert (clock % WRAP - at % WRAP) % WRAP == (clock - at) % WRAP by {
      var a, b := clock / WRAP, at / WRAP;
      assert clock % WRAP - at % WRAP == (clock - at) - WRAP * (a - b);
      ModShift(clock - at, b - a);
    }
  }

  lemma ModShift(x: int, k: int)
    ensures (x + WRAP * k) % WRAP == x % WRAP
  {
  }

  lemma AnswerCases(h: Health, now: u32, rename: bool)
    ensures var r := Answer(h, now, true, false, rename);
            && (h.pending.Some? ==> (r == Retry <==> Since(now, h.lastAttempt) >= RETRY_INTERVAL_MS) && r != Renew)
            && (h.pending.None? && !rename && !h.active ==>
                  (r == Retry <==> Since(now, h.lastAttempt) >= RETRY_INTERVAL_MS) && r != Renew)
            && (h.pending.None? && !rename && h.active ==>
                  (r == Renew <==> Since(now, h.lastConfirmed) >= RENEW_INTERVAL_MS) && r != Retry)
  {
  }

  lemma TrueWaits(s: State)
    requires Inv(s)
    ensures s.clock - s.attemptAt < WRAP ==>
              (Since(Now(s), s.h.lastAttempt) >= RETRY_INTERVAL_MS <==> s.clock - s.attemptAt >= RETRY_INTERVAL_MS)
    ensures s.clock - s.confirmedAt < WRAP ==>
              (Since(Now(s), s.h.lastConfirmed) >= RENEW_INTERVAL_MS <==> s.clock - s.confirmedAt >= RENEW_INTERVAL_MS)
  {
    if s.clock - s.attemptAt < WRAP { WrappedElapsed(s.clock, s.attemptAt, RETRY_INTERVAL_MS); }
    if s.clock - s.confirmedAt < WRAP { WrappedElapsed(s.clock, s.confirmedAt, RENEW_INTERVAL_MS); }
  }

  /** The timers are exact for true waits below 2^32 ms: an unanswered operation is given up,
      and an idle lease retried, from 5 s on, a confirmed lease renewed from 60 s on, and not
      a millisecond earlier. */
  lemma TimersAreExact(es: seq<Event>, rename: bool)
    ensures var s := Run(Init(), es);
            var r := Answer(s.h, Now(s), true, false, rename);
            && s.attemptAt <= s.clock && s.confirmedAt <= s.clock
            && (s.clock - s.attemptAt < WRAP && s.h.pending.Some? ==> (r == Retry <==> s.clock - s.attemptAt >= 5_000) && r != Renew)
            && (s.clock - s.attemptAt < WRAP && s.h.pending.None? && !rename && !s.h.active ==>
                  (r == Retry <==> s.clock - s.attemptAt >= 5_000) && r != Renew)
            && (s.clock - s.confirmedAt < WRAP && s.h.pending.None? && !rename && s.h.active ==>
                  (r == Renew <==> s.clock - s.confirmedAt >= 60_000) && r != Retry)
  {
    RunKeepsInv(Init(), es);
    var s := Run(Init(), es);
    AnswerCases(s.h, Now(s), rename);
    TrueWaits(s);
  }

  /** And the answer in full, whatever the device asks: a retry exactly when advertising is possible
      and 5 s have gone since the last attempt, for a pending operation in any case and for an idle
      lease unless a name update has to come first; a renewal exactly for an idle lease that is up,
      with no name update to come, from 60 s on. */
  lemma RecoveryExactly(es: seq<Event>, ready: bool, connected: bool, rename: bool)
    ensures var s := Run(Init(), es);
            var r := Answer(s.h, Now(s), ready, connected, rename);
            && (s.clock - s.attemptAt < WRAP && s.clock - s.confirmedAt < WRAP ==>
                  && (r == Retry <==> ready && !connected && s.clock - s.attemptAt >= 5_000
                                      && (s.h.pending.Some? || (!rename && !s.h.active)))
                  && (r == Renew <==> ready && !connected && s.h.pending.None? && !rename && s.h.active
                                      && s.clock - s.confirmedAt >= 60_000))
  {
    RunKeepsInv(Init(), es);
    TrueWaits(Run(Init(), es));
  }

  /** At most one operation is ever pending: of all that began, the last one or none. */
  lemma OnePendingAtATime(es: seq<Event>)
    ensures var s := Run(Init(), es);
            && s.requests - s.settled == (if s.h.pending.Some? then 1 else 0)
            && (s.h.pending.Some? ==> s.request == s.requests)
  {
    RunKeepsInv(Init(), es);
  }

  /** For true waits below 2^32 ms, a name update is held back exactly while an operation is
      pending and for 5 s after a failed one, unless something began or happened since. */
  lemma NameUpdatesWaitExactly(es: seq<Event>)
    ensures var s := Run(Init(), es);
            && (s.failedAt.Some? ==> s.failedAt.value <= s.clock)
            && (s.clock - s.attemptAt < WRAP ==>
                  (MayUpdateName(s.h, Now(s)) <==>
                   s.h.pending.None? && (s.failedAt.Some? ==> s.clock - s.failedAt.value >= 5_000)))
  {
    RunKeepsInv(Init(), es);
    TrueWaits(Run(Init(), es));
  }

  /** Whatever the device asks, it is told to act only when it may advertise, to retry never
      within 5 s of the last attempt, to renew only a lease that stood for 60 s; and being told
      to retry leaves no operation pending and no lease up. */
  lemma RecoveryNeverHurries(es: seq<Event>, ready: bool, connected: bool, rename: bool)
    ensures var s := Run(Init(), es);
            var r := Answer(s.h, Now(s), ready, connected, rename);
            var s' := Apply(s, Poll(ready, connected, rename));
            && (r != Idle ==> ready && !connected)
            && (r == Retry ==> s.clock - s.attemptAt >= 5_000 && s'.h.pending.None? && !s'.h.active)
            && (r == Renew ==> s.h.active && s.h.pending.None? && s.clock - s.confirmedAt >= 60_000 && s' == s)
            && (r == Idle ==> s' == s)
  {
    RunKeepsInv(Init(), es);
    PollNeverHurries(Run(Init(), es), ready, connected, rename);
  }

  lemma PollNeverHurries(s: State, ready: bool, connected: bool, rename: bool)
    requires Inv(s)
    ensures var r := Answer(s.h, Now(s), ready, connected, rename);
            var s' := Apply(s, Poll(ready, connected, rename));
            && (r != Idle ==> ready && !connected)
            && (r == Retry ==> s.clock - s.attemptAt >= 5_000 && s'.h.pending.None? && !s'.h.active)
            && (r == Renew ==> s.h.active && s.h.pending.None? && s.clock - s.confirmedAt >= 60_000 && s' == s)
            && (r == Idle ==> s' == s)
  {
    NeverOver(s.clock, s.attemptAt, RETRY_INTERVAL_MS);
    NeverOver(s.clock, s.confirmedAt, RENEW_INTERVAL_MS);
  }

  /** The wrapped clock may show less than the true wait, never more. */
  lemma NeverOver(clock: nat, at: nat, interval: nat)
    requires at <= clock && interval < WRAP
    ensures Since(clock % WRAP, at % WRAP) >= interval ==> clock - at >= interval
  {
    if clock - at < WRAP { WrappedElapsed(clock, at, interval); }
  }

  // ---- Callbacks of cancelled requests ---------------------------------------------------------------

  /** The callback of a request that is no longer the pending one. */
  predicate IsLate(s: State, e: Event) { e.Callback? && (s.h.pending.None? || e.request != s.request) }

  /** A late callback is ignored, unless another operation of its kind is pending by then:
      then it is taken for that one's. */
  lemma LateCallbackExactly(es: seq<Event>, e: Event)
    requires IsLate(Run(Init(), es), e)
    ensures var s := Run(Init(), es);
            && (s.h.pending != Some(e.op) ==> Apply(s, e) == s)
            && (s.h.pending == Some(e.op) ==> Apply(s, e).h.pending.None? && e.request != s.request)
  {
  }

  /** So a start that was cancelled by a connection can confirm the next one. */
  lemma LateStartConfirmsTheNext()
    ensures var s := Run(Init(), [Begin(Start), Connect, Begin(Start)]);
            var late := Callback(Start, true, 1);
            && s.h.pending == Some(Start) && s.request == 2 && IsLate(s, late)
            && Apply(s, late).h.active && Apply(s, late).h.pending.None?
  {
    var s1 := Apply(Init(), Begin(Start));
    var s2 := Apply(s1, Connect);
    var s3 := Apply(s2, Begin(Start));
    assert Run(s3, []) == s3;
    assert Run(s2, [Begin(Start)]) == s3 by { assert [Begin(Start)][1..] == []; }
    assert Run(s1, [Connect, Begin(Start)]) == s3 by { assert [Connect, Begin(Start)][1..] == [Begin(Start)]; }
    assert [Begin(Start), Connect, Begin(Start)][1..] == [Connect, Begin(Start)];
  }
}
