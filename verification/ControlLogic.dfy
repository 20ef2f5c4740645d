/**
  The control-word executor of src/control_logic.rs: commands for the digital outputs, delayed
  and pulsed, in a table of at most 64 actions without order, which each pass of the main loop
  scans with `swap_remove`.
*/
module ControlLogic {
  import opened Bits64
  import opened Options

  const MAX_SCHEDULED := 64
  /** A ring declared with 64 places keeps one free. */
  const MAX_COMMANDS := 63
  const COMMANDS_PER_TICK := 8
  const U64_MAX := 0xFFFF_FFFF_FFFF_FFFF

  // ---- From a control word to a command -------------------------------------------------------

  datatype ControlSpec = ControlSpec(value: nat, qBits: bits)

  datatype IoLogic = IoLogic(
    logicId: nat, controllable: bool, controlAddr: nat, qPoints: seq<nat>,
    delaySeconds: nat, pulseSeconds: nat, controls: seq<ControlSpec>)

  datatype Command = Command(logicId: nat, scope: bits, mask: bits, delayMs: nat, pulseMs: nat)

  function SecondsToMillis(seconds: nat): nat { seconds * 1000 }

  /** Points are numbered from 1; others name no output. */
  function PointScope(points: seq<nat>): (scope: bits)
    ensures forall ch: nat :: ch in scope <==> ch + 1 in points && ch < 64
  {
    if points == [] then {} else
    var rest := PointScope(points[1..]);
    if points[0] == 0 || points[0] > 64 then rest else rest + {points[0] - 1}
  }

  function FirstControl(controls: seq<ControlSpec>, value: nat): Option<ControlSpec> {
    if controls == [] then None
    else if controls[0].value == value then Some(controls[0])
    else FirstControl(controls[1..], value)
  }

  lemma {:induction false} FirstControlIsFirst(controls: seq<ControlSpec>, value: nat, k: nat)
    requires k < |controls| && controls[k].value == value && forall j :: 0 <= j < k ==> controls[j].value != value
    ensures FirstControl(controls, value) == Some(controls[k])
  {
    if k > 0 { FirstControlIsFirst(controls[1..], value, k - 1); }
  }

  lemma {:induction false} FirstControlMatches(controls: seq<ControlSpec>, value: nat)
    ensures FirstControl(controls, value).Some? <==> exists k :: 0 <= k < |controls| && controls[k].value == value
  {
    if controls != [] && controls[0].value != value {
      FirstControlMatches(controls[1..], value);
      if k :| 0 <= k < |controls| && controls[k].value == value { assert controls[1..][k - 1].value == value; }
    }
  }

  function CommandForLogic(logic: IoLogic, address: nat, value: nat): Option<Command> {
    if !logic.controllable || logic.controlAddr != address then None else
    var control := FirstControl(logic.controls, value);
    if control.None? then None else
    var scope := PointScope(logic.qPoints);
    Some(Command(logic.logicId, scope, control.value.qBits * scope,
                 SecondsToMillis(logic.delaySeconds), SecondsToMillis(logic.pulseSeconds)))
  }

  /** The command of a control word switches on exactly the points of its logic that the first
      matching control names, and is delayed and pulsed for as many seconds as the logic says. */
  lemma CommandIsOfFirstControl(logic: IoLogic, address: nat, value: nat, k: nat)
    requires logic.controllable && logic.controlAddr == address
    requires k < |logic.controls| && logic.controls[k].value == value && forall j :: 0 <= j < k ==> logic.controls[j].value != value
    ensures var c := CommandForLogic(logic, address, value);
            && c.Some? && c.value.logicId == logic.logicId
            && (forall ch: nat :: ch in c.value.mask <==> ch + 1 in logic.qPoints && ch < 64 && ch in logic.controls[k].qBits)
            && c.value.delayMs == 1000 * logic.delaySeconds && c.value.pulseMs == 1000 * logic.pulseSeconds
  {
    FirstControlIsFirst(logic.controls, value, k);
  }

  /** A control word drives exactly the points of its logic that the first matching control
      names, and a pulse lasts at least a second. */
  lemma CommandStaysInScope(logic: IoLogic, address: nat, value: nat)
    ensures var c := CommandForLogic(logic, address, value);
            && (c.Some? <==> logic.controllable && logic.controlAddr == address
                             && exists k :: 0 <= k < |logic.controls| && logic.controls[k].value == value)
            && (c.Some? ==>
                  && (forall ch: nat :: ch in c.value.scope <==> ch + 1 in logic.qPoints && ch < 64)
                  && c.value.mask <= c.value.scope && (c.value.pulseMs == 0 || c.value.pulseMs >= 1000))
  {
    FirstControlMatches(logic.controls, value);
  }

  // ---- The schedule ----------------------------------------------------------------------------

  datatype Scheduled = Scheduled(logicId: nat, due: nat, mask: bits, value: bits, transient: bool)

  function SaturatingAdd(a: nat, b: nat): nat { if a + b > U64_MAX then U64_MAX else a + b }

  predicate ScheduleFits(current: nat, replaced: nat, required: nat)
  {
    (if current > replaced then current - replaced else 0) + required <= MAX_SCHEDULED
  }

  function Of(s: seq<Scheduled>, logicId: nat): nat {
    if s == [] then 0 else Of(s[..|s| - 1], logicId) + (if s[|s| - 1].logicId == logicId then 1 else 0)
  }

  function Others(s: seq<Scheduled>, logicId: nat): seq<Scheduled> {
    if s == [] then [] else
    Others(s[..|s| - 1], logicId) + (if s[|s| - 1].logicId == logicId then [] else [s[|s| - 1]])
  }

  function Edges(c: Command, now: nat): (e: seq<Scheduled>)
    ensures |e| == if c.pulseMs > 0 then 2 else 1
  {
    var due := SaturatingAdd(now, c.delayMs);
    var on := Scheduled(c.logicId, due, c.scope, c.mask, c.pulseMs > 0);
    if c.pulseMs == 0 then [on]
    else [on, Scheduled(c.logicId, SaturatingAdd(due, c.pulseMs), c.scope, {}, false)]
  }

  /** A command replaces what its logic had scheduled, with all its edges, or changes nothing. */
  function Admit(s: seq<Scheduled>, c: Command, now: nat): seq<Scheduled> {
    if ScheduleFits(|s|, Of(s, c.logicId), |Edges(c, now)|) then Others(s, c.logicId) + Edges(c, now) else s
  }

  function AdmitAll(s: seq<Scheduled>, cs: seq<Command>, now: nat): seq<Scheduled> {
    if cs == [] then s else Admit(AdmitAll(s, cs[..|cs| - 1], now), cs[|cs| - 1], now)
  }

  lemma {:induction false} OthersSize(s: seq<Scheduled>, logicId: nat)
    ensures |Others(s, logicId)| + Of(s, logicId) == |s|
  {
    if s != [] { OthersSize(s[..|s| - 1], logicId); }
  }

  lemma {:induction false} OthersMembers(s: seq<Scheduled>, logicId: nat, e: Scheduled)
    ensures e in Others(s, logicId) <==> e in s && e.logicId != logicId
  {
    if s != [] {
      OthersMembers(s[..|s| - 1], logicId, e);
      assert s == s[..|s| - 1] + [s[|s| - 1]];
    }
  }

  lemma AdmitKeepsBound(s: seq<Scheduled>, c: Command, now: nat)
    requires |s| <= MAX_SCHEDULED
    ensures |Admit(s, c, now)| <= MAX_SCHEDULED
  {
    OthersSize(s, c.logicId);
  }

  // ---- One pass -----------------------------------------------------------------------------------

  function SwapRemove(s: seq<Scheduled>, i: nat): (r: seq<Scheduled>)
    requires i < |s|
    ensures |r| == |s| - 1
  {
    var last := |s| - 1;
    if i == last then s[..last] else s[..last][i := s[last]]
  }

  datatype Outputs = Outputs(bits: bits, transient: bits)

  function ApplyOutput(o: Outputs, e: Scheduled): Outputs {
    Outputs(Replace(o.bits, e.mask, e.value), if e.transient then o.transient + e.mask else o.transient - e.mask)
  }

  /** What the scan from index `i` on leaves in the schedule. */
  function Rest(s: seq<Scheduled>, i: nat, now: nat): seq<Scheduled>
    requires i <= |s|
    decreases |s| - i
  {
    if i == |s| then s else if s[i].due <= now then Rest(SwapRemove(s, i), i, now) else Rest(s, i + 1, now)
  }

  /** What it applies, in this order. */
  function Applied(s: seq<Scheduled>, i: nat, now: nat): seq<Scheduled>
    requires i <= |s|
    decreases |s| - i
  {
    if i == |s| then []
    else if s[i].due <= now then [s[i]] + Applied(SwapRemove(s, i), i, now)
    else Applied(s, i + 1, now)
  }

  function ApplyAll(o: Outputs, es: seq<Scheduled>): Outputs
    decreases |es|
  {
    if es == [] then o else ApplyAll(ApplyOutput(o, es[0]), es[1..])
  }

  lemma SwapRemoveMultiset(s: seq<Scheduled>, i: nat)
    requires i < |s|
    ensures multiset(s) == multiset(SwapRemove(s, i)) + multiset{s[i]}
  {
    var last := |s| - 1;
    assert s == s[..last] + [s[last]];
    if i < last { assert s[..last] == s[..i] + [s[i]] + s[i + 1..last] && SwapRemove(s, i) == s[..i] + [s[last]] + s[i + 1..last]; }
  }

  /** Each pass applies every due action exactly once, and no other; the rest stay. */
  lemma {:induction false} PassIsExact(s: seq<Scheduled>, i: nat, now: nat)
    requires i <= |s| && forall k :: 0 <= k < i ==> s[k].due > now
    ensures multiset(s) == multiset(Applied(s, i, now)) + multiset(Rest(s, i, now))
    ensures forall e :: e in Applied(s, i, now) ==> e.due <= now
    ensures forall e :: e in Rest(s, i, now) ==> e.due > now
    decreases |s| - i
  {
    if i < |s| {
      if s[i].due <= now {
        SwapRemoveMultiset(s, i);
        PassIsExact(SwapRemove(s, i), i, now);
      } else {
        PassIsExact(s, i + 1, now);
      }
    }
  }

  lemma PassMembers(s: seq<Scheduled>, now: nat, e: Scheduled)
    ensures e in Rest(s, 0, now) <==> e in s && e.due > now
    ensures e in Applied(s, 0, now) <==> e in s && e.due <= now
    ensures |Rest(s, 0, now)| <= |s|
  {
    PassIsExact(s, 0, now);
    var r, a := Rest(s, 0, now), Applied(s, 0, now);
    assert e in s <==> e in multiset(s);
    assert e in r <==> e in multiset(r);
    assert e in a <==> e in multiset(a);
    assert |multiset(s)| == |s| && |multiset(a)| == |a| && |multiset(r)| == |r|;
  }

  // ---- What the outputs are afterwards ----------------------------------------------------------

  /** The last of the actions that names the channel. */
  predicate LastNaming(es: seq<Scheduled>, k: nat, ch: nat) {
    k < |es| && ch in es[k].mask && forall j :: k < j < |es| ==> ch !in es[j].mask
  }

  predicate Unnamed(es: seq<Scheduled>, ch: nat) { forall j :: 0 <= j < |es| ==> ch !in es[j].mask }

  lemma OneSets(o: Outputs, e: Scheduled, ch: nat)
    ensures var o' := ApplyOutput(o, e);
            if ch in e.mask then (ch in o'.bits <==> ch in e.value) && (ch in o'.transient <==> e.transient)
            else (ch in o'.bits <==> ch in o.bits) && (ch in o'.transient <==> ch in o.transient)
  {
  }

  lemma {:induction false} UnnamedStays(o: Outputs, es: seq<Scheduled>, ch: nat)
    requires Unnamed(es, ch)
    ensures ch in ApplyAll(o, es).bits <==> ch in o.bits
    ensures ch in ApplyAll(o, es).transient <==> ch in o.transient
    decreases |es|
  {
    if es != [] {
      OneSets(o, es[0], ch);
      UnnamedStays(ApplyOutput(o, es[0]), es[1..], ch);
    }
  }

  /** A channel is on afterwards exactly when the last action that names it has it in its value, and
      pulsing exactly when that action is the beginning of a pulse. */
  lemma {:induction false} LastSets(o: Outputs, es: seq<Scheduled>, k: nat, ch: nat)
    requires LastNaming(es, k, ch)
    ensures ch in ApplyAll(o, es).bits <==> ch in es[k].value
    ensures ch in ApplyAll(o, es).transient <==> es[k].transient
    decreases |es|
  {
    OneSets(o, es[0], ch);
    if k == 0 {
      UnnamedStays(ApplyOutput(o, es[0]), es[1..], ch);
    } else {
      LastSets(ApplyOutput(o, es[0]), es[1..], k - 1, ch);
    }
  }

  // ---- The executor itself -------------------------------------------------------------------------

  class Executor {
    var commands: seq<Command>
    var scheduled: seq<Scheduled>
    var outputs: Outputs

    constructor ()
      ensures commands == [] && scheduled == [] && outputs == Outputs({}, {})
    {
      commands, scheduled, outputs := [], [], Outputs({}, {});
    }

    /** A full command queue drops the command. */
    method Enqueue(c: Command) returns (ok: bool)
      modifies this`commands
      ensures ok == (|old(commands)| < 63)
      ensures commands == if ok then old(commands) + [c] else old(commands)
    {
      ok := |commands| < MAX_COMMANDS;
      if ok { commands := commands + [c]; }
    }

    method Schedule(c: Command, commandNow: nat)
      requires |scheduled| <= MAX_SCHEDULED
      modifies this`scheduled
      ensures scheduled == Admit(old(scheduled), c, commandNow) && |scheduled| <= MAX_SCHEDULED
    {
      var due := SaturatingAdd(commandNow, c.delayMs);
      var replaced := 0;
      for i := 0 to |scheduled|
        invariant replaced == Of(scheduled[..i], c.logicId)
      {
        assert scheduled[..i + 1][..i] == scheduled[..i];
        if scheduled[i].logicId == c.logicId { replaced := replaced + 1; }
      }
      assert scheduled[..|scheduled|] == scheduled;
      OthersSize(scheduled, c.logicId);
      var required := if c.pulseMs > 0 then 2 else 1;
      if !ScheduleFits(|scheduled|, replaced, required) { return; }
      var kept := [];
      for i := 0 to |scheduled|
        invariant kept == Others(scheduled[..i], c.logicId)
      {
        assert scheduled[..i + 1][..i] == scheduled[..i];
        if scheduled[i].logicId != c.logicId { kept := kept + [scheduled[i]]; }
      }
      scheduled := kept;
      if |scheduled| < MAX_SCHEDULED {
        scheduled := scheduled + [Scheduled(c.logicId, due, c.scope, c.mask, c.pulseMs > 0)];
      }
      if c.pulseMs > 0 && |scheduled| < MAX_SCHEDULED {
        scheduled := scheduled + [Scheduled(c.logicId, SaturatingAdd(due, c.pulseMs), c.scope, {}, false)];
      }
      assert scheduled == kept + Edges(c, commandNow);
    }

    /** The first part of a tick: commands are taken from the queue, in order and at most so many. */
    method Drain(commandNow: nat)
      requires |scheduled| <= MAX_SCHEDULED
      modifies this`commands, this`scheduled
      ensures var taken := if |old(commands)| < COMMANDS_PER_TICK then |old(commands)| else COMMANDS_PER_TICK;
              && commands == old(commands)[taken..]
              && scheduled == AdmitAll(old(scheduled), old(commands)[..taken], commandNow)
      ensures |scheduled| <= MAX_SCHEDULED
    {
      var n := 0;
      while n < COMMANDS_PER_TICK && commands != []
        invariant n <= COMMANDS_PER_TICK && n <= |old(commands)| && |scheduled| <= MAX_SCHEDULED
        invariant commands == old(commands)[n..]
        invariant scheduled == AdmitAll(old(scheduled), old(commands)[..n], commandNow)
      {
        var c := commands[0];
        commands := commands[1..];
        Schedule(c, commandNow);
        assert old(commands)[..n + 1][..n] == old(commands)[..n];
        n := n + 1;
      }
    }

    method Tick(commandNow: nat, scheduledNow: nat)
      requires |scheduled| <= MAX_SCHEDULED
      modifies this
      ensures var taken := if |old(commands)| < 8 then |old(commands)| else 8;
              var all := AdmitAll(old(scheduled), old(commands)[..taken], commandNow);
              && commands == old(commands)[taken..]
              && scheduled == Rest(all, 0, scheduledNow) && |scheduled| <= MAX_SCHEDULED
              && outputs == ApplyAll(old(outputs), Applied(all, 0, scheduledNow))
    {
      Drain(commandNow);
      ApplyDue(scheduledNow);
    }

    /** The rest of a tick: the actions that are due, each taken out before it is applied. */
    method ApplyDue(scheduledNow: nat)
      modifies this`scheduled, this`outputs
      ensures scheduled == Rest(old(scheduled), 0, scheduledNow) && |scheduled| <= |old(scheduled)|
      ensures outputs == ApplyAll(old(outputs), Applied(old(scheduled), 0, scheduledNow))
    {
      ghost var all := scheduled;
      var index := 0;
      while index < |scheduled|
        invariant index <= |scheduled| <= |all|
        invariant Rest(scheduled, index, scheduledNow) == Rest(all, 0, scheduledNow)
        invariant ApplyAll(outputs, Applied(scheduled, index, scheduledNow))
                  == ApplyAll(old(outputs), Applied(all, 0, scheduledNow))
        decreases |scheduled| - index
      {
        if scheduled[index].due <= scheduledNow {
          var action := scheduled[index];
          var remaining := SwapRemove(scheduled, index);
          assert Applied(scheduled, index, scheduledNow)[1..] == Applied(remaining, index, scheduledNow);
          scheduled := remaining;
          outputs := ApplyOutput(outputs, action);
        } else {
          index := index + 1;
        }
      }
    }
  }

  // ---- Whole runs ------------------------------------------------------------------------------------

  /** Between passes: `last` is when the last one looked at the clock. */
  datatype State = State(commands: seq<Command>, schedule: seq<Scheduled>, outputs: Outputs, last: nat)

  datatype Step = Arrive(c: Command) | Pass(commandNow: nat, now: nat)

  function Init(): State { State([], [], Outputs({}, {}), 0) }

  /** Far enough from the end of the 64-bit millisecond clock that nothing saturates. */
  const CLOCK_END := 0x8000_0000_0000_0000

  function Scope(scopes: map<nat, bits>, logicId: nat): bits { if logicId in scopes then scopes[logicId] else {} }

  predicate WholeSeconds(ms: nat) { ms % 1000 == 0 && ms <= 65_535_000 }

  /** A command made from the fixed table, whose delays are 16-bit numbers of seconds. */
  predicate FromTable(scopes: map<nat, bits>, c: Command) {
    c.scope == Scope(scopes, c.logicId) && c.mask <= c.scope && WholeSeconds(c.delayMs) && WholeSeconds(c.pulseMs)
  }

  /** Every command the code makes is one of these. */
  lemma CommandIsFromTable(scopes: map<nat, bits>, logic: IoLogic, address: nat, value: nat)
    requires logic.delaySeconds < 0x1_0000 && logic.pulseSeconds < 0x1_0000
    requires Scope(scopes, logic.logicId) == PointScope(logic.qPoints)
    requires CommandForLogic(logic, address, value).Some?
    ensures FromTable(scopes, CommandForLogic(logic, address, value).value)
  {
  }

  predicate Enabled(scopes: map<nat, bits>, s: State, step: Step) {
    match step
    case Arrive(c) => FromTable(scopes, c)
    case Pass(commandNow, now) => s.last <= commandNow <= now < CLOCK_END
  }

  /** A pass takes less than a second from its command clock on, and comes no later than a second
      after the one before; up to two seconds after the start it may come at any time, since an
      action that waits is due at 1000 or later. */
  predicate InTime(last: nat, commandNow: nat, now: nat) {
    now < commandNow + 1000 && now <= (if last < 999 then 999 else last) + 1000
  }

  predicate Timely(s: State, step: Step) { step.Pass? ==> InTime(s.last, step.commandNow, step.now) }

  function Take(s: State): nat { if |s.commands| < COMMANDS_PER_TICK then |s.commands| else COMMANDS_PER_TICK }

  function Due(s: State, step: Step): seq<Scheduled>
    requires step.Pass?
  {
    AdmitAll(s.schedule, s.commands[..Take(s)], step.commandNow)
  }

  function Apply(s: State, step: Step): State {
    match step
    case Arrive(c) => if |s.commands| < MAX_COMMANDS then s.(commands := s.commands + [c]) else s
    case Pass(_, now) =>
      State(s.commands[Take(s)..], Rest(Due(s, step), 0, now), ApplyAll(s.outputs, Applied(Due(s, step), 0, now)), now)
  }

  ghost predicate Runs(scopes: map<nat, bits>, s: State, steps: seq<Step>, s': State)
    decreases |steps|
  {
    if steps == [] then s' == s
    else Enabled(scopes, s, steps[0]) && Runs(scopes, Apply(s, steps[0]), steps[1..], s')
  }

  ghost predicate AllTimely(s: State, steps: seq<Step>)
    decreases |steps|
  {
    steps != [] ==> Timely(s, steps[0]) && AllTimely(Apply(s, steps[0]), steps[1..])
  }

  /** The action that ends a pulse. */
  predicate Releases(off: Scheduled, on: Scheduled) {
    off.logicId == on.logicId && !off.transient && off.mask == on.mask && off.value == {} && off.due >= on.due + 1000
  }

  predicate HasRelease(s: seq<Scheduled>, on: Scheduled) { exists off :: off in s && Releases(off, on) }

  predicate ScheduleInv(scopes: map<nat, bits>, s: seq<Scheduled>) {
    && |s| <= MAX_SCHEDULED
    && (forall e :: e in s ==> e.mask == Scope(scopes, e.logicId))
    && (forall e :: e in s && e.transient ==> HasRelease(s, e))
  }

  /** Due now, or in a second or more. */
  predicate AtOnceOrLater(e: Scheduled, now: nat) { e.due == now || e.due >= now + 1000 }

  lemma EdgesAreGood(scopes: map<nat, bits>, c: Command, now: nat)
    requires FromTable(scopes, c) && now < CLOCK_END
    ensures forall e :: e in Edges(c, now) ==> e.mask == Scope(scopes, e.logicId) && e.logicId == c.logicId
    ensures forall e :: e in Edges(c, now) ==> AtOnceOrLater(e, now)
    ensures forall e :: e in Edges(c, now) && e.transient ==> HasRelease(Edges(c, now), e)
    ensures exists e :: e in Edges(c, now) && !e.transient
  {
    var es := Edges(c, now);
    if c.pulseMs > 0 {
      assert es[1] in es && Releases(es[1], es[0]);
    } else {
      assert es[0] in es;
    }
  }

  lemma AdmitMembers(s: seq<Scheduled>, c: Command, now: nat, e: Scheduled)
    ensures e in Admit(s, c, now) <==>
              if ScheduleFits(|s|, Of(s, c.logicId), |Edges(c, now)|)
              then (e in s && e.logicId != c.logicId) || e in Edges(c, now)
              else e in s
  {
    OthersMembers(s, c.logicId, e);
  }

  /** A command that does not fit changes nothing; one that fits puts all its edges into the
      table, in place of what its logic had there, and leaves the other logics alone. */
  lemma AdmitIsAllOrNothing(s: seq<Scheduled>, c: Command, now: nat)
    requires |s| <= MAX_SCHEDULED
    ensures var s' := Admit(s, c, now);
            var need := if c.pulseMs > 0 then 2 else 1;
            && |s'| <= 64
            && (if |s| - Of(s, c.logicId) + need > 64 then s' == s
                else
                  && |s'| == |s| - Of(s, c.logicId) + need
                  && forall e :: e in s' <==> (e in s && e.logicId != c.logicId) || e in Edges(c, now))
  {
    OthersSize(s, c.logicId);
    forall e ensures e in Admit(s, c, now) <==>
              if ScheduleFits(|s|, Of(s, c.logicId), |Edges(c, now)|)
              then (e in s && e.logicId != c.logicId) || e in Edges(c, now) else e in s
    {
      AdmitMembers(s, c, now, e);
    }
  }

  lemma AdmitKeepsSchedule(scopes: map<nat, bits>, s: seq<Scheduled>, c: Command, now: nat)
    requires ScheduleInv(scopes, s) && FromTable(scopes, c) && now < CLOCK_END
    ensures ScheduleInv(scopes, Admit(s, c, now))
  {
    var s' := Admit(s, c, now);
    AdmitKeepsBound(s, c, now);
    EdgesAreGood(scopes, c, now);
    forall e | e in s' ensures e.mask == Scope(scopes, e.logicId) && (e.transient ==> HasRelease(s', e)) {
      AdmitMembers(s, c, now, e);
      if e.transient {
        if e in s && (e.logicId != c.logicId || s' == s) {
          var off :| off in s && Releases(off, e);
          AdmitMembers(s, c, now, off);
        } else {
          var off :| off in Edges(c, now) && Releases(off, e);
          AdmitMembers(s, c, now, off);
        }
      }
    }
  }

  lemma {:induction false} AdmitAllKeepsSchedule(scopes: map<nat, bits>, s: seq<Scheduled>, cs: seq<Command>, now: nat)
    requires ScheduleInv(scopes, s) && (forall c :: c in cs ==> FromTable(scopes, c)) && now < CLOCK_END
    ensures ScheduleInv(scopes, AdmitAll(s, cs, now))
  {
    if cs != [] {
      AdmitAllKeepsSchedule(scopes, s, cs[..|cs| - 1], now);
      AdmitKeepsSchedule(scopes, AdmitAll(s, cs[..|cs| - 1], now), cs[|cs| - 1], now);
    }
  }

  /** An action in the table was there before, or is due now, or in a second or more. */
  lemma {:induction false} AdmittedIsOldOrNew(scopes: map<nat, bits>, s: seq<Scheduled>, cs: seq<Command>, now: nat, e: Scheduled)
    requires e in AdmitAll(s, cs, now) && now < CLOCK_END && forall c :: c in cs ==> FromTable(scopes, c)
    ensures e in s || AtOnceOrLater(e, now)
  {
    if cs != [] {
      var before, c := AdmitAll(s, cs[..|cs| - 1], now), cs[|cs| - 1];
      AdmitMembers(before, c, now, e);
      EdgesAreGood(scopes, c, now);
      if e in before { AdmittedIsOldOrNew(scopes, s, cs[..|cs| - 1], now, e); }
    }
  }

  lemma RestKeepsSchedule(scopes: map<nat, bits>, s: seq<Scheduled>, now: nat)
    requires ScheduleInv(scopes, s)
    ensures ScheduleInv(scopes, Rest(s, 0, now))
  {
    var r := Rest(s, 0, now);
    if s != [] { PassMembers(s, now, s[0]); }
    forall e | e in r ensures e.mask == Scope(scopes, e.logicId) && (e.transient ==> HasRelease(r, e)) {
      PassMembers(s, now, e);
      if e.transient {
        var off :| off in s && Releases(off, e);
        PassMembers(s, now, off);
      }
    }
  }

  // ---- The mask of pulsing outputs --------------------------------------------------------------

  predicate Covered(s: seq<Scheduled>, ch: nat) { exists e :: e in s && !e.transient && ch in e.mask }

  /** Every pulsing output will be released: an action that ends it is in the table. */
  predicate CoverInv(s: seq<Scheduled>, o: Outputs) { forall ch :: ch in o.transient ==> Covered(s, ch) }

  lemma AdmitKeepsCover(scopes: map<nat, bits>, s: seq<Scheduled>, c: Command, now: nat, o: Outputs)
    requires ScheduleInv(scopes, s) && FromTable(scopes, c) && now < CLOCK_END && CoverInv(s, o)
    ensures CoverInv(Admit(s, c, now), o)
  {
    EdgesAreGood(scopes, c, now);
    var last :| last in Edges(c, now) && !last.transient;
    forall ch | ch in o.transient ensures Covered(Admit(s, c, now), ch) {
      var e :| e in s && !e.transient && ch in e.mask;
      AdmitMembers(s, c, now, e);
      AdmitMembers(s, c, now, last);
    }
  }

  lemma {:induction false} AdmitAllKeepsCover(scopes: map<nat, bits>, s: seq<Scheduled>, cs: seq<Command>, now: nat, o: Outputs)
    requires ScheduleInv(scopes, s) && (forall c :: c in cs ==> FromTable(scopes, c)) && now < CLOCK_END && CoverInv(s, o)
    ensures CoverInv(AdmitAll(s, cs, now), o)
  {
    if cs != [] {
      var cs' := cs[..|cs| - 1];
      AdmitAllKeepsCover(scopes, s, cs', now, o);
      AdmitAllKeepsSchedule(scopes, s, cs', now);
      AdmitKeepsCover(scopes, AdmitAll(s, cs', now), cs[|cs| - 1], now, o);
    }
  }

  lemma SwapRemoveMembers(s: seq<Scheduled>, i: nat, e: Scheduled)
    requires i < |s|
    ensures e in s && e != s[i] ==> e in SwapRemove(s, i)
    ensures e in SwapRemove(s, i) ==> e in s
  {
    SwapRemoveMultiset(s, i);
    assert e in s <==> e in multiset(s);
    assert e in SwapRemove(s, i) <==> e in multiset(SwapRemove(s, i));
  }

  /** The release of every pulse that is due now is itself not due yet. */
  predicate ReleasedLater(s: seq<Scheduled>, now: nat) {
    forall on :: on in s && on.transient && on.due <= now ==> exists off :: off in s && Releases(off, on) && off.due > now
  }

  lemma RemovalKeepsCover(s: seq<Scheduled>, i: nat, now: nat, o: Outputs)
    requires i < |s| && s[i].due <= now && ReleasedLater(s, now) && CoverInv(s, o)
    ensures ReleasedLater(SwapRemove(s, i), now) && CoverInv(SwapRemove(s, i), ApplyOutput(o, s[i]))
  {
    var r := SwapRemove(s, i);
    forall on | on in r && on.transient && on.due <= now ensures exists off :: off in r && Releases(off, on) && off.due > now {
      SwapRemoveMembers(s, i, on);
      var off :| off in s && Releases(off, on) && off.due > now;
      SwapRemoveMembers(s, i, off);
    }
    forall ch | ch in ApplyOutput(o, s[i]).transient ensures Covered(r, ch) {
      if s[i].transient && ch in s[i].mask {
        var off :| off in s && Releases(off, s[i]) && off.due > now;
        SwapRemoveMembers(s, i, off);
      } else {
        var e :| e in s && !e.transient && ch in e.mask;
        SwapRemoveMembers(s, i, e);
      }
    }
  }

  lemma {:induction false} PassKeepsCover(s: seq<Scheduled>, i: nat, now: nat, o: Outputs)
    requires i <= |s| && ReleasedLater(s, now) && CoverInv(s, o)
    ensures CoverInv(Rest(s, i, now), ApplyAll(o, Applied(s, i, now)))
    decreases |s| - i
  {
    if i < |s| {
      if s[i].due <= now {
        var r, o' := SwapRemove(s, i), ApplyOutput(o, s[i]);
        RemovalKeepsCover(s, i, now, o);
        PassKeepsCover(r, i, now, o');
        assert Applied(s, i, now)[1..] == Applied(r, i, now);
      } else {
        PassKeepsCover(s, i + 1, now, o);
      }
    }
  }

  // ---- What every timely run keeps ---------------------------------------------------------------

  /** What waits is not due yet, and waited for a second at least. */
  predicate Inv(scopes: map<nat, bits>, s: State) {
    && (forall c :: c in s.commands ==> FromTable(scopes, c))
    && ScheduleInv(scopes, s.schedule)
    && (forall e :: e in s.schedule ==> e.due > s.last && e.due >= 1000)
  }

  lemma TimelyPassReleasesLater(scopes: map<nat, bits>, s: State, step: Step)
    requires Inv(scopes, s) && Enabled(scopes, s, step) && step.Pass? && Timely(s, step)
    ensures ScheduleInv(scopes, Due(s, step)) && ReleasedLater(Due(s, step), step.now)
  {
    var cs, all := s.commands[..Take(s)], Due(s, step);
    AdmitAllKeepsSchedule(scopes, s.schedule, cs, step.commandNow);
    forall on | on in all && on.transient && on.due <= step.now
      ensures exists off :: off in all && Releases(off, on) && off.due > step.now
    {
      AdmittedIsOldOrNew(scopes, s.schedule, cs, step.commandNow, on);
      var off :| off in all && Releases(off, on);
      assert off.due > step.now;
    }
  }

  lemma StepKeepsInv(scopes: map<nat, bits>, s: State, step: Step)
    requires Inv(scopes, s) && Enabled(scopes, s, step)
    ensures Inv(scopes, Apply(s, step))
  {
    if step.Pass? {
      AdmitAllKeepsSchedule(scopes, s.schedule, s.commands[..Take(s)], step.commandNow);
      RestKeepsSchedule(scopes, Due(s, step), step.now);
      forall e | e in Rest(Due(s, step), 0, step.now) ensures e.due > step.now && e.due >= 1000 {
        PassMembers(Due(s, step), step.now, e);
        AdmittedIsOldOrNew(scopes, s.schedule, s.commands[..Take(s)], step.commandNow, e);
      }
    }
  }

  lemma TimelyStepKeepsCover(scopes: map<nat, bits>, s: State, step: Step)
    requires Inv(scopes, s) && CoverInv(s.schedule, s.outputs) && Enabled(scopes, s, step) && Timely(s, step)
    ensures CoverInv(Apply(s, step).schedule, Apply(s, step).outputs)
  {
    if step.Pass? {
      AdmitAllKeepsCover(scopes, s.schedule, s.commands[..Take(s)], step.commandNow, s.outputs);
      TimelyPassReleasesLater(scopes, s, step);
      PassKeepsCover(Due(s, step), 0, step.now, s.outputs);
    }
  }

  lemma {:induction false} RunKeepsInv(scopes: map<nat, bits>, s: State, steps: seq<Step>, s': State)
    requires Inv(scopes, s) && Runs(scopes, s, steps, s')
    ensures Inv(scopes, s')
    decreases |steps|
  {
    if steps != [] {
      StepKeepsInv(scopes, s, steps[0]);
      RunKeepsInv(scopes, Apply(s, steps[0]), steps[1..], s');
    }
  }

  lemma {:induction false} TimelyRunKeepsCover(scopes: map<nat, bits>, s: State, steps: seq<Step>, s': State)
    requires Inv(scopes, s) && CoverInv(s.schedule, s.outputs) && Runs(scopes, s, steps, s') && AllTimely(s, steps)
    ensures CoverInv(s'.schedule, s'.outputs)
    decreases |steps|
  {
    if steps != [] {
      StepKeepsInv(scopes, s, steps[0]);
      TimelyStepKeepsCover(scopes, s, steps[0]);
      TimelyRunKeepsCover(scopes, Apply(s, steps[0]), steps[1..], s');
    }
  }

  /** On every run the table holds at most 64 actions, and every pulse in it has its end in it. */
  lemma ScheduleIsBounded(scopes: map<nat, bits>, steps: seq<Step>, s: State)
    requires Runs(scopes, Init(), steps, s)
    ensures |s.schedule| <= 64
    ensures forall on :: on in s.schedule && on.transient ==> HasRelease(s.schedule, on)
  {
    RunKeepsInv(scopes, Init(), steps, s);
  }

  /** For every pulse that the pass switches on, the action that ends it stays for a later pass. */
  predicate KeepsReleases(s: State, step: Step)
    requires step.Pass?
  {
    forall on :: on in Applied(Due(s, step), 0, step.now) && on.transient ==> HasRelease(Apply(s, step).schedule, on)
  }

  /** A timely pass never applies on after off. */
  lemma OnBeforeOff(scopes: map<nat, bits>, steps: seq<Step>, s: State, step: Step)
    requires Runs(scopes, Init(), steps, s) && Enabled(scopes, s, step) && step.Pass? && Timely(s, step)
    ensures KeepsReleases(s, step)
  {
    RunKeepsInv(scopes, Init(), steps, s);
    TimelyPassReleasesLater(scopes, s, step);
    var all := Due(s, step);
    forall on | on in Applied(all, 0, step.now) && on.transient ensures HasRelease(Apply(s, step).schedule, on) {
      PassMembers(all, step.now, on);
      var off :| off in all && Releases(off, on) && off.due > step.now;
      PassMembers(all, step.now, off);
    }
  }

  /** After timely passes every output marked as pulsing has an action in the table that ends it. */
  lemma PulsesAreReleased(scopes: map<nat, bits>, steps: seq<Step>, s: State, ch: nat)
    requires Runs(scopes, Init(), steps, s) && AllTimely(Init(), steps) && ch in s.outputs.transient
    ensures exists off :: off in s.schedule && !off.transient && ch in off.mask
  {
    TimelyRunKeepsCover(scopes, Init(), steps, s);
    assert Covered(s.schedule, ch);
  }

  // ---- What a pass makes of the outputs -------------------------------------------------------------

  /** After a pass a channel is as the last action applied to it says, or as it was. */
  lemma PassSetsOutputs(s: State, step: Step, ch: nat)
    requires step.Pass?
    ensures var es, o := Applied(Due(s, step), 0, step.now), Apply(s, step).outputs;
            && (forall k: nat :: LastNaming(es, k, ch) ==>
                  (ch in o.bits <==> ch in es[k].value) && (ch in o.transient <==> es[k].transient))
            && (Unnamed(es, ch) ==> (ch in o.bits <==> ch in s.outputs.bits) && (ch in o.transient <==> ch in s.outputs.transient))
  {
    var es := Applied(Due(s, step), 0, step.now);
    forall k: nat | LastNaming(es, k, ch)
      ensures ch in ApplyAll(s.outputs, es).bits <==> ch in es[k].value
      ensures ch in ApplyAll(s.outputs, es).transient <==> es[k].transient
    {
      LastSets(s.outputs, es, k, ch);
    }
    if Unnamed(es, ch) { UnnamedStays(s.outputs, es, ch); }
  }

  /** Once the release of a pulse has been applied, and nothing after it in the pass names the
      channel, the channel is off and no longer pulsing. */
  lemma ReleaseSwitchesOff(scopes: map<nat, bits>, steps: seq<Step>, s: State, step: Step, on: Scheduled, k: nat, ch: nat)
    requires Runs(scopes, Init(), steps, s) && Enabled(scopes, s, step) && step.Pass?
    requires var es := Applied(Due(s, step), 0, step.now); LastNaming(es, k, ch) && Releases(es[k], on)
    ensures ch !in Apply(s, step).outputs.bits && ch !in Apply(s, step).outputs.transient
  {
    PassSetsOutputs(s, step, ch);
  }

  // ---- A command by itself ----------------------------------------------------------------------------

  /** The course of a command that was taken at `clock`: its actions wait in the table until they are
      due, and then make the outputs what they say. */
  predicate Course(o: Outputs, c: Command, clock: nat, s: State) {
    var due := clock + c.delayMs;
    var end := due + c.pulseMs;
    && s.commands == []
    && s.schedule == (if s.last < due then Edges(c, clock)
                      else if c.pulseMs > 0 && s.last < end then [Scheduled(c.logicId, end, c.scope, {}, false)] else [])
    && (forall ch: nat :: ch < 64 ==>
          (ch in s.outputs.bits <==>
             if s.last < due || ch !in c.scope then ch in o.bits
             else ch in c.mask && (c.pulseMs == 0 || s.last < end))
          && (ch in s.outputs.transient <==>
             if s.last < due || ch !in c.scope then ch in o.transient else c.pulseMs > 0 && s.last < end))
  }

  /** Passes in time, one after the other. */
  predicate AllPasses(steps: seq<Step>) { forall k :: 0 <= k < |steps| ==> steps[k].Pass? }

  lemma ShortTable(x: Scheduled, y: Scheduled, now: nat)
    ensures Applied([x], 0, now) == (if x.due <= now then [x] else []) && Rest([x], 0, now) == if x.due <= now then [] else [x]
    ensures x.due <= now < y.due ==> Applied([x, y], 0, now) == [x] && Rest([x, y], 0, now) == [y]
    ensures now < x.due && now < y.due ==> Applied([x, y], 0, now) == [] && Rest([x, y], 0, now) == [x, y]
  {
    assert SwapRemove([x], 0) == [] && Applied([], 0, now) == [] && Rest([], 0, now) == [];
    assert Applied([x], 1, now) == [] && Rest([x], 1, now) == [x];
    assert SwapRemove([x, y], 0) == [y] && Applied([y], 1, now) == [] && Rest([y], 1, now) == [y];
    assert Applied([x, y], 2, now) == [] && Rest([x, y], 2, now) == [x, y];
    assert now < y.due ==> Applied([x, y], 1, now) == [] && Rest([x, y], 1, now) == [x, y];
  }

  /** What is left of the command's actions at a pass. */
  lemma CourseGoesOn(scopes: map<nat, bits>, o: Outputs, c: Command, clock: nat, s: State, now: nat)
    requires FromTable(scopes, c) && clock <= s.last <= now < CLOCK_END && Course(o, c, clock, s)
    requires now <= (if s.last < 999 then 999 else s.last) + 1000
    ensures var s' := State([], Rest(s.schedule, 0, now), ApplyAll(s.outputs, Applied(s.schedule, 0, now)), now);
            Course(o, c, clock, s')
  {
    var e := s.schedule;
    if |e| == 1 {
      ShortTable(e[0], e[0], now);
      forall ch: nat | ch < 64 { OneSets(s.outputs, e[0], ch); }
    } else if |e| == 2 {
      ShortTable(e[0], e[1], now);
      forall ch: nat | ch < 64 { OneSets(s.outputs, e[0], ch); }
    }
  }

  /** The pass that takes the command. */
  lemma CourseBegins(scopes: map<nat, bits>, s: State, c: Command, clock: nat, now: nat)
    requires FromTable(scopes, c) && s.commands == [c] && s.schedule == []
    requires clock <= now < clock + 1000 && now < CLOCK_END
    ensures Course(s.outputs, c, clock, Apply(s, Pass(clock, now)))
  {
    var e, due := Edges(c, clock), Due(s, Pass(clock, now));
    assert [c][..1] == [c] && [c][..0] == [] && [c][1..] == [];
    assert AdmitAll([], [c], clock) == Admit([], c, clock) == e;
    assert due == e;
    ShortTable(e[0], e[|e| - 1], now);
    assert e == if c.pulseMs > 0 then [e[0], e[|e| - 1]] else [e[0]];
    assert ApplyAll(s.outputs, [e[0]]) == ApplyOutput(s.outputs, e[0]);
    forall ch: nat | ch < 64
      ensures var o' := ApplyOutput(s.outputs, e[0]);
              if ch in c.scope then (ch in o'.bits <==> ch in c.mask) && (ch in o'.transient <==> c.pulseMs > 0)
              else (ch in o'.bits <==> ch in s.outputs.bits) && (ch in o'.transient <==> ch in s.outputs.transient)
    {
      OneSets(s.outputs, e[0], ch);
    }
  }

  lemma {:induction false} CourseKeepsOn(scopes: map<nat, bits>, o: Outputs, c: Command, clock: nat, s: State, steps: seq<Step>, s': State)
    requires FromTable(scopes, c) && clock <= s.last && Course(o, c, clock, s)
    requires AllPasses(steps) && AllTimely(s, steps) && Runs(scopes, s, steps, s')
    ensures Course(o, c, clock, s')
    decreases |steps|
  {
    if steps != [] {
      var pass := steps[0];
      assert s.commands[..Take(s)] == [] && Due(s, pass) == s.schedule;
      CourseGoesOn(scopes, o, c, clock, s, pass.now);
      CourseKeepsOn(scopes, o, c, clock, Apply(s, pass), steps[1..], s');
    }
  }

  /** A command by itself, over any number of passes in time: its outputs keep as they were until the
      delay is over since the clock of the pass that took it, are then exactly what it names, and
      when it pulses are off again once the pulse is over.  No other output changes. */
  lemma CommandRunsItsCourse(scopes: map<nat, bits>, s: State, c: Command, first: Step, steps: seq<Step>, s': State)
    requires FromTable(scopes, c) && s.commands == [c] && s.schedule == []
    requires first.Pass? && Enabled(scopes, s, first) && Timely(s, first)
    requires AllPasses(steps) && AllTimely(Apply(s, first), steps) && Runs(scopes, Apply(s, first), steps, s')
    ensures var due := first.commandNow + c.delayMs;
            var over := c.pulseMs > 0 && due + c.pulseMs <= s'.last;
            forall ch: nat :: ch < 64 ==>
              (ch in s'.outputs.bits <==>
                 if s'.last < due || ch !in c.scope then ch in s.outputs.bits else ch in c.mask && !over)
  {
    CourseBegins(scopes, s, c, first.commandNow, first.now);
    CourseKeepsOn(scopes, s.outputs, c, first.commandNow, Apply(s, first), steps, s');
  }

  // ---- Passes that come late ----------------------------------------------------------------------

  /** Three actions, all due: the scan moves the last one in front of the second. */
  lemma ThreeDue(x: Scheduled, on: Scheduled, off: Scheduled, now: nat)
    requires x.due <= now && on.due <= now && off.due <= now
    ensures Applied([x, on, off], 0, now) == [x, off, on] && Rest([x, on, off], 0, now) == []
  {
    assert SwapRemove([x, on, off], 0) == [off, on];
    assert SwapRemove([off, on], 0) == [on];
    assert SwapRemove([on], 0) == [];
    assert Applied([on], 0, now) == [on];
    assert Applied([off, on], 0, now) == [off, on];
    var r := Rest([x, on, off], 0, now);
    if r != [] {
      assert r[0] in r;
      PassMembers([x, on, off], now, r[0]);
      assert false;
    }
  }

  lemma NoneDue(x: Scheduled, y: Scheduled, z: Scheduled, now: nat)
    requires x.due > now && y.due > now && z.due > now
    ensures Applied([x, y, z], 0, now) == [] && Rest([x, y, z], 0, now) == [x, y, z]
  {
    var s := [x, y, z];
    assert Applied(s, 3, now) == [] && Applied(s, 2, now) == [] && Applied(s, 1, now) == [];
    assert Rest(s, 3, now) == s && Rest(s, 2, now) == s && Rest(s, 1, now) == s;
  }

  /** Two logics, each with one output, one control word and the same delay; the second one pulses
      for a second. */
  function Logic(id: nat, delaySeconds: nat): IoLogic
    requires 1 <= id <= 2
  {
    IoLogic(id, true, id, [id], delaySeconds, id - 1, [ControlSpec(1, {id - 1})])
  }

  const Points: map<nat, bits> := map[1 := {0}, 2 := {1}]

  /** Their commands. */
  function Made(id: nat, delaySeconds: nat): (c: Command)
    requires 1 <= id <= 2 && delaySeconds < 0x1_0000
    ensures c == Command(id, {id - 1}, {id - 1}, 1000 * delaySeconds, 1000 * (id - 1)) && FromTable(Points, c)
  {
    var c := CommandForLogic(Logic(id, delaySeconds), id, 1);
    assert PointScope([id]) == {id - 1} by { assert PointScope([id][1..]) == {}; }
    assert FirstControl([ControlSpec(1, {id - 1})], 1).Some?;
    c.value
  }

  lemma TwoAdmitted(a: Command, p: Command, now: nat)
    requires a.logicId != p.logicId && a.pulseMs == 0 && p.pulseMs > 0
    ensures AdmitAll([], [a, p], now) == Edges(a, now) + Edges(p, now)
  {
    assert [a, p][..1] == [a] && [a][..0] == [];
    assert AdmitAll([], [a], now) == Edges(a, now);
    var s := Edges(a, now);
    assert s[..0] == [] && Of(s, p.logicId) == 0 && Others(s, p.logicId) == s;
  }

  lemma ThreeApplied(o: Outputs, x: Scheduled, off: Scheduled, on: Scheduled)
    ensures ApplyAll(o, [x, off, on]) == ApplyOutput(ApplyOutput(ApplyOutput(o, x), off), on)
  {
    assert [x, off, on][1..] == [off, on] && [off, on][1..] == [on] && [on][1..] == [];
    var o1 := ApplyOutput(o, x);
    var o2 := ApplyOutput(o1, off);
    assert ApplyAll(o2, [on]) == ApplyOutput(o2, on);
    assert ApplyAll(o1, [off, on]) == ApplyAll(o2, [on]);
  }

  lemma {:induction false} ThenStep(scopes: map<nat, bits>, s: State, steps: seq<Step>, m: State, step: Step)
    requires Runs(scopes, s, steps, m) && AllTimely(s, steps) && Enabled(scopes, m, step) && Timely(m, step)
    ensures Runs(scopes, s, steps + [step], Apply(m, step)) && AllTimely(s, steps + [step])
    decreases |steps|
  {
    var all := steps + [step];
    if steps == [] {
      assert all == [step] && all[1..] == [];
    } else {
      ThenStep(scopes, Apply(s, steps[0]), steps[1..], m, step);
      assert all[0] == steps[0] && all[1..] == steps[1..] + [step];
    }
  }

  /** Passes with nothing to do, each in time, up to any moment. */
  lemma {:induction false} IdleUntil(last: nat) returns (steps: seq<Step>)
    requires last < CLOCK_END
    ensures Runs(Points, Init(), steps, Init().(last := last)) && AllTimely(Init(), steps)
  {
    var before := if last < 2000 then 0 else last - 1000;
    if last < 2000 { steps := []; } else { steps := IdleUntil(before); }
    ThenStep(Points, Init(), steps, Init().(last := before), Pass(last, last));
    steps := steps + [Pass(last, last)];
  }

  /** And then the two commands. */
  lemma CommandsArrive(last: nat, delaySeconds: nat) returns (steps: seq<Step>)
    requires last < CLOCK_END && delaySeconds < 0x1_0000
    ensures AllTimely(Init(), steps)
    ensures Runs(Points, Init(), steps, Init().(last := last, commands := [Made(1, delaySeconds), Made(2, delaySeconds)]))
  {
    var idle := Init().(last := last);
    var one := idle.(commands := [Made(1, delaySeconds)]);
    steps := IdleUntil(last);
    ThenStep(Points, Init(), steps, idle, Arrive(Made(1, delaySeconds)));
    steps := steps + [Arrive(Made(1, delaySeconds))];
    assert Apply(idle, Arrive(Made(1, delaySeconds))) == one by { assert [] + one.commands == one.commands; }
    ThenStep(Points, Init(), steps, one, Arrive(Made(2, delaySeconds)));
    steps := steps + [Arrive(Made(2, delaySeconds))];
    assert one.commands + [Made(2, delaySeconds)] == [Made(1, delaySeconds), Made(2, delaySeconds)];
  }

  /** What they put into the table. */
  function Three(clock: nat, delaySeconds: nat): (s: seq<Scheduled>)
    requires clock < CLOCK_END && delaySeconds < 0x1_0000
    ensures |s| == 3
  {
    var due := clock + 1000 * delaySeconds;
    [Scheduled(1, due, {0}, {0}, false), Scheduled(2, due, {1}, {1}, true), Scheduled(2, due + 1000, {1}, {}, false)]
  }

  lemma EdgesOfTwo(clock: nat, delay: nat)
    requires clock + delay < U64_MAX - 1000
    ensures Edges(Command(1, {0}, {0}, delay, 0), clock) + Edges(Command(2, {1}, {1}, delay, 1000), clock)
            == [Scheduled(1, clock + delay, {0}, {0}, false), Scheduled(2, clock + delay, {1}, {1}, true),
                Scheduled(2, clock + delay + 1000, {1}, {}, false)]
  {
  }

  lemma ThreeAdmitted(clock: nat, delaySeconds: nat)
    requires clock < CLOCK_END && delaySeconds < 0x1_0000
    ensures AdmitAll([], [Made(1, delaySeconds), Made(2, delaySeconds)], clock) == Three(clock, delaySeconds)
  {
    var a, p := Made(1, delaySeconds), Made(2, delaySeconds);
    TwoAdmitted(a, p, clock);
    EdgesOfTwo(clock, 1000 * delaySeconds);
    assert p.pulseMs == 1000 && a.pulseMs == 0;
  }

  /** They wait in the table: the pass after them comes too early. */
  lemma CommandsWait(clock: nat, last: nat) returns (steps: seq<Step>)
    requires clock <= last < clock + 1000 && last < CLOCK_END && InTime(clock, clock, last)
    ensures AllTimely(Init(), steps)
    ensures Runs(Points, Init(), steps, Init().(last := last, schedule := Three(clock, 1)))
  {
    var cs, all := [Made(1, 1), Made(2, 1)], Three(clock, 1);
    var two := Init().(last := clock, commands := cs);
    steps := CommandsArrive(clock, 1);
    ThenStep(Points, Init(), steps, two, Pass(clock, last));
    steps := steps + [Pass(clock, last)];
    ThreeAdmitted(clock, 1);
    assert Due(two, Pass(clock, last)) == all by { assert cs[..2] == cs; }
    NoneDue(all[0], all[1], all[2], last);
    assert cs[2..] == [];
  }

  /** The pass applies off before on: the output stays on, is marked as pulsing, and nothing is
      left to end it. */
  predicate LeavesPulseOn(s: State, step: Step) {
    var s' := Apply(s, step);
    s'.commands == [] && s'.schedule == [] && 1 in s'.outputs.bits && 1 in s'.outputs.transient
  }

  lemma AllDueLeavesPulseOn(s: State, step: Step, clock: nat, delaySeconds: nat)
    requires clock < CLOCK_END && delaySeconds < 0x1_0000
    requires step.Pass? && Due(s, step) == Three(clock, delaySeconds) && s.commands[Take(s)..] == []
    requires clock + 1000 * delaySeconds + 1000 <= step.now
    ensures LeavesPulseOn(s, step) && !KeepsReleases(s, step)
  {
    var all := Three(clock, delaySeconds);
    ThreeDue(all[0], all[1], all[2], step.now);
    ThreeApplied(s.outputs, all[0], all[2], all[1]);
    assert all[1] in Applied(all, 0, step.now);
  }

  /** Whenever a pass is not in time, there is a run of passes that all were, after which it leaves
      a pulse on. */
  lemma LatePassLeavesPulseOn(last: nat, commandNow: nat, now: nat) returns (steps: seq<Step>, s: State)
    requires last <= commandNow <= now < CLOCK_END && !InTime(last, commandNow, now)
    ensures Runs(Points, Init(), steps, s) && AllTimely(Init(), steps) && s.last == last
    ensures LeavesPulseOn(s, Pass(commandNow, now)) && !KeepsReleases(s, Pass(commandNow, now))
  {
    if now >= commandNow + 1000 {
      var cs := [Made(1, 0), Made(2, 0)];
      s := Init().(last := last, commands := cs);
      steps := CommandsArrive(last, 0);
      ThreeAdmitted(commandNow, 0);
      assert Due(s, Pass(commandNow, now)) == Three(commandNow, 0) by { assert cs[..2] == cs; }
      AllDueLeavesPulseOn(s, Pass(commandNow, now), commandNow, 0);
    } else {
      var clock := if last < 999 then 0 else last - 999;
      s := Init().(last := last, schedule := Three(clock, 1));
      steps := CommandsWait(clock, last);
      assert s.commands[..Take(s)] == [];
      AllDueLeavesPulseOn(s, Pass(commandNow, now), clock, 1);
    }
  }

  /** Every pass at these times, on whatever run, keeps the releases. */
  ghost predicate AlwaysKeepsReleases(last: nat, commandNow: nat, now: nat) {
    forall scopes: map<nat, bits>, steps, s :: Runs(scopes, Init(), steps, s) && s.last == last ==>
      KeepsReleases(s, Pass(commandNow, now))
  }

  /** Every pass at these times, if those before it were in time, leaves an action in the table
      for every output marked as pulsing. */
  ghost predicate AlwaysEndsPulses(last: nat, commandNow: nat, now: nat) {
    forall scopes: map<nat, bits>, steps, s :: Runs(scopes, Init(), steps, s) && AllTimely(Init(), steps) && s.last == last ==>
      var s' := Apply(s, Pass(commandNow, now));
      CoverInv(s'.schedule, s'.outputs)
  }

  /** That is so exactly for the passes that are in time. */
  lemma InTimeExactly(last: nat, commandNow: nat, now: nat)
    requires last <= commandNow <= now < CLOCK_END
    ensures InTime(last, commandNow, now) <==> AlwaysKeepsReleases(last, commandNow, now)
    ensures InTime(last, commandNow, now) <==> AlwaysEndsPulses(last, commandNow, now)
  {
    var pass := Pass(commandNow, now);
    if InTime(last, commandNow, now) {
      forall scopes: map<nat, bits>, steps, s | Runs(scopes, Init(), steps, s) && s.last == last
        ensures KeepsReleases(s, pass)
        ensures AllTimely(Init(), steps) ==> CoverInv(Apply(s, pass).schedule, Apply(s, pass).outputs)
      {
        OnBeforeOff(scopes, steps, s, pass);
        if AllTimely(Init(), steps) { TimelyRunsKeepCover(scopes, steps, s, pass); }
      }
    } else {
      var steps, s := LatePassLeavesPulseOn(last, commandNow, now);
      assert Runs(Points, Init(), steps, s);
      assert !Covered(Apply(s, pass).schedule, 1);
    }
  }

  lemma TimelyRunsKeepCover(scopes: map<nat, bits>, steps: seq<Step>, s: State, step: Step)
    requires Runs(scopes, Init(), steps, s) && AllTimely(Init(), steps) && Enabled(scopes, s, step) && Timely(s, step)
    ensures CoverInv(Apply(s, step).schedule, Apply(s, step).outputs)
  {
    RunKeepsInv(scopes, Init(), steps, s);
    TimelyRunKeepsCover(scopes, Init(), steps, s);
    TimelyStepKeepsCover(scopes, s, step);
  }
}
