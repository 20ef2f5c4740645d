/**
  Reading holding registers (src/bus/backends.rs) with the runtime results laid over the stored
  words: one by one, straight from the live results, and as a batch, from images of the results
  that are captured only where the batch can meet them (src/bus/register_snapshot.rs).

  The results themselves are whatever the control logic, the RS485 master and the feedback
  table answer at that moment: maps of the addresses they answer for.
*/
module RegisterReads {
  import opened Options
  import opened Words
  import SC = SystemConfig
  import HR = HoldingRegisters

  const CAPACITY := 125
  const CONTROL_WORDS := 300
  const MONITOR_WORDS := 128
  const USER_BASE := 4000
  const USER_COUNT := 224

  function Lookup(m: map<nat, u16>, a: nat): Option<u16> { if a in m then Some(m[a]) else None }

  // ---- The image of a stretch of results ---------------------------------------------------------------

  datatype Image = Image(start: nat, values: seq<u16>, valid: set<nat>)

  predicate Sized(s: Image) { |s.values| == CAPACITY }

  function Empty(start: nat): Image { Image(start, Zeros(CAPACITY), {}) }

  function Get(s: Image, a: nat): Option<u16>
    requires Sized(s)
  {
    if a < s.start || a - s.start >= CAPACITY || a - s.start !in s.valid then None else Some(s.values[a - s.start])
  }

  method Capture(start: u16, count: u16, source: map<nat, u16>) returns (s: Image)
    ensures Sized(s) && s.start == start
    ensures forall a: nat :: Get(s, a) ==
              (if start <= a < start + count && a < start + CAPACITY && a <= 0xFFFF then Lookup(source, a) else None)
  {
    s := Empty(start);
    var n := if count < CAPACITY then count else CAPACITY;
    for offset := 0 to n
      invariant Sized(s) && s.start == start
      invariant forall k :: k in s.valid <==> 0 <= k < offset && start + k <= 0xFFFF && start + k in source
      invariant forall k :: k in s.valid ==> s.values[k] == source[start + k]
    {
      if start + offset > 0xFFFF {
        break;
      }
      if start + offset in source {
        s := s.(values := s.values[offset := source[start + offset]], valid := s.valid + {offset});
      }
    }
  }

  /** The two windows in which results can lie. */
  predicate IsResult(a: nat) { a < MONITOR_WORDS || USER_BASE <= a < USER_BASE + USER_COUNT }

  predicate Overlaps(start: nat, count: nat) {
    count != 0 && (start < MONITOR_WORDS || (start < USER_BASE + USER_COUNT && start + count > USER_BASE))
  }

  // ---- One word -------------------------------------------------------------------------------------------

  /** The published snapshots and the live results.  `other` answers for the addresses outside
      the control words, the text and the PReg window. */
  datatype Device = Device(
    stored: HR.State, control: seq<u16>, counters: seq<u16>, outputs: u32, inputs: u32, other: map<nat, u16>,
    analog: map<nat, u16>, rs485: map<nat, u16>, feedback: map<nat, u16>)

  predicate Shaped(d: Device) {
    && HR.Shaped(d.stored) && |d.control| == CONTROL_WORDS && |d.counters| == 6
    && (forall a :: a in d.analog ==> IsResult(a)) && (forall a :: a in d.rs485 ==> IsResult(a))
  }

  function ControlWord(d: Device, a: nat): u16
    requires Shaped(d) && a < CONTROL_WORDS
  {
    if a == 10 then d.outputs % 256 else if a == 11 then d.inputs % 256
    else if a == 12 then d.outputs / 256 % 256 else if a == 13 then d.inputs / 256 % 256
    else d.control[a]
  }

  /** A word, given what each source of results has for it. */
  function Read(d: Device, a: u16, analog: Option<u16>, rs485: Option<u16>, feedback: Option<u16>): Option<u16>
    requires Shaped(d)
  {
    if a >= USER_BASE && analog.Some? then analog
    else if a < CONTROL_WORDS then (if feedback.Some? then feedback else Some(ControlWord(d, a)))
    else if HR.CFG_BASE <= a < HR.CFG_BASE + 6 then Some(d.counters[a - HR.CFG_BASE])
    else if HR.InText(a) then Some(d.stored.text[a - HR.TEXT_BASE])
    else if rs485.Some? then rs485
    else if HR.InWindow(a) then Some(HR.Stored(d.stored.cfg, d.stored.holding, a))
    else Lookup(d.other, a)
  }

  /** The single read, from the live results. */
  function ReadOne(d: Device, a: u16): Option<u16>
    requires Shaped(d)
  {
    Read(d, a, Lookup(d.analog, a), Lookup(d.rs485, a), Lookup(d.feedback, a))
  }

  /** What a word is, address by address, and which source goes first. */
  lemma ReadByWindow(d: Device, a: u16)
    requires Shaped(d)
    ensures a in d.analog && a >= 4000 ==> ReadOne(d, a) == Some(d.analog[a])
    ensures a in d.feedback && a < 300 ==> ReadOne(d, a) == Some(d.feedback[a])
    ensures a < 300 && a !in d.feedback ==>
              ReadOne(d, a) == Some(if a == 10 then d.outputs % 256 else if a == 11 then d.inputs % 256
                                    else if a == 12 then d.outputs / 256 % 256 else if a == 13 then d.inputs / 256 % 256
                                    else d.control[a])
    ensures 0x0880 <= a <= 0x0885 ==> ReadOne(d, a) == Some(d.counters[a - 0x0880])
    ensures 5000 <= a <= 6999 && a !in d.analog ==> ReadOne(d, a) == Some(d.stored.text[a - 5000])
    ensures 4000 <= a <= 4223 && a !in d.analog && a in d.rs485 ==> ReadOne(d, a) == Some(d.rs485[a])
    ensures 0x0886 <= a <= 4223 && (a >= 4000 ==> a !in d.analog) && a !in d.rs485 ==>
              ReadOne(d, a) == Some(HR.Stored(d.stored.cfg, d.stored.holding, a))
  {
  }

  // ---- The batch ------------------------------------------------------------------------------------------

  datatype Runtime = Runtime(analog: Image, rs485: Image, feedback: Option<map<nat, u16>>)

  /** A batch of control words, or one that ends before the user words, meets no results. */
  function ResultCount(addr: nat, count: nat): nat { if addr + count <= USER_BASE then 0 else count }

  method CaptureRuntime(d: Device, addr: u16, count: u16) returns (r: Runtime)
    requires Shaped(d) && count <= CAPACITY
    ensures Sized(r.analog) && Sized(r.rs485)
    ensures r.feedback == (if addr < CONTROL_WORDS && addr + count > 0 then Some(d.feedback) else None)
    ensures forall a: u16 :: addr <= a < addr + count && a >= CONTROL_WORDS ==>
              Get(r.analog, a) == Lookup(d.analog, a) && Get(r.rs485, a) == Lookup(d.rs485, a)
  {
    var n := ResultCount(addr, count);
    var analog, rs485 := Empty(addr), Empty(addr);
    if Overlaps(addr, n) {
      analog := Capture(addr, n, d.analog);
      rs485 := Capture(addr, n, d.rs485);
    }
    r := Runtime(analog, rs485, if addr < CONTROL_WORDS && addr + count > 0 then Some(d.feedback) else None);
  }

  function FromRuntime(d: Device, r: Runtime, a: u16): Option<u16>
    requires Shaped(d) && Sized(r.analog) && Sized(r.rs485)
  {
    var feedback := match r.feedback case Some(image) => Lookup(image, a) case None => Lookup(d.feedback, a);
    Read(d, a, Get(r.analog, a), Get(r.rs485, a), feedback)
  }

  predicate Fits(addr: u16, count: u16, bytes: nat) {
    0 < count <= CAPACITY && bytes == 2 * count && addr + count - 1 <= 0xFFFF
  }

  /** The device as a batch sees it at a later word: snapshots and results as they were captured,
      counters, inputs, outputs and the other addresses as they are by then. */
  function Seen(d: Device, later: Device): (r: Device)
    requires Shaped(d) && Shaped(later)
    ensures Shaped(r)
  {
    d.(outputs := later.outputs, inputs := later.inputs, counters := later.counters, other := later.other)
  }

  /** A batch succeeds exactly when every single read would, and gives the same words, high byte
      first.  `d` is what each source held when it was captured, `live(k)` the device while word
      `k` is read. */
  method EncodeHoldRegs(d: Device, live: nat -> Device, addr: u16, count: u16, out: array<byte>) returns (ok: bool)
    requires Shaped(d) && forall k: nat :: Shaped(live(k))
    modifies out
    ensures ok <==> Fits(addr, count, out.Length)
                    && forall k: nat :: k < count ==> ReadOne(Seen(d, live(k)), addr + k).Some?
    ensures ok ==> forall k: nat :: k < count ==>
              ReadOne(Seen(d, live(k)), addr + k) == Some(Join16(out[2 * k + 1], out[2 * k]))
  {
    if !Fits(addr, count, out.Length) { return false; }
    var r := CaptureRuntime(d, addr, count);
    for offset := 0 to count
      invariant forall k: nat :: k < offset ==>
                  ReadOne(Seen(d, live(k)), addr + k) == Some(Join16(out[2 * k + 1], out[2 * k]))
    {
      var seen := Seen(d, live(offset));
      var word := FromRuntime(seen, r, addr + offset);
      assert word == ReadOne(seen, addr + offset);
      if word.None? { return false; }
      out[2 * offset], out[2 * offset + 1] := Hi(word.value), Lo(word.value);
    }
    ok := true;
  }
}
