/**
  Reading and writing coils (src/bus/backends.rs): the single read, the batch encoder that
  captures only the sources its range overlaps, and the batch write.

  A byte of packed coils is the set of its bits that are one; `hw` gives the number of inputs
  and outputs of the hardware variant.
*/
module Coils {
  import opened Bits64
  import opened Options
  import opened Words

  const POINT_WINDOW := 48
  const DO_BASE := 0x200
  const INTERNAL_START := 0x400
  const RESTART := 0x402
  const LOGIC_RESTART := 0x403
  const LEGACY_END := 0x7FF
  const LEGACY_COUNT := 1536

  type bits8 = b: set<nat> | forall k :: k in b ==> k < 8

  datatype Hardware = Hardware(inputs: nat, outputs: nat)

  predicate Known(hw: Hardware) { (hw.inputs == 16 || hw.inputs == 48) && (hw.outputs == 16 || hw.outputs == 48) }

  function DoEnd(hw: Hardware): nat { DO_BASE + hw.outputs }

  /** The published sources; the storage may be missing. */
  datatype Device = Device(inputs: bits, outputs: bits, storage: Option<seq<byte>>)

  predicate Shaped(d: Device) { d.storage.Some? ==> |d.storage.value| == LEGACY_COUNT }

  predicate IsControl(a: int) { INTERNAL_START <= a <= LOGIC_RESTART }

  function ReadFrom(hw: Hardware, a: u16, storage: Option<seq<byte>>, inputs: bits, outputs: bits): Option<bool>
    requires storage.Some? ==> |storage.value| == LEGACY_COUNT
  {
    if a < POINT_WINDOW then Some(a < hw.inputs && a in inputs)
    else if DO_BASE <= a < DoEnd(hw) then Some(a - DO_BASE < hw.outputs && a - DO_BASE in outputs)
    else if IsControl(a) then Some(false)
    else if DoEnd(hw) <= a <= LEGACY_END then
      if storage.Some? && a >= DO_BASE then Some(storage.value[a - DO_BASE] != 0) else None
    else if a < DO_BASE then Some(false)
    else None
  }

  /** One coil, from the one source it needs. */
  function ReadCoil(hw: Hardware, d: Device, a: u16): Option<bool>
    requires Known(hw) && Shaped(d)
  {
    ReadFrom(hw, a,
             if DoEnd(hw) <= a <= LEGACY_END && !IsControl(a) then d.storage else None,
             if a < hw.inputs then d.inputs else {},
             if DO_BASE <= a < DoEnd(hw) then d.outputs else {})
  }

  lemma ReadCoilIsWhole(hw: Hardware, d: Device, a: u16)
    requires Known(hw) && Shaped(d)
    ensures ReadCoil(hw, d, a) == ReadFrom(hw, a, d.storage, d.inputs, d.outputs)
  {
  }

  /** What the windows answer, address by address: the inputs and then zeros, the outputs, the
      control coils as off, the stored coils if there is a storage, and nothing beyond. */
  lemma ReadCoilByWindow(hw: Hardware, d: Device, a: u16)
    requires Known(hw) && Shaped(d)
    ensures a < hw.inputs ==> ReadCoil(hw, d, a) == Some(a in d.inputs)
    ensures hw.inputs <= a < 0x200 ==> ReadCoil(hw, d, a) == Some(false)
    ensures 0x200 <= a < 0x200 + hw.outputs ==> ReadCoil(hw, d, a) == Some(a - 0x200 in d.outputs)
    ensures 0x400 <= a <= 0x403 ==> ReadCoil(hw, d, a) == Some(false)
    ensures 0x200 + hw.outputs <= a <= 0x7FF && !(0x400 <= a <= 0x403) ==>
              ReadCoil(hw, d, a) == if d.storage.Some? then Some(d.storage.value[a - 0x200] != 0) else None
    ensures a > 0x7FF ==> ReadCoil(hw, d, a).None?
  {
    ReadCoilIsWhole(hw, d, a);
  }

  // ---- The batch encoder --------------------------------------------------------------------------

  predicate Fits(addr: u16, count: u16, bytes: nat) {
    count != 0 && bytes == (count + 7) / 8 && addr + count - 1 <= 0xFFFF
  }

  function BitsPacked(out: seq<bits8>, i: nat): bool
    requires i / 8 < |out|
  {
    i % 8 in out[i / 8]
  }

  method EncodeFromSnapshot(hw: Hardware, addr: u16, count: u16, out: array<bits8>,
                            storage: Option<seq<byte>>, inputs: bits, outputs: bits) returns (ok: bool)
    requires storage.Some? ==> |storage.value| == LEGACY_COUNT
    modifies out
    ensures ok <==> Fits(addr, count, out.Length)
                    && forall a :: addr <= a < addr + count ==> ReadFrom(hw, a, storage, inputs, outputs).Some?
    ensures ok ==> forall i :: 0 <= i < 8 * out.Length ==>
                     (BitsPacked(out[..], i) <==> i < count && ReadFrom(hw, addr + i, storage, inputs, outputs).value)
  {
    if !Fits(addr, count, out.Length) { return false; }
    for j := 0 to out.Length
      invariant forall k :: 0 <= k < j ==> out[k] == {}
    {
      out[j] := {};
    }
    for offset := 0 to count
      invariant forall a :: addr <= a < addr + offset ==> ReadFrom(hw, a, storage, inputs, outputs).Some?
      invariant forall i :: 0 <= i < 8 * out.Length ==>
                  (i % 8 in out[i / 8] <==> i < offset && ReadFrom(hw, addr + i, storage, inputs, outputs).value)
    {
      var value := ReadFrom(hw, addr + offset, storage, inputs, outputs);
      if value.None? { return false; }
      if value.value {
        out[offset / 8] := out[offset / 8] + {offset % 8};
      }
    }
    ok := true;
  }

  /** The sources that the range does not touch are not captured at all; every bit is still the
      one the single read gives. */
  method EncodeCoilBits(hw: Hardware, d: Device, addr: u16, count: u16, out: array<bits8>) returns (ok: bool)
    requires Known(hw) && Shaped(d)
    modifies out
    ensures ok <==> Fits(addr, count, out.Length) && forall a: u16 :: addr <= a < addr + count ==> ReadCoil(hw, d, a).Some?
    ensures ok ==> forall i :: 0 <= i < 8 * out.Length ==>
                     (BitsPacked(out[..], i) <==> i < count && ReadCoil(hw, d, addr + i).value)
  {
    if !Fits(addr, count, out.Length) { return false; }
    var end := addr + count;
    var storage := if addr < LEGACY_END + 1 && end > DoEnd(hw) then d.storage else None;
    var inputs := if addr < hw.inputs then d.inputs else {};
    var outputs := if addr < DoEnd(hw) && end > DO_BASE then d.outputs else {};
    ok := EncodeFromSnapshot(hw, addr, count, out, storage, inputs, outputs);
    forall a: u16 | addr <= a < addr + count
      ensures ReadFrom(hw, a, storage, inputs, outputs) == ReadCoil(hw, d, a)
    {
    }
  }

  // ---- Writing --------------------------------------------------------------------------------------

  predicate AnyControl(addr: u16, count: u16) { exists a :: addr <= a < addr + count && IsControl(a) }

  predicate AllControls(addr: u16, count: u16) { forall a :: addr <= a < addr + count ==> IsControl(a) }

  function Stored(on: bool): byte { if on then 1 else 0 }

  /** What a control coil can change. */
  datatype Memory = Memory(coils: seq<byte>, dirty: bool, reset: bool)

  /** The restart coils are served before the legacy window, which the two internal coils below
      them belong to: those are stored like any other coil. */
  function Served(m: Memory, a: nat, on: bool): (m': Memory)
    requires IsControl(a) && |m.coils| == LEGACY_COUNT
    ensures |m'.coils| == LEGACY_COUNT
  {
    if a >= RESTART then m.(reset := m.reset || on)
    else m.(coils := m.coils[a - DO_BASE := Stored(on)], dirty := true)
  }

  /** After the first `n` coils of a batch. */
  function ServedAll(m: Memory, addr: nat, packed: seq<bits8>, n: nat): (m': Memory)
    requires |m.coils| == LEGACY_COUNT && (n + 7) / 8 <= |packed|
    requires forall k :: addr <= k < addr + n ==> IsControl(k)
    ensures |m'.coils| == LEGACY_COUNT
  {
    if n == 0 then m
    else Served(ServedAll(m, addr, packed, n - 1), addr + (n - 1), BitsPacked(packed, n - 1))
  }

  /** A restart is refused when the savers fail; `saved` says what they answer for each coil. */
  predicate Refuses(addr: nat, packed: seq<bits8>, saved: nat -> bool, k: nat)
    requires k / 8 < |packed|
  {
    addr + k >= RESTART && BitsPacked(packed, k) && !saved(k)
  }

  /** How many coils of a batch are served: all, or those before the first refused one. */
  function ServedCount(addr: nat, packed: seq<bits8>, saved: nat -> bool, count: nat): (n: nat)
    requires (count + 7) / 8 <= |packed|
    ensures n <= count && (forall k :: 0 <= k < n ==> !Refuses(addr, packed, saved, k))
    ensures n < count ==> Refuses(addr, packed, saved, n)
  {
    if count == 0 then 0 else
    var n := ServedCount(addr, packed, saved, count - 1);
    if n < count - 1 || Refuses(addr, packed, saved, n) then n else count
  }

  lemma {:induction false} ServedAllStores(m: Memory, addr: nat, packed: seq<bits8>, n: nat)
    requires |m.coils| == LEGACY_COUNT && (n + 7) / 8 <= |packed|
    requires forall k :: addr <= k < addr + n ==> IsControl(k)
    ensures var m' := ServedAll(m, addr, packed, n);
            && (forall k :: 0 <= k < LEGACY_COUNT ==>
                  m'.coils[k] == if addr <= DO_BASE + k < addr + n && DO_BASE + k < RESTART
                                 then Stored(BitsPacked(packed, DO_BASE + k - addr)) else m.coils[k])
            && (m'.dirty <==> m.dirty || (n > 0 && addr < RESTART))
            && (m'.reset <==> m.reset || exists k :: 0 <= k < n && addr + k >= RESTART && BitsPacked(packed, k))
  {
    if n > 0 { ServedAllStores(m, addr, packed, n - 1); }
  }

  /** The internal coils among the first `n` already hold what the batch writes. */
  predicate AlreadyStored(m: Memory, addr: nat, packed: seq<bits8>, n: nat)
    requires |m.coils| == LEGACY_COUNT && (n + 7) / 8 <= |packed| && addr >= INTERNAL_START
  {
    forall k :: 0 <= k < n && addr + k < RESTART ==> m.coils[addr + k - DO_BASE] == Stored(BitsPacked(packed, k))
  }

  lemma SameCoils(m: Memory, addr: nat, packed: seq<bits8>, n: nat)
    requires |m.coils| == LEGACY_COUNT && (n + 7) / 8 <= |packed| && addr >= INTERNAL_START
    requires forall k :: addr <= k < addr + n ==> IsControl(k)
    ensures ServedAll(m, addr, packed, n).coils == m.coils <==> AlreadyStored(m, addr, packed, n)
  {
    var m' := ServedAll(m, addr, packed, n);
    ServedAllStores(m, addr, packed, n);
    if AlreadyStored(m, addr, packed, n) {
      forall k | 0 <= k < LEGACY_COUNT ensures m'.coils[k] == m.coils[k] {
        if addr <= DO_BASE + k < addr + n && DO_BASE + k < RESTART {
          assert m.coils[addr + (DO_BASE + k - addr) - DO_BASE] == m.coils[k];
        }
      }
      assert m'.coils == m.coils;
    } else {
      var k :| 0 <= k < n && addr + k < RESTART && m.coils[addr + k - DO_BASE] != Stored(BitsPacked(packed, k));
      assert m'.coils[addr + k - DO_BASE] != m.coils[addr + k - DO_BASE];
    }
  }

  /** Before a refused coil at most the other restart coil can have been granted. */
  lemma SameReset(m: Memory, addr: nat, packed: seq<bits8>, n: nat)
    requires |m.coils| == LEGACY_COUNT && (n + 7) / 8 <= |packed| && addr >= INTERNAL_START
    requires addr + n == RESTART || addr + n == LOGIC_RESTART
    ensures ServedAll(m, addr, packed, n).reset == m.reset
            <==> m.reset || n == 0 || addr + n == RESTART || !BitsPacked(packed, n - 1)
  {
    ServedAllStores(m, addr, packed, n);
    if n > 0 && addr + n == LOGIC_RESTART { assert addr + (n - 1) == RESTART; }
  }

  /** A control batch that is refused has changed nothing if and only if no internal coil comes
      before the refused restart, or they were stored and marked so already, and no restart was
      granted before it, or one was pending already. */
  lemma RefusedControlsChangeNothing(m: Memory, addr: nat, packed: seq<bits8>, saved: nat -> bool, count: nat)
    requires |m.coils| == LEGACY_COUNT && (count + 7) / 8 <= |packed| && addr >= INTERNAL_START
    requires forall k :: addr <= k < addr + count ==> IsControl(k)
    requires ServedCount(addr, packed, saved, count) < count
    ensures var n := ServedCount(addr, packed, saved, count);
            ServedAll(m, addr, packed, n) == m
            <==> (addr >= RESTART || (m.dirty && AlreadyStored(m, addr, packed, n)))
                 && (m.reset || n == 0 || addr + n == RESTART || !BitsPacked(packed, n - 1))
  {
    var n := ServedCount(addr, packed, saved, count);
    assert IsControl(addr + n);
    SameCoils(m, addr, packed, n);
    SameReset(m, addr, packed, n);
    SameDirty(m, addr, packed, n);
  }

  lemma SameDirty(m: Memory, addr: nat, packed: seq<bits8>, n: nat)
    requires |m.coils| == LEGACY_COUNT && (n + 7) / 8 <= |packed|
    requires forall k :: addr <= k < addr + n ==> IsControl(k)
    requires addr + n >= RESTART
    ensures ServedAll(m, addr, packed, n).dirty == m.dirty <==> m.dirty || addr >= RESTART
  {
    ServedAllStores(m, addr, packed, n);
  }

  /** Coils 0x401 and 0x402 in one batch, both on, and savers that fail: the answer is an error,
      and coil 0x401 has been stored. */
  lemma RefusedBatchStores(m: Memory)
    requires |m.coils| == LEGACY_COUNT && m.coils[0x201] == 0
    ensures var n := ServedCount(0x401, [{0, 1}], (_: nat) => false, 2);
            n == 1 && ServedAll(m, 0x401, [{0, 1}], n).coils[0x201] == 1
  {
    var none: nat -> bool := (_: nat) => false;
    assert !Refuses(0x401, [{0, 1}], none, 0) && Refuses(0x401, [{0, 1}], none, 1);
    ServedAllStores(m, 0x401, [{0, 1}], 1);
  }

  class Backend {
    const hw: Hardware
    var inputs: bits
    var outputs: bits
    var coils: seq<byte>
    var legacyDirty: bool
    var resetRequested: bool

    constructor (hw: Hardware)
      requires Known(hw)
      ensures Valid() && this.hw == hw
    {
      this.hw := hw;
      inputs, outputs := {}, {};
      coils := seq(LEGACY_COUNT, _ => 0);
      legacyDirty, resetRequested := false, false;
    }

    ghost predicate Valid()
      reads this
    {
      Known(hw) && |coils| == LEGACY_COUNT
    }

    ghost function View(): (d: Device)
      requires Valid()
      reads this
      ensures Shaped(d)
    {
      Device(inputs, outputs, Some(coils))
    }

    ghost function Mem(): Memory
      reads this
    {
      Memory(coils, legacyDirty, resetRequested)
    }

    /** One coil: an output, a restart that the savers are asked about first, or a stored coil.
        The internal coils lie in the legacy window, so their own arm at the end is never reached. */
    method WriteCoil(addr: u16, value: bool, saved: bool) returns (ok: bool)
      requires Valid()
      modifies this
      ensures Valid() && inputs == old(inputs)
      ensures ok <==> DO_BASE <= addr <= LEGACY_END && !(RESTART <= addr <= LOGIC_RESTART && value && !saved)
      ensures outputs == if !(DO_BASE <= addr < DoEnd(hw)) then old(outputs)
                         else if value then old(outputs) + {addr - DO_BASE} else old(outputs) - {addr - DO_BASE}
      ensures ok && IsControl(addr) ==> Mem() == Served(old(Mem()), addr, value)
      ensures !ok || addr < DoEnd(hw) ==> Mem() == old(Mem())
      ensures ok && !IsControl(addr) ==>
                forall a: u16 :: ReadCoil(hw, View(), a) == if a == addr then Some(value) else ReadCoil(hw, old(View()), a)
    {
      if DO_BASE <= addr < DoEnd(hw) {
        outputs := if value then outputs + {addr - DO_BASE} else outputs - {addr - DO_BASE};
        return true;
      }
      if addr == RESTART || addr == LOGIC_RESTART {
        if value {
          if !saved { return false; }
          resetRequested := true;
        }
        return true;
      }
      if DoEnd(hw) <= addr <= LEGACY_END {
        coils := coils[addr - DO_BASE := Stored(value)];
        legacyDirty := true;
        return true;
      }
      ok := addr == INTERNAL_START || addr == INTERNAL_START + 1;
    }

    /** A batch of control coils goes one by one and stops at the first one refused. */
    method WriteControls(addr: u16, count: u16, packed: seq<bits8>, saved: nat -> bool) returns (ok: bool)
      requires Valid() && Fits(addr, count, |packed|) && AllControls(addr, count)
      modifies this
      ensures Valid() && inputs == old(inputs) && outputs == old(outputs)
      ensures ok <==> ServedCount(addr, packed, saved, count) == count
      ensures Mem() == ServedAll(old(Mem()), addr, packed, ServedCount(addr, packed, saved, count))
    {
      ghost var n := ServedCount(addr, packed, saved, count);
      for offset := 0 to count
        invariant Valid() && inputs == old(inputs) && outputs == old(outputs)
        invariant offset <= n && Mem() == ServedAll(old(Mem()), addr, packed, offset)
      {
        assert IsControl(addr + offset) && offset / 8 < |packed|;
        var one := WriteCoil(addr + offset, offset % 8 in packed[offset / 8], saved(offset));
        assert one <==> !Refuses(addr, packed, saved, offset);
        if !one { return false; }
      }
      ok := true;
    }

    method WriteOutputs(addr: u16, count: u16, packed: seq<bits8>)
      requires Valid() && Fits(addr, count, |packed|) && DO_BASE <= addr && addr + count <= DoEnd(hw)
      modifies this`outputs
      ensures forall ch :: ch in outputs <==>
                if addr <= DO_BASE + ch < addr + count then BitsPacked(packed, DO_BASE + ch - addr) else ch in old(outputs)
    {
      var start := addr - DO_BASE;
      var mask: bits, value: bits := {}, {};
      for bit := 0 to count
        invariant forall ch :: ch in mask <==> start <= ch < start + bit
        invariant forall ch :: ch in value <==> start <= ch < start + bit && BitsPacked(packed, ch - start)
      {
        var target := start + bit;
        mask := mask + {target};
        if bit % 8 in packed[bit / 8] { value := value + {target}; }
      }
      outputs := Replace(outputs, mask, value);
    }

    method WriteLegacy(addr: u16, count: u16, packed: seq<bits8>)
      requires Valid() && Fits(addr, count, |packed|) && DO_BASE <= addr && addr + count <= LEGACY_END + 1
      modifies this`outputs, this`coils, this`legacyDirty
      ensures Valid() && legacyDirty
      ensures forall k :: 0 <= k < LEGACY_COUNT ==>
                coils[k] == (if addr <= DO_BASE + k < addr + count
                             then (if BitsPacked(packed, DO_BASE + k - addr) then 1 else 0) else old(coils)[k])
      ensures forall ch: nat :: (ch in outputs <==>
                if addr <= DO_BASE + ch < addr + count && ch < hw.outputs then BitsPacked(packed, DO_BASE + ch - addr)
                else ch in old(outputs))
    {
      var target := coils;
      var mask: bits, value: bits := {}, {};
      for offset := 0 to count
        invariant |target| == LEGACY_COUNT
        invariant forall k :: 0 <= k < LEGACY_COUNT ==>
                    target[k] == (if addr <= DO_BASE + k < addr + offset
                                  then (if BitsPacked(packed, DO_BASE + k - addr) then 1 else 0) else old(coils)[k])
        invariant forall ch :: ch in mask <==> addr <= DO_BASE + ch < addr + offset && ch < hw.outputs
        invariant forall ch :: ch in value <==> ch in mask && BitsPacked(packed, DO_BASE + ch - addr)
      {
        var channel := addr + offset - DO_BASE;
        var on := offset % 8 in packed[offset / 8];
        target := target[channel := if on then 1 else 0];
        if addr + offset < DoEnd(hw) {
          mask := mask + {channel};
          if on { value := value + {channel}; }
        }
      }
      coils := target;
      var replaced := Replace(outputs, mask, value);
      assert mask == {} ==> value == {} && replaced == outputs;
      if mask != {} { outputs := replaced; }
      legacyDirty := true;
    }

    /** A batch of ordinary coils is written whole or not at all, and what was written is what
        reads back; control coils and ordinary ones do not mix.  A batch of control coils never
        changes what reads, but stores the internal ones. */
    method WriteCoils(addr: u16, count: u16, packed: seq<bits8>, saved: nat -> bool) returns (ok: bool)
      requires Valid()
      modifies this
      ensures Valid() && inputs == old(inputs)
      ensures !Fits(addr, count, |packed|) ==> !ok
      ensures Fits(addr, count, |packed|) && !AllControls(addr, count) ==>
                (ok <==> !AnyControl(addr, count) && DO_BASE <= addr && addr + count <= LEGACY_END + 1)
      ensures !ok && !(Fits(addr, count, |packed|) && AllControls(addr, count)) ==> View() == old(View()) && Mem() == old(Mem())
      ensures ok && !AllControls(addr, count) ==>
                forall a: u16 :: ReadCoil(hw, View(), a) ==
                  if addr <= a < addr + count then Some(BitsPacked(packed, a - addr)) else ReadCoil(hw, old(View()), a)
      ensures ok && !AllControls(addr, count) ==>
                resetRequested == old(resetRequested) && legacyDirty == (old(legacyDirty) || addr + count > DoEnd(hw))
      ensures Fits(addr, count, |packed|) && AllControls(addr, count) ==>
                && (ok <==> ServedCount(addr, packed, saved, count) == count)
                && Mem() == ServedAll(old(Mem()), addr, packed, ServedCount(addr, packed, saved, count))
                && forall a: u16 :: ReadCoil(hw, View(), a) == ReadCoil(hw, old(View()), a)
    {
      if !Fits(addr, count, |packed|) { return false; }
      if DO_BASE <= addr && addr + count <= DoEnd(hw) {
        assert !IsControl(addr);
        WriteOutputs(addr, count, packed);
        return true;
      }
      var all, any := true, false;
      for offset := 0 to count
        invariant all <==> forall a :: addr <= a < addr + offset ==> IsControl(a)
        invariant any <==> exists a :: addr <= a < addr + offset && IsControl(a)
      {
        if IsControl(addr + offset) { any := true; } else { all := false; }
      }
      if any && !all { return false; }
      if all {
        ServedAllStores(Mem(), addr, packed, ServedCount(addr, packed, saved, count));
        ok := WriteControls(addr, count, packed, saved);
        return;
      }
      if DO_BASE <= addr && addr + count <= LEGACY_END + 1 {
        WriteLegacy(addr, count, packed);
        return true;
      }
      ok := false;
    }
  }
}
