/**
  Reassembly of the handheld's binary frames from GATT writes (src/ble_at/mod.rs), as long as
  nobody else touches the slots: `try_feed_binary_protocol`, `claim_binary_rx_slot`,
  `release_binary_rx_slot` and `binary_frame_total_len`.
*/
module BleReassembly {
  import opened Options
  import opened Words

  const FRAME_MAX := 512
  const PDU_MAX := 504
  const SLOT_COUNT := 4
  /** A ring declared with five places keeps one free. */
  const QUEUE_MAX := 4
  const NO_CONN := 0xFFFF

  datatype Phase = Free | Assembling | Ready | Processing

  datatype Slot = Slot(phase: Phase, frame: seq<byte>, conn: nat, epoch: nat)

  datatype Receiver = Receiver(slots: seq<Slot>, active: Option<nat>, requests: seq<nat>, epoch: nat)

  const FreeSlot := Slot(Free, [], NO_CONN, 0)

  // ---- Frames ---------------------------------------------------------------------------------------

  function DeclaredLength(frame: seq<byte>): nat
    requires |frame| >= 6
  {
    Join16(frame[5], frame[4])
  }

  function TotalLength(frame: seq<byte>): Option<nat> {
    if |frame| < 6 || !(2 <= DeclaredLength(frame) <= PDU_MAX) then None else Some(8 + DeclaredLength(frame))
  }

  /** A frame whose length is the one its header declares. */
  predicate WellFormed(frame: seq<byte>) { TotalLength(frame) == Some(|frame|) }

  predicate IsText(data: seq<byte>) { (|data| >= 2 && data[0] == 0x41 && data[1] == 0x54) || data == [0x41] }

  /** In bytes: six of header, of which the last two are the length of the payload, high byte first,
      2 to 504 bytes of payload, and two of checksum. */
  lemma WellFormedMeans(f: seq<byte>)
    ensures WellFormed(f) <==> |f| >= 10 && |f| <= 512 && |f| == 256 * (f[4] as int) + f[5] as int + 8
  {
  }

  lemma PrefixDeclares(frame: seq<byte>, n: nat)
    requires n <= |frame| && WellFormed(frame)
    ensures n >= 6 ==> TotalLength(frame[..n]) == Some(|frame|)
    ensures |frame| <= FRAME_MAX
  {
  }

  // ---- One write --------------------------------------------------------------------------------------

  /** The first free slot from `i` on. */
  function FirstFree(slots: seq<Slot>, i: nat): (r: Option<nat>)
    ensures r.Some? ==> i <= r.value < |slots| && slots[r.value].phase.Free?
    decreases |slots| - i
  {
    if i >= |slots| then None else if slots[i].phase.Free? then Some(i) else FirstFree(slots, i + 1)
  }

  function Claimed(r: Receiver, i: nat, conn: nat): Receiver
    requires i < |r.slots|
  {
    r.(slots := r.slots[i := Slot(Assembling, [], conn, r.epoch)], active := Some(i))
  }

  function Released(r: Receiver, i: nat): Receiver
    requires i < |r.slots|
  {
    r.(slots := r.slots[i := Slot(Free, [], NO_CONN, r.slots[i].epoch)])
  }

  /** The data appended to the active slot. */
  function Appended(r: Receiver, i: nat, data: seq<byte>): Receiver
    requires i < |r.slots|
  {
    var frame := r.slots[i].frame + data;
    if |frame| > FRAME_MAX then Released(r.(active := None), i) else
    var kept := r.(slots := r.slots[i := r.slots[i].(frame := frame)]);
    if |frame| < 6 then kept
    else if TotalLength(frame).None? then Released(kept.(active := None), i)
    else if |frame| < TotalLength(frame).value then kept
    else if |frame| > TotalLength(frame).value then Released(kept.(active := None), i)
    else
      var done := kept.(active := None, slots := kept.slots[i := kept.slots[i].(phase := Ready)]);
      if |r.requests| < QUEUE_MAX then done.(requests := r.requests + [i]) else Released(done, i)
  }

  predicate Valid(r: Receiver) { |r.slots| == SLOT_COUNT && (r.active.Some? ==> r.active.value < SLOT_COUNT) }

  /** The receiver after one write, and whether the write was taken as binary. */
  function Fed(r: Receiver, data: seq<byte>, conn: nat): (Receiver, bool)
    requires Valid(r)
  {
    if r.active.None? && IsText(data) then (r, false)
    else if r.active.Some? then (Appended(r, r.active.value, data), true)
    else
      var i := FirstFree(r.slots, 0);
      if i.None? then (r, true) else (Appended(Claimed(r, i.value, conn), i.value, data), true)
  }

  /** While no frame is coming in, a write that is "A" or begins with "AT" is text and changes
      nothing; every other one is binary. */
  lemma TextIsLeftAlone(r: Receiver, data: seq<byte>, conn: nat)
    requires Valid(r)
    ensures Fed(r, data, conn).1
            <==> r.active.Some? || !(data == [0x41] || (|data| >= 2 && data[0] == 0x41 && data[1] == 0x54))
    ensures !Fed(r, data, conn).1 ==> Fed(r, data, conn).0 == r
  {
  }

  /** Nor does a binary write that finds no slot free, or, with a frame coming in, another slot. */
  lemma FullSlotsStay(r: Receiver, data: seq<byte>, conn: nat)
    requires Valid(r) && r.active.None? && forall i :: 0 <= i < 4 ==> !r.slots[i].phase.Free?
    ensures Fed(r, data, conn).0 == r
  {
  }

  class Reassembler {
    var slots: seq<Slot>
    var active: Option<nat>
    var requests: seq<nat>
    var epoch: nat

    ghost function View(): Receiver
      reads this
    {
      Receiver(slots, active, requests, epoch)
    }

    constructor ()
      ensures View() == Receiver([FreeSlot, FreeSlot, FreeSlot, FreeSlot], None, [], 0)
    {
      slots, active, requests, epoch := [FreeSlot, FreeSlot, FreeSlot, FreeSlot], None, [], 0;
    }

    method Claim(conn: nat) returns (index: Option<nat>)
      requires |slots| == SLOT_COUNT
      modifies this`slots
      ensures index == FirstFree(old(slots), 0)
      ensures slots == if index.None? then old(slots) else old(slots)[index.value := Slot(Assembling, [], conn, epoch)]
    {
      var i := 0;
      while i < |slots|
        invariant i <= |slots| && slots == old(slots) && FirstFree(slots, 0) == FirstFree(slots, i)
      {
        if slots[i].phase.Free? {
          slots := slots[i := Slot(Assembling, [], conn, epoch)];
          return Some(i);
        }
        i := i + 1;
      }
      index := None;
    }

    method Release(i: nat)
      requires i < |slots|
      modifies this`slots
      ensures slots == old(slots)[i := Slot(Free, [], NO_CONN, old(slots)[i].epoch)]
    {
      slots := slots[i := slots[i].(frame := [], conn := NO_CONN, phase := Free)];
    }

    method Append(i: nat, data: seq<byte>)
      requires i < |slots|
      modifies this
      ensures View() == Appended(old(View()), i, data)
    {
      if |slots[i].frame| + |data| > FRAME_MAX {
        active := None;
        Release(i);
        return;
      }
      slots := slots[i := slots[i].(frame := slots[i].frame + data)];
      if |slots[i].frame| < 6 { return; }
      var expected := TotalLength(slots[i].frame);
      if expected.None? {
        active := None;
        Release(i);
        return;
      }
      if |slots[i].frame| < expected.value { return; }
      active := None;
      if |slots[i].frame| != expected.value {
        Release(i);
        return;
      }
      slots := slots[i := slots[i].(phase := Ready)];
      if |requests| < QUEUE_MAX { requests := requests + [i]; } else { Release(i); }
    }

    method Feed(data: seq<byte>, conn: nat) returns (binary: bool)
      requires Valid(View())
      modifies this
      ensures (View(), binary) == Fed(old(View()), data, conn)
    {
      if active.None? && IsText(data) { return false; }
      var index := active;
      if index.None? {
        index := Claim(conn);
        if index.None? { return true; }
        active := index;
      }
      Append(index.value, data);
      binary := true;
    }
  }

  // ---- Any fragmentation yields the one frame -------------------------------------------------------

  function Concat(fs: seq<seq<byte>>): seq<byte> {
    if fs == [] then [] else Concat(fs[..|fs| - 1]) + fs[|fs| - 1]
  }

  function FedAll(r: Receiver, fs: seq<seq<byte>>, conn: nat): (r': Receiver)
    requires Valid(r)
    ensures Valid(r')
  {
    if fs == [] then r else Fed(FedAll(r, fs[..|fs| - 1], conn), fs[|fs| - 1], conn).0
  }

  /** The receiver while a frame is coming in: `got` in slot `i`. */
  function Receiving(r: Receiver, i: nat, conn: nat, got: seq<byte>): Receiver
    requires i < |r.slots|
  {
    r.(slots := r.slots[i := Slot(Assembling, got, conn, r.epoch)], active := Some(i))
  }

  /** The receiver once the frame is complete. */
  function Received(r: Receiver, i: nat, conn: nat, frame: seq<byte>): Receiver
    requires i < |r.slots|
  {
    r.(slots := r.slots[i := Slot(Ready, frame, conn, r.epoch)], active := None, requests := r.requests + [i])
  }

  lemma AppendStep(r: Receiver, i: nat, conn: nat, frame: seq<byte>, n: nat, m: nat)
    requires Valid(r) && i < SLOT_COUNT && |r.requests| < QUEUE_MAX
    requires WellFormed(frame) && n < m <= |frame|
    ensures Appended(Receiving(r, i, conn, frame[..n]), i, frame[n..m])
            == if m < |frame| then Receiving(r, i, conn, frame[..m]) else Received(r, i, conn, frame)
  {
    assert frame[..n] + frame[n..m] == frame[..m];
    assert frame[..|frame|] == frame;
    PrefixDeclares(frame, m);
  }

  lemma {:induction false} PrefixLength(fs: seq<seq<byte>>, k: nat)
    requires k <= |fs|
    ensures |Concat(fs[..k])| <= |Concat(fs)| && Concat(fs)[..|Concat(fs[..k])|] == Concat(fs[..k])
  {
    if k < |fs| {
      PrefixLength(fs[..|fs| - 1], k);
      assert fs[..|fs| - 1][..k] == fs[..k];
    } else {
      assert fs[..k] == fs;
    }
  }

  lemma {:induction false} FragmentsGather(r: Receiver, fs: seq<seq<byte>>, conn: nat, frame: seq<byte>, k: nat)
    requires Valid(r) && r.active.None? && FirstFree(r.slots, 0).Some? && |r.requests| < 4
    requires WellFormed(frame) && Concat(fs) == frame && (forall j :: 0 <= j < |fs| ==> fs[j] != [])
    requires 0 < k <= |fs| && !IsText(fs[0])
    ensures var i := FirstFree(r.slots, 0).value;
            FedAll(r, fs[..k], conn) == if k < |fs| then Receiving(r, i, conn, Concat(fs[..k])) else Received(r, i, conn, frame)
  {
    var i := FirstFree(r.slots, 0).value;
    var n, m := |Concat(fs[..k - 1])|, |Concat(fs[..k])|;
    PrefixLength(fs, k - 1);
    PrefixLength(fs, k);
    assert fs[..k][..k - 1] == fs[..k - 1];
    assert Concat(fs[..k]) == Concat(fs[..k - 1]) + fs[k - 1];
    assert frame[n..m] == fs[k - 1];
    if k < |fs| { LongerStill(fs, k); } else { assert fs[..k] == fs; }
    AppendStep(r, i, conn, frame, n, m);
    if k > 1 {
      FragmentsGather(r, fs, conn, frame, k - 1);
    } else {
      assert fs[..0] == [] && FedAll(r, [], conn) == r;
      assert frame[..0] == [];
      assert Claimed(r, i, conn) == Receiving(r, i, conn, []);
    }
  }

  lemma LongerStill(fs: seq<seq<byte>>, k: nat)
    requires k < |fs| && fs[k] != []
    ensures |Concat(fs[..k])| < |Concat(fs)|
  {
    PrefixLength(fs, k + 1);
    assert fs[..k + 1][..k] == fs[..k];
  }

  /** However a well-formed frame is cut into writes, exactly that frame is queued, in the slot
      claimed for it, with the connection and epoch of its first write; nothing else changes. */
  lemma AnyFragmentationYieldsTheFrame(r: Receiver, fs: seq<seq<byte>>, conn: nat, frame: seq<byte>)
    requires Valid(r) && r.active.None? && FirstFree(r.slots, 0).Some? && |r.requests| < 4
    requires WellFormed(frame) && Concat(fs) == frame && (forall j :: 0 <= j < |fs| ==> fs[j] != [])
    requires fs != [] && !IsText(fs[0])
    ensures FedAll(r, fs, conn) == Received(r, FirstFree(r.slots, 0).value, conn, frame)
  {
    FragmentsGather(r, fs, conn, frame, |fs|);
    assert fs[..|fs|] == fs;
  }

  /** Nothing is dropped that could still have become a frame, but for a whole frame that finds
      the request queue full. */
  lemma DroppedWasHopeless(r: Receiver, i: nat, data: seq<byte>, more: seq<byte>)
    requires i < |r.slots| && r.slots[i].phase.Assembling? && Appended(r, i, data).slots[i].phase.Free?
    requires WellFormed(r.slots[i].frame + data + more)
    ensures more == [] && |r.requests| >= 4
  {
    var bytes := r.slots[i].frame + data;
    assert (bytes + more)[..|bytes|] == bytes;
    PrefixDeclares(bytes + more, |bytes|);
  }

  // ---- Whatever is written, only well-formed frames are queued -----------------------------------------

  predicate OnlyFrames(r: Receiver) {
    && Valid(r)
    && (forall i :: 0 <= i < SLOT_COUNT && r.slots[i].phase.Ready? ==> WellFormed(r.slots[i].frame))
    && (r.active.Some? ==> r.slots[r.active.value].phase.Assembling?)
    && |r.requests| <= QUEUE_MAX
    && (forall k :: 0 <= k < |r.requests| ==> r.requests[k] < SLOT_COUNT && r.slots[r.requests[k]].phase.Ready?)
  }

  lemma AppendedKeepsOnlyFrames(r: Receiver, i: nat, data: seq<byte>)
    requires OnlyFrames(r) && r.active == Some(i)
    ensures OnlyFrames(Appended(r, i, data))
  {
  }

  lemma FedKeepsOnlyFrames(r: Receiver, data: seq<byte>, conn: nat)
    requires OnlyFrames(r)
    ensures OnlyFrames(Fed(r, data, conn).0)
  {
    if r.active.Some? {
      AppendedKeepsOnlyFrames(r, r.active.value, data);
    } else if !IsText(data) && FirstFree(r.slots, 0).Some? {
      var i := FirstFree(r.slots, 0).value;
      AppendedKeepsOnlyFrames(Claimed(r, i, conn), i, data);
    }
  }
}
