/**
  The outgoing side of the handheld link (src/ble_at/mod.rs): `build_ble_frame`, the ring of
  whole frames, and `send_next_notification`, which cuts the front frame into notifications.
*/
module BleTransmit {
  import opened Options
  import opened Words
  import Rx = BleReassembly

  const SLOTS := 8
  const FRAME_MAX := 272
  const PAYLOAD_MAX := 497

  /** A frame and how many of its bytes have been sent. */
  datatype Frame = Frame(bytes: seq<byte>, offset: nat)

  // ---- Building -------------------------------------------------------------------------------------

  /** `crc` is the checksum of what precedes it. */
  function Build(txId: u16, protoId: u16, pdu: seq<byte>, crc: u16): Option<seq<byte>> {
    if |pdu| > FRAME_MAX - 8 then None
    else Some([Hi(txId), Lo(txId), Hi(protoId), Lo(protoId), |pdu| / 256, |pdu| % 256] + pdu + [Lo(crc), Hi(crc)])
  }

  /** What is built has the length its header declares: the receiving side of this protocol
      takes it for a whole frame, from the shortest payload it admits on. */
  lemma BuiltFramesAreWellFormed(txId: u16, protoId: u16, pdu: seq<byte>, crc: u16)
    ensures Build(txId, protoId, pdu, crc).Some? <==> |pdu| <= 264
    ensures Build(txId, protoId, pdu, crc).Some? ==>
              var f := Build(txId, protoId, pdu, crc).value;
              |f| <= FRAME_MAX && f[6..|f| - 2] == pdu && (Rx.WellFormed(f) <==> |pdu| >= 2)
  {
  }

  /** The header is high byte first, transaction, protocol and length, the checksum low byte first. */
  lemma BuiltFrameBytes(txId: u16, protoId: u16, pdu: seq<byte>, crc: u16)
    requires |pdu| <= 264
    ensures var b := Build(txId, protoId, pdu, crc);
            && b.Some? && |b.value| == |pdu| + 8
            && 256 * (b.value[0] as int) + b.value[1] == txId && 256 * (b.value[2] as int) + b.value[3] == protoId
            && 256 * (b.value[4] as int) + b.value[5] == |pdu| && b.value[6..6 + |pdu|] == pdu
            && b.value[6 + |pdu|] as int + 256 * (b.value[7 + |pdu|] as int) == crc
  {
  }

  // ---- The ring -----------------------------------------------------------------------------------------

  function Wrap(i: nat): nat { if i >= SLOTS then i - SLOTS else i }

  function Ring(slots: seq<Frame>, head: nat, len: nat): (s: seq<Frame>)
    requires |slots| == SLOTS && head < SLOTS && len <= SLOTS
    ensures |s| == len && forall i :: 0 <= i < len ==> s[i] == slots[Wrap(head + i)]
  {
    seq(len, i requires 0 <= i < len => slots[Wrap(head + i)])
  }

  predicate FrameOk(f: Frame) { f.offset < |f.bytes| }

  /** The bytes still to be sent. */
  function Rest(q: seq<Frame>): seq<byte> {
    if q == [] then []
    else Rest(q[..|q| - 1]) + (if FrameOk(q[|q| - 1]) then q[|q| - 1].bytes[q[|q| - 1].offset..] else [])
  }

  class TxRing {
    const slots: array<Frame>
    var head: nat
    var len: nat

    constructor ()
      ensures Valid() && fresh(slots) && Queue() == []
    {
      slots := new Frame[SLOTS](_ => Frame([], 0));
      head, len := 0, 0;
    }

    ghost predicate Valid()
      reads this, slots
    {
      slots.Length == SLOTS && head < SLOTS && len <= SLOTS && forall f :: f in Queue() ==> FrameOk(f)
    }

    ghost function Queue(): (q: seq<Frame>)
      requires slots.Length == SLOTS && head < SLOTS && len <= SLOTS
      reads this, slots
      ensures |q| == len
    {
      Ring(slots[..], head, len)
    }

    method TryPush(bytes: seq<byte>) returns (ok: bool)
      requires Valid() && bytes != []
      modifies this, slots
      ensures Valid()
      ensures ok <==> |old(Queue())| < 8
      ensures Queue() == if ok then old(Queue()) + [Frame(bytes, 0)] else old(Queue())
    {
      if len == SLOTS { return false; }
      slots[(head + len) % SLOTS] := Frame(bytes, 0);
      len := len + 1;
      assert Queue() == old(Queue()) + [Frame(bytes, 0)];
      ok := true;
    }

    method PopFront()
      requires Valid()
      modifies this, slots
      ensures Valid()
      ensures Queue() == if old(Queue()) == [] then [] else old(Queue())[1..]
    {
      if len == 0 { return; }
      slots[head] := Frame([], 0);
      head := (head + 1) % SLOTS;
      len := len - 1;
      assert old(Queue()) != [] && Queue() == old(Queue())[1..];
    }

    method Clear()
      requires Valid()
      modifies this, slots
      ensures Valid() && Queue() == []
    {
      while len != 0
        invariant Valid()
        decreases len
      {
        PopFront();
      }
      head := 0;
    }

    /** One notification of the front frame, unless notifications are off, the link is congested
        or the ring is locked: `open`.  `accepted` is whether the stack took it, `same` whether
        the connection is still the one it was for.  Only then is it consumed. */
    method SendNext(mtu: u16, open: bool, accepted: bool, same: bool) returns (chunk: seq<byte>)
      requires Valid()
      modifies this, slots
      ensures Valid()
      ensures chunk == [] <==> old(Queue()) == [] || !open
      ensures |chunk| <= Limit(mtu)
      ensures chunk != [] ==>
                var f := old(Queue())[0];
                && |chunk| <= |f.bytes| - f.offset && chunk == f.bytes[f.offset..f.offset + |chunk|]
                && (|chunk| < |f.bytes| - f.offset ==> |chunk| == Limit(mtu))
      ensures Queue() == if open && accepted && same then Advanced(old(Queue()), |chunk|) else old(Queue())
    {
      if !open { return []; }
      if len == 0 { return []; }
      var f := slots[head];
      assert f == Queue()[0] && f in Queue();
      var remaining := |f.bytes| - f.offset;
      var n := if remaining < Limit(mtu) then remaining else Limit(mtu);
      chunk := f.bytes[f.offset..f.offset + n];
      if accepted && same { Consume(n); }
    }

    /** The front frame is `n` bytes further, and gone once all of it is sent. */
    method Consume(n: nat)
      requires Valid() && Queue() != [] && n <= |Queue()[0].bytes| - Queue()[0].offset
      modifies this, slots
      ensures Valid() && Queue() == Advanced(old(Queue()), n)
    {
      var f := slots[head];
      assert f == Queue()[0] && f in Queue();
      if f.offset + n == |f.bytes| {
        PopFront();
      } else {
        slots[head] := Frame(f.bytes, f.offset + n);
        assert slots[..] == old(slots[..])[head := Frame(f.bytes, f.offset + n)];
        assert Queue() == old(Queue())[0 := Frame(f.bytes, f.offset + n)];
      }
    }
  }

  /** A notification carries the negotiated MTU less three bytes, at least one and at most 497. */
  /** A notification takes three bytes of the MTU for itself. */
  lemma LimitMeans(mtu: u16)
    ensures 4 <= mtu <= 500 ==> Limit(mtu) == mtu - 3
    ensures mtu < 4 ==> Limit(mtu) == 1
    ensures mtu > 500 ==> Limit(mtu) == 497
  {
  }

  function Limit(mtu: u16): (n: nat)
    ensures 1 <= n <= PAYLOAD_MAX
  {
    var n := if mtu >= 3 then mtu - 3 else 0;
    if n < 1 then 1 else if n > PAYLOAD_MAX then PAYLOAD_MAX else n
  }

  /** The queue once `n` bytes of its front frame were sent. */
  function Advanced(q: seq<Frame>, n: nat): seq<Frame> {
    if q == [] then q
    else if q[0].offset + n >= |q[0].bytes| then q[1..]
    else q[0 := Frame(q[0].bytes, q[0].offset + n)]
  }

  // ---- The stream of a connection ----------------------------------------------------------------------

  /** `sent`, `pushed` and `frames`, the frames pushed one by one, are history. */
  datatype State = State(queue: seq<Frame>, sent: seq<byte>, pushed: seq<byte>, frames: seq<seq<byte>>)

  datatype Step = Push(bytes: seq<byte>) | Send(mtu: u16, accepted: bool)

  predicate Good(q: seq<Frame>) { |q| <= SLOTS && forall i :: 0 <= i < |q| ==> FrameOk(q[i]) }

  function Chunk(q: seq<Frame>, mtu: u16): seq<byte>
    requires Good(q)
  {
    if q == [] then [] else
    var left := |q[0].bytes| - q[0].offset;
    q[0].bytes[q[0].offset..q[0].offset + (if left < Limit(mtu) then left else Limit(mtu))]
  }

  function Apply(s: State, step: Step): State
    requires Good(s.queue)
  {
    match step
    case Push(bytes) =>
      if |s.queue| == SLOTS || bytes == [] then s
      else s.(queue := s.queue + [Frame(bytes, 0)], pushed := s.pushed + bytes, frames := s.frames + [bytes])
    case Send(mtu, accepted) =>
      if !accepted then s
      else s.(queue := Advanced(s.queue, |Chunk(s.queue, mtu)|), sent := s.sent + Chunk(s.queue, mtu))
  }

  predicate Inv(s: State) { Good(s.queue) && s.pushed == s.sent + Rest(s.queue) && Whole(s) }

  /** The part of the front frame that was sent. */
  function Begun(q: seq<Frame>): seq<byte>
    requires Good(q)
  {
    if q == [] then [] else q[0].bytes[..q[0].offset]
  }

  /** The ring holds the last frames pushed, none but the front one begun; all before them were
      sent whole. */
  predicate Whole(s: State)
    requires Good(s.queue)
  {
    && |s.queue| <= |s.frames|
    && var m := |s.frames| - |s.queue|;
       && (forall i :: 0 <= i < |s.queue| ==> s.queue[i].bytes == s.frames[m + i])
       && (forall i :: 0 < i < |s.queue| ==> s.queue[i].offset == 0)
       && s.sent == Rx.Concat(s.frames[..m]) + Begun(s.queue)
  }

  lemma PushKeepsWhole(s: State, bytes: seq<byte>)
    requires Good(s.queue) && Whole(s)
    ensures Whole(Apply(s, Push(bytes)))
  {
    var s' := Apply(s, Push(bytes));
    if s' != s {
      var m := |s.frames| - |s.queue|;
      assert s'.frames[..m] == s.frames[..m];
      assert Begun(s'.queue) == Begun(s.queue);
    }
  }

  lemma PartKeepsWhole(s: State, n: nat)
    requires Good(s.queue) && Whole(s) && s.queue != [] && s.queue[0].offset + n < |s.queue[0].bytes|
    ensures var f := s.queue[0];
            var q := s.queue[0 := Frame(f.bytes, f.offset + n)];
            Good(q) && Whole(s.(queue := q, sent := s.sent + f.bytes[f.offset..f.offset + n]))
  {
    var f := s.queue[0];
    assert f.bytes[..f.offset] + f.bytes[f.offset..f.offset + n] == f.bytes[..f.offset + n];
  }

  lemma LastKeepsWhole(s: State)
    requires Good(s.queue) && Whole(s) && s.queue != []
    ensures var f := s.queue[0];
            Good(s.queue[1..]) && Whole(s.(queue := s.queue[1..], sent := s.sent + f.bytes[f.offset..]))
  {
    var f, m := s.queue[0], |s.frames| - |s.queue|;
    NextConcat(s.frames, m);
    Regrouped(Rx.Concat(s.frames[..m]), f.bytes[..f.offset], f.bytes[f.offset..]);
    assert f.bytes == f.bytes[..f.offset] + f.bytes[f.offset..];
    assert Begun(s.queue[1..]) == [];
  }

  lemma NextConcat(frames: seq<seq<byte>>, m: nat)
    requires m < |frames|
    ensures Rx.Concat(frames[..m + 1]) == Rx.Concat(frames[..m]) + frames[m]
  {
    assert frames[..m + 1][..m] == frames[..m];
  }

  lemma SendKeepsWhole(s: State, mtu: u16)
    requires Good(s.queue) && Whole(s)
    ensures Good(Apply(s, Send(mtu, true)).queue) && Whole(Apply(s, Send(mtu, true)))
  {
    if s.queue != [] {
      var f, left := s.queue[0], |s.queue[0].bytes| - s.queue[0].offset;
      if left > Limit(mtu) {
        PartKeepsWhole(s, Limit(mtu));
      } else {
        LastKeepsWhole(s);
        assert Chunk(s.queue, mtu) == f.bytes[f.offset..];
      }
    }
  }

  lemma {:induction false} RestFront(q: seq<Frame>)
    requires q != [] && Good(q)
    ensures Rest(q) == q[0].bytes[q[0].offset..] + Rest(q[1..])
  {
    if |q| == 1 {
      assert q[..0] == [] && q[1..] == [];
    } else {
      RestFront(q[..|q| - 1]);
      assert q[..|q| - 1][1..] == q[1..][..|q| - 2];
      assert Rest(q) == Rest(q[..|q| - 1]) + q[|q| - 1].bytes[q[|q| - 1].offset..];
      assert Rest(q[1..]) == Rest(q[1..][..|q| - 2]) + q[|q| - 1].bytes[q[|q| - 1].offset..];
    }
  }

  /** Advancing by `n` bytes takes exactly those off the front of what remains. */
  lemma RestAdvanced(q: seq<Frame>, n: nat)
    requires Good(q) && q != [] && n <= |q[0].bytes| - q[0].offset
    ensures Good(Advanced(q, n))
    ensures Rest(q) == q[0].bytes[q[0].offset..q[0].offset + n] + Rest(Advanced(q, n))
  {
    RestFront(q);
    if q[0].offset + n < |q[0].bytes| {
      RestOfRest(q, n);
      SplitFrame(q[0].bytes, q[0].offset, n, Rest(q[1..]));
    }
  }

  lemma RestOfRest(q: seq<Frame>, n: nat)
    requires Good(q) && q != [] && q[0].offset + n < |q[0].bytes|
    ensures var q' := q[0 := Frame(q[0].bytes, q[0].offset + n)];
            Good(q') && Rest(q') == q[0].bytes[q[0].offset + n..] + Rest(q[1..])
  {
    var q' := q[0 := Frame(q[0].bytes, q[0].offset + n)];
    RestFront(q');
    assert q'[1..] == q[1..];
  }

  lemma SplitFrame(bytes: seq<byte>, offset: nat, n: nat, rest: seq<byte>)
    requires offset + n <= |bytes|
    ensures bytes[offset..] + rest == bytes[offset..offset + n] + (bytes[offset + n..] + rest)
  {
  }

  lemma SendKeepsInv(s: State, mtu: u16)
    requires Inv(s)
    ensures Inv(Apply(s, Send(mtu, true)))
  {
    SendKeepsWhole(s, mtu);
    if s.queue != [] {
      SendKeepsStream(s, mtu);
    } else {
      assert s.sent + [] == s.sent;
    }
  }

  lemma SendKeepsStream(s: State, mtu: u16)
    requires Good(s.queue) && s.pushed == s.sent + Rest(s.queue) && s.queue != []
    ensures var s' := Apply(s, Send(mtu, true)); s'.pushed == s'.sent + Rest(s'.queue)
  {
    var chunk := Chunk(s.queue, mtu);
    RestAdvanced(s.queue, |chunk|);
    Regrouped(s.sent, chunk, Rest(Advanced(s.queue, |chunk|)));
  }

  lemma Regrouped(a: seq<byte>, b: seq<byte>, c: seq<byte>)
    ensures a + (b + c) == a + b + c
  {
  }

  lemma PushKeepsStream(s: State, bytes: seq<byte>)
    requires Good(s.queue) && s.pushed == s.sent + Rest(s.queue) && |s.queue| < SLOTS && bytes != []
    ensures var s' := Apply(s, Push(bytes)); Good(s'.queue) && s'.pushed == s'.sent + Rest(s'.queue)
  {
    var q := s.queue + [Frame(bytes, 0)];
    assert q[..|s.queue|] == s.queue && bytes[0..] == bytes;
    assert Rest(q) == Rest(s.queue) + bytes;
    Regrouped(s.sent, Rest(s.queue), bytes);
  }

  lemma StepKeepsInv(s: State, step: Step)
    requires Inv(s)
    ensures Inv(Apply(s, step))
  {
    match step
    case Push(bytes) =>
      PushKeepsWhole(s, bytes);
      if |s.queue| < SLOTS && bytes != [] { PushKeepsStream(s, bytes); }
    case Send(mtu, accepted) => if accepted { SendKeepsInv(s, mtu); }
  }

  function Run(s: State, steps: seq<Step>): State
    requires Inv(s)
    decreases |steps|
  {
    if steps == [] then s else StepKeepsInv(s, steps[0]); Run(Apply(s, steps[0]), steps[1..])
  }

  lemma {:induction false} RunKeepsInv(s: State, steps: seq<Step>)
    requires Inv(s)
    ensures Inv(Run(s, steps))
    decreases |steps|
  {
    if steps != [] {
      StepKeepsInv(s, steps[0]);
      RunKeepsInv(Apply(s, steps[0]), steps[1..]);
    }
  }

  const Start := State([], [], [], [])

  /** While a connection stays up, what has been notified is the frames accepted, in order, each
      one whole before the next, and of the one after them a front part; whatever was refused and
      retried in between.  The rest is still in the ring. */
  lemma NothingIsLostOrInterleaved(steps: seq<Step>)
    ensures Inv(Start)
    ensures var s := Run(Start, steps);
            && |s.queue| <= |s.frames|
            && var m := |s.frames| - |s.queue|;
               && s.pushed == s.sent + Rest(s.queue)
               && (s.queue == [] ==> s.sent == Rx.Concat(s.frames))
               && (s.queue != [] ==>
                     && s.queue[0].offset < |s.frames[m]|
                     && s.sent == Rx.Concat(s.frames[..m]) + s.frames[m][..s.queue[0].offset])
  {
    RunKeepsInv(Start, steps);
    var s := Run(Start, steps);
    assert s.frames[..|s.frames|] == s.frames;
  }
}
