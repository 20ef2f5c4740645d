/**
  The protocol data of src/device/mod.rs: the CRC-protected blob, and the two NVS keys with
  an active flag that a commit rewrites one after the other.  NVS replaces one key's value
  atomically; a call that reports an error may or may not have taken effect.
*/
module ProtoStore {
  import opened Options
  import opened Words
  import Crc32

  const PROTO_WORDS := 1500
  const HEADER_BYTES := 10
  const TOTAL_BYTES := 3010
  const PROTO_MAGIC: u16 := 0x494D

  datatype Proto = Proto(data: seq<u16>, version: u16, length: u16)

  predicate Sized(p: Proto) { |p.data| == PROTO_WORDS }

  // ---- The blob ----------------------------------------------------------------------------------

  function Prefix(p: Proto): (s: seq<byte>)
    ensures |s| == 6
  {
    Le16(PROTO_MAGIC) + Le16(p.version) + Le16(p.length)
  }

  /** The two checksums added up with wrap-around. */
  function Checksum(prefix: seq<byte>, data: seq<byte>): u32 {
    (Crc32.Crc(prefix) + Crc32.Crc(data)) % WRAP
  }

  function Encode(p: Proto): (blob: seq<byte>)
    ensures Sized(p) ==> |blob| == TOTAL_BYTES
  {
    Prefix(p) + Le32(Checksum(Prefix(p), LeBytes(p.data))) + LeBytes(p.data)
  }

  /** The words a load returns: those from `length` on read as zero. */
  function Kept(data: seq<u16>, length: u16): (ws: seq<u16>)
    requires |data| == PROTO_WORDS
    ensures |ws| == PROTO_WORDS
  {
    if length >= PROTO_WORDS then data else data[..length] + Zeros(PROTO_WORDS - length)
  }

  function Decode(blob: seq<byte>): Option<Proto> {
    if |blob| != TOTAL_BYTES || WordAt(blob, 0) != PROTO_MAGIC then None
    else if LongAt(blob, 6) != Checksum(blob[..6], blob[HEADER_BYTES..]) then None
    else Some(Proto(Kept(WordsOf(blob[HEADER_BYTES..]), WordAt(blob, 4)), WordAt(blob, 2), WordAt(blob, 4)))
  }

  /** The words below `length`, the rest zero. */
  method CopyWords(bytes: seq<byte>, length: u16) returns (words: seq<u16>)
    requires |bytes| == 2 * PROTO_WORDS
    ensures words == Kept(WordsOf(bytes), length)
  {
    var valid := if length < PROTO_WORDS then length else PROTO_WORDS;
    var data := new u16[PROTO_WORDS](_ => 0);
    ghost var all := WordsOf(bytes);
    for i := 0 to valid
      invariant forall j :: 0 <= j < i ==> data[j] == all[j]
      invariant forall j :: i <= j < PROTO_WORDS ==> data[j] == 0
    {
      WordsAt(bytes, i);
      data[i] := Join16(bytes[2 * i], bytes[2 * i + 1]);
    }
    words := data[..];
    assert words == Kept(all, length);
  }

  method LoadSingleBlob(blob: seq<byte>) returns (loaded: Option<Proto>)
    ensures loaded == Decode(blob)
  {
    if |blob| != TOTAL_BYTES || WordAt(blob, 0) != PROTO_MAGIC { return None; }
    var crcHeader := Crc32.ComputeCrc(blob[..6]);
    var crcData := Crc32.ComputeCrc(blob[HEADER_BYTES..]);
    if LongAt(blob, 6) != (crcHeader + crcData) % WRAP { return None; }
    var length := WordAt(blob, 4);
    var data := CopyWords(blob[HEADER_BYTES..], length);
    loaded := Some(Proto(data, WordAt(blob, 2), length));
  }

  lemma {:induction false} WordsAt(bs: seq<byte>, k: nat)
    requires |bs| % 2 == 0 && 2 * k + 1 < |bs|
    ensures WordsOf(bs)[k] == Join16(bs[2 * k], bs[2 * k + 1])
  {
    if k > 0 {
      WordsAt(bs[2..], k - 1);
      assert bs[2..][2 * (k - 1)] == bs[2 * k] && bs[2..][2 * (k - 1) + 1] == bs[2 * k + 1];
    }
  }

  lemma EncodeParts(p: Proto)
    requires Sized(p)
    ensures var blob := Encode(p);
            && blob[..6] == Prefix(p) && blob[HEADER_BYTES..] == LeBytes(p.data)
            && LongAt(blob, 6) == Checksum(Prefix(p), LeBytes(p.data))
            && WordAt(blob, 0) == PROTO_MAGIC && WordAt(blob, 2) == p.version && WordAt(blob, 4) == p.length
  {
    var c := Checksum(Prefix(p), LeBytes(p.data));
    Join32OfLe32(c);
    var blob := Encode(p);
    assert blob[6] == Le32(c)[0] && blob[7] == Le32(c)[1] && blob[8] == Le32(c)[2] && blob[9] == Le32(c)[3];
  }

  /** What a load makes of a committed `p`. */
  function Reloaded(p: Proto): Proto
    requires Sized(p)
  {
    Proto(Kept(p.data, p.length), p.version, p.length)
  }

  /** A committed blob loads with its version, its length and its first `length` words. */
  lemma RoundTrip(p: Proto)
    requires Sized(p)
    ensures Decode(Encode(p)) == Some(Reloaded(p))
  {
    EncodeParts(p);
    WordsOfLeBytes(p.data);
  }

  /** So a load gives back everything exactly when the words past `length` were zero. */
  lemma ExactRoundTrip(p: Proto)
    requires Sized(p)
    ensures Reloaded(p) == p <==> forall i :: p.length <= i < PROTO_WORDS ==> p.data[i] == 0
  {
    if Kept(p.data, p.length) == p.data {
      forall i | p.length <= i < PROTO_WORDS ensures p.data[i] == 0 {
        assert Kept(p.data, p.length)[i] == 0;
      }
    }
  }

  lemma WindowDiffers(good: seq<byte>, bad: seq<byte>, at: nat, to: nat)
    requires SameOutside(good, bad, at, to) && good != bad && at <= to <= |good|
    ensures good == good[..at] + good[at..to] + good[to..] && bad == good[..at] + bad[at..to] + good[to..]
    ensures good[at..to] != bad[at..to]
  {
    Cut(good, at, to);
    Cut(bad, at, to);
    assert good[..at] == bad[..at];
    assert good[to..] == bad[to..];
  }

  lemma Cut(s: seq<byte>, at: nat, to: nat)
    requires at <= to <= |s|
    ensures s == s[..at] + s[at..to] + s[to..]
  {
  }

  /** The CRC of a stretch tells any change inside one window of four bytes of it. */
  lemma StretchCrc(good: seq<byte>, bad: seq<byte>, at: nat, to: nat)
    requires SameOutside(good, bad, at, to) && good != bad && at <= to <= |good| && to - at <= 4
    ensures Crc32.Crc(good) != Crc32.Crc(bad)
  {
    WindowDiffers(good, bad, at, to);
    Crc32.WindowChangesCrc(good[..at], good[at..to], bad[at..to], good[to..]);
  }

  lemma SumsDiffer(a: u32, b: u32, c: u32)
    requires b != c
    ensures (a + b) % WRAP != (a + c) % WRAP
  {
  }

  lemma HeaderWindow(good: seq<byte>, bad: seq<byte>, at: nat, to: nat)
    requires |good| == TOTAL_BYTES && SameOutside(good, bad, at, to) && good != bad && to - at <= 4 && at <= to <= 6
    ensures Checksum(good[..6], good[HEADER_BYTES..]) != Checksum(bad[..6], bad[HEADER_BYTES..])
  {
    var i :| 0 <= i < |good| && good[i] != bad[i];
    assert good[..6][i] != bad[..6][i];
    StretchCrc(good[..6], bad[..6], at, to);
    assert good[HEADER_BYTES..] == bad[HEADER_BYTES..];
    SumsDiffer(Crc32.Crc(good[HEADER_BYTES..]), Crc32.Crc(good[..6]), Crc32.Crc(bad[..6]));
  }

  lemma DropKeepsWindow(good: seq<byte>, bad: seq<byte>, at: nat, to: nat, n: nat)
    requires SameOutside(good, bad, at, to) && good != bad && n <= at <= to <= |good|
    ensures SameOutside(good[n..], bad[n..], at - n, to - n) && good[n..] != bad[n..] && good[..n] == bad[..n]
  {
    assert good[..n] == bad[..n];
    assert good == good[..n] + good[n..] && bad == bad[..n] + bad[n..];
  }

  lemma DataWindow(good: seq<byte>, bad: seq<byte>, at: nat, to: nat)
    requires |good| == TOTAL_BYTES && SameOutside(good, bad, at, to) && good != bad && to - at <= 4
    requires HEADER_BYTES <= at <= to <= TOTAL_BYTES
    ensures Checksum(good[..6], good[HEADER_BYTES..]) != Checksum(bad[..6], bad[HEADER_BYTES..])
  {
    DropKeepsWindow(good, bad, at, to, HEADER_BYTES);
    StretchCrc(good[HEADER_BYTES..], bad[HEADER_BYTES..], at - HEADER_BYTES, to - HEADER_BYTES);
    assert good[..HEADER_BYTES][..6] == good[..6] && bad[..HEADER_BYTES][..6] == bad[..6];
    SumsDiffer(Crc32.Crc(good[..6]), Crc32.Crc(good[HEADER_BYTES..]), Crc32.Crc(bad[HEADER_BYTES..]));
  }

  /** Any change confined to at most four consecutive bytes of the header's protected part, or
      of the data, is refused. */
  lemma WindowRejected(good: seq<byte>, bad: seq<byte>, at: nat, to: nat)
    requires Decode(good).Some? && SameOutside(good, bad, at, to) && good != bad && to - at <= 4
    requires at <= to <= 6 || HEADER_BYTES <= at <= to <= TOTAL_BYTES
    ensures Decode(bad).None?
  {
    assert LongAt(good, 6) == LongAt(bad, 6);
    if to <= 6 { HeaderWindow(good, bad, at, to); } else { DataWindow(good, bad, at, to); }
  }

  // ---- The two keys ----------------------------------------------------------------------------------

  /** One key's value: the blob of `proto`, which `RoundTrip` says loads as `Reloaded(proto)`.
      `number` is history: which commit attempt wrote it. */
  datatype Stored = Stored(number: nat, proto: Proto)

  datatype Phase = Idle | Writing(target: nat) | Flagging(target: nat)

  datatype State = State(
    keys: seq<Option<Stored>>,
    active: Option<nat>,
    phase: Phase,
    attempts: seq<Proto>,
    acked: nat)

  /** `seen` is whether the active flag could be read; `ok` whether the call succeeded, and
      `done` whether NVS took the value all the same. */
  datatype Step =
    | Begin(p: Proto, seen: bool)
    | SetBlob(ok: bool, done: bool)
    | SetActive(ok: bool, done: bool)
    | PowerLoss

  function Init(): State { State([None, None], None, Idle, [], 0) }

  predicate WellFormed(s: State) {
    |s.keys| == 2 && (s.active.Some? ==> s.active.value < 2)
    && (!s.phase.Idle? ==> s.phase.target < 2 && s.attempts != [])
    && (forall k :: k in s.keys && k.Some? ==> Sized(k.value.proto))
    && (forall p :: p in s.attempts ==> Sized(p))
  }

  predicate Enabled(s: State, step: Step) {
    match step
    case Begin(p, _) => s.phase.Idle? && Sized(p)
    case SetBlob(_, _) => s.phase.Writing?
    case SetActive(_, _) => s.phase.Flagging?
    case PowerLoss => true
  }

  function Apply(s: State, step: Step): State
    requires WellFormed(s) && Enabled(s, step)
  {
    match step
    case Begin(p, seen) =>
      var active := if seen && s.active.Some? then s.active.value else 0;
      s.(attempts := s.attempts + [p], phase := Writing(if active == 0 then 1 else 0))
    case SetBlob(ok, done) =>
      var t := s.phase.target;
      var n := |s.attempts|;
      var s' := if ok || done then s.(keys := s.keys[t := Some(Stored(n, s.attempts[n - 1]))]) else s;
      s'.(phase := if ok then Flagging(t) else Idle)
    case SetActive(ok, done) =>
      var s' := if ok || done then s.(active := Some(s.phase.target)) else s;
      s'.(phase := Idle, acked := if ok then |s.attempts| else s.acked)
    case PowerLoss => s.(phase := Idle)
  }

  ghost predicate Runs(s: State, steps: seq<Step>, s': State)
    decreases |steps|
  {
    if steps == [] then s' == s
    else WellFormed(s) && Enabled(s, steps[0]) && Runs(Apply(s, steps[0]), steps[1..], s')
  }

  datatype LoadResult = Failed | Defaults | Loaded(p: Proto)

  /** A load: an active flag that cannot be read counts as none, so that the defaults are used; a
      key that cannot be read makes the load fail.  The active blob is tried first. */
  function Load(s: State, flagRead: bool, keyRead: seq<bool>): LoadResult
    requires WellFormed(s) && |keyRead| == 2
  {
    if !flagRead || s.active.None? then Defaults else
    var first, second := s.active.value, 1 - s.active.value;
    if !keyRead[first] then Failed
    else if s.keys[first].Some? then Loaded(Reloaded(s.keys[first].value.proto))
    else if !keyRead[second] then Failed
    else if s.keys[second].Some? then Loaded(Reloaded(s.keys[second].value.proto))
    else Defaults
  }

  predicate KeyOk(s: State, k: Option<Stored>) {
    k.Some? ==>
      0 < k.value.number <= |s.attempts| && k.value.proto == s.attempts[k.value.number - 1]
  }

  predicate Inv(s: State) {
    && WellFormed(s)
    && KeyOk(s, s.keys[0]) && KeyOk(s, s.keys[1])
    && (s.phase.Flagging? ==> s.keys[s.phase.target].Some? && s.keys[s.phase.target].value.number == |s.attempts|)
    && s.acked <= |s.attempts|
    && (s.active.None? ==> s.acked == 0)
    && (s.active.Some? ==> s.keys[s.active.value].Some? && s.acked <= s.keys[s.active.value].value.number)
  }

  lemma StepKeepsInv(s: State, step: Step)
    requires Inv(s) && Enabled(s, step)
    ensures Inv(Apply(s, step))
  {
  }

  lemma {:induction false} RunKeepsInv(s: State, steps: seq<Step>, s': State)
    requires Inv(s) && Runs(s, steps, s')
    ensures Inv(s')
    decreases |steps|
  {
    if steps != [] {
      StepKeepsInv(s, steps[0]);
      RunKeepsInv(Apply(s, steps[0]), steps[1..], s');
    }
  }

  predicate LoadsAttempt(s: State, p: Proto, n: nat) {
    0 < n <= |s.attempts| && Sized(s.attempts[n - 1]) && p == Reloaded(s.attempts[n - 1])
  }

  ghost predicate LoadsSince(s: State, r: LoadResult, n: nat) {
    r.Loaded? && exists k :: n <= k && LoadsAttempt(s, r.p, k)
  }

  /** Whatever failed and wherever the power went, what a load finds in the flash is the last
      acknowledged commit or one attempted after it.  After an acknowledged commit it finds it if
      and only if it can read the active flag and the key that the flag names. */
  lemma LoadIsAcknowledgedOrLater(steps: seq<Step>, s: State, flagRead: bool, keyRead: seq<bool>)
    requires Runs(Init(), steps, s) && |keyRead| == 2
    ensures WellFormed(s) && (s.acked > 0 ==> s.active.Some?)
    ensures var r := Load(s, flagRead, keyRead);
            && (r.Loaded? ==> LoadsSince(s, r, s.acked))
            && (s.acked > 0 ==> (LoadsSince(s, r, s.acked) <==> flagRead && keyRead[s.active.value]))
            && (s.acked > 0 ==> (r == Defaults <==> !flagRead))
  {
    RunKeepsInv(Init(), steps, s);
    if s.active.Some? {
      var k := s.keys[s.active.value].value;
      assert LoadsAttempt(s, Reloaded(k.proto), k.number);
    }
  }

  /** An acknowledged commit, and a load that cannot read the flag: the defaults. */
  lemma UnreadFlagHidesTheCommit(p: Proto)
    requires Sized(p)
    ensures var begun := Apply(Init(), Begin(p, true));
            var written := Apply(begun, SetBlob(true, true));
            var s := Apply(written, SetActive(true, true));
            && s.acked == 1 && s.attempts == [p] && WellFormed(s)
            && Load(s, true, [true, true]) == Loaded(Reloaded(p)) && Load(s, false, [true, true]) == Defaults
  {
  }

  /** The bytes of a blob: magic, version and length, then behind the checksum the words; numbers are
      low byte first. */
  lemma EncodedBytes(p: Proto, i: nat)
    requires Sized(p) && i < 1500
    ensures var b := Encode(p);
            && |b| == 3010 && Number16(b, 0) == 0x494D && Number16(b, 2) == p.version && Number16(b, 4) == p.length
            && Number16(b, 10 + 2 * i) == p.data[i]
  {
    EncodeParts(p);
    PrefixBytes(p);
    DataBytes(Encode(p), p.data, i);
  }

  /** The checksum is the sum of those of the six bytes before it and of the data, with wrap-around. */
  lemma EncodedChecksum(p: Proto, head: seq<byte>, data: seq<byte>)
    requires Sized(p) && head == Encode(p)[..6] && data == Encode(p)[10..]
    ensures Number32(Encode(p), 6) == (Crc32.Crc(head) + Crc32.Crc(data)) % 0x1_0000_0000
  {
    EncodeParts(p);
    ChecksumBytes(p);
    SameChecksum(Prefix(p), LeBytes(p.data), head, data);
  }

  lemma SameChecksum(x: seq<byte>, d: seq<byte>, head: seq<byte>, data: seq<byte>)
    requires x == head && d == data
    ensures Checksum(x, d) == (Crc32.Crc(head) + Crc32.Crc(data)) % 0x1_0000_0000
  {
  }

  lemma DataBytes(b: seq<byte>, data: seq<u16>, i: nat)
    requires |b| == 3010 && |data| == 1500 && b[10..] == LeBytes(data) && i < 1500
    ensures Number16(b, 10 + 2 * i) == data[i]
  {
    assert b[10..10 + 2 * |data|] == b[10..];
    WordInside(b, 10, data, i);
  }

  lemma PrefixBytes(p: Proto)
    requires Sized(p)
    ensures var b := Encode(p); Number16(b, 0) == 0x494D && Number16(b, 2) == p.version && Number16(b, 4) == p.length
  {
    var b := Encode(p);
    assert b[0..2] == Le16(PROTO_MAGIC) && b[2..4] == Le16(p.version) && b[4..6] == Le16(p.length);
    Le16Number(PROTO_MAGIC, b, 0);
    Le16Number(p.version, b, 2);
    Le16Number(p.length, b, 4);
  }

  lemma ChecksumBytes(p: Proto)
    requires Sized(p)
    ensures Number32(Encode(p), 6) == Checksum(Prefix(p), LeBytes(p.data))
  {
    var b, c := Encode(p), Checksum(Prefix(p), LeBytes(p.data));
    assert b[6..10] == Le32(c);
    Le32Number(c, b, 6);
  }

  /** A commit that meets no fault is acknowledged, and a load that can read flag and key finds it:
      its version, its length and its words below the length.  The key that held the last commit is
      left alone, if the flag could be read. */
  lemma CommitSucceeds(steps: seq<Step>, s: State, p: Proto, seen: bool)
    requires Runs(Init(), steps, s) && s.phase.Idle? && Sized(p)
    ensures WellFormed(s) && Enabled(s, Begin(p, seen))
    ensures var s1 := Apply(s, Begin(p, seen));
            && WellFormed(s1) && Enabled(s1, SetBlob(true, true))
            && var s2 := Apply(s1, SetBlob(true, true));
               && WellFormed(s2) && Enabled(s2, SetActive(true, true))
               && var s' := Apply(s2, SetActive(true, true));
                  && WellFormed(s') && s'.phase.Idle? && s'.attempts == s.attempts + [p] && s'.acked == |s'.attempts|
                  && Finds(Load(s', true, [true, true]), p)
                  && (seen && s.active.Some? ==> s'.keys[s.active.value] == s.keys[s.active.value])
  {
    RunKeepsInv(Init(), steps, s);
    var s1 := Apply(s, Begin(p, seen));
    StepKeepsInv(s, Begin(p, seen));
    var s2 := Apply(s1, SetBlob(true, true));
    StepKeepsInv(s1, SetBlob(true, true));
    StepKeepsInv(s2, SetActive(true, true));
  }

  predicate Finds(r: LoadResult, p: Proto)
    requires Sized(p)
  {
    && r.Loaded? && Sized(r.p) && r.p.version == p.version && r.p.length == p.length
    && forall i :: 0 <= i < PROTO_WORDS ==> r.p.data[i] == if i < p.length then p.data[i] else 0
  }
}
