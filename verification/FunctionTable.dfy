/**
  The legacy device-function table of src/ble_at/logic_handlers.rs: a packet of records, each
  starting with its own length, laid out in the holding registers from 2300 on as a count,
  record pointers, a terminal offset and the records' words; and the packet read back from there.
*/
module FunctionTable {
  import opened Options
  import opened Words
  import SC = SystemConfig
  import HR = HoldingRegisters

  const BASE := 2300
  const PXX_COUNT := 2048
  const MAX_REPLY := 254

  // ---- Records --------------------------------------------------------------------------------------

  datatype Scanned = Scanned(records: seq<seq<byte>>, pos: nat)

  /** The record at `pos`: as many bytes as its first byte says. */
  function Next(data: seq<byte>, pos: nat): (r: Option<seq<byte>>)
    ensures r.Some? ==> IsRecord(r.value) && pos + |r.value| <= |data| && r.value == data[pos..pos + |r.value|]
  {
    if pos >= |data| || data[pos] == 0 || pos + data[pos] > |data| then None else Some(data[pos..pos + data[pos]])
  }

  /** The first `n` records. */
  function Scan(data: seq<byte>, n: nat): Option<Scanned> {
    if n == 0 then Some(Scanned([], 2)) else
    var s := Scan(data, n - 1);
    if s.None? then None else
    var r := Next(data, s.value.pos);
    if r.None? then None else Some(Scanned(s.value.records + [r.value], s.value.pos + |r.value|))
  }

  predicate IsRecord(r: seq<byte>) { 0 < |r| < 256 && r[0] == |r| }

  function Concat(rs: seq<seq<byte>>): seq<byte> {
    if rs == [] then [] else Concat(rs[..|rs| - 1]) + rs[|rs| - 1]
  }

  /** The records are the bytes they were read from, one after the other. */
  lemma {:induction false} ScanIsBytes(data: seq<byte>, n: nat)
    requires |data| >= 2 && Scan(data, n).Some?
    ensures var s := Scan(data, n).value;
            && |s.records| == n && 2 <= s.pos <= |data| && data[2..s.pos] == Concat(s.records)
            && forall i :: 0 <= i < n ==> IsRecord(s.records[i])
  {
    if n > 0 {
      ScanIsBytes(data, n - 1);
      var before, s := Scan(data, n - 1).value, Scan(data, n).value;
      assert s.records[..n - 1] == before.records;
      assert data[2..before.pos] + data[before.pos..s.pos] == data[2..s.pos];
    }
  }

  lemma {:induction false} ScanFailsForGood(data: seq<byte>, i: nat, n: nat)
    requires i <= n && Scan(data, i).None?
    ensures Scan(data, n).None?
    decreases n
  {
    if i < n { ScanFailsForGood(data, i, n - 1); }
  }

  lemma {:induction false} ScanPrefix(data: seq<byte>, i: nat, n: nat)
    requires i <= n && |data| >= 2 && Scan(data, n).Some?
    ensures Scan(data, i).Some? && |Scan(data, n).value.records| == n
    ensures Scan(data, i).value.records == Scan(data, n).value.records[..i]
    decreases n
  {
    ScanIsBytes(data, n);
    if i < n {
      ScanPrefix(data, i, n - 1);
      assert Scan(data, n).value.records[..n - 1] == Scan(data, n - 1).value.records;
    }
  }

  /** Pairs of bytes as words, the last one padded with zero. */
  function RecordWords(r: seq<byte>): (ws: seq<int>)
    ensures |ws| == (|r| + 1) / 2
    ensures forall k :: 0 <= k < |ws| ==> ws[k] == Join16(r[2 * k], if 2 * k + 1 < |r| then r[2 * k + 1] else 0)
  {
    seq((|r| + 1) / 2, k requires 0 <= k < (|r| + 1) / 2 => Join16(r[2 * k], if 2 * k + 1 < |r| then r[2 * k + 1] else 0))
  }

  function Flat(rs: seq<seq<byte>>): seq<int> {
    if rs == [] then [] else Flat(rs[..|rs| - 1]) + RecordWords(rs[|rs| - 1])
  }

  function Pointers(rs: seq<seq<byte>>, start: nat): (ps: seq<int>)
    ensures |ps| == |rs|
  {
    if rs == [] then [] else Pointers(rs[..|rs| - 1], start) + [start + |Flat(rs[..|rs| - 1])|]
  }

  /** The words written from 2300 on. */
  function Table(rs: seq<seq<byte>>): seq<int> {
    [|rs|] + Pointers(rs, BASE + |rs| + 2) + [|rs| + 2 + |Flat(rs)|] + Flat(rs)
  }

  function Count(data: seq<byte>): nat
    requires |data| >= 2
  {
    Join16(data[0], data[1])
  }

  /** What a packet must be to be laid out. */
  predicate Parses(data: seq<byte>) {
    && |data| >= 2 && 0 < Count(data) <= 255
    && Scan(data, Count(data)).Some?
    && Count(data) + 2 + |Flat(Scan(data, Count(data)).value.records)| < 2048
  }

  // ---- Laying the table out -----------------------------------------------------------------------------

  method PushRecord(words: seq<int>, record: seq<byte>) returns (ok: bool, r: seq<int>)
    requires record != []
    ensures ok <==> |words| + (|record| + 1) / 2 <= PXX_COUNT
    ensures ok ==> r == words + RecordWords(record)
  {
    r := words;
    var k := 0;
    while 2 * k < |record|
      invariant k <= (|record| + 1) / 2
      invariant r == words + RecordWords(record)[..k]
      invariant k > 0 ==> |words| + k <= PXX_COUNT
    {
      if |r| >= PXX_COUNT { return false, r; }
      r := r + [Join16(record[2 * k], if 2 * k + 1 < |record| then record[2 * k + 1] else 0)];
      k := k + 1;
    }
    assert RecordWords(record)[..k] == RecordWords(record);
    ok := true;
  }

  lemma {:induction false} FlatGrows(rs: seq<seq<byte>>, i: nat)
    requires i <= |rs|
    ensures |Flat(rs[..i])| <= |Flat(rs)|
    ensures i < |rs| ==> |Flat(rs[..i])| + |RecordWords(rs[i])| <= |Flat(rs)|
  {
    if i < |rs| {
      var n := |rs| - 1;
      if i < n {
        FlatGrows(rs[..n], i);
        assert rs[..n][..i] == rs[..i];
      } else {
        assert rs[..i] == rs[..n];
      }
    } else {
      assert rs[..i] == rs;
    }
  }

  lemma {:induction false} PointersPrefix(rs: seq<seq<byte>>, i: nat, start: nat)
    requires i <= |rs|
    ensures Pointers(rs[..i], start) == Pointers(rs, start)[..i]
    ensures i < |rs| ==> Pointers(rs, start)[i] == start + |Flat(rs[..i])|
  {
    if i < |rs| {
      var n := |rs| - 1;
      if i < n {
        PointersPrefix(rs[..n], i, start);
        assert rs[..n][..i] == rs[..i];
      } else {
        assert rs[..i] == rs[..n];
      }
    } else {
      assert rs[..i] == rs;
    }
  }

  /** The header while record `i` is next: the pointers so far, then zeros. */
  function Header(rs: seq<seq<byte>>, count: nat): (h: seq<int>)
    requires |rs| <= count
    ensures |h| == count + 2
  {
    Padded(count, Pointers(rs, BASE + count + 2), count + 1 - |rs|)
  }

  function Padded(count: nat, p: seq<int>, n: nat): (h: seq<int>)
    ensures |h| == 1 + |p| + n
  {
    [count] + p + Zeros(n)
  }

  lemma GrowHeader(c: int, p: seq<int>, z: seq<int>, i: nat, x: int)
    requires z != [] && i == |p| + 1
    ensures ([c] + p + z)[i := x] == [c] + (p + [x]) + z[1..]
  {
  }

  lemma ZerosRest(n: nat, m: nat)
    requires n == m + 1
    ensures Zeros(n)[1..] == Zeros(m)
  {
  }

  lemma PointersNext(rs: seq<seq<byte>>, r: seq<byte>, start: nat)
    ensures Pointers(rs + [r], start) == Pointers(rs, start) + [start + |Flat(rs)|]
  {
    assert (rs + [r])[..|rs|] == rs;
  }

  lemma FlatNext(rs: seq<seq<byte>>, r: seq<byte>)
    ensures Flat(rs + [r]) == Flat(rs) + RecordWords(r)
  {
    assert (rs + [r])[..|rs|] == rs;
  }

  lemma PaddedNext(count: nat, p: seq<int>, n: nat, x: int)
    requires n > 0
    ensures Padded(count, p + [x], n - 1) == Padded(count, p, n)[|p| + 1 := x]
  {
    ZerosRest(n, n - 1);
    GrowHeader(count, p, Zeros(n), |p| + 1, x);
  }

  lemma HeaderNext(rs: seq<seq<byte>>, r: seq<byte>, count: nat)
    requires |rs| < count
    ensures Header(rs + [r], count) == Header(rs, count)[|rs| + 1 := BASE + count + 2 + |Flat(rs)|]
  {
    var start, n := BASE + count + 2, count + 1 - |rs|;
    var p, x := Pointers(rs, start), start + |Flat(rs)|;
    PointersNext(rs, r, start);
    PaddedNext(count, p, n, x);
  }

  lemma SetAndAppend(h: seq<int>, f: seq<int>, w: seq<int>, i: nat, x: int)
    requires i < |h|
    ensures (h + f)[i := x] + w == h[i := x] + (f + w)
  {
  }

  lemma RecordPlaced(records: seq<seq<byte>>, record: seq<byte>, count: nat)
    requires |records| < count
    ensures var all := Header(records, count) + Flat(records);
            all[|records| + 1 := BASE + |all|] + RecordWords(record)
            == Header(records + [record], count) + Flat(records + [record])
  {
    var h, f := Header(records, count), Flat(records);
    HeaderNext(records, record, count);
    FlatNext(records, record);
    SetAndAppend(h, f, RecordWords(record), |records| + 1, BASE + |h + f|);
  }

  lemma CloseHeader(c: int, p: seq<int>, f: seq<int>, i: nat, x: int)
    requires i == |p| + 1
    ensures ([c] + p + [0] + f)[i := x] == [c] + p + [x] + f
  {
  }

  lemma HeaderDone(rs: seq<seq<byte>>)
    ensures var all := Header(rs, |rs|) + Flat(rs);
            |all| == |rs| + 2 + |Flat(rs)| && all[|rs| + 1 := |all|] == Table(rs)
  {
    assert Zeros(1) == [0];
    CloseHeader(|rs|, Pointers(rs, BASE + |rs| + 2), Flat(rs), |rs| + 1, |rs| + 2 + |Flat(rs)|);
  }

  /** One round of the loop: a record behind the words so far. */
  method PlaceRecord(record: seq<byte>, count: nat, index: nat, all: seq<int>, ghost records: seq<seq<byte>>)
    returns (ok: bool, r: seq<int>)
    requires |records| == index < count && all == Header(records, count) + Flat(records) && record != []
    ensures ok <==> |all| + |RecordWords(record)| <= PXX_COUNT
    ensures ok ==> r == Header(records + [record], count) + Flat(records + [record])
    ensures ok ==> |r| == |all| + |RecordWords(record)|
  {
    if |all| >= PXX_COUNT { return false, all; }
    RecordPlaced(records, record, count);
    ok, r := PushRecord(all[index + 1 := BASE + |all|], record);
  }

  /** The header and the records' words; nothing when a record is cut short or the words do not fit. */
  method PlaceRecords(data: seq<byte>, count: nat) returns (ok: bool, all: seq<int>, ghost records: seq<seq<byte>>)
    requires |data| >= 2 && count + 2 < PXX_COUNT
    ensures ok ==> Scan(data, count).Some? && records == Scan(data, count).value.records && |records| == count
    ensures ok ==> all == Header(records, count) + Flat(records) && |all| <= PXX_COUNT
    ensures !ok ==> TooMuch(data, count)
  {
    all := Header([], count);
    var pos: nat := 2;
    records := [];
    ok := true;
    for index := 0 to count
      invariant ok && Scan(data, index) == Some(Scanned(records, pos)) && |records| == index
      invariant all == Header(records, count) + Flat(records) && |all| <= PXX_COUNT
    {
      var next := Next(data, pos);
      if next.None? {
        ScanFailsForGood(data, index + 1, count);
        ok := false;
        return;
      }
      ok, all := PlaceRecord(next.value, count, index, all, records);
      if !ok {
        TooLong(data, index, count, records, next.value);
        return;
      }
      pos := pos + |next.value|;
      records := Scan(data, index + 1).value.records;
    }
  }

  /** The packet is cut short, or its records do not fit behind the header. */
  predicate TooMuch(data: seq<byte>, count: nat) {
    Scan(data, count).Some? ==> count + 2 + |Flat(Scan(data, count).value.records)| > PXX_COUNT
  }

  /** The store up to the register write: the words of the table, or nothing when the packet
      does not parse or does not fit. */
  method BuildTable(data: seq<byte>) returns (words: Option<seq<int>>)
    ensures words.Some? <==> Parses(data)
    ensures words.Some? ==> words.value == Table(Scan(data, Count(data)).value.records)
  {
    if |data| < 2 { return None; }
    var count := Join16(data[0], data[1]);
    if count == 0 || count > 255 { return None; }
    var ok, all;
    ghost var records;
    ok, all, records := PlaceRecords(data, count);
    if !ok || |all| >= PXX_COUNT { return None; }
    HeaderDone(records);
    words := Some(all[count + 1 := |all|]);
  }

  lemma TooLong(data: seq<byte>, i: nat, n: nat, records: seq<seq<byte>>, record: seq<byte>)
    requires i < n && |data| >= 2 && |records| == i && Scan(data, i + 1).Some?
    requires Scan(data, i + 1).value.records == records + [record]
    requires n + 2 + |Flat(records)| + |RecordWords(record)| > PXX_COUNT
    ensures TooMuch(data, n)
  {
    if Scan(data, n).Some? {
      var rs := Scan(data, n).value.records;
      ScanPrefix(data, i + 1, n);
      FlatGrows(rs, i);
      assert rs[..i + 1] == records + [record];
      assert rs[..i] == (records + [record])[..i] == records && rs[i] == (records + [record])[i];
    }
  }

  // ---- Reading it back ---------------------------------------------------------------------------------

  /** What the registers answer; nothing outside the map. */
  type Registers = map<nat, u16>

  /** `len` bytes from the words at `pointer` on. */
  function BytesAt(regs: Registers, pointer: nat, len: nat): Option<seq<byte>> {
    if len == 0 then Some([]) else
    var rest := BytesAt(regs, pointer, len - 1);
    var k := len - 1;
    if rest.None? || pointer + k / 2 !in regs then None
    else Some(rest.value + [if k % 2 == 0 then Lo(regs[pointer + k / 2]) else Hi(regs[pointer + k / 2])])
  }

  function Reply(regs: Registers, count: nat, n: nat): Option<seq<byte>> {
    if n == 0 then Some([count % 256, count / 256 % 256]) else
    var out := Reply(regs, count, n - 1);
    if out.None? || BASE + n !in regs || regs[BASE + n] !in regs then None else
    var pointer := regs[BASE + n];
    var len := Lo(regs[pointer]);
    if len == 0 || |out.value| + len > MAX_REPLY then None else
    var bytes := BytesAt(regs, pointer, len);
    if bytes.None? then None else Some(out.value + bytes.value)
  }

  function Loaded(regs: Registers): Option<seq<byte>> {
    if BASE !in regs || regs[BASE] == 0 || regs[BASE] > 255 then None else Reply(regs, regs[BASE], regs[BASE])
  }

  lemma {:induction false} ReplyFailsForGood(regs: Registers, count: nat, i: nat, n: nat)
    requires i <= n && Reply(regs, count, i).None?
    ensures Reply(regs, count, n).None?
    decreases n
  {
    if i < n { ReplyFailsForGood(regs, count, i, n - 1); }
  }

  lemma {:induction false} BytesFailForGood(regs: Registers, pointer: nat, i: nat, n: nat)
    requires i <= n && BytesAt(regs, pointer, i).None?
    ensures BytesAt(regs, pointer, n).None?
    decreases n
  {
    if i < n { BytesFailForGood(regs, pointer, i, n - 1); }
  }

  method PushBytes(regs: Registers, pointer: nat, len: nat) returns (out: Option<seq<byte>>)
    ensures out == BytesAt(regs, pointer, len)
  {
    var bytes: seq<byte> := [];
    for k := 0 to len
      invariant BytesAt(regs, pointer, k) == Some(bytes)
    {
      if pointer + k / 2 !in regs {
        BytesFailForGood(regs, pointer, k + 1, len);
        return None;
      }
      var word := regs[pointer + k / 2];
      bytes := bytes + [if k % 2 == 0 then Lo(word) else Hi(word)];
    }
    out := Some(bytes);
  }

  method AppendRecord(regs: Registers, count: nat, index: nat, reply: seq<byte>) returns (out: Option<seq<byte>>)
    requires Reply(regs, count, index) == Some(reply)
    ensures out == Reply(regs, count, index + 1)
  {
    if BASE + 1 + index !in regs || regs[BASE + 1 + index] !in regs { return None; }
    var pointer := regs[BASE + 1 + index];
    var len := Lo(regs[pointer]);
    if len == 0 || |reply| + len > MAX_REPLY { return None; }
    var bytes := PushBytes(regs, pointer, len);
    out := if bytes.None? then None else Some(reply + bytes.value);
  }

  method LoadTable(regs: Registers) returns (out: Option<seq<byte>>)
    ensures out == Loaded(regs)
  {
    if BASE !in regs || regs[BASE] == 0 || regs[BASE] > 255 { return None; }
    var count := regs[BASE];
    out := Some([count % 256, count / 256 % 256]);
    for index := 0 to count
      invariant out.Some? && Reply(regs, count, index) == out
    {
      out := AppendRecord(regs, count, index, out.value);
      if out.None? {
        ReplyFailsForGood(regs, count, index + 1, count);
        return;
      }
    }
  }

  // ---- The words of the table ---------------------------------------------------------------------------

  /** The words the records before the `i`-th take: two bytes each, the last one padded. */
  function WordsBefore(rs: seq<seq<byte>>, i: nat): nat
    requires i <= |rs|
  {
    if i == 0 then 0 else WordsBefore(rs, i - 1) + (|rs[i - 1]| + 1) / 2
  }

  lemma {:induction false} FlatSize(rs: seq<seq<byte>>, i: nat)
    requires i <= |rs|
    ensures |Flat(rs[..i])| == WordsBefore(rs, i)
  {
    if i > 0 {
      FlatSize(rs, i - 1);
      assert rs[..i][..i - 1] == rs[..i - 1];
    }
  }

  /** The count first, one address in the registers for each record, then the length of the table. */
  lemma TableHead(rs: seq<seq<byte>>, i: nat)
    requires i < |rs|
    ensures var t, n := Table(rs), |rs|;
            && |t| == n + 2 + WordsBefore(rs, n) && t[0] == n && t[n + 1] == |t|
            && t[1 + i] == 2300 + n + 2 + WordsBefore(rs, i)
  {
    var n := |rs|;
    assert rs[..n] == rs;
    FlatSize(rs, n);
    FlatSize(rs, i);
    PointersPrefix(rs, i, BASE + n + 2);
    assert Table(rs)[1 + i] == Pointers(rs, BASE + n + 2)[i];
  }

  /** At each address stand the record's bytes, two to a word, low byte first. */
  lemma TableBody(rs: seq<seq<byte>>, i: nat, k: nat)
    requires i < |rs| && 2 * k < |rs[i]|
    ensures var t, at := Table(rs), |rs| + 2 + WordsBefore(rs, i) + k;
            at < |t| && t[at] == rs[i][2 * k] as int + if 2 * k + 1 < |rs[i]| then 256 * (rs[i][2 * k + 1] as int) else 0
  {
    FlatSize(rs, i);
    FlatAt(rs, i, k);
    assert Table(rs)[|rs| + 2 + (|Flat(rs[..i])| + k)] == Flat(rs)[|Flat(rs[..i])| + k];
  }

  // ---- The round trip ------------------------------------------------------------------------------------

  /** The registers hold the table from 2300 on. */
  predicate Holds(regs: Registers, rs: seq<seq<byte>>) {
    forall i :: 0 <= i < |Table(rs)| ==> BASE + i in regs && regs[BASE + i] == Table(rs)[i]
  }

  lemma {:induction false} FlatAt(rs: seq<seq<byte>>, i: nat, k: nat)
    requires i < |rs| && k < |RecordWords(rs[i])|
    ensures |Flat(rs[..i])| + k < |Flat(rs)| && Flat(rs)[|Flat(rs[..i])| + k] == RecordWords(rs[i])[k]
  {
    var n := |rs| - 1;
    if i < n {
      FlatAt(rs[..n], i, k);
      assert rs[..n][..i] == rs[..i];
    } else {
      assert rs[..i] == rs[..n];
    }
  }

  lemma PointerAt(regs: Registers, rs: seq<seq<byte>>, i: nat)
    requires Holds(regs, rs) && i < |rs|
    ensures BASE + 1 + i in regs && regs[BASE + 1 + i] == BASE + |rs| + 2 + |Flat(rs[..i])|
  {
    PointersPrefix(rs, i, BASE + |rs| + 2);
    assert Table(rs)[1 + i] == Pointers(rs, BASE + |rs| + 2)[i];
    assert BASE + (1 + i) in regs;
  }

  lemma WordAt(regs: Registers, rs: seq<seq<byte>>, i: nat, k: nat)
    requires Holds(regs, rs) && i < |rs| && k < |RecordWords(rs[i])|
    ensures var a := BASE + |rs| + 2 + |Flat(rs[..i])| + k;
            a in regs && regs[a] == RecordWords(rs[i])[k]
  {
    FlatAt(rs, i, k);
    var at := |rs| + 2 + (|Flat(rs[..i])| + k);
    assert Table(rs)[at] == Flat(rs)[|Flat(rs[..i])| + k];
    assert BASE + at in regs;
  }

  lemma SplitOfJoin(lo: byte, hi: byte)
    ensures Lo(Join16(lo, hi)) == lo && Hi(Join16(lo, hi)) == hi
    ensures Join16(lo, hi) % 256 == lo && Join16(lo, hi) / 256 % 256 == hi
  {
  }

  lemma ByteOfWord(r: seq<byte>, k: nat)
    requires k < |r|
    ensures r[k] == var w: u16 := RecordWords(r)[k / 2]; if k % 2 == 0 then Lo(w) else Hi(w)
  {
    var j := k / 2;
    SplitOfJoin(r[2 * j], if 2 * j + 1 < |r| then r[2 * j + 1] else 0);
  }

  lemma {:induction false} BytesOfRecord(regs: Registers, rs: seq<seq<byte>>, i: nat, len: nat)
    requires Holds(regs, rs) && i < |rs| && len <= |rs[i]|
    ensures BytesAt(regs, BASE + |rs| + 2 + |Flat(rs[..i])|, len) == Some(rs[i][..len])
  {
    if len > 0 {
      BytesOfRecord(regs, rs, i, len - 1);
      WordAt(regs, rs, i, (len - 1) / 2);
      ByteOfWord(rs[i], len - 1);
      assert rs[i][..len] == rs[i][..len - 1] + [rs[i][len - 1]];
    }
  }

  lemma {:induction false} ConcatGrows(rs: seq<seq<byte>>, i: nat)
    requires i <= |rs|
    ensures |Concat(rs[..i])| <= |Concat(rs)|
  {
    if i < |rs| {
      ConcatGrows(rs[..|rs| - 1], i);
      assert rs[..|rs| - 1][..i] == rs[..i];
    } else {
      assert rs[..i] == rs;
    }
  }

  /** Following pointer `i` finds record `i`, and its first byte is its length. */
  lemma RecordAt(regs: Registers, rs: seq<seq<byte>>, i: nat)
    requires Holds(regs, rs) && i < |rs| && IsRecord(rs[i])
    ensures BASE + 1 + i in regs
    ensures var pointer := regs[BASE + 1 + i];
            pointer in regs && Lo(regs[pointer]) == |rs[i]| && BytesAt(regs, pointer, |rs[i]|) == Some(rs[i])
  {
    PointerAt(regs, rs, i);
    WordAt(regs, rs, i, 0);
    BytesOfRecord(regs, rs, i, |rs[i]|);
    assert rs[i][..|rs[i]|] == rs[i];
    assert Lo(RecordWords(rs[i])[0]) == rs[i][0];
  }

  lemma ReplyNext(regs: Registers, count: nat, n: nat, out: seq<byte>, r: seq<byte>)
    requires Reply(regs, count, n) == Some(out) && BASE + 1 + n in regs && regs[BASE + 1 + n] in regs && r != []
    requires Lo(regs[regs[BASE + 1 + n]]) == |r| && BytesAt(regs, regs[BASE + 1 + n], |r|) == Some(r)
    ensures Reply(regs, count, n + 1) == if |out| + |r| > MAX_REPLY then None else Some(out + r)
  {
  }

  function Reply0(count: nat): (s: seq<byte>)
    ensures |s| == 2
  {
    [count % 256, count / 256 % 256]
  }

  lemma ReplyOfNone(regs: Registers, count: nat)
    ensures Reply(regs, count, 0) == Some(Reply0(count))
  {
  }

  lemma {:induction false} ReplyOfTable(regs: Registers, rs: seq<seq<byte>>, n: nat)
    requires Holds(regs, rs) && n <= |rs| && forall i :: 0 <= i < |rs| ==> IsRecord(rs[i])
    ensures Reply(regs, |rs|, n) ==
              if 2 + |Concat(rs[..n])| <= MAX_REPLY || n == 0 then Some(Reply0(|rs|) + Concat(rs[..n])) else None
  {
    if n == 0 {
      ReplyOfNone(regs, |rs|);
      assert Reply0(|rs|) + Concat(rs[..0]) == Reply0(|rs|);
    } else {
      var i := n - 1;
      ReplyOfTable(regs, rs, i);
      assert rs[..n][..i] == rs[..i];
      var out := Reply0(|rs|) + Concat(rs[..i]);
      if Reply(regs, |rs|, i).Some? {
        RecordAt(regs, rs, i);
        ReplyNext(regs, |rs|, i, out, rs[i]);
        assert out + rs[i] == Reply0(|rs|) + Concat(rs[..n]);
      }
    }
  }

  lemma LoadedOfTable(regs: Registers, rs: seq<seq<byte>>)
    requires Holds(regs, rs) && 0 < |rs| <= 255 && forall i :: 0 <= i < |rs| ==> IsRecord(rs[i])
    ensures Loaded(regs) == if 2 + |Concat(rs)| <= MAX_REPLY then Some(Reply0(|rs|) + Concat(rs)) else None
  {
    assert Table(rs)[0] == |rs| && BASE + 0 in regs;
    assert rs[..|rs|] == rs;
    ReplyOfTable(regs, rs, |rs|);
  }

  /** A table in the registers loads as exactly the bytes the store consumed, when those are at
      most 254, and does not load otherwise: for any number of records, of odd or even length. */
  lemma LoadsWhatWasConsumed(data: seq<byte>, regs: Registers)
    requires Parses(data) && Holds(regs, Scan(data, Count(data)).value.records)
    ensures var consumed := Scan(data, Count(data)).value.pos;
            && 2 <= consumed <= |data|
            && Loaded(regs) == if consumed <= 254 then Some(data[..consumed]) else None
  {
    var s := Scan(data, Count(data)).value;
    ScanIsBytes(data, Count(data));
    LoadedOfTable(regs, s.records);
    HeadAndRest(data, s.pos);
  }

  lemma HeadAndRest(data: seq<byte>, n: nat)
    requires 2 <= n <= |data|
    ensures data[..n] == Reply0(Count(data)) + data[2..n]
  {
    SplitOfJoin(data[0], data[1]);
    assert Reply0(Count(data)) == [data[0], data[1]];
  }

  // ---- Through the holding registers ---------------------------------------------------------------------

  predicate AreWords(ws: seq<int>) { forall i :: 0 <= i < |ws| ==> 0 <= ws[i] < 0x1_0000 }

  lemma {:induction false} FlatAreWords(rs: seq<seq<byte>>)
    ensures AreWords(Flat(rs))
  {
    if rs != [] { FlatAreWords(rs[..|rs| - 1]); }
  }

  lemma {:induction false} PointersAreWords(rs: seq<seq<byte>>, start: nat)
    requires start + |Flat(rs)| < 0x1_0000
    ensures AreWords(Pointers(rs, start))
  {
    if rs != [] { PointersAreWords(rs[..|rs| - 1], start); }
  }

  lemma {:induction false} RecordsAreShort(rs: seq<seq<byte>>)
    requires forall i :: 0 <= i < |rs| ==> IsRecord(rs[i])
    ensures |rs| <= |Concat(rs)| && |Flat(rs)| <= |Concat(rs)|
  {
    if rs != [] { RecordsAreShort(rs[..|rs| - 1]); }
  }

  lemma TableIsWords(rs: seq<seq<byte>>)
    requires (forall i :: 0 <= i < |rs| ==> IsRecord(rs[i])) && 2 + |Concat(rs)| <= MAX_REPLY
    ensures AreWords(Table(rs)) && |Table(rs)| <= 506
  {
    RecordsAreShort(rs);
    FlatAreWords(rs);
    PointersAreWords(rs, BASE + |rs| + 2);
  }

  function AsWords(ws: seq<int>): (r: seq<u16>)
    requires AreWords(ws)
    ensures |r| == |ws| && forall i :: 0 <= i < |ws| ==> r[i] == ws[i]
  {
    seq(|ws|, i requires 0 <= i < |ws| => ws[i])
  }

  lemma {:induction false} RawBatchAccepted(b: HR.Batch, values: seq<u16>)
    requires HR.BatchShaped(b) && |values| <= HR.CFG_END + 1 - BASE
    ensures HR.AllAccepted(BASE, values)
    ensures HR.PutAll(b, BASE, values).configChanged == b.configChanged
  {
    if values != [] { RawBatchAccepted(b, values[..|values| - 1]); }
  }

  /** The words from 2300 on as a later read finds them, where no runtime result lies over them. */
  function View(s: HR.State): Registers
    requires HR.Shaped(s)
  {
    map a: nat | BASE <= a <= HR.CFG_END :: HR.Stored(s.cfg, s.holding, a)
  }

  lemma WrittenTableHolds(s: HR.State, rs: seq<seq<byte>>)
    requires HR.Shaped(s) && AreWords(Table(rs)) && |Table(rs)| <= HR.PROTECT - BASE
    ensures HR.WriteBatch(s, BASE, AsWords(Table(rs))).Some?
    ensures var s' := HR.WriteBatch(s, BASE, AsWords(Table(rs))).value; HR.Shaped(s') && Holds(View(s'), rs)
  {
    var words := AsWords(Table(rs));
    RawBatchAccepted(HR.Clone(s), words);
    var s' := HR.WriteBatch(s, BASE, words).value;
    HR.BatchReadsBack(s, BASE, words, BASE);
    forall i | 0 <= i < |Table(rs)| ensures BASE + i in View(s') && View(s')[BASE + i] == Table(rs)[i] {
      HR.BatchReadsBack(s, BASE, words, BASE + i);
    }
  }

  /** Records that one reply can carry. */
  predicate FitReply(rs: seq<seq<byte>>) {
    0 < |rs| <= 255 && (forall i :: 0 <= i < |rs| ==> IsRecord(rs[i])) && 2 + |Concat(rs)| <= MAX_REPLY
  }

  /** The words a packet is laid out in. */
  function TableWords(rs: seq<seq<byte>>): (ws: seq<u16>)
    requires FitReply(rs)
  {
    TableIsWords(rs);
    AsWords(Table(rs))
  }

  lemma WrittenTableLoads(s: HR.State, rs: seq<seq<byte>>)
    requires HR.Shaped(s) && FitReply(rs)
    ensures var written := HR.WriteBatch(s, BASE, TableWords(rs));
            written.Some? && HR.Shaped(written.value) && Loaded(View(written.value)) == Some(Reply0(|rs|) + Concat(rs))
  {
    TableIsWords(rs);
    WrittenTableHolds(s, rs);
    LoadedOfTable(View(HR.WriteBatch(s, BASE, TableWords(rs)).value), rs);
  }

  /** Store and load: with the gate armed, the packet is taken by the register write, and what
      it consumed comes back from the registers. */
  lemma StoreThenLoad(s: HR.State, data: seq<byte>)
    requires HR.Shaped(s) && Parses(data) && Scan(data, Count(data)).value.pos <= 254
    ensures var v := Scan(data, Count(data)).value;
            && FitReply(v.records) && 2 <= v.pos <= |data|
            && var written := HR.WriteBatch(s.(armed := true), BASE, TableWords(v.records));
               written.Some? && HR.Shaped(written.value) && Loaded(View(written.value)) == Some(data[..v.pos])
  {
    var v := Scan(data, Count(data)).value;
    ScanIsBytes(data, Count(data));
    WrittenTableLoads(s.(armed := true), v.records);
    HeadAndRest(data, v.pos);
  }

  /** The words of any packet that parses. */
  lemma ParsedTableIsWords(data: seq<byte>)
    requires Parses(data)
    ensures var rs := Scan(data, Count(data)).value.records;
            && |rs| == Count(data) && |Table(rs)| == Count(data) + 2 + |Flat(rs)| && AreWords(Table(rs))
  {
    ScanIsBytes(data, Count(data));
    ShortTableIsWords(Scan(data, Count(data)).value.records);
  }

  lemma ShortTableIsWords(rs: seq<seq<byte>>)
    requires |rs| + 2 + |Flat(rs)| < 2048 && forall i :: 0 <= i < |rs| ==> IsRecord(rs[i])
    ensures |Table(rs)| == |rs| + 2 + |Flat(rs)| && AreWords(Table(rs))
  {
    FlatAreWords(rs);
    PointersAreWords(rs, BASE + |rs| + 2);
  }

  /** Of the packets that parse, the register write takes exactly those whose table ends by the
      last word of the window. */
  lemma StoreAcceptsExactly(s: HR.State, data: seq<byte>)
    requires HR.Shaped(s) && Parses(data)
    ensures var ws := Table(Scan(data, Count(data)).value.records);
            && AreWords(ws)
            && (HR.WriteBatch(s.(armed := true), BASE, AsWords(ws)).Some? <==> BASE + |ws| <= HR.CFG_END + 1)
  {
    ParsedTableIsWords(data);
    var words := AsWords(Table(Scan(data, Count(data)).value.records));
    var armed := s.(armed := true);
    if BASE + |words| <= HR.CFG_END + 1 {
      RawBatchAccepted(HR.Clone(armed), words);
    } else if HR.AllAccepted(BASE, words) {
      HR.AcceptedAt(BASE, words, HR.CFG_END + 1 - BASE);
      assert false;
    }
  }

  /** A stored table below the protect word loads as what the store consumed when that is at most
      254 bytes, and a longer one never loads. */
  lemma StoredTableLoadsExactly(s: HR.State, data: seq<byte>)
    requires HR.Shaped(s) && Parses(data) && BASE + |Table(Scan(data, Count(data)).value.records)| <= HR.PROTECT
    ensures var v := Scan(data, Count(data)).value;
            && 2 <= v.pos <= |data| && AreWords(Table(v.records))
            && var written := HR.WriteBatch(s.(armed := true), BASE, AsWords(Table(v.records)));
               && written.Some? && HR.Shaped(written.value)
               && Loaded(View(written.value)) == if v.pos <= 254 then Some(data[..v.pos]) else None
  {
    var v := Scan(data, Count(data)).value;
    ParsedTableIsWords(data);
    WrittenTableHolds(s.(armed := true), v.records);
    LoadsWhatWasConsumed(data, View(HR.WriteBatch(s.(armed := true), BASE, AsWords(Table(v.records))).value));
  }
}
