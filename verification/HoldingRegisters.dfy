/**
  Writing holding registers (src/bus/backends.rs): the batch write of the PReg and text
  windows, which works on clones of the configuration and of the storage and publishes them
  at the end, and the single-word write of the PReg window beside it.

  Result words that the running device lays over the stored ones (analog results from 4000
  on, RS485 result mirrors, the RS485 counters at 0x0880 to 0x0885) are not stored words.
*/
module HoldingRegisters {
  import opened Options
  import opened Words
  import SC = SystemConfig

  const CFG_BASE := 0x0880
  const CFG_END := 4223
  const DEVICE_CONFIG := 2300
  const PROTECT := 4222
  const MAGIC := 0x55AA
  const NAME_BASE := 2274
  const TEXT_BASE := 5000
  const TEXT_END := 6999
  const HOLDING_WORDS := 2048
  const TEXT_WORDS := 2000

  datatype Outcome = Refused | Accepted | WordByWord

  /** What the device has published, and the marks it has set for the savers and tasks. */
  datatype State = State(
    cfg: SC.Config, holding: seq<u16>, text: seq<u16>, armed: bool,
    configDirty: bool, holdingDirty: bool, textDirty: bool,
    reconfigure: bool, tableChanged: bool, nameChanged: bool)

  predicate Shaped(s: State) {
    SC.Shaped(s.cfg) && |s.holding| == HOLDING_WORDS && |s.text| == TEXT_WORDS
  }

  predicate InWindow(a: int) { CFG_BASE <= a <= CFG_END }

  predicate InText(a: int) { TEXT_BASE <= a <= TEXT_END }

  predicate IsWritable(a: int) {
    0 <= a < 300 || InText(a) || InWindow(a) || 0x9C41 <= a <= 0x9D6C
    || 0x4000 <= a < 0x4000 + 1500 || 0x4000 + 1500 <= a <= 0x4000 + 1503
  }

  /** The control words, the PReg and text windows, the 4xxxx aliases and the protocol area. */
  lemma WritableAddresses(a: nat)
    ensures IsWritable(a) <==> a <= 299 || 2176 <= a <= 4223 || 5000 <= a <= 6999 || 16384 <= a <= 17887 || 40001 <= a <= 40300
  {
  }

  function Index(a: int): nat
    requires InWindow(a)
  {
    a - CFG_BASE
  }

  /** A word kept in the raw buffer rather than in the configuration. */
  predicate IsRaw(a: u16) {
    a >= DEVICE_CONFIG || SC.Locate(a).NoReg? || SC.Locate(a).ErrorCount?
  }

  predicate IsMulticast(a: int) { 2190 <= a <= 2194 }

  predicate IsName(a: int) { NAME_BASE <= a < NAME_BASE + 4 }

  // ---- What a stored word reads as ---------------------------------------------------------------

  /** Words the device answers from what it has stored. */
  predicate Ordinary(a: int) { InWindow(a) && !(CFG_BASE <= a < CFG_BASE + 6) && a != PROTECT }

  function Stored(cfg: SC.Config, holding: seq<u16>, a: u16): u16
    requires SC.Shaped(cfg) && |holding| == HOLDING_WORDS && InWindow(a)
  {
    var v := SC.Read(cfg, a);
    if v.Some? then v.value else holding[Index(a)]
  }

  function CanonicalWord(a: u16, value: u16): u16 { if IsRaw(a) then value else SC.Canonical(a, value) }

  // ---- The batch on its clones ---------------------------------------------------------------------

  datatype Batch = Batch(
    cfg: SC.Config, holding: seq<u16>,
    configChanged: bool, persist: bool, apply: bool,
    holdingChanged: bool, logicChanged: bool, multicastChanged: bool,
    protectTouched: bool, logicCommit: bool, nameChanged: bool)

  predicate BatchShaped(b: Batch) { SC.Shaped(b.cfg) && |b.holding| == HOLDING_WORDS }

  function Clone(s: State): Batch {
    Batch(s.cfg, s.holding, false, false, false, false, false, false, false, s.armed, false)
  }

  predicate AcceptsWord(a: u16, value: u16) { a >= DEVICE_CONFIG || SC.Accepts(SC.Locate(a), value) }

  /** One word onto the clones; `cfg` and `result` are what the configuration makes of it. */
  function PutClassified(b: Batch, a: u16, value: u16, raw: bool, cfg: SC.Config, result: SC.WriteResult): (r: Batch)
    requires BatchShaped(b) && InWindow(a)
    ensures |r.holding| == HOLDING_WORDS && (r.cfg == cfg || r.cfg == b.cfg)
  {
    if a == PROTECT then
      b.(holding := b.holding[Index(a) := value], logicCommit := value == MAGIC, holdingChanged := true, protectTouched := true)
    else if raw then
      b.(holding := b.holding[Index(a) := value], holdingChanged := true,
         multicastChanged := b.multicastChanged || IsMulticast(a), logicChanged := b.logicChanged || a >= DEVICE_CONFIG)
    else
      b.(cfg := cfg, configChanged := true,
         persist := b.persist || result == SC.Persist || result == SC.Apply, apply := b.apply || result == SC.Apply,
         nameChanged := b.nameChanged || IsName(a))
  }

  lemma WriteKeepsShape(c: SC.Config, a: u16, value: u16)
    requires SC.Shaped(c)
    ensures SC.Shaped(SC.Write(c, a, value).0)
  {
  }

  function PutWord(b: Batch, a: u16, value: u16): (r: Batch)
    requires BatchShaped(b) && InWindow(a)
    ensures BatchShaped(r)
  {
    WriteKeepsShape(b.cfg, a, value);
    var w := SC.Write(b.cfg, a, value);
    PutClassified(b, a, value, IsRaw(a), w.0, w.1)
  }

  predicate AllAccepted(a: u16, values: seq<u16>) {
    values == [] ||
    var n := |values| - 1;
    a + n < 0x1_0000 && AllAccepted(a, values[..n]) && InWindow(a + n) && AcceptsWord(a + n, values[n])
  }

  lemma {:induction false} AcceptedAt(a: u16, values: seq<u16>, k: nat)
    requires AllAccepted(a, values) && k < |values|
    ensures a + k < 0x1_0000 && InWindow(a + k) && AcceptsWord(a + k, values[k])
  {
    if k < |values| - 1 { AcceptedAt(a, values[..|values| - 1], k); }
  }

  function PutAll(b: Batch, a: u16, values: seq<u16>): (r: Batch)
    requires BatchShaped(b) && AllAccepted(a, values)
    ensures BatchShaped(r)
  {
    if values == [] then b else
    var n := |values| - 1;
    PutWord(PutAll(b, a, values[..n]), a + n, values[n])
  }

  function NameWords(cfg: SC.Config): (ws: seq<u16>)
    requires SC.Shaped(cfg)
    ensures |ws| == 4
  {
    [SC.PairAt(cfg.bleName, 0), SC.PairAt(cfg.bleName, 1), SC.PairAt(cfg.bleName, 2), SC.PairAt(cfg.bleName, 3)]
  }

  function Mirror(holding: seq<u16>, cfg: SC.Config): (h: seq<u16>)
    requires |holding| == HOLDING_WORDS && SC.Shaped(cfg)
    ensures |h| == HOLDING_WORDS
  {
    holding[..Index(NAME_BASE)] + NameWords(cfg) + holding[Index(NAME_BASE) + 4..]
  }

  predicate Commits(b: Batch) { b.logicCommit && b.logicChanged }

  function Named(b: Batch): (h: seq<u16>)
    requires BatchShaped(b)
    ensures |h| == HOLDING_WORDS
  {
    if b.nameChanged then Mirror(b.holding, b.cfg) else b.holding
  }

  function FinalConfig(b: Batch): SC.Config {
    if b.apply then b.cfg.(cfgVersion := (b.cfg.cfgVersion + 1) % 0x1_0000) else b.cfg
  }

  function HoldingPublished(s: State, b: Batch, named: seq<u16>): State
    requires |named| == HOLDING_WORDS
  {
    s.(holding := if Commits(b) then named[Index(PROTECT) := 0] else named,
       armed := if Commits(b) then false else if b.protectTouched then b.logicCommit else s.armed,
       holdingDirty := s.holdingDirty || Commits(b) || b.multicastChanged,
       tableChanged := s.tableChanged || b.logicChanged)
  }

  function Publish(s: State, b: Batch): State
    requires BatchShaped(b)
  {
    var s' := HoldingPublished(s.(cfg := FinalConfig(b)), b, Named(b));
    s'.(configDirty := s.configDirty || b.persist, reconfigure := s.reconfigure || b.apply,
        holdingDirty := s'.holdingDirty || b.nameChanged, nameChanged := s.nameChanged || b.nameChanged)
  }

  /** The values are taken, and the ports they leave behind may be listened on. */
  predicate Admitted(s: State, a: u16, values: seq<u16>)
    requires Shaped(s)
  {
    && AllAccepted(a, values)
    && var b := PutAll(Clone(s), a, values);
       b.configChanged ==> SC.ValidTcpPorts(b.cfg.tcpPorts)
  }

  function WriteText(s: State, a: u16, values: seq<u16>): State
    requires Shaped(s) && InText(a) && a + |values| <= TEXT_END + 1
  {
    var i := a - TEXT_BASE;
    s.(text := s.text[..i] + values + s.text[i + |values|..],
       armed := false,
       holding := if s.armed then s.holding[Index(PROTECT) := 0] else s.holding,
       textDirty := true)
  }

  // ---- The loops of the source ----------------------------------------------------------------------

  class Bus {
    var s: State

    constructor (initial: State)
      ensures s == initial
    {
      s := initial;
    }

    method AllWritable(addr: u16, values: seq<u16>) returns (ok: bool)
      ensures ok <==> forall t :: addr <= t < addr + |values| ==> IsWritable(t)
    {
      for k := 0 to |values|
        invariant forall t :: addr <= t < addr + k ==> IsWritable(t)
      {
        if !IsWritable(addr + k) { return false; }
      }
      ok := true;
    }

    method PutKnown(b: Batch, target: u16, value: u16, cfg: SC.Config, result: SC.WriteResult) returns (r: Batch)
      requires BatchShaped(b) && InWindow(target)
      requires target != PROTECT ==> result == SC.NotFound || result == SC.Persist || result == SC.Apply
      ensures r == PutClassified(b, target, value, result == SC.NotFound, cfg, result)
    {
      r := b;
      if target == PROTECT {
        r := r.(holding := r.holding[target - CFG_BASE := value], logicCommit := value == MAGIC,
                holdingChanged := true, protectTouched := true);
        return;
      }
      match result {
        case NotFound =>
          r := r.(holding := r.holding[target - CFG_BASE := value], holdingChanged := true,
                  multicastChanged := r.multicastChanged || IsMulticast(target),
                  logicChanged := r.logicChanged || target >= DEVICE_CONFIG);
        case Persist => r := r.(cfg := cfg, configChanged := true, persist := true);
        case Apply => r := r.(cfg := cfg, configChanged := true, persist := true, apply := true);
        case _ => assert false;
      }
      if result != SC.NotFound && IsName(target) { r := r.(nameChanged := true); }
    }

    /** The body of the loop: one word onto the clones. */
    method PutOne(b: Batch, target: u16, value: u16) returns (ok: bool, r: Batch)
      requires BatchShaped(b) && InWindow(target)
      ensures ok <==> AcceptsWord(target, value)
      ensures ok ==> r == PutWord(b, target, value)
    {
      var cfg, result := b.cfg, SC.NotFound;
      if target < DEVICE_CONFIG {
        var clone := new SC.Registers(b.cfg);
        result := clone.WriteReg(target, value);
        cfg := clone.cfg;
        RawIsNotFound(b.cfg, target, value);
      }
      if result == SC.InvalidValue { return false, b; }
      r := PutKnown(b, target, value, cfg, result);
      ok := true;
    }

    method PublishHolding(b: Batch, named: seq<u16>)
      requires |named| == HOLDING_WORDS && (!b.holdingChanged && !b.nameChanged ==> named == s.holding)
      requires !b.holdingChanged ==> !b.logicChanged && !b.multicastChanged && !b.protectTouched
      modifies this
      ensures s == HoldingPublished(old(s), b, named)
    {
      if b.holdingChanged || b.nameChanged {
        var holding := if Commits(b) then named[Index(PROTECT) := 0] else named;
        s := s.(holding := holding);
        if Commits(b) {
          s := s.(armed := false, holdingDirty := true);
        } else if b.protectTouched {
          s := s.(armed := b.logicCommit);
        }
        if b.logicChanged { s := s.(tableChanged := true); }
        if b.multicastChanged { s := s.(holdingDirty := true); }
      }
    }

    method PublishConfig(b: Batch)
      requires b.configChanged || FinalConfig(b) == s.cfg
      modifies this
      ensures s == old(s).(cfg := FinalConfig(b))
    {
      if b.configChanged { s := s.(cfg := FinalConfig(b)); }
    }

    method PublishMarks(b: Batch)
      modifies this
      ensures s == old(s).(configDirty := old(s).configDirty || b.persist, reconfigure := old(s).reconfigure || b.apply,
                           holdingDirty := old(s).holdingDirty || b.nameChanged, nameChanged := old(s).nameChanged || b.nameChanged)
    {
      if b.apply { s := s.(reconfigure := true); }
      if b.persist { s := s.(configDirty := true); }
      if b.nameChanged { s := s.(holdingDirty := true, nameChanged := true); }
    }

    method PublishBatch(b: Batch)
      requires BatchShaped(b) && Marked(Clone(s), b)
      modifies this
      ensures s == Publish(old(s), b)
    {
      PublishConfig(b);
      PublishHolding(b, Named(b));
      PublishMarks(b);
    }

    method PutTextWords(addr: u16, values: seq<u16>)
      requires Shaped(s) && InText(addr) && addr + |values| <= TEXT_END + 1
      modifies this
      ensures s == WriteText(old(s), addr, values)
    {
      var i := addr - TEXT_BASE;
      s := s.(text := s.text[..i] + values + s.text[i + |values|..]);
      if s.armed { s := s.(armed := false, holding := s.holding[Index(PROTECT) := 0]); }
      s := s.(textDirty := true);
    }

    method PutWords(start: Batch, addr: u16, values: seq<u16>) returns (ok: bool, b: Batch)
      requires BatchShaped(start) && InWindow(addr) && addr + |values| <= CFG_END + 1
      ensures ok <==> AllAccepted(addr, values)
      ensures ok ==> b == PutAll(start, addr, values)
    {
      b := start;
      for k := 0 to |values|
        invariant BatchShaped(b) && AllAccepted(addr, values[..k]) && b == PutAll(start, addr, values[..k])
      {
        assert values[..k + 1][..k] == values[..k];
        ok, b := PutOne(b, addr + k, values[k]);
        if !ok {
          RefusedAt(addr, values, k);
          return;
        }
      }
      assert values[..|values|] == values;
      ok := true;
    }

    method PutWindow(addr: u16, values: seq<u16>) returns (ok: bool)
      requires Shaped(s) && InWindow(addr) && addr + |values| <= CFG_END + 1
      modifies this
      ensures ok <==> Admitted(old(s), addr, values)
      ensures s == if ok then Publish(old(s), PutAll(Clone(old(s)), addr, values)) else old(s)
    {
      var b;
      ok, b := PutWords(Clone(s), addr, values);
      if !ok { return; }
      if b.configChanged && !SC.ValidTcpPorts(b.cfg.tcpPorts) { return false; }
      PutAllMarks(Clone(s), addr, values);
      PublishBatch(b);
      ok := true;
    }

    /** Outside the two windows the words go one by one, which is not part of this model. */
    method WriteHoldRegs(addr: u16, values: seq<u16>) returns (outcome: Outcome)
      requires Shaped(s)
      modifies this
      ensures outcome == WordByWord
              <==> values != [] && addr + |values| <= 0x1_0000 && !InWindow(addr) && !InText(addr)
                   && forall t :: addr <= t < addr + |values| ==> IsWritable(t)
      ensures outcome != Accepted ==> s == old(s)
      ensures values == [] || addr + |values| > 0x1_0000 ==> outcome == Refused
      ensures values != [] && InWindow(addr) ==>
                && (outcome == Accepted <==> Admitted(old(s), addr, values))
                && outcome != WordByWord
                && (outcome == Accepted ==> s == Publish(old(s), PutAll(Clone(old(s)), addr, values)))
      ensures values != [] && InText(addr) ==>
                && (outcome == Accepted <==> addr + |values| <= TEXT_END + 1)
                && outcome != WordByWord
                && (outcome == Accepted ==> s == WriteText(old(s), addr, values))
    {
      if values == [] || addr + |values| > 0x1_0000 { return Refused; }
      var writable := AllWritable(addr, values);
      if !writable {
        NotAllWritable(addr, values);
        return Refused;
      }
      LastWordIn(addr, values);
      if addr >= TEXT_BASE && addr + |values| <= TEXT_END + 1 {
        PutTextWords(addr, values);
        return Accepted;
      }
      if addr >= CFG_BASE && addr + |values| <= CFG_END + 1 {
        var ok := PutWindow(addr, values);
        return if ok then Accepted else Refused;
      }
      outcome := WordByWord;
    }
  }

  lemma RefusedAt(a: u16, values: seq<u16>, k: nat)
    requires k < |values| && a + k < 0x1_0000 && InWindow(a + k) && !AcceptsWord(a + k, values[k])
    ensures !AllAccepted(a, values)
  {
    if AllAccepted(a, values) { AcceptedAt(a, values, k); }
  }

  /** A writable batch that starts in a window ends in it. */
  lemma LastWordIn(addr: u16, values: seq<u16>)
    requires values != [] && addr + |values| <= 0x1_0000
    requires forall t :: addr <= t < addr + |values| ==> IsWritable(t)
    ensures InWindow(addr) ==> addr + |values| <= CFG_END + 1
    ensures InText(addr) ==> addr + |values| <= TEXT_END + 1
  {
    assert !IsWritable(CFG_END + 1) && !IsWritable(TEXT_END + 1);
  }

  /** One that is not writable does not stay in the window it starts in. */
  lemma NotAllWritable(addr: u16, values: seq<u16>)
    requires values != [] && addr + |values| <= 0x1_0000
    requires exists t :: addr <= t < addr + |values| && !IsWritable(t)
    ensures InWindow(addr) ==> !AllAccepted(addr, values)
    ensures InText(addr) ==> addr + |values| > TEXT_END + 1
  {
    var t :| addr <= t < addr + |values| && !IsWritable(t);
    if AllAccepted(addr, values) { AcceptedAt(addr, values, t - addr); }
  }

  lemma RawIsNotFound(c: SC.Config, a: u16, value: u16)
    requires SC.Shaped(c) && InWindow(a) && a < DEVICE_CONFIG
    ensures var w := SC.Write(c, a, value);
            && (w.1 == SC.NotFound <==> IsRaw(a)) && (w.1 == SC.InvalidValue <==> !AcceptsWord(a, value))
            && (w.1 == SC.NotFound || w.1 == SC.InvalidValue ==> w.0 == c)
            && (w.1 == SC.NotFound || w.1 == SC.InvalidValue || w.1 == SC.Persist || w.1 == SC.Apply)
  {
  }

  /** What the marks say: without them nothing of the kind changed. */
  lemma {:induction false} PutAllMarks(b: Batch, a: u16, values: seq<u16>)
    requires BatchShaped(b) && AllAccepted(a, values)
    requires !b.holdingChanged && !b.configChanged && !b.persist && !b.apply && !b.nameChanged
    requires !b.logicChanged && !b.multicastChanged && !b.protectTouched
    ensures Marked(b, PutAll(b, a, values))
  {
    if values != [] {
      var n := |values| - 1;
      PutAllMarks(b, a, values[..n]);
      var m := PutAll(b, a, values[..n]);
      var w := SC.Write(m.cfg, a + n, values[n]);
      PutClassifiedMarks(b, m, a + n, values[n], IsRaw(a + n), w.0, w.1);
    }
  }

  lemma PutClassifiedMarks(b: Batch, m: Batch, a: u16, value: u16, raw: bool, cfg: SC.Config, result: SC.WriteResult)
    requires Marked(b, m) && BatchShaped(m) && InWindow(a)
    ensures Marked(b, PutClassified(m, a, value, raw, cfg, result))
  {
  }

  predicate Marked(b: Batch, r: Batch) {
            && (!r.configChanged ==> r.cfg == b.cfg && !r.persist && !r.apply && !r.nameChanged)
            && (!r.holdingChanged ==> r.holding == b.holding && !r.logicChanged && !r.multicastChanged && !r.protectTouched)
            && (r.apply ==> r.persist)
  }

  // ---- What an accepted batch reads back ------------------------------------------------------------

  lemma RawReads(cfg: SC.Config, holding: seq<u16>, a: u16)
    requires SC.Shaped(cfg) && |holding| == HOLDING_WORDS && Ordinary(a) && IsRaw(a)
    ensures Stored(cfg, holding, a) == holding[Index(a)]
  {
  }

  lemma NotRawReads(cfg: SC.Config, holding: seq<u16>, a: u16)
    requires SC.Shaped(cfg) && |holding| == HOLDING_WORDS && InWindow(a) && !IsRaw(a)
    ensures SC.Read(cfg, a) == Some(Stored(cfg, holding, a))
  {
  }

  lemma PutWordReads(b: Batch, a: u16, value: u16, other: u16)
    requires BatchShaped(b) && InWindow(a) && AcceptsWord(a, value) && Ordinary(other)
    ensures var r := PutWord(b, a, value);
            Stored(r.cfg, r.holding, other) == if other == a then CanonicalWord(a, value) else Stored(b.cfg, b.holding, other)
  {
    if a == PROTECT || IsRaw(a) {
      RawPutReads(b, a, value, other);
    } else {
      ConfigPutReads(b, a, value, other);
    }
  }

  lemma RawPutReads(b: Batch, a: u16, value: u16, other: u16)
    requires BatchShaped(b) && InWindow(a) && (a == PROTECT || IsRaw(a)) && Ordinary(other)
    ensures var h := b.holding[Index(a) := value];
            Stored(b.cfg, h, other) == if other == a then value else Stored(b.cfg, b.holding, other)
  {
    var h := b.holding[Index(a) := value];
    if IsRaw(other) {
      RawReads(b.cfg, h, other);
      RawReads(b.cfg, b.holding, other);
    } else {
      NotRawReads(b.cfg, h, other);
      NotRawReads(b.cfg, b.holding, other);
    }
  }

  lemma ConfigPutReads(b: Batch, a: u16, value: u16, other: u16)
    requires BatchShaped(b) && InWindow(a) && AcceptsWord(a, value) && !IsRaw(a) && Ordinary(other)
    ensures var cfg := SC.Write(b.cfg, a, value).0;
            SC.Shaped(cfg) && Stored(cfg, b.holding, other)
                              == if other == a then SC.Canonical(a, value) else Stored(b.cfg, b.holding, other)
  {
    SC.WriteThenRead(b.cfg, a, value);
    if other != a { SC.WriteChangesNoOther(b.cfg, a, value, other); }
  }

  predicate Hit(a: u16, values: seq<u16>, other: u16) { a <= other < a + |values| }

  lemma {:induction false} PutAllReads(b: Batch, a: u16, values: seq<u16>, other: u16)
    requires BatchShaped(b) && AllAccepted(a, values) && Ordinary(other)
    ensures var r := PutAll(b, a, values);
            Stored(r.cfg, r.holding, other)
            == if Hit(a, values, other) then CanonicalWord(other, values[other - a]) else Stored(b.cfg, b.holding, other)
  {
    if values != [] {
      var n := |values| - 1;
      PutAllReads(b, a, values[..n], other);
      PutWordReads(PutAll(b, a, values[..n]), a + n, values[n], other);
    }
  }

  lemma VersionIsElsewhere(cfg: SC.Config, version: u16, holding: seq<u16>, other: u16)
    requires SC.Shaped(cfg) && |holding| == HOLDING_WORDS && InWindow(other)
    ensures Stored(cfg.(cfgVersion := version), holding, other) == Stored(cfg, holding, other)
  {
  }

  lemma PublishingReads(b: Batch, other: u16)
    requires BatchShaped(b) && Ordinary(other)
    ensures SC.Shaped(FinalConfig(b))
    ensures var h := if Commits(b) then Named(b)[Index(PROTECT) := 0] else Named(b);
            Stored(FinalConfig(b), h, other) == Stored(b.cfg, b.holding, other)
  {
    var h := if Commits(b) then Named(b)[Index(PROTECT) := 0] else Named(b);
    VersionIsElsewhere(b.cfg, (b.cfg.cfgVersion + 1) % 0x1_0000, h, other);
    if IsRaw(other) {
      RawReads(b.cfg, h, other);
      RawReads(b.cfg, b.holding, other);
      NamesAreNotRaw(other);
      assert h[Index(other)] == b.holding[Index(other)];
    } else {
      NotRawReads(b.cfg, h, other);
      NotRawReads(b.cfg, b.holding, other);
    }
  }

  lemma NamesAreNotRaw(a: u16)
    ensures IsName(a) ==> !IsRaw(a) && SC.Locate(a) == SC.BleName(a - NAME_BASE)
  {
  }

  /** An accepted batch makes every ordinary word it names read back in its canonical form,
      and leaves every other ordinary word of the window as it was. */
  lemma BatchReadsBack(s: State, a: u16, values: seq<u16>, other: u16)
    requires Shaped(s) && Admitted(s, a, values) && Ordinary(other)
    ensures var s' := Publish(s, PutAll(Clone(s), a, values));
            && Shaped(s')
            && Stored(s'.cfg, s'.holding, other)
               == (if Hit(a, values, other) then CanonicalWord(other, values[other - a]) else Stored(s.cfg, s.holding, other))
            && s'.text == s.text
  {
    PutAllReads(Clone(s), a, values, other);
    PublishingReads(PutAll(Clone(s), a, values), other);
  }

  predicate WordAccepted(a: u16, values: seq<u16>, t: int) {
    a <= t < a + |values| && t < 0x1_0000 && InWindow(t) && AcceptsWord(t, values[t - a])
  }

  /** A batch passes the loop exactly when each of its words would pass it alone. */
  lemma {:induction false} AcceptedExactly(a: u16, values: seq<u16>)
    ensures AllAccepted(a, values) <==> forall t :: a <= t < a + |values| ==> WordAccepted(a, values, t)
  {
    if AllAccepted(a, values) {
      forall t | a <= t < a + |values| ensures WordAccepted(a, values, t) { AcceptedAt(a, values, t - a); }
    } else {
      var n := |values| - 1;
      AcceptedExactly(a, values[..n]);
      if forall t :: a <= t < a + |values| ==> WordAccepted(a, values, t) {
        assert WordAccepted(a, values, a + n);
        forall t | a <= t < a + n ensures WordAccepted(a, values[..n], t) { assert WordAccepted(a, values, t); }
        assert false;
      }
    }
  }

  // ---- The BLE name and its mirror -----------------------------------------------------------------

  function NameSlot(h: seq<u16>): (ws: seq<u16>)
    requires |h| == HOLDING_WORDS
    ensures |ws| == 4
  {
    h[98..102]
  }

  /** The raw words 2274 to 2277 repeat the structured name. */
  predicate NameMirrored(s: State)
    requires Shaped(s)
  {
    NameSlot(s.holding) == NameWords(s.cfg)
  }

  lemma OutsideNameSlot(h: seq<u16>, a: u16, value: u16)
    requires |h| == HOLDING_WORDS && InWindow(a) && !IsName(a)
    ensures NameSlot(h[Index(a) := value]) == NameSlot(h)
  {
  }

  lemma WriteKeepsName(c: SC.Config, a: u16, value: u16)
    requires SC.Shaped(c) && InWindow(a) && !IsName(a)
    ensures SC.Write(c, a, value).0.bleName == c.bleName
  {
  }

  lemma PutClassifiedName(b: Batch, a: u16, value: u16, raw: bool, cfg: SC.Config, result: SC.WriteResult)
    requires BatchShaped(b) && InWindow(a) && (IsName(a) ==> !raw)
    requires !IsName(a) ==> cfg.bleName == b.cfg.bleName
    ensures var r := PutClassified(b, a, value, raw, cfg, result);
            && (r.nameChanged <==> b.nameChanged || IsName(a))
            && (!IsName(a) ==> r.cfg.bleName == b.cfg.bleName)
            && NameSlot(r.holding) == NameSlot(b.holding)
  {
    var r := PutClassified(b, a, value, raw, cfg, result);
    if a == PROTECT || raw {
      assert r.holding == b.holding[Index(a) := value] && r.cfg == b.cfg;
      OutsideNameSlot(b.holding, a, value);
    } else {
      assert r.holding == b.holding && r.cfg == cfg;
    }
  }

  lemma PutWordName(b: Batch, a: u16, value: u16)
    requires BatchShaped(b) && InWindow(a)
    ensures var r := PutWord(b, a, value);
            && (r.nameChanged <==> b.nameChanged || IsName(a))
            && (!IsName(a) ==> r.cfg.bleName == b.cfg.bleName)
            && NameSlot(r.holding) == NameSlot(b.holding)
  {
    NamesAreNotRaw(a);
    if !IsName(a) { WriteKeepsName(b.cfg, a, value); }
    WriteKeepsShape(b.cfg, a, value);
    var w := SC.Write(b.cfg, a, value);
    PutClassifiedName(b, a, value, IsRaw(a), w.0, w.1);
  }

  lemma {:induction false} PutAllName(b: Batch, a: u16, values: seq<u16>)
    requires BatchShaped(b) && AllAccepted(a, values)
    ensures var r := PutAll(b, a, values);
            && (r.nameChanged <== b.nameChanged)
            && (!r.nameChanged ==> r.cfg.bleName == b.cfg.bleName)
            && NameSlot(r.holding) == NameSlot(b.holding)
  {
    if values != [] {
      var n := |values| - 1;
      PutAllName(b, a, values[..n]);
      PutWordName(PutAll(b, a, values[..n]), a + n, values[n]);
    }
  }

  lemma PublishKeepsNameMirrored(s: State, b: Batch)
    requires BatchShaped(b)
    requires !b.nameChanged ==> NameSlot(b.holding) == NameWords(b.cfg)
    ensures var s' := Publish(s, b);
            |s'.holding| == HOLDING_WORDS && SC.Shaped(s'.cfg) && NameSlot(s'.holding) == NameWords(s'.cfg)
  {
    assert NameSlot(Mirror(b.holding, b.cfg)) == NameWords(b.cfg);
    OutsideNameSlot(Named(b), PROTECT, 0);
  }

  /** The mirror stays equal to the name, whatever an accepted batch contains. */
  lemma BatchKeepsNameMirrored(s: State, a: u16, values: seq<u16>)
    requires Shaped(s) && NameMirrored(s) && Admitted(s, a, values)
    ensures Shaped(Publish(s, PutAll(Clone(s), a, values))) && NameMirrored(Publish(s, PutAll(Clone(s), a, values)))
  {
    PutAllName(Clone(s), a, values);
    PublishKeepsNameMirrored(s, PutAll(Clone(s), a, values));
  }

  lemma TextKeepsNameMirrored(s: State, a: u16, values: seq<u16>)
    requires Shaped(s) && NameMirrored(s) && InText(a) && a + |values| <= TEXT_END + 1
    ensures Shaped(WriteText(s, a, values)) && NameMirrored(WriteText(s, a, values))
  {
    OutsideNameSlot(s.holding, PROTECT, 0);
  }

  /** Text words read back as written, and nothing but the protect word changes beside them. */
  lemma TextReadsBack(s: State, a: u16, values: seq<u16>, k: nat, other: u16)
    requires Shaped(s) && InText(a) && a + |values| <= TEXT_END + 1 && k < TEXT_WORDS && Ordinary(other)
    ensures var s' := WriteText(s, a, values);
            && Shaped(s') && !s'.armed
            && s'.text[k] == (if a - TEXT_BASE <= k < a - TEXT_BASE + |values| then values[k - (a - TEXT_BASE)] else s.text[k])
            && Stored(s'.cfg, s'.holding, other) == Stored(s.cfg, s.holding, other)
  {
    if s.armed {
      RawPutReads(Clone(s), PROTECT, 0, other);
    }
  }

  /** A text batch marks the text to be saved, and nothing else; an open gate is closed, the protect
      word with it. */
  lemma TextMarks(s: State, a: u16, values: seq<u16>)
    requires Shaped(s) && InText(a) && a + |values| <= TEXT_END + 1
    ensures var s' := WriteText(s, a, values);
            && s'.textDirty && !s'.armed && |s'.holding| == 2048
            && s'.holding[4222 - 0x0880] == (if s.armed then 0 else s.holding[4222 - 0x0880])
            && s' == s.(text := s'.text, holding := s'.holding, armed := false, textDirty := true)
  {
  }

  // ---- What an accepted batch marks ------------------------------------------------------------------

  /** Some word of the batch lies between these addresses. */
  predicate Meets(a: u16, values: seq<u16>, from: nat, to: nat)
    requires from <= to
  {
    values != [] && a <= to && from < a + |values|
  }

  /** Configuration words that are saved: serial number, place, hardware version, ports, name and
      TCP ports; and those that are also applied: the network settings. */
  predicate MeetsConfig(a: u16, values: seq<u16>) {
    Meets(a, values, 2196, 2228) || Meets(a, values, 2243, 2268) || Meets(a, values, 2274, 2277)
  }

  predicate MeetsTable(a: u16, values: seq<u16>) { Meets(a, values, 2300, 4221) || Meets(a, values, 4223, 4223) }

  lemma OneMoreMeets(a: u16, values: seq<u16>, from: nat, to: nat)
    requires values != [] && from <= to
    ensures var n := |values| - 1;
            Meets(a, values, from, to) <==> Meets(a, values[..n], from, to) || from <= a + n <= to
  {
  }

  /** What a batch has on its clones so far. */
  predicate BatchMarks(b: Batch, a: u16, values: seq<u16>, armed: bool) {
    && (b.persist <==> MeetsConfig(a, values)) && (b.apply <==> Meets(a, values, 2247, 2268))
    && (b.nameChanged <==> Meets(a, values, 2274, 2277))
    && (b.logicChanged <==> MeetsTable(a, values)) && (b.multicastChanged <==> Meets(a, values, 2190, 2194))
    && (b.protectTouched <==> Meets(a, values, 4222, 4222))
    && (b.logicCommit <==> if a <= 4222 < a + |values| then values[4222 - a] == 0x55AA else armed)
  }

  lemma ConfigAnswers(c: SC.Config, a: u16, value: u16)
    requires SC.Shaped(c) && InWindow(a) && AcceptsWord(a, value) && !IsRaw(a)
    ensures var r := SC.Write(c, a, value).1;
            && (r == SC.Apply <==> 2247 <= a <= 2268) && (r == SC.Persist <==> !(2247 <= a <= 2268))
            && (2196 <= a <= 2228 || 2243 <= a <= 2268 || 2274 <= a <= 2277)
  {
  }

  lemma RawAddresses(a: u16)
    requires InWindow(a)
    ensures IsRaw(a) <==> !(2196 <= a <= 2228 || 2243 <= a <= 2268 || 2274 <= a <= 2277)
  {
  }

  lemma PutWordMarks(b: Batch, a: u16, value: u16)
    requires BatchShaped(b) && InWindow(a) && AcceptsWord(a, value)
    ensures var r := PutWord(b, a, value);
            && (r.persist <==> b.persist || 2196 <= a <= 2228 || 2243 <= a <= 2268 || 2274 <= a <= 2277)
            && (r.apply <==> b.apply || 2247 <= a <= 2268) && (r.nameChanged <==> b.nameChanged || 2274 <= a <= 2277)
            && (r.logicChanged <==> b.logicChanged || (2300 <= a <= 4223 && a != 4222))
            && (r.multicastChanged <==> b.multicastChanged || 2190 <= a <= 2194)
            && (r.protectTouched <==> b.protectTouched || a == 4222)
            && (r.logicCommit <==> if a == 4222 then value == 0x55AA else b.logicCommit)
  {
    RawAddresses(a);
    WriteKeepsShape(b.cfg, a, value);
    if !IsRaw(a) { ConfigAnswers(b.cfg, a, value); }
  }

  lemma {:induction false} PutAllMarksExactly(s: State, a: u16, values: seq<u16>)
    requires Shaped(s) && AllAccepted(a, values)
    ensures BatchMarks(PutAll(Clone(s), a, values), a, values, s.armed)
  {
    if values != [] {
      var n := |values| - 1;
      PutAllMarksExactly(s, a, values[..n]);
      PutWordMarks(PutAll(Clone(s), a, values[..n]), a + n, values[n]);
      OneMoreMeets(a, values, 2196, 2228); OneMoreMeets(a, values, 2243, 2268); OneMoreMeets(a, values, 2274, 2277);
      OneMoreMeets(a, values, 2247, 2268); OneMoreMeets(a, values, 2300, 4221); OneMoreMeets(a, values, 4223, 4223);
      OneMoreMeets(a, values, 2190, 2194); OneMoreMeets(a, values, 4222, 4222);
    }
  }

  /** What an accepted batch marks, opens and closes, by the addresses it meets: configuration words
      are to be saved, network settings also to be applied under the next version number; a table
      word makes the logic be read again, and with the gate open, or opened by the batch itself, the
      table is to be saved and the gate closed. */
  lemma BatchMarksExactly(s: State, a: u16, values: seq<u16>)
    requires Shaped(s) && Admitted(s, a, values)
    ensures var s' := Publish(s, PutAll(Clone(s), a, values));
            var open := if a <= 4222 < a + |values| then values[4222 - a] == 0x55AA else s.armed;
            var commits := open && MeetsTable(a, values);
            && (s'.configDirty <==> s.configDirty || MeetsConfig(a, values))
            && (s'.reconfigure <==> s.reconfigure || Meets(a, values, 2247, 2268))
            && (s'.nameChanged <==> s.nameChanged || Meets(a, values, 2274, 2277))
            && (s'.tableChanged <==> s.tableChanged || MeetsTable(a, values))
            && (s'.holdingDirty <==> s.holdingDirty || commits || Meets(a, values, 2190, 2194) || Meets(a, values, 2274, 2277))
            && (s'.armed <==> open && !commits) && s'.textDirty == s.textDirty
            && (commits ==> |s'.holding| == 2048 && s'.holding[4222 - 0x0880] == 0)
            && s'.cfg.cfgVersion == (if Meets(a, values, 2247, 2268) then (s.cfg.cfgVersion + 1) % 0x1_0000 else s.cfg.cfgVersion)
  {
    PutAllMarksExactly(s, a, values);
    VersionKept(Clone(s), a, values);
  }

  lemma {:induction false} VersionKept(b: Batch, a: u16, values: seq<u16>)
    requires BatchShaped(b) && AllAccepted(a, values)
    ensures PutAll(b, a, values).cfg.cfgVersion == b.cfg.cfgVersion
  {
    if values != [] {
      var n := |values| - 1;
      VersionKept(b, a, values[..n]);
      WriteKeepsVersion(PutAll(b, a, values[..n]).cfg, a + n, values[n]);
    }
  }

  lemma WriteKeepsVersion(c: SC.Config, a: u16, value: u16)
    requires SC.Shaped(c) && InWindow(a)
    ensures SC.Write(c, a, value).0.cfgVersion == c.cfgVersion
  {
  }

  // ---- The single-word write -------------------------------------------------------------------------

  /** What a write to the window does once the configuration has answered. */
  function Answered(s: State, a: u16, value: u16, cfg: SC.Config, result: SC.WriteResult): Option<State>
    requires Shaped(s) && InWindow(a) && SC.Shaped(cfg)
  {
    match result
    case Persist =>
      var s' := if IsName(a) then s.(holding := Mirror(s.holding, cfg), holdingDirty := true, nameChanged := true) else s;
      Some(s'.(cfg := cfg, configDirty := true))
    case Apply =>
      Some(s.(cfg := cfg.(cfgVersion := (cfg.cfgVersion + 1) % 0x1_0000), configDirty := true, reconfigure := true))
    case NotFound =>
      var armed := a >= DEVICE_CONFIG && s.armed;
      var h := s.holding[Index(a) := value];
      Some(s.(holding := if armed then h[Index(PROTECT) := 0] else h,
                 armed := if armed then false else s.armed,
                 holdingDirty := s.holdingDirty || armed || IsMulticast(a),
                 tableChanged := s.tableChanged || a >= DEVICE_CONFIG))
    case _ => None
  }

  /** `write_hold_reg` inside the window; nothing when it is refused. */
  function WriteOne(s: State, a: u16, value: u16): Option<State>
    requires Shaped(s) && InWindow(a)
  {
    if a == PROTECT then Some(s.(holding := s.holding[Index(a) := value], armed := value == MAGIC))
    else
      WriteKeepsShape(s.cfg, a, value);
      var w := SC.Write(s.cfg, a, value);
      if !SC.ValidTcpPorts(w.0.tcpPorts) then None else Answered(s, a, value, w.0, w.1)
  }

  function WriteBatch(s: State, a: u16, values: seq<u16>): Option<State>
    requires Shaped(s)
  {
    if Admitted(s, a, values) then Some(Publish(s, PutAll(Clone(s), a, values))) else None
  }

  lemma PutAllOfOne(b: Batch, a: u16, value: u16)
    requires BatchShaped(b) && InWindow(a)
    ensures AllAccepted(a, [value]) <==> AcceptsWord(a, value)
    ensures AcceptsWord(a, value) ==> PutAll(b, a, [value]) == PutWord(b, a, value)
  {
    assert [value][..0] == [];
    assert AllAccepted(a, []);
  }

  lemma PublishOfRaw(s: State, a: u16, value: u16)
    requires Shaped(s) && InWindow(a) && a != PROTECT
    ensures Answered(s, a, value, s.cfg, SC.NotFound)
            == Some(Publish(s, PutClassified(Clone(s), a, value, true, s.cfg, SC.NotFound)))
  {
  }

  lemma PublishOfConfig(s: State, a: u16, value: u16, cfg: SC.Config, result: SC.WriteResult)
    requires Shaped(s) && InWindow(a) && a != PROTECT && SC.Shaped(cfg)
    requires result == SC.Persist || (result == SC.Apply && !IsName(a))
    ensures Answered(s, a, value, cfg, result)
            == Some(Publish(s, PutClassified(Clone(s), a, value, false, cfg, result)))
  {
  }

  lemma PublishOfProtect(s: State, value: u16, cfg: SC.Config, result: SC.WriteResult)
    requires Shaped(s)
    ensures s.(holding := s.holding[Index(PROTECT) := value], armed := value == MAGIC)
            == Publish(s, PutClassified(Clone(s), PROTECT, value, true, cfg, result))
  {
  }

  lemma ClassifiedRaw(b: Batch, a: u16, value: u16, c: SC.Config, r: SC.WriteResult, c': SC.Config, r': SC.WriteResult)
    requires BatchShaped(b) && InWindow(a)
    ensures PutClassified(b, a, value, true, c, r) == PutClassified(b, a, value, true, c', r')
  {
  }

  lemma NamesPersist(c: SC.Config, a: u16, value: u16)
    requires SC.Shaped(c) && IsName(a)
    ensures SC.Write(c, a, value).1 == SC.Persist
  {
  }

  lemma HighIsNotFound(c: SC.Config, a: u16, value: u16)
    requires SC.Shaped(c) && InWindow(a) && a >= DEVICE_CONFIG
    ensures SC.Write(c, a, value) == (c, SC.NotFound)
  {
  }

  lemma PublishOfOne(s: State, a: u16, value: u16)
    requires Shaped(s) && InWindow(a) && AcceptsWord(a, value) && a != PROTECT
    ensures SC.Shaped(SC.Write(s.cfg, a, value).0)
    ensures var w := SC.Write(s.cfg, a, value);
            Answered(s, a, value, w.0, w.1) == Some(Publish(s, PutWord(Clone(s), a, value)))
  {
    WriteKeepsShape(s.cfg, a, value);
    if a < DEVICE_CONFIG { RawIsNotFound(s.cfg, a, value); } else { HighIsNotFound(s.cfg, a, value); }
    if IsName(a) { NamesPersist(s.cfg, a, value); }
    var w := SC.Write(s.cfg, a, value);
    if IsRaw(a) {
      PublishOfRaw(s, a, value);
    } else {
      PublishOfConfig(s, a, value, w.0, w.1);
    }
  }

  lemma PortsAfter(s: State, a: u16, value: u16)
    requires Shaped(s) && InWindow(a) && AcceptsWord(a, value) && a != PROTECT
    ensures var b, w := PutWord(Clone(s), a, value), SC.Write(s.cfg, a, value);
            (b.configChanged <==> !IsRaw(a)) && (!IsRaw(a) ==> b.cfg == w.0) && (IsRaw(a) ==> w.0 == s.cfg)
  {
    if a < DEVICE_CONFIG { RawIsNotFound(s.cfg, a, value); } else { HighIsNotFound(s.cfg, a, value); }
  }

  lemma RefusedIsRefused(s: State, a: u16, value: u16)
    requires Shaped(s) && InWindow(a) && !AcceptsWord(a, value)
    ensures WriteOne(s, a, value).None? && !IsRaw(a) && a != PROTECT
  {
    RawIsNotFound(s.cfg, a, value);
  }

  /** A batch of one word does what the single-word write does, except that the single write of
      a raw word is refused while the stored ports are unfit to be listened on. */
  lemma SingleIsBatchOfOne(s: State, a: u16, value: u16)
    requires Shaped(s) && InWindow(a)
    ensures WriteOne(s, a, value) == WriteBatch(s, a, [value])
            <==> a == PROTECT || !IsRaw(a) || SC.ValidTcpPorts(s.cfg.tcpPorts)
  {
    PutAllOfOne(Clone(s), a, value);
    if !AcceptsWord(a, value) {
      RefusedIsRefused(s, a, value);
    } else if a == PROTECT {
      var w := SC.Write(s.cfg, a, value);
      PublishOfProtect(s, value, w.0, w.1);
      ClassifiedRaw(Clone(s), a, value, w.0, w.1, w.0, w.1);
    } else {
      PublishOfOne(s, a, value);
      PortsAfter(s, a, value);
    }
  }
}
