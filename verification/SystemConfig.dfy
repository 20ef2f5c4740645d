/**
  The system configuration of src/device/system_config.rs: its registers, its 152-byte blob,
  and the checks it must pass before it is stored.
*/
module SystemConfig {
  import opened Binary
  import opened Options
  import opened Words

  datatype Rs485 = Rs485(
    baudrate: u32, dataBits: byte, stopBits: byte, parity: byte, slaveAddr: byte, mode: byte,
    retryCount: u16, timeoutMs: u16, intervalMs: u16)

  datatype Config = Config(
    sn: seq<byte>, name: seq<byte>,
    hwVersion: u16, fwVersion: u16, fwDate: u16, cfgVersion: u16,
    ethMac: seq<byte>, dhcp: bool,
    ip: seq<byte>, mask: seq<byte>, gateway: seq<byte>, dns: seq<byte>,
    bleMac: seq<byte>, bleName: seq<byte>,
    rs485: seq<Rs485>, tcpPorts: seq<u16>)

  predicate Shaped(c: Config) {
    && |c.sn| == 32 && |c.name| == 16 && |c.ethMac| == 6
    && |c.ip| == 4 && |c.mask| == 4 && |c.gateway| == 4 && |c.dns| == 4
    && |c.bleMac| == 6 && |c.bleName| == 8 && |c.rs485| == 3 && |c.tcpPorts| == 4
  }

  datatype WriteResult = Written | Persist | Apply | Reset | NotFound | InvalidValue

  // ---- Which register an address names --------------------------------------------------------

  datatype Reg =
    | SerialNumber(i: nat) | Place(i: nat) | HwVersion | FwVersion | CfgVersion | ApplyReg | ResetReg
    | Dhcp | Ip(i: nat) | Mask(i: nat) | Gateway(i: nat) | Dns(i: nat) | EthMac(i: nat)
    | BleName(i: nat) | Port(p: nat, w: nat) | TcpPort(i: nat)
    | ErrorCount | NoReg

  function Locate(addr: u16): Reg {
    if 0x0880 <= addr < 0x0884 then ErrorCount
    else if 2196 <= addr < 2205 then SerialNumber(addr - 2196)
    else if 2205 <= addr < 2213 then Place(addr - 2205)
    else if addr == 2213 then HwVersion
    else if addr == 0x087E then FwVersion
    else if addr == 0xFF00 then CfgVersion
    else if addr == 0xFF01 then ApplyReg
    else if addr == 0xFF02 then ResetReg
    else if addr == 0xFF03 then Dhcp
    else if 2247 <= addr < 2251 then Ip(addr - 2247)
    else if 2251 <= addr < 2255 then Mask(addr - 2251)
    else if 2255 <= addr < 2259 then Gateway(addr - 2255)
    else if 2259 <= addr < 2263 then Dns(addr - 2259)
    else if 2263 <= addr < 2269 then EthMac(addr - 2263)
    else if 2274 <= addr < 2278 then BleName(addr - 2274)
    else if 2214 <= addr < 2229 then Port((addr - 2214) / 5, (addr - 2214) % 5)
    else if 2243 <= addr < 2247 then TcpPort(addr - 2243)
    else NoReg
  }

  predicate InRange(r: Reg) {
    match r
    case SerialNumber(i) => i < 9
    case Place(i) => i < 8
    case Ip(i) => i < 4
    case Mask(i) => i < 4
    case Gateway(i) => i < 4
    case Dns(i) => i < 4
    case EthMac(i) => i < 6
    case BleName(i) => i < 4
    case Port(p, w) => p < 3 && w < 5
    case TcpPort(i) => i < 4
    case _ => true
  }

  lemma LocateInRange(addr: u16)
    ensures InRange(Locate(addr))
  {
  }

  /** No two addresses name the same register. */
  lemma LocateIsInjective(a: u16, b: u16)
    requires Locate(a) == Locate(b) && !Locate(a).ErrorCount? && !Locate(a).NoReg?
    ensures a == b
  {
  }

  // ---- The packed RS485 word ----------------------------------------------------------------------

  const BaudTable: seq<u32> :=
    [9600, 1200, 2400, 4800, 9600, 14400, 19200, 38400, 57600, 115200, 128000, 153600, 230400, 256000, 460800, 921600]

  function BaudIndex(baud: u32): (i: nat)
    ensures 1 <= i < 16
  {
    if baud == 1200 then 1 else if baud == 2400 then 2 else if baud == 4800 then 3 else if baud == 9600 then 4
    else if baud == 14400 then 5 else if baud == 19200 then 6 else if baud == 38400 then 7 else if baud == 57600 then 8
    else if baud == 115200 then 9 else if baud == 128000 then 10 else if baud == 153600 then 11
    else if baud == 230400 then 12 else if baud == 256000 then 13 else if baud == 460800 then 14
    else if baud == 921600 then 15 else 4
  }

  lemma BaudIndexOfTable(i: nat)
    requires i < 16
    ensures BaudIndex(BaudTable[i]) == if i == 0 then 4 else i
  {
  }

  /** baud index, parity, stop bit, data bit and mode in one word. */
  function Fields(b: nat, p: nat, s: nat, d: nat, low: nat): u16
    requires b < 16 && p < 4 && s < 2 && d < 2 && low < 256
  {
    4096 * b + 1024 * p + 512 * s + 256 * d + low
  }

  lemma FieldsOf(b: nat, p: nat, s: nat, d: nat, low: nat)
    requires b < 16 && p < 4 && s < 2 && d < 2 && low < 256
    ensures var w := Fields(b, p, s, d, low);
            w / 4096 == b && w / 1024 % 4 == p && w / 512 % 2 == s && w / 256 % 2 == d && w % 256 == low
  {
    var w := Fields(b, p, s, d, low);
    assert w / 256 == 16 * b + 4 * p + 2 * s + d;
    assert w / 512 == 8 * b + 2 * p + s;
    assert w / 1024 == 4 * b + p;
  }

  function PackPort(r: Rs485): u16 {
    var stop := if r.stopBits >= 1 then (r.stopBits - 1) % 2 else 0;
    Fields(BaudIndex(r.baudrate), r.parity % 4, stop, if r.dataBits == 7 then 1 else 0, if r.mode == 0 then 1 else 0)
  }

  function UnpackPort(r: Rs485, value: u16): Rs485
    requires value / 1024 % 4 <= 2
  {
    r.(baudrate := BaudTable[value / 4096], parity := value / 1024 % 4, stopBits := value / 512 % 2 + 1,
       dataBits := if value / 256 % 2 != 0 then 7 else 8, mode := if value % 256 == 1 then 0 else 1)
  }

  // ---- Reading ------------------------------------------------------------------------------------

  function PairAt(bs: seq<byte>, i: nat): u16
    requires 2 * i + 1 < |bs|
  {
    Join16(bs[2 * i + 1], bs[2 * i])
  }

  function ReadPort(r: Rs485, w: nat): u16 {
    if w == 0 then PackPort(r) else if w == 1 then r.slaveAddr else if w == 2 then r.retryCount
    else if w == 3 then r.timeoutMs else r.intervalMs
  }

  function ReadReg(c: Config, r: Reg): Option<u16>
    requires Shaped(c) && InRange(r)
  {
    match r
    case ErrorCount => Some(0)
    case SerialNumber(i) => Some(PairAt(c.sn, i))
    case Place(i) => Some(PairAt(c.name, i))
    case HwVersion => Some(c.hwVersion)
    case FwVersion => Some(c.fwVersion)
    case CfgVersion => Some(c.cfgVersion)
    case ApplyReg => Some(0)
    case ResetReg => Some(0)
    case Dhcp => Some(if c.dhcp then 1 else 0)
    case Ip(i) => Some(c.ip[i])
    case Mask(i) => Some(c.mask[i])
    case Gateway(i) => Some(c.gateway[i])
    case Dns(i) => Some(c.dns[i])
    case EthMac(i) => Some(c.ethMac[i])
    case BleName(i) => Some(PairAt(c.bleName, i))
    case Port(p, w) => Some(ReadPort(c.rs485[p], w))
    case TcpPort(i) => Some(c.tcpPorts[i])
    case NoReg => None
  }

  function Read(c: Config, addr: u16): Option<u16>
    requires Shaped(c)
  {
    LocateInRange(addr);
    ReadReg(c, Locate(addr))
  }

  // ---- Writing ------------------------------------------------------------------------------------

  /** The values a register takes; the others are refused. */
  predicate Accepts(r: Reg, value: u16) {
    match r
    case Port(_, w) =>
      if w == 0 then value / 1024 % 4 <= 2
      else if w == 1 then 1 <= value <= 247
      else if w == 2 then value <= 5
      else 20 <= value <= 5000
    case TcpPort(_) => value != 0
    case _ => true
  }

  function PutPair(bs: seq<byte>, i: nat, value: u16): seq<byte>
    requires 2 * i + 1 < |bs|
  {
    bs[2 * i := Hi(value)][2 * i + 1 := Lo(value)]
  }

  function PutPort(r: Rs485, w: nat, value: u16): Rs485
    requires w < 5 && Accepts(Port(0, w), value)
  {
    if w == 0 then UnpackPort(r, value) else if w == 1 then r.(slaveAddr := value)
    else if w == 2 then r.(retryCount := value) else if w == 3 then r.(timeoutMs := value)
    else r.(intervalMs := value)
  }

  function PutReg(c: Config, r: Reg, value: u16): Config
    requires Shaped(c) && InRange(r) && Accepts(r, value)
  {
    match r
    case SerialNumber(i) => c.(sn := PutPair(c.sn, i, value))
    case Place(i) => c.(name := PutPair(c.name, i, value))
    case HwVersion => c.(hwVersion := value)
    case FwVersion => c.(fwVersion := value)
    case CfgVersion => c.(cfgVersion := value)
    case Dhcp => c.(dhcp := value != 0)
    case Ip(i) => c.(ip := c.ip[i := Lo(value)])
    case Mask(i) => c.(mask := c.mask[i := Lo(value)])
    case Gateway(i) => c.(gateway := c.gateway[i := Lo(value)])
    case Dns(i) => c.(dns := c.dns[i := Lo(value)])
    case EthMac(i) => c.(ethMac := c.ethMac[i := Lo(value)])
    case BleName(i) => c.(bleName := PutPair(c.bleName, i, value))
    case Port(p, w) => c.(rs485 := c.rs485[p := PutPort(c.rs485[p], w, value)])
    case TcpPort(i) => c.(tcpPorts := c.tcpPorts[i := value])
    case _ => c
  }

  function Outcome(r: Reg, value: u16): WriteResult {
    match r
    case SerialNumber(_) => Persist
    case Place(_) => Persist
    case HwVersion => Persist
    case FwVersion => Written
    case CfgVersion => Written
    case ApplyReg => if value == 0xB5B5 then Apply else Written
    case ResetReg => if value == 0xD5D5 then Reset else Written
    case Dhcp => Apply
    case Ip(_) => Apply
    case Mask(_) => Apply
    case Gateway(_) => Apply
    case Dns(_) => Apply
    case EthMac(_) => Apply
    case BleName(_) => Persist
    case Port(_, _) => if Accepts(r, value) then Persist else InvalidValue
    case TcpPort(_) => if Accepts(r, value) then Persist else InvalidValue
    case ErrorCount => NotFound
    case NoReg => NotFound
  }

  function Write(c: Config, addr: u16, value: u16): (Config, WriteResult)
    requires Shaped(c)
  {
    LocateInRange(addr);
    var r := Locate(addr);
    (if Accepts(r, value) then PutReg(c, r, value) else c, Outcome(r, value))
  }

  // ---- The laws -------------------------------------------------------------------------------------

  /** The form in which an accepted value reads back. */
  function Canonical(addr: u16, value: u16): u16 {
    match Locate(addr)
    case ApplyReg => 0
    case ResetReg => 0
    case ErrorCount => 0
    case Dhcp => if value == 0 then 0 else 1
    case Ip(_) => Lo(value)
    case Mask(_) => Lo(value)
    case Gateway(_) => Lo(value)
    case Dns(_) => Lo(value)
    case EthMac(_) => Lo(value)
    case Port(_, w) => if w == 0 then CanonicalPort(value) else value
    case _ => value
  }

  /** Baud index 0 is the alias of 4, the seven mode bits count only as 1 or not 1. */
  function CanonicalPort(value: u16): u16 {
    Fields(if value / 4096 == 0 then 4 else value / 4096, value / 1024 % 4, value / 512 % 2, value / 256 % 2,
           if value % 256 == 1 then 1 else 0)
  }

  lemma PackOfUnpack(r: Rs485, value: u16)
    requires value / 1024 % 4 <= 2
    ensures PackPort(UnpackPort(r, value)) == CanonicalPort(value)
  {
    BaudIndexOfTable(value / 4096);
  }

  lemma CanonicalPortIsStable(value: u16)
    ensures CanonicalPort(CanonicalPort(value)) == CanonicalPort(value)
    ensures CanonicalPort(value) / 1024 % 4 == value / 1024 % 4
  {
    FieldsOf(if value / 4096 == 0 then 4 else value / 4096, value / 1024 % 4, value / 512 % 2, value / 256 % 2,
             if value % 256 == 1 then 1 else 0);
  }

  /** The registers and their values, address by address; two bytes make a word high byte first. */
  lemma ReadByAddress(c: Config, a: u16)
    requires Shaped(c)
    ensures 2196 <= a < 2205 ==> Read(c, a) == Some(256 * (c.sn[2 * (a - 2196)] as int) + c.sn[2 * (a - 2196) + 1] as int)
    ensures 2205 <= a < 2213 ==> Read(c, a) == Some(256 * (c.name[2 * (a - 2205)] as int) + c.name[2 * (a - 2205) + 1] as int)
    ensures Read(c, 2213) == Some(c.hwVersion) && Read(c, 0x087E) == Some(c.fwVersion)
    ensures Read(c, 0xFF00) == Some(c.cfgVersion) && Read(c, 0xFF03) == Some(if c.dhcp then 1 else 0)
    ensures 2247 <= a < 2251 ==> Read(c, a) == Some(c.ip[a - 2247])
    ensures 2251 <= a < 2255 ==> Read(c, a) == Some(c.mask[a - 2251])
    ensures 2255 <= a < 2259 ==> Read(c, a) == Some(c.gateway[a - 2255])
    ensures 2259 <= a < 2263 ==> Read(c, a) == Some(c.dns[a - 2259])
    ensures 2263 <= a < 2269 ==> Read(c, a) == Some(c.ethMac[a - 2263])
    ensures 2274 <= a < 2278 ==>
              Read(c, a) == Some(256 * (c.bleName[2 * (a - 2274)] as int) + c.bleName[2 * (a - 2274) + 1] as int)
    ensures 2243 <= a < 2247 ==> Read(c, a) == Some(c.tcpPorts[a - 2243])
    ensures Read(c, 0xFF01) == Some(0) && Read(c, 0xFF02) == Some(0)
  {
  }

  /** The five words of each serial port. */
  lemma ReadPortWords(c: Config, p: nat)
    requires Shaped(c) && p < 3
    ensures var a := 2214 + 5 * p;
            && Read(c, a + 1) == Some(c.rs485[p].slaveAddr) && Read(c, a + 2) == Some(c.rs485[p].retryCount)
            && Read(c, a + 3) == Some(c.rs485[p].timeoutMs) && Read(c, a + 4) == Some(c.rs485[p].intervalMs)
  {
  }

  /** The packed first word of a port sets baud rate, parity, stop bits, data bits and mode. */
  lemma PortWordSets(c: Config, p: nat, value: u16)
    requires Shaped(c) && p < 3 && value / 1024 % 4 <= 2
    ensures var (c', result) := Write(c, 2214 + 5 * p, value);
            && result == Persist && Shaped(c')
            && c'.rs485[p].baudrate == BaudTable[value / 4096] && c'.rs485[p].parity == value / 1024 % 4
            && c'.rs485[p].stopBits == 1 + value / 512 % 2
            && c'.rs485[p].dataBits == (if value / 256 % 2 == 1 then 7 else 8)
            && c'.rs485[p].mode == (if value % 256 == 1 then 0 else 1)
            && c'.rs485[p].slaveAddr == c.rs485[p].slaveAddr && c'.rs485[p].retryCount == c.rs485[p].retryCount
            && c'.rs485[p].timeoutMs == c.rs485[p].timeoutMs && c'.rs485[p].intervalMs == c.rs485[p].intervalMs
  {
  }

  lemma BaudRates()
    ensures BaudTable[1..] == [1200, 2400, 4800, 9600, 14400, 19200, 38400, 57600, 115200, 128000, 153600, 230400, 256000, 460800, 921600]
    ensures BaudTable[0] == BaudTable[4] == 9600
  {
  }

  /** What a write answers, address by address: what it asks of the caller to save or to apply, the
      two command words by their value, and the values that are refused. */
  lemma WriteAnswers(c: Config, a: u16, value: u16)
    requires Shaped(c)
    ensures var result := Write(c, a, value).1;
            && (2196 <= a <= 2213 || 2274 <= a < 2278 ==> result == Persist)
            && (a == 0x087E || a == 0xFF00 ==> result == Written)
            && (a == 0xFF01 ==> result == if value == 0xB5B5 then Apply else Written)
            && (a == 0xFF02 ==> result == if value == 0xD5D5 then Reset else Written)
            && (a == 0xFF03 || 2247 <= a < 2269 ==> result == Apply)
            && (2243 <= a < 2247 ==> result == if value == 0 then InvalidValue else Persist)
            && (2214 <= a < 2229 ==>
                  var w := (a - 2214) % 5;
                  result == if (w == 0 && value / 1024 % 4 == 3) || (w == 1 && !(1 <= value <= 247)) || (w == 2 && value > 5)
                               || (w >= 3 && !(20 <= value <= 5000))
                            then InvalidValue else Persist)
            && ((a < 2196 && a != 0x087E) || 2229 <= a < 2243 || 2269 <= a < 2274 || 2278 <= a < 0xFF00 || a > 0xFF03 ==>
                  result == NotFound)
            && (a == 0xFF01 || a == 0xFF02 ==> Write(c, a, value).0 == c)
  {
  }

  /** An accepted write reads back in its canonical form; a refused one changes nothing; only
      an address that names no settable register is not found. */
  lemma WriteThenRead(c: Config, addr: u16, value: u16)
    requires Shaped(c)
    ensures var (c', result) := Write(c, addr, value);
            && Shaped(c')
            && (result == InvalidValue <==> !Accepts(Locate(addr), value))
            && (result == NotFound <==> Locate(addr).ErrorCount? || Read(c, addr).None?)
            && (result == InvalidValue || result == NotFound ==> c' == c)
            && (result != InvalidValue && result != NotFound ==> Read(c', addr) == Some(Canonical(addr, value)))
  {
    LocateInRange(addr);
    if Locate(addr).Port? && Locate(addr).w == 0 && Accepts(Locate(addr), value) {
      PackOfUnpack(c.rs485[Locate(addr).p], value);
    }
  }

  /** No other register changes. */
  lemma WriteChangesNoOther(c: Config, addr: u16, value: u16, other: u16)
    requires Shaped(c) && other != addr
    ensures Shaped(Write(c, addr, value).0) && Read(Write(c, addr, value).0, other) == Read(c, other)
  {
    LocateInRange(addr);
    LocateInRange(other);
    var r, q := Locate(addr), Locate(other);
    assert r != q || r.NoReg? || r.ErrorCount? by {
      if r == q && !r.NoReg? && !r.ErrorCount? { LocateIsInjective(addr, other); }
    }
    if Accepts(r, value) { RegistersAreApart(c, r, value, q); }
  }

  lemma RegistersAreApart(c: Config, r: Reg, value: u16, q: Reg)
    requires Shaped(c) && InRange(r) && InRange(q) && (r != q || r.NoReg? || r.ErrorCount?) && Accepts(r, value)
    ensures Shaped(PutReg(c, r, value)) && ReadReg(PutReg(c, r, value), q) == ReadReg(c, q)
  {
    match r
    case SerialNumber(_) =>
    case Place(_) =>
    case BleName(_) =>
    case Port(_, _) =>
    case _ =>
  }

  /** Writing the canonical form is the same as writing the value. */
  lemma CanonicalIsStable(addr: u16, value: u16)
    requires Accepts(Locate(addr), value)
    ensures Canonical(addr, Canonical(addr, value)) == Canonical(addr, value)
    ensures Accepts(Locate(addr), Canonical(addr, value))
  {
    if Locate(addr).Port? && Locate(addr).w == 0 { CanonicalPortIsStable(value); }
  }

  /** The last accepted write to a register decides. */
  lemma LastWriteWins(c: Config, addr: u16, first: u16, second: u16)
    requires Shaped(c) && Accepts(Locate(addr), second)
    ensures Shaped(Write(c, addr, first).0)
    ensures Write(Write(c, addr, first).0, addr, second).0 == Write(c, addr, second).0
  {
    LocateInRange(addr);
    if Accepts(Locate(addr), first) { LastPutWins(c, Locate(addr), first, second); }
  }

  lemma LastPutWins(c: Config, r: Reg, first: u16, second: u16)
    requires Shaped(c) && InRange(r) && Accepts(r, first) && Accepts(r, second)
    ensures Shaped(PutReg(c, r, first)) && PutReg(PutReg(c, r, first), r, second) == PutReg(c, r, second)
  {
    match r
    case SerialNumber(i) => assert PutPair(PutPair(c.sn, i, first), i, second) == PutPair(c.sn, i, second);
    case Place(i) => assert PutPair(PutPair(c.name, i, first), i, second) == PutPair(c.name, i, second);
    case BleName(i) => assert PutPair(PutPair(c.bleName, i, first), i, second) == PutPair(c.bleName, i, second);
    case _ =>
  }

  /** Writing back what was read leaves every register reading as before. */
  lemma WritingWhatWasReadChangesNothing(c: Config, addr: u16, other: u16)
    requires Shaped(c) && Read(c, addr).Some?
    ensures var c' := Write(c, addr, Read(c, addr).value).0; Shaped(c') && Read(c', other) == Read(c, other)
  {
    var v := Read(c, addr).value;
    WriteThenRead(c, addr, v);
    if other != addr {
      WriteChangesNoOther(c, addr, v, other);
    } else {
      LocateInRange(addr);
      if Locate(addr).Port? && Locate(addr).w == 0 && Accepts(Locate(addr), v) { PackedIsCanonical(c.rs485[Locate(addr).p]); }
    }
  }

  lemma PackedIsCanonical(r: Rs485)
    ensures CanonicalPort(PackPort(r)) == PackPort(r)
  {
    var stop := if r.stopBits >= 1 then (r.stopBits - 1) % 2 else 0;
    FieldsOf(BaudIndex(r.baudrate), r.parity % 4, stop, if r.dataBits == 7 then 1 else 0, if r.mode == 0 then 1 else 0);
  }

  // ---- Writing through the object ------------------------------------------------------------------

  class Registers {
    var cfg: Config

    constructor (c: Config)
      ensures cfg == c
    {
      cfg := c;
    }

    /** The three ports are searched one after the other; a refused value touches nothing. */
    method WritePort(addr: u16, value: u16) returns (found: bool, result: WriteResult)
      requires Shaped(cfg)
      modifies this
      ensures found <==> Locate(addr).Port?
      ensures found ==> (cfg, result) == Write(old(cfg), addr, value)
      ensures !found ==> cfg == old(cfg)
    {
      result := NotFound;
      for i := 0 to 3
        invariant cfg == old(cfg) && !(2214 <= addr < 2214 + 5 * i)
      {
        var base := 2214 + 5 * i;
        if base <= addr < base + 5 {
          var w, r := addr - base, cfg.rs485[i];
          assert Locate(addr) == Port(i, w);
          if w == 0 {
            var parity := value / 1024 % 4;
            if parity > 2 { return true, InvalidValue; }
            r := r.(baudrate := BaudTable[value / 4096], parity := parity, stopBits := value / 512 % 2 + 1,
                    dataBits := if value / 256 % 2 != 0 then 7 else 8, mode := if value % 256 == 1 then 0 else 1);
          } else if w == 1 {
            if !(1 <= value <= 247) { return true, InvalidValue; }
            r := r.(slaveAddr := value);
          } else if w == 2 {
            if value > 5 { return true, InvalidValue; }
            r := r.(retryCount := value);
          } else {
            if !(20 <= value <= 5000) { return true, InvalidValue; }
            if w == 3 { r := r.(timeoutMs := value); } else { r := r.(intervalMs := value); }
          }
          cfg := cfg.(rs485 := cfg.rs485[i := r]);
          return true, Persist;
        }
      }
      found := false;
    }

    method WriteReg(addr: u16, value: u16) returns (result: WriteResult)
      requires Shaped(cfg)
      modifies this
      ensures (cfg, result) == Write(old(cfg), addr, value)
    {
      if 2196 <= addr < 2205 {
        var i := 2 * (addr - 2196);
        cfg := cfg.(sn := cfg.sn[i := Hi(value)][i + 1 := Lo(value)]);
        return Persist;
      }
      if 2205 <= addr < 2213 {
        var i := 2 * (addr - 2205);
        cfg := cfg.(name := cfg.name[i := Hi(value)][i + 1 := Lo(value)]);
        return Persist;
      }
      if addr == 2213 { cfg := cfg.(hwVersion := value); return Persist; }
      if addr == 0x087E { cfg := cfg.(fwVersion := value); return Written; }
      if addr == 0xFF00 { cfg := cfg.(cfgVersion := value); return Written; }
      if addr == 0xFF01 { return if value == 0xB5B5 then Apply else Written; }
      if addr == 0xFF02 { return if value == 0xD5D5 then Reset else Written; }
      if addr == 0xFF03 { cfg := cfg.(dhcp := value != 0); return Apply; }
      if 2247 <= addr < 2251 { cfg := cfg.(ip := cfg.ip[addr - 2247 := value % 256]); return Apply; }
      if 2251 <= addr < 2255 { cfg := cfg.(mask := cfg.mask[addr - 2251 := value % 256]); return Apply; }
      if 2255 <= addr < 2259 { cfg := cfg.(gateway := cfg.gateway[addr - 2255 := value % 256]); return Apply; }
      if 2259 <= addr < 2263 { cfg := cfg.(dns := cfg.dns[addr - 2259 := value % 256]); return Apply; }
      if 2263 <= addr < 2269 { cfg := cfg.(ethMac := cfg.ethMac[addr - 2263 := value % 256]); return Apply; }
      if 2274 <= addr < 2278 {
        var i := 2 * (addr - 2274);
        cfg := cfg.(bleName := cfg.bleName[i := Hi(value)][i + 1 := Lo(value)]);
        return Persist;
      }
      var found;
      found, result := WritePort(addr, value);
      if found { return; }
      if 2243 <= addr < 2247 {
        if value == 0 { return InvalidValue; }
        cfg := cfg.(tcpPorts := cfg.tcpPorts[addr - 2243 := value]);
        return Persist;
      }
      result := NotFound;
    }
  }

  // ---- The blob --------------------------------------------------------------------------------------

  const BLOB_SIZE := 152
  const FW_DATE: u16 := 0x0615

  function EncodePort(r: Rs485): (s: seq<byte>)
    ensures |s| == 15
  {
    Le32(r.baudrate) + [r.dataBits, r.stopBits, r.parity, r.slaveAddr, r.mode]
    + Le16(r.retryCount) + Le16(r.timeoutMs) + Le16(r.intervalMs)
  }

  function EncodePorts(ps: seq<Rs485>): (s: seq<byte>)
    ensures |s| == 15 * |ps|
  {
    if ps == [] then [] else EncodePorts(ps[..|ps| - 1]) + EncodePort(ps[|ps| - 1])
  }

  /** The first 92 bytes: everything but the ports. */
  function EncodeHead(c: Config): (b: seq<byte>)
    ensures Shaped(c) ==> |b| == 92
  {
    c.sn + c.name + Le16(c.hwVersion) + Le16(c.fwVersion) + Le16(c.cfgVersion)
    + c.ethMac + [if c.dhcp then 1 else 0] + c.ip + c.mask + c.gateway + c.dns
    + c.bleMac + c.bleName + [0]
  }

  function Encode(c: Config): (b: seq<byte>)
    ensures Shaped(c) ==> |b| == BLOB_SIZE
  {
    EncodeHead(c) + EncodePorts(c.rs485) + LeBytes(c.tcpPorts) + Zeros(7)
  }

  function OrDefault(value: nat, default: nat): nat { if value == 0 then default else value }

  function DecodePort(b: seq<byte>): Rs485
    requires |b| == 15
  {
    Rs485(OrDefault(Join32(b[0], b[1], b[2], b[3]), 9600), OrDefault(b[4], 8), OrDefault(b[5], 1), b[6], b[7], b[8],
          Join16(b[9], b[10]), Join16(b[11], b[12]), Join16(b[13], b[14]))
  }

  function PortsOrDefault(ports: seq<u16>): (r: seq<u16>)
    requires |ports| == 4
    ensures |r| == 4
  {
    [OrDefault(ports[0], 502), OrDefault(ports[1], 503), OrDefault(ports[2], 504), OrDefault(ports[3], 5002)]
  }

  function Decode(b: seq<byte>): (c: Config)
    requires |b| == BLOB_SIZE
    ensures Shaped(c)
  {
    Config(b[..32], b[32..48], Join16(b[48], b[49]), Join16(b[50], b[51]), FW_DATE, Join16(b[52], b[53]),
           b[54..60], b[60] != 0, b[61..65], b[65..69], b[69..73], b[73..77], b[77..83], b[83..91],
           [DecodePort(b[92..107]), DecodePort(b[107..122]), DecodePort(b[122..137])],
           PortsOrDefault(WordsOf(b[137..145])))
  }

  /** What a configuration becomes on its way through the flash. */
  function StoredPort(r: Rs485): Rs485 {
    r.(baudrate := OrDefault(r.baudrate, 9600), dataBits := OrDefault(r.dataBits, 8), stopBits := OrDefault(r.stopBits, 1))
  }

  function Stored(c: Config): Config
    requires Shaped(c)
  {
    c.(fwDate := FW_DATE, rs485 := [StoredPort(c.rs485[0]), StoredPort(c.rs485[1]), StoredPort(c.rs485[2])],
       tcpPorts := PortsOrDefault(c.tcpPorts))
  }

  lemma PortRoundTrip(r: Rs485)
    ensures DecodePort(EncodePort(r)) == StoredPort(r)
  {
    Join32OfLe32(r.baudrate);
    var b, l := EncodePort(r), Le32(r.baudrate);
    assert b[0] == l[0] && b[1] == l[1] && b[2] == l[2] && b[3] == l[3];
  }

  /** What the first 92 bytes decode to; the rest is taken from `tail`. */
  function DecodeHead(b: seq<byte>, tail: Config): Config
    requires |b| >= 92
  {
    Config(b[..32], b[32..48], Join16(b[48], b[49]), Join16(b[50], b[51]), FW_DATE, Join16(b[52], b[53]),
           b[54..60], b[60] != 0, b[61..65], b[65..69], b[69..73], b[73..77], b[77..83], b[83..91],
           tail.rs485, tail.tcpPorts)
  }

  lemma HeadBytes(c: Config, rest: seq<byte>)
    requires Shaped(c)
    ensures var b := EncodeHead(c) + rest;
            && b[..32] == c.sn && b[32..48] == c.name
            && b[48..54] == Le16(c.hwVersion) + Le16(c.fwVersion) + Le16(c.cfgVersion)
            && b[54..60] == c.ethMac && b[60] == (if c.dhcp then 1 else 0)
            && b[61..65] == c.ip && b[65..69] == c.mask && b[69..73] == c.gateway && b[73..77] == c.dns
            && b[77..83] == c.bleMac && b[83..91] == c.bleName
  {
  }

  lemma HeadRoundTrip(c: Config, rest: seq<byte>, tail: Config)
    requires Shaped(c)
    ensures DecodeHead(EncodeHead(c) + rest, tail)
            == c.(fwDate := FW_DATE, rs485 := tail.rs485, tcpPorts := tail.tcpPorts)
  {
    HeadBytes(c, rest);
    var b := EncodeHead(c) + rest;
    assert b[48] == b[48..54][0] && b[49] == b[48..54][1] && b[50] == b[48..54][2];
    assert b[51] == b[48..54][3] && b[52] == b[48..54][4] && b[53] == b[48..54][5];
  }

  lemma EncodePortsParts(ps: seq<Rs485>)
    requires |ps| == 3
    ensures EncodePorts(ps) == EncodePort(ps[0]) + EncodePort(ps[1]) + EncodePort(ps[2])
  {
    assert ps[..2][..1] == ps[..1] && ps[..1][..0] == [];
    assert EncodePorts(ps[..1]) == EncodePort(ps[0]);
    assert EncodePorts(ps[..2]) == EncodePort(ps[0]) + EncodePort(ps[1]);
  }

  lemma TailFields(c: Config)
    requires Shaped(c)
    ensures var b := Encode(c);
            && b[92..107] == EncodePort(c.rs485[0]) && b[107..122] == EncodePort(c.rs485[1])
            && b[122..137] == EncodePort(c.rs485[2]) && b[137..145] == LeBytes(c.tcpPorts)
  {
    EncodePortsParts(c.rs485);
    var head, p0, p1, p2 := EncodeHead(c), EncodePort(c.rs485[0]), EncodePort(c.rs485[1]), EncodePort(c.rs485[2]);
    assert Encode(c) == head + (p0 + p1 + p2) + LeBytes(c.tcpPorts) + Zeros(7);
  }

  lemma TailRoundTrip(c: Config)
    requires Shaped(c)
    ensures Decode(Encode(c)).rs485 == Stored(c).rs485 && Decode(Encode(c)).tcpPorts == Stored(c).tcpPorts
  {
    TailFields(c);
    PortRoundTrip(c.rs485[0]);
    PortRoundTrip(c.rs485[1]);
    PortRoundTrip(c.rs485[2]);
    WordsOfLeBytes(c.tcpPorts);
  }

  /** Byte `k` of the blob, field by field; numbers are low byte first. */
  lemma BlobLayout(c: Config)
    requires Shaped(c)
    ensures var b := Encode(c);
            && |b| == 152 && b[..32] == c.sn && b[32..48] == c.name
            && Number16(b, 48) == c.hwVersion && Number16(b, 50) == c.fwVersion && Number16(b, 52) == c.cfgVersion
            && b[54..60] == c.ethMac && b[60] == (if c.dhcp then 1 else 0)
            && b[61..65] == c.ip && b[65..69] == c.mask && b[69..73] == c.gateway && b[73..77] == c.dns
            && b[77..83] == c.bleMac && b[83..91] == c.bleName
  {
    var rest := EncodePorts(c.rs485) + LeBytes(c.tcpPorts) + Zeros(7);
    HeadBytes(c, rest);
    assert Encode(c) == EncodeHead(c) + rest;
    ThreeNumbers(EncodeHead(c) + rest, c.hwVersion, c.fwVersion, c.cfgVersion);
  }

  lemma ThreeNumbers(b: seq<byte>, x: u16, y: u16, z: u16)
    requires |b| >= 54 && b[48..54] == Le16(x) + Le16(y) + Le16(z)
    ensures Number16(b, 48) == x && Number16(b, 50) == y && Number16(b, 52) == z
  {
    var s := Le16(x) + Le16(y) + Le16(z);
    PairInside(b, 48, s, 0);
    PairInside(b, 48, s, 2);
    PairInside(b, 48, s, 4);
    LoHi(x);
    LoHi(y);
    LoHi(z);
  }

  /** The 15 bytes of each serial port, and the TCP ports. */
  lemma PortLayout(c: Config, p: nat)
    requires Shaped(c) && p < 3
    ensures var b, k, r := Encode(c), 92 + 15 * p, c.rs485[p];
            && |b| == 152
            && Number32(b, k) == r.baudrate
            && b[k + 4] == r.dataBits && b[k + 5] == r.stopBits && b[k + 6] == r.parity && b[k + 7] == r.slaveAddr && b[k + 8] == r.mode
            && Number16(b, k + 9) == r.retryCount && Number16(b, k + 11) == r.timeoutMs && Number16(b, k + 13) == r.intervalMs
  {
    var b, k, r := Encode(c), 92 + 15 * p, c.rs485[p];
    TailFields(c);
    assert b[k..k + 15] == EncodePort(r);
    PortBytes(r);
    ShiftedPort(b, k);
  }

  lemma PortBytes(r: Rs485)
    ensures var e := EncodePort(r);
            && Number32(e, 0) == r.baudrate
            && e[4] == r.dataBits && e[5] == r.stopBits && e[6] == r.parity && e[7] == r.slaveAddr && e[8] == r.mode
            && Number16(e, 9) == r.retryCount && Number16(e, 11) == r.timeoutMs && Number16(e, 13) == r.intervalMs
  {
    var e := EncodePort(r);
    FivePieces(Le32(r.baudrate), [r.dataBits, r.stopBits, r.parity, r.slaveAddr, r.mode],
               Le16(r.retryCount), Le16(r.timeoutMs), Le16(r.intervalMs));
    Le32Number(r.baudrate, e, 0);
    Le16Number(r.retryCount, e, 9);
    Le16Number(r.timeoutMs, e, 11);
    Le16Number(r.intervalMs, e, 13);
  }

  lemma FivePieces(l: seq<byte>, m: seq<byte>, a: seq<byte>, b: seq<byte>, c: seq<byte>)
    requires |l| == 4 && |m| == 5 && |a| == |b| == |c| == 2
    ensures var e := l + m + a + b + c;
            && e[0..4] == l && e[9..11] == a && e[11..13] == b && e[13..15] == c
            && e[4] == m[0] && e[5] == m[1] && e[6] == m[2] && e[7] == m[3] && e[8] == m[4]
  {
  }

  lemma ShiftedPort(b: seq<byte>, k: nat)
    requires k + 15 <= |b|
    ensures var e := b[k..k + 15]; forall i :: 0 <= i < 15 ==> e[i] == b[k + i]
  {
  }

  lemma TcpLayout(c: Config, i: nat)
    requires Shaped(c) && i < 4
    ensures |Encode(c)| == 152 && Number16(Encode(c), 137 + 2 * i) == c.tcpPorts[i]
  {
    TailFields(c);
    LeBytesAt(c.tcpPorts, i);
    var b := Encode(c);
    assert b[137 + 2 * i] == b[137..145][2 * i] && b[137 + 2 * i + 1] == b[137..145][2 * i + 1];
  }

  /** A stored configuration comes back, but for the firmware date and for fields that were
      zero where the decoder puts the default. */
  lemma RoundTrip(c: Config)
    requires Shaped(c)
    ensures Decode(Encode(c)) == Stored(c)
  {
    var rest := EncodePorts(c.rs485) + LeBytes(c.tcpPorts) + Zeros(7);
    assert Encode(c) == EncodeHead(c) + rest;
    TailRoundTrip(c);
    HeadRoundTrip(c, rest, Stored(c));
    assert Decode(Encode(c)) == DecodeHead(EncodeHead(c) + rest, Stored(c));
  }

  /** Field by field: what was zero where a default stands comes back as the default. */
  lemma ComesBackWithDefaults(c: Config, d: Config, p: nat, i: nat)
    requires Shaped(c) && d == Decode(Encode(c)) && p < 3 && i < 4
    ensures d.(fwDate := c.fwDate, rs485 := c.rs485, tcpPorts := c.tcpPorts) == c && d.fwDate == 0x0615
    ensures |d.rs485| == 3 && |d.tcpPorts| == 4 && WithDefaults(c.rs485[p], d.rs485[p])
    ensures d.tcpPorts[i] == if c.tcpPorts[i] != 0 then c.tcpPorts[i]
                             else if i == 0 then 502 else if i == 1 then 503 else if i == 2 then 504 else 5002
  {
    RoundTrip(c);
    StoredMeans(c, d, p, i);
  }

  predicate WithDefaults(r: Rs485, r': Rs485) {
    && r'.(baudrate := r.baudrate, dataBits := r.dataBits, stopBits := r.stopBits) == r
    && r'.baudrate == (if r.baudrate == 0 then 9600 else r.baudrate)
    && r'.dataBits == (if r.dataBits == 0 then 8 else r.dataBits)
    && r'.stopBits == if r.stopBits == 0 then 1 else r.stopBits
  }

  lemma StoredMeans(c: Config, d: Config, p: nat, i: nat)
    requires Shaped(c) && d == Stored(c) && p < 3 && i < 4
    ensures d.(fwDate := c.fwDate, rs485 := c.rs485, tcpPorts := c.tcpPorts) == c && d.fwDate == 0x0615
    ensures |d.rs485| == 3 && |d.tcpPorts| == 4 && WithDefaults(c.rs485[p], d.rs485[p])
    ensures d.tcpPorts[i] == if c.tcpPorts[i] != 0 then c.tcpPorts[i]
                             else if i == 0 then 502 else if i == 1 then 503 else if i == 2 then 504 else 5002
  {
  }

  predicate NoZeroFields(c: Config)
    requires Shaped(c)
  {
    && (forall i :: 0 <= i < 3 ==> c.rs485[i].baudrate != 0 && c.rs485[i].dataBits != 0 && c.rs485[i].stopBits != 0)
    && (forall i :: 0 <= i < 4 ==> c.tcpPorts[i] != 0)
  }

  lemma StoredPortsExact(c: Config)
    requires Shaped(c)
    ensures Stored(c).rs485 == c.rs485
            <==> forall i :: 0 <= i < 3 ==> c.rs485[i].baudrate != 0 && c.rs485[i].dataBits != 0 && c.rs485[i].stopBits != 0
  {
    var ports := Stored(c).rs485;
    assert ports == c.rs485 <==> forall i :: 0 <= i < 3 ==> ports[i] == c.rs485[i];
    assert forall i :: 0 <= i < 3 ==> ports[i] == StoredPort(c.rs485[i]);
  }

  lemma StoredTcpExact(c: Config)
    requires Shaped(c)
    ensures Stored(c).tcpPorts == c.tcpPorts <==> forall i :: 0 <= i < 4 ==> c.tcpPorts[i] != 0
  {
    var tcp := PortsOrDefault(c.tcpPorts);
    assert tcp == c.tcpPorts <==> forall i :: 0 <= i < 4 ==> tcp[i] == c.tcpPorts[i];
    assert tcp[0] == OrDefault(c.tcpPorts[0], 502) && tcp[1] == OrDefault(c.tcpPorts[1], 503);
    assert tcp[2] == OrDefault(c.tcpPorts[2], 504) && tcp[3] == OrDefault(c.tcpPorts[3], 5002);
  }

  /** So it comes back exactly when it has this firmware's date and none of those zeros. */
  lemma ExactRoundTrip(c: Config)
    requires Shaped(c)
    ensures Decode(Encode(c)) == c <==> c.fwDate == FW_DATE && NoZeroFields(c)
  {
    RoundTrip(c);
    StoredPortsExact(c);
    StoredTcpExact(c);
  }

  // ---- Checks before storing ---------------------------------------------------------------------

  /** No one follows a zero, read from the top. */
  predicate OnesOnTop(s: seq<bool>) { forall j, k :: 0 <= j < k < |s| && s[j] ==> s[k] }

  function Be32(b: seq<byte>): u32
    requires |b| == 4
  {
    Join32(b[3], b[2], b[1], b[0])
  }

  method OnesLead(bits: seq<bool>) returns (ok: bool)
    ensures ok == OnesOnTop(bits)
  {
    var sawZero := false;
    var bit := |bits|;
    while bit > 0
      invariant 0 <= bit <= |bits|
      invariant sawZero <==> exists k :: bit <= k < |bits| && !bits[k]
      invariant OnesOnTop(bits[bit..])
    {
      bit := bit - 1;
      assert bits[bit..][1..] == bits[bit + 1..];
      if !bits[bit] {
        sawZero := true;
      } else if sawZero {
        var k :| bit < k < |bits| && !bits[k];
        return false;
      }
    }
    assert bits[0..] == bits;
    ok := true;
  }

  method IsIpv4Netmask(value: seq<byte>) returns (ok: bool)
    requires |value| == 4
    ensures ok <==> Be32(value) != 0 && OnesOnTop(Bits(Be32(value), 32))
  {
    if value[0] == 0 && value[1] == 0 && value[2] == 0 && value[3] == 0 { return false; }
    ok := OnesLead(Bits(Be32(value), 32));
  }

  lemma {:induction false} AllOnes(s: seq<bool>)
    ensures false !in s <==> Value(s) == Pow2(|s|) - 1
  {
    ValueBound(s);
    if s != [] {
      AllOnes(s[1..]);
      ValueBound(s[1..]);
      assert s == [s[0]] + s[1..];
    }
  }

  /** The masks accepted are exactly those of at least one leading one and then zeros. */
  lemma {:induction false} LeadingOnes(s: seq<bool>)
    requires Value(s) > 0
    ensures OnesOnTop(s) <==> exists z :: 0 <= z < |s| && Value(s) == Pow2(|s|) - Pow2(z)
  {
    if s[0] { LeadingOnesOdd(s); } else { LeadingOnes(s[1..]); LeadingOnesEven(s); }
  }

  lemma LeadingOnesOdd(s: seq<bool>)
    requires s != [] && s[0]
    ensures OnesOnTop(s) <==> exists z :: 0 <= z < |s| && Value(s) == Pow2(|s|) - Pow2(z)
  {
    var n := |s|;
    AllOnes(s);
    forall z | 0 < z < n ensures Value(s) != Pow2(n) - Pow2(z) { assert Pow2(n) - Pow2(z) == 2 * (Pow2(n - 1) - Pow2(z - 1)); }
    assert Pow2(0) == 1;
    if OnesOnTop(s) {
      assert false !in s;
      assert Value(s) == Pow2(n) - Pow2(0);
    }
  }

  lemma LeadingOnesEven(s: seq<bool>)
    requires s != [] && !s[0]
    requires OnesOnTop(s[1..]) <==> exists z :: 0 <= z < |s| - 1 && Value(s[1..]) == Pow2(|s| - 1) - Pow2(z)
    ensures OnesOnTop(s) <==> exists z :: 0 <= z < |s| && Value(s) == Pow2(|s|) - Pow2(z)
  {
    ZeroBelow(s);
    DoubledMask(Value(s[1..]), |s|);
    assert Value(s) == 2 * Value(s[1..]);
  }

  lemma ZeroBelow(s: seq<bool>)
    requires s != [] && !s[0]
    ensures OnesOnTop(s) <==> OnesOnTop(s[1..])
  {
    var t := s[1..];
    if OnesOnTop(t) {
      forall j, k | 0 <= j < k < |s| && s[j] ensures s[k] { assert t[j - 1] && t[k - 1] == s[k]; }
    }
  }

  lemma DoubledMask(v: nat, n: nat)
    requires n > 0
    ensures (exists z :: 0 <= z < n - 1 && v == Pow2(n - 1) - Pow2(z))
            <==> exists z :: 0 <= z < n && 2 * v == Pow2(n) - Pow2(z)
  {
    assert Pow2(n) == 2 * Pow2(n - 1) && Pow2(0) == 1;
    if z :| 0 <= z < n - 1 && v == Pow2(n - 1) - Pow2(z) {
      assert Pow2(z + 1) == 2 * Pow2(z);
    }
    if z :| 0 <= z < n && 2 * v == Pow2(n) - Pow2(z) {
      assert z > 0 && Pow2(z) == 2 * Pow2(z - 1);
      assert v == Pow2(n - 1) - Pow2(z - 1);
    }
  }

  /** In numbers: 2^32 - 2^z, that is 32 - z ones on top. */
  lemma NetmasksAreLeadingOnes(value: seq<byte>)
    requires |value| == 4
    ensures Be32(value) != 0 && OnesOnTop(Bits(Be32(value), 32))
            <==> exists z :: 0 <= z < 32 && Be32(value) == 0x1_0000_0000 - Pow2(z)
  {
    Pow2Values();
    var v := Be32(value);
    ValueOfBits(v, 32);
    if v != 0 {
      LeadingOnes(Bits(v, 32));
    } else {
      forall z | 0 <= z < 32 ensures Pow2(z) < 0x1_0000_0000 { Pow2Grows(z, 32); }
    }
  }

  lemma {:induction false} Pow2Grows(a: nat, b: nat)
    requires a < b
    ensures Pow2(a) < Pow2(b)
    decreases b
  {
    if a + 1 < b { Pow2Grows(a, b - 1); }
  }

  predicate ValidTcpPorts(ports: seq<u16>) {
    forall i :: 0 <= i < |ports| ==> ports[i] != 0 && ports[i] != 80 && ports[i] !in ports[..i]
  }

  /** In any order: neither 0 nor the web port, and no two alike. */
  lemma ValidPortsAreDistinct(ports: seq<u16>)
    ensures ValidTcpPorts(ports) <==>
              0 !in ports && 80 !in ports && forall i, j :: 0 <= i < j < |ports| ==> ports[i] != ports[j]
  {
    if ValidTcpPorts(ports) {
      forall i, j | 0 <= i < j < |ports| ensures ports[i] != ports[j] { assert ports[..j][i] == ports[i]; }
    }
  }
}
