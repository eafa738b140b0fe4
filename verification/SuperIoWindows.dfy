/** The three Windows Super I/O readers (superio.c): which ports their writes can reach, and what they
    read from an ITE chip. */
module SuperIoWindows {
  import opened SuperIo
  import Ite
  import opened IteHost

  /** The new driver writes all went to the standard config ports. */
  predicate OnlyConfig(before: seq<nat>, after: seq<nat>) {
    before <= after
    && forall k :: |before| <= k < |after| ==> ConfigPort(after[k])
  }

  lemma NothingNew(log: seq<nat>, base: nat)
    ensures OnlyConfig(log, log) && OnlyTo(log, log, base)
  {
  }

  /** ite_base_ok */
  predicate BaseOk(base: nat) {
    && 0x100 <= base <= 0xFFF8 && base % 8 == 0
    && !(base + INDEX_OFF <= 0xCFF && base + DATA_OFF >= 0xCF8)
  }

  /** An accepted base's two ports are none of the ports that must never be written, and the
      window lets both of them through. */
  lemma AcceptedBaseIsAllowed(m: Machine, base: nat)
    requires BaseOk(base)
    requires m.ecIndexPort == base + INDEX_OFF && m.ecDataPort == base + DATA_OFF
    ensures m.Allowed(base + INDEX_OFF) && m.Allowed(base + DATA_OFF)
    ensures forall p :: m.Allowed(p) <==> ConfigPort(p) || p == base + INDEX_OFF || p == base + DATA_OFF
    ensures !(0xCF8 <= base + INDEX_OFF <= 0xCFF) && !(0xCF8 <= base + DATA_OFF <= 0xCFF)
  {
  }

  /** The monitor did not see any of the writes. */
  twostate predicate MonitorIdle(m: Machine)
    reads m
  {
    m.index == old(m.index) && m.bankReg == old(m.bankReg) && m.file == old(m.file) && m.writes == old(m.writes)
  }

  // ---- What a chip shows in config mode -------------------------------------------------

  /** The bytes read from one port pair, -1 for one that could not be read */
  datatype Config = Config(b1: Reading, b0: Reading, active: Reading, hi: Reading, lo: Reading) {
    function Id(): nat {
      Word(b1, b0)
    }

    predicate Known() {
      Ite.FindChip(Id(), 0).Some?
    }

    predicate Enabled() {
      active > 0 && active % 2 == 1
    }

    /** The base without its low three bits */
    function Base(): nat {
      Word(hi, lo) - Word(hi, lo) % 8
    }
  }

  /** What the bytes mean: the chip is the one with that id, if it is in the table; and an enabled chip is
      accepted unless its base lies below 0x100 or in 0xcf8..0xcff, where the PCI config ports are. */
  lemma ConfigMeans(c: Config)
    ensures c.b1 >= 0 && c.b0 >= 0 ==>
              (c.Known() <==> exists k :: 0 <= k < |Ite.CHIPS| && Ite.CHIPS[k].id == 256 * c.b1 + c.b0)
    ensures c.active < 0 || c.hi < 0 ==> !(c.Enabled() && BaseOk(c.Base()))
    ensures c.active >= 0 && c.hi >= 0 && c.lo >= 0 ==>
              var at := 256 * c.hi + c.lo;
              && c.Base() == at - at % 8
              && (c.Enabled() && BaseOk(c.Base())
                  <==> c.active % 2 == 1 && 0x100 <= at && !(0xcf8 <= at <= 0xcff))
  {
    hide Ite.FindChip;
    if c.b1 >= 0 && c.b0 >= 0 {
      var id := 256 * c.b1 + c.b0;
      if c.Known() {
        var k := Ite.FoundAt(id, 0);
      }
      forall k | 0 <= k < |Ite.CHIPS| && Ite.CHIPS[k].id == id ensures c.Known() {
        Ite.FoundIff(id, 0, k);
      }
    }
  }

  /** 256 * hi + lo, where a byte that could not be read counts as 0. */
  function Word(hi: Reading, lo: Reading): nat {
    256 * (if hi < 0 then 0 else hi) + if lo < 0 then 0 else lo
  }

  function Asked(addr: nat, data: nat, reg: nat, v: Reading): seq<Op> {
    [Put(addr, reg), Got(data, v)]
  }

  function Set(addr: nat, data: nat, reg: nat, v: nat): seq<Op> {
    [Put(addr, reg), Put(data, v)]
  }

  /** The ITE key */
  function KeyOps(addr: nat): seq<Op> {
    [Put(addr, 0x87), Put(addr, 0x01), Put(addr, 0x55), Put(addr, if addr == 0x4E then 0xAA else 0x55)]
  }

  /** Selecting the environment controller, and its enable bit and base registers */
  function DeviceOps(addr: nat, data: nat, c: Config): seq<Op> {
    Set(addr, data, 0x07, 0x04) + Asked(addr, data, 0x30, c.active)
    + Asked(addr, data, 0x60, c.hi) + Asked(addr, data, 0x61, c.lo)
  }

  /** Everything behind the key: the chip id, for a known chip the device, and the exit */
  function ConfigOps(addr: nat, data: nat, c: Config): seq<Op> {
    Asked(addr, data, 0x20, c.b1) + Asked(addr, data, 0x21, c.b0)
    + (if c.Known() then DeviceOps(addr, data, c) else []) + Set(addr, data, 0x02, 0x02)
  }

  /** What a probe for an ITE chip does on a standard port pair */
  function IteOps(addr: nat, data: nat, c: Config): seq<Op> {
    KeyOps(addr) + ConfigOps(addr, data, c)
  }

  /** The driver does not fail and the ports are config ports. */
  predicate Clear(io: seq<bool>, addr: nat, data: nat) {
    io == [] && ConfigPort(addr) && ConfigPort(data)
  }

  /** sio_write_port with the window closed. */
  method ConfigWrite(m: Machine, port: nat, v: nat) returns (ok: bool)
    requires m.ecIndexPort == 0 && v < 256
    modifies m`index, m`bankReg, m`file, m`writes, m`io, m`reached, m`bus
    ensures OnlyConfig(old(m.reached), m.reached)
    ensures BaseOk(m.base) ==> MonitorIdle(m)
    ensures old(m.io) == [] ==> m.io == []
    ensures old(m.io) == [] ==> ok == ConfigPort(port)
    ensures old(m.io) == [] ==> m.bus == old(m.bus) + if ConfigPort(port) then [Put(port, v)] else []
    ensures old(m.bus) <= m.bus
  {
    ok := m.SioWrite(port, v);
  }

  /** sio_read_reg: the byte, or what the caller's variable held before if an access fails. */
  method SioReadReg(m: Machine, addr: nat, data: nat, reg: nat, before: nat) returns (v: nat, ghost seen: Reading)
    requires m.ecIndexPort == 0 && reg < 256 && before < 256
    modifies m`index, m`bankReg, m`file, m`writes, m`io, m`reached, m`bus, m`answers
    ensures v < 256
    ensures OnlyConfig(old(m.reached), m.reached)
    ensures BaseOk(m.base) ==> MonitorIdle(m)
    ensures old(m.io) == [] ==> m.io == []
    ensures Clear(old(m.io), addr, data) ==>
              && m.bus == old(m.bus) + Asked(addr, data, reg, seen)
              && v == if seen < 0 then before else seen
    ensures old(m.io) == [] && !ConfigPort(addr) ==> m.bus == old(m.bus) && v == before
    ensures old(m.bus) <= m.bus
  {
    seen := -1;
    ghost var bus := m.bus;
    var ok := ConfigWrite(m, addr, reg);
    if !ok {
      return before, seen;
    }
    var w := m.In(data);
    seen := w;
    v := if w < 0 then before else w;
    Regroup(bus, [Put(addr, reg)], [Got(data, w)]);
  }

  lemma Regroup(a: seq<Op>, b: seq<Op>, c: seq<Op>)
    ensures (a + b) + c == a + (b + c)
  {
  }

  /** sio_write_reg */
  method SioWriteReg(m: Machine, addr: nat, data: nat, reg: nat, v: nat)
    requires m.ecIndexPort == 0 && reg < 256 && v < 256
    modifies m`index, m`bankReg, m`file, m`writes, m`io, m`reached, m`bus
    ensures OnlyConfig(old(m.reached), m.reached)
    ensures BaseOk(m.base) ==> MonitorIdle(m)
    ensures old(m.io) == [] ==> m.io == []
    ensures Clear(old(m.io), addr, data) ==> m.bus == old(m.bus) + Set(addr, data, reg, v)
    ensures old(m.bus) <= m.bus
  {
    ghost var bus := m.bus;
    var ok := ConfigWrite(m, addr, reg);
    if ok {
      ok := ConfigWrite(m, data, v);
    }
    Regroup(bus, [Put(addr, reg)], [Put(data, v)]);
  }

  /** ite_enter */
  method IteEnter(m: Machine, addr: nat) returns (ok: bool)
    requires m.ecIndexPort == 0
    modifies m`index, m`bankReg, m`file, m`writes, m`io, m`reached, m`bus
    ensures OnlyConfig(old(m.reached), m.reached)
    ensures BaseOk(m.base) ==> MonitorIdle(m)
    ensures old(m.io) == [] ==> m.io == []
    ensures old(m.io) == [] && ConfigPort(addr) ==> ok && m.bus == old(m.bus) + KeyOps(addr)
  {
    ok := ConfigWrite(m, addr, 0x87);
    if ok {
      ok := ConfigWrite(m, addr, 0x01);
    }
    if ok {
      ok := ConfigWrite(m, addr, 0x55);
    }
    if ok {
      ok := ConfigWrite(m, addr, if addr == 0x4E then 0xAA else 0x55);
    }
  }

  /** What ite_probe_and_read learns in config mode. */
  datatype Probe = Probe(id: nat, active: nat, base: nat)

  /** The enable bit and base of the environment controller, in that order. */
  method ReadDevice(m: Machine, addr: nat, data: nat, ghost id: Config)
    returns (active: nat, base: nat, ghost c: Config)
    requires m.ecIndexPort == 0
    modifies m`index, m`bankReg, m`file, m`writes, m`io, m`reached, m`bus, m`answers
    ensures OnlyConfig(old(m.reached), m.reached)
    ensures BaseOk(m.base) ==> MonitorIdle(m)
    ensures old(m.io) == [] ==> m.io == []
    ensures c == id.(active := c.active, hi := c.hi, lo := c.lo)
    ensures Clear(old(m.io), addr, data) ==>
              && m.bus == old(m.bus) + DeviceOps(addr, data, c)
              && (active % 2 == 1 <==> c.Enabled()) && base == c.Base()
  {
    ghost var bus := m.bus;
    ghost var sa: Reading, sh: Reading, sl: Reading;
    SioWriteReg(m, addr, data, 0x07, 0x04);
    active, sa := SioReadReg(m, addr, data, 0x30, 0);
    var hi, lo;
    hi, sh := SioReadReg(m, addr, data, 0x60, 0);
    lo, sl := SioReadReg(m, addr, data, 0x61, 0);
    base := hi * 256 + lo;
    base := base - base % 8;
    c := id.(active := sa, hi := sh, lo := sl);
    FourOps(bus, Set(addr, data, 0x07, 0x04), Asked(addr, data, 0x30, sa), Asked(addr, data, 0x60, sh),
            Asked(addr, data, 0x61, sl));
  }

  lemma FourOps(bus: seq<Op>, a: seq<Op>, b: seq<Op>, c: seq<Op>, d: seq<Op>)
    ensures (((bus + a) + b) + c) + d == bus + (((a + b) + c) + d)
  {
  }

  /** Read the chip ID; for a supported chip also the enable bit and the base; leave config mode. */
  method ReadConfig(m: Machine, addr: nat, data: nat) returns (p: Probe, ghost c: Config)
    requires m.ecIndexPort == 0
    modifies m`index, m`bankReg, m`file, m`writes, m`io, m`reached, m`bus, m`answers
    ensures OnlyConfig(old(m.reached), m.reached)
    ensures BaseOk(m.base) ==> MonitorIdle(m)
    ensures old(m.io) == [] ==> m.io == []
    ensures Clear(old(m.io), addr, data) ==>
              && m.bus == old(m.bus) + ConfigOps(addr, data, c)
              && p.id == c.Id()
              && (c.Known() ==> (p.active % 2 == 1 <==> c.Enabled()) && p.base == c.Base())
  {
    hide Ite.FindChip, OnlyConfig, BaseOk;
    ghost var s0, bus := m.reached, m.bus;
    ghost var s1: Reading, s2: Reading;
    var hi, lo;
    hi, s1 := SioReadReg(m, addr, data, 0x20, 0);
    ghost var r1 := m.reached;
    lo, s2 := SioReadReg(m, addr, data, 0x21, 0);
    OnlyConfigTwice(s0, r1, m.reached);
    var id := hi * 256 + lo;
    c := Config(s1, s2, -1, -1, -1);
    ghost var r2 := m.reached;
    if Ite.FindChip(id, 0).None? {
      SioWriteReg(m, addr, data, 0x02, 0x02);
      OnlyConfigTwice(s0, r2, m.reached);
      FourOps(bus, Asked(addr, data, 0x20, s1), Asked(addr, data, 0x21, s2), [], Set(addr, data, 0x02, 0x02));
      p := Probe(id, 0, 0);
      return;
    }
    var active, base;
    active, base, c := ReadDevice(m, addr, data, c);
    OnlyConfigTwice(s0, r2, m.reached);
    ghost var r3 := m.reached;
    SioWriteReg(m, addr, data, 0x02, 0x02);
    OnlyConfigTwice(s0, r3, m.reached);
    FourOps(bus, Asked(addr, data, 0x20, s1), Asked(addr, data, 0x21, s2), DeviceOps(addr, data, c),
            Set(addr, data, 0x02, 0x02));
    p := Probe(id, active, base);
  }

  lemma OnlyConfigTwice(s: seq<nat>, t: seq<nat>, u: seq<nat>)
    requires OnlyConfig(s, t) && OnlyConfig(t, u)
    ensures OnlyConfig(s, u)
  {
  }

  /** ITE chips answer on these two pairs alone. */
  predicate Standard(addr: nat) {
    addr == 0x2E || addr == 0x4E
  }

  /** The config-mode part of ite_probe_and_read; id 0 stands for no chip. With a driver that does not
      fail it is exactly the exchange IteOps, and the probe says what the chip showed in it. */
  method ProbeConfig(m: Machine, addr: nat, data: nat) returns (p: Probe, ghost c: Config)
    requires m.ecIndexPort == 0
    modifies m`index, m`bankReg, m`file, m`writes, m`io, m`reached, m`bus, m`answers
    ensures OnlyConfig(old(m.reached), m.reached)
    ensures BaseOk(m.base) ==> MonitorIdle(m)
    ensures old(m.io) == [] ==> m.io == []
    ensures Clear(old(m.io), addr, data) && Standard(addr) ==>
              && m.bus == old(m.bus) + IteOps(addr, data, c)
              && p.id == c.Id()
              && (c.Known() ==> (p.active % 2 == 1 <==> c.Enabled()) && p.base == c.Base())
    ensures !Standard(addr) ==> p.id == 0 && m.bus == old(m.bus)
  {
    hide Ite.FindChip, OnlyConfig, BaseOk, ConfigOps, KeyOps;
    c, p := Config(-1, -1, -1, -1, -1), Probe(0, 0, 0);
    ghost var s0, bus := m.reached, m.bus;
    NothingNew(m.reached, 0);
    if addr != 0x2E && addr != 0x4E {
      return;
    }
    var ok := IteEnter(m, addr);
    if !ok {
      return;
    }
    ghost var s1 := m.reached;
    p, c := ReadConfig(m, addr, data);
    OnlyConfigTwice(s0, s1, m.reached);
    Regroup(bus, KeyOps(addr), ConfigOps(addr, data, c));
  }

  /** If the driver does not fail and the monitor answers at `base`, the chip is left as found and r
      holds the readings of bank 0, or nothing if the bank register cannot be read. */
  twostate predicate Refines(m: Machine, base: nat, r: SuperIoResult)
    requires r.Valid()
    reads m, r, r.temperatures, r.fanRpms, r.voltages
  {
    old(m.io) == [] && base == m.base ==>
      && m.bankReg == old(m.bankReg) && m.file == old(m.file) && m.bankReadable == old(m.bankReadable)
      && if m.bankReadable then Ite.ReadsBank0(m.file, r.chipId, r.Temps(), r.Fans(), r.Volts())
         else r.count == r.fanCount == r.voltageCount == 0
  }

  /** The decode inside an open window at an accepted base. When the driver fails, the chip is in its bank
      again if and only if the writes to the bank register did not fail half way. */
  method DecodeWindowed(m: Machine, id: nat, base: nat, r: SuperIoResult)
    requires m.os == Windows && m.ecIndexPort == m.ecDataPort == 0 && BaseOk(base)
    requires Ite.FindChip(id, 0).Some?
    requires r.Valid() && r.count == r.fanCount == r.voltageCount == 0 && r.chipId == id
    modifies m, r, r.temperatures, r.fanRpms, r.voltages
    ensures r.Valid() && m.ecIndexPort == m.ecDataPort == 0
    ensures OnlyTo(old(m.reached), m.reached, base)
    ensures Refines(m, base, r) && r.chipId == id && m.bus == old(m.bus)
    ensures base == m.base ==>
              var chip := Ite.FindChip(id, 0).value;
              && m.file == old(m.file)
              && (m.bankReg == old(m.bankReg)
                  <==> !Lost(Windows, old(m.io), old(m.bankReadable), old(m.bankReg), chip.temps + 2 * chip.fans + 10))
  {
    hide Ite.FindChip, Ite.Temps, Ite.Fans, Ite.Voltages, Ite.ReadsBank0, Lost;
    m.ecIndexPort := base + INDEX_OFF;
    m.ecDataPort := base + DATA_OFF;
    AcceptedBaseIsAllowed(m, base);
    Ite.PassesReadBank0(m.file, id);
    assert r.Temps() == [] && r.Fans() == [] && r.Volts() == [];
    var ok := Decode(id, m, base, r);
    m.ecIndexPort := 0;
    m.ecDataPort := 0;
  }

  /** The part of ite_probe_and_read behind config mode, for a supported chip */
  method ReadMonitor(m: Machine, p: Probe, name: string, r: SuperIoResult) returns (ghost decoded: bool)
    requires m.os == Windows && m.ecIndexPort == m.ecDataPort == 0
    requires Ite.FindChip(p.id, 0).Some?
    requires r.Valid() && r.count == r.fanCount == r.voltageCount == 0
    modifies m, r, r.temperatures, r.fanRpms, r.voltages
    ensures r.Valid() && m.ecIndexPort == m.ecDataPort == 0
    ensures decoded == (p.active % 2 == 1 && BaseOk(p.base))
    ensures OnlyTo(old(m.reached), m.reached, p.base)
    ensures if decoded then Refines(m, p.base, r)
            else m.reached == old(m.reached) && r.count == r.fanCount == r.voltageCount == 0
    ensures r.chipId == p.id && m.bus == old(m.bus)
  {
    hide Ite.FindChip, BaseOk, Ite.ReadsBank0;
    r.chipName, r.chipId := name, p.id;
    decoded := false;
    if p.active % 2 != 1 || !BaseOk(p.base) {
      r.error := "ITE " + name + " hardware monitor is disabled or has an invalid base address";
      return;
    }
    decoded := true;
    DecodeWindowed(m, p.id, p.base, r);
  }

  /** A found chip is reported with its id, and is decoded exactly if it showed itself enabled with an
      accepted base, at that base. */
  predicate Tells(c: Config, found: bool, id: nat, decoded: bool, b: nat) {
    found ==> id == c.Id() && decoded == (c.Enabled() && BaseOk(c.Base())) && (decoded ==> b == c.Base())
  }

  lemma NoChip0()
    ensures Ite.FindChip(0, 0).None?
  {
  }

  /** ite_probe_and_read. The writes up to the log `mid` went to the standard config ports; those
      behind it went to base + 5 or base + 6 of the accepted base `b`, and there are none unless a
      base was accepted and decoded. The window is closed on return. If the driver does not fail and the
      monitor answers at the base it announced, the result is the decoder's for bank 0. */
  method ProbeAndRead(m: Machine, addr: nat, data: nat, r: SuperIoResult)
    returns (found: bool, ghost mid: seq<nat>, ghost b: nat, ghost decoded: bool, ghost c: Config)
    requires m.os == Windows && m.ecIndexPort == m.ecDataPort == 0
    requires r.Valid() && r.count == r.fanCount == r.voltageCount == 0
    modifies m, r, r.temperatures, r.fanRpms, r.voltages
    ensures r.Valid() && m.ecIndexPort == m.ecDataPort == 0
    ensures OnlyConfig(old(m.reached), mid) && OnlyTo(mid, m.reached, b)
    ensures if decoded then found && BaseOk(b) else mid == m.reached
    ensures if decoded then Refines(m, b, r) else r.count == r.fanCount == r.voltageCount == 0
    ensures !found ==> m.bankReadable == old(m.bankReadable) && (old(m.io) == [] ==> m.io == [])
    ensures !found && BaseOk(m.base) ==> MonitorIdle(m)
    ensures Clear(old(m.io), addr, data) && Standard(addr) ==>
              m.bus == old(m.bus) + IteOps(addr, data, c) && found == c.Known() && Tells(c, found, r.chipId, decoded, b)
    ensures !Standard(addr) ==> !found && m.bus == old(m.bus)
  {
    NoChip0();
    hide Ite.FindChip, Ite.ReadsBank0, BaseOk, OnlyConfig, OnlyTo, IteOps;
    var p;
    p, c := ProbeConfig(m, addr, data);
    NothingNew(m.reached, 0);
    found, mid, b, decoded := false, m.reached, 0, false;
    var chip := Ite.FindChip(p.id, 0);
    if chip.None? {
      return;
    }
    found, b := true, p.base;
    decoded := ReadMonitor(m, p, chip.value.name, r);
  }

  // ---- The readers ------------------------------------------------------------------

  datatype Kind = TempsKind | FansKind | VoltsKind

  const NUVOTON_IDS: set<nat> := {
    0xC803, 0xC833, 0xC911, 0xC913, 0xD121, 0xD122, 0xD352, 0xD423, 0xD42A, 0xD451, 0xD42B, 0xD802, 0xD806}

  const OTHER_IDS: set<nat> := {0xA020, 0xB070, 0x0541, 0x0723}

  /** The config port pairs a reader scans, in order. */
  function PortPairs(kind: Kind): seq<(nat, nat)> {
    if kind == TempsKind then
      [(0x2E, 0x2F), (0x4E, 0x4F), (0x162, 0x163), (0x3E0, 0x3E1), (0x4E0, 0x4E1)]
    else [(0x2E, 0x2F), (0x4E, 0x4F), (0x162, 0x163)]
  }

  /** The banked registers a reader asks a Nuvoton chip for, in order. */
  function NuvotonRegs(kind: Kind): seq<nat> {
    match kind
    case TempsKind => [0x073, 0x074, 0x075, 0x076, 0x077, 0x078, 0x079, 0x07A,
                       0x07B, 0x07C, 0x07D, 0x07E, 0x4A0, 0x49E, 0x4A2, 0x4A1]
    case FansKind => [0x4B0, 0x4B1, 0x4B2, 0x4B3, 0x4B4, 0x4B5, 0x4B6, 0x4B7,
                      0x4B8, 0x4B9, 0x4BA, 0x4BB, 0x4CC, 0x4CD]
    case VoltsKind => [0x480, 0x481, 0x482, 0x483, 0x484, 0x485, 0x486, 0x487,
                       0x488, 0x489, 0x48A, 0x48B, 0x48C, 0x48D, 0x48E, 0x48F]
  }

  /** sio_enter and sio_exit */
  method SioEnter(m: Machine, addr: nat) returns (ok: bool)
    requires m.ecIndexPort == 0
    modifies m`index, m`bankReg, m`file, m`writes, m`io, m`reached, m`bus
    ensures OnlyConfig(old(m.reached), m.reached)
    ensures BaseOk(m.base) ==> MonitorIdle(m)
    ensures old(m.io) == [] ==> m.io == []
    ensures old(m.io) == [] ==> ok == ConfigPort(addr)
    ensures old(m.io) == [] ==>
              m.bus == old(m.bus) + if ConfigPort(addr) then [Put(addr, 0x87), Put(addr, 0x87)] else []
    ensures old(m.bus) <= m.bus
  {
    ghost var bus := m.bus;
    ok := ConfigWrite(m, addr, 0x87);
    if ok {
      ok := ConfigWrite(m, addr, 0x87);
      Regroup(bus, [Put(addr, 0x87)], [Put(addr, 0x87)]);
    }
  }

  /** What the detection of other chips does on a config port pair */
  function DetectOps(addr: nat, data: nat, b1: Reading, b0: Reading): seq<Op> {
    [Put(addr, 0x87), Put(addr, 0x87)] + Asked(addr, data, 0x20, b1) + Asked(addr, data, 0x21, b0) + [Put(addr, 0xAA)]
  }

  /** sio_detect_chip */
  method DetectChip(m: Machine, addr: nat, data: nat) returns (id: nat, ghost b1: Reading, ghost b0: Reading)
    requires m.ecIndexPort == 0
    modifies m`index, m`bankReg, m`file, m`writes, m`io, m`reached, m`bus, m`answers
    ensures OnlyConfig(old(m.reached), m.reached)
    ensures BaseOk(m.base) ==> MonitorIdle(m)
    ensures old(m.io) == [] ==> m.io == []
    ensures Clear(old(m.io), addr, data) ==>
              id == Word(b1, b0) && m.bus == old(m.bus) + DetectOps(addr, data, b1, b0)
    ensures old(m.io) == [] && !ConfigPort(addr) ==> id == 0 && m.bus == old(m.bus)
    ensures old(m.bus) <= m.bus
  {
    ghost var bus := m.bus;
    b1, b0 := -1, -1;
    var ok := SioEnter(m, addr);
    if !ok {
      return 0, b1, b0;
    }
    var hi, lo;
    hi, b1 := SioReadReg(m, addr, data, 0x20, 0);
    lo, b0 := SioReadReg(m, addr, data, 0x21, 0);
    ok := ConfigWrite(m, addr, 0xAA);
    id := hi * 256 + lo;
    FourOps(bus, [Put(addr, 0x87), Put(addr, 0x87)], Asked(addr, data, 0x20, b1), Asked(addr, data, 0x21, b0),
            [Put(addr, 0xAA)]);
  }

  /** The lock register with bit 4 cleared, 0 where it could not be read */
  function Unlocked(lock: Reading): nat {
    if lock < 0 then 0 else lock - 16 * (lock / 16 % 2)
  }

  /** What disabling the lock does on a config port pair: register 0x28 is written back without its bit 4. */
  function UnlockOps(addr: nat, data: nat, lock: Reading): seq<Op> {
    [Put(addr, 0x87), Put(addr, 0x87)] + Asked(addr, data, 0x28, lock)
    + Set(addr, data, 0x28, Unlocked(lock)) + [Put(addr, 0xAA)]
  }

  /** Disable the I/O space lock: bit 4 of register 0x28. */
  method Unlock(m: Machine, addr: nat, data: nat) returns (ghost lock: Reading)
    requires m.ecIndexPort == 0
    modifies m`index, m`bankReg, m`file, m`writes, m`io, m`reached, m`bus, m`answers
    ensures OnlyConfig(old(m.reached), m.reached)
    ensures BaseOk(m.base) ==> MonitorIdle(m)
    ensures old(m.io) == [] ==> m.io == []
    ensures Clear(old(m.io), addr, data) ==> m.bus == old(m.bus) + UnlockOps(addr, data, lock)
    ensures old(m.bus) <= m.bus
  {
    ghost var bus := m.bus;
    lock := -1;
    var ok := SioEnter(m, addr);
    if ok {
      var v;
      v, lock := SioReadReg(m, addr, data, 0x28, 0);
      SioWriteReg(m, addr, data, 0x28, v - (v / 16 % 2) * 16);
      ok := ConfigWrite(m, addr, 0xAA);
      FourOps(bus, [Put(addr, 0x87), Put(addr, 0x87)], Asked(addr, data, 0x28, lock),
              Set(addr, data, 0x28, Unlocked(lock)), [Put(addr, 0xAA)]);
    }
  }

  /** nct679x_read_reg over a list of registers; the values read are not part of this model. */
  method ReadNuvoton(m: Machine, addr: nat, data: nat, regs: seq<nat>)
    requires m.ecIndexPort == 0
    modifies m`index, m`bankReg, m`file, m`writes, m`io, m`reached, m`bus, m`answers
    ensures OnlyConfig(old(m.reached), m.reached)
    ensures old(m.bus) <= m.bus
  {
    var i := 0;
    while i < |regs|
      invariant 0 <= i <= |regs|
      invariant OnlyConfig(old(m.reached), m.reached) && old(m.bus) <= m.bus
    {
      SioWriteReg(m, addr, data, 0x4E, regs[i] / 256 % 256);
      var v, _ := SioReadReg(m, addr, data, regs[i] % 256, 0);
      i := i + 1;
    }
  }

  predicate OtherKnown(id: nat) {
    id in NUVOTON_IDS || id in OTHER_IDS
  }

  /** The other chip families: detect, unlock and read. */
  method ProbeOthers(m: Machine, addr: nat, data: nat, kind: Kind)
    returns (found: bool, ghost b1: Reading, ghost b0: Reading, ghost lock: Reading)
    requires m.ecIndexPort == 0
    modifies m`index, m`bankReg, m`file, m`writes, m`io, m`reached, m`bus, m`answers
    ensures OnlyConfig(old(m.reached), m.reached)
    ensures !found && BaseOk(m.base) ==> MonitorIdle(m)
    ensures !found && old(m.io) == [] ==> m.io == []
    ensures Clear(old(m.io), addr, data) ==>
              && found == OtherKnown(Word(b1, b0))
              && (if found then old(m.bus) + DetectOps(addr, data, b1, b0) + UnlockOps(addr, data, lock) <= m.bus
                  else m.bus == old(m.bus) + DetectOps(addr, data, b1, b0))
    ensures old(m.io) == [] && !ConfigPort(addr) ==> !found && m.bus == old(m.bus)
  {
    hide DetectOps, UnlockOps;
    lock := -1;
    var id;
    id, b1, b0 := DetectChip(m, addr, data);
    found := id in NUVOTON_IDS || id in OTHER_IDS;
    if found {
      lock := Unlock(m, addr, data);
      if id in NUVOTON_IDS {
        ReadNuvoton(m, addr, data, NuvotonRegs(kind));
      }
    }
  }

  /** ite_filter: keep only the readings of one kind. */
  method Filter(r: SuperIoResult, kind: Kind)
    requires r.Valid()
    modifies r, r.temperatures, r.fanRpms, r.voltages
    ensures r.Valid() && r.chipId == old(r.chipId) && r.chipName == old(r.chipName)
    ensures r.Temps() == if kind == TempsKind then old(r.Temps()) else []
    ensures r.Fans() == if kind == FansKind then old(r.Fans()) else []
    ensures r.Volts() == if kind == VoltsKind then old(r.Volts()) else []
    ensures r.ok == (r.Temps() != [] || r.Fans() != [] || r.Volts() != [])
    ensures old(r.error) != "" ==> r.error == old(r.error)
    ensures r.ok || r.error != ""
  {
    if kind != TempsKind {
      r.count := 0;
      forall k | 0 <= k < r.temperatures.Length { r.temperatures[k] := 0; }
    }
    if kind != FansKind {
      r.fanCount := 0;
      forall k | 0 <= k < r.fanRpms.Length { r.fanRpms[k] := 0; }
    }
    if kind != VoltsKind {
      r.voltageCount := 0;
      forall k | 0 <= k < r.voltages.Length { r.voltages[k] := 0.0; }
    }
    r.ok := (kind == TempsKind && r.count != 0) || (kind == FansKind && r.fanCount != 0)
         || (kind == VoltsKind && r.voltageCount != 0);
    if !r.ok && r.error == "" {
      r.error := "No valid readings from " + r.chipName;
    }
  }

  /** The readings of one kind of bank 0, and nothing else. */
  ghost predicate Shows(file: RegisterFile, kind: Kind, id: nat, temps: seq<int>, fans: seq<int>, volts: seq<real>) {
    exists t, f, v :: Ite.ReadsBank0(file, id, t, f, v)
      && temps == (if kind == TempsKind then t else [])
      && fans == (if kind == FansKind then f else [])
      && volts == (if kind == VoltsKind then v else [])
  }

  /** Probe one port pair for an ITE chip and filter its result. */
  method ProbeFiltered(m: Machine, addr: nat, data: nat, kind: Kind)
    returns (found: bool, r: SuperIoResult, ghost mid: seq<nat>, ghost b: nat, ghost decoded: bool, ghost c: Config)
    requires m.os == Windows && m.ecIndexPort == m.ecDataPort == 0
    modifies m
    ensures fresh(r) && fresh(r.temperatures) && fresh(r.fanRpms) && fresh(r.voltages)
    ensures r.Valid() && m.ecIndexPort == m.ecDataPort == 0
    ensures OnlyConfig(old(m.reached), mid) && OnlyTo(mid, m.reached, b)
    ensures if decoded then found && BaseOk(b) else mid == m.reached
    ensures !found ==> m.bankReadable == old(m.bankReadable) && (old(m.io) == [] ==> m.io == [])
    ensures !found && BaseOk(m.base) ==> MonitorIdle(m)
    ensures decoded && old(m.io) == [] && b == m.base ==>
              && m.bankReg == old(m.bankReg) && m.file == old(m.file)
              && (old(m.bankReadable) ==> Shows(m.file, kind, r.chipId, r.Temps(), r.Fans(), r.Volts()))
    ensures !decoded || (old(m.io) == [] && b == m.base && !old(m.bankReadable)) ==>
              r.Temps() == [] && r.Fans() == [] && r.Volts() == []
    ensures found ==> r.ok == (r.Temps() != [] || r.Fans() != [] || r.Volts() != [])
    ensures Clear(old(m.io), addr, data) && Standard(addr) ==>
              m.bus == old(m.bus) + IteOps(addr, data, c) && found == c.Known() && Tells(c, found, r.chipId, decoded, b)
    ensures !Standard(addr) ==> !found && m.bus == old(m.bus)
  {
    hide BaseOk, Ite.ReadsBank0, Ite.FindChip, OnlyConfig, OnlyTo, Tells, IteOps;
    r := new SuperIoResult();
    found, mid, b, decoded, c := ProbeAndRead(m, addr, data, r);
    if found {
      Filter(r, kind);
    }
  }

  /** What the scan saw on a port pair: in the ITE exchange, in the detection of other chips, and in the
      lock register of one that was found */
  datatype Try = Try(ite: Config, b1: Reading, b0: Reading, lock: Reading)

  function TryOps(addr: nat, data: nat, t: Try): seq<Op> {
    if ConfigPort(addr) then IteOps(addr, data, t.ite) + DetectOps(addr, data, t.b1, t.b0) else []
  }

  /** The exchange over the first pairs */
  function ScanOps(pairs: seq<(nat, nat)>, ts: seq<Try>): seq<Op>
    requires |ts| <= |pairs|
  {
    if ts == [] then []
    else
      var k := |ts| - 1;
      ScanOps(pairs, ts[..k]) + TryOps(pairs[k].0, pairs[k].1, ts[k])
  }

  /** Neither an ITE chip nor one of the others was there. */
  predicate Missed(addr: nat, t: Try) {
    ConfigPort(addr) ==> !t.ite.Known() && !OtherKnown(Word(t.b1, t.b0))
  }

  /** From `start` on, the pair showed, in t, a known ITE chip, which is reported as it told, or else
      another known chip, whose lock is then cleared. */
  predicate Found(addr: nat, data: nat, start: seq<Op>, bus: seq<Op>, t: Try,
                  isIte: bool, id: nat, decoded: bool, b: nat) {
    && ConfigPort(addr) && isIte == t.ite.Known()
    && if isIte then bus == start + IteOps(addr, data, t.ite) && Tells(t.ite, true, id, decoded, b)
       else OtherKnown(Word(t.b1, t.b0)) && start + TryOps(addr, data, t) + UnlockOps(addr, data, t.lock) <= bus
  }

  /** With a driver that does not fail, this is the whole scan: the pairs of `ts` showed no chip; then the
      pairs came to an end, or the next one showed, in `last`, a known ITE chip, which is reported as
      it told, or else another known chip. */
  predicate Scanned(pairs: seq<(nat, nat)>, before: seq<Op>, bus: seq<Op>, ts: seq<Try>, last: Try,
                    found: bool, isIte: bool, id: nat, decoded: bool, b: nat) {
    && |ts| <= |pairs|
    && (forall j :: 0 <= j < |ts| ==> Missed(pairs[j].0, ts[j]))
    && var start := before + ScanOps(pairs, ts);
    if !found then |ts| == |pairs| && bus == start
    else
      && |ts| < |pairs|
      && Found(pairs[|ts|].0, pairs[|ts|].1, start, bus, last, isIte, id, decoded, b)
  }

  lemma PairsAreStandard(kind: Kind)
    ensures forall p :: p in PortPairs(kind) ==>
              (ConfigPort(p.0) <==> Standard(p.0)) && (ConfigPort(p.0) ==> ConfigPort(p.1))
  {
  }

  lemma ScanMore(pairs: seq<(nat, nat)>, before: seq<Op>, ts: seq<Try>, t: Try)
    requires |ts| < |pairs|
    ensures before + ScanOps(pairs, ts) + TryOps(pairs[|ts|].0, pairs[|ts|].1, t) == before + ScanOps(pairs, ts + [t])
  {
    assert (ts + [t])[..|ts|] == ts;
    Regroup(before, ScanOps(pairs, ts), TryOps(pairs[|ts|].0, pairs[|ts|].1, t));
  }

  /** The scan of one port pair */
  method ScanPair(m: Machine, addr: nat, data: nat, kind: Kind)
    returns (found: bool, r: SuperIoResult, ghost isIte: bool, ghost mid: seq<nat>, ghost b: nat, ghost decoded: bool,
             ghost t: Try)
    requires m.os == Windows && m.ecIndexPort == m.ecDataPort == 0
    requires (ConfigPort(addr) <==> Standard(addr)) && (ConfigPort(addr) ==> ConfigPort(data))
    modifies m
    ensures fresh(r) && r.Valid()
    ensures m.ecIndexPort == m.ecDataPort == 0
    ensures OnlyConfig(old(m.reached), mid) && OnlyTo(mid, m.reached, b)
    ensures isIte ==> found
    ensures if decoded then isIte && BaseOk(b) else mid == m.reached
    ensures !found ==> m.bankReadable == old(m.bankReadable) && (old(m.io) == [] ==> m.io == [])
    ensures !found && BaseOk(m.base) ==> MonitorIdle(m)
    ensures decoded && old(m.io) == [] && b == m.base ==>
              && m.bankReg == old(m.bankReg) && m.file == old(m.file)
              && (old(m.bankReadable) ==> Shows(m.file, kind, r.chipId, r.Temps(), r.Fans(), r.Volts()))
    ensures (isIte && !decoded) || (decoded && old(m.io) == [] && b == m.base && !old(m.bankReadable)) ==>
              r.Temps() == [] && r.Fans() == [] && r.Volts() == []
    ensures old(m.io) == [] ==>
              if found then Found(addr, data, old(m.bus), m.bus, t, isIte, r.chipId, decoded, b)
              else Missed(addr, t) && m.bus == old(m.bus) + TryOps(addr, data, t)
    ensures isIte ==> r.ok == (r.Temps() != [] || r.Fans() != [] || r.Volts() != [])
  {
    hide BaseOk, Shows, OnlyConfig, OnlyTo, Tells, IteOps, DetectOps, Ite.FindChip, OtherKnown;
    ghost var start, bus, c := m.reached, m.bus, Config(-1, -1, -1, -1, -1);
    found, r, mid, b, decoded, c := ProbeFiltered(m, addr, data, kind);
    t, isIte := Try(c, -1, -1, -1), found;
    if found {
      return;
    }
    ghost var b1, b0, lock;
    found, b1, b0, lock := ProbeOthers(m, addr, data, kind);
    t := Try(c, b1, b0, lock);
    Regroup(bus, IteOps(addr, data, c), DetectOps(addr, data, b1, b0));
    OnlyConfigTwice(start, mid, m.reached);
    mid := m.reached;
    NothingNew(mid, b);
  }

  /** hwsense_superio_temps, _fans and _voltages. Over any answers and any driver failures, every
      write that reaches the driver goes to 0x2E, 0x2F, 0x4E or 0x4F, or, at the end and only
      within the decode of an ITE chip, to base + 5 or base + 6 of an accepted base; the window is
      closed on return. If a chip is decoded, the driver does not fail and the monitor answers at the
      base it announced, then the whole scan leaves the monitor as it was, and the result is what
      the reader was asked for of the bank 0 the monitor had at the start. Nothing is said of the
      readings of other chips. With a driver that does not fail, Scanned says what is found. */
  method ReadSensors(m: Machine, kind: Kind)
    returns (found: bool, r: SuperIoResult, ghost isIte: bool, ghost mid: seq<nat>, ghost b: nat, ghost decoded: bool,
             ghost ts: seq<Try>, ghost last: Try)
    requires m.os == Windows && m.ecIndexPort == m.ecDataPort == 0
    modifies m
    ensures fresh(r) && r.Valid()
    ensures m.ecIndexPort == m.ecDataPort == 0
    ensures OnlyConfig(old(m.reached), mid) && OnlyTo(mid, m.reached, b)
    ensures isIte ==> found
    ensures if decoded then isIte && BaseOk(b) else mid == m.reached
    ensures decoded && old(m.io) == [] && b == m.base ==>
              && m.bankReg == old(m.bankReg) && m.file == old(m.file)
              && (old(m.bankReadable) ==> Shows(m.file, kind, r.chipId, r.Temps(), r.Fans(), r.Volts()))
    ensures !found || (isIte && !decoded) || (decoded && old(m.io) == [] && b == m.base && !old(m.bankReadable)) ==>
              r.Temps() == [] && r.Fans() == [] && r.Volts() == []
    ensures old(m.io) == [] ==>
              Scanned(PortPairs(kind), old(m.bus), m.bus, ts, last, found, isIte, r.chipId, decoded, b)
    ensures !found || isIte ==> r.ok == (r.Temps() != [] || r.Fans() != [] || r.Volts() != [])
  {
    PairsAreStandard(kind);
    hide BaseOk, Shows, OnlyConfig, OnlyTo, ConfigPort, PortPairs, Found, Missed, ScanOps, TryOps;
    var pairs := PortPairs(kind);
    ts, last := [], Try(Config(-1, -1, -1, -1, -1), -1, -1, -1);
    NoScan(pairs, m.bus);
    r := new SuperIoResult();
    mid, b, found, isIte, decoded := m.reached, 0, false, false, false;
    NothingNew(m.reached, 0);
    var p := 0;
    while p < |pairs|
      invariant 0 <= p <= |pairs| && !decoded && !isIte && !found
      invariant fresh(r) && r.Valid() && r.Temps() == [] && r.Fans() == [] && r.Volts() == [] && !r.ok
      invariant m.ecIndexPort == m.ecDataPort == 0
      invariant mid == m.reached && OnlyConfig(old(m.reached), m.reached) && OnlyTo(mid, m.reached, b)
      invariant m.bankReadable == old(m.bankReadable) && (old(m.io) == [] ==> m.io == [])
      invariant BaseOk(m.base) ==> MonitorIdle(m)
      invariant |ts| == p && (old(m.io) == [] ==> m.bus == old(m.bus) + ScanOps(pairs, ts))
      invariant old(m.io) == [] ==> forall j :: 0 <= j < p ==> Missed(pairs[j].0, ts[j])
    {
      ghost var start := m.reached;
      var result;
      found, result, isIte, mid, b, decoded, last := ScanPair(m, pairs[p].0, pairs[p].1, kind);
      OnlyConfigTwice(old(m.reached), start, mid);
      if found {
        r := result;
        return;
      }
      ScanMore(pairs, old(m.bus), ts, last);
      ts := ts + [last];
      p := p + 1;
    }
  }

  lemma NoScan(pairs: seq<(nat, nat)>, bus: seq<Op>)
    ensures bus + ScanOps(pairs, []) == bus
  {
  }
}
