/** Discovery of Super I/O chips on Linux (nct_find, ite_find): entering and leaving config mode. */
module ConfigMode {
  import Bits
  import Nct
  import Ite

  datatype Family = Nuvoton | ITE

  /** The bytes that unlock config mode when written to the index port in a row. */
  function Key(f: Family, io: nat): (k: seq<nat>)
    ensures |k| >= 2
  {
    if f == Nuvoton then [0x87, 0x87]
    else [0x87, 0x01, 0x55, if io == 0x4e then 0xaa else 0x55]
  }

  /** How far a chip has been unlocked, or that it is in config mode. */
  datatype Mode = Locked(matched: nat) | Config

  /** A read or write of a config register through the data port; a failed read gives -1. */
  datatype Access = Read(reg: nat, v: int) | Write(reg: nat, v: int)

  function AfterIndex(f: Family, io: nat, mode: Mode, v: nat): Mode {
    if mode == Config then (if f == Nuvoton && v == 0xaa then Locked(0) else Config)
    else
      var key := Key(f, io);
      if mode.matched < |key| && v == key[mode.matched] then
        if mode.matched + 1 == |key| then Config else Locked(mode.matched + 1)
      else if v == key[0] then Locked(1)
      else Locked(0)
  }

  /** An ITE chip leaves config mode when bit 1 of register 0x02 is set. */
  function AfterData(f: Family, mode: Mode, index: nat, v: nat): Mode {
    if f == ITE && mode == Config && index == 0x02 && v / 2 % 2 == 1 then Locked(0) else mode
  }

  /** One config port pair, io and io + 1, with a chip that may answer anything. */
  class ConfigPort {
    const family: Family
    const io: nat
    var mode: Mode
    var index: nat
    var answers: seq<int>         // what the coming data reads return, -1 for a failure
    ghost var log: seq<Access>    // what happened at the data port so far

    ghost predicate Valid()
      reads this
    {
      && (mode.Locked? ==> mode.matched < |Key(family, io)|)
      && forall k :: 0 <= k < |answers| ==> -1 <= answers[k] <= 255
    }

    /** hwsense_outb(io, v) */
    method OutIndex(v: nat)
      requires Valid() && v < 256
      modifies this`mode, this`index
      ensures Valid()
      ensures mode == AfterIndex(family, io, old(mode), v)
      ensures index == if old(mode) == Config then v else old(index)
    {
      if mode == Config {
        index := v;
      }
      mode := AfterIndex(family, io, mode, v);
    }

    /** hwsense_outb(io + 1, v) */
    method OutData(v: nat)
      requires Valid() && v < 256
      modifies this`mode, this`log
      ensures Valid()
      ensures log == old(log) + [Write(index, v)]
      ensures mode == AfterData(family, old(mode), index, v)
    {
      log := log + [Write(index, v)];
      mode := AfterData(family, mode, index, v);
    }

    /** hwsense_inb(io + 1) */
    method In() returns (v: int)
      requires Valid()
      modifies this`answers, this`log
      ensures Valid() && -1 <= v <= 255
      ensures log == old(log) + [Read(index, v)]
      ensures v == if old(answers) == [] then -1 else old(answers)[0]
      ensures answers == if old(answers) == [] then [] else old(answers)[1..]
    {
      v := if answers == [] then -1 else answers[0];
      answers := if answers == [] then [] else answers[1..];
      log := log + [Read(index, v)];
    }

    /** cfg_read: only in config mode does the data port show the register. */
    method CfgRead(reg: nat) returns (v: int)
      requires Valid() && mode == Config && reg < 256 && reg != 0xaa
      modifies this`mode, this`index, this`answers, this`log
      ensures Valid() && mode == Config && -1 <= v <= 255
      ensures log == old(log) + [Read(reg, v)]
    {
      OutIndex(reg);
      v := In();
    }

    /** cfg_write */
    method CfgWrite(reg: nat, v: nat)
      requires Valid() && mode == Config && reg < 256 && reg != 0xaa && v < 256
      modifies this`mode, this`index, this`log
      ensures Valid() && mode == AfterData(family, Config, reg, v)
      ensures log == old(log) + [Write(reg, v)]
    {
      OutIndex(reg);
      OutData(v);
    }
  }

  // ---- Arithmetic of C ints that may be -1 -----------------------------------------

  /** (hi << 8) | lo, where a failed read is -1. */
  function Join(hi: int, lo: int): int {
    if lo == -1 then -1 else if hi == -1 then -256 + lo else hi * 256 + lo
  }

  /** (unsigned)(v & ~0x7) */
  function Aligned(v: int): nat {
    var w := v % 0x1_0000_0000;
    w - w % 8
  }

  lemma JoinInRange(hi: int, lo: int)
    requires -1 <= hi <= 255 && -1 <= lo <= 255
    ensures if hi >= 0 && lo >= 0 then 0 <= Join(hi, lo) < 0x10000 else -256 <= Join(hi, lo) < 0
  {
  }

  lemma AlignedInRange(v: int)
    requires -256 <= v < 0x10000
    ensures Aligned(v) % 8 == 0
    ensures if v < 0 then Aligned(v) > 0xfff8 else v - 8 < Aligned(v) <= v
  {
    if v < 0 {
      assert v % 0x1_0000_0000 == v + 0x1_0000_0000;
    }
  }

  /** active & 1, where a failed read is -1 */
  predicate Enabled(active: int) {
    active % 2 == 1
  }

  /** A base in the range the caller can use. */
  predicate UsableBase(base: nat) {
    8 <= base <= 0xfff0 && base % 8 == 0
  }

  /** The bytes a chip showed on one port, -1 for one that could not be read. */
  datatype Seen = Seen(b1: int, b0: int, active: int, hi: int, lo: int, lock: int) {
    predicate Bytes() {
      -1 <= b1 <= 255 && -1 <= b0 <= 255 && -1 <= active <= 255 && -1 <= hi <= 255 && -1 <= lo <= 255
      && -1 <= lock <= 255
    }

    function Base(): nat {
      Aligned(Join(hi, lo))
    }

    /** The chip is enabled and its base is neither of the two unset values. */
    predicate Accepted() {
      Enabled(active) && Base() != 0 && Base() != 0xfff8
    }
  }

  /** Success means an enable bit that is set and a usable base exactly when all three registers
      were really read: the code does not check them for failure. */
  lemma AcceptedIffRead(s: Seen)
    requires s.Bytes() && s.Accepted()
    ensures s.active >= 0 && s.hi >= 0 && s.lo >= 0 <==> s.active > 0 && UsableBase(s.Base())
  {
    hide Aligned, Join;
    JoinInRange(s.hi, s.lo);
    AlignedInRange(Join(s.hi, s.lo));
  }

  /** Selecting a logical device and reading its enable bit and base. */
  function DeviceAccesses(device: nat, s: Seen): seq<Access> {
    [Write(0x07, device), Read(0x30, s.active), Read(0x60, s.hi), Read(0x61, s.lo)]
  }

  method ReadDevice(p: ConfigPort, device: nat) returns (active: int, hi: int, lo: int)
    requires p.Valid() && p.mode == Config && device < 256
    modifies p
    ensures p.Valid() && p.mode == Config
    ensures -1 <= active <= 255 && -1 <= hi <= 255 && -1 <= lo <= 255
    ensures p.log == old(p.log) + [Write(0x07, device), Read(0x30, active), Read(0x60, hi), Read(0x61, lo)]
  {
    p.CfgWrite(0x07, device);
    active := p.CfgRead(0x30);
    hi := p.CfgRead(0x60);
    lo := p.CfgRead(0x61);
  }

  // ---- Nuvoton -----------------------------------------------------------------------

  predicate NctKnown(s: Seen) {
    var id := Join(s.b1, s.b0);
    id >= 0 && Nct.FindChip(id, |Nct.CHIPS|).Some?
  }

  /** What the bytes mean when they could be read: the chip id is known if it differs from a table id in
      its low three bits only; the base is 256 * hi + lo without its low three bits. */
  lemma NctBytesMean(s: Seen)
    requires s.Bytes() && s.b1 >= 0 && s.b0 >= 0
    ensures NctKnown(s) <==>
              exists k :: 0 <= k < |Nct.CHIPS| && Nct.CHIPS[k].id <= 256 * s.b1 + s.b0 < Nct.CHIPS[k].id + 8
    ensures s.hi >= 0 && s.lo >= 0 ==> s.Base() == 256 * s.hi + s.lo - s.lo % 8
    ensures s.active >= 0 && s.hi >= 0 && s.lo >= 0 ==>
              (s.Accepted() <==> s.active % 2 == 1 && 8 <= s.Base() < 0xfff8)
  {
    hide Nct.FindChip;
    var id, n := Join(s.b1, s.b0), |Nct.CHIPS|;
    BaseMeans(s);
    if NctKnown(s) {
      var k := Nct.FoundAmong(id, n);
      Nct.FoundIff(id, n, k);
    }
    forall k | 0 <= k < n && Nct.CHIPS[k].id <= id < Nct.CHIPS[k].id + 8 ensures NctKnown(s) {
      Nct.FoundIff(id, n, k);
    }
  }

  lemma BaseMeans(s: Seen)
    requires s.Bytes()
    ensures s.hi >= 0 && s.lo >= 0 ==> s.Base() == 256 * s.hi + s.lo - s.lo % 8
    ensures s.active >= 0 && s.hi >= 0 && s.lo >= 0 ==>
              (s.Accepted() <==> s.active % 2 == 1 && 8 <= s.Base() < 0xfff8)
  {
    if s.hi >= 0 && s.lo >= 0 {
      var v := 256 * s.hi + s.lo;
      assert v % 0x1_0000_0000 == v && v % 8 == s.lo % 8;
    }
  }

  /** An input for which it fails: a known chip whose high base byte cannot be read is accepted, with a
      base far outside the 16-bit port space. */
  lemma FailedBaseByteIsAccepted()
    ensures var s := Seen(0xd4, 0x28, 1, -1, 0x90, -1);
            s.Bytes() && NctKnown(s) && s.Accepted() && s.Base() == 0xffffff90 && !UsableBase(s.Base())
  {
  }

  /** What nct_find does at the data port of one chip. C leaves open in which order the two reads of the
      chip id happen, as operands of one expression; the model takes the high byte first. */
  function NctAccesses(s: Seen): seq<Access> {
    [Read(0x20, s.b1), Read(0x21, s.b0)]
    + if !NctKnown(s) then []
      else DeviceAccesses(0x0b, s) + NctUnlock(s)
  }

  function NctUnlock(s: Seen): seq<Access> {
    var id := Join(s.b1, s.b0);
    if id - id % 8 < 0xc800 then []
    else [Read(0x28, s.lock)]
         + if s.lock >= 0 && Bits.Bit(s.lock, 4) then [Write(0x28, Bits.ClearBit(s.lock, 4))] else []
  }

  /** The whole exchange with a known chip: its hardware monitor is selected and asked, and the lock is
      looked at in every family but the oldest. */
  lemma NctAccessesAre(s: Seen)
    requires s.Bytes() && NctKnown(s)
    ensures NctAccesses(s)[..6]
            == [Read(0x20, s.b1), Read(0x21, s.b0), Write(0x07, 0x0b),
                Read(0x30, s.active), Read(0x60, s.hi), Read(0x61, s.lo)]
    ensures NctAccesses(s)[6..]
            == if 256 * s.b1 + s.b0 < 0xc568 then []
               else if s.lock / 16 % 2 == 0 || s.lock < 0 then [Read(0x28, s.lock)]
               else [Read(0x28, s.lock), Write(0x28, s.lock - 16)]
  {
    NctBytesMean(s);
    hide Nct.FindChip;
    if s.lock >= 0 {
      Bits.BitAt(s.lock, 4);
      Bits.ClearBitIs(s.lock, 4);
      assert Bits.Pow2(4) == 16;
    }
  }

  /** Apart from selecting the logical device, only bit 4 of register 0x28 is ever changed: the
      value written is the one just read with that bit cleared. */
  lemma NctChangesOnlyLock(s: Seen, k: nat)
    requires s.Bytes() && k < |NctAccesses(s)| && NctAccesses(s)[k].Write?
    ensures var log := NctAccesses(s);
            || log[k] == Write(0x07, 0x0b)
            || (&& k > 0 && log[k - 1].Read? && log[k].reg == log[k - 1].reg == 0x28
                && log[k - 1].v >= 0 && log[k].v >= 0
                && forall b: nat :: Bits.Bit(log[k].v, b) == (b != 4 && Bits.Bit(log[k - 1].v, b)))
  {
    hide Nct.FindChip;
    if NctKnown(s) && k > 2 {
      assert NctAccesses(s)[k] == NctUnlock(s)[k - 6];
      assert k == 7 && NctAccesses(s)[6] == NctUnlock(s)[0];
      forall b: nat ensures Bits.Bit(Bits.ClearBit(s.lock, 4), b) == (b != 4 && Bits.Bit(s.lock, b)) {
        Bits.ClearBitClears(s.lock, 4, b);
      }
    }
  }

  /** One pass of nct_find over a port: whatever the chip answers, config mode is left. */
  method NctTry(p: ConfigPort) returns (known: bool, id: int, active: int, base: nat, ghost s: Seen)
    requires p.Valid() && p.family == Nuvoton
    modifies p
    ensures p.Valid() && p.mode == Locked(0)
    ensures s.Bytes() && p.log == old(p.log) + NctAccesses(s)
    ensures known == NctKnown(s)
    ensures known ==> id == Join(s.b1, s.b0) && active == s.active && base == s.Base()
  {
    hide Nct.FindChip, Aligned, Join;
    p.OutIndex(0x87);
    p.OutIndex(0x87);
    var b1 := p.CfgRead(0x20);
    var b0 := p.CfgRead(0x21);
    id, active, base := Join(b1, b0), -1, 0;
    if id < 0 || Nct.FindChip(id, |Nct.CHIPS|).None? {
      p.OutIndex(0xaa);
      s := Seen(b1, b0, -1, -1, -1, -1);
      return false, id, active, base, s;
    }
    var hi, lo;
    active, hi, lo := ReadDevice(p, 0x0b);
    var lock := NctClearLock(p, id);
    p.OutIndex(0xaa);
    known, base := true, Aligned(Join(hi, lo));
    s := Seen(b1, b0, active, hi, lo, lock);
  }

  /** The I/O space lock of the later chips */
  method NctClearLock(p: ConfigPort, id: int) returns (lock: int)
    requires p.Valid() && p.family == Nuvoton && p.mode == Config
    modifies p
    ensures p.Valid() && p.mode == Config && -1 <= lock <= 255
    ensures forall s: Seen :: Join(s.b1, s.b0) == id && s.lock == lock ==>
              p.log == old(p.log) + NctUnlock(s)
  {
    lock := -1;
    if id - id % 8 >= 0xc800 {
      lock := p.CfgRead(0x28);
      if lock >= 0 && Bits.Bit(lock, 4) {
        p.CfgWrite(0x28, Bits.ClearBit(lock, 4));
      }
    }
  }

  /** nct_find over the ports 0x2e and 0x4e. Every port it entered is out of config mode again;
      the second port is touched only if the first shows no known chip. */
  method NctFind(p0: ConfigPort, p1: ConfigPort)
    returns (ok: bool, id: int, base: nat, ghost s0: Seen, ghost s1: Seen)
    requires p0 != p1 && p0.Valid() && p1.Valid()
    requires p0.family == p1.family == Nuvoton && p0.io == 0x2e && p1.io == 0x4e
    modifies p0, p1
    ensures s0.Bytes() && s1.Bytes()
    ensures p0.mode == Locked(0) && p0.log == old(p0.log) + NctAccesses(s0)
    ensures if NctKnown(s0) then p1.mode == old(p1.mode) && p1.log == old(p1.log)
            else p1.mode == Locked(0) && p1.log == old(p1.log) + NctAccesses(s1)
    ensures var s := if NctKnown(s0) then s0 else s1;
            && ok == (NctKnown(s) && s.Accepted())
            && (ok ==> id == Join(s.b1, s.b0) && base == s.Base())
  {
    hide NctKnown, NctAccesses, Aligned, Join;
    s0, s1 := Seen(-1, -1, -1, -1, -1, -1), Seen(-1, -1, -1, -1, -1, -1);
    ok, id, base := false, -1, 0;
    var ports := [p0, p1];
    var i := 0;
    while i < |ports|
      invariant 0 <= i <= 2 && !ok && p0.Valid() && p1.Valid() && s0.Bytes() && s1.Bytes()
      invariant i > 0 ==> p0.mode == Locked(0) && p0.log == old(p0.log) + NctAccesses(s0) && !NctKnown(s0)
      invariant i > 1 ==> p1.mode == Locked(0) && p1.log == old(p1.log) + NctAccesses(s1) && !NctKnown(s1)
      invariant i == 0 ==> p0.log == old(p0.log)
      invariant i <= 1 ==> p1.mode == old(p1.mode) && p1.log == old(p1.log)
    {
      var known, active;
      ghost var s;
      known, id, active, base, s := NctTry(ports[i]);
      if i == 0 { s0 := s; } else { s1 := s; }
      i := i + 1;
      if known {
        ok := Enabled(active) && base != 0 && base != 0xfff8;
        return;
      }
    }
  }

  // ---- ITE ---------------------------------------------------------------------------

  predicate IteKnown(s: Seen) {
    var id := Join(s.b1, s.b0);
    id > 0 && Ite.FindChip(id, 0).Some?
  }

  /** The same for ITE chips, whose id must be in the table as it is. */
  lemma IteBytesMean(s: Seen)
    requires s.Bytes() && s.b1 >= 0 && s.b0 >= 0
    ensures IteKnown(s) <==> exists k :: 0 <= k < |Ite.CHIPS| && Ite.CHIPS[k].id == 256 * s.b1 + s.b0
  {
    hide Ite.FindChip;
    var id := Join(s.b1, s.b0);
    if IteKnown(s) {
      var k := Ite.FoundAt(id, 0);
    }
    forall k | 0 <= k < |Ite.CHIPS| && Ite.CHIPS[k].id == id ensures IteKnown(s) {
      Ite.FoundIff(id, 0, k);
      IteIdsArePositive();
    }
  }

  lemma IteIdsArePositive()
    ensures forall k :: 0 <= k < |Ite.CHIPS| ==> Ite.CHIPS[k].id > 0
  {
  }

  /** The same for an ITE chip, and for an enable bit that cannot be read: -1 passes for enabled. */
  lemma FailedBytesAreAccepted()
    ensures var s := Seen(0x86, 0x55, 1, -1, 0x90, -1);
            s.Bytes() && IteKnown(s) && s.Accepted() && s.Base() == 0xffffff90 && !UsableBase(s.Base())
    ensures var s := Seen(0x86, 0x55, -1, 0x02, 0x90, -1);
            s.Bytes() && IteKnown(s) && s.Accepted() && s.active < 0
  {
    assert Ite.CHIPS[0].id == 0x8655;
  }

  /** What ite_find does at the data port of one chip, with the same choice for the chip id. */
  function IteAccesses(s: Seen): seq<Access> {
    [Read(0x20, s.b1), Read(0x21, s.b0)]
    + (if !IteKnown(s) then []
       else DeviceAccesses(0x04, s))
    + [Write(0x02, 0x02)]
  }

  /** The whole exchange with a known chip: the environment controller is selected and asked, nothing
      else is written but the exit. */
  lemma IteAccessesAre(s: Seen)
    requires s.Bytes() && IteKnown(s)
    ensures IteAccesses(s)
            == [Read(0x20, s.b1), Read(0x21, s.b0), Write(0x07, 0x04), Read(0x30, s.active), Read(0x60, s.hi),
                Read(0x61, s.lo), Write(0x02, 0x02)]
  {
  }

  /** The ITE key opens config mode from any mode. */
  method IteUnlock(p: ConfigPort)
    requires p.Valid() && p.family == ITE
    modifies p`mode, p`index
    ensures p.Valid() && p.mode == Config
  {
    p.OutIndex(0x87);
    p.OutIndex(0x01);
    p.OutIndex(0x55);
    p.OutIndex(if p.io == 0x4e then 0xaa else 0x55);
  }

  /** One pass of ite_find over a port: whatever the chip answers, config mode is left. */
  method IteTry(p: ConfigPort) returns (known: bool, id: int, active: int, base: nat, ghost s: Seen)
    requires p.Valid() && p.family == ITE
    modifies p
    ensures p.Valid() && p.mode == Locked(0)
    ensures s.Bytes() && p.log == old(p.log) + IteAccesses(s)
    ensures known == IteKnown(s)
    ensures known ==> id == Join(s.b1, s.b0) && active == s.active && base == s.Base()
  {
    hide Ite.FindChip, Aligned, Join, AfterIndex;
    IteUnlock(p);
    var b1 := p.CfgRead(0x20);
    var b0 := p.CfgRead(0x21);
    id, active, base := Join(b1, b0), -1, 0;
    if id > 0 && Ite.FindChip(id, 0).Some? {
      var hi, lo;
      active, hi, lo := ReadDevice(p, 0x04);
      p.CfgWrite(0x02, 0x02);
      known, base := true, Aligned(Join(hi, lo));
      s := Seen(b1, b0, active, hi, lo, -1);
      return;
    }
    p.CfgWrite(0x02, 0x02);
    known, s := false, Seen(b1, b0, -1, -1, -1, -1);
  }

  /** ite_find over the ports 0x2e and 0x4e, with the guarantees of nct_find. */
  method IteFind(p0: ConfigPort, p1: ConfigPort)
    returns (ok: bool, id: int, base: nat, ghost s0: Seen, ghost s1: Seen)
    requires p0 != p1 && p0.Valid() && p1.Valid()
    requires p0.family == p1.family == ITE && p0.io == 0x2e && p1.io == 0x4e
    modifies p0, p1
    ensures s0.Bytes() && s1.Bytes()
    ensures p0.mode == Locked(0) && p0.log == old(p0.log) + IteAccesses(s0)
    ensures if IteKnown(s0) then p1.mode == old(p1.mode) && p1.log == old(p1.log)
            else p1.mode == Locked(0) && p1.log == old(p1.log) + IteAccesses(s1)
    ensures var s := if IteKnown(s0) then s0 else s1;
            && ok == (IteKnown(s) && s.Accepted())
            && (ok ==> id == Join(s.b1, s.b0) && base == s.Base())
  {
    hide IteKnown, IteAccesses, Aligned, Join;
    s0, s1 := Seen(-1, -1, -1, -1, -1, -1), Seen(-1, -1, -1, -1, -1, -1);
    ok, id, base := false, -1, 0;
    var ports := [p0, p1];
    var i := 0;
    while i < |ports|
      invariant 0 <= i <= 2 && !ok && p0.Valid() && p1.Valid() && s0.Bytes() && s1.Bytes()
      invariant i > 0 ==> p0.mode == Locked(0) && p0.log == old(p0.log) + IteAccesses(s0) && !IteKnown(s0)
      invariant i > 1 ==> p1.mode == Locked(0) && p1.log == old(p1.log) + IteAccesses(s1) && !IteKnown(s1)
      invariant i == 0 ==> p0.log == old(p0.log)
      invariant i <= 1 ==> p1.mode == old(p1.mode) && p1.log == old(p1.log)
    {
      var known, active;
      ghost var s;
      known, id, active, base, s := IteTry(ports[i]);
      if i == 0 { s0 := s; } else { s1 := s; }
      i := i + 1;
      if known {
        ok := Enabled(active) && base != 0 && base != 0xfff8;
        return;
      }
    }
  }
}
