/** The banked access of nct_linux.c: a chip with an index latch and a bank register, the reader
    that caches the bank, and the decoder run through it. */
module NctHost {
  import opened SuperIo
  import opened Bits
  import opened Nct
  import opened Wrappers
  import opened Sequences

  const REG_BANK := 0x4e

  /** The monitor behind base + 5 (index) and base + 6 (data). Port writes take effect. */
  class NctChip {
    var index: nat
    var bank: Byte
    var file: RegisterFile
    var bankReadable: bool             // whether reading the bank register works
    ghost var writes: seq<(nat, nat)>  // data writes so far: index and value

    constructor (bank: Byte, file: RegisterFile, bankReadable: bool)
      ensures this.bank == bank && this.file == file && this.bankReadable == bankReadable && writes == []
    {
      this.index, this.bank, this.file, this.bankReadable := 0, bank, file, bankReadable;
      writes := [];
    }

    method OutIndex(v: nat)
      modifies this`index
      ensures index == v
    {
      index := v;
    }

    method OutData(v: Byte)
      modifies this`bank, this`file, this`writes
      ensures writes == old(writes) + [(index, v)]
      ensures bank == if index == REG_BANK then v else old(bank)
      ensures file == if index == REG_BANK then old(file) else Stored(old(file), old(bank) * 256 + index, v)
    {
      writes := writes + [(index, v)];
      if index == REG_BANK {
        bank := v;
      } else {
        file := Stored(file, bank * 256 + index, v);
      }
    }

    /** hwsense_inb(base + 6) */
    function InData(): Reading
      reads this
    {
      if index == REG_BANK then (if bankReadable then bank else -1) else file(bank * 256 + index)
    }
  }

  /** A register number the decoder may use: it is not the bank register itself. */
  predicate Banked(reg: nat) {
    reg % 256 != REG_BANK && reg < 0x10000
  }

  class NctReader {
    const chip: NctChip
    var bank: int  // the cache: the chip's bank, negative while that is not known

    /** The cached bank is unknown or the chip's. */
    ghost predicate Coherent()
      reads this, chip
    {
      bank == -1 || bank == chip.bank
    }

    constructor (chip: NctChip, bank: int)
      ensures this.chip == chip && this.bank == bank
    {
      this.chip, this.bank := chip, bank;
    }

    /** nct_hw_read: what the flat register file has at reg, whatever bank the chip was in. */
    method HwRead(reg: nat) returns (v: int)
      requires Coherent() && Banked(reg)
      modifies this, chip
      ensures Coherent() && v == chip.file(reg)
      ensures chip.file == old(chip.file) && chip.bankReadable == old(chip.bankReadable)
      ensures bank == chip.bank == reg / 256
      ensures chip.writes == old(chip.writes) + if old(bank) == reg / 256 then [] else [(REG_BANK, reg / 256)]
    {
      var b := reg / 256 % 256;
      if bank != b {
        chip.OutIndex(REG_BANK);
        chip.OutData(b);
        bank := b;
      }
      chip.OutIndex(reg % 256);
      v := chip.InData();
    }

    /** nct_rd over nct_hw_read */
    method Read(reg: nat) returns (v: int)
      requires Coherent() && Readable(reg)
      modifies this, chip
      ensures Coherent() && v == Rd(chip.file, reg)
      ensures chip.file == old(chip.file) && chip.bankReadable == old(chip.bankReadable)
      ensures bank == chip.bank == reg / 256
    {
      v := HwRead(reg);
      if v < 0 {
        return -1;
      }
      if WordReg(reg) {
        var lo := HwRead(reg + 1);
        if lo < 0 {
          return -1;
        }
        v := v * 256 + lo;
      }
    }
  }

  predicate Readable(reg: nat) {
    Banked(reg) && (WordReg(reg) ==> Banked(reg + 1) && (reg + 1) / 256 == reg / 256)
  }

  /** Every register the tables name can be read through the bank cache. */
  lemma TablesReadable(newer: bool)
    ensures forall i :: 0 <= i < |Entries(newer)| ==> Readable(Entries(newer)[i].reg) && Readable(Entries(newer)[i].sel)
    ensures forall i :: 0 <= i < |FAN_REG| ==> Readable(FAN_REG[i])
    ensures forall i :: 0 <= i < |VIN_REG| ==> Readable(VIN_REG[i]) && VIN_REG[i] / 256 == 4
  {
    EntriesReadable(newer);
    hide Entries;
  }

  lemma EntriesReadable(newer: bool)
    ensures forall i :: 0 <= i < |Entries(newer)| ==> Readable(Entries(newer)[i].reg) && Readable(Entries(newer)[i].sel)
  {
    TempEntriesReadable();
    MonitorEntriesReadable();
    hide Readable;
  }

  lemma TempEntriesReadable()
    ensures forall e :: e in TEMPS_0 || e in TEMPS_1 ==> Readable(e.reg) && Readable(e.sel)
  {
  }

  lemma MonitorEntriesReadable()
    ensures forall e :: e in MONITORS_0 || e in MONITORS_1 ==> Readable(e.reg) && Readable(e.sel)
  {
  }

  lemma {:induction false} InputsReadable(n: nat)
    requires n <= |VIN_REG|
    ensures forall i :: 0 <= i < n ==> Readable(VIN_REG[..n][i]) && VIN_REG[..n][i] / 256 == 4
  {
    TablesReadable(true);
    hide Readable;
  }

  /** One turn of the temperature loop, at the first of the entries still to come. */
  method DecodeTemp(hw: NctReader, e: Entry, srcSeen: nat, r: SuperIoResult, ghost es: seq<Entry>, ghost seen: set<nat>)
    returns (srcNow: nat, ghost now: set<nat>)
    requires hw.Coherent() && r.Valid() && r.count < MAX_TEMPS
    requires Readable(e.sel) && Readable(e.reg) && es != [] && e == es[0]
    requires Represents(srcSeen, seen)
    modifies hw, hw.chip, r`count, r.temperatures
    ensures hw.Coherent() && r.Valid()
    ensures hw.chip.file == old(hw.chip.file) && hw.chip.bankReadable == old(hw.chip.bankReadable)
    ensures Represents(srcNow, now)
    ensures Temps(hw.chip.file, es, seen, old(r.Temps())) == Temps(hw.chip.file, es[1..], now, r.Temps())
  {
    hide Rd, Readable;
    srcNow, now := srcSeen, seen;
    var src := hw.Read(e.sel);
    if src < 0 {
      return;
    }
    src := src % 32;
    if src == 0 || Bit(srcSeen, src) {
      return;
    }
    var v := hw.Read(e.reg);
    if v < 0 {
      return;
    }
    var t := Degrees(e.reg, v);
    if !Plausible(t) {
      return;
    }
    MaskAdd(srcSeen, seen, src);
    srcNow, now := SetBit(srcSeen, src), seen + {src};
    r.AddTemp(t);
  }

  method DecodeTemps(hw: NctReader, newer: bool, r: SuperIoResult)
    requires hw.Coherent() && r.Valid()
    modifies hw, hw.chip, r`count, r.temperatures
    ensures hw.Coherent() && r.Valid()
    ensures hw.chip.file == old(hw.chip.file) && hw.chip.bankReadable == old(hw.chip.bankReadable)
    ensures r.Temps() == Temps(hw.chip.file, Entries(newer), {}, old(r.Temps()))
  {
    TablesReadable(newer);
    EmptyMask();
    hide Readable, Represents, Entries;
    var es := Entries(newer);
    var srcSeen: nat := 0;
    ghost var seen: set<nat> := {};
    var i := 0;
    assert es[0..] == es;
    while i < |es| && r.count < MAX_TEMPS
      invariant 0 <= i <= |es|
      invariant hw.Coherent() && r.Valid()
      invariant hw.chip.file == old(hw.chip.file) && hw.chip.bankReadable == old(hw.chip.bankReadable)
      invariant Represents(srcSeen, seen)
      invariant Temps(hw.chip.file, es, {}, old(r.Temps())) == Temps(hw.chip.file, es[i..], seen, r.Temps())
    {
      assert es[i..][1..] == es[i + 1..];
      srcSeen, seen := DecodeTemp(hw, es[i], srcSeen, r, es[i..], seen);
      i := i + 1;
    }
  }

  method DecodeFans(hw: NctReader, r: SuperIoResult)
    requires hw.Coherent() && r.Valid()
    modifies hw, hw.chip, r`fanCount, r.fanRpms
    ensures hw.Coherent() && r.Valid()
    ensures hw.chip.file == old(hw.chip.file) && hw.chip.bankReadable == old(hw.chip.bankReadable)
    ensures r.Fans() == Fans(hw.chip.file, FAN_REG, old(r.Fans()))
  {
    TablesReadable(true);
    var i := 0;
    assert FAN_REG[0..] == FAN_REG;
    while i < |FAN_REG| && r.fanCount < MAX_FANS
      invariant 0 <= i <= |FAN_REG|
      invariant hw.Coherent() && r.Valid()
      invariant hw.chip.file == old(hw.chip.file) && hw.chip.bankReadable == old(hw.chip.bankReadable)
      invariant Fans(hw.chip.file, FAN_REG, old(r.Fans())) == Fans(hw.chip.file, FAN_REG[i..], r.Fans())
    {
      assert FAN_REG[i..][0] == FAN_REG[i] && FAN_REG[i..][1..] == FAN_REG[i + 1..];
      var rpm := hw.Read(FAN_REG[i]);
      i := i + 1;
      if rpm <= 0 || rpm == 0xffff {
        continue;
      }
      r.AddFan(rpm);
    }
  }

  /** The inputs of a chip and their scales; both tables cover every input of every chip. */
  lemma {:induction false} InputsInRange(id: nat, n: nat)
    requires n <= |CHIPS| && FindChip(id, n).Some?
    ensures FindChip(id, n).value in CHIPS
    ensures FindChip(id, n).value.inputs <= |VIN_REG|
    ensures FindChip(id, n).value.inputs <= |Scale(FindChip(id, n).value.newer)|
    ensures 0 < FindChip(id, n).value.inputs
  {
    if CHIPS[n - 1].id != Masked(id) {
      InputsInRange(id, n - 1);
    }
  }

  lemma {:induction false} VoltageStep(file: RegisterFile, regs: seq<nat>, scale: seq<nat>, i: nat, acc: seq<real>)
    requires i < |regs| <= |scale| && |acc| < MAX_VOLTAGES
    ensures Voltages(file, regs[i..], scale[i..], acc)
            == Voltages(file, regs[i + 1..], scale[i + 1..],
                        if Rd(file, regs[i]) < 0 then acc
                        else acc + [Level(Rd(file, regs[i]), scale[i])])
  {
    hide Rd;
    assert regs[i..][0] == regs[i] && regs[i..][1..] == regs[i + 1..];
    assert scale[i..][0] == scale[i] && scale[i..][1..] == scale[i + 1..];
  }

  method DecodeVoltages(hw: NctReader, regs: seq<nat>, scale: seq<nat>, r: SuperIoResult)
    requires hw.Coherent() && r.Valid()
    requires 0 < |regs| <= |scale|
    requires forall i :: 0 <= i < |regs| ==> Readable(regs[i]) && regs[i] / 256 == 4
    modifies hw, hw.chip, r`voltageCount, r.voltages
    ensures hw.Coherent() && r.Valid()
    ensures hw.chip.file == old(hw.chip.file) && hw.chip.bankReadable == old(hw.chip.bankReadable)
    ensures r.Volts() == Voltages(hw.chip.file, regs, scale, old(r.Volts()))
    ensures old(r.voltageCount) < MAX_VOLTAGES ==> hw.bank == hw.chip.bank == 4
  {
    hide Readable, Rd;
    var i := 0;
    assert regs[0..] == regs && scale[0..] == scale;
    while i < |regs| && r.voltageCount < MAX_VOLTAGES
      invariant 0 <= i <= |regs|
      invariant hw.Coherent() && r.Valid()
      invariant i == 0 ==> r.voltageCount == old(r.voltageCount)
      invariant i > 0 ==> hw.bank == hw.chip.bank == 4
      invariant hw.chip.file == old(hw.chip.file) && hw.chip.bankReadable == old(hw.chip.bankReadable)
      invariant Voltages(hw.chip.file, regs, scale, old(r.Volts()))
                == Voltages(hw.chip.file, regs[i..], scale[i..], r.Volts())
    {
      VoltageStep(hw.chip.file, regs, scale, i, r.Volts());
      var raw := hw.Read(regs[i]);
      i := i + 1;
      if raw < 0 {
        continue;
      }
      r.AddVolt(Level(raw, scale[i - 1]));
    }
  }

  /** The three passes over a chip of the table, with its voltage inputs and their scales. */
  method DecodeChip(chip: Chip, regs: seq<nat>, scale: seq<nat>, hw: NctReader, r: SuperIoResult)
    requires hw.Coherent() && r.Valid()
    requires 0 < |regs| <= |scale|
    requires forall i :: 0 <= i < |regs| ==> Readable(regs[i]) && regs[i] / 256 == 4
    modifies hw, hw.chip, r, r.temperatures, r.fanRpms, r.voltages
    ensures hw.Coherent() && r.Valid()
    ensures hw.chip.file == old(hw.chip.file) && hw.chip.bankReadable == old(hw.chip.bankReadable)
    ensures r.Temps() == Temps(hw.chip.file, Entries(chip.newer), {}, old(r.Temps()))
    ensures r.Fans() == Fans(hw.chip.file, FAN_REG, old(r.Fans()))
    ensures r.Volts() == Voltages(hw.chip.file, regs, scale, old(r.Volts()))
    ensures r.ok == (r.Temps() != [] || r.Fans() != [] || r.Volts() != [])
    ensures r.chipName == chip.name && r.chipId == old(r.chipId)
    ensures old(r.voltageCount) < MAX_VOLTAGES ==> hw.bank == hw.chip.bank == 4
  {
    hide Temps, Fans, Voltages, Entries, Readable;
    DecodeTemps(hw, chip.newer, r);
    DecodeFans(hw, r);
    DecodeVoltages(hw, regs, scale, r);
    r.chipName := chip.name;
    r.ok := r.count != 0 || r.fanCount != 0 || r.voltageCount != 0;
    if !r.ok {
      r.error := "Nuvoton " + chip.name + " returned no readings";
    }
  }

  /** hwsense_nct_decode through the bank cache: the result is that of the flat register file. */
  method Decode(chipId: nat, hw: NctReader, r: SuperIoResult) returns (ok: bool)
    requires hw.Coherent() && r.Valid()
    modifies hw, hw.chip, r, r.temperatures, r.fanRpms, r.voltages
    ensures hw.Coherent() && r.Valid()
    ensures hw.chip.file == old(hw.chip.file) && hw.chip.bankReadable == old(hw.chip.bankReadable)
    ensures FindChip(chipId, |CHIPS|).None? ==>
              !ok && r.Temps() == old(r.Temps()) && r.Fans() == old(r.Fans()) && r.Volts() == old(r.Volts())
              && hw.bank == old(hw.bank) && hw.chip.bank == old(hw.chip.bank)
    ensures FindChip(chipId, |CHIPS|).Some? ==>
              var chip := FindChip(chipId, |CHIPS|).value;
              var n := chip.inputs;
              && n <= |VIN_REG| && n <= |Scale(chip.newer)|
              && r.Temps() == Temps(hw.chip.file, Entries(chip.newer), {}, old(r.Temps()))
              && r.Fans() == Fans(hw.chip.file, FAN_REG, old(r.Fans()))
              && r.Volts() == Voltages(hw.chip.file, VIN_REG[..n], Scale(chip.newer)[..n], old(r.Volts()))
              && r.chipName == chip.name && r.chipId == chipId
              && ok == r.ok == (r.Temps() != [] || r.Fans() != [] || r.Volts() != [])
              && (old(r.voltageCount) < MAX_VOLTAGES ==> hw.bank == hw.chip.bank == 4)
  {
    var found := FindChip(chipId, |CHIPS|);
    if found.None? {
      return false;
    }
    InputsInRange(chipId, |CHIPS|);
    var n := found.value.inputs;
    InputsReadable(n);
    hide Temps, Fans, Voltages, FindChip, Entries, Scale, Readable;
    DecodeChip(found.value, VIN_REG[..n], Scale(found.value.newer)[..n], hw, r);
    r.chipId := chipId;
    ok := r.ok;
  }

  /** hwsense_nct_read_linux, once nct_find has named the chip: whatever bank the chip was in,
      the readings are those of the flat register file, and the bank the chip is left in is the
      one it was in if and only if its bank could be read at the start or already was 4. */
  method ReadChip(chipId: nat, chip: NctChip, r: SuperIoResult) returns (ok: bool)
    requires r.Valid() && r.count == r.fanCount == r.voltageCount == 0
    requires FindChip(chipId, |CHIPS|).Some?
    modifies chip, r, r.temperatures, r.fanRpms, r.voltages
    ensures r.Valid() && chip.file == old(chip.file) && chip.bankReadable == old(chip.bankReadable)
    ensures
      var c := FindChip(chipId, |CHIPS|).value;
      && c.inputs <= |VIN_REG| && c.inputs <= |Scale(c.newer)|
      && r.Temps() == Cut(Selection(chip.file, Entries(c.newer), |Entries(c.newer)|), MAX_TEMPS)
      && r.Fans() == Speeds(chip.file, FAN_REG)
      && r.Volts() == Cut(Levels(chip.file, VIN_REG[..c.inputs], Scale(c.newer)[..c.inputs]), MAX_VOLTAGES)
      && ok == (r.Temps() != [] || r.Fans() != [] || r.Volts() != [])
    ensures chip.bank == old(chip.bank) <==> old(chip.bankReadable) || old(chip.bank) == 4
  {
    chip.OutIndex(REG_BANK);
    var savedBank := chip.InData();
    var hw := new NctReader(chip, savedBank);
    ghost var c := FindChip(chipId, |CHIPS|).value;
    InputsInRange(chipId, |CHIPS|);
    EntriesArePlain(c.newer);
    InputsAreBytes();
    hide Temps, Fans, Voltages, FindChip, Selection, Speeds, Levels, Entries, Scale, Plain, WordReg, Cut;
    assert r.Temps() == [] && r.Fans() == [] && r.Volts() == [];
    ok := Decode(chipId, hw, r);
    TempsAreSelection(chip.file, Entries(c.newer));
    FansAreComplete(chip.file);
    VoltagesCompleteIff(chip.file, VIN_REG[..c.inputs], Scale(c.newer)[..c.inputs]);
    if savedBank >= 0 && hw.bank != savedBank {
      chip.OutIndex(REG_BANK);
      chip.OutData(savedBank);
    }
  }

  /** Runs in which the bank is not restored: any known chip in bank 2 whose bank register cannot be
      read. It is left in bank 4. */
  method UnreadableBankIsLost(chipId: nat, chip: NctChip)
    requires FindChip(chipId, |CHIPS|).Some?
    requires chip.bank == 2 && !chip.bankReadable
    modifies chip
    ensures chip.bank != old(chip.bank)
  {
    hide FindChip, Levels, Selection, Speeds, Entries, Scale, Cut;
    var r := new SuperIoResult();
    assert r.count == r.fanCount == r.voltageCount == 0;
    var ok := ReadChip(chipId, chip, r);
  }
}
