/** The ITE readers: the port space with a banked monitor behind base + 5 and base + 6, the Linux
    and Windows access paths (ite_linux.c, superio.c), the decoder run through them, and the
    window that the Windows path opens for its port writes. */
module IteHost {
  import opened SuperIo
  import opened Ite
  import opened Sequences
  import opened Wrappers

  const INDEX_OFF := 5
  const DATA_OFF := 6

  datatype Os = Linux | Windows

  predicate ConfigPort(p: nat) {
    p == 0x2E || p == 0x2F || p == 0x4E || p == 0x4F
  }

  /** A byte that reached a config port, or what reading one gave */
  datatype Op = Put(port: nat, byte: nat) | Got(port: nat, reading: Reading)

  /** The port space of a machine whose ITE monitor answers at `base`. */
  class Machine {
    const os: Os
    const base: nat
    // the monitor
    var index: nat
    var bankReg: Byte
    var file: RegisterFile
    var bankReadable: bool
    ghost var writes: seq<(nat, nat)>  // monitor data writes so far: index and value
    // the Windows driver
    var ecIndexPort: nat               // sio_ec_index_port, 0 = window closed
    var ecDataPort: nat
    var io: seq<bool>                  // outcome of each coming driver write; then all succeed
    ghost var reached: seq<nat>        // ports of the writes handed to the driver so far
    ghost var bus: seq<Op>             // what went over the config ports so far
    // what the coming reads of other ports return
    var answers: seq<Reading>

    constructor (os: Os, base: nat, bankReg: Byte, file: RegisterFile, bankReadable: bool,
                 io: seq<bool>, answers: seq<Reading>)
      ensures this.os == os && this.base == base && this.bankReg == bankReg && this.file == file
      ensures this.bankReadable == bankReadable && this.io == io && this.answers == answers
      ensures ecIndexPort == 0 && ecDataPort == 0 && writes == [] && reached == [] && bus == []
    {
      this.os, this.base, this.bankReg, this.file, this.bankReadable := os, base, bankReg, file, bankReadable;
      this.io, this.answers, index := io, answers, 0;
      ecIndexPort, ecDataPort, writes, reached, bus := 0, 0, [], [], [];
    }

    /** The monitor's reaction to a byte written to a port. */
    method Effect(port: nat, v: nat)
      requires v < 256
      modifies this`index, this`bankReg, this`file, this`writes
      ensures port != base + INDEX_OFF && port != base + DATA_OFF ==>
                index == old(index) && bankReg == old(bankReg) && file == old(file) && writes == old(writes)
      ensures port == base + INDEX_OFF ==>
                index == v && bankReg == old(bankReg) && file == old(file) && writes == old(writes)
      ensures port == base + DATA_OFF ==>
                && index == old(index)
                && writes == old(writes) + [(index, v)]
                && bankReg == (if index == REG_BANK then v else old(bankReg))
                && file == if index == REG_BANK then old(file)
                           else Stored(old(file), BankOf(old(bankReg)) * 256 + index, v)
    {
      if port == base + INDEX_OFF {
        index := v;
      } else if port == base + DATA_OFF {
        writes := writes + [(index, v)];
        if index == REG_BANK {
          bankReg := v;
        } else {
          file := Stored(file, BankOf(bankReg) * 256 + index, v);
        }
      }
    }

    /** What the monitor's data port shows. */
    function Data(): Reading
      reads this
    {
      if index == REG_BANK then (if bankReadable then bankReg else -1)
      else file(BankOf(bankReg) * 256 + index)
    }

    /** hwsense_inb, or sio_read_port with -1 for a failure. */
    method In(port: nat) returns (v: Reading)
      modifies this`answers, this`bus
      ensures bus == old(bus) + if ConfigPort(port) then [Got(port, v)] else []
      ensures port == base + DATA_OFF ==> v == Data() && answers == old(answers)
      ensures port != base + DATA_OFF ==>
                v == (if old(answers) == [] then -1 else old(answers)[0])
                && answers == if old(answers) == [] then [] else old(answers)[1..]
    {
      if port == base + DATA_OFF {
        v := Data();
      } else if answers == [] {
        v := -1;
      } else {
        v := answers[0];
        answers := answers[1..];
      }
      if ConfigPort(port) {
        bus := bus + [Got(port, v)];
      }
    }

    /** sio_validate_write_port */
    function Allowed(port: nat): bool
      reads this
    {
      if port <= 0x0F then false
      else if port == 0x60 || port == 0x64 then false
      else if port == 0x70 || port == 0x71 then false
      else if ecIndexPort != 0 && (port == ecIndexPort || port == ecDataPort) then true
      else port == 0x2E || port == 0x2F || port == 0x4E || port == 0x4F
    }

    /** sio_write_port: refused writes do not reach the driver; the driver may fail a write. */
    method SioWrite(port: nat, v: nat) returns (ok: bool)
      requires v < 256
      modifies this`index, this`bankReg, this`file, this`writes, this`io, this`reached, this`bus
      ensures reached == old(reached) + if Allowed(port) then [port] else []
      ensures ok <==> Allowed(port) && (old(io) == [] || old(io)[0])
      ensures bus == old(bus) + if ok && ConfigPort(port) then [Put(port, v)] else []
      ensures io == if Allowed(port) then Drop(old(io), 1) else old(io)
      ensures !ok || (port != base + INDEX_OFF && port != base + DATA_OFF) ==>
                index == old(index) && bankReg == old(bankReg) && file == old(file) && writes == old(writes)
      ensures ok && port == base + INDEX_OFF ==>
                index == v && bankReg == old(bankReg) && file == old(file) && writes == old(writes)
      ensures ok && port == base + DATA_OFF ==>
                && index == old(index)
                && writes == old(writes) + [(index, v)]
                && bankReg == (if index == REG_BANK then v else old(bankReg))
                && file == if index == REG_BANK then old(file)
                           else Stored(old(file), BankOf(old(bankReg)) * 256 + index, v)
    {
      if !Allowed(port) {
        return false;
      }
      reached := reached + [port];
      ok := io == [] || io[0];
      io := if io == [] then [] else io[1..];
      if ok {
        Effect(port, v);
        if ConfigPort(port) {
          bus := bus + [Put(port, v)];
        }
      }
    }
  }

  /** Reads and writes of monitor registers reach the chip: always on Linux, on Windows while the
      window is open at an accepted base and the driver does not fail. */
  ghost predicate Reliable(m: Machine, base: nat)
    reads m
  {
    Open(m, base) && (m.os == Windows ==> m.io == [])
  }

  /** No access to the monitor is refused, though the Windows driver may fail. */
  ghost predicate Open(m: Machine, base: nat)
    reads m
  {
    base == m.base && (m.os == Windows ==> m.Allowed(base + INDEX_OFF) && m.Allowed(base + DATA_OFF))
  }

  /** The next n writes to the monitor take effect. */
  predicate Lands(os: Os, io: seq<bool>, n: nat) {
    os == Linux || Starts(io, n, true)
  }

  /** What is left of the driver's script after n writes. */
  function Ahead(os: Os, io: seq<bool>, n: nat): seq<bool> {
    if os == Linux then io else Drop(io, n)
  }

  lemma AheadAgain(os: Os, io: seq<bool>, m: nat, n: nat)
    ensures Ahead(os, Ahead(os, io, m), n) == Ahead(os, io, m + n)
    ensures Lands(os, io, m + n) <==> Lands(os, io, m) && Lands(os, Ahead(os, io, m), n)
  {
    DropDrop(io, m, n);
    StartsParts(io, m, n, true);
  }

  lemma NoWrites(os: Os, io: seq<bool>)
    ensures Ahead(os, io, 0) == io && Lands(os, io, 0)
  {
  }

  /** n driver writes were made, and the monitor's registers are as before. */
  twostate predicate Untouched(m: Machine, base: nat, n: nat)
    reads m
  {
    old(Open(m, base)) ==>
      && Open(m, base) && m.io == Ahead(m.os, old(m.io), n)
      && m.bankReg == old(m.bankReg) && m.file == old(m.file)
  }

  /** The monitor's two ports are no config ports. */
  predicate Apart(base: nat) {
    !ConfigPort(base + INDEX_OFF) && !ConfigPort(base + DATA_OFF)
  }

  /** The new driver writes went to the two ports of the monitor at base. */
  predicate OnlyTo(before: seq<nat>, after: seq<nat>, base: nat) {
    before <= after
    && forall k :: |before| <= k < |after| ==> after[k] == base + INDEX_OFF || after[k] == base + DATA_OFF
  }

  lemma NothingTo(s: seq<nat>, base: nat)
    ensures OnlyTo(s, s, base)
  {
  }

  lemma OnlyToTwice(s: seq<nat>, t: seq<nat>, u: seq<nat>, base: nat)
    requires OnlyTo(s, t, base) && OnlyTo(t, u, base)
    ensures OnlyTo(s, u, base)
  {
  }

  /** ec_read (Linux) and ite_win_read (Windows) */
  method RegRead(m: Machine, base: nat, reg: nat) returns (v: int)
    requires reg < 256
    modifies m`index, m`bankReg, m`file, m`writes, m`io, m`reached, m`bus, m`answers
    ensures OnlyTo(old(m.reached), m.reached, base)
    ensures old(Reliable(m, base)) ==>
              && Reliable(m, base)
              && m.bankReg == old(m.bankReg) && m.file == old(m.file) && m.writes == old(m.writes)
              && v == if reg == REG_BANK then (if m.bankReadable then m.bankReg else -1)
                      else m.file(BankOf(m.bankReg) * 256 + reg)
    ensures Untouched(m, base, 1)
    ensures old(Open(m, base)) && reg == REG_BANK ==>
              v == if Lands(m.os, old(m.io), 1) && m.bankReadable then m.bankReg else -1
    ensures Apart(base) ==> m.bus == old(m.bus)
  {
    if m.os == Linux {
      m.Effect(base + INDEX_OFF, reg);
    } else {
      var ok := m.SioWrite(base + INDEX_OFF, reg);
      if !ok {
        return -1;
      }
    }
    v := m.In(base + DATA_OFF);
  }

  /** ec_write (Linux) and ite_win_write (Windows) */
  method RegWrite(m: Machine, base: nat, reg: nat, v: int)
    requires reg < 256
    modifies m`index, m`bankReg, m`file, m`writes, m`io, m`reached, m`bus
    ensures OnlyTo(old(m.reached), m.reached, base)
    ensures old(Reliable(m, base)) ==>
              && Reliable(m, base) && m.writes == old(m.writes) + [(reg, v % 256)]
              && m.bankReg == (if reg == REG_BANK then v % 256 else old(m.bankReg))
              && m.file == if reg == REG_BANK then old(m.file)
                           else Stored(old(m.file), BankOf(old(m.bankReg)) * 256 + reg, v % 256)
    ensures old(Open(m, base)) && reg == REG_BANK ==>
              && Open(m, base) && m.file == old(m.file)
              && m.bankReg == (if Lands(m.os, old(m.io), 2) then v % 256 else old(m.bankReg))
              && m.io == Ahead(m.os, old(m.io), if Lands(m.os, old(m.io), 1) then 2 else 1)
    ensures Apart(base) ==> m.bus == old(m.bus)
  {
    StartsParts(m.io, 1, 1, true);
    DropDrop(m.io, 1, 1);
    if m.os == Linux {
      m.Effect(base + INDEX_OFF, reg);
      m.Effect(base + DATA_OFF, v % 256);
    } else {
      var ok := m.SioWrite(base + INDEX_OFF, reg);
      if ok {
        ok := m.SioWrite(base + DATA_OFF, v % 256);
      }
    }
  }

  /** The monitor is reliable and in bank 0, so registers read as the flat file has them. */
  ghost predicate Flat(m: Machine, base: nat)
    reads m
  {
    Reliable(m, base) && BankOf(m.bankReg) == 0
  }

  method DecodeTemps(m: Machine, base: nat, n: nat, r: SuperIoResult)
    requires r.Valid() && n <= 6
    modifies m`index, m`bankReg, m`file, m`writes, m`io, m`reached, m`bus, m`answers, r`count, r.temperatures
    ensures r.Valid() && OnlyTo(old(m.reached), m.reached, base)
    ensures old(Flat(m, base)) ==>
              && Flat(m, base)
              && m.bankReg == old(m.bankReg) && m.file == old(m.file) && m.writes == old(m.writes)
              && r.Temps() == Temps(m.file, TempRegs(n), old(r.Temps()))
    ensures old(r.count) + n <= MAX_TEMPS ==> Untouched(m, base, n)
    ensures Apart(base) ==> m.bus == old(m.bus)
  {
    hide Ahead, Lands;
    NoWrites(m.os, m.io);
    var regs := TempRegs(n);
    assert regs[0..] == regs;
    var i := 0;
    while i < n && r.count < MAX_TEMPS
      invariant 0 <= i <= n
      invariant Apart(base) ==> m.bus == old(m.bus)
      invariant r.Valid() && OnlyTo(old(m.reached), m.reached, base)
      invariant old(Flat(m, base)) ==>
                  && Flat(m, base)
                  && m.bankReg == old(m.bankReg) && m.file == old(m.file) && m.writes == old(m.writes)
                  && Temps(m.file, regs, old(r.Temps())) == Temps(m.file, regs[i..], r.Temps())
      invariant r.count <= old(r.count) + i && Untouched(m, base, i)
    {
      AheadAgain(m.os, old(m.io), i, 1);
      assert regs[i..][0] == regs[i] && regs[i..][1..] == regs[i + 1..];
      var t := RegRead(m, base, 0x29 + i);
      i := i + 1;
      if t < 0 {
        continue;
      }
      t := Signed8(t);
      if t == 0 || t == -128 {
        continue;
      }
      r.AddTemp(t);
    }
  }

  lemma FansNext(file: RegisterFile, tachs: seq<Tach>, acc: seq<int>)
    requires tachs != [] && |acc| < MAX_FANS
    ensures Fans(file, tachs, acc) == match Count(file, tachs[0])
                                      case None => Fans(file, tachs[1..], acc)
                                      case Some(raw) => Fans(file, tachs[1..], acc + [Rpm(raw)])
  {
  }

  lemma FansEnd(file: RegisterFile, tachs: seq<Tach>, acc: seq<int>)
    requires tachs == [] || |acc| >= MAX_FANS
    ensures Fans(file, tachs, acc) == acc
  {
  }

  method DecodeFans(m: Machine, base: nat, tachs: seq<Tach>, r: SuperIoResult)
    requires r.Valid()
    requires forall k :: 0 <= k < |tachs| ==> tachs[k].lo < 256 && tachs[k].hi < 256
    requires forall k :: 0 <= k < |tachs| ==> tachs[k].lo != REG_BANK && tachs[k].hi != REG_BANK
    modifies m`index, m`bankReg, m`file, m`writes, m`io, m`reached, m`bus, m`answers, r`fanCount, r.fanRpms
    ensures r.Valid() && OnlyTo(old(m.reached), m.reached, base)
    ensures old(Flat(m, base)) ==>
              && Flat(m, base)
              && m.bankReg == old(m.bankReg) && m.file == old(m.file) && m.writes == old(m.writes)
              && r.Fans() == Fans(m.file, tachs, old(r.Fans()))
    ensures old(r.fanCount) + |tachs| <= MAX_FANS ==> Untouched(m, base, 2 * |tachs|)
    ensures Apart(base) ==> m.bus == old(m.bus)
  {
    hide Rpm, Ahead, Lands, Fans;
    NoWrites(m.os, m.io);
    assert tachs[0..] == tachs;
    var i := 0;
    while i < |tachs| && r.fanCount < MAX_FANS
      invariant 0 <= i <= |tachs|
      invariant Apart(base) ==> m.bus == old(m.bus)
      invariant r.Valid() && OnlyTo(old(m.reached), m.reached, base)
      invariant old(Flat(m, base)) ==>
                  && Flat(m, base)
                  && m.bankReg == old(m.bankReg) && m.file == old(m.file) && m.writes == old(m.writes)
                  && Fans(m.file, tachs, old(r.Fans())) == Fans(m.file, tachs[i..], r.Fans())
      invariant r.fanCount <= old(r.fanCount) + i && Untouched(m, base, 2 * i)
    {
      AheadAgain(m.os, old(m.io), 2 * i, 1);
      AheadAgain(m.os, old(m.io), 2 * i + 1, 1);
      assert tachs[i..][0] == tachs[i] && tachs[i..][1..] == tachs[i + 1..];
      FansNext(m.file, tachs[i..], r.Fans());
      var lo := RegRead(m, base, tachs[i].lo);
      var hi := RegRead(m, base, tachs[i].hi);
      i := i + 1;
      if lo < 0 || hi < 0 {
        continue;
      }
      var raw := lo + hi * 256;
      if raw == 0 || raw == 0xffff {
        continue;
      }
      r.AddFan(Rpm(raw));
    }
    FansEnd(m.file, tachs[i..], r.Fans());
  }

  method DecodeVoltages(m: Machine, base: nat, inputs: seq<Input>, lsb: nat, r: SuperIoResult)
    requires r.Valid()
    requires forall k :: 0 <= k < |inputs| ==> inputs[k].reg < 256 && inputs[k].reg != REG_BANK
    modifies m`index, m`bankReg, m`file, m`writes, m`io, m`reached, m`bus, m`answers, r`voltageCount, r.voltages
    ensures r.Valid() && OnlyTo(old(m.reached), m.reached, base)
    ensures old(Flat(m, base)) ==>
              && Flat(m, base)
              && m.bankReg == old(m.bankReg) && m.file == old(m.file) && m.writes == old(m.writes)
              && r.Volts() == Voltages(m.file, inputs, lsb, old(r.Volts()))
    ensures old(r.voltageCount) + |inputs| <= MAX_VOLTAGES ==>
              Untouched(m, base, |inputs|)
    ensures Apart(base) ==> m.bus == old(m.bus)
  {
    hide Ahead, Lands;
    NoWrites(m.os, m.io);
    assert inputs[0..] == inputs;
    var i := 0;
    while i < |inputs| && r.voltageCount < MAX_VOLTAGES
      invariant 0 <= i <= |inputs|
      invariant Apart(base) ==> m.bus == old(m.bus)
      invariant r.Valid() && OnlyTo(old(m.reached), m.reached, base)
      invariant old(Flat(m, base)) ==>
                  && Flat(m, base)
                  && m.bankReg == old(m.bankReg) && m.file == old(m.file) && m.writes == old(m.writes)
                  && Voltages(m.file, inputs, lsb, old(r.Volts())) == Voltages(m.file, inputs[i..], lsb, r.Volts())
      invariant r.voltageCount <= old(r.voltageCount) + i && Untouched(m, base, i)
    {
      AheadAgain(m.os, old(m.io), i, 1);
      assert inputs[i..][0] == inputs[i] && inputs[i..][1..] == inputs[i + 1..];
      var v := RegRead(m, base, inputs[i].reg);
      i := i + 1;
      if v < 0 {
        continue;
      }
      r.AddVolt(Volt(lsb, inputs[i - 1], v));
    }
  }

  lemma TablesFit()
    ensures forall k :: 0 <= k < |TACHS| ==> TACHS[k].lo < 256 && TACHS[k].hi < 256
    ensures forall k :: 0 <= k < |TACHS| ==> TACHS[k].lo != REG_BANK && TACHS[k].hi != REG_BANK
    ensures forall k :: 0 <= k < |INPUTS| ==> INPUTS[k].reg < 256 && INPUTS[k].reg != REG_BANK
  {
  }

  /** How many registers the three passes read, each with one write of the index port. */
  function Reads(chip: Chip, tachs: seq<Tach>, inputs: seq<Input>): nat {
    chip.temps + 2 * |tachs| + |inputs|
  }

  predicate Empty(r: SuperIoResult)
    reads r
  {
    r.count == r.fanCount == r.voltageCount == 0
  }

  /** The three passes, for a chip with these tachometers. */
  method DecodePasses(m: Machine, base: nat, chip: Chip, tachs: seq<Tach>, inputs: seq<Input>, r: SuperIoResult)
    requires r.Valid() && chip.temps <= 6
    requires forall k :: 0 <= k < |tachs| ==> tachs[k].lo < 256 && tachs[k].hi < 256
    requires forall k :: 0 <= k < |tachs| ==> tachs[k].lo != REG_BANK && tachs[k].hi != REG_BANK
    requires forall k :: 0 <= k < |inputs| ==> inputs[k].reg < 256 && inputs[k].reg != REG_BANK
    modifies m`index, m`bankReg, m`file, m`writes, m`io, m`reached, m`bus, m`answers
    modifies r`count, r`fanCount, r`voltageCount, r.temperatures, r.fanRpms, r.voltages
    ensures r.Valid() && OnlyTo(old(m.reached), m.reached, base)
    ensures old(Flat(m, base)) ==>
              && Flat(m, base)
              && m.bankReg == old(m.bankReg) && m.file == old(m.file) && m.writes == old(m.writes)
              && r.Temps() == Temps(m.file, TempRegs(chip.temps), old(r.Temps()))
              && r.Fans() == Fans(m.file, tachs, old(r.Fans()))
              && r.Volts() == Voltages(m.file, inputs, chip.adcLsbX10, old(r.Volts()))
    ensures old(Empty(r)) && |tachs| <= MAX_FANS && |inputs| <= MAX_VOLTAGES ==>
              Untouched(m, base, Reads(chip, tachs, inputs))
    ensures Apart(base) ==> m.bus == old(m.bus)
  {
    var temps, fans := chip.temps, 2 * |tachs|;
    AheadAgain(m.os, m.io, temps, fans);
    AheadAgain(m.os, m.io, temps + fans, |inputs|);
    hide Temps, Fans, Voltages, TempRegs, Reliable, BankOf, Ahead, Lands, Open, OnlyTo;
    ghost var s0 := m.reached;
    DecodeTemps(m, base, chip.temps, r);
    ghost var s1 := m.reached;
    DecodeFans(m, base, tachs, r);
    OnlyToTwice(s0, s1, m.reached, base);
    ghost var s2 := m.reached;
    DecodeVoltages(m, base, inputs, chip.adcLsbX10, r);
    OnlyToTwice(s0, s2, m.reached, base);
  }

  /** The switch to bank 0 takes effect and the switch back, `between` writes later, does not. */
  predicate Stranded(os: Os, io: seq<bool>, bankReg: nat, between: nat) {
    BankOf(bankReg) != 0 && Lands(os, io, 2) && !Lands(os, Ahead(os, io, 2 + between), 2)
  }

  /** Write the bank register if the chip was found in another bank than 0. */
  method WriteBankIf(m: Machine, base: nat, saved: nat, v: nat)
    modifies m`index, m`bankReg, m`file, m`writes, m`io, m`reached, m`bus
    ensures OnlyTo(old(m.reached), m.reached, base)
    ensures BankOf(saved) == 0 ==>
              m.bankReg == old(m.bankReg) && m.file == old(m.file) && m.writes == old(m.writes) && m.io == old(m.io)
    ensures BankOf(saved) != 0 && v < 256 && old(Reliable(m, base)) ==>
              m.bankReg == v && m.writes == old(m.writes) + [(REG_BANK, v)]
    ensures old(Reliable(m, base)) ==> Reliable(m, base) && m.file == old(m.file)
    ensures old(Open(m, base)) ==> Open(m, base) && m.file == old(m.file)
    ensures old(Open(m, base)) && BankOf(saved) != 0 && v < 256 ==>
              && m.bankReg == (if Lands(m.os, old(m.io), 2) then v else old(m.bankReg))
              && (Lands(m.os, old(m.io), 2) ==> m.io == Ahead(m.os, old(m.io), 2))
    ensures Apart(base) ==> m.bus == old(m.bus)
  {
    AheadAgain(m.os, m.io, 1, 1);
    hide BankOf, Ahead, Lands, OnlyTo, Stored;
    if BankOf(saved) != 0 {
      RegWrite(m, base, REG_BANK, v);
    } else {
      NothingTo(m.reached, base);
    }
  }

  /** Switch to bank 0 if needed, read, and switch back. */
  method DecodeSwitched(m: Machine, base: nat, chip: Chip, tachs: seq<Tach>, inputs: seq<Input>,
                        saved: int, r: SuperIoResult)
    requires r.Valid() && chip.temps <= 6 && saved >= 0
    requires forall k :: 0 <= k < |tachs| ==> tachs[k].lo < 256 && tachs[k].hi < 256
    requires forall k :: 0 <= k < |tachs| ==> tachs[k].lo != REG_BANK && tachs[k].hi != REG_BANK
    requires forall k :: 0 <= k < |inputs| ==> inputs[k].reg < 256 && inputs[k].reg != REG_BANK
    modifies m`index, m`bankReg, m`file, m`writes, m`io, m`reached, m`bus, m`answers
    modifies r`count, r`fanCount, r`voltageCount, r.temperatures, r.fanRpms, r.voltages
    ensures r.Valid() && OnlyTo(old(m.reached), m.reached, base)
    ensures old(Reliable(m, base)) && saved == old(m.bankReg) ==>
              && Reliable(m, base) && m.bankReg == old(m.bankReg) && m.file == old(m.file)
              && r.Temps() == Temps(m.file, TempRegs(chip.temps), old(r.Temps()))
              && r.Fans() == Fans(m.file, tachs, old(r.Fans()))
              && r.Volts() == Voltages(m.file, inputs, chip.adcLsbX10, old(r.Volts()))
              && m.writes == old(m.writes) +
                   if BankOf(saved) == 0 then [] else [(REG_BANK, InBank0(saved)), (REG_BANK, saved)]
    ensures old(Open(m, base)) && saved == old(m.bankReg) && old(Empty(r))
            && |tachs| <= MAX_FANS && |inputs| <= MAX_VOLTAGES ==>
              && m.file == old(m.file)
              && m.bankReg == if Stranded(m.os, old(m.io), saved, Reads(chip, tachs, inputs))
                              then InBank0(saved) else saved
    ensures Apart(base) ==> m.bus == old(m.bus)
  {
    AheadAgain(m.os, m.io, 1, 1);
    AheadAgain(m.os, m.io, 2, Reads(chip, tachs, inputs));
    hide Temps, Fans, Voltages, Reliable, TempRegs, BankOf, InBank0, Stored, Ahead, Lands, Open, Reads, OnlyTo;
    ghost var s0 := m.reached;
    WriteBankIf(m, base, saved, InBank0(saved));
    ghost var s1 := m.reached;
    DecodePasses(m, base, chip, tachs, inputs, r);
    OnlyToTwice(s0, s1, m.reached, base);
    ghost var s2 := m.reached;
    WriteBankIf(m, base, saved, saved);
    OnlyToTwice(s0, s2, m.reached, base);
  }

  /** The bank register can be read and names another bank than 0, the first three writes (its index,
      and the switch to bank 0) take effect, and one of the two that switch back, `between` writes later,
      does not. */
  predicate Lost(os: Os, io: seq<bool>, readable: bool, bankReg: nat, between: nat) {
    readable && Lands(os, io, 1) && Stranded(os, Ahead(os, io, 1), bankReg, between)
  }

  /** hwsense_ite_decode for a chip of the table. */
  method DecodeFound(chip: Chip, tachs: seq<Tach>, inputs: seq<Input>, m: Machine, base: nat, r: SuperIoResult)
    returns (ok: bool)
    requires r.Valid() && chip.temps <= 6
    requires forall k :: 0 <= k < |tachs| ==> tachs[k].lo < 256 && tachs[k].hi < 256
    requires forall k :: 0 <= k < |tachs| ==> tachs[k].lo != REG_BANK && tachs[k].hi != REG_BANK
    requires forall k :: 0 <= k < |inputs| ==> inputs[k].reg < 256 && inputs[k].reg != REG_BANK
    modifies m`index, m`bankReg, m`file, m`writes, m`io, m`reached, m`bus, m`answers
    modifies r, r.temperatures, r.fanRpms, r.voltages
    ensures r.Valid() && OnlyTo(old(m.reached), m.reached, base)
    ensures old(Reliable(m, base)) ==>
              Reliable(m, base) && m.bankReg == old(m.bankReg) && m.file == old(m.file)
    ensures old(Reliable(m, base)) && !old(m.bankReadable) ==>
              !ok && m.writes == old(m.writes)
              && r.Temps() == old(r.Temps()) && r.Fans() == old(r.Fans()) && r.Volts() == old(r.Volts())
    ensures old(Reliable(m, base)) && old(m.bankReadable) ==>
              && r.Temps() == Temps(m.file, TempRegs(chip.temps), old(r.Temps()))
              && r.Fans() == Fans(m.file, tachs, old(r.Fans()))
              && r.Volts() == Voltages(m.file, inputs, chip.adcLsbX10, old(r.Volts()))
              && r.chipName == chip.name && r.chipId == chip.id
              && ok == r.ok == (r.Temps() != [] || r.Fans() != [] || r.Volts() != [])
              && m.writes == old(m.writes) +
                   if BankOf(old(m.bankReg)) == 0 then []
                   else [(REG_BANK, InBank0(old(m.bankReg))), (REG_BANK, old(m.bankReg))]
    ensures old(Open(m, base)) && old(Empty(r)) && |tachs| <= MAX_FANS && |inputs| <= MAX_VOLTAGES ==>
              && m.file == old(m.file)
              && m.bankReg == if Lost(m.os, old(m.io), old(m.bankReadable), old(m.bankReg), Reads(chip, tachs, inputs))
                              then InBank0(old(m.bankReg)) else old(m.bankReg)
    ensures Apart(base) ==> m.bus == old(m.bus)
    ensures r.chipId == chip.id || r.chipId == old(r.chipId)
  {
    hide Temps, Fans, Voltages, Reliable, TempRegs, BankOf, InBank0, Stranded, Ahead, Lands, Open, Reads, OnlyTo;
    ghost var s0 := m.reached;
    var saved := RegRead(m, base, REG_BANK);
    if saved < 0 {
      r.error := "cannot read ITE bank register";
      return false;
    }
    ghost var s1 := m.reached;
    DecodeSwitched(m, base, chip, tachs, inputs, saved, r);
    OnlyToTwice(s0, s1, m.reached, base);
    r.chipName, r.chipId := chip.name, chip.id;
    r.ok := r.count != 0 || r.fanCount != 0 || r.voltageCount != 0;
    if !r.ok {
      r.error := "ITE chip " + chip.name + " returned no readings";
    }
    ok := r.ok;
  }

  /** hwsense_ite_decode. On a reliable machine whose bank register can be read: the readings are
      those of bank 0 whatever bank the chip was in, the bank register and all other registers are
      left as found, and 0 or 2 data writes were made, both to the bank register. */
  method Decode(id: nat, m: Machine, base: nat, r: SuperIoResult) returns (ok: bool)
    requires r.Valid()
    modifies m`index, m`bankReg, m`file, m`writes, m`io, m`reached, m`bus, m`answers
    modifies r, r.temperatures, r.fanRpms, r.voltages
    ensures r.Valid() && OnlyTo(old(m.reached), m.reached, base)
    ensures FindChip(id, 0).None? ==>
              !ok && m.reached == old(m.reached) && m.bankReg == old(m.bankReg) && m.file == old(m.file)
              && m.writes == old(m.writes)
    ensures FindChip(id, 0).Some? && old(Reliable(m, base)) ==>
              Reliable(m, base) && m.bankReg == old(m.bankReg) && m.file == old(m.file)
    ensures FindChip(id, 0).Some? && old(Reliable(m, base)) && !old(m.bankReadable) ==>
              !ok && m.writes == old(m.writes)
              && r.Temps() == old(r.Temps()) && r.Fans() == old(r.Fans()) && r.Volts() == old(r.Volts())
    ensures FindChip(id, 0).Some? && old(Reliable(m, base)) && old(m.bankReadable) ==>
              var chip := FindChip(id, 0).value;
              && chip.fans <= |TACHS|
              && r.Temps() == Temps(m.file, TempRegs(chip.temps), old(r.Temps()))
              && r.Fans() == Fans(m.file, TACHS[..chip.fans], old(r.Fans()))
              && r.Volts() == Voltages(m.file, INPUTS, chip.adcLsbX10, old(r.Volts()))
              && r.chipName == chip.name && r.chipId == id
              && ok == r.ok == (r.Temps() != [] || r.Fans() != [] || r.Volts() != [])
    ensures FindChip(id, 0).Some? && old(Reliable(m, base)) && old(m.bankReadable) ==>
              m.writes == old(m.writes) +
                if BankOf(old(m.bankReg)) == 0 then []
                else [(REG_BANK, InBank0(old(m.bankReg))), (REG_BANK, old(m.bankReg))]
    ensures FindChip(id, 0).Some? && old(Open(m, base)) && old(Empty(r)) ==>
              var chip := FindChip(id, 0).value;
              && m.file == old(m.file)
              && (m.bankReg == old(m.bankReg)
                  <==> !Lost(m.os, old(m.io), old(m.bankReadable), old(m.bankReg), chip.temps + 2 * chip.fans + 10))
    ensures Apart(base) ==> m.bus == old(m.bus)
    ensures r.chipId == id || r.chipId == old(r.chipId)
  {
    var found := FindChip(id, 0);
    if found.None? {
      r.error := "unsupported ITE chip";
      return false;
    }
    FoundInTable(id, 0);
    TachsFit(found.value.fans);
    TablesFit();
    assert |INPUTS| == 10;
    OutOfBank0(m.bankReg);
    hide Temps, Fans, Voltages, FindChip, Reliable, TempRegs, Open, Ahead, Lands, BankOf, InBank0, OnlyTo;
    ok := DecodeFound(found.value, TACHS[..found.value.fans], INPUTS, m, base, r);
  }

  /** hwsense_ite_read_linux, once ite_find has named chip and base: the readings are those of bank 0,
      and the chip is left as found. */
  method ReadLinux(id: nat, m: Machine, base: nat, r: SuperIoResult) returns (ok: bool)
    requires FindChip(id, 0).Some? && m.os == Linux && base == m.base
    requires r.Valid() && Empty(r)
    modifies m`index, m`bankReg, m`file, m`writes, m`io, m`reached, m`bus, m`answers
    modifies r, r.temperatures, r.fanRpms, r.voltages
    ensures r.Valid() && m.bankReg == old(m.bankReg) && m.file == old(m.file)
    ensures ok == (r.Temps() != [] || r.Fans() != [] || r.Volts() != [])
    ensures if m.bankReadable then ReadsBank0(m.file, id, r.Temps(), r.Fans(), r.Volts()) else !ok
  {
    PassesReadBank0(m.file, id);
    hide FindChip, Temps, Fans, Voltages, ReadsBank0, Lost, OnlyTo;
    assert r.Temps() == [] && r.Fans() == [] && r.Volts() == [];
    ok := Decode(id, m, base, r);
  }

  lemma TachsFit(n: nat)
    requires n <= |TACHS|
    ensures forall k :: 0 <= k < n ==> TACHS[..n][k].lo < 256 && TACHS[..n][k].hi < 256
    ensures forall k :: 0 <= k < n ==> TACHS[..n][k].lo != REG_BANK && TACHS[..n][k].hi != REG_BANK
  {
    TablesFit();
  }

  lemma OutOfBank0(bankReg: nat)
    ensures BankOf(bankReg) != 0 ==> InBank0(bankReg) != bankReg
  {
  }

  /** A run in which the chip is left in the wrong bank: only the last write fails. */
  lemma LastWriteFails(bankReg: nat, between: nat)
    requires BankOf(bankReg) != 0
    ensures Lost(Windows, seq(between + 4, _ => true) + [false], true, bankReg, between)
  {
    var io := seq(between + 4, _ => true) + [false];
    assert io[between + 4] == false;
    assert Drop(Drop(io, 1), 2 + between) == [true, false];
    assert [true, false][1] == false;
  }

  /** On Linux, and while the driver does not fail, the bank is never lost. */
  lemma NeverLost(os: Os, io: seq<bool>, readable: bool, bankReg: nat, between: nat)
    requires os == Linux || io == []
    ensures !Lost(os, io, readable, bankReg, between)
  {
  }
}
