/** ITE Super I/O monitor decoding (ite_decode.c), over the registers of bank 0.
    A register file maps bank * 256 + index to the byte read there, or to -1 if the read fails. */
module Ite {
  import opened SuperIo
  import Bits
  import opened Wrappers

  datatype Chip = Chip(id: nat, name: string, adcLsbX10: nat, fans: nat, temps: nat)

  const CHIPS: seq<Chip> := [
    Chip(0x8655, "it8655", 109, 3, 6),
    Chip(0x8665, "it8665", 109, 6, 6),
    Chip(0x8686, "it8686", 120, 6, 6),
    Chip(0x8628, "it8628", 120, 6, 6),
    Chip(0x8688, "it8688", 120, 6, 6),
    Chip(0x8689, "it8689", 120, 6, 6),
    Chip(0x8728, "it8728", 120, 5, 3)]

  const REG_BANK := 0x06

  /** The low and high count registers of one tachometer. */
  datatype Tach = Tach(lo: nat, hi: nat)

  const TACHS: seq<Tach> := [
    Tach(0x0d, 0x18), Tach(0x0e, 0x19), Tach(0x0f, 0x1a),
    Tach(0x80, 0x81), Tach(0x82, 0x83), Tach(0x93, 0x94)]

  /** A voltage register, and whether it is divided on-chip so that its step doubles. */
  datatype Input = Input(reg: nat, scaled: bool)

  const INPUTS: seq<Input> := [
    Input(0x20, false), Input(0x21, false), Input(0x22, false), Input(0x23, false), Input(0x24, false),
    Input(0x25, false), Input(0x26, false), Input(0x27, true), Input(0x28, true), Input(0x2f, true)]

  function FindChip(id: nat, i: nat): Option<Chip>
    requires i <= |CHIPS|
    decreases |CHIPS| - i
  {
    if i == |CHIPS| then None
    else if CHIPS[i].id == id then Some(CHIPS[i])
    else FindChip(id, i + 1)
  }

  lemma {:induction false} FoundInTable(id: nat, i: nat)
    requires i <= |CHIPS| && FindChip(id, i).Some?
    ensures FindChip(id, i).value.id == id
    ensures FindChip(id, i).value.fans <= |TACHS| && FindChip(id, i).value.temps <= 6
    decreases |CHIPS| - i
  {
    if CHIPS[i].id != id {
      FoundInTable(id, i + 1);
    }
  }

  /** Bits 6:5 of the bank register: reg & 0x60, as a bank number. */
  function BankOf(bankReg: nat): (b: nat)
    ensures b < 4
  {
    bankReg / 32 % 4
  }

  /** bankReg & ~0x60 */
  function InBank0(bankReg: nat): (r: nat)
    ensures BankOf(r) == 0 && r <= bankReg
  {
    bankReg - BankOf(bankReg) * 32
  }

  /** Selecting bank 0 changes bits 6:5 and no others. */
  lemma InBank0KeepsOthers(bankReg: nat, b: nat)
    ensures Bits.Bit(InBank0(bankReg), b) <==> Bits.Bit(bankReg, b) && b != 5 && b != 6
  {
    hide Bits.Bit, Bits.ClearBit, InBank0;
    InBank0Is(bankReg);
    Bits.ClearBitClears(bankReg, 5, b);
    Bits.ClearBitClears(Bits.ClearBit(bankReg, 5), 6, b);
  }

  lemma InBank0Is(bankReg: nat)
    ensures InBank0(bankReg) == Bits.ClearBit(Bits.ClearBit(bankReg, 5), 6)
  {
    hide Bits.Bit, Bits.ClearBit;
    Bits.ClearBitClears(bankReg, 5, 6);
    Bits.ClearBitIs(bankReg, 5);
    Bits.ClearBitIs(Bits.ClearBit(bankReg, 5), 6);
    Bits.BitAt(bankReg, 5);
    Bits.BitAt(bankReg, 6);
    assert Bits.Pow2(5) == 32 && Bits.Pow2(6) == 64;
    TwoBits(bankReg);
  }

  lemma TwoBits(r: nat)
    ensures BankOf(r) == r / 32 % 2 + 2 * (r / 64 % 2)
  {
    assert r / 64 == r / 32 / 2;
  }

  predicate Connected(t: int) {
    t != 0 && t != -128
  }

  /** 1350000 / (raw * 2) */
  function Rpm(raw: nat): int
    requires raw > 0
  {
    1350000 / (raw * 2)
  }

  /** The reported speed is the exact quotient, rounded down. */
  lemma {:induction false} RpmBounds(raw: nat)
    requires 0 < raw
    ensures Rpm(raw) * 2 * raw <= 1350000 < (Rpm(raw) + 1) * 2 * raw
  {
    var d := raw * 2;
    assert 1350000 == (1350000 / d) * d + 1350000 % d;
    assert Rpm(raw) * 2 * raw == Rpm(raw) * d;
    assert (Rpm(raw) + 1) * 2 * raw == Rpm(raw) * d + d;
  }

  // ---- The three passes over bank 0 -----------------------------------------------------

  function Temps(file: RegisterFile, regs: seq<nat>, acc: seq<int>): seq<int>
    decreases |regs|
  {
    if regs == [] || |acc| >= MAX_TEMPS then acc
    else if file(regs[0]) < 0 || !Connected(Signed8(file(regs[0]))) then Temps(file, regs[1..], acc)
    else Temps(file, regs[1..], acc + [Signed8(file(regs[0]))])
  }

  /** The 16-bit count of a tachometer, None when it cannot be read or shows no signal. */
  function Count(file: RegisterFile, t: Tach): (c: Option<nat>)
    ensures c.Some? ==> c.value > 0
  {
    if file(t.lo) < 0 || file(t.hi) < 0 then None
    else
      var raw: int := file(t.lo) + file(t.hi) * 256;
      if raw == 0 || raw == 0xffff then None else Some(raw)
  }

  function Fans(file: RegisterFile, tachs: seq<Tach>, acc: seq<int>): seq<int>
    decreases |tachs|
  {
    if tachs == [] || |acc| >= MAX_FANS then acc
    else if Count(file, tachs[0]).None? then Fans(file, tachs[1..], acc)
    else Fans(file, tachs[1..], acc + [Rpm(Count(file, tachs[0]).value)])
  }

  /** rpm is 1350000 / (2 * raw), rounded down. */
  predicate RpmOf(rpm: int, raw: int) {
    rpm * 2 * raw <= 1350000 < (rpm + 1) * 2 * raw
  }

  function Volt(lsb: nat, input: Input, v: int): real {
    (v * (if input.scaled then lsb * 2 else lsb)) as real / 10000.0
  }

  function Voltages(file: RegisterFile, inputs: seq<Input>, lsb: nat, acc: seq<real>): seq<real>
    decreases |inputs|
  {
    if inputs == [] || |acc| >= MAX_VOLTAGES then acc
    else if file(inputs[0].reg) < 0 then Voltages(file, inputs[1..], lsb, acc)
    else Voltages(file, inputs[1..], lsb, acc + [Volt(lsb, inputs[0], file(inputs[0].reg))])
  }

  function TempRegs(n: nat): (regs: seq<nat>)
    ensures |regs| == n && forall i :: 0 <= i < n ==> regs[i] == 0x29 + i
  {
    if n == 0 then [] else TempRegs(n - 1) + [0x29 + n - 1]
  }

  // ---- The readings on the bytes of bank 0 ---------------------------------------------------

  /** The signed bytes that are readable and neither 0 nor -128, in order */
  function TempsOn(file: RegisterFile, regs: seq<nat>): (s: seq<int>)
    ensures |s| <= |regs|
  {
    if regs == [] then []
    else
      var b := file(regs[0]);
      (if b < 0 || b == 0 || b == 128 then [] else if b < 128 then [b] else [b - 256]) + TempsOn(file, regs[1..])
  }

  /** Both bytes are readable, and the 16-bit count is neither 0 nor 0xffff. */
  predicate Turning(file: RegisterFile, t: Tach) {
    file(t.lo) >= 0 && file(t.hi) >= 0 && 0 < 256 * file(t.hi) + file(t.lo) < 0xffff
  }

  /** 675000 revolutions a minute divided by the count of each turning fan */
  function SpeedsOn(file: RegisterFile, tachs: seq<Tach>): (s: seq<int>)
    ensures |s| <= |tachs|
  {
    if tachs == [] then []
    else
      (if Turning(file, tachs[0]) then [675000 / (256 * file(tachs[0].hi) + file(tachs[0].lo))] else [])
      + SpeedsOn(file, tachs[1..])
  }

  /** Each readable byte times the step of the converter, in units of 0.1 mV, twice that where the input
      is divided */
  function VoltsOn(file: RegisterFile, inputs: seq<Input>, lsb: nat): (s: seq<real>)
    ensures |s| <= |inputs|
  {
    if inputs == [] then []
    else
      var v := file(inputs[0].reg);
      (if v < 0 then [] else [(v * (lsb + if inputs[0].scaled then lsb else 0)) as real / 10000.0])
      + VoltsOn(file, inputs[1..], lsb)
  }

  lemma Regroup<T>(a: seq<T>, b: seq<T>, c: seq<T>)
    ensures (a + b) + c == a + (b + c) && a + ([] + c) == a + c
  {
  }

  lemma Nothing<T>(a: seq<T>)
    ensures a + [] == a
  {
  }

  lemma {:induction false} TempsOnBytes(file: RegisterFile, regs: seq<nat>, acc: seq<int>)
    requires |acc| + |regs| <= MAX_TEMPS
    ensures Temps(file, regs, acc) == acc + TempsOn(file, regs)
    decreases |regs|
  {
    if regs == [] {
      Nothing(acc);
    } else {
      var b := file(regs[0]);
      var now: seq<int> := if b < 0 || b == 0 || b == 128 then [] else if b < 128 then [b] else [b - 256];
      Nothing(acc);
      Regroup(acc, now, TempsOn(file, regs[1..]));
      TempsOnBytes(file, regs[1..], acc + now);
    }
  }

  lemma RpmOnCount(raw: nat)
    requires raw > 0
    ensures Rpm(raw) == 675000 / raw
  {
    RpmBounds(raw);
    var q, r := 675000 / raw, 675000 % raw;
    assert 675000 == raw * q + r;
    if Rpm(raw) < q {
      Bits.Spaced(raw, Rpm(raw), q);
    } else if q < Rpm(raw) {
      Bits.Spaced(raw, q, Rpm(raw));
    }
  }

  lemma {:induction false} FansOnBytes(file: RegisterFile, tachs: seq<Tach>, acc: seq<int>)
    requires |acc| + |tachs| <= MAX_FANS
    ensures Fans(file, tachs, acc) == acc + SpeedsOn(file, tachs)
    decreases |tachs|
  {
    hide Rpm;
    Nothing(acc);
    if tachs != [] {
      var t := tachs[0];
      assert Count(file, t).Some? <==> Turning(file, t);
      var now: seq<int> := if Turning(file, t) then [675000 / (256 * file(t.hi) + file(t.lo))] else [];
      if Turning(file, t) {
        RpmOnCount(Count(file, t).value);
      }
      Regroup(acc, now, SpeedsOn(file, tachs[1..]));
      FansOnBytes(file, tachs[1..], acc + now);
    }
  }

  lemma {:induction false} VoltagesOnBytes(file: RegisterFile, inputs: seq<Input>, lsb: nat, acc: seq<real>)
    requires |acc| + |inputs| <= MAX_VOLTAGES
    ensures Voltages(file, inputs, lsb, acc) == acc + VoltsOn(file, inputs, lsb)
    decreases |inputs|
  {
    Nothing(acc);
    if inputs != [] {
      var v := file(inputs[0].reg);
      var now: seq<real> :=
        if v < 0 then [] else [(v * (lsb + if inputs[0].scaled then lsb else 0)) as real / 10000.0];
      Regroup(acc, now, VoltsOn(file, inputs[1..], lsb));
      VoltagesOnBytes(file, inputs[1..], lsb, acc + now);
    }
  }

  /** One of the tachometers shows a readable count that is neither 0 nor 0xffff, of which rpm is the
      speed. */
  ghost predicate Measured(file: RegisterFile, tachs: seq<Tach>, rpm: int) {
    exists i :: 0 <= i < |tachs| && Turning(file, tachs[i])
                && RpmOf(rpm, 256 * file(tachs[i].hi) + file(tachs[i].lo))
  }

  /** Each reported speed is that of the 16-bit count of one of the chip's tachometers. */
  lemma {:induction false} FansAreMeasured(file: RegisterFile, tachs: seq<Tach>)
    ensures forall rpm :: rpm in SpeedsOn(file, tachs) ==> Measured(file, tachs, rpm)
    decreases |tachs|
  {
    hide Turning;
    if tachs != [] {
      FansAreMeasured(file, tachs[1..]);
      forall rpm | rpm in SpeedsOn(file, tachs) ensures Measured(file, tachs, rpm) {
        if rpm in SpeedsOn(file, tachs[1..]) {
          var i :| 0 <= i < |tachs[1..]| && Turning(file, tachs[1..][i])
                   && RpmOf(rpm, 256 * file(tachs[1..][i].hi) + file(tachs[1..][i].lo));
          assert tachs[i + 1] == tachs[1..][i];
        } else {
          FirstIsMeasured(file, tachs[0]);
          assert Turning(file, tachs[0]);
        }
      }
    }
  }

  lemma FirstIsMeasured(file: RegisterFile, t: Tach)
    ensures Turning(file, t) ==>
              var raw := 256 * file(t.hi) + file(t.lo);
              RpmOf(675000 / raw, raw)
  {
    if Turning(file, t) {
      RpmOnCount(256 * file(t.hi) + file(t.lo));
      RpmBounds(256 * file(t.hi) + file(t.lo));
    }
  }

  /** These are the readings of bank 0 of a supported chip's register file, none left out. */
  predicate ReadsBank0(file: RegisterFile, id: nat, temps: seq<int>, fans: seq<int>, volts: seq<real>) {
    && FindChip(id, 0).Some?
    && var chip := FindChip(id, 0).value;
    && chip.fans <= |TACHS|
    && temps == TempsOn(file, seq(chip.temps, i => 0x29 + i))
    && fans == SpeedsOn(file, TACHS[..chip.fans])
    && volts == VoltsOn(file, INPUTS, chip.adcLsbX10)
  }

  /** The three passes of the decoder over an empty result read bank 0. */
  lemma PassesReadBank0(file: RegisterFile, id: nat)
    requires FindChip(id, 0).Some?
    ensures var chip := FindChip(id, 0).value;
            && chip.fans <= |TACHS|
            && ReadsBank0(file, id, Temps(file, TempRegs(chip.temps), []),
                          Fans(file, TACHS[..chip.fans], []), Voltages(file, INPUTS, chip.adcLsbX10, []))
  {
    FoundInTable(id, 0);
    var chip := FindChip(id, 0).value;
    assert TempRegs(chip.temps) == seq(chip.temps, i => 0x29 + i);
    assert |TACHS| == 6 && |INPUTS| == 10;
    hide FindChip, TempRegs, Temps, Fans, Voltages, TempsOn, SpeedsOn, VoltsOn;
    TempsOnBytes(file, TempRegs(chip.temps), []);
    FansOnBytes(file, TACHS[..chip.fans], []);
    VoltagesOnBytes(file, INPUTS, chip.adcLsbX10, []);
  }

  lemma {:induction false} FoundAt(id: nat, i: nat) returns (k: nat)
    requires i <= |CHIPS| && FindChip(id, i).Some?
    ensures k < |CHIPS| && FindChip(id, i).value == CHIPS[k] && CHIPS[k].id == id
    decreases |CHIPS| - i
  {
    if CHIPS[i].id == id {
      return i;
    }
    k := FoundAt(id, i + 1);
  }

  /** A chip is found for exactly its own id. */
  lemma {:induction false} FoundIff(id: nat, i: nat, k: nat)
    requires i <= k < |CHIPS|
    ensures FindChip(id, i) == Some(CHIPS[k]) <==> id == CHIPS[k].id
    decreases |CHIPS| - i
  {
    assert forall a, b :: 0 <= a < b < |CHIPS| ==> CHIPS[a].id != CHIPS[b].id;
    if i < k {
      FoundIff(id, i + 1, k);
    }
    if FindChip(id, i).Some? {
      FoundInTable(id, i);
    }
  }
}
