/** Nuvoton Super I/O monitor decoding (nct_linux.c), over a flat register file.
    A register file maps bank * 256 + index to the byte read there, or to -1 if the read fails. */
module Nct {
  import opened SuperIo
  import opened Wrappers
  import opened Sequences

  datatype Chip = Chip(id: nat, name: string, newer: bool, inputs: nat)

  const CHIPS: seq<Chip> := [
    Chip(0xc560, "nct6779", false, 15),
    Chip(0xc800, "nct6791", false, 15),
    Chip(0xc910, "nct6792", false, 15),
    Chip(0xd120, "nct6793", false, 15),
    Chip(0xd350, "nct6795", false, 15),
    Chip(0xd420, "nct6796", false, 15),
    Chip(0xd450, "nct6797", false, 15),
    Chip(0xd428, "nct6798", true, 15),
    Chip(0xd800, "nct6799", true, 18)]

  const VIN_REG: seq<nat> := [
    0x480, 0x481, 0x482, 0x483, 0x484, 0x485, 0x486, 0x487, 0x488,
    0x489, 0x48a, 0x48b, 0x48c, 0x48d, 0x48e, 0x48f, 0x470, 0x471]

  const SCALE_IN: seq<nat> := [
    800, 800, 1600, 1600, 800, 800, 800, 1600, 1600, 800, 800, 800, 800, 800, 800]

  const SCALE_IN_6798: seq<nat> := [
    800, 800, 1600, 1600, 800, 800, 800, 1600, 1600, 1600, 1600, 1600, 800,
    800, 800, 800, 1600, 800]

  const FAN_REG: seq<nat> := [0x4c0, 0x4c2, 0x4c4, 0x4c6, 0x4c8, 0x4ca, 0x4ce]

  /** A temperature register and the register that selects its source. */
  datatype Entry = Entry(reg: nat, sel: nat)

  const TEMPS_0: seq<Entry> := [Entry(0x27, 0x621), Entry(0x150, 0x622)]

  const TEMPS_1: seq<Entry> := [
    Entry(0x27, 0x621), Entry(0x150, 0x622), Entry(0x670, 0xc26), Entry(0x672, 0xc27),
    Entry(0x674, 0xc28), Entry(0x676, 0xc29), Entry(0x678, 0xc2a), Entry(0x67a, 0xc2b)]

  const MONITORS_0: seq<Entry> := [
    Entry(0x73, 0x100), Entry(0x75, 0x200), Entry(0x77, 0x300),
    Entry(0x79, 0x800), Entry(0x7b, 0x900), Entry(0x7d, 0xa00)]

  const MONITORS_1: seq<Entry> := MONITORS_0 + [Entry(0x4a0, 0xb00)]

  function Entries(newer: bool): seq<Entry> {
    if newer then TEMPS_1 + MONITORS_1 else TEMPS_0 + MONITORS_0
  }

  function Scale(newer: bool): seq<nat> {
    if newer then SCALE_IN_6798 else SCALE_IN
  }

  /** id & 0xfff8 */
  function Masked(id: nat): nat {
    id - id % 8
  }

  /** The last table entry with the masked id, as the search without a break finds it. */
  function FindChip(id: nat, n: nat): Option<Chip>
    requires n <= |CHIPS|
  {
    if n == 0 then None
    else if CHIPS[n - 1].id == Masked(id) then Some(CHIPS[n - 1])
    else FindChip(id, n - 1)
  }

  /** A chip is found for exactly the ids that differ from its own in the low three bits only. */
  lemma {:induction false} FoundIff(id: nat, n: nat, k: nat)
    requires k < n <= |CHIPS|
    ensures FindChip(id, n) == Some(CHIPS[k]) <==> CHIPS[k].id <= id < CHIPS[k].id + 8
  {
    IdsDiffer();
    if k < n - 1 {
      FoundIff(id, n - 1, k);
    } else if n > 1 && FindChip(id, n - 1).Some? {
      var j := FoundAmong(id, n - 1);
    }
  }

  lemma {:induction false} FoundAmong(id: nat, n: nat) returns (k: nat)
    requires n <= |CHIPS| && FindChip(id, n).Some?
    ensures k < n && FindChip(id, n).value == CHIPS[k] && CHIPS[k].id == Masked(id)
  {
    if CHIPS[n - 1].id == Masked(id) {
      return n - 1;
    }
    k := FoundAmong(id, n - 1);
  }

  lemma IdsDiffer()
    ensures forall k :: 0 <= k < |CHIPS| ==> CHIPS[k].id % 8 == 0
    ensures forall j, k :: 0 <= j < k < |CHIPS| ==> CHIPS[j].id != CHIPS[k].id
  {
  }

  // ---- Reading one value ----------------------------------------------------------

  predicate WordReg(reg: nat) {
    reg == 0x150 || 0x4c0 <= reg < 0x4d0
    || reg in {0x73, 0x75, 0x77, 0x79, 0x7b, 0x7d}
  }

  /** nct_rd: the byte or big-endian word at reg, -1 when a read fails. */
  function Rd(file: RegisterFile, reg: nat): int {
    if file(reg) < 0 then -1
    else if !WordReg(reg) then file(reg)
    else if file(reg + 1) < 0 then -1
    else file(reg) * 256 + file(reg + 1)
  }

  /** (signed char)v */
  function Degrees(reg: nat, v: int): int {
    if WordReg(reg) then Signed8(v / 256) else Signed8(v)
  }

  predicate Plausible(t: int) {
    -55 < t < 125 && t != 0
  }

  // ---- The decoder's three passes as it makes them ----------------------------------

  /** The source an entry selects, 0 when it is none or cannot be read. */
  function Source(file: RegisterFile, e: Entry): (s: nat)
    ensures s < 32
  {
    if Rd(file, e.sel) < 0 then 0 else Rd(file, e.sel) % 32
  }

  /** An entry's temperature, None when it cannot be read or is not plausible. */
  function Temp(file: RegisterFile, e: Entry): Option<int> {
    if Rd(file, e.reg) < 0 then None
    else if Plausible(Degrees(e.reg, Rd(file, e.reg))) then Some(Degrees(e.reg, Rd(file, e.reg)))
    else None
  }

  function Temps(file: RegisterFile, es: seq<Entry>, seen: set<nat>, acc: seq<int>): seq<int>
    decreases |es|
  {
    if es == [] || |acc| >= MAX_TEMPS then acc
    else
      var s := Source(file, es[0]);
      if s == 0 || s in seen then Temps(file, es[1..], seen, acc)
      else if Temp(file, es[0]).None? then Temps(file, es[1..], seen, acc)
      else Temps(file, es[1..], seen + {s}, acc + [Temp(file, es[0]).value])
  }

  function Fans(file: RegisterFile, regs: seq<nat>, acc: seq<int>): seq<int>
    decreases |regs|
  {
    if regs == [] || |acc| >= MAX_FANS then acc
    else
      var rpm := Rd(file, regs[0]);
      if rpm <= 0 || rpm == 0xffff then Fans(file, regs[1..], acc) else Fans(file, regs[1..], acc + [rpm])
  }

  function Level(raw: int, scale: nat): real {
    (raw * scale) as real / 100000.0
  }

  function Voltages(file: RegisterFile, regs: seq<nat>, scale: seq<nat>, acc: seq<real>): seq<real>
    requires |regs| <= |scale|
    decreases |regs|
  {
    if regs == [] || |acc| >= MAX_VOLTAGES then acc
    else
      var raw := Rd(file, regs[0]);
      if raw < 0 then Voltages(file, regs[1..], scale[1..], acc)
      else Voltages(file, regs[1..], scale[1..], acc + [Level(raw, scale[0])])
  }

  // ---- The temperature list, without running the decoder -----------------------------

  /** Bits 4:0 of the selector byte; 0 stands for no source, also if the byte cannot be read. */
  function SourceOn(file: RegisterFile, e: Entry): nat {
    if file(e.sel) < 0 then 0 else file(e.sel) % 32
  }

  /** The temperature registers of two bytes: the first holds the degrees, the second the fraction. */
  predicate TwoBytes(reg: nat) {
    reg == 0x150 || (0x73 <= reg <= 0x7d && reg % 2 == 1)
  }

  /** The temperature on the bytes at reg: the signed first one, if it is no sign of a missing sensor. */
  function Celsius(file: RegisterFile, reg: nat): Option<int> {
    if file(reg) < 0 || (TwoBytes(reg) && file(reg + 1) < 0) then None
    else
      var t: int := if file(reg) < 128 then file(reg) else file(reg) - 256;
      if t == 0 || t <= -55 || t >= 125 then None else Some(t)
  }

  /** Entry i names a source and shows a plausible temperature. */
  predicate Live(file: RegisterFile, e: Entry) {
    SourceOn(file, e) != 0 && Celsius(file, e.reg).Some?
  }

  /** Entry i is reported: it is live and no earlier live entry has the same source. */
  predicate Reported(file: RegisterFile, es: seq<Entry>, i: nat)
    requires i < |es|
  {
    Live(file, es[i])
    && forall j :: 0 <= j < i && Live(file, es[j]) ==> SourceOn(file, es[j]) != SourceOn(file, es[i])
  }

  /** The reported temperatures among the first n entries, in table order. */
  function Selection(file: RegisterFile, es: seq<Entry>, n: nat): seq<int>
    requires n <= |es|
  {
    if n == 0 then []
    else if Reported(file, es, n - 1) then Selection(file, es, n - 1) + [Celsius(file, es[n - 1].reg).value]
    else Selection(file, es, n - 1)
  }

  /** The sources of the live entries among the first n. */
  ghost function LiveSources(file: RegisterFile, es: seq<Entry>, n: nat): set<nat>
    requires n <= |es|
  {
    set j | 0 <= j < n && Live(file, es[j]) :: SourceOn(file, es[j])
  }

  lemma {:induction false} SelectionGrows(file: RegisterFile, es: seq<Entry>, m: nat, n: nat)
    requires m <= n <= |es|
    ensures |Selection(file, es, m)| <= |Selection(file, es, n)|
    ensures Selection(file, es, n)[..|Selection(file, es, m)|] == Selection(file, es, m)
    decreases n - m
  {
    if m < n {
      SelectionGrows(file, es, m, n - 1);
    }
  }

  /** The tables' registers are read as one byte or two where the decoder reads them so. */
  predicate Plain(e: Entry) {
    WordReg(e.reg) == TwoBytes(e.reg) && !WordReg(e.sel)
  }

  lemma EntryOnBytes(file: RegisterFile, e: Entry)
    requires Plain(e)
    ensures Source(file, e) == SourceOn(file, e) && Temp(file, e) == Celsius(file, e.reg)
  {
    hide WordReg, TwoBytes;
    if file(e.reg) >= 0 && file(e.reg + 1) >= 0 {
      HighByte(file(e.reg), file(e.reg + 1));
    }
  }

  lemma HighByte(hi: Byte, lo: Byte)
    ensures (hi * 256 + lo) / 256 == hi && (hi * 256 + lo) % 256 == lo && hi % 256 == hi
  {
  }

  lemma EntriesArePlain(newer: bool)
    ensures forall e :: e in Entries(newer) ==> Plain(e)
  {
    SomeArePlain();
    MonitorsArePlain();
    hide Plain;
  }

  lemma SomeArePlain()
    ensures forall e :: e in TEMPS_0 || e in TEMPS_1 ==> Plain(e)
  {
  }

  lemma MonitorsArePlain()
    ensures forall e :: e in MONITORS_0 || e in MONITORS_1 ==> Plain(e)
  {
  }

  lemma {:induction false} TempsFrom(file: RegisterFile, es: seq<Entry>, i: nat)
    requires i <= |es| && forall e :: e in es ==> Plain(e)
    requires |Selection(file, es, i)| <= MAX_TEMPS
    ensures Temps(file, es[i..], LiveSources(file, es, i), Selection(file, es, i))
            == Cut(Selection(file, es, |es|), MAX_TEMPS)
    decreases |es| - i
  {
    hide Rd, Source, Temp, SourceOn, Celsius, Plain;
    var acc, seen := Selection(file, es, i), LiveSources(file, es, i);
    SelectionGrows(file, es, i, |es|);
    if i < |es| && |acc| < MAX_TEMPS {
      assert es[i..][0] == es[i] && es[i..][1..] == es[i + 1..];
      var s := SourceOn(file, es[i]);
      EntryOnBytes(file, es[i]);
      assert Live(file, es[i]) ==> LiveSources(file, es, i + 1) == seen + {s};
      assert !Live(file, es[i]) ==> LiveSources(file, es, i + 1) == seen;
      assert s in seen ==> seen + {s} == seen;
      assert Reported(file, es, i) <==> Live(file, es[i]) && s !in seen;
      TempsFrom(file, es, i + 1);
    }
  }

  /** The decoder's list is the reference selection on the bytes of the file: in table order, the
      entries with a named source and a plausible reading whose source no earlier such entry has, cut
      at 8. */
  lemma {:induction false} TempsAreSelection(file: RegisterFile, es: seq<Entry>)
    requires forall e :: e in es ==> Plain(e)
    ensures Temps(file, es, {}, []) == Cut(Selection(file, es, |es|), MAX_TEMPS)
  {
    assert LiveSources(file, es, 0) == {};
    assert es[0..] == es;
    TempsFrom(file, es, 0);
  }

  /** The tachometer bytes at reg are readable and are neither 0 nor 0xffff. */
  predicate Spinning(file: RegisterFile, reg: nat) {
    file(reg) >= 0 && file(reg + 1) >= 0 && 0 < 256 * file(reg) + file(reg + 1) < 0xffff
  }

  /** The speeds of the spinning fans: first byte times 256 plus second byte */
  function Speeds(file: RegisterFile, regs: seq<nat>): (s: seq<int>)
    ensures |s| <= |regs|
  {
    if regs == [] then []
    else if Spinning(file, regs[0]) then [256 * file(regs[0]) + file(regs[0] + 1)] + Speeds(file, regs[1..])
    else Speeds(file, regs[1..])
  }

  lemma FanOnBytes(file: RegisterFile, reg: nat)
    requires WordReg(reg)
    ensures 0 < Rd(file, reg) != 0xffff <==> Spinning(file, reg)
    ensures Spinning(file, reg) ==> Rd(file, reg) == 256 * file(reg) + file(reg + 1)
  {
  }

  lemma {:induction false} FansFrom(file: RegisterFile, regs: seq<nat>, acc: seq<int>)
    requires |acc| <= MAX_FANS && forall reg :: reg in regs ==> WordReg(reg)
    ensures Fans(file, regs, acc) == Cut(acc + Speeds(file, regs), MAX_FANS)
    decreases |regs|
  {
    hide Rd, Cut, WordReg, Spinning;
    if regs == [] || |acc| == MAX_FANS {
      CutAtEnd(acc, Speeds(file, regs), MAX_FANS);
    } else {
      var reg := regs[0];
      FanOnBytes(file, reg);
      if Spinning(file, reg) {
        FansFrom(file, regs[1..], acc + [Rd(file, reg)]);
        Regroup(acc, Rd(file, reg), Speeds(file, regs[1..]));
      } else {
        FansFrom(file, regs[1..], acc);
      }
    }
  }

  lemma CutAtEnd<T>(a: seq<T>, b: seq<T>, n: nat)
    requires |a| == n || (|a| < n && b == [])
    ensures Cut(a + b, n) == a
  {
  }

  lemma Regroup<T>(a: seq<T>, x: T, b: seq<T>)
    ensures (a + [x]) + b == a + ([x] + b)
  {
  }

  lemma FansAreWords()
    ensures forall reg :: reg in FAN_REG ==> WordReg(reg)
  {
  }

  /** No tachometer is dropped by the limit: all spinning fans are listed, in register order. */
  lemma {:induction false} FansAreComplete(file: RegisterFile)
    ensures Fans(file, FAN_REG, []) == Speeds(file, FAN_REG)
  {
    FansAreWords();
    FansFrom(file, FAN_REG, []);
    assert [] + Speeds(file, FAN_REG) == Speeds(file, FAN_REG);
  }

  /** The voltages of all readable inputs: the byte times the input's scale in units of 10 uV */
  function Levels(file: RegisterFile, regs: seq<nat>, scale: seq<nat>): (s: seq<real>)
    requires |regs| <= |scale|
    ensures |s| <= |regs|
    ensures |s| == |regs| <==> forall k :: 0 <= k < |regs| ==> file(regs[k]) >= 0
  {
    if regs == [] then []
    else
      var rest := Levels(file, regs[1..], scale[1..]);
      assert forall k :: 0 < k < |regs| ==> regs[k] == regs[1..][k - 1];
      if file(regs[0]) < 0 then rest else [(file(regs[0]) * scale[0]) as real / 100000.0] + rest
  }

  lemma VoltageOnBytes(file: RegisterFile, reg: nat)
    requires !WordReg(reg)
    ensures Rd(file, reg) == file(reg)
  {
  }

  lemma {:induction false} VoltagesFrom(file: RegisterFile, regs: seq<nat>, scale: seq<nat>, acc: seq<real>)
    requires |regs| <= |scale| && |acc| <= MAX_VOLTAGES && forall reg :: reg in regs ==> !WordReg(reg)
    ensures Voltages(file, regs, scale, acc) == Cut(acc + Levels(file, regs, scale), MAX_VOLTAGES)
    decreases |regs|
  {
    hide Rd, Cut, WordReg;
    if regs != [] {
      VoltageOnBytes(file, regs[0]);
    }
    if regs == [] || |acc| == MAX_VOLTAGES {
      CutAtEnd(acc, Levels(file, regs, scale), MAX_VOLTAGES);
    } else if Rd(file, regs[0]) < 0 {
      VoltagesFrom(file, regs[1..], scale[1..], acc);
    } else {
      var v := Level(Rd(file, regs[0]), scale[0]);
      VoltagesFrom(file, regs[1..], scale[1..], acc + [v]);
      Regroup(acc, v, Levels(file, regs[1..], scale[1..]));
    }
  }

  /** The readable inputs are all listed if and only if at most 16 of them are readable; otherwise the
      first 16. */
  lemma VoltagesCompleteIff(file: RegisterFile, regs: seq<nat>, scale: seq<nat>)
    requires |regs| <= |scale| && forall reg :: reg in regs ==> !WordReg(reg)
    ensures Voltages(file, regs, scale, []) == Cut(Levels(file, regs, scale), MAX_VOLTAGES)
    ensures Voltages(file, regs, scale, []) == Levels(file, regs, scale)
            <==> |Levels(file, regs, scale)| <= MAX_VOLTAGES
  {
    hide Voltages, Levels;
    VoltagesFrom(file, regs, scale, []);
    assert [] + Levels(file, regs, scale) == Levels(file, regs, scale);
  }

  lemma InputsAreBytes()
    ensures forall reg :: reg in VIN_REG ==> !WordReg(reg)
  {
  }

  lemma TooManyReadable(file: RegisterFile, regs: seq<nat>, scale: seq<nat>)
    requires MAX_VOLTAGES < |regs| <= |scale| && forall reg :: reg in regs ==> !WordReg(reg)
    requires forall k :: 0 <= k < |regs| ==> file(regs[k]) >= 0
    ensures |Levels(file, regs, scale)| == |regs| && |Voltages(file, regs, scale, [])| == MAX_VOLTAGES
  {
    VoltagesCompleteIff(file, regs, scale);
    hide Levels, Voltages, Rd;
  }

  /** The newest chip of the table has as many inputs as there are voltage registers. */
  const NEWEST := CHIPS[8]

  lemma NewestIsKnown()
    ensures NEWEST.name == "nct6799" && FindChip(NEWEST.id, |CHIPS|) == Some(NEWEST)
    ensures NEWEST.newer && NEWEST.inputs == |VIN_REG| == |SCALE_IN_6798| == 18
  {
    assert |CHIPS| == 9 && Masked(0xd800) == 0xd800;
  }

  /** Inputs that are lost: when all 18 of the nct6799 are readable, only 16 are reported, so not 0x470
      and 0x471. */
  lemma NewestChipLosesInputs(file: RegisterFile)
    requires forall k :: 0 <= k < |VIN_REG| ==> file(VIN_REG[k]) >= 0
    ensures |VIN_REG| == |Scale(NEWEST.newer)| == NEWEST.inputs
    ensures |Levels(file, VIN_REG, Scale(NEWEST.newer))| == 18
    ensures |Voltages(file, VIN_REG, Scale(NEWEST.newer), [])| == 16
  {
    NewestIsKnown();
    InputsAreBytes();
    hide FindChip, Levels, Voltages, Rd;
    TooManyReadable(file, VIN_REG, Scale(NEWEST.newer));
  }
}
