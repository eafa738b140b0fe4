/** Serialisation of a sensor snapshot to JSON and CSV (export.c). */
module Export {
  import opened Decimals
  import opened JsonText
  import opened Appending
  import Csv
  import opened Wrappers
  import opened Sequences

  /** A NUL-terminated byte string, without its terminator. */
  type CStr = s: string | '\0' !in s

  /** A finite double, as the decimal that printf rounds it to at the precision of its field. */
  datatype Fixed = Fixed(neg: bool, digits: nat)

  datatype Drive = Drive(name: CStr, temperature: int, sizeGb: int, usedGb: int)

  /** hwsense_sensor_data_t; platform_data is not serialised. */
  datatype Snapshot = Snapshot(
    cpuVendor: CStr, cpuName: CStr, cpuCores: int, cpuThreads: int,
    cpuTemp: Fixed, cpuTempMin: Fixed, cpuTempMax: Fixed, cpuTempAvg: Fixed, gpuTemp: Fixed,
    cpuClockMhz: int, cpuClockMaxMhz: int, cpuVoltage: Fixed, socVoltage: Fixed,
    cpuPower: Fixed, cpuPowerCores: Fixed, cpuPowerUncore: Fixed, dramPower: Fixed,
    memoryUsedGb: Fixed, memoryTotalGb: Fixed, memoryPercent: int,
    cpuLoad: Fixed, uptimeDays: int, uptimeHours: int,
    fanCount: int, fanRpms: seq<int>, driveCount: int, drives: seq<Drive>)
  {
    predicate Valid() {
      |fanRpms| == 8 && |drives| == 8
    }
  }

  const MAX_ENTRIES := 8

  /** How many of the 8 array entries a count field selects. */
  function Selected(count: int): (n: nat)
    ensures n <= MAX_ENTRIES
  {
    if count < 0 then 0 else Min(count, MAX_ENTRIES)
  }

  // ---- The tree a JSON reader must get back ------------------------------------

  function Dec(x: Fixed, places: nat): Decimal {
    Decimal(x.neg, x.digits, places)
  }

  function Number(x: Fixed, places: nat): Json {
    Num(Dec(x, places), 0)
  }

  function Int(n: int): Json {
    Num(OfInt(n), 0)
  }

  function CpuIdentity(d: Snapshot): seq<Member> {
    [Member("vendor", Str(d.cpuVendor)),
     Member("name", Str(d.cpuName)),
     Member("cores", Int(d.cpuCores)),
     Member("threads", Int(d.cpuThreads))]
  }

  function CpuTemps(d: Snapshot): seq<Member> {
    [Member("temp_c", Number(d.cpuTemp, 2)),
     Member("temp_min_c", Number(d.cpuTempMin, 2)),
     Member("temp_max_c", Number(d.cpuTempMax, 2)),
     Member("temp_avg_c", Number(d.cpuTempAvg, 2))]
  }

  function CpuClocks(d: Snapshot): seq<Member> {
    [Member("clock_mhz", Int(d.cpuClockMhz)),
     Member("clock_max_mhz", Int(d.cpuClockMaxMhz)),
     Member("voltage_v", Number(d.cpuVoltage, 4)),
     Member("soc_voltage_v", Number(d.socVoltage, 4))]
  }

  function CpuPowers(d: Snapshot): seq<Member> {
    [Member("power_w", Number(d.cpuPower, 2)),
     Member("power_cores_w", Number(d.cpuPowerCores, 2)),
     Member("power_uncore_w", Number(d.cpuPowerUncore, 2)),
     Member("load_percent", Number(d.cpuLoad, 1))]
  }

  function CpuTree(d: Snapshot): Json {
    Obj(CpuIdentity(d) + CpuTemps(d) + CpuClocks(d) + CpuPowers(d))
  }

  function MemoryMembers(d: Snapshot): seq<Member> {
    [Member("used_gb", Number(d.memoryUsedGb, 2)),
     Member("total_gb", Number(d.memoryTotalGb, 2)),
     Member("percent", Int(d.memoryPercent)),
     Member("dram_power_w", Number(d.dramPower, 2))]
  }

  function MemoryTree(d: Snapshot): Json {
    Obj(MemoryMembers(d))
  }

  function FanItems(d: Snapshot, n: nat): seq<Json>
    requires n <= |d.fanRpms|
  {
    if n == 0 then [] else FanItems(d, n - 1) + [Int(d.fanRpms[n - 1])]
  }

  function DriveMembers(v: Drive): seq<Member> {
    [Member("name", Str(v.name)),
     Member("temp_c", Int(v.temperature)),
     Member("size_gb", Int(v.sizeGb)),
     Member("used_gb", Int(v.usedGb))]
  }

  function DriveTree(v: Drive): Json {
    Obj(DriveMembers(v))
  }

  function DriveItems(d: Snapshot, n: nat): seq<Json>
    requires n <= |d.drives|
  {
    if n == 0 then [] else DriveItems(d, n - 1) + [DriveTree(d.drives[n - 1])]
  }

  function GpuTree(d: Snapshot): Json {
    Obj([Member("temp_c", Number(d.gpuTemp, 2))])
  }

  function FanTree(d: Snapshot): Json
    requires d.Valid()
  {
    Arr(FanItems(d, Selected(d.fanCount)))
  }

  function DrivesTree(d: Snapshot): Json
    requires d.Valid()
  {
    Arr(DriveItems(d, Selected(d.driveCount)))
  }

  function UptimeTree(d: Snapshot): Json {
    Obj([Member("days", Int(d.uptimeDays)), Member("hours", Int(d.uptimeHours))])
  }

  function SnapshotTree(d: Snapshot): Json
    requires d.Valid()
  {
    Obj([Member("cpu", CpuTree(d)),
         Member("gpu", GpuTree(d)),
         Member("memory", MemoryTree(d)),
         Member("fans", FanTree(d)),
         Member("drives", DrivesTree(d)),
         Member("uptime", UptimeTree(d))])
  }

  /** The fan list is the first min(max(fan_count, 0), 8) entries, in order. */
  lemma {:induction false} FanItemAt(d: Snapshot, n: nat, k: nat)
    requires k < n <= |d.fanRpms|
    ensures |FanItems(d, n)| == n && FanItems(d, n)[k] == Int(d.fanRpms[k])
  {
    if n > 1 {
      FanItemAt(d, n - 1, if k < n - 1 then k else 0);
    }
  }

  lemma {:induction false} DriveItemAt(d: Snapshot, n: nat, k: nat)
    requires k < n <= |d.drives|
    ensures |DriveItems(d, n)| == n && DriveItems(d, n)[k] == DriveTree(d.drives[k])
  {
    if n > 1 {
      DriveItemAt(d, n - 1, if k < n - 1 then k else 0);
    }
  }

  // ---- Text of the parts, built from the left -------------------------------------

  /** Words are their own escaped form. */
  predicate Word(s: string) {
    forall i :: 0 <= i < |s| ==> 'a' <= s[i] <= 'z' || s[i] == '_'
  }

  function Key(key: string): string {
    "\"" + key + "\":"
  }

  lemma {:induction false} WordEscape(s: string)
    requires Word(s)
    ensures EscapeAll(s) == s
  {
    if s != "" {
      assert Word(s[1..]) by {
        forall i | 0 <= i < |s[1..]| ensures 'a' <= s[1..][i] <= 'z' || s[1..][i] == '_' {
          assert s[1..][i] == s[i + 1];
        }
      }
      WordEscape(s[1..]);
    }
  }

  lemma {:induction false} WordMember(key: string, v: Json)
    requires Word(key)
    ensures PrintMember(Member(key, v)) == Key(key) + Print(v)
  {
    hide Print;
    WordEscape(key);
    assert Quote(key) + ":" == Key(key);
  }

  function Comma(first: bool): string {
    if first then "" else ","
  }

  lemma {:induction false} MembersSnoc(ms: seq<Member>, m: Member)
    ensures PrintMembers(ms + [m]) == PrintMembers(ms) + (Comma(ms == []) + PrintMember(m))
  {
    hide PrintMember;
    if ms == [] {
      assert ms + [m] == [m];
    } else if |ms| == 1 {
      assert (ms + [m])[1..] == [m];
    } else {
      MembersSnoc(ms[1..], m);
      assert (ms + [m])[1..] == ms[1..] + [m];
      Assoc(PrintMember(ms[0]) + ",", PrintMembers(ms[1..]), "," + PrintMember(m));
    }
  }

  lemma {:induction false} ItemsSnoc(items: seq<Json>, j: Json)
    ensures PrintItems(items + [j]) == PrintItems(items) + (Comma(items == []) + Print(j))
  {
    hide Print;
    if items == [] {
      assert items + [j] == [j];
    } else if |items| == 1 {
      assert (items + [j])[1..] == [j];
    } else {
      ItemsSnoc(items[1..], j);
      assert (items + [j])[1..] == items[1..] + [j];
      Assoc(Print(items[0]) + ",", PrintItems(items[1..]), "," + Print(j));
    }
  }

  // ---- The JSON writer --------------------------------------------------------------

  method AppendJsonString(a: Appender, s: CStr)
    requires a.Valid()
    modifies a, a.buf
    ensures a.Valid() && a.started
    ensures a.buf == old(a.buf) && a.size == old(a.size) && a.initial == old(a.initial)
    ensures a.text == old(a.text) + Quote(s)
  {
    ghost var start := a.text;
    assert s[..0] == "" && EscapeAll("") == "";
    hide Snprintf, Escape, EscapeAll;
    a.Append("\"");
    assert start + "\"" + "" == start + "\"";
    var i := 0;
    while i < |s|
      invariant 0 <= i <= |s|
      invariant a.Valid() && a.started
      invariant a.buf == old(a.buf) && a.size == old(a.size) && a.initial == old(a.initial)
      invariant a.text == start + "\"" + EscapeAll(s[..i])
    {
      a.Append(Escape(s[i]));
      EscapeSnoc(s, i);
      Assoc(start + "\"", EscapeAll(s[..i]), Escape(s[i]));
      i := i + 1;
    }
    assert s[..|s|] == s;
    a.Append("\"");
    Enclosed(start, "\"", EscapeAll(s), "\"");
  }

  lemma {:induction false} EscapeSnoc(s: string, i: nat)
    requires i < |s|
    ensures EscapeAll(s[..i + 1]) == EscapeAll(s[..i]) + Escape(s[i])
  {
    hide Escape;
    if i == 0 {
      assert s[..1] == [s[0]];
    } else {
      EscapeSnoc(s[1..], i - 1);
      assert s[..i + 1][1..] == s[1..][..i] && s[..i][1..] == s[1..][..i - 1];
    }
  }

  lemma Regrouped(base: string, ms: string, comma: string, key: string, value: string)
    ensures (base + ms) + (comma + key + value) == base + (ms + (comma + (key + value)))
  {
  }

  /** One more member behind those already written. */
  lemma {:induction false} MemberWritten(base: string, ms: seq<Member>, key: string, v: Json)
    requires Word(key)
    ensures (base + PrintMembers(ms)) + (Comma(ms == []) + Key(key) + Print(v))
            == base + PrintMembers(ms + [Member(key, v)])
  {
    hide Print, PrintMembers, PrintMember, Key;
    WordMember(key, v);
    MembersSnoc(ms, Member(key, v));
    Regrouped(base, PrintMembers(ms), Comma(ms == []), Key(key), Print(v));
  }

  /** append(a, ",\"key\":%.Nf", value), behind the members ms. */
  method AppendNumber(a: Appender, comma: string, key: string, value: Decimal,
                      ghost base: string, ghost ms: seq<Member>)
    returns (ghost more: seq<Member>)
    requires a.Valid() && a.text == base + PrintMembers(ms)
    requires Word(key) && comma == Comma(ms == [])
    modifies a, a.buf
    ensures a.Valid() && a.started
    ensures a.buf == old(a.buf) && a.size == old(a.size) && a.initial == old(a.initial)
    ensures more == ms + [Member(key, Num(value, 0))]
    ensures a.text == base + PrintMembers(more)
  {
    hide Format, PrintMembers, Key;
    a.Append(comma + Key(key) + Format(value));
    MemberWritten(base, ms, key, Num(value, 0));
    assert Format(value) + "" == Format(value);
    more := ms + [Member(key, Num(value, 0))];
  }

  /** append(a, ",\"key\":") and append_json_string(a, s), behind the members ms. */
  method AppendString(a: Appender, comma: string, key: string, s: CStr,
                      ghost base: string, ghost ms: seq<Member>)
    returns (ghost more: seq<Member>)
    requires a.Valid() && a.text == base + PrintMembers(ms)
    requires Word(key) && comma == Comma(ms == [])
    modifies a, a.buf
    ensures a.Valid() && a.started
    ensures a.buf == old(a.buf) && a.size == old(a.size) && a.initial == old(a.initial)
    ensures more == ms + [Member(key, Str(s))]
    ensures a.text == base + PrintMembers(more)
  {
    hide Quote, PrintMembers, Key;
    a.Append(comma + Key(key));
    AppendJsonString(a, s);
    MemberWritten(base, ms, key, Str(s));
    Assoc(base + PrintMembers(ms), comma + Key(key), Quote(s));
    more := ms + [Member(key, Str(s))];
  }

  /** The object whose members ms stand between base + open brace and a closing brace. */
  lemma {:induction false} ObjectClosed(base: string, ms: seq<Member>)
    ensures ((base + "{") + PrintMembers(ms)) + "}" == base + Print(Obj(ms))
  {
    hide PrintMembers;
    Enclosed(base, "{", PrintMembers(ms), "}");
  }

  lemma {:induction false} ArrayClosed(base: string, items: seq<Json>)
    ensures ((base + "[") + PrintItems(items)) + "]" == base + Print(Arr(items))
  {
    hide PrintItems;
    Enclosed(base, "[", PrintItems(items), "]");
  }

  lemma Enclosed(base: string, open: string, body: string, close: string)
    ensures ((base + open) + body) + close == base + (open + body + close)
  {
  }

  lemma Four(ms: seq<Member>, m: seq<Member>)
    requires |m| == 4
    ensures ms + [m[0]] + [m[1]] + [m[2]] + [m[3]] == ms + m
    ensures [] + m == m
  {
  }

  lemma NoMembers(base: string)
    ensures base + PrintMembers([]) == base
  {
  }

  method AppendCpuIdentity(a: Appender, d: Snapshot, ghost base: string)
    returns (ghost more: seq<Member>)
    requires a.Valid() && a.text == base
    modifies a, a.buf
    ensures a.Valid() && a.started
    ensures a.buf == old(a.buf) && a.size == old(a.size) && a.initial == old(a.initial)
    ensures more == CpuIdentity(d)
    ensures a.text == base + PrintMembers(more)
  {
    NoMembers(base);
    hide PrintMembers, Print, Snprintf;
    more := AppendString(a, "", "vendor", d.cpuVendor, base, []);
    more := AppendString(a, ",", "name", d.cpuName, base, more);
    more := AppendNumber(a, ",", "cores", OfInt(d.cpuCores), base, more);
    more := AppendNumber(a, ",", "threads", OfInt(d.cpuThreads), base, more);
    Four([], CpuIdentity(d));
  }

  method AppendCpuTemps(a: Appender, d: Snapshot, ghost base: string, ghost ms: seq<Member>)
    returns (ghost more: seq<Member>)
    requires a.Valid() && a.text == base + PrintMembers(ms) && ms != []
    modifies a, a.buf
    ensures a.Valid() && a.started
    ensures a.buf == old(a.buf) && a.size == old(a.size) && a.initial == old(a.initial)
    ensures more == ms + CpuTemps(d)
    ensures a.text == base + PrintMembers(more)
  {
    hide PrintMembers, Print, Snprintf;
    more := AppendNumber(a, ",", "temp_c", Dec(d.cpuTemp, 2), base, ms);
    more := AppendNumber(a, ",", "temp_min_c", Dec(d.cpuTempMin, 2), base, more);
    more := AppendNumber(a, ",", "temp_max_c", Dec(d.cpuTempMax, 2), base, more);
    more := AppendNumber(a, ",", "temp_avg_c", Dec(d.cpuTempAvg, 2), base, more);
    Four(ms, CpuTemps(d));
  }

  method AppendCpuClocks(a: Appender, d: Snapshot, ghost base: string, ghost ms: seq<Member>)
    returns (ghost more: seq<Member>)
    requires a.Valid() && a.text == base + PrintMembers(ms) && ms != []
    modifies a, a.buf
    ensures a.Valid() && a.started
    ensures a.buf == old(a.buf) && a.size == old(a.size) && a.initial == old(a.initial)
    ensures more == ms + CpuClocks(d)
    ensures a.text == base + PrintMembers(more)
  {
    hide PrintMembers, Print, Snprintf;
    more := AppendNumber(a, ",", "clock_mhz", OfInt(d.cpuClockMhz), base, ms);
    more := AppendNumber(a, ",", "clock_max_mhz", OfInt(d.cpuClockMaxMhz), base, more);
    more := AppendNumber(a, ",", "voltage_v", Dec(d.cpuVoltage, 4), base, more);
    more := AppendNumber(a, ",", "soc_voltage_v", Dec(d.socVoltage, 4), base, more);
    Four(ms, CpuClocks(d));
  }

  method AppendCpuPowers(a: Appender, d: Snapshot, ghost base: string, ghost ms: seq<Member>)
    returns (ghost more: seq<Member>)
    requires a.Valid() && a.text == base + PrintMembers(ms) && ms != []
    modifies a, a.buf
    ensures a.Valid() && a.started
    ensures a.buf == old(a.buf) && a.size == old(a.size) && a.initial == old(a.initial)
    ensures more == ms + CpuPowers(d)
    ensures a.text == base + PrintMembers(more)
  {
    hide PrintMembers, Print, Snprintf;
    more := AppendNumber(a, ",", "power_w", Dec(d.cpuPower, 2), base, ms);
    more := AppendNumber(a, ",", "power_cores_w", Dec(d.cpuPowerCores, 2), base, more);
    more := AppendNumber(a, ",", "power_uncore_w", Dec(d.cpuPowerUncore, 2), base, more);
    more := AppendNumber(a, ",", "load_percent", Dec(d.cpuLoad, 1), base, more);
    Four(ms, CpuPowers(d));
  }

  method AppendMemoryMembers(a: Appender, d: Snapshot, ghost base: string)
    returns (ghost more: seq<Member>)
    requires a.Valid() && a.text == base
    modifies a, a.buf
    ensures a.Valid() && a.started
    ensures a.buf == old(a.buf) && a.size == old(a.size) && a.initial == old(a.initial)
    ensures more == MemoryMembers(d)
    ensures a.text == base + PrintMembers(more)
  {
    NoMembers(base);
    hide PrintMembers, Print, Snprintf;
    more := AppendNumber(a, "", "used_gb", Dec(d.memoryUsedGb, 2), base, []);
    more := AppendNumber(a, ",", "total_gb", Dec(d.memoryTotalGb, 2), base, more);
    more := AppendNumber(a, ",", "percent", OfInt(d.memoryPercent), base, more);
    more := AppendNumber(a, ",", "dram_power_w", Dec(d.dramPower, 2), base, more);
    Four([], MemoryMembers(d));
  }

  method AppendDriveMembers(a: Appender, v: Drive, ghost base: string)
    returns (ghost more: seq<Member>)
    requires a.Valid() && a.text == base
    modifies a, a.buf
    ensures a.Valid() && a.started
    ensures a.buf == old(a.buf) && a.size == old(a.size) && a.initial == old(a.initial)
    ensures more == DriveMembers(v)
    ensures a.text == base + PrintMembers(more)
  {
    NoMembers(base);
    hide PrintMembers, Print, Snprintf;
    more := AppendString(a, "", "name", v.name, base, []);
    more := AppendNumber(a, ",", "temp_c", OfInt(v.temperature), base, more);
    more := AppendNumber(a, ",", "size_gb", OfInt(v.sizeGb), base, more);
    more := AppendNumber(a, ",", "used_gb", OfInt(v.usedGb), base, more);
    Four([], DriveMembers(v));
  }

  method AppendCpu(a: Appender, d: Snapshot)
    requires a.Valid()
    modifies a, a.buf
    ensures a.Valid() && a.started
    ensures a.buf == old(a.buf) && a.size == old(a.size) && a.initial == old(a.initial)
    ensures a.text == old(a.text) + Print(CpuTree(d))
  {
    hide PrintMembers, Print, Snprintf, CpuIdentity, CpuTemps, CpuClocks, CpuPowers;
    ghost var start := a.text;
    a.Append("{");
    ghost var ms := AppendCpuIdentity(a, d, start + "{");
    assert ms != [] by { CpuIdentityFirst(d); }
    ms := AppendCpuTemps(a, d, start + "{", ms);
    ms := AppendCpuClocks(a, d, start + "{", ms);
    ms := AppendCpuPowers(a, d, start + "{", ms);
    a.Append("}");
    ObjectClosed(start, ms);
  }

  lemma CpuIdentityFirst(d: Snapshot)
    ensures CpuIdentity(d) != []
  {
  }

  method AppendMemory(a: Appender, d: Snapshot)
    requires a.Valid()
    modifies a, a.buf
    ensures a.Valid() && a.started
    ensures a.buf == old(a.buf) && a.size == old(a.size) && a.initial == old(a.initial)
    ensures a.text == old(a.text) + Print(MemoryTree(d))
  {
    hide PrintMembers, Print, Snprintf, MemoryMembers;
    ghost var start := a.text;
    a.Append("{");
    ghost var ms := AppendMemoryMembers(a, d, start + "{");
    a.Append("}");
    ObjectClosed(start, ms);
  }

  method AppendDrive(a: Appender, v: Drive)
    requires a.Valid()
    modifies a, a.buf
    ensures a.Valid() && a.started
    ensures a.buf == old(a.buf) && a.size == old(a.size) && a.initial == old(a.initial)
    ensures a.text == old(a.text) + Print(DriveTree(v))
  {
    hide PrintMembers, Print, Snprintf, DriveMembers;
    ghost var start := a.text;
    a.Append("{");
    ghost var ms := AppendDriveMembers(a, v, start + "{");
    a.Append("}");
    ObjectClosed(start, ms);
  }

  method AppendGpu(a: Appender, d: Snapshot)
    requires a.Valid()
    modifies a, a.buf
    ensures a.Valid() && a.started
    ensures a.buf == old(a.buf) && a.size == old(a.size) && a.initial == old(a.initial)
    ensures a.text == old(a.text) + Print(GpuTree(d))
  {
    ghost var start := a.text;
    NoMembers(start + "{");
    hide PrintMembers, Print, Snprintf;
    a.Append("{");
    ghost var ms := AppendNumber(a, "", "temp_c", Dec(d.gpuTemp, 2), start + "{", []);
    a.Append("}");
    ObjectClosed(start, ms);
    assert ms == [Member("temp_c", Number(d.gpuTemp, 2))];
  }

  method AppendUptime(a: Appender, d: Snapshot)
    requires a.Valid()
    modifies a, a.buf
    ensures a.Valid() && a.started
    ensures a.buf == old(a.buf) && a.size == old(a.size) && a.initial == old(a.initial)
    ensures a.text == old(a.text) + Print(UptimeTree(d))
  {
    ghost var start := a.text;
    NoMembers(start + "{");
    hide PrintMembers, Print, Snprintf;
    a.Append("{");
    ghost var ms := AppendNumber(a, "", "days", OfInt(d.uptimeDays), start + "{", []);
    ms := AppendNumber(a, ",", "hours", OfInt(d.uptimeHours), start + "{", ms);
    a.Append("}");
    ObjectClosed(start, ms);
    assert ms == [Member("days", Int(d.uptimeDays)), Member("hours", Int(d.uptimeHours))];
  }

  lemma {:induction false} ItemWritten(base: string, items: seq<Json>, j: Json)
    ensures ((base + PrintItems(items)) + Comma(items == [])) + Print(j) == base + PrintItems(items + [j])
  {
    hide Print, PrintItems;
    ItemsSnoc(items, j);
    Grouped(base, PrintItems(items), Comma(items == []), Print(j));
  }

  lemma Grouped(base: string, items: string, comma: string, item: string)
    ensures ((base + items) + comma) + item == base + (items + (comma + item))
    ensures (base + items) + (comma + item) == base + (items + (comma + item))
  {
  }

  /** Entry i of the fan array, behind those before it */
  method AppendFan(a: Appender, d: Snapshot, i: nat, ghost base: string)
    requires a.Valid() && d.Valid() && i < 8 && a.text == base + PrintItems(FanItems(d, i))
    modifies a, a.buf
    ensures a.Valid() && a.started
    ensures a.buf == old(a.buf) && a.size == old(a.size) && a.initial == old(a.initial)
    ensures a.text == base + PrintItems(FanItems(d, i + 1))
  {
    OneMoreFan(d, i);
    hide PrintItems, Print, Snprintf, FanItems;
    a.Append((if i != 0 then "," else "") + FormatInt(d.fanRpms[i]));
    PrintInt(d.fanRpms[i]);
    ItemWritten(base, FanItems(d, i), Int(d.fanRpms[i]));
    Grouped(base, PrintItems(FanItems(d, i)), Comma(i == 0), FormatInt(d.fanRpms[i]));
  }

  lemma OneMoreFan(d: Snapshot, i: nat)
    requires i < |d.fanRpms|
    ensures FanItems(d, i + 1) == FanItems(d, i) + [Int(d.fanRpms[i])]
    ensures FanItems(d, i) == [] <==> i == 0
  {
  }

  method AppendFans(a: Appender, d: Snapshot)
    requires a.Valid() && d.Valid()
    modifies a, a.buf
    ensures a.Valid() && a.started
    ensures a.buf == old(a.buf) && a.size == old(a.size) && a.initial == old(a.initial)
    ensures a.text == old(a.text) + Print(FanTree(d))
  {
    ghost var start := a.text;
    assert PrintItems(FanItems(d, 0)) == "" && (start + "[") + "" == start + "[";
    hide PrintItems, Print, Snprintf, FanItems;
    a.Append("[");
    var i := 0;
    while i < d.fanCount && i < 8
      invariant 0 <= i <= 8 && (i <= d.fanCount || i == 0)
      invariant a.Valid() && a.started
      invariant a.buf == old(a.buf) && a.size == old(a.size) && a.initial == old(a.initial)
      invariant a.text == (start + "[") + PrintItems(FanItems(d, i))
    {
      AppendFan(a, d, i, start + "[");
      i := i + 1;
    }
    a.Append("]");
    ArrayClosed(start, FanItems(d, i));
  }

  lemma PrintInt(n: int)
    ensures Print(Int(n)) == FormatInt(n)
  {
  }

  lemma OneMoreDrive(d: Snapshot, i: nat)
    requires i < |d.drives|
    ensures DriveItems(d, i + 1) == DriveItems(d, i) + [DriveTree(d.drives[i])]
    ensures DriveItems(d, i) == [] <==> i == 0
  {
  }

  /** Entry i of the drive array, behind those before it */
  method AppendDriveItem(a: Appender, d: Snapshot, i: nat, ghost base: string)
    requires a.Valid() && d.Valid() && i < 8 && a.text == base + PrintItems(DriveItems(d, i))
    modifies a, a.buf
    ensures a.Valid() && a.started
    ensures a.buf == old(a.buf) && a.size == old(a.size) && a.initial == old(a.initial)
    ensures a.text == base + PrintItems(DriveItems(d, i + 1))
  {
    OneMoreDrive(d, i);
    hide PrintItems, Print, Snprintf, DriveTree, DriveItems;
    a.Append(if i != 0 then "," else "");
    AppendDrive(a, d.drives[i]);
    ItemWritten(base, DriveItems(d, i), DriveTree(d.drives[i]));
  }

  method AppendDrives(a: Appender, d: Snapshot)
    requires a.Valid() && d.Valid()
    modifies a, a.buf
    ensures a.Valid() && a.started
    ensures a.buf == old(a.buf) && a.size == old(a.size) && a.initial == old(a.initial)
    ensures a.text == old(a.text) + Print(DrivesTree(d))
  {
    ghost var start := a.text;
    assert PrintItems(DriveItems(d, 0)) == "" && (start + "[") + "" == start + "[";
    hide PrintItems, Print, Snprintf, DriveTree, DriveItems;
    a.Append("[");
    var i := 0;
    while i < d.driveCount && i < 8
      invariant 0 <= i <= 8 && (i <= d.driveCount || i == 0)
      invariant a.Valid() && a.started
      invariant a.buf == old(a.buf) && a.size == old(a.size) && a.initial == old(a.initial)
      invariant a.text == (start + "[") + PrintItems(DriveItems(d, i))
    {
      AppendDriveItem(a, d, i, start + "[");
      i := i + 1;
    }
    a.Append("]");
    ArrayClosed(start, DriveItems(d, i));
  }

  lemma {:induction false} NestedWritten(base: string, ms: seq<Member>, key: string, v: Json)
    requires Word(key)
    ensures ((base + PrintMembers(ms)) + (Comma(ms == []) + Key(key))) + Print(v)
            == base + PrintMembers(ms + [Member(key, v)])
  {
    hide Print, PrintMembers, Key;
    MemberWritten(base, ms, key, v);
    Assoc(base + PrintMembers(ms), Comma(ms == []) + Key(key), Print(v));
  }

  method AppendHardware(a: Appender, d: Snapshot, ghost base: string) returns (ghost ms: seq<Member>)
    requires a.Valid() && a.text == base
    modifies a, a.buf
    ensures a.Valid() && a.started
    ensures a.buf == old(a.buf) && a.size == old(a.size) && a.initial == old(a.initial)
    ensures ms == [Member("cpu", CpuTree(d)), Member("gpu", GpuTree(d)), Member("memory", MemoryTree(d))]
    ensures a.text == base + PrintMembers(ms)
  {
    NoMembers(base);
    hide PrintMembers, Print, Snprintf, Key, CpuTree, GpuTree, MemoryTree;
    a.Append("" + Key("cpu"));
    AppendCpu(a, d);
    NestedWritten(base, [], "cpu", CpuTree(d));
    ms := [] + [Member("cpu", CpuTree(d))];
    a.Append("," + Key("gpu"));
    AppendGpu(a, d);
    NestedWritten(base, ms, "gpu", GpuTree(d));
    ms := ms + [Member("gpu", GpuTree(d))];
    a.Append("," + Key("memory"));
    AppendMemory(a, d);
    NestedWritten(base, ms, "memory", MemoryTree(d));
    ms := ms + [Member("memory", MemoryTree(d))];
  }

  method AppendSystem(a: Appender, d: Snapshot, ghost base: string, ghost before: seq<Member>)
    returns (ghost ms: seq<Member>)
    requires a.Valid() && d.Valid() && a.text == base + PrintMembers(before) && before != []
    modifies a, a.buf
    ensures a.Valid() && a.started
    ensures a.buf == old(a.buf) && a.size == old(a.size) && a.initial == old(a.initial)
    ensures ms == before + [Member("fans", FanTree(d))] + [Member("drives", DrivesTree(d))]
                  + [Member("uptime", UptimeTree(d))]
    ensures a.text == base + PrintMembers(ms)
  {
    hide PrintMembers, Print, Snprintf, Key, FanTree, DrivesTree, UptimeTree;
    a.Append("," + Key("fans"));
    AppendFans(a, d);
    NestedWritten(base, before, "fans", FanTree(d));
    ms := before + [Member("fans", FanTree(d))];
    a.Append("," + Key("drives"));
    AppendDrives(a, d);
    NestedWritten(base, ms, "drives", DrivesTree(d));
    ms := ms + [Member("drives", DrivesTree(d))];
    a.Append("," + Key("uptime"));
    AppendUptime(a, d);
    NestedWritten(base, ms, "uptime", UptimeTree(d));
    ms := ms + [Member("uptime", UptimeTree(d))];
  }

  /** The conversion (int)needed. */
  function AsInt32(n: nat): int {
    var low := n % 0x1_0000_0000;
    if low < 0x8000_0000 then low else low - 0x1_0000_0000
  }

  /** hwsense_export_json: the buffer gets what snprintf would leave of the whole text, and the
      result is the whole text's length; invalid arguments give -1 and write nothing. */
  method ExportJson(data: Option<Snapshot>, buf: array?<char>, bufSize: int) returns (ret: int)
    requires data.Some? ==> data.value.Valid()
    requires buf != null ==> bufSize <= buf.Length
    modifies buf
    ensures data.None? || bufSize < 0 || (bufSize > 0 && buf == null) ==>
              ret == -1 && (buf != null ==> buf[..] == old(buf[..]))
    ensures data.Some? && bufSize >= 0 && (bufSize > 0 ==> buf != null) ==>
              var text := Print(SnapshotTree(data.value));
              && ret == AsInt32(|text|)
              && (buf != null ==> buf[..] == Snprintf(old(buf[..]), bufSize, text))
  {
    if data.None? || bufSize < 0 || (bufSize > 0 && buf == null) {
      return -1;
    }
    var d := data.value;
    var a := new Appender(buf, bufSize);
    hide PrintMembers, Print, CpuTree, GpuTree, MemoryTree, FanTree, DrivesTree, UptimeTree;
    a.Append("{");
    assert a.text == "" + "{";
    ghost var ms := AppendHardware(a, d, "" + "{");
    ms := AppendSystem(a, d, "" + "{", ms);
    a.Append("}");
    ObjectClosed("", ms);
    assert "" + Print(Obj(ms)) == Print(Obj(ms));
    Six(ms, d);
    ret := AsInt32(a.needed);
  }

  lemma {:induction false} Six(ms: seq<Member>, d: Snapshot)
    requires d.Valid()
    requires ms == [Member("cpu", CpuTree(d)), Member("gpu", GpuTree(d)), Member("memory", MemoryTree(d))]
                   + [Member("fans", FanTree(d))] + [Member("drives", DrivesTree(d))]
                   + [Member("uptime", UptimeTree(d))]
    ensures Obj(ms) == SnapshotTree(d)
  {
    hide CpuTree, GpuTree, MemoryTree, FanTree, DrivesTree, UptimeTree;
  }
}
