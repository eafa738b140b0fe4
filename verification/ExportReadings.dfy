/** Which reading a reader of the serialised text finds under which name. */
module ExportReadings {
  import opened Decimals
  import opened JsonText
  import opened Export
  import opened ExportCsv
  import opened ExportProperties
  import Csv

  // ---- JSON -------------------------------------------------------------------------------

  /** The object has this member. */
  predicate Has(j: Json, key: string, v: Json) {
    j.Obj? && Member(key, v) in j.members
  }

  /** The object has exactly n members. */
  predicate Size(j: Json, n: nat) {
    j.Obj? && |j.members| == n
  }

  function Integer(n: int): Decimal {
    Decimal(n < 0, if n < 0 then -n else n, 0)
  }

  predicate HasInt(j: Json, key: string, n: int) {
    Has(j, key, Num(Integer(n), 0))
  }

  predicate HasFixed(j: Json, key: string, x: Fixed, places: nat) {
    Has(j, key, Num(Decimal(x.neg, x.digits, places), 0))
  }

  predicate CpuShown(d: Snapshot, j: Json) {
    Size(j, 16) && IdentityShown(d, j) && TempsShown(d, j) && ClocksShown(d, j) && PowersShown(d, j)
  }

  predicate IdentityShown(d: Snapshot, j: Json) {
    && Has(j, "vendor", Str(d.cpuVendor)) && Has(j, "name", Str(d.cpuName))
    && HasInt(j, "cores", d.cpuCores) && HasInt(j, "threads", d.cpuThreads)
  }

  predicate TempsShown(d: Snapshot, j: Json) {
    && HasFixed(j, "temp_c", d.cpuTemp, 2) && HasFixed(j, "temp_min_c", d.cpuTempMin, 2)
    && HasFixed(j, "temp_max_c", d.cpuTempMax, 2) && HasFixed(j, "temp_avg_c", d.cpuTempAvg, 2)
  }

  predicate ClocksShown(d: Snapshot, j: Json) {
    && HasInt(j, "clock_mhz", d.cpuClockMhz) && HasInt(j, "clock_max_mhz", d.cpuClockMaxMhz)
    && HasFixed(j, "voltage_v", d.cpuVoltage, 4) && HasFixed(j, "soc_voltage_v", d.socVoltage, 4)
  }

  predicate PowersShown(d: Snapshot, j: Json) {
    && HasFixed(j, "power_w", d.cpuPower, 2) && HasFixed(j, "power_cores_w", d.cpuPowerCores, 2)
    && HasFixed(j, "power_uncore_w", d.cpuPowerUncore, 2) && HasFixed(j, "load_percent", d.cpuLoad, 1)
  }

  predicate GpuShown(d: Snapshot, j: Json) {
    Size(j, 1) && HasFixed(j, "temp_c", d.gpuTemp, 2)
  }

  predicate MemoryShown(d: Snapshot, j: Json) {
    && Size(j, 4)
    && HasFixed(j, "used_gb", d.memoryUsedGb, 2) && HasFixed(j, "total_gb", d.memoryTotalGb, 2)
    && HasInt(j, "percent", d.memoryPercent) && HasFixed(j, "dram_power_w", d.dramPower, 2)
  }

  /** min(max(count, 0), 8) */
  function Shown(count: int): nat {
    if count <= 0 then 0 else if count >= 8 then 8 else count
  }

  predicate FansShown(d: Snapshot, j: Json)
    requires d.Valid()
  {
    && j.Arr? && |j.items| == Shown(d.fanCount)
    && forall k :: 0 <= k < |j.items| ==> j.items[k] == Num(Integer(d.fanRpms[k]), 0)
  }

  predicate DriveShown(v: Drive, j: Json) {
    && Size(j, 4)
    && Has(j, "name", Str(v.name)) && HasInt(j, "temp_c", v.temperature)
    && HasInt(j, "size_gb", v.sizeGb) && HasInt(j, "used_gb", v.usedGb)
  }

  predicate DrivesShown(d: Snapshot, j: Json)
    requires d.Valid()
  {
    && j.Arr? && |j.items| == Shown(d.driveCount)
    && forall k :: 0 <= k < |j.items| ==> DriveShown(d.drives[k], j.items[k])
  }

  predicate UptimeShown(d: Snapshot, j: Json) {
    Size(j, 2) && HasInt(j, "days", d.uptimeDays) && HasInt(j, "hours", d.uptimeHours)
  }

  predicate PartsShown(d: Snapshot, j: Json, cpu: Json, gpu: Json, memory: Json, fans: Json, drives: Json, uptime: Json)
    requires d.Valid()
  {
    && Size(j, 6)
    && Has(j, "cpu", cpu) && CpuShown(d, cpu)
    && Has(j, "gpu", gpu) && GpuShown(d, gpu)
    && Has(j, "memory", memory) && MemoryShown(d, memory)
    && Has(j, "fans", fans) && FansShown(d, fans)
    && Has(j, "drives", drives) && DrivesShown(d, drives)
    && Has(j, "uptime", uptime) && UptimeShown(d, uptime)
  }

  /** The document shows every reading under its name, and nothing else: the objects have as many
      members as there are names here and above. */
  ghost predicate SnapshotShown(d: Snapshot, j: Json)
    requires d.Valid()
  {
    exists cpu, gpu, memory, fans, drives, uptime :: PartsShown(d, j, cpu, gpu, memory, fans, drives, uptime)
  }

  lemma FourParts(a: seq<Member>, b: seq<Member>, c: seq<Member>, d: seq<Member>, j: Json)
    requires j == Obj(a + b + c + d)
    ensures Size(j, |a| + |b| + |c| + |d|)
    ensures forall m :: m in a || m in b || m in c || m in d ==> m in j.members
  {
  }

  lemma CpuIsShown(d: Snapshot)
    ensures CpuShown(d, CpuTree(d))
  {
    FourParts(CpuIdentity(d), CpuTemps(d), CpuClocks(d), CpuPowers(d), CpuTree(d));
    assert |CpuIdentity(d)| == |CpuTemps(d)| == |CpuClocks(d)| == |CpuPowers(d)| == 4;
    hide CpuIdentity, CpuTemps, CpuClocks, CpuPowers, IdentityShown, TempsShown, ClocksShown, PowersShown;
    IdentityIsShown(d, CpuTree(d));
    TempsAreShown(d, CpuTree(d));
    ClocksAreShown(d, CpuTree(d));
    PowersAreShown(d, CpuTree(d));
  }

  lemma IdentityIsShown(d: Snapshot, j: Json)
    requires j.Obj? && forall m :: m in CpuIdentity(d) ==> m in j.members
    ensures IdentityShown(d, j)
  {
    var a := CpuIdentity(d);
    assert a[0] in a && a[1] in a && a[2] in a && a[3] in a;
  }

  lemma TempsAreShown(d: Snapshot, j: Json)
    requires j.Obj? && forall m :: m in CpuTemps(d) ==> m in j.members
    ensures TempsShown(d, j)
  {
    var a := CpuTemps(d);
    assert a[0] in a && a[1] in a && a[2] in a && a[3] in a;
  }

  lemma ClocksAreShown(d: Snapshot, j: Json)
    requires j.Obj? && forall m :: m in CpuClocks(d) ==> m in j.members
    ensures ClocksShown(d, j)
  {
    var a := CpuClocks(d);
    assert a[0] in a && a[1] in a && a[2] in a && a[3] in a;
  }

  lemma PowersAreShown(d: Snapshot, j: Json)
    requires j.Obj? && forall m :: m in CpuPowers(d) ==> m in j.members
    ensures PowersShown(d, j)
  {
    var a := CpuPowers(d);
    assert a[0] in a && a[1] in a && a[2] in a && a[3] in a;
  }

  lemma MemoryIsShown(d: Snapshot)
    ensures MemoryShown(d, MemoryTree(d))
  {
    var a := MemoryMembers(d);
    assert a[0] in a && a[1] in a && a[2] in a && a[3] in a;
  }

  lemma DriveIsShown(v: Drive)
    ensures DriveShown(v, DriveTree(v))
  {
    var a := DriveMembers(v);
    assert a[0] in a && a[1] in a && a[2] in a && a[3] in a;
  }

  lemma SmallOnesAreShown(d: Snapshot)
    ensures GpuShown(d, GpuTree(d)) && UptimeShown(d, UptimeTree(d))
  {
    var a, b := GpuTree(d).members, UptimeTree(d).members;
    assert a[0] in a && b[0] in b && b[1] in b;
  }

  lemma ArraysAreShown(d: Snapshot)
    requires d.Valid()
    ensures FansShown(d, FanTree(d)) && DrivesShown(d, DrivesTree(d))
  {
    hide FanItems, DriveItems, DriveTree, DriveShown;
    var m, n := Selected(d.fanCount), Selected(d.driveCount);
    FanItemsLength(d, m);
    DriveItemsLength(d, n);
    forall k | 0 <= k < m ensures FanTree(d).items[k] == Num(Integer(d.fanRpms[k]), 0) {
      FanItemAt(d, m, k);
    }
    forall k | 0 <= k < n ensures DriveShown(d.drives[k], DrivesTree(d).items[k]) {
      DriveItemAt(d, n, k);
      DriveIsShown(d.drives[k]);
    }
  }

  lemma TreeIsShown(d: Snapshot)
    requires d.Valid()
    ensures SnapshotShown(d, SnapshotTree(d))
  {
    CpuIsShown(d);
    MemoryIsShown(d);
    SmallOnesAreShown(d);
    ArraysAreShown(d);
    SixMembers(d);
    hide SnapshotTree, CpuTree, GpuTree, MemoryTree, FanTree, DrivesTree, UptimeTree, Has;
    hide CpuShown, GpuShown, MemoryShown, FansShown, DrivesShown, UptimeShown;
    assert PartsShown(d, SnapshotTree(d), CpuTree(d), GpuTree(d), MemoryTree(d), FanTree(d), DrivesTree(d),
      UptimeTree(d));
  }

  lemma SixMembers(d: Snapshot)
    requires d.Valid()
    ensures var j := SnapshotTree(d);
            && Size(j, 6) && Has(j, "cpu", CpuTree(d)) && Has(j, "gpu", GpuTree(d)) && Has(j, "memory", MemoryTree(d))
            && Has(j, "fans", FanTree(d)) && Has(j, "drives", DrivesTree(d)) && Has(j, "uptime", UptimeTree(d))
  {
    hide CpuTree, GpuTree, MemoryTree, FanTree, DrivesTree, UptimeTree;
    var a := SnapshotTree(d).members;
    assert a[0] in a && a[1] in a && a[2] in a && a[3] in a && a[4] in a && a[5] in a;
  }

  /** A reader of the JSON text finds every reading of the snapshot under its own name. */
  lemma JsonShowsReadings(d: Snapshot)
    requires d.Valid()
    ensures ParseDocument(Print(SnapshotTree(d))).Ok?
    ensures SnapshotShown(d, ParseDocument(Print(SnapshotTree(d))).value)
  {
    hide Print, ParseDocument, SnapshotTree, SnapshotShown;
    JsonRoundTrip(d);
    TreeIsShown(d);
  }

  // ---- CSV --------------------------------------------------------------------------------

  /** A field of the row that stands under this name in the header. */
  ghost predicate Under(header: seq<string>, row: seq<string>, name: string, field: string) {
    exists k :: 0 <= k < |header| && k < |row| && header[k] == name && row[k] == field
  }

  ghost predicate NumberUnder(header: seq<string>, row: seq<string>, name: string, v: Decimal) {
    exists field :: Under(header, row, name, field) && ParseNumber(field) == Ok(Num(v, 0), "")
  }

  ghost predicate IntUnder(header: seq<string>, row: seq<string>, name: string, n: int) {
    NumberUnder(header, row, name, Integer(n))
  }

  ghost predicate FixedUnder(header: seq<string>, row: seq<string>, name: string, x: Fixed, places: nat) {
    NumberUnder(header, row, name, Decimal(x.neg, x.digits, places))
  }

  /** Every reading stands under its own name, and there are no other columns. */
  ghost predicate RowShown(d: Snapshot, h: seq<string>, r: seq<string>) {
    && |h| == |r| == 23
    && Under(h, r, "cpu_vendor", d.cpuVendor) && Under(h, r, "cpu_name", d.cpuName)
    && CpuColumnsShown(d, h, r) && PowerColumnsShown(d, h, r) && OtherColumnsShown(d, h, r)
  }

  ghost predicate CpuColumnsShown(d: Snapshot, h: seq<string>, r: seq<string>) {
    && IntUnder(h, r, "cpu_cores", d.cpuCores) && IntUnder(h, r, "cpu_threads", d.cpuThreads)
    && FixedUnder(h, r, "cpu_temp_c", d.cpuTemp, 2) && FixedUnder(h, r, "cpu_temp_min_c", d.cpuTempMin, 2)
    && FixedUnder(h, r, "cpu_temp_max_c", d.cpuTempMax, 2) && FixedUnder(h, r, "cpu_temp_avg_c", d.cpuTempAvg, 2)
    && IntUnder(h, r, "cpu_clock_mhz", d.cpuClockMhz) && IntUnder(h, r, "cpu_clock_max_mhz", d.cpuClockMaxMhz)
  }

  ghost predicate PowerColumnsShown(d: Snapshot, h: seq<string>, r: seq<string>) {
    && FixedUnder(h, r, "cpu_voltage_v", d.cpuVoltage, 4) && FixedUnder(h, r, "soc_voltage_v", d.socVoltage, 4)
    && FixedUnder(h, r, "cpu_power_w", d.cpuPower, 2) && FixedUnder(h, r, "cpu_power_cores_w", d.cpuPowerCores, 2)
    && FixedUnder(h, r, "cpu_power_uncore_w", d.cpuPowerUncore, 2)
    && FixedUnder(h, r, "cpu_load_percent", d.cpuLoad, 1)
  }

  ghost predicate OtherColumnsShown(d: Snapshot, h: seq<string>, r: seq<string>) {
    && FixedUnder(h, r, "gpu_temp_c", d.gpuTemp, 2)
    && FixedUnder(h, r, "memory_used_gb", d.memoryUsedGb, 2) && FixedUnder(h, r, "memory_total_gb", d.memoryTotalGb, 2)
    && IntUnder(h, r, "memory_percent", d.memoryPercent) && FixedUnder(h, r, "dram_power_w", d.dramPower, 2)
    && IntUnder(h, r, "uptime_days", d.uptimeDays) && IntUnder(h, r, "uptime_hours", d.uptimeHours)
  }

  lemma ColumnShown(d: Snapshot, c: Column)
    requires c in NumberColumns(d)
    ensures NumberUnder(HEADER, RowFields(d), c.name, c.value)
  {
    hide NumberColumns, ParseNumber, RowFields;
    var k :| 0 <= k < |NumberColumns(d)| && NumberColumns(d)[k] == c;
    HeaderAligned(d, k);
    CsvNumber(d, k);
    assert Under(HEADER, RowFields(d), c.name, RowFields(d)[k + 2]);
  }

  lemma GroupShown(d: Snapshot, group: seq<Column>)
    requires forall c :: c in group ==> c in NumberColumns(d)
    ensures forall k :: 0 <= k < |group| ==> NumberUnder(HEADER, RowFields(d), group[k].name, group[k].value)
  {
    hide NumberColumns, NumberUnder, RowFields;
    forall k | 0 <= k < |group| ensures NumberUnder(HEADER, RowFields(d), group[k].name, group[k].value) {
      ColumnShown(d, group[k]);
    }
  }

  lemma GroupsAreColumns(d: Snapshot)
    ensures forall c :: c in CoreColumns(d) || c in TempColumns(d) || c in ClockColumns(d) ==> c in NumberColumns(d)
    ensures forall c :: c in VoltageColumns(d) || c in PowerColumns(d) || c in LoadColumns(d) ==> c in NumberColumns(d)
    ensures forall c :: c in GpuColumns(d) || c in MemoryColumns(d) || c in DramColumns(d) || c in UptimeColumns(d)
              ==> c in NumberColumns(d)
  {
    hide CoreColumns, TempColumns, ClockColumns, VoltageColumns, PowerColumns, LoadColumns;
    hide GpuColumns, MemoryColumns, DramColumns, UptimeColumns;
  }

  lemma CpuColumnsAreShown(d: Snapshot)
    ensures CpuColumnsShown(d, HEADER, RowFields(d))
  {
    GroupsAreColumns(d);
    hide NumberColumns, NumberUnder, RowFields;
    GroupShown(d, CoreColumns(d));
    GroupShown(d, TempColumns(d));
    GroupShown(d, ClockColumns(d));
    var a, b, c := CoreColumns(d), TempColumns(d), ClockColumns(d);
    assert a[0].name == "cpu_cores" && a[1].name == "cpu_threads";
    assert b[0].name == "cpu_temp_c" && b[1].name == "cpu_temp_min_c";
    assert b[2].name == "cpu_temp_max_c" && b[3].name == "cpu_temp_avg_c";
    assert c[0].name == "cpu_clock_mhz" && c[1].name == "cpu_clock_max_mhz";
  }

  lemma PowerColumnsAreShown(d: Snapshot)
    ensures PowerColumnsShown(d, HEADER, RowFields(d))
  {
    GroupsAreColumns(d);
    hide NumberColumns, NumberUnder, RowFields;
    GroupShown(d, VoltageColumns(d));
    GroupShown(d, PowerColumns(d));
    GroupShown(d, LoadColumns(d));
    var a, b, c := VoltageColumns(d), PowerColumns(d), LoadColumns(d);
    assert a[0].name == "cpu_voltage_v" && a[1].name == "soc_voltage_v";
    assert b[0].name == "cpu_power_w" && b[1].name == "cpu_power_cores_w" && b[2].name == "cpu_power_uncore_w";
    assert c[0].name == "cpu_load_percent";
  }

  lemma OtherColumnsAreShown(d: Snapshot)
    ensures OtherColumnsShown(d, HEADER, RowFields(d))
  {
    GroupsAreColumns(d);
    hide NumberColumns, NumberUnder, RowFields;
    GroupShown(d, GpuColumns(d));
    GroupShown(d, MemoryColumns(d));
    GroupShown(d, DramColumns(d));
    GroupShown(d, UptimeColumns(d));
    var a, b, c, e := GpuColumns(d), MemoryColumns(d), DramColumns(d), UptimeColumns(d);
    assert a[0].name == "gpu_temp_c" && c[0].name == "dram_power_w";
    assert b[0].name == "memory_used_gb" && b[1].name == "memory_total_gb" && b[2].name == "memory_percent";
    assert e[0].name == "uptime_days" && e[1].name == "uptime_hours";
  }

  /** A reader of header and row finds every reading of the snapshot under its own column name. */
  lemma CsvShowsReadings(d: Snapshot)
    ensures Csv.ReadRecord(Csv.Record(HEADER)).Ok? && Csv.ReadRecord(Csv.Record(RowFields(d))).Ok?
    ensures RowShown(d, Csv.ReadRecord(Csv.Record(HEADER)).value, Csv.ReadRecord(Csv.Record(RowFields(d))).value)
  {
    CsvRoundTrip(d);
    CpuColumnsAreShown(d);
    PowerColumnsAreShown(d);
    OtherColumnsAreShown(d);
    FirstTwo(d);
    hide Csv.ReadRecord, Csv.Record, CpuColumnsShown, PowerColumnsShown, OtherColumnsShown, Under, RowFields;
  }

  lemma FirstTwo(d: Snapshot)
    ensures Under(HEADER, RowFields(d), "cpu_vendor", d.cpuVendor)
    ensures Under(HEADER, RowFields(d), "cpu_name", d.cpuName)
  {
    hide NumberColumns;
    assert HEADER[0] == "cpu_vendor" && HEADER[1] == "cpu_name";
    assert RowFields(d)[0] == d.cpuVendor && RowFields(d)[1] == d.cpuName;
  }
}
