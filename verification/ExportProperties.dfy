/** What the serialised snapshots promise their readers. */
module ExportProperties {
  import opened Decimals
  import opened JsonText
  import opened Appending
  import opened Export
  import opened ExportCsv
  import Csv

  // ---- JSON ---------------------------------------------------------------------

  /** An RFC 8259 reader accepts the whole output and gets exactly the intended tree. */
  lemma {:induction false} JsonRoundTrip(d: Snapshot)
    requires d.Valid()
    ensures ParseDocument(Print(SnapshotTree(d))) == Ok(SnapshotTree(d), "")
  {
    hide Print, ParseDocument;
    DocumentInverse(SnapshotTree(d));
  }

  /** Two snapshots agree on everything that is serialised: array entries past the count
      (or past 8) and platform data do not matter. */
  ghost predicate SameReadings(d: Snapshot, e: Snapshot)
    requires d.Valid() && e.Valid()
  {
    && d.cpuVendor == e.cpuVendor && d.cpuName == e.cpuName
    && d.cpuCores == e.cpuCores && d.cpuThreads == e.cpuThreads
    && d.cpuTemp == e.cpuTemp && d.cpuTempMin == e.cpuTempMin
    && d.cpuTempMax == e.cpuTempMax && d.cpuTempAvg == e.cpuTempAvg
    && d.cpuClockMhz == e.cpuClockMhz && d.cpuClockMaxMhz == e.cpuClockMaxMhz
    && d.cpuVoltage == e.cpuVoltage && d.socVoltage == e.socVoltage
    && d.cpuPower == e.cpuPower && d.cpuPowerCores == e.cpuPowerCores
    && d.cpuPowerUncore == e.cpuPowerUncore && d.cpuLoad == e.cpuLoad
    && d.gpuTemp == e.gpuTemp
    && d.memoryUsedGb == e.memoryUsedGb && d.memoryTotalGb == e.memoryTotalGb
    && d.memoryPercent == e.memoryPercent && d.dramPower == e.dramPower
    && d.uptimeDays == e.uptimeDays && d.uptimeHours == e.uptimeHours
    && Selected(d.fanCount) == Selected(e.fanCount)
    && (forall k :: 0 <= k < Selected(d.fanCount) ==> d.fanRpms[k] == e.fanRpms[k])
    && Selected(d.driveCount) == Selected(e.driveCount)
    && (forall k :: 0 <= k < Selected(d.driveCount) ==> d.drives[k] == e.drives[k])
  }

  /** The text determines the readings, and nothing but the readings determines the text. */
  lemma {:induction false} JsonDetermines(d: Snapshot, e: Snapshot)
    requires d.Valid() && e.Valid()
    ensures Print(SnapshotTree(d)) == Print(SnapshotTree(e)) <==> SameReadings(d, e)
  {
    TreeDetermines(d, e);
    hide Print, ParseDocument, SnapshotTree, SameReadings;
    JsonRoundTrip(d);
    JsonRoundTrip(e);
  }

  lemma {:induction false} TreeDetermines(d: Snapshot, e: Snapshot)
    requires d.Valid() && e.Valid()
    ensures SnapshotTree(d) == SnapshotTree(e) <==> SameReadings(d, e)
  {
    TreeParts(d, e);
    CpuDetermines(d, e);
    RestDetermines(d, e);
    FansDetermine(d, e);
    DrivesDetermine(d, e);
    hide SnapshotTree, CpuTree, GpuTree, MemoryTree, FanTree, DrivesTree, UptimeTree;
  }

  lemma {:induction false} TreeParts(d: Snapshot, e: Snapshot)
    requires d.Valid() && e.Valid()
    ensures SnapshotTree(d) == SnapshotTree(e) <==>
            CpuTree(d) == CpuTree(e) && GpuTree(d) == GpuTree(e) && MemoryTree(d) == MemoryTree(e)
            && FanTree(d) == FanTree(e) && DrivesTree(d) == DrivesTree(e) && UptimeTree(d) == UptimeTree(e)
  {
    hide CpuTree, GpuTree, MemoryTree, FanTree, DrivesTree, UptimeTree;
    var a, b := SnapshotTree(d).members, SnapshotTree(e).members;
    if a == b {
      assert a[0] == b[0] && a[1] == b[1] && a[2] == b[2];
      assert a[3] == b[3] && a[4] == b[4] && a[5] == b[5];
    }
  }

  lemma FourEqual(a: seq<Member>, b: seq<Member>)
    requires |a| == |b| == 4
    ensures a == b <==> a[0] == b[0] && a[1] == b[1] && a[2] == b[2] && a[3] == b[3]
  {
  }

  lemma ConcatEqual(a: seq<Member>, b: seq<Member>, c: seq<Member>, d: seq<Member>)
    requires |a| == |b|
    ensures a + c == b + d <==> a == b && c == d
  {
    if a + c == b + d {
      assert a == (a + c)[..|a|] && b == (b + d)[..|b|];
      assert c == (a + c)[|a|..] && d == (b + d)[|b|..];
    }
  }

  lemma {:induction false} CpuDetermines(d: Snapshot, e: Snapshot)
    ensures CpuTree(d) == CpuTree(e) <==>
            d.cpuVendor == e.cpuVendor && d.cpuName == e.cpuName
            && d.cpuCores == e.cpuCores && d.cpuThreads == e.cpuThreads
            && d.cpuTemp == e.cpuTemp && d.cpuTempMin == e.cpuTempMin
            && d.cpuTempMax == e.cpuTempMax && d.cpuTempAvg == e.cpuTempAvg
            && d.cpuClockMhz == e.cpuClockMhz && d.cpuClockMaxMhz == e.cpuClockMaxMhz
            && d.cpuVoltage == e.cpuVoltage && d.socVoltage == e.socVoltage
            && d.cpuPower == e.cpuPower && d.cpuPowerCores == e.cpuPowerCores
            && d.cpuPowerUncore == e.cpuPowerUncore && d.cpuLoad == e.cpuLoad
  {
    FourEqual(CpuIdentity(d), CpuIdentity(e));
    FourEqual(CpuTemps(d), CpuTemps(e));
    FourEqual(CpuClocks(d), CpuClocks(e));
    FourEqual(CpuPowers(d), CpuPowers(e));
    ConcatEqual(CpuIdentity(d), CpuIdentity(e), CpuTemps(d), CpuTemps(e));
    ConcatEqual(CpuIdentity(d) + CpuTemps(d), CpuIdentity(e) + CpuTemps(e), CpuClocks(d), CpuClocks(e));
    ConcatEqual(CpuIdentity(d) + CpuTemps(d) + CpuClocks(d), CpuIdentity(e) + CpuTemps(e) + CpuClocks(e),
                CpuPowers(d), CpuPowers(e));
  }

  lemma {:induction false} RestDetermines(d: Snapshot, e: Snapshot)
    ensures GpuTree(d) == GpuTree(e) <==> d.gpuTemp == e.gpuTemp
    ensures MemoryTree(d) == MemoryTree(e) <==>
            d.memoryUsedGb == e.memoryUsedGb && d.memoryTotalGb == e.memoryTotalGb
            && d.memoryPercent == e.memoryPercent && d.dramPower == e.dramPower
    ensures UptimeTree(d) == UptimeTree(e) <==>
            d.uptimeDays == e.uptimeDays && d.uptimeHours == e.uptimeHours
  {
    FourEqual(MemoryMembers(d), MemoryMembers(e));
    assert GpuTree(d).members[0] == Member("temp_c", Number(d.gpuTemp, 2));
    assert GpuTree(e).members[0] == Member("temp_c", Number(e.gpuTemp, 2));
    assert UptimeTree(d).members[0] == Member("days", Int(d.uptimeDays));
    assert UptimeTree(e).members[0] == Member("days", Int(e.uptimeDays));
    assert UptimeTree(d).members[1] == Member("hours", Int(d.uptimeHours));
    assert UptimeTree(e).members[1] == Member("hours", Int(e.uptimeHours));
  }

  lemma {:induction false} FanItemsLength(d: Snapshot, n: nat)
    requires n <= |d.fanRpms|
    ensures |FanItems(d, n)| == n
  {
    if n > 0 {
      FanItemAt(d, n, 0);
    }
  }

  lemma {:induction false} FansDetermine(d: Snapshot, e: Snapshot)
    requires d.Valid() && e.Valid()
    ensures FanTree(d) == FanTree(e) <==>
            Selected(d.fanCount) == Selected(e.fanCount)
            && forall k :: 0 <= k < Selected(d.fanCount) ==> d.fanRpms[k] == e.fanRpms[k]
  {
    hide FanItems;
    var m, n := Selected(d.fanCount), Selected(e.fanCount);
    var a, b := FanItems(d, m), FanItems(e, n);
    FanItemsLength(d, m);
    FanItemsLength(e, n);
    if m == n {
      forall k | 0 <= k < m ensures a[k] == Int(d.fanRpms[k]) && b[k] == Int(e.fanRpms[k]) {
        FanItemAt(d, m, k);
        FanItemAt(e, n, k);
      }
      assert a == b <==> forall k :: 0 <= k < m ==> a[k] == b[k];
      assert forall k :: 0 <= k < m ==> (a[k] == b[k] <==> d.fanRpms[k] == e.fanRpms[k]);
    }
  }

  lemma {:induction false} DriveItemsLength(d: Snapshot, n: nat)
    requires n <= |d.drives|
    ensures |DriveItems(d, n)| == n
  {
    if n > 0 {
      DriveItemAt(d, n, 0);
    }
  }

  lemma {:induction false} DriveDetermines(v: Drive, w: Drive)
    ensures DriveTree(v) == DriveTree(w) <==> v == w
  {
    FourEqual(DriveMembers(v), DriveMembers(w));
  }

  lemma {:induction false} DrivesDetermine(d: Snapshot, e: Snapshot)
    requires d.Valid() && e.Valid()
    ensures DrivesTree(d) == DrivesTree(e) <==>
            Selected(d.driveCount) == Selected(e.driveCount)
            && forall k :: 0 <= k < Selected(d.driveCount) ==> d.drives[k] == e.drives[k]
  {
    hide DriveItems, DriveTree;
    var m, n := Selected(d.driveCount), Selected(e.driveCount);
    var a, b := DriveItems(d, m), DriveItems(e, n);
    DriveItemsLength(d, m);
    DriveItemsLength(e, n);
    if m == n {
      forall k | 0 <= k < m
        ensures a[k] == DriveTree(d.drives[k]) && b[k] == DriveTree(e.drives[k])
        ensures a[k] == b[k] <==> d.drives[k] == e.drives[k]
      {
        DriveItemAt(d, m, k);
        DriveItemAt(e, n, k);
        DriveDetermines(d.drives[k], e.drives[k]);
      }
      assert a == b <==> forall k :: 0 <= k < m ==> a[k] == b[k];
    }
  }

  // ---- CSV ----------------------------------------------------------------------

  lemma {:induction false} ColumnCount(d: Snapshot)
    ensures |NumberColumns(d)| == 21
  {
  }

  /** An RFC 4180 reader gets one record of 23 fields, vendor and name byte for byte first. */
  lemma {:induction false} CsvRoundTrip(d: Snapshot)
    ensures Csv.ReadRecord(Csv.Record(RowFields(d))) == Csv.Ok(RowFields(d), "")
    ensures |RowFields(d)| == |HEADER| == 23
    ensures RowFields(d)[0] == d.cpuVendor && RowFields(d)[1] == d.cpuName
    ensures Csv.ReadRecord(Csv.Record(HEADER)) == Csv.Ok(HEADER, "")
  {
    HeaderIsWords();
    ColumnCount(d);
    hide Csv.ReadRecord, Csv.Record, NumberColumns, AllWords;
    Csv.RecordInverse(RowFields(d));
    Csv.RecordInverse(HEADER);
  }

  /** Every other field is a number that reads back exactly as the column's value. */
  lemma {:induction false} CsvNumber(d: Snapshot, k: nat)
    requires k < |NumberColumns(d)|
    ensures k + 2 < |RowFields(d)|
    ensures ParseNumber(RowFields(d)[k + 2]) == Ok(Num(NumberColumns(d)[k].value, 0), "")
  {
    hide NumberColumns, Format, ParseNumber;
    var v := NumberColumns(d)[k].value;
    NumberInverse(v, 0, "");
    assert Print(Num(v, 0)) + "" == Format(v);
  }

  function Titles(cs: seq<Column>): (t: seq<string>)
    ensures |t| == |cs| && forall k :: 0 <= k < |cs| ==> t[k] == cs[k].name
  {
    if cs == [] then [] else [cs[0].name] + Titles(cs[1..])
  }

  lemma {:induction false} TitlesConcat(a: seq<Column>, b: seq<Column>)
    ensures Titles(a + b) == Titles(a) + Titles(b)
  {
  }

  lemma {:induction false} GroupTitles(d: Snapshot)
    ensures Titles(CoreColumns(d)) == HEADER_1[2..]
    ensures Titles(TempColumns(d)) == HEADER_2
    ensures Titles(ClockColumns(d) + VoltageColumns(d)) == HEADER_3
  {
  }

  lemma {:induction false} MoreGroupTitles(d: Snapshot)
    ensures Titles(PowerColumns(d) + LoadColumns(d)) == HEADER_4
    ensures Titles(GpuColumns(d) + MemoryColumns(d)) == HEADER_5
    ensures Titles(DramColumns(d) + UptimeColumns(d)) == HEADER_6
  {
  }

  lemma {:induction false} GroupsAligned(
    g1: seq<Column>, g2: seq<Column>, g3: seq<Column>, g4: seq<Column>, g5: seq<Column>, g6: seq<Column>,
    h1: seq<string>, h2: seq<string>, h3: seq<string>, h4: seq<string>, h5: seq<string>, h6: seq<string>)
    requires |h1| >= 2 && Titles(g1) == h1[2..]
    requires Titles(g2) == h2 && Titles(g3) == h3 && Titles(g4) == h4 && Titles(g5) == h5 && Titles(g6) == h6
    ensures Titles(g1 + g2 + g3 + g4 + g5 + g6) == (h1 + h2 + h3 + h4 + h5 + h6)[2..]
  {
    hide Titles;
    TitlesConcat(g1, g2);
    TitlesConcat(g1 + g2, g3);
    TitlesConcat(g1 + g2 + g3, g4);
    TitlesConcat(g1 + g2 + g3 + g4, g5);
    TitlesConcat(g1 + g2 + g3 + g4 + g5, g6);
    assert (h1 + h2 + h3 + h4 + h5 + h6)[2..] == h1[2..] + h2 + h3 + h4 + h5 + h6;
  }

  lemma {:induction false} ColumnGroups(d: Snapshot)
    ensures NumberColumns(d) ==
            CoreColumns(d) + TempColumns(d) + (ClockColumns(d) + VoltageColumns(d))
            + (PowerColumns(d) + LoadColumns(d)) + (GpuColumns(d) + MemoryColumns(d))
            + (DramColumns(d) + UptimeColumns(d))
  {
    hide CoreColumns, TempColumns, ClockColumns, VoltageColumns, PowerColumns,
         LoadColumns, GpuColumns, MemoryColumns, DramColumns, UptimeColumns;
  }

  lemma {:induction false} TitlesAreHeader(d: Snapshot)
    ensures Titles(NumberColumns(d)) == HEADER[2..]
  {
    GroupTitles(d);
    MoreGroupTitles(d);
    ColumnGroups(d);
    hide Titles, CoreColumns, TempColumns, ClockColumns, VoltageColumns, PowerColumns,
         LoadColumns, GpuColumns, MemoryColumns, DramColumns, UptimeColumns;
    GroupsAligned(CoreColumns(d), TempColumns(d), ClockColumns(d) + VoltageColumns(d),
                  PowerColumns(d) + LoadColumns(d), GpuColumns(d) + MemoryColumns(d),
                  DramColumns(d) + UptimeColumns(d),
                  HEADER_1, HEADER_2, HEADER_3, HEADER_4, HEADER_5, HEADER_6);
  }

  /** The k-th name of the header is the name of the column whose value the row shows k-th. */
  lemma {:induction false} HeaderAligned(d: Snapshot, k: nat)
    requires k < |NumberColumns(d)|
    ensures k + 2 < |HEADER| && HEADER[k + 2] == NumberColumns(d)[k].name
  {
    TitlesAreHeader(d);
    ColumnCount(d);
    HeaderIsWords();
    hide NumberColumns, Titles, AllWords;
    assert HEADER[2..][k] == HEADER[k + 2];
  }

  // ---- Truncation -----------------------------------------------------------------

  /** What a C caller reads from a buffer: the characters before the first NUL. */
  function CText(buf: string): (t: string)
    ensures |t| <= |buf| && t == buf[..|t|] && '\0' !in t
    ensures |t| < |buf| ==> buf[|t|] == '\0'
  {
    if buf == "" || buf[0] == '\0' then "" else [buf[0]] + CText(buf[1..])
  }

  lemma {:induction false} CTextAt(buf: string, t: string)
    requires |t| < |buf| && buf[..|t|] == t && buf[|t|] == '\0' && '\0' !in t
    ensures CText(buf) == t
  {
    if t != "" {
      assert buf[0] == t[0] && t[0] in t;
      CTextAt(buf[1..], t[1..]);
      assert [t[0]] + t[1..] == t;
    }
  }

  lemma SnprintfParts(before: string, size: nat, text: string)
    requires 0 < size <= |before|
    ensures var after, n := Snprintf(before, size, text), Min(|text|, size - 1);
            && after[..n] == text[..n] && after[n] == '\0'
            && forall k :: n < k < |before| ==> after[k] == before[k]
  {
  }

  /** A caller reads a prefix of the whole text; it is the whole text exactly when the
      whole text and its NUL fit. */
  lemma {:induction false} TruncationIsPrefix(before: string, size: nat, text: string)
    requires 0 < size <= |before| && '\0' !in text
    ensures CText(Snprintf(before, size, text)) == text[..Min(|text|, size - 1)]
    ensures CText(Snprintf(before, size, text)) == text <==> |text| < size
    ensures forall k :: size <= k < |before| ==> Snprintf(before, size, text)[k] == before[k]
  {
    var n := Min(|text|, size - 1);
    SnprintfParts(before, size, text);
    assert '\0' !in text[..n];
    hide Snprintf, CText;
    CTextAt(Snprintf(before, size, text), text[..n]);
  }

  /** The int result is the length exactly when the length fits an int; then a second call
      with one byte more than the result gives the reader the whole text. */
  lemma {:induction false} RetryReadsAll(text: string, before: string)
    requires '\0' !in text
    ensures AsInt32(|text|) == |text| <==> |text| < 0x8000_0000
    ensures 0 <= AsInt32(|text|) == |text| < |before| ==>
              CText(Snprintf(before, AsInt32(|text|) + 1, text)) == text
  {
    hide CText, Snprintf;
    if 0 <= AsInt32(|text|) == |text| < |before| {
      TruncationIsPrefix(before, |text| + 1, text);
    }
  }

  /** Emitted JSON has no NUL inside, so the buffer is a C string holding all of it. */
  lemma {:induction false} PrintHasNoNul(j: Json)
    ensures '\0' !in Print(j)
    decreases j
  {
    match j
    case Null =>
    case Bool(_) =>
    case Num(m, e) =>
      FormatHasNoNul(m);
      FormatHasNoNul(OfInt(e));
    case Str(s) => EscapeHasNoNul(s);
    case Arr(items) => ItemsHaveNoNul(items);
    case Obj(members) => MembersHaveNoNul(members);
  }

  lemma {:induction false} FormatHasNoNul(d: Decimal)
    ensures '\0' !in Format(d)
  {
    hide Format;
    FormatIsNumberText(d);
  }

  lemma {:induction false} EscapeHasNoNul(s: string)
    ensures '\0' !in EscapeAll(s)
  {
    if s != "" {
      EscapeHasNoNul(s[1..]);
    }
  }

  lemma {:induction false} ItemsHaveNoNul(items: seq<Json>)
    ensures '\0' !in PrintItems(items)
    decreases items
  {
    if items != [] {
      PrintHasNoNul(items[0]);
      ItemsHaveNoNul(items[1..]);
    }
  }

  lemma {:induction false} MembersHaveNoNul(members: seq<Member>)
    ensures '\0' !in PrintMembers(members)
    decreases members
  {
    if members != [] {
      EscapeHasNoNul(members[0].key);
      PrintHasNoNul(members[0].value);
      MembersHaveNoNul(members[1..]);
    }
  }

  lemma {:induction false} FieldHasNoNul(s: string)
    requires '\0' !in s
    ensures '\0' !in Csv.Field(s)
  {
    DoubledHasNoNul(s);
  }

  lemma {:induction false} DoubledHasNoNul(s: string)
    requires '\0' !in s
    ensures '\0' !in Csv.DoubleQuotes(s)
  {
    if s != "" {
      DoubledHasNoNul(s[1..]);
    }
  }

  lemma {:induction false} TailHasNoNul(fields: seq<string>)
    requires forall k :: 0 <= k < |fields| ==> '\0' !in fields[k]
    ensures '\0' !in Csv.Tail(fields)
  {
    hide Csv.Field;
    if fields != [] {
      FieldHasNoNul(fields[0]);
      TailHasNoNul(fields[1..]);
    }
  }

  /** From the first, measuring call to the parsed tree: whatever the retry buffer held
      before, a reader of it recovers exactly the snapshot's tree. */
  lemma {:induction false} JsonRetryRoundTrip(d: Snapshot, before: string)
    requires d.Valid()
    requires |Print(SnapshotTree(d))| < 0x8000_0000 && |Print(SnapshotTree(d))| < |before|
    ensures
      var size := AsInt32(|Print(SnapshotTree(d))|) + 1;
      && 0 < size <= |before|
      && ParseDocument(CText(Snprintf(before, size, Print(SnapshotTree(d))))) == Ok(SnapshotTree(d), "")
  {
    hide Print, ParseDocument, SnapshotTree, CText, Snprintf;
    PrintHasNoNul(SnapshotTree(d));
    RetryReadsAll(Print(SnapshotTree(d)), before);
    JsonRoundTrip(d);
  }

  lemma {:induction false} CsvRetryRoundTrip(d: Snapshot, before: string)
    requires |Csv.Record(RowFields(d))| < 0x8000_0000 && |Csv.Record(RowFields(d))| < |before|
    ensures
      var size := AsInt32(|Csv.Record(RowFields(d))|) + 1;
      && 0 < size <= |before|
      && Csv.ReadRecord(CText(Snprintf(before, size, Csv.Record(RowFields(d))))) == Csv.Ok(RowFields(d), "")
  {
    CsvRoundTrip(d);
    var fields := RowFields(d);
    forall k | 0 <= k < |fields| ensures '\0' !in fields[k] {
      if k >= 2 {
        FormatHasNoNul(NumberColumns(d)[k - 2].value);
      }
    }
    hide CText, Snprintf, NumberColumns, Csv.Field, Csv.ReadRecord;
    FieldHasNoNul(fields[0]);
    TailHasNoNul(fields[1..]);
    RetryReadsAll(Csv.Record(fields), before);
  }
}
