/** The CSV header and row writers of export.c. */
module ExportCsv {
  import opened Decimals
  import opened Appending
  import opened Export
  import Csv
  import opened Wrappers
  import opened Sequences

  /** A numeric column: its name in the header and its value in a row. */
  datatype Column = Column(name: string, value: Decimal)

  // The columns that one append call writes together.

  function CoreColumns(d: Snapshot): seq<Column> {
    [Column("cpu_cores", OfInt(d.cpuCores)), Column("cpu_threads", OfInt(d.cpuThreads))]
  }

  function TempColumns(d: Snapshot): seq<Column> {
    [Column("cpu_temp_c", Dec(d.cpuTemp, 2)), Column("cpu_temp_min_c", Dec(d.cpuTempMin, 2)),
     Column("cpu_temp_max_c", Dec(d.cpuTempMax, 2)), Column("cpu_temp_avg_c", Dec(d.cpuTempAvg, 2))]
  }

  function ClockColumns(d: Snapshot): seq<Column> {
    [Column("cpu_clock_mhz", OfInt(d.cpuClockMhz)), Column("cpu_clock_max_mhz", OfInt(d.cpuClockMaxMhz))]
  }

  function VoltageColumns(d: Snapshot): seq<Column> {
    [Column("cpu_voltage_v", Dec(d.cpuVoltage, 4)), Column("soc_voltage_v", Dec(d.socVoltage, 4))]
  }

  function PowerColumns(d: Snapshot): seq<Column> {
    [Column("cpu_power_w", Dec(d.cpuPower, 2)), Column("cpu_power_cores_w", Dec(d.cpuPowerCores, 2)),
     Column("cpu_power_uncore_w", Dec(d.cpuPowerUncore, 2))]
  }

  function LoadColumns(d: Snapshot): seq<Column> {
    [Column("cpu_load_percent", Dec(d.cpuLoad, 1))]
  }

  function GpuColumns(d: Snapshot): seq<Column> {
    [Column("gpu_temp_c", Dec(d.gpuTemp, 2))]
  }

  function MemoryColumns(d: Snapshot): seq<Column> {
    [Column("memory_used_gb", Dec(d.memoryUsedGb, 2)), Column("memory_total_gb", Dec(d.memoryTotalGb, 2)),
     Column("memory_percent", OfInt(d.memoryPercent))]
  }

  function DramColumns(d: Snapshot): seq<Column> {
    [Column("dram_power_w", Dec(d.dramPower, 2))]
  }

  function UptimeColumns(d: Snapshot): seq<Column> {
    [Column("uptime_days", OfInt(d.uptimeDays)), Column("uptime_hours", OfInt(d.uptimeHours))]
  }

  function NumberColumns(d: Snapshot): seq<Column> {
    CoreColumns(d) + TempColumns(d) + ClockColumns(d) + VoltageColumns(d) + PowerColumns(d)
    + LoadColumns(d) + GpuColumns(d) + MemoryColumns(d) + DramColumns(d) + UptimeColumns(d)
  }

  /** The column names, line by line as the header literal has them. */
  const HEADER_1: seq<string> := ["cpu_vendor", "cpu_name", "cpu_cores", "cpu_threads"]
  const HEADER_2: seq<string> := ["cpu_temp_c", "cpu_temp_min_c", "cpu_temp_max_c", "cpu_temp_avg_c"]
  const HEADER_3: seq<string> := ["cpu_clock_mhz", "cpu_clock_max_mhz", "cpu_voltage_v", "soc_voltage_v"]
  const HEADER_4: seq<string> := ["cpu_power_w", "cpu_power_cores_w", "cpu_power_uncore_w", "cpu_load_percent"]
  const HEADER_5: seq<string> := ["gpu_temp_c", "memory_used_gb", "memory_total_gb", "memory_percent"]
  const HEADER_6: seq<string> := ["dram_power_w", "uptime_days", "uptime_hours"]
  const HEADER: seq<string> := HEADER_1 + HEADER_2 + HEADER_3 + HEADER_4 + HEADER_5 + HEADER_6

  predicate AllWords(names: seq<string>) {
    forall k :: 0 <= k < |names| ==> Word(names[k])
  }

  lemma Words1()
    ensures AllWords(HEADER_1)
  {
  }

  lemma Words2()
    ensures AllWords(HEADER_2)
  {
  }

  lemma Words3()
    ensures AllWords(HEADER_3)
  {
  }

  lemma Words4()
    ensures AllWords(HEADER_4)
  {
  }

  lemma Words5()
    ensures AllWords(HEADER_5)
  {
  }

  lemma Words6()
    ensures AllWords(HEADER_6)
  {
  }

  lemma AllWordsConcat(a: seq<string>, b: seq<string>)
    requires AllWords(a) && AllWords(b)
    ensures AllWords(a + b)
  {
    hide Word;
  }

  lemma {:induction false} HeaderIsWords()
    ensures AllWords(HEADER) && |HEADER| == 23
  {
    Words1(); Words2(); Words3(); Words4(); Words5(); Words6();
    hide Word, AllWords;
    AllWordsConcat(HEADER_1, HEADER_2);
    AllWordsConcat(HEADER_1 + HEADER_2, HEADER_3);
    AllWordsConcat(HEADER_1 + HEADER_2 + HEADER_3, HEADER_4);
    AllWordsConcat(HEADER_1 + HEADER_2 + HEADER_3 + HEADER_4, HEADER_5);
    AllWordsConcat(HEADER_1 + HEADER_2 + HEADER_3 + HEADER_4 + HEADER_5, HEADER_6);
  }

  function Texts(cs: seq<Column>): (s: seq<string>)
    ensures |s| == |cs| && forall k :: 0 <= k < |cs| ==> s[k] == Format(cs[k].value)
  {
    if cs == [] then [] else [Format(cs[0].value)] + Texts(cs[1..])
  }

  lemma {:induction false} TextsConcat(a: seq<Column>, b: seq<Column>)
    ensures Texts(a + b) == Texts(a) + Texts(b)
  {
  }

  /** The fields of a row. */
  function RowFields(d: Snapshot): seq<string> {
    [d.cpuVendor, d.cpuName] + Texts(NumberColumns(d))
  }

  // ---- Number texts never need quotes ---------------------------------------------

  predicate NumberText(s: string) {
    forall i :: 0 <= i < |s| ==> IsDigit(s[i]) || s[i] == '-' || s[i] == '.'
  }

  lemma NumberTextPlain(s: string)
    requires NumberText(s)
    ensures Csv.Field(s) == s
  {
  }

  lemma NumberTextConcat(a: string, b: string)
    requires NumberText(a) && NumberText(b)
    ensures NumberText(a + b)
  {
  }

  lemma {:induction false} FormatIsNumberText(d: Decimal)
    ensures NumberText(Format(d))
  {
    hide Whole;
    DigitsValue(Shift(d.mag, d.places));
    PaddedDigits(d.mag, d.places);
    assert NumberText(Whole(d)) by { DigitsOfWhole(d); }
    assert NumberText(Fraction(d)) by { NumberTextConcat(".", Padded(d.mag, d.places)); }
    NumberTextConcat(Whole(d), Fraction(d));
    NumberTextConcat(Sign(d.neg), Whole(d) + Fraction(d));
  }

  lemma {:induction false} DigitsOfWhole(d: Decimal)
    ensures NumberText(Whole(d))
  {
    DigitsValue(Shift(d.mag, d.places));
  }

  // ---- The writers ----------------------------------------------------------------

  /** Does some character force quotes? The scan of append_csv_field. */
  method ScanSpecial(s: CStr) returns (needsQuotes: bool)
    ensures needsQuotes == Csv.NeedsQuotes(s)
  {
    needsQuotes := false;
    var i := 0;
    while i < |s|
      invariant 0 <= i <= |s|
      invariant !needsQuotes
      invariant forall k :: 0 <= k < i ==> !Csv.Special(s[k])
    {
      if Csv.Special(s[i]) {
        return true;
      }
      i := i + 1;
    }
  }

  lemma {:induction false} DoubleSnoc(s: string, i: nat)
    requires i < |s|
    ensures Csv.DoubleQuotes(s[..i + 1])
            == Csv.DoubleQuotes(s[..i]) + if s[i] == '"' then "\"\"" else [s[i]]
  {
    if i == 0 {
      assert s[..1] == [s[0]];
    } else {
      DoubleSnoc(s[1..], i - 1);
      assert s[..i + 1][1..] == s[1..][..i] && s[..i][1..] == s[1..][..i - 1];
    }
  }

  method AppendCsvField(a: Appender, s: CStr)
    requires a.Valid()
    modifies a, a.buf
    ensures a.Valid() && a.started
    ensures a.buf == old(a.buf) && a.size == old(a.size) && a.initial == old(a.initial)
    ensures a.text == old(a.text) + Csv.Field(s)
  {
    ghost var start := a.text;
    hide Snprintf, Csv.DoubleQuotes;
    var needsQuotes := ScanSpecial(s);
    if !needsQuotes {
      a.Append(s);
      return;
    }
    a.Append("\"");
    AppendDoubled(a, s);
    a.Append("\"");
    Enclosed(start, "\"", Csv.DoubleQuotes(s), "\"");
  }

  /** The characters of s, quotes doubled */
  method AppendDoubled(a: Appender, s: CStr)
    requires a.Valid() && a.started
    modifies a, a.buf
    ensures a.Valid() && a.started
    ensures a.buf == old(a.buf) && a.size == old(a.size) && a.initial == old(a.initial)
    ensures a.text == old(a.text) + Csv.DoubleQuotes(s)
  {
    ghost var start := a.text;
    assert s[..0] == "" && Csv.DoubleQuotes("") == "";
    hide Snprintf, Csv.DoubleQuotes;
    assert start + "" == start;
    var i := 0;
    while i < |s|
      invariant 0 <= i <= |s|
      invariant a.Valid() && a.started
      invariant a.buf == old(a.buf) && a.size == old(a.size) && a.initial == old(a.initial)
      invariant a.text == start + Csv.DoubleQuotes(s[..i])
    {
      if s[i] == '"' {
        a.Append("\"\"");
      } else {
        a.Append([s[i]]);
      }
      DoubleSnoc(s, i);
      Assoc(start, Csv.DoubleQuotes(s[..i]), if s[i] == '"' then "\"\"" else [s[i]]);
      i := i + 1;
    }
    assert s[..|s|] == s;
  }

  function Cells(cs: seq<Column>): string {
    if cs == [] then "" else "," + Format(cs[0].value) + Cells(cs[1..])
  }

  lemma {:induction false} CellsTail(cs: seq<Column>)
    ensures Cells(cs) == Csv.Tail(Texts(cs))
  {
    hide Format;
    if cs != [] {
      FormatIsNumberText(cs[0].value);
      NumberTextPlain(Format(cs[0].value));
      CellsTail(cs[1..]);
    }
  }

  /** append(a, ",%..,%..", ...) for a group of numbers; `done` are the columns before them. */
  method AppendNumbers(a: Appender, cs: seq<Column>, ghost base: string, ghost done: seq<Column>)
    requires a.Valid() && a.text == base + Csv.Tail(Texts(done))
    modifies a, a.buf
    ensures a.Valid() && a.started
    ensures a.buf == old(a.buf) && a.size == old(a.size) && a.initial == old(a.initial)
    ensures a.text == base + Csv.Tail(Texts(done + cs))
  {
    hide Csv.Tail, Snprintf;
    CellsTail(cs);
    TextsConcat(done, cs);
    Csv.TailConcat(Texts(done), Texts(cs));
    Assoc(base, Csv.Tail(Texts(done)), Csv.Tail(Texts(cs)));
    a.Append(Cells(cs));
  }

  /** The numbers of a row, in the order and grouping of the source's append calls. */
  method AppendRowNumbers(a: Appender, d: Snapshot, ghost base: string)
    requires a.Valid() && a.text == base
    modifies a, a.buf
    ensures a.Valid() && a.started
    ensures a.buf == old(a.buf) && a.size == old(a.size) && a.initial == old(a.initial)
    ensures a.text == base + Csv.Tail(Texts(NumberColumns(d)))
  {
    assert base + Csv.Tail(Texts([])) == base;
    hide Csv.Tail, Snprintf, Texts, CoreColumns, TempColumns, ClockColumns, VoltageColumns, PowerColumns,
         LoadColumns, GpuColumns, MemoryColumns, DramColumns, UptimeColumns;
    AppendNumbers(a, CoreColumns(d), base, []);
    ghost var done := CoreColumns(d);
    assert [] + done == done;
    AppendNumbers(a, TempColumns(d), base, done);
    done := done + TempColumns(d);
    AppendNumbers(a, ClockColumns(d), base, done);
    done := done + ClockColumns(d);
    AppendNumbers(a, VoltageColumns(d), base, done);
    done := done + VoltageColumns(d);
    AppendNumbers(a, PowerColumns(d), base, done);
    done := done + PowerColumns(d);
    AppendNumbers(a, LoadColumns(d), base, done);
    done := done + LoadColumns(d);
    AppendNumbers(a, GpuColumns(d), base, done);
    done := done + GpuColumns(d);
    AppendNumbers(a, MemoryColumns(d), base, done);
    done := done + MemoryColumns(d);
    AppendNumbers(a, DramColumns(d), base, done);
    done := done + DramColumns(d);
    AppendNumbers(a, UptimeColumns(d), base, done);
  }

  /** hwsense_export_csv_row */
  method ExportCsvRow(data: Option<Snapshot>, buf: array?<char>, bufSize: int) returns (ret: int)
    requires buf != null ==> bufSize <= buf.Length
    modifies buf
    ensures data.None? || bufSize < 0 || (bufSize > 0 && buf == null) ==>
              ret == -1 && (buf != null ==> buf[..] == old(buf[..]))
    ensures data.Some? && bufSize >= 0 && (bufSize > 0 ==> buf != null) ==>
              var text := Csv.Record(RowFields(data.value));
              && ret == AsInt32(|text|)
              && (buf != null ==> buf[..] == Snprintf(old(buf[..]), bufSize, text))
  {
    if data.None? || bufSize < 0 || (bufSize > 0 && buf == null) {
      return -1;
    }
    var d := data.value;
    var a := new Appender(buf, bufSize);
    hide Snprintf, NumberColumns, Csv.Field, Texts;
    AppendCsvField(a, d.cpuVendor);
    a.Append(",");
    AppendCsvField(a, d.cpuName);
    ghost var base := "" + Csv.Field(d.cpuVendor) + "," + Csv.Field(d.cpuName);
    AppendRowNumbers(a, d, base);
    RowText(d.cpuVendor, d.cpuName, Texts(NumberColumns(d)));
    ret := AsInt32(a.needed);
  }

  lemma {:induction false} RowText(vendor: string, name: string, numbers: seq<string>)
    ensures Csv.Record([vendor, name] + numbers)
            == ("" + Csv.Field(vendor) + "," + Csv.Field(name)) + Csv.Tail(numbers)
  {
    hide Csv.Field;
    var fields := [vendor, name] + numbers;
    assert fields[1..] == [name] + numbers && fields[1..][1..] == numbers;
    assert fields[0] == vendor && fields[1..][0] == name;
    RowParts(Csv.Field(vendor), Csv.Field(name), Csv.Tail(numbers));
  }

  lemma RowParts(v: string, n: string, t: string)
    ensures v + ("," + n + t) == ("" + v + "," + n) + t
  {
  }

  /** hwsense_export_csv_header */
  method ExportCsvHeader(buf: array?<char>, bufSize: int) returns (ret: int)
    requires buf != null ==> bufSize <= buf.Length
    modifies buf
    ensures bufSize < 0 || (bufSize > 0 && buf == null) ==>
              ret == -1 && (buf != null ==> buf[..] == old(buf[..]))
    ensures bufSize >= 0 && (bufSize > 0 ==> buf != null) ==>
              var text := Csv.Record(HEADER);
              && ret == AsInt32(|text|)
              && (buf != null ==> buf[..] == Snprintf(old(buf[..]), bufSize, text))
  {
    if bufSize < 0 || (bufSize > 0 && buf == null) {
      return -1;
    }
    HeaderIsWords();
    hide Csv.Record, Snprintf, AllWords, Joined;
    var a := new Appender(buf, bufSize);
    HeaderWords(HEADER);
    a.Append(Joined(HEADER));
    assert "" + Joined(HEADER) == Joined(HEADER);
    ret := AsInt32(a.needed);
  }

  /** Names separated by commas: the literal of the source, from its pieces. */
  function Joined(names: seq<string>): string
    requires names != []
  {
    if |names| == 1 then names[0] else names[0] + ("," + Joined(names[1..]))
  }

  /** Names without quotes or commas need no quoting. */
  lemma {:induction false} HeaderWords(names: seq<string>)
    requires names != []
    requires AllWords(names)
    ensures Joined(names) == Csv.Record(names)
  {
    assert Word(names[0]);
    assert Csv.Field(names[0]) == names[0];
    if |names| > 1 {
      assert AllWords(names[1..]) by {
        forall k | 0 <= k < |names[1..]| ensures Word(names[1..][k]) {
          assert names[1..][k] == names[k + 1];
        }
      }
      HeaderWords(names[1..]);
      Assoc(",", Csv.Field(names[1]), Csv.Tail(names[1..][1..]));
    } else {
      assert names[1..] == [];
    }
  }
}
