# A verified model of libhwsense's stateful core

libhwsense reads hardware sensors. Most of it is glue to the operating system; this project models
the parts that hold state, speak a protocol or transform data, and proves what they promise:

- **Serialisation** (`Decimal`, `Json`, `Csv`, `Appender`, `Export`, `ExportCsv`, `ExportProperties`,
  `ExportReadings`).
  The JSON and CSV writers of `export.c` work on a caller's buffer with the truncation rule of
  `snprintf`. The texts are defined by reference printers (`Print`, `Csv.Record`); independent parsers for
  RFC 8259 and RFC 4180 are proved to invert them. Strings are sequences of bytes written as
  characters, without NUL. A floating-point reading is the decimal that `printf` rounds it to, in the C
  locale, so only finite values occur. The result's conversion to `int` is modelled with its wrap-around.
- **The AMD SMU mailbox** (`Smu`, `SmuHost`, `SmuProperties`, `SmuPairing`). Host and firmware take turns: before
  every bus access of the host the firmware may finish pending commands, and every access may fail, both
  as scripts over which all theorems quantify. The firmware answers a command once, writing
  RSP and ARG together, and touches nothing while idle; a failed write changes nothing.
- **Banked Super I/O monitors** (`SuperIo`, `Bits`, `Nct`, `NctHost`, `Ite`, `IteHost`, `SuperIoWindows`).
  Chips are objects with index and bank registers behind ports; the decoders are proved to read what a
  flat register file would give. A register either reads or fails throughout one decode; the
  decoders read every register at most once. For ITE the code's bank field is mask 0x60, bits 6:5, although a
  comment says 7:5; the model follows the code.
- **Discovery in config mode** (`ConfigMode`), where a chip may answer anything.
- **RAPL power sampling** (`Rapl`) over counters that wrap at 2^32, with the energy unit as an
  arbitrary positive real. What the unit's bits mean is not claimed: `intel.c` and `sensor_math.h` decode
  different bits.
- **Temperature alerts** (`Alert`), **the embedded controller handshake** (`Ec`, `EcProperties`, `EcProgress`), **the largest
  processes** (`TopProcs`) and **thermal zones** (`Thermal`). `Wrappers` and `Sequences` hold what all parts share.

Code that updates state is a class or a method with loops, tied by its contract to a function on
values; the theorems about whole runs are lemmas about these functions. `dafny verify dfyconfig.toml`
checks everything. Nothing was executed.

Seven properties one would expect turned out to be false of the code. Each has an input for which it fails
and the exact condition under which it holds:

| expected | fails in | holds exactly |
|---|---|---|
| a non-zero result of a mailbox command answers that command | `SmuPairing.LostClearIsStale`, `LateAnswerIsStale`, `PoisonedIsStale` | over every state and every pattern of failures: `SmuPairing.AlwaysFaithfulIff`. In short, if the clear of RSP, whose result is ignored, succeeds and no earlier clear was lost: `SmuPairing.PairingIffCleared` |
| a non-zero DRAM base is the one the firmware sent | `SmuPairing.LostHalfIsWrong` | once the command itself was answered, if no non-zero half was lost: `SmuProperties.DramBaseIsAnswer` |
| the Nuvoton chip is left in the bank it was in | `NctHost.UnreadableBankIsLost` | if the bank could be read or was 4: `NctHost.ReadChip` |
| every readable voltage input of a Nuvoton chip is reported | `Nct.NewestChipLosesInputs` | if at most 16 are readable: `Nct.VoltagesCompleteIff` |
| the ITE chip is left in the bank it was in | `IteHost.LastWriteFails` | unless the switch to bank 0 takes effect and the switch back fails: `IteHost.Decode` |
| a discovered monitor is enabled and has a usable base | `ConfigMode.FailedBaseByteIsAccepted`, `FailedBytesAreAccepted` | if the enable and base bytes were really read: `ConfigMode.AcceptedIffRead` |
| an embedded-controller read returns the byte asked for | `EcProperties.TimeoutSpoilsNextRead` | if the controller owes no other byte: `EcProperties.AlwaysRightIff` |

## Model

| member | source | states |
|---|---|---|
| Appending.SnprintfAppend | src/core/export.c:36-46 | writing at the end of what fits is the same as writing the longer text at once |
| Appending.SnprintfFull | src/core/export.c:36-46 | text appended past the room for it leaves the buffer alone |
| Appending.Vsnprintf | src/core/export.c:39-42 | the tail of the buffer gets the first min(n, size - 1) characters and a NUL, nothing else changes |
| Appending.Appender.Append | src/core/export.c:29-47 | after any series of appends the buffer is what one snprintf of the whole text leaves, and the length counted is that of the whole text |
| Export.AppendJsonString | src/core/export.c:53-75 | appends exactly the quoted and escaped string |
| JsonText.EscapedIff | src/core/export.c:57-72 | which characters are escaped, and how long the escape is: control characters, the quote and the backslash, and no others |
| Export.AppendFans | src/core/export.c:152-155 | appends the array of the first min(max(count, 0), 8) fans |
| Export.AppendDrives | src/core/export.c:157-166 | appends the array of the first min(max(count, 0), 8) drives |
| Export.ExportJson | src/core/export.c:108-174 | the buffer holds what snprintf leaves of the printed snapshot tree, the result is its full length; invalid arguments give -1 and write nothing |
| Export.FanItemAt | src/core/export.c:152-155 | the k-th array element is the k-th fan |
| Export.DriveItemAt | src/core/export.c:157-166 | the k-th array element is the k-th drive |
| JsonText.CharsInverse | src/core/export.c:53-75 | the parser recovers every string byte for byte from its escapes and finds its end |
| JsonText.NumberInverse | src/core/export.c:120-150 | every number text reads back as the same decimal |
| JsonText.ValueInverse | src/core/export.c:108-174 | the RFC 8259 parser inverts the printer on every tree, whatever follows |
| JsonText.DocumentInverse | src/core/export.c:108-174 | it accepts the whole text of a tree and leaves nothing over |
| ExportProperties.JsonRoundTrip | src/core/export.c:108-174 | parsing the JSON of any snapshot gives exactly the intended tree |
| ExportReadings.JsonShowsReadings | src/core/export.c:120-171 | the parsed text of any snapshot shows every reading under its own name and with its own number of decimals, e.g. under cpu, temp_min_c the minimum with 2; lists show the first 8 at most; nothing else is shown |
| ExportProperties.JsonDetermines | src/core/export.c:108-174 | two snapshots print the same if and only if all readings that are exported agree |
| ExportProperties.TruncationIsPrefix | src/core/export.c:29-47 | a C caller reads a prefix of the whole text, the whole text exactly if it and its NUL fit; nothing at or past size is written |
| ExportProperties.RetryReadsAll | src/core/export.c:173-174 | the int result is the length exactly below 2^31, and a second call with one byte more reads the full text |
| ExportProperties.JsonRetryRoundTrip | src/core/export.c:108-174 | measuring, allocating, writing and parsing gives back the snapshot's tree |
| ExportCsv.ScanSpecial | src/core/export.c:86-91 | finds whether a comma, quote or line break occurs |
| ExportCsv.AppendCsvField | src/core/export.c:81-106 | appends the field, quoted if needed and with quotes doubled |
| Csv.PlainIff | src/core/export.c:81-106 | a field is written as it is if and only if it holds no comma, quote or line break |
| ExportCsv.AppendRowNumbers | src/core/export.c:213-226 | appends the 21 numeric columns in order |
| ExportCsv.ExportCsvRow | src/core/export.c:199-229 | the buffer holds what snprintf leaves of the record of the 23 fields; the error cases give -1 |
| ExportCsv.ExportCsvHeader | src/core/export.c:177-197 | the same for the record of the 23 column names |
| Csv.FieldInverse | src/core/export.c:81-106 | an RFC 4180 reader recovers any field, whatever commas, quotes or newlines it holds |
| Csv.RecordInverse | src/core/export.c:199-229 | and any record, with the same fields |
| ExportProperties.CsvRoundTrip | src/core/export.c:199-229 | every row reads as one record of as many fields as the header, 23, the first two byte for byte vendor and name |
| ExportProperties.CsvNumber | src/core/export.c:213-226 | every other field reads back as its column's value |
| ExportProperties.HeaderAligned | src/core/export.c:176-195 | the k-th name of the header names the k-th value of a row |
| ExportReadings.CsvShowsReadings | src/core/export.c:177-229 | under each of the 23 names of the header stands the reading of that name, read back as a string or a number |
| ExportProperties.CsvRetryRoundTrip | src/core/export.c:199-229 | measuring, allocating, writing and reading gives back the fields |
| Smu.ConfigsAreSeparated | src/cpu/amd_smu.c:94-187 | in all 12 configurations the registers of both mailboxes are at different addresses |
| SmuHost.Driver.SmnReadDword | src/cpu/amd_zen.c:105-113 | an SMN read over the index and data pair refines the model's read |
| SmuHost.Driver.SmnWriteDword | src/cpu/amd_zen.c:118-124 | and a write the model's write; either access may fail |
| SmuHost.Driver.SendCommand | src/cpu/amd_smu.c:218-256 | the polling loops and register writes do what Send says |
| SmuHost.Driver.ReadVersion | src/cpu/amd_smu.c:258-280 | refines GetVersion, on either mailbox |
| SmuHost.Driver.ReadDramBase | src/cpu/amd_smu.c:282-293 | refines GetDramBase |
| SmuHost.Driver.TransferTableToDram | src/cpu/amd_smu.c:295-301 | refines TransferTable |
| SmuProperties.WriteIdle | src/cpu/amd_smu.c:235-243 | a register write to an idle mailbox reaches it between two firmware steps and finds it idle |
| SmuProperties.PollLater | src/cpu/amd_smu.c:225-233 | a poll only lets the firmware go on; a non-zero RSP it returns is that of an idle mailbox |
| SmuProperties.SendIsPaired | src/cpu/amd_smu.c:218-256 | from any mailbox that is not poisoned (pending behind a non-zero RSP), over every interleaving and failure, if the clear took effect: a non-zero result is the firmware's answer to this command with these arguments; with an orderly history, MSG is written only while idle |
| SmuProperties.RunIsPaired | src/cpu/amd_smu.c:218-256 | the same for every call of any run on both mailboxes, after timeouts and failures too, as long as no call of the run, this one or an earlier one, lost its clear |
| SmuPairing.CommandIsAnswered | src/cpu/amd_smu.c:218-256 | the host waits long enough: where accesses succeed, from any coherent mailbox, if the firmware lets the first loop end with its j-th poll and finishes the new command with a non-zero reply just before the k-th poll for it, for any j and k up to 10000, the result is that reply and the mailbox is that of the command issued with these arguments and finished |
| SmuProperties.SendPolls | src/cpu/amd_smu.c:225-255 | a call polls at most 20000 times |
| SmuProperties.SendOther | src/cpu/amd_smu.c:218-256 | a call on one mailbox leaves the other to its firmware |
| SmuProperties.FailedWriteWedges | src/cpu/amd_smu.c:235-243 | an argument or MSG write that fails after the clear leaves RSP at 0 with nothing pending |
| SmuProperties.WedgedRefuses | src/cpu/amd_smu.c:225-233 | in that state every later command returns 0 and changes nothing |
| SmuPairing.AlwaysFaithfulIff | src/cpu/amd_smu.c:218-256 | from every state of the mailbox and for every pattern of failing accesses: the result is the answer to its own command under every firmware timing if and only if no poll that can end the first loop is followed by a failing clear (or, in a poisoned mailbox, by any clear) and then by accesses that all succeed up to the first poll for the answer |
| SmuPairing.LostClearIsStale | src/cpu/amd_smu.c:235 | with the clear lost, the old RSP is returned as the answer to the new command, and the mailbox is left poisoned |
| SmuPairing.LateAnswerIsStale | src/cpu/amd_smu.c:225-235 | the same when an earlier command that timed out is answered at any poll of the first loop |
| SmuPairing.PoisonedIsStale | src/cpu/amd_smu.c:225-256 | in a poisoned mailbox a call whose clear succeeds can return the earlier command's answer |
| SmuPairing.LostClearSpoilsNextCall | src/cpu/amd_smu.c:235 | after one lost clear the next call can be answered wrongly although every one of its accesses succeeds |
| SmuPairing.PairingIffCleared | src/cpu/amd_smu.c:235 | where only the first clear is in doubt, from every state: results are right for every timing if and only if the mailbox is wedged, or it is not poisoned and the clear succeeds |
| SmuPairing.PairingOnWorkingBus | src/cpu/amd_smu.c:218-256 | where no access fails, from every state: if and only if the mailbox is not poisoned |
| SmuProperties.DramBaseIsAnswer | src/cpu/amd_smu.c:282-293 | the base is 0 if the command is not answered with 1; otherwise it is made of the two halves of the answer to this request that could be read, and equals hi * 2^32 + lo exactly if no non-zero half was lost |
| SmuPairing.LostHalfIsWrong | src/cpu/amd_smu.c:289-292 | a run in which only the last access fails: the base returned is the non-zero low half alone |
| SmuProperties.VersionIsAnswer | src/cpu/amd_smu.c:258-280 | the version is the first argument register of the answer to this request if the answer is 1 and the register can be read, otherwise 0 |
| SmuProperties.TransferIsAnswer | src/cpu/amd_smu.c:295-301 | a transfer is reported if and only if the command is answered with 1, and then the firmware executed it with the configured argument |
| Bits.MaskAdd | src/motherboard/nct_linux.c:166-175 | setting bit s in a mask adds s to the set it stands for |
| NctHost.NctReader.HwRead | src/motherboard/nct_linux.c:209-221 | whatever bank the chip was in, returns the flat register file's byte, with the bank cache unknown or right before and right after, and writes the bank only when it changes |
| NctHost.NctReader.Read | src/motherboard/nct_linux.c:93-112 | reads through the cache agree with the flat file; what the words mean on the bytes is stated by the reference lists |
| NctHost.TablesReadable | src/motherboard/nct_linux.c:62-90 | every register of the tables can be read through the cache, words within one bank |
| NctHost.DecodeTemps | src/motherboard/nct_linux.c:157-177 | the loop with its bit mask computes the list on the flat file |
| NctHost.DecodeFans | src/motherboard/nct_linux.c:179-185 | so does the fan loop |
| NctHost.DecodeVoltages | src/motherboard/nct_linux.c:187-192 | so does the voltage loop |
| NctHost.InputsInRange | src/motherboard/nct_linux.c:187-191 | for every chip the voltage indices are within both tables |
| Nct.FoundIff | src/motherboard/nct_linux.c:114-137 | an entry is found for exactly the ids that equal its own but for the low three bits |
| NctHost.Decode | src/motherboard/nct_linux.c:123-200 | the whole decode through the cache gives the result of the flat file; an unknown chip changes nothing |
| NctHost.ReadChip | src/motherboard/nct_linux.c:294-302 | on the bytes of the file: each temperature is the signed byte at its register, for a two-byte register the first of the two; each fan is 256 * first + second byte; each voltage is the byte times its scale in units of 10 uV; with the selection and limits below. The chip is left in its bank if and only if the bank could be read or was 4 |
| NctHost.UnreadableBankIsLost | src/motherboard/nct_linux.c:290-302 | runs in which the bank is not restored: the reader on any known chip that is in bank 2 and whose bank register cannot be read |
| Nct.TempsAreSelection | src/motherboard/nct_linux.c:157-177 | for every register file the temperatures are, in table order, the plausible signed bytes with a named source that no earlier one had, cut at 8 |
| Nct.FansAreComplete | src/motherboard/nct_linux.c:179-185 | exactly the fans whose two bytes are readable and join to neither 0 nor 0xffff are listed, each as 256 * first + second byte; none is lost to the limit |
| Nct.VoltagesCompleteIff | src/motherboard/nct_linux.c:187-192 | for every register file all readable inputs are listed if and only if at most 16 are readable, otherwise the first 16 |
| Nct.NewestChipLosesInputs | src/motherboard/nct_linux.c:58-72 | when all 18 inputs of the nct6799 are readable, two of them are never reported |
| Ite.FoundInTable | src/motherboard/ite_decode.c:46-53 | the entry found has the chip's id and counts within the tables |
| Ite.FoundIff | src/motherboard/ite_decode.c:46-53 | an entry is found for exactly its own id |
| Ite.InBank0KeepsOthers | src/motherboard/ite_decode.c:82-83 | clearing mask 0x60 clears bits 5 and 6 of the bank register and changes no other |
| Ite.FansAreMeasured | src/motherboard/ite_decode.c:95-105 | each reported rpm has a tachometer with two readable bytes and a count raw = 256 * high + low, neither 0 nor 0xffff, such that rpm * 2 * raw <= 1350000 < (rpm + 1) * 2 * raw |
| Ite.PassesReadBank0 | src/motherboard/ite_decode.c:85-115 | on the bytes of bank 0 the three passes list: the signed bytes other than 0 and -128; 675000 divided by the count of every fan that shows one; every readable voltage byte times the step of the chip, doubled for the three divided inputs |
| IteHost.Machine.SioWrite | src/motherboard/superio.c:114-167 | a write reaches the driver only for an allowed port |
| IteHost.RegRead | src/motherboard/superio.c:330-340 | reads the register of the bank the chip is in, through base + 5 and base + 6 only; the Linux reader is ite_linux.c:39-44 |
| IteHost.RegWrite | src/motherboard/superio.c:342-348 | writes the bank register, or the register of the current bank, through the same two ports and nothing else; the Linux writer is ite_linux.c:46-51 |
| IteHost.DecodeTemps | src/motherboard/ite_decode.c:85-93 | the temperature loop computes the list on bank 0 |
| IteHost.DecodeFans | src/motherboard/ite_decode.c:95-105 | so does the fan loop |
| IteHost.DecodeVoltages | src/motherboard/ite_decode.c:107-115 | so does the voltage loop |
| IteHost.Decode | src/motherboard/ite_decode.c:61-126 | from any bank and with any failing sensor reads: the bank 0 readings, the chip left as found, 0 or 2 writes; an unreadable bank register means no result and no write. When driver writes fail: no other register changes, and the chip is in its bank again if and only if it is not the case that the switch takes effect and the switch back does not |
| IteHost.LastWriteFails | src/motherboard/ite_decode.c:117-118 | a failure of the very last write leaves the chip in bank 0 |
| IteHost.ReadLinux | src/motherboard/ite_linux.c:94-115 | behind discovery, the Linux reader returns the readings of bank 0, or fails if the bank cannot be read, and leaves the chip as found |
| SuperIoWindows.AcceptedBaseIsAllowed | src/motherboard/superio.c:355-362 | for an accepted base no access of the decoder is refused while the window is open |
| SuperIoWindows.ConfigMeans | src/motherboard/superio.c:386-408 | the chip is known if and only if 256 * high + low id byte is in the table; an enabled chip is accepted if and only if its base is at least 0x100 and not in 0xcf8..0xcff |
| SuperIoWindows.ReadConfig | src/motherboard/superio.c:386-401 | with a driver that does not fail: registers 0x20 and 0x21 are read, for a known chip also 0x30, 0x60 and 0x61 of device 4, in this order; id, enable bit and base are made of these bytes, high byte first, the base without its low three bits |
| SuperIoWindows.ProbeConfig | src/motherboard/superio.c:381-399 | config-mode accesses reach config ports only and leave the monitor alone; with a driver that does not fail the exchange is exactly the key for the port, the reads of ReadConfig and the exit |
| SuperIoWindows.DecodeWindowed | src/motherboard/superio.c:413-419 | inside the window the decode matches the flat one; it is closed again after; with a failing driver, exactly when the chip is in its bank again |
| SuperIoWindows.ProbeAndRead | src/motherboard/superio.c:370-421 | writes go to config ports and then, only for an accepted base, to its two ports; the window is closed on return. With a driver that does not fail a chip is found if and only if the id shown is in the table, decoded if and only if it is enabled with an accepted base, and at that base |
| SuperIoWindows.Filter | src/motherboard/superio.c:424-447 | keeps the readings of the kind asked for, and is ok exactly if there are any |
| SuperIoWindows.DetectChip | src/motherboard/superio.c:227-251 | with a driver that does not fail: the id is 256 * register 0x20 + register 0x21, read between the key and the exit; another port is left alone |
| SuperIoWindows.ProbeOthers | src/motherboard/superio.c:483-500 | with a driver that does not fail: another chip is found exactly if its id is one of the known ones, and register 0x28 is then written back with just bit 4 cleared |
| SuperIoWindows.ScanPair | src/motherboard/superio.c:452-536 | one step of the scan: the ITE probe, and where it finds nothing the detection of the other chips |
| SuperIoWindows.ReadSensors | src/motherboard/superio.c:452-536 | over a whole scan of all port pairs, for each of the three readers: the same port discipline; a decoded ITE chip gives the requested readings of its bank 0 and is left as found; no chip, or an ITE chip that is not decoded, gives none. With a driver that does not fail the exchange of the whole scan is stated: the pairs before the last showed no known chip, and an ITE chip on the last one is found, decoded and placed exactly as its bytes say |
| ConfigMode.ReadDevice | src/motherboard/nct_linux.c:246-249 | selecting a logical device and reading its enable bit and base, in config mode throughout |
| ConfigMode.NctTry | src/motherboard/nct_linux.c:239-270 | whatever the chip answers and from any mode, one pass makes exactly the listed accesses and leaves config mode |
| ConfigMode.NctFind | src/motherboard/nct_linux.c:235-274 | every port entered is out of config mode again, the second is untouched if the first shows a chip; success exactly if the first known chip is accepted |
| ConfigMode.NctChangesOnlyLock | src/motherboard/nct_linux.c:246-256 | apart from the device selection the only write is register 0x28 with just bit 4 cleared from the value read before |
| ConfigMode.NctAccessesAre | src/motherboard/nct_linux.c:246-260 | the whole exchange with a known chip: device 0x0b, registers 0x30, 0x60, 0x61; the lock is read for every family but nct6779 and written exactly if bit 4 was set |
| ConfigMode.NctBytesMean | src/motherboard/nct_linux.c:246-264 | for bytes that were read: known if and only if 256 * b1 + b0 equals a table id but for the low three bits; base 256 * hi + lo without its low three bits; accepted if and only if enabled with a base in 8..0xfff7 |
| ConfigMode.IteTry | src/motherboard/ite_linux.c:63-89 | as NctTry, for the ITE key and exit |
| ConfigMode.IteFind | src/motherboard/ite_linux.c:54-92 | as NctFind, for ITE chips |
| ConfigMode.IteAccessesAre | src/motherboard/ite_linux.c:68-80 | the whole exchange with a known chip: device 0x04, registers 0x30, 0x60, 0x61, and the exit |
| ConfigMode.IteBytesMean | src/motherboard/ite_linux.c:68-84 | for bytes that were read: known if and only if 256 * b1 + b0 is in the table |
| ConfigMode.AcceptedIffRead | src/motherboard/nct_linux.c:262-264 | an accepted chip has its enable bit set and a base that is a multiple of 8 in 8..0xfff0 if and only if the three bytes were really read |
| ConfigMode.FailedBaseByteIsAccepted | src/motherboard/nct_linux.c:262-264 | with an unreadable high byte a known chip is accepted with a base outside the port space |
| ConfigMode.FailedBytesAreAccepted | src/motherboard/ite_linux.c:81-83 | the same for a known ITE chip, also with an unreadable enable bit |
| Rapl.Sampler.Power | src/cpu/intel.c:227-262 | the method computes the sampler's step; the PP0, PP1 and DRAM samplers at 267-382 are the same code |
| Rapl.StepAtTheEdges | src/cpu/intel.c:227-244 | a failed read gives -1.0 and changes nothing in any state, the first reading gives 0.0, and only the low 32 bits of the register count |
| Rapl.StepIsMeanPower | src/cpu/intel.c:246-261 | a result times the seconds since the last baseline is the energy difference modulo 2^32, so it is the mean power if the counter made less than one turn |
| Rapl.EnergyIsConserved | src/cpu/intel.c:227-262 | over any run with failed and zero-elapsed calls, watts times seconds add up to at most the energy between first and last baseline, and to exactly it if and only if no energy gap reaches 2^32 |
| Alerts.Alert.constructor | src/core/alert.c:23-34 | a new alert is not breached and its hysteresis is clamped at 0 |
| Alerts.Alert.Step | src/core/alert.c:36-62 | one reading changes the alert as the automaton says |
| Alerts.CheckTempAlert | src/core/alert.c:76-102 | the callback is called for exactly the events; a failed read or a missing alert does nothing |
| Alerts.FailedReadsDoNotCount | src/core/alert.c:87-101 | a run with failed reads leaves alert and callback trace as the run without them |
| Alerts.StateIsHistory | src/core/alert.c:23-62 | after any readings the state is breached if and only if some reading exceeded the given threshold and all later ones stayed above it less the given hysteresis, or less 0 if that is negative |
| Alerts.EventsCarryReadings | src/core/alert.c:39-60 | every event carries one of the readings: a breach one above the threshold, a recovery one at most the threshold less the margin |
| Alerts.EventsAlternate | src/core/alert.c:40-59 | events strictly alternate, breach first, and the breach counter is the recoveries plus 1 while breached |
| Alerts.NoFlapping | src/core/alert.c:53-58 | the recoveries times that margin stay below the total downward movement of the readings |
| EmbeddedController.Driver.ReadPort | src/motherboard/ec.c:31-49 | a port read refines the model's; the data port empties the output buffer |
| EmbeddedController.Driver.WriteByte | src/motherboard/ec.c:51-70 | so does a port write |
| EmbeddedController.Driver.AwaitIbf | src/motherboard/ec.c:72-84 | the wait loop refines WaitIbf |
| EmbeddedController.Driver.AwaitObf | src/motherboard/ec.c:86-98 | the wait loop refines WaitObf |
| EmbeddedController.Driver.ReadRegister | src/motherboard/ec.c:100-108 | the handshake refines ReadReg |
| EmbeddedController.Driver.ReadTwo | src/motherboard/ec.c:110-117 | refines ReadWord |
| EcProperties.ReadNeverOverruns | src/motherboard/ec.c:100-108 | from any state, over any interleaving, timeout or failure, every host write finds IBF clear |
| EcProperties.ReadIsAnswered | src/motherboard/ec.c:100-108 | from the quiet state a successful read returns the controller's byte at that register and restores the quiet state |
| EcProperties.WordIsAnswered | src/motherboard/ec.c:110-117 | a successful word read returns low + 256 * high |
| EcProperties.WordsAreAnswered | src/motherboard/ec.c:153-174 | in any chain of word reads from the quiet state every word up to the first failure is right |
| EcProperties.AlwaysRightIff | src/motherboard/ec.c:100-108 | a read is right in every interleaving if and only if the controller owes no other byte |
| EcProperties.TimeoutSpoilsNextRead | src/motherboard/ec.c:100-108 | a read that times out can make the next one return the first one's byte |
| EcProgress.WaitIff | src/motherboard/ec.c:72-98 | a wait for either flag succeeds if and only if the flag shows in some turn up to which every look is in time and gets through |
| EcProgress.ReadSucceedsIff | src/motherboard/ec.c:100-108 | from the quiet state a read returns the byte of its register if and only if the controller takes the command, and then takes the address and answers, within some numbers of turns in which no look is late and no access fails; otherwise nothing |
| EcProgress.WordSucceedsIff | src/motherboard/ec.c:110-117 | a word is read if and only if both its reads are served so, and is then low + 256 * high |
| TopProcesses.Rows | src/core/win_sysstats.c:227-248 | one row a process with its id and name; the values of a process that cannot be opened are 0, and so is each value whose query fails |
| TopProcesses.AllCollected | src/core/win_sysstats.c:250-256 | if no growth fails every process is collected |
| TopProcesses.CollectedIs | src/core/win_sysstats.c:250-257 | in closed form: if the growth after the g-th fails, what fits into 128 * 2^(g - 1) rows is collected |
| TopProcesses.Collect | src/core/win_sysstats.c:225-259 | the doubling buffer holds the rows up to the first growth that fails, none lost |
| TopProcesses.Qsort | src/core/win_sysstats.c:189-201 | the rows in descending order of the key, the same rows |
| TopProcesses.PrefixIsTop | src/core/win_sysstats.c:268-272 | a prefix of the sorted rows is a sub-multiset that no omitted row exceeds |
| TopProcesses.TopByReading | src/core/win_sysstats.c:189-201 | by memory the working sets fall and no omitted one is larger, by CPU the seconds |
| TopProcesses.TopKeysAreDetermined | src/core/win_sysstats.c:268-272 | the promise fixes the keys of the result place by place, however `qsort` orders rows with equal keys |
| TopProcesses.GetTopProcesses | src/core/win_sysstats.c:212-275 | for any number of processes and any failing growth: the first min(n, max) collected rows in descending order, nothing larger omitted, the rest of the caller's array untouched; 0 on bad arguments |
| Thermal.Decode | src/core/soc_math.h:33-44 | exactly which raw values are temperatures, and which |
| Thermal.StartsIffPrefix | src/core/soc_math.h:46-49 | strncmp over the prefix's length decides whether it is a prefix |
| Thermal.MatchesIff | src/core/soc_math.h:46-76 | which name prefixes make a CPU or a GPU zone |
| Thermal.ReportsIff | src/core/soc_linux.c:28-42 | exactly which zones report, and that they show the degrees, or the thousandths of a degree, of their own raw value |
| Thermal.ValidIsFilter | src/core/soc_linux.c:28-42 | the reporting zones in order: increasing numbers, none left out |
| Thermal.Scan | src/core/soc_linux.c:44-61 | the scan writes the first max of them and nothing behind |
| Thermal.HottestZone | src/core/soc_linux.c:69-86 | succeeds if and only if the uncut scan has a matching zone, and returns exactly their maximum, also below 0 |

## Left out

- Alerts.Alert.Step: the breach counter is unbounded; the wrap of a C `int` after 2^31 breaches is not modelled.
- Rapl.EnergyIsConserved: requires consecutive baselines less than 2^32 ms (49 days) apart, as the code's tick difference does; beyond that, powers are too high and can hide lost energy.
- Rapl.Sampler.Power: the unit is a parameter; reading it (intel.c:210-221) is not part of this model.
- IteHost.Decode: which readings are lost when driver writes fail is not stated, only what becomes of the chip and which ports are written.
- SuperIoWindows.ReadSensors: nothing is promised about the readings and `ok` of a Nuvoton or other chip on the Windows path, only about its port writes, because it reads sensor registers after leaving config mode.
- TopProcesses.Qsort: the C library's algorithm is replaced by an insertion sort behind the contract of `qsort`; the order of rows with equal keys is open.
- JsonText.ValueInverse: the parser accepts every grammar rule of RFC 8259 except escapes above `\u007f`, which the writer never produces.
- EmbeddedController.Driver.ReadRegister: the controller's memory is constant during a run, and the clock is the number of turns a script grants a wait.
- SuperIoWindows.ProbeAndRead: what is found and decoded is stated for a driver that does not fail, and for any other only where writes go and what becomes of the chip.
- Liveness of the firmware and of the embedded controller: that they answer is never claimed, only that the host waits for them.
- IEEE arithmetic, NaN, infinities, locales with a decimal comma, and UTF-8 validity of names.
- The exact texts of error messages.
- Driver installation, WMI, NVML, ioctls, sysfs access and `/dev/port` handling: foreign calls.
- The unified API, vendor dispatch, one-expression decoders, the Python wrapper and the examples: easy members or plumbing.
- The physical-memory fallbacks of the PM table and CPUID diagnostics: no specification to prove against.
