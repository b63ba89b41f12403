# WinHKMon core, modelled in Dafny

WinHKMon is a Windows hardware monitor. It samples CPU, memory, disk, network
and temperature figures and prints them as text, JSON or CSV. This project
models the deterministic core of its library (`WinHKMonLib`). Every Windows
call is an input value or a success/failure flag:

- `types.dfy`: the shared records of `Types.h`, with 64-bit unsigned
  counters as naturals below 2^64 and floating-point fields as reals.
- `delta_calculator.dfy`: the rate engine. It turns counters and tick pairs
  into rates and durations, with decimal unit conversions.
- `decimal.dfy`: how the standard streams write and read unsigned decimal
  numbers. The state file and the interval option both use it.
- `state_manager.dfy`: the state file codec. `save` is a function from a
  snapshot to lines, with loops that write them. `load` is a tolerant
  line parser, with the loop that reads them. The round trip is proved for
  plain device names. The loss of names with spaces is proved as the code
  has it.
- `network_monitor.dfy`: filtering the OS interface table, and the
  primary-interface choice (the `std::max_element` scan and its
  Ethernet-over-Wi-Fi tie-break).
- `disk_monitor.dfy`: the disk-name helpers, the used-space rule, and the
  `DiskMonitor` lifecycle over a sorted `counters_` key list.
- `cpu_monitor.dfy`: clamping, the wrapping average frequency, and the
  `CpuMonitor` lifecycle.
- `memory_monitor.dfy`: the fields derived from one OS memory report.
- `temp_monitor.dfy`: the `TempMonitor` facade over its stub implementation,
  and the result messages.
- `cli_parser.dfy`: `toUpper`, `isFlag` and `parseArguments`. The parser is
  a token-by-token step function, and the method runs its loop.
- `output_formatter.dfy`: the JSON and CSV escapers with their decoders, the
  unit choice of the size and rate formatters, and `formatText`.

Where the tests and the code disagree, the model follows the code:

- The state file does not round-trip device names that hold white space
  (`StateManager.SpacedNameIsDropped`, `StateManager.SpacedInterfaceIsLost`).
  The tests expect such names to come back, or to come back with spaces
  turned into underscores.
- `sanitizeKey` replaces only tab, LF and CR; spaces are kept.

## Model

| member | source | states |
|---|---|---|
| Types.EmptyMetrics | include/WinHKMonLib/Types.h:137-145 | the snapshot with every family absent, the smallest value of the type; what the program does with it is `StateManager.EmptySnapshotRoundTrip` and `OutputFormatter.EmptySnapshotShowsPlaceholder` |
| DeltaCalculator.CalculateRate | src/WinHKMonLib/DeltaCalculator.cpp:7-25 | 0 when elapsed time is not positive; 0 when the counter went down (no wrap arithmetic); otherwise rate × elapsed = increase; never negative |
| DeltaCalculator.CalculateElapsedSeconds | src/WinHKMonLib/DeltaCalculator.cpp:27-45 | 0 when the clock went backwards or the frequency is 0; otherwise seconds × frequency = elapsed ticks; never negative |
| DeltaCalculator.BytesPerSecToMegabitsPerSec | src/WinHKMonLib/DeltaCalculator.cpp:67-71 | one megabit per second is 1,000,000 bits: result × 10^6 = bytes × 8 |
| DeltaCalculator.BytesPerSecToMegabytesPerSec | src/WinHKMonLib/DeltaCalculator.cpp:73-76 | one megabyte per second is 1,000,000 bytes: result × 10^6 = bytes |
| DeltaCalculator.MegabitsAreEightMegabytes | src/WinHKMonLib/DeltaCalculator.cpp:67-76 | both conversions share the decimal base, so megabits are eight times megabytes |
| DeltaCalculator.EqualCountersGiveZeroRate | src/WinHKMonLib/DeltaCalculator.cpp:21-24 | equal counters give a zero rate for any elapsed time |
| DeltaCalculator.RateOfSteadyCounter | src/WinHKMonLib/DeltaCalculator.cpp:7-45 | a counter growing by p per second, measured over `ticks` ticks at frequency f, is measured at p × f per second (the two functions compose) |
| DeltaCalculator.RateEngineScenarios | src/WinHKMonLib/DeltaCalculator.cpp:14-44 | (10000000, 0, 1.0) gives 10000000; a counter that went down gives 0; f/2 ticks are 0.5 s and f ticks are 1 s |
| Decimal.NatToDecimal | src/WinHKMonLib/StateManager.cpp:181 | the text `os << n` writes is non-empty and all digits |
| Decimal.DecimalRoundTrip | src/WinHKMonLib/StateManager.cpp:181-197 | reading back the digits written for n gives n |
| Decimal.RunEnd | src/WinHKMonLib/StateManager.cpp:86 | the end of a maximal run: every character before it satisfies the test, the one at it does not |
| Decimal.ParseUnsigned | src/WinHKMonLib/StateManager.cpp:70 | a successful read consumes at least one character and stays inside the text |
| Decimal.ParseUnsignedOfDecimal | src/WinHKMonLib/StateManager.cpp:70 | white space followed by the digits `os << n` wrote, then a non-digit or the end, reads back as n, ending right after the digits |
| StateManager.Head | src/WinHKMonLib/StateManager.cpp:51 | `substr(0, n)`: the first n characters, or the whole text when it is shorter |
| StateManager.ValidateVersion | src/WinHKMonLib/StateManager.cpp:16-19 | a version is accepted exactly when its first two characters are "1." |
| StateManager.VersionExamples | src/WinHKMonLib/StateManager.cpp:16-19 | "1.0" and "1.5" are accepted; "0.5", "10.0", "1" and "" are refused |
| StateManager.SanitizeKey | src/WinHKMonLib/StateManager.cpp:21-29 | the in-place rewrite of a copied buffer yields exactly `Sanitized(key)` |
| StateManager.SanitizedProperties | src/WinHKMonLib/StateManager.cpp:21-29 | length is kept; no tab, LF or CR remains; the key is unchanged exactly when it holds none of them; sanitising twice is sanitising once |
| StateManager.FamilyLinesAt | src/WinHKMonLib/StateManager.cpp:184-198 | a family's block has two lines per device, the primary counter's line at 2i and the secondary's at 2i+1 |
| StateManager.CounterLineSpelling | src/WinHKMonLib/StateManager.cpp:187-197 | the four line shapes `NETWORK_<name>_IN <n>`, `_OUT`, `DISK_<name>_READ <n>`, `_WRITE`, with the sanitised name and the decimal value |
| StateManager.SaveLinesHeader | src/WinHKMonLib/StateManager.cpp:177-199 | `save` writes 2 + 2·interfaces + 2·disks lines: first `VERSION 1.0`, then `TIMESTAMP <ts>` |
| StateManager.SaveLinesInterfaces | src/WinHKMonLib/StateManager.cpp:184-190 | interface i's IN line is line 2+2i and its OUT line is line 3+2i, in input order |
| StateManager.SaveLinesDisks | src/WinHKMonLib/StateManager.cpp:193-199 | disk i's READ and WRITE lines follow all interface lines, at 2+2n+2i and 3+2n+2i, in input order |
| StateManager.SaveBlocks | src/WinHKMonLib/StateManager.cpp:177-199 | after the header, the file is the interface block followed by the disk block |
| StateManager.WriteLines | src/WinHKMonLib/StateManager.cpp:177-199 | the writing loops produce exactly `SaveLines(metrics)` |
| StateManager.WriteInterfaces | src/WinHKMonLib/StateManager.cpp:184-190 | the interface loop appends the interface block to what was written before |
| StateManager.WriteDisks | src/WinHKMonLib/StateManager.cpp:193-199 | the disk loop appends the disk block to what was written before |
| StateManager.LastIndexOf | src/WinHKMonLib/StateManager.cpp:92 | `rfind`: the index holds the character and no later index does; -1 when it is absent |
| StateManager.FindIndex | src/WinHKMonLib/StateManager.cpp:99-102 | `find_if` by name: the first device with that name, or -1 when none has it |
| StateManager.FindDevice | src/WinHKMonLib/StateManager.cpp:99-102 | the scanning loop finds the index `FindIndex` names |
| StateManager.RecordEntry | src/WinHKMonLib/StateManager.cpp:98-121 | finding or appending the device and setting its counter yields `Record` |
| StateManager.ReadLines | src/WinHKMonLib/StateManager.cpp:47-166 | the reading code of `load` yields exactly `ParseState(lines)` |
| StateManager.ReadHeader | src/WinHKMonLib/StateManager.cpp:47-73 | the header checks yield exactly `ParseHeader(lines)` |
| StateManager.ReadDevices | src/WinHKMonLib/StateManager.cpp:79-155 | the body loop yields the devices `ReadBody` reads from the lines after the header |
| StateManager.AbsorbLine | src/WinHKMonLib/StateManager.cpp:80-154 | one turn of the body loop is `Absorb` |
| StateManager.ReadBodyAppend | src/WinHKMonLib/StateManager.cpp:79-155 | reading a + b is reading a, then reading b from that state |
| StateManager.HeaderOfSave | src/WinHKMonLib/StateManager.cpp:47-73 | the two header lines `save` writes are accepted and give back the timestamp, whatever follows |
| StateManager.LoadNeedsHeader | src/WinHKMonLib/StateManager.cpp:47-73 | `load` succeeds exactly when line 1 is `VERSION ` plus an accepted version and line 2 is `TIMESTAMP ` plus a number; the timestamp is that number |
| StateManager.HeaderExamples | src/WinHKMonLib/StateManager.cpp:47-73 | an empty file, a missing timestamp line, version 0.5 and an unreadable timestamp all fail; a 1.9 header with no body loads with no devices |
| StateManager.SkipsUnparsableLine | src/WinHKMonLib/StateManager.cpp:79-88 | a line that does not parse (empty, no number after the key, no family, empty name) changes nothing |
| StateManager.TokenizeAt | src/WinHKMonLib/StateManager.cpp:86 | `iss >> key >> value` takes the text up to the first white space as the key, then reads the number after it |
| StateManager.FieldsArePlain | src/WinHKMonLib/StateManager.cpp:117-152 | IN/OUT and READ/WRITE have no white space and no underscore, and the two fields of a family differ |
| StateManager.PlainNameIsKept | src/WinHKMonLib/StateManager.cpp:21-29 | sanitising leaves a name without white space unchanged |
| StateManager.ClassifyCounterKey | src/WinHKMonLib/StateManager.cpp:91-96 | a key splits at its last underscore: a non-empty name, underscores included, and a field without one come back as written |
| StateManager.KeyIsPlain | src/WinHKMonLib/StateManager.cpp:187-197 | a key built from a plain name and field holds no white space |
| StateManager.TokenizeKeyValue | src/WinHKMonLib/StateManager.cpp:86 | a key without white space, a space and a decimal number read back as that key and number |
| StateManager.CounterLineParses | src/WinHKMonLib/StateManager.cpp:86-96 | every line `save` writes for a plainly named device parses back to its family, name, field and value |
| StateManager.FindIndexOfAppended | src/WinHKMonLib/StateManager.cpp:99-115 | a device appended to a list that did not hold its name is found at the end |
| StateManager.RecordNewPrimary | src/WinHKMonLib/StateManager.cpp:104-121 | the first line naming a new device appends it with zero counters and then sets the primary counter |
| StateManager.RecordKnownSecondary | src/WinHKMonLib/StateManager.cpp:117-121 | a secondary-field line for a known device sets only that device's secondary counter |
| StateManager.AbsorbPrimaryLine | src/WinHKMonLib/StateManager.cpp:86-121 | the primary line of a device new to its family appends it with that counter set |
| StateManager.AbsorbSecondaryLine | src/WinHKMonLib/StateManager.cpp:86-121 | the secondary line of a device just appended sets its second counter |
| StateManager.ReadDeviceLines | src/WinHKMonLib/StateManager.cpp:79-155 | both lines of a device new to its family append it, counters and all |
| StateManager.GetPut | src/WinHKMonLib/StateManager.cpp:76-77 | the two device lists are independent: reading back a family's stored list gives it, and a second store replaces the first |
| StateManager.ReadFamilyLines | src/WinHKMonLib/StateManager.cpp:79-155 | reading a family's block into an empty family yields its devices, in order, when the names are plain and distinct |
| StateManager.SaveLoadRoundTrip | src/WinHKMonLib/StateManager.cpp:158-203 | for distinct, non-empty, white-space-free names, loading what `save` wrote gives the timestamp and every counter back, each list present only when non-empty |
| StateManager.EmptySnapshotRoundTrip | src/WinHKMonLib/StateManager.cpp:158-203 | a snapshot with no metric family is saved as the two header lines alone and loads back as its timestamp with neither device list |
| StateManager.SaveSplits | src/WinHKMonLib/StateManager.cpp:177-199 | the saved file's header parses to its timestamp and its body is the interface block and then the disk block |
| StateManager.UnknownFieldCreatesDevice | src/WinHKMonLib/StateManager.cpp:104-121 | a line with an unknown field still creates the device, with zero counters |
| StateManager.RecordPlaces | src/WinHKMonLib/StateManager.cpp:98-121 | recording keeps every device's name and place, and appends a device only when its name is new |
| StateManager.LastValueWins | src/WinHKMonLib/StateManager.cpp:117-121 | a later line for the same device and field overwrites the earlier value |
| StateManager.RecordKeepsNamesDistinct | src/WinHKMonLib/StateManager.cpp:98-115 | recording never puts a name in a family twice |
| StateManager.ReadBodyKeepsNamesDistinct | src/WinHKMonLib/StateManager.cpp:79-155 | however malformed the lines, reading keeps the names of each family distinct |
| StateManager.LoadedNamesDistinct | src/WinHKMonLib/StateManager.cpp:157-164 | a loaded state has at most one entry per device name in each family, and a list that is present is non-empty |
| StateManager.SpacedNameIsDropped | src/WinHKMonLib/StateManager.cpp:86-96 | a line for a device whose name has a space after a first word without underscores is dropped by `load` |
| StateManager.FirstTokenIs | src/WinHKMonLib/StateManager.cpp:86 | `iss >> key` stops at the first space |
| StateManager.ShortKeyIsSkipped | src/WinHKMonLib/StateManager.cpp:91-96 | a key with no underscore after its family prefix names no device and is skipped |
| StateManager.SpacedInterfaceIsLost | src/WinHKMonLib/StateManager.cpp:86-96 | an interface named "Ethernet 2" is saved but does not come back: the loaded state has no interfaces |
| StateManager.DroppedDeviceLeavesNothing | src/WinHKMonLib/StateManager.cpp:86-96 | neither line of a device whose name has a space after a first word without underscores changes the devices read |
| StateManager.UnderscoredSpacedNameMakesPhantom | src/WinHKMonLib/StateManager.cpp:86-121 | both lines of the interface "my_eth 2" parse as device "my" with the unknown field "eth" and value 2, so load yields one interface "my" with zero counters |
| StateManager.StateManager.constructor | src/WinHKMonLib/StateManager.cpp:8-9 | the manager remembers the state file it was given |
| StateManager.StateManager.Save | src/WinHKMonLib/StateManager.cpp:169-203 | false, with the file untouched, when it cannot be opened; otherwise the file is truncated and rewritten with the saved lines, and the result is whether the stream stayed good through the writes and the close |
| StateManager.StateManager.Load | src/WinHKMonLib/StateManager.cpp:31-41 | no file, or a file that cannot be opened, fails; otherwise the result is the parse of its lines |
| StateManager.Sanitized | src/WinHKMonLib/StateManager.cpp:21-29 | `sanitizeKey` as a function: tab, LF and CR become underscores; its properties are `SanitizedProperties` and `PlainNameIsKept` |
| StateManager.SaveLines | src/WinHKMonLib/StateManager.cpp:177-199 | the lines `save` writes; their layout is `SaveLinesHeader`, `SaveLinesInterfaces`, `SaveLinesDisks` and `SaveBlocks`, and their inverse is `SaveLoadRoundTrip` |
| StateManager.Tokenize | src/WinHKMonLib/StateManager.cpp:82-88 | `iss >> key >> value`; its properties are `TokenizeAt`, `TokenizeKeyValue` and `FirstTokenIs` |
| StateManager.ClassifyKey | src/WinHKMonLib/StateManager.cpp:91-96 | the family prefix, the last-underscore split and the short-key check of `load`; its properties are `ClassifyCounterKey` and `ShortKeyIsSkipped` |
| StateManager.ReadBody | src/WinHKMonLib/StateManager.cpp:79-155 | the body loop of `load` as a function; its properties are `ReadBodyAppend`, `SkipsUnparsableLine`, `ReadFamilyLines`, `LastValueWins` and `ReadBodyKeepsNamesDistinct` |
| StateManager.ParseHeader | src/WinHKMonLib/StateManager.cpp:46-73 | the VERSION and TIMESTAMP checks of `load`; its properties are `LoadNeedsHeader`, `HeaderOfSave` and `HeaderExamples` |
| StateManager.ParseState | src/WinHKMonLib/StateManager.cpp:43-166 | what `load` yields from the file lines; its properties are `SaveLoadRoundTrip`, `LoadedNamesDistinct` and `SpacedInterfaceIsLost` |
| NetworkMonitor.GetCurrentStats | src/WinHKMonLib/NetworkMonitor.cpp:62-111 | a failed table query is an error; otherwise the loop yields exactly the non-loopback rows' stats, in table order |
| NetworkMonitor.InterfacesConcat | src/WinHKMonLib/NetworkMonitor.cpp:62-108 | filtering distributes over concatenation of tables |
| NetworkMonitor.InterfacesOfRow | src/WinHKMonLib/NetworkMonitor.cpp:65-68 | one row is dropped exactly when its type is 24 (software loopback) |
| NetworkMonitor.InterfacesFromRows | src/WinHKMonLib/NetworkMonitor.cpp:62-108 | every reported interface comes from a non-loopback row, with the octet counters copied and both rates 0 |
| NetworkMonitor.InterfacesKeepRows | src/WinHKMonLib/NetworkMonitor.cpp:62-108 | every non-loopback row is reported |
| NetworkMonitor.NotContainsWithoutFirstChar | src/WinHKMonLib/NetworkMonitor.cpp:127-136 | `find` cannot succeed where the pattern's first character never occurs |
| NetworkMonitor.Less | src/WinHKMonLib/NetworkMonitor.cpp:120-143 | different (wrapping) totals compare by size; on equal totals, b outranks a exactly when b is Ethernet-like and a Wi-Fi-like, unless a is Ethernet-like and b Wi-Fi-like |
| NetworkMonitor.BestIndex | src/WinHKMonLib/NetworkMonitor.cpp:119-144 | the pick of the left-to-right scan is an index of the list |
| NetworkMonitor.SelectPrimaryInterface | src/WinHKMonLib/NetworkMonitor.cpp:113-147 | "" for an empty list; otherwise the name at the index the scan stops at, which is an element of the list |
| NetworkMonitor.BestHasMaximalTotal | src/WinHKMonLib/NetworkMonitor.cpp:119-144 | no interface has a larger (wrapping) total than the pick |
| NetworkMonitor.NothingAfterBestOutranksIt | src/WinHKMonLib/NetworkMonitor.cpp:119-144 | no interface after the pick outranks it under the comparator |
| NetworkMonitor.EarlierInterfacesHaveLessTraffic | src/WinHKMonLib/NetworkMonitor.cpp:119-144 | every interface before the pick has less traffic, unless the pick won a tie as Ethernet-like |
| NetworkMonitor.FirstOfEqualsWins | src/WinHKMonLib/NetworkMonitor.cpp:119-144 | with no Ethernet-like interface, the pick is the first of those with the largest total |
| NetworkMonitor.BestOfTwo | src/WinHKMonLib/NetworkMonitor.cpp:119-144 | over two interfaces the second is picked exactly when the first ranks below it |
| NetworkMonitor.EthernetAndWifiClasses | src/WinHKMonLib/NetworkMonitor.cpp:127-136 | "Ethernet" is Ethernet-like and not Wi-Fi-like; "Wi-Fi" is Wi-Fi-like and not Ethernet-like |
| NetworkMonitor.SelectionExamples | src/WinHKMonLib/NetworkMonitor.cpp:119-144 | Ethernet beats Wi-Fi on a tie in either order; more traffic beats the tie-break; a total that wraps past 2^64 counts as small |
| NetworkMonitor.IsLoopback | src/WinHKMonLib/NetworkMonitor.cpp:149-152 | type 24 (software loopback) and no other; used by `InterfacesOfRow` |
| NetworkMonitor.Interfaces | src/WinHKMonLib/NetworkMonitor.cpp:62-108 | the interface list built from the table; its properties are `InterfacesFromRows`, `InterfacesKeepRows` and `InterfacesConcat` |
| NetworkMonitor.Total | src/WinHKMonLib/NetworkMonitor.cpp:121-122 | in + out octets, wrapped modulo 2^64; used by `BestHasMaximalTotal` and `SelectionExamples` |
| NetworkMonitor.IsEthernetLike | src/WinHKMonLib/NetworkMonitor.cpp:127-130 | "Ethernet" in the name or the description; see `EthernetAndWifiClasses` |
| NetworkMonitor.IsWifiLike | src/WinHKMonLib/NetworkMonitor.cpp:131-136 | "Wi-Fi", "WiFi" or "Wireless" in the name; see `EthernetAndWifiClasses` |
| DiskMonitor.FirstIndexOf | src/WinHKMonLib/DiskMonitor.cpp:47 | `find`: the index holds the character and no earlier index does; -1 when it is absent |
| DiskMonitor.ExtractFriendlyDiskName | src/WinHKMonLib/DiskMonitor.cpp:40-55 | "_Total" is kept; otherwise a changed result is the non-empty text after the first space; an unchanged one means no space before the last character |
| DiskMonitor.ExtractDriveLetter | src/WinHKMonLib/DiskMonitor.cpp:321-336 | "L:" exactly when the character before the first colon is an ASCII letter L; otherwise "" |
| DiskMonitor.FriendlyNameExamples | src/WinHKMonLib/DiskMonitor.cpp:40-55 | "0 C:" gives "C:", "1 D: E:" gives "D: E:", "_Total" and "0 " stay as they are |
| DiskMonitor.DriveLetterExamples | src/WinHKMonLib/DiskMonitor.cpp:321-336 | "0 C:" gives "C:"; "_Total", ":C" and "0 1:" give "" |
| DiskMonitor.UsedSpace | src/WinHKMonLib/DiskMonitor.cpp:312-314 | used + free = total when total > free, else 0; never above the total |
| DiskMonitor.GetDiskSpace | src/WinHKMonLib/DiskMonitor.cpp:295-319 | all zero when the query fails; otherwise the reported total and free, and used never above total |
| DiskMonitor.StrLessIrreflexive | include/WinHKMonLib/DiskMonitor.h:91 | the key order of `std::map<std::string, …>` is irreflexive |
| DiskMonitor.StrLessTransitive | include/WinHKMonLib/DiskMonitor.h:91 | that order is transitive |
| DiskMonitor.StrLessTotal | include/WinHKMonLib/DiskMonitor.h:91 | that order is total on distinct strings |
| DiskMonitor.Insert | src/WinHKMonLib/DiskMonitor.cpp:292 | `counters_[name] = …` holds exactly the old keys and the name |
| DiskMonitor.InsertKeepsOrder | src/WinHKMonLib/DiskMonitor.cpp:292 | inserting keeps the keys strictly ascending |
| DiskMonitor.InstanceNames | src/WinHKMonLib/DiskMonitor.cpp:116-130 | the names read from the multi-string buffer are its entries up to the first empty one |
| DiskMonitor.RegisteredContents | src/WinHKMonLib/DiskMonitor.cpp:117-130 | registration keeps the keys ordered and adds exactly the listed names whose three counters could be added; failures are swallowed |
| DiskMonitor.InitialKeysContents | src/WinHKMonLib/DiskMonitor.cpp:98-144 | `initialize` keeps the listed names it could register; with none, "_Total" alone if it can be added, else it fails |
| DiskMonitor.DiskEntriesProperties | src/WinHKMonLib/DiskMonitor.cpp:176-246 | one entry per key in key order, named by the friendly name; unreadable counters read 0; used ≤ total; no drive letter means no space figures; cumulative totals 0 |
| DiskMonitor.DiskMonitor.constructor | src/WinHKMonLib/DiskMonitor.cpp:60-62 | no query, no counters, not initialised |
| DiskMonitor.DiskMonitor.AddDiskCounters | src/WinHKMonLib/DiskMonitor.cpp:261-293 | the instance is stored, in key order, only when all three of its counters were added |
| DiskMonitor.DiskMonitor.Cleanup | src/WinHKMonLib/DiskMonitor.cpp:251-259 | ends with no query, no counters and not initialised, whatever the state before |
| DiskMonitor.DiskMonitor.Initialize | src/WinHKMonLib/DiskMonitor.cpp:68-155 | a no-op when initialised; otherwise succeeds exactly when the query opens, some counter is registered and the baseline sample is taken, with the keys `InitialKeys` names; every failure leaves it cleaned up |
| DiskMonitor.DiskMonitor.GetCurrentStats | src/WinHKMonLib/DiskMonitor.cpp:157-249 | refused when uninitialised or when the sample fails; otherwise the entries of `DiskEntries` for the current keys |
| DiskMonitor.ReadDisk | src/WinHKMonLib/DiskMonitor.cpp:177-245 | one turn of the stats loop yields `DiskEntry` for its key |
| DiskMonitor.InstanceNamesPrefix | src/WinHKMonLib/DiskMonitor.cpp:117-130 | when entry i is the first empty one, the names are the entries before it |
| DiskMonitor.StrLess | include/WinHKMonLib/DiskMonitor.h:91 | the key order of `std::map<std::string, …>`; a strict total order by `StrLessIrreflexive`, `StrLessTransitive` and `StrLessTotal` |
| DiskMonitor.DiskEntries | src/WinHKMonLib/DiskMonitor.cpp:176-246 | the stats `getCurrentStats` reports, one per key; its properties are `DiskEntriesProperties` |
| CpuMonitor.Clamp | src/WinHKMonLib/CpuMonitor.cpp:103-104 | the result lies in [0, 100], equals the input when it already does, and is the nearer bound otherwise |
| CpuMonitor.AverageFrequency | src/WinHKMonLib/CpuMonitor.cpp:189-196 | 0 for no cores; otherwise the floor of the 64-bit wrapped sum divided by the count |
| CpuMonitor.CalculateAverageFrequency | src/WinHKMonLib/CpuMonitor.cpp:189-196 | 0 for no cores; otherwise the accumulated sum divided by the count, which is `AverageFrequency` |
| CpuMonitor.Accumulate | src/WinHKMonLib/CpuMonitor.cpp:194 | the `std::accumulate` loop with unsigned 64-bit additions yields the sum of the frequencies modulo 2^64 |
| CpuMonitor.WrappedSumStep | src/WinHKMonLib/CpuMonitor.cpp:194 | one more wrapped addition extends the wrapped sum of a prefix by one element |
| CpuMonitor.SumBounds | src/WinHKMonLib/CpuMonitor.cpp:194 | a sum of n values in [lo, hi] lies in [lo·n, hi·n] |
| CpuMonitor.AverageWithinRange | src/WinHKMonLib/CpuMonitor.cpp:189-196 | when the sum does not wrap, the average lies between the slowest and the fastest core |
| CpuMonitor.SampleProperties | src/WinHKMonLib/CpuMonitor.cpp:94-141 | fails exactly when a usage counter is unreadable; otherwise every usage is in [0, 100], there are coreCount cores with core i numbered i, core i has the i-th reported frequency or 0 past the reported ones, the average is `AverageFrequency`, and a failed frequency query gives 0 everywhere |
| CpuMonitor.CpuMonitor.constructor | src/WinHKMonLib/CpuMonitor.cpp:10-16 | no query, no handles, no cores, not initialised |
| CpuMonitor.CpuMonitor.Cleanup | src/WinHKMonLib/CpuMonitor.cpp:149-159 | ends with no query, no handles, a core count of 0 and not initialised, whatever the state before |
| CpuMonitor.CpuMonitor.Initialize | src/WinHKMonLib/CpuMonitor.cpp:22-79 | a no-op when initialised; otherwise succeeds exactly when every step succeeds, leaving processorCount cores; every failure leaves the query closed and the monitor uninitialised |
| CpuMonitor.CpuMonitor.GetCurrentStats | src/WinHKMonLib/CpuMonitor.cpp:81-147 | refused when uninitialised or when the sample fails; otherwise `CpuSample` of the readings |
| CpuMonitor.ReadCoreUsages | src/WinHKMonLib/CpuMonitor.cpp:107-122 | fails exactly when some core's counter is unreadable; otherwise core k has id k and its clamped usage |
| CpuMonitor.WithFrequencies | src/WinHKMonLib/CpuMonitor.cpp:129-131 | core k takes the k-th reported frequency while there is one; nothing else changes |
| CpuMonitor.WithoutFrequencies | src/WinHKMonLib/CpuMonitor.cpp:135-140 | every core's frequency becomes 0; nothing else changes |
| CpuMonitor.CpuSample | src/WinHKMonLib/CpuMonitor.cpp:94-141 | the stats one sample yields; its properties are `SampleProperties` |
| CpuMonitor.CoreFrequency | src/WinHKMonLib/CpuMonitor.cpp:107-141 | the frequency a core is given: 0 after a failed query, the i-th reported one, or the 0 that `resize` value-initialised; see `SampleProperties` |
| MemoryMonitor.UsedBytes | src/WinHKMonLib/MemoryMonitor.cpp:23 | used + available wraps to the total; used ≤ total when available ≤ total |
| MemoryMonitor.UsagePercent | src/WinHKMonLib/MemoryMonitor.cpp:26-31 | 0 for a zero total; otherwise percent × total = used × 100 |
| MemoryMonitor.GetCurrentStats | src/WinHKMonLib/MemoryMonitor.cpp:7-51 | a failed query is an error, never partial stats; otherwise the reported figures, the derived used bytes and percentages, and no cache or commit figures |
| MemoryMonitor.PercentOfPart | src/WinHKMonLib/MemoryMonitor.cpp:26-31 | a part of the total is between 0 and 100 percent of it |
| MemoryMonitor.PercentagesInRange | src/WinHKMonLib/MemoryMonitor.cpp:21-44 | when available ≤ total for both, used is the plain difference and both percentages lie in [0, 100] |
| MemoryMonitor.OverReportWraps | src/WinHKMonLib/MemoryMonitor.cpp:23-31 | when more is available than the total, the subtraction wraps: used exceeds the total and the percentage exceeds 100 |
| TempMonitor.InitResultMessage | src/WinHKMonLib/TempMonitor.cpp:284-308 | every message is non-empty and starts with its result's summary line |
| TempMonitor.MessageNamesItsCause | src/WinHKMonLib/TempMonitor.cpp:284-308 | each message contains its keyword: "success", "dministrator", "sensor", "driver" or "dll" |
| TempMonitor.SummaryStartsWithInitial | src/WinHKMonLib/TempMonitor.cpp:284-304 | each summary line starts with a letter no other result's line starts with |
| TempMonitor.MessagesDistinct | src/WinHKMonLib/TempMonitor.cpp:284-308 | different result codes get different messages |
| TempMonitor.Impl.constructor | src/WinHKMonLib/TempMonitor.cpp:80 | no computer object and no CPU sensors |
| TempMonitor.Impl.Initialize | src/WinHKMonLib/TempMonitor.cpp:86-96 | the stub always reports the library as missing |
| TempMonitor.Impl.GetCurrentStats | src/WinHKMonLib/TempMonitor.cpp:142-152 | the stub never yields stats |
| TempMonitor.Impl.Cleanup | src/WinHKMonLib/TempMonitor.cpp:208-216 | ends with no computer object and no CPU sensors |
| TempMonitor.TempMonitor.constructor | src/WinHKMonLib/TempMonitor.cpp:242-246 | a new monitor is uninitialised |
| TempMonitor.TempMonitor.Initialize | src/WinHKMonLib/TempMonitor.cpp:253-267 | NO_ADMIN without admin rights; otherwise the implementation's result; initialised only on SUCCESS, so with the stub the state never changes |
| TempMonitor.TempMonitor.GetCurrentStats | src/WinHKMonLib/TempMonitor.cpp:269-275 | no stats: none when uninitialised, and the stub yields none |
| TempMonitor.TempMonitor.Cleanup | src/WinHKMonLib/TempMonitor.cpp:277-282 | always ends uninitialised; cleans the implementation only when it was initialised |
| TempMonitor.Lifecycle | src/WinHKMonLib/TempMonitor.cpp:242-282 | a new monitor initialised with or without admin rights reports LIBRARY_MISSING or NO_ADMIN and yields no stats |
| CliParser.Upper | src/WinHKMonLib/CliParser.cpp:12-17 | upper-casing keeps the length |
| CliParser.ToUpper | src/WinHKMonLib/CliParser.cpp:12-17 | the in-place transform of a copy yields `Upper(s)` |
| CliParser.UpperMatchesIgnoringCase | src/WinHKMonLib/CliParser.cpp:79-114 | a token upper-cases to an upper-case word exactly when it spells that word in any mix of cases |
| CliParser.UpperIdempotent | src/WinHKMonLib/CliParser.cpp:12-17 | upper-casing twice is upper-casing once |
| CliParser.ExponentAt | src/WinHKMonLib/CliParser.cpp:150 | an exponent that was read ends after its start and inside the text |
| CliParser.ReadsWholeNumber | src/WinHKMonLib/CliParser.cpp:150 | the digits of a whole number read as that number |
| CliParser.WholeNumberRoundTrip | src/WinHKMonLib/CliParser.cpp:150 | `stod` of the decimal text of n is n |
| CliParser.NotANumber | src/WinHKMonLib/CliParser.cpp:150 | a text starting with neither white space, a sign, a digit nor a point is not a number |
| CliParser.IntervalOf | src/WinHKMonLib/CliParser.cpp:149-159 | for the decimal numbers `ReadDouble` reads, an interval is accepted exactly when the text starts with a number in [0.1, 3600], and it is that number ("nan" is under Left out) |
| CliParser.TokenStep | src/WinHKMonLib/CliParser.cpp:82-196 | a branch that continues moves past its token, and not beyond the end |
| CliParser.ParseToken | src/WinHKMonLib/CliParser.cpp:77-197 | one turn of the loop that continues moves past its token, and not beyond the end |
| CliParser.ParseArguments | src/WinHKMonLib/CliParser.cpp:68-210 | the loop over argv yields exactly `ParseArgumentsSpec(argv)` |
| CliParser.ParseOne | src/WinHKMonLib/CliParser.cpp:78-196 | the if-chain of the loop body yields exactly `ParseToken` |
| CliParser.ParseValue | src/WinHKMonLib/CliParser.cpp:121-183 | the value handling of the four value flags yields exactly `ApplyValue` |
| CliParser.UpperOfUpperWord | src/WinHKMonLib/CliParser.cpp:12-17 | an upper-case word is its own upper case |
| CliParser.FlagIsNoKeyword | src/WinHKMonLib/CliParser.cpp:20-22 | no token starting with a dash is a keyword in any case |
| CliParser.KeywordIsNoFlag | src/WinHKMonLib/CliParser.cpp:82-114 | a keyword in any case is neither a flag nor help nor version |
| CliParser.ApplyValueFacts | src/WinHKMonLib/CliParser.cpp:117-184 | a value flag never sets help or version, and changes the interval only to one in range |
| CliParser.TokenStepKeeps | src/WinHKMonLib/CliParser.cpp:82-196 | every branch keeps the interval in range and ends the parse only on help, version or an error |
| CliParser.StepFacts | src/WinHKMonLib/CliParser.cpp:77-197 | the same for the branch a token actually takes |
| CliParser.TokenIgnoresLaterTokens | src/WinHKMonLib/CliParser.cpp:77-197 | a token that does not run out of tokens reads nothing after its value |
| CliParser.TokenStepExtends | src/WinHKMonLib/CliParser.cpp:82-196 | the same, branch by branch |
| CliParser.EarlyReturnIgnoresLaterTokens | src/WinHKMonLib/CliParser.cpp:82-91 | once help or version ends the parse, tokens after it are never read |
| CliParser.HelpFirst | src/WinHKMonLib/CliParser.cpp:82-85 | a leading --help or -h gives the defaults with help set, whatever follows, with no metric needed |
| CliParser.VersionFirst | src/WinHKMonLib/CliParser.cpp:88-91 | a leading --version or -v gives the defaults with version set, whatever follows |
| CliParser.NoArgumentsRejected | src/WinHKMonLib/CliParser.cpp:72-74 | with no token after the program name the parse fails with the "No arguments provided" message |
| CliParser.KeywordSetsItsFlag | src/WinHKMonLib/CliParser.cpp:94-114 | CPU, RAM, DISK, IO, NET, TEMP and LINE in any case set showCpu, showMemory, showDiskSpace, showDiskIO, showNetwork, showTemp and singleLine, and nothing else |
| CliParser.ValueFlagConsumesNextToken | src/WinHKMonLib/CliParser.cpp:117-169 | a value flag as the last token fails with its own message; --interface takes the next token whatever it is |
| CliParser.InterfaceFlagKind | src/WinHKMonLib/CliParser.cpp:163 | "--interface" takes the interface-flag branch |
| CliParser.InterfaceValueMayBeAFlag | src/WinHKMonLib/CliParser.cpp:163-168 | in `NET --interface --help` the "--help" is the interface name, not a request for help |
| CliParser.FormatRule | src/WinHKMonLib/CliParser.cpp:117-132 | --format accepts TEXT, JSON and CSV in any case and sets that format; any other value fails with a message quoting it |
| CliParser.UnitsRule | src/WinHKMonLib/CliParser.cpp:171-184 | --net-units accepts BITS and BYTES in any case and sets that unit; any other value fails |
| CliParser.IntervalRule | src/WinHKMonLib/CliParser.cpp:145-160 | for the decimal numbers `ReadDouble` reads, --interval accepts exactly a text starting with a number in [0.1, 3600]; every rejection carries "Invalid interval value" ("nan" is under Left out) |
| CliParser.IntervalExamples | src/WinHKMonLib/CliParser.cpp:149-159 | "5" is accepted as 5; "0", "3601" and "abc" are refused |
| CliParser.InterfaceNameNeedsNet | src/WinHKMonLib/CliParser.cpp:187-196 | a plain token names the interface once NET was seen, and is an "Invalid metric or flag" error before |
| CliParser.ParsedOptionsAreValid | src/WinHKMonLib/CliParser.cpp:77-209 | in the model, from options with a valid interval, a successful parse has a valid interval and a metric selected, unless help or version was asked for (the source also lets "--interval nan" through; see Left out) |
| CliParser.ParseResultIsValid | src/WinHKMonLib/CliParser.cpp:68-210 | in the model, every successful parse has an interval in [0.1, 3600] and some metric selected, unless help or version was asked for (the source also lets "--interval nan" through; see Left out) |
| CliParser.LineAloneRejected | src/WinHKMonLib/CliParser.cpp:200-207 | LINE alone selects no metric and fails with the "At least one metric" message |
| CliParser.ReadDouble | src/WinHKMonLib/CliParser.cpp:150 | `std::stod`: the number at the start of the text after white space (sign, digits, fraction, exponent), or none; its properties are `ReadsWholeNumber`, `WholeNumberRoundTrip`, `NotANumber` and `IntervalOf` |
| CliParser.KindOf | src/WinHKMonLib/CliParser.cpp:81-196 | which branch of the if-chain a token takes: exact help and version first, then case-free keywords, then the value flags, then the interface name after NET; its properties are `FlagIsNoKeyword`, `KeywordIsNoFlag` and `InterfaceFlagKind` |
| CliParser.ApplyValue | src/WinHKMonLib/CliParser.cpp:117-184 | what a value flag does with its value; its properties are `ApplyValueFacts`, `FormatRule`, `UnitsRule` and `IntervalRule` |
| CliParser.ParseFrom | src/WinHKMonLib/CliParser.cpp:77-209 | the loop from token i on, then the final metric check; its properties are `ParsedOptionsAreValid` and `EarlyReturnIgnoresLaterTokens` |
| CliParser.ParseArgumentsSpec | src/WinHKMonLib/CliParser.cpp:68-210 | `parseArguments` as a function; its properties are `ParseResultIsValid`, `HelpFirst`, `VersionFirst`, `NoArgumentsRejected` and `LineAloneRejected` |
| OutputFormatter.EscapeJsonAppend | src/WinHKMonLib/OutputFormatter.cpp:15-26 | escaping one more character appends exactly that character's escape |
| OutputFormatter.EscapeJson | src/WinHKMonLib/OutputFormatter.cpp:11-29 | the appending loop yields the escape of every character, in order |
| OutputFormatter.EscapeJsonLength | src/WinHKMonLib/OutputFormatter.cpp:11-29 | the output is as long as the input plus the number of the seven special characters |
| OutputFormatter.NoSpecialCounted | src/WinHKMonLib/OutputFormatter.cpp:15-26 | the special count is 0 exactly when no character is special |
| OutputFormatter.EscapeJsonUnchangedIff | src/WinHKMonLib/OutputFormatter.cpp:11-29 | the escaper changes its input exactly when it holds a quote, backslash, LF, CR, TAB, BS or FF |
| OutputFormatter.EscapeJsonOfPlain | src/WinHKMonLib/OutputFormatter.cpp:24 | a text without special characters is copied unchanged |
| OutputFormatter.OtherControlCharactersStayRaw | src/WinHKMonLib/OutputFormatter.cpp:24 | any other control character below U+0020 is copied raw, which section 7 of RFC 8259 does not allow |
| OutputFormatter.JsonRoundTrip | src/WinHKMonLib/OutputFormatter.cpp:11-29 | decoding the escaped text gives the input back |
| OutputFormatter.DoubleQuotesAppend | src/WinHKMonLib/OutputFormatter.cpp:42-48 | one more character adds "" for a quote and the character itself otherwise |
| OutputFormatter.EscapeCsv | src/WinHKMonLib/OutputFormatter.cpp:32-52 | the quoting loop yields the input unchanged, or in quotes with each quote doubled |
| OutputFormatter.DoubleQuotesLength | src/WinHKMonLib/OutputFormatter.cpp:42-48 | doubling quotes never shortens the text |
| OutputFormatter.EscapeCsvUnchangedIff | src/WinHKMonLib/OutputFormatter.cpp:33-39 | the field is left alone exactly when it holds no comma, quote or LF |
| OutputFormatter.CarriageReturnIsNotQuoted | src/WinHKMonLib/OutputFormatter.cpp:33-35 | a CR alone does not cause quoting |
| OutputFormatter.CollapseDoubled | src/WinHKMonLib/OutputFormatter.cpp:42-48 | collapsing "" back to " undoes quote doubling |
| OutputFormatter.CsvRoundTrip | src/WinHKMonLib/OutputFormatter.cpp:41-51 | stripping the outer quotes of a quoted field and collapsing "" gives the input back (section 2 of RFC 4180) |
| Decimal.PowMonotone | src/WinHKMonLib/OutputFormatter.cpp:56-58 | powers of a base of at least 1 grow with the exponent |
| Decimal.SkipSpaces | src/WinHKMonLib/StateManager.cpp:86 | the leading white space `>>` and `stoull` skip; used by `ParseUnsignedOfDecimal` and `TokenizeAt` |
| OutputFormatter.UnitIsUnique | src/WinHKMonLib/OutputFormatter.cpp:63-71 | at most one unit fits a value |
| OutputFormatter.UnitExists | src/WinHKMonLib/OutputFormatter.cpp:63-71 | some unit always fits a value |
| OutputFormatter.FormatBytesPicksUnit | src/WinHKMonLib/OutputFormatter.cpp:55-74 | sizes are shown in the one binary unit (thresholds 1024³, 1024², 1024) that fits them |
| OutputFormatter.FormatBytesPerSecPicksUnit | src/WinHKMonLib/OutputFormatter.cpp:85-100 | byte rates are shown in the one decimal unit (thresholds 10^9, 10^6, 10^3) that fits them |
| OutputFormatter.FormatBitsPerSecPicksUnit | src/WinHKMonLib/OutputFormatter.cpp:103-118 | bit rates are shown in the one decimal unit that fits them |
| OutputFormatter.SmallValuesAreExact | src/WinHKMonLib/OutputFormatter.cpp:69-70 | below the first threshold the exact integer is printed, followed by " B", " B/s" or " bps" |
| OutputFormatter.Emit | src/WinHKMonLib/OutputFormatter.cpp:156-158 | streaming one line appends it and the separator to the output |
| OutputFormatter.EmitCpu | src/WinHKMonLib/OutputFormatter.cpp:149-159 | the CPU branch streams exactly the CPU part of the report |
| OutputFormatter.EmitMemory | src/WinHKMonLib/OutputFormatter.cpp:161-171 | the memory branch streams exactly the RAM part of the report |
| OutputFormatter.EmitDiskSpace | src/WinHKMonLib/OutputFormatter.cpp:173-192 | the disk-space branch streams exactly the DISK part of the report |
| OutputFormatter.EmitDiskIo | src/WinHKMonLib/OutputFormatter.cpp:194-209 | the disk-I/O branch streams exactly the IO part of the report |
| OutputFormatter.EmitNetwork | src/WinHKMonLib/OutputFormatter.cpp:211-228 | the network branch streams exactly the NET part of the report |
| OutputFormatter.EmitTemperature | src/WinHKMonLib/OutputFormatter.cpp:230-241 | the temperature branch streams exactly the TEMP part of the report |
| OutputFormatter.DiskSpaceLines | src/WinHKMonLib/OutputFormatter.cpp:174-192 | one DISK line per disk |
| OutputFormatter.DiskIoLines | src/WinHKMonLib/OutputFormatter.cpp:195-209 | one IO line per disk |
| OutputFormatter.NetworkLines | src/WinHKMonLib/OutputFormatter.cpp:212-228 | one NET line per interface |
| OutputFormatter.FormatBytesEnd | src/WinHKMonLib/OutputFormatter.cpp:55-74 | a formatted size is non-empty and ends in "B" |
| OutputFormatter.RatesEnd | src/WinHKMonLib/OutputFormatter.cpp:85-118 | a formatted rate is non-empty and ends in "s" |
| OutputFormatter.DiskSpaceLinesAt | src/WinHKMonLib/OutputFormatter.cpp:175-191 | line i of the DISK block is disk i's line |
| OutputFormatter.DiskIoLinesAt | src/WinHKMonLib/OutputFormatter.cpp:196-208 | line i of the IO block is disk i's line |
| OutputFormatter.NetworkLinesAt | src/WinHKMonLib/OutputFormatter.cpp:213-227 | line i of the NET block is interface i's line |
| OutputFormatter.DiskSpaceLinesVisible | src/WinHKMonLib/OutputFormatter.cpp:175-191 | every DISK line is non-empty, does not start with "(" and does not end in a blank |
| OutputFormatter.DiskIoLinesVisible | src/WinHKMonLib/OutputFormatter.cpp:196-208 | the same for every IO line |
| OutputFormatter.NetworkLinesVisible | src/WinHKMonLib/OutputFormatter.cpp:213-227 | the same for every NET line |
| OutputFormatter.TempLineVisible | src/WinHKMonLib/OutputFormatter.cpp:231-241 | the same for the TEMP line |
| OutputFormatter.ReportLinesVisible | src/WinHKMonLib/OutputFormatter.cpp:149-241 | the same for every line of the report |
| OutputFormatter.JoinEnds | src/WinHKMonLib/OutputFormatter.cpp:250-254 | joined lines start with the first line's first character and end with the last line's last character |
| OutputFormatter.NoLinesIffNothingToShow | src/WinHKMonLib/OutputFormatter.cpp:149-241 | the report has no lines exactly when nothing is shown: every family absent, the disk families empty or not selected, the interface list empty |
| OutputFormatter.PlaceholderIffNothingToShow | src/WinHKMonLib/OutputFormatter.cpp:243-248 | the output is "(no metrics)", with a newline in multi-line mode, exactly when there is nothing to show |
| OutputFormatter.EmptySnapshotShowsPlaceholder | src/WinHKMonLib/OutputFormatter.cpp:140-257 | a snapshot with no metric family is shown as "(no metrics)" alone (with a newline in multi-line mode), whatever the options |
| OutputFormatter.ReportEnds | src/WinHKMonLib/OutputFormatter.cpp:243-256 | the output is never empty; in single-line mode it never ends in a blank (no trailing separator); in multi-line mode it ends in a newline |
| OutputFormatter.TerminatedAppend | src/WinHKMonLib/OutputFormatter.cpp:158 | streaming one more line and its separator appends exactly those |
| OutputFormatter.TerminatedIsJoined | src/WinHKMonLib/OutputFormatter.cpp:250-254 | each line followed by the separator is the joined lines plus one final separator, the one single-line mode removes |
| OutputFormatter.FormatText | src/WinHKMonLib/OutputFormatter.cpp:140-257 | the streaming code, the placeholder and the removal of the final two spaces yield exactly `FormatTextSpec` |
| OutputFormatter.EmitLines | src/WinHKMonLib/OutputFormatter.cpp:175-191 | the per-disk or per-interface loop streams each line followed by the separator |
| OutputFormatter.EscapeJsonSpec | src/WinHKMonLib/OutputFormatter.cpp:11-29 | `escapeJson` as a function; its properties are `EscapeJsonLength`, `EscapeJsonUnchangedIff` and `JsonRoundTrip` |
| OutputFormatter.EscapeCsvSpec | src/WinHKMonLib/OutputFormatter.cpp:32-52 | `escapeCsv` as a function; its properties are `EscapeCsvUnchangedIff`, `CarriageReturnIsNotQuoted` and `CsvRoundTrip` |
| OutputFormatter.FormatBytes | src/WinHKMonLib/OutputFormatter.cpp:55-74 | `formatBytes`; its properties are `FormatBytesPicksUnit`, `SmallValuesAreExact` and `FormatBytesEnd` |
| OutputFormatter.FormatFrequency | src/WinHKMonLib/OutputFormatter.cpp:77-82 | `formatFrequency`: the MHz value divided by 1000, rendered by `fixed`, then " GHz" |
| OutputFormatter.FormatBytesPerSec | src/WinHKMonLib/OutputFormatter.cpp:85-100 | `formatBytesPerSec`; its properties are `FormatBytesPerSecPicksUnit`, `SmallValuesAreExact` and `RatesEnd` |
| OutputFormatter.FormatBitsPerSec | src/WinHKMonLib/OutputFormatter.cpp:103-118 | `formatBitsPerSec`; its properties are `FormatBitsPerSecPicksUnit`, `SmallValuesAreExact` and `RatesEnd` |
| OutputFormatter.CpuLine | src/WinHKMonLib/OutputFormatter.cpp:149-159 | the CPU line in either mode; see `ReportLinesVisible` |
| OutputFormatter.MemoryLine | src/WinHKMonLib/OutputFormatter.cpp:161-171 | the RAM line in either mode; see `ReportLinesVisible` |
| OutputFormatter.DiskSpaceLine | src/WinHKMonLib/OutputFormatter.cpp:175-191 | one disk's DISK line; see `DiskSpaceLinesAt` and `DiskSpaceLinesVisible` |
| OutputFormatter.DiskIoLine | src/WinHKMonLib/OutputFormatter.cpp:196-208 | one disk's IO line; see `DiskIoLinesAt` and `DiskIoLinesVisible` |
| OutputFormatter.NetworkLine | src/WinHKMonLib/OutputFormatter.cpp:213-227 | one interface's NET line, with bit rates wrapped modulo 2^64; see `NetworkLinesAt` and `NetworkLinesVisible` |
| OutputFormatter.TempLine | src/WinHKMonLib/OutputFormatter.cpp:230-241 | the TEMP line in either mode; see `TempLineVisible` |
| OutputFormatter.FormatTextSpec | src/WinHKMonLib/OutputFormatter.cpp:140-257 | `formatText` as a function; its properties are `NoLinesIffNothingToShow`, `PlaceholderIffNothingToShow`, `ReportEnds` and `EmptySnapshotShowsPlaceholder` |

## Left out

- All Windows calls (PDH, the interface table, the memory status, the free-space query, the power information, the performance counter and its frequency, the administrator check, wide-to-UTF-8 conversion). Each is an input value or a success flag.
- State file I/O: the temporary-directory path, the existence check, opening the streams and the stream state after writing. They are a `stateFile` field and the `canOpen` and `writeOk` flags. Splitting the file into lines is part of the input.
- Timing: the 100 ms sleep in the disk sampler, and any gap required between samples.
- `src/WinHKMon/main.cpp`: orchestration over a signal flag, sleeps and console output. It also calls functions the library headers do not declare.
- `getTimestampString`, `formatJson` and `formatCsv`: stream plumbing over floating-point fields and the wall clock.
- The commented-out hardware-monitor code in `TempMonitor.cpp`, which is not compiled.
- Floating point: doubles are reals. Decimal rendering with one fixed decimal is the uninterpreted parameter `fixed`. The model makes no bit-exact claim.
- CliParser.ReadDouble: `std::stod` is modelled for decimal text with an optional sign, fraction and exponent. Hexadecimal floats, "inf" and "nan" are not modelled: the model reads none of them. Neither is the `out_of_range` exception, which would escape `parseArguments` as a different exception. For "inf" the outcome is the same, since the source's range check at `CliParser.cpp:151` refuses infinity. For "nan" it is not: both comparisons are false for NaN, so the source stores NaN (line 156) and the parse succeeds where the model reports "Invalid interval value".
- CliParser.IntervalOf: the source accepts "nan" (and other NaN spellings `std::stod` reads) and stores NaN as the interval (`CliParser.cpp:150-156`). The model refuses it, so "exactly when in [0.1, 3600]" holds for the model only.
- CliParser.IntervalRule: as for `IntervalOf`, the source also accepts `--interval nan` with a NaN interval; the model refuses it.
- CliParser.ParsedOptionsAreValid: the interval guarantee holds for the model only. In the source `--interval nan` parses successfully with a NaN interval, which is not in [0.1, 3600].
- CliParser.ParseResultIsValid: the interval guarantee holds for the model only. In the source `--interval nan` parses successfully with a NaN interval, which is not in [0.1, 3600].
- CliParser.UpperChar: character classes follow the "C" locale.
- Decimal.ParseUnsigned: it reads digits only. `std::stoull` and `iss >> value` would also take a leading sign and negate a "-" value modulo 2^64. `save` never writes a sign.
- StateManager.StateManager.Save: when a write or the close fails (`writeOk` false) the result is false, but the file is still taken to hold the whole text; how much of it reached the disk is not modelled.
- StateManager.ParseState: a loaded state is the timestamp and per-family (name, counter, counter) records. The other fields of the C++ structs are zero or indeterminate there and are not modelled.
- StateManager.SaveLoadRoundTrip: the round trip is proved only for distinct, non-empty names without white space. With other names the code loses or merges devices, as `SpacedNameIsDropped` and `SpacedInterfaceIsLost` show. It can also invent one: when a name has an underscore before its first space, both of its lines load as a zero-counter device named after the text before the last underscore of the first word, as `UnderscoredSpacedNameMakesPhantom` shows for "my_eth 2".
- StateManager.DroppedDeviceLeavesNothing: it covers names whose first word has no underscore. Names with an underscore there are not dropped but misread, as in `UnderscoredSpacedNameMakesPhantom`.
- TempMonitor.InitResultMessage: the `default` branch ("Unknown initialization error") cannot be reached, because the result type has exactly five values.
- TempMonitor.MessagesDistinct: distinctness is proved through the first letters of the messages. The full texts' lengths are not stated.
- OutputFormatter.TempLine: the degree sign is one character; the source writes it as two UTF-8 bytes.
- OutputFormatter.DiskSpaceLine: the used percentage is a real quotient rendered by `fixed`.
- CpuMonitor.CpuMonitor.Initialize: the core count is read before the query opens. It therefore persists when opening the query or adding the total counter fails, and cleanup zeroes it on the later failures. The model states this as the source has it.
- NetworkMonitor.GetCurrentStats: network rates are always 0 in the source, so no per-device rate pipeline is modelled.
- DiskMonitor.DiskMonitor.AddDiskCounters: counters added to the query before a later one of the three fails stay in the query. The model tracks only the keys of `counters_`.
