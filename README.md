# A model of the bran/granola status bar

The program merges several polling applets (CPU, memory, date, volume) into
one status line for an i3bar-compatible host. It has these parts:

- Each applet has a runner with `Init`, `Run` and `Wait`.
- `statusbar.New` assigns each applet's configured values to its flags, then
  initialises every runner.
- `Statusbar.Listen` gives each applet a slot and an instance number, and
  starts one worker per applet.
- A worker stores each non-nil message of its runner in its own slot and
  publishes the whole slot array.
- `main` turns command-line descriptions such as `cpu:interval=2` into
  configured applets. It prints the protocol header, then one JSON array per
  published snapshot.
- An older registry (`applet/applet.go`) keeps applets in a global map keyed
  by name.
- The CPU applet reads `/proc/stat` and the thermal zone. The memory applet
  reads `/proc/meminfo`.

The model has one Dafny module per source file, plus three support modules:

| module | file | models |
|---|---|---|
| `Wrappers` | wrappers.dfy | `Option` and `Result` |
| `GoLib` | golib.dfy | the Go library behaviour the code relies on |
| `Json` | json.dfy | what `encoding/json` writes for the marshalled types, with a decoder proving the escaping reversible |
| `StatusbarApplet` | statusbar_applet.dfy | `statusbar/applet.go` |
| `Statusbar` | statusbar.dfy | `statusbar/statusbar.go` |
| `GranolaApplet` | granola_applet.dfy | `applet/applet.go` |
| `Setup` | setup.dfy | `main.go` |
| `Cpu` | cpu.dfy | `applet/cpu/cpu.go` |
| `Memory` | memory.dfy | `memory/memory.go` |

`GoLib` covers 64-bit wrap-around, Go's truncating division,
`strings.Fields`, `strings.TrimSpace`, `strconv.Atoi` and `strconv.Itoa`.

The shape of the model follows the shape of the code:

- **Loops become methods.** Each loop of the source is a method with a
  `while` loop, proved equal to a recursive function of its inputs. The
  source's promises are proved as lemmas about that function. Examples:
  - the two passes of `New`;
  - the numbering loop of `Listen`;
  - the validation and start-up loops of `Init`;
  - the descriptor loop of `setup`;
  - the scanner loops of the CPU and memory applets.
- **Objects whose fields change become classes.**
  - `Applet`, `Registry`, `CPU` and `Memory` are classes with `modifies`
    clauses.
  - The slot array of `Listen` is an `array`. One worker iteration is the
    method `Listener.Step`.
- **Concurrency becomes a sequence of events.** The workers' interleavings
  are modelled as sequences of `Step` events. `RunInvariant` holds for every
  order of events.
- **External outcomes become parameters.** These include:
  - what `flag.Value.Set` or a runner's `Init` returns;
  - the contents of `/proc/stat`, `/proc/meminfo` and the thermal-zone file;
  - the floating-point results.

## Model

| member | source | states |
|---|---|---|
| GoLib.Wrap64 | applet/cpu/cpu.go:41-45 | the result is the unique int64 congruent to the input modulo 2^64, and an int64 input is unchanged (Go's `int` arithmetic) |
| GoLib.QuoRemainder | applet/cpu/cpu.go:128 | Go's `/` truncates toward zero: the remainder is smaller than the divisor in magnitude and has the sign of the dividend |
| GoLib.QuoProduct | memory/memory.go:49 | quotient times divisor is the dividend with its magnitude rounded toward zero to a multiple of the divisor |
| GoLib.QuoNonNegative | applet/cpu/cpu.go:45 | for a non-negative dividend and a positive divisor, Go's quotient is the mathematical floor quotient |
| GoLib.FieldsAreWords | applet/cpu/cpu.go:86 | every field `strings.Fields` returns is non-empty and holds no white space |
| GoLib.FieldsCons | memory/memory.go:39 | leading white space, then a word ended by white space or by the end, gives that word as the first field |
| GoLib.FieldsJoinSpace | applet/cpu/cpu.go:86 | `Fields` splits a blank-joined list of words back into exactly those words |
| GoLib.TrimSpace | applet/cpu/cpu.go:121 | the trimmed text neither starts nor ends with white space and is no longer than the input |
| GoLib.TrimSpacePadded | applet/cpu/cpu.go:121 | `TrimSpace` removes exactly the white space around a body that neither starts nor ends with white space |
| GoLib.Atoi | applet/cpu/cpu.go:89 | a successful parse is the decimal value of an optionally signed all-digit text and fits in 64 bits; a failed parse gives 0 or a 64-bit bound |
| GoLib.AtoiSyntax | applet/cpu/cpu.go:89 | the empty text, a lone sign, and a text with a non-digit among the first 19 characters after its sign are syntax errors: value 0 and an error |
| GoLib.AtoiNotNumber | applet/cpu/cpu.go:121-124 | a text that is not an optionally signed run of digits never parses without error |
| GoLib.AtoiItoa | applet/cpu/cpu.go:89 | `Atoi` reads back every 64-bit integer `Itoa` writes, as a success |
| GoLib.ItoaLength | applet/cpu/cpu.go:118-121 | a 64-bit integer takes at most 20 characters, so one fits in the 32-byte buffer `temp` reads |
| Json.EscapeChar | main.go:89 | the escape of one character is non-empty and holds no newline |
| Json.RenderArray | main.go:89-90 | a marshalled slice is one line, opening with '[' and closing with ']' |
| Json.UnescapeEscape | main.go:89 | decoding a string literal's escaped body gives back the original string, for every string |
| StatusbarApplet.SegmentJson | statusbar/applet.go:9-19 | the JSON object of a segment maps `name`, `instance` and `full_text` to its fields; `short_text` is present exactly when the short text is non-empty |
| StatusbarApplet.Applet.NewApplet | statusbar/applet.go:52-58 | a new applet has the given name and runner, no flag set and an empty value map |
| StatusbarApplet.Applet.Flags | statusbar/applet.go:40-42 | the flag set is replaced and no other field changes |
| StatusbarApplet.Applet.Set | statusbar/applet.go:46-48 | the value map is replaced wholesale and no other field changes |
| Statusbar.Statusbar.constructor | statusbar/statusbar.go:97-100 | the bar holds the applets in order, and the listener's capacity equals their number |
| Statusbar.VisitAll | statusbar/statusbar.go:67-83 | the visit of one flag set makes exactly the `VisitFlags` calls and ends with its error: flags without a value are skipped, and the first failing `Set` stops all later assignments |
| Statusbar.AssignAll | statusbar/statusbar.go:61-88 | the first loop of `New` makes the `AssignFrom` calls: applets without a flag set are skipped, and the first error ends the loop |
| Statusbar.InitAll | statusbar/statusbar.go:90-95 | the second loop calls `Init` on the applets in order and stops at the first error |
| Statusbar.New | statusbar/statusbar.go:58-101 | the calls made and the error returned are those of `NewCalls`; on success the fresh bar holds the applets and has capacity `len(applets)` |
| Statusbar.VisitFlagsSanctioned | statusbar/statusbar.go:73-79 | each assignment the visitor makes is to a flag of that applet's flag set, with the value the applet holds for it |
| Statusbar.AssignSanctioned | statusbar/statusbar.go:62-83 | each assignment of the first loop is to a flag of an applet that has a flag set, with the applet's value for it |
| Statusbar.InitOnly | statusbar/statusbar.go:91-95 | the `Init` pass calls `Init` on consecutive applets, and on success on every applet from the start |
| Statusbar.NewCallsShape | statusbar/statusbar.go:61-95 | every call `New` makes is a sanctioned flag assignment up to a point, and after it only `Init` calls on applets 0, 1, 2, ... |
| Statusbar.NewSuccess | statusbar/statusbar.go:61-100 | when `New` succeeds, its last calls are `Init` on every applet in order, after all flag assignments |
| Statusbar.VisitFlagsComplete | statusbar/statusbar.go:74-79 | when the visit succeeds, every visited flag that has a value is set to it |
| Statusbar.AssignComplete | statusbar/statusbar.go:62-88 | when the first loop succeeds, every flag of a flag set that has a value is set to it |
| Statusbar.NewSetsEveryValue | statusbar/statusbar.go:61-88 | when `New` gets past the flag pass, every flag that has a value was set to that value |
| Statusbar.VisitFlagsError | statusbar/statusbar.go:68-82 | a failed visit ends with the failing `Set`, all its earlier assignments succeeded, and the error is `"<applet>.<flag>: <err>"` |
| Statusbar.AssignError | statusbar/statusbar.go:79-87 | a failed first loop ends with the failing assignment, and its error names that applet and flag |
| Statusbar.NewFlagFailure | statusbar/statusbar.go:79-87 | a failed flag assignment ends `New` at once: only flag assignments were made, no runner was initialised, and the error is `"<applet>.<flag>: <err>"` |
| Statusbar.InitError | statusbar/statusbar.go:91-95 | a failed `Init` pass ends at the first failing runner; every runner before it succeeded, and its error is returned |
| Statusbar.NewInitFailure | statusbar/statusbar.go:91-95 | after the flag pass, `New` fails exactly with the error of the first failing `Init`; the runners before it were initialised and the later ones were not |
| Statusbar.Statusbar.Listen | statusbar/statusbar.go:19-26 | `Listen` allocates one empty slot per applet, tags each with its applet's name and instance number, and has published nothing |
| Statusbar.Number | statusbar/statusbar.go:20-26 | the per-name counter loop yields, for each applet, the decimal count of applets of its name so far, itself included |
| Statusbar.InstanceTagsOrdinals | statusbar/statusbar.go:26-34 | each instance tag is the decimal form of the applet's ordinal |
| Statusbar.OrdinalsEnumerate | statusbar/statusbar.go:24-26 | the applets of one name are numbered exactly 1, 2, ..., k in the order given, where k is how many there are |
| Statusbar.OrdinalsPrefix | statusbar/statusbar.go:26 | an applet's ordinal is one more than the number of earlier applets with the same name |
| Statusbar.DeliverEffect | statusbar/statusbar.go:37-46 | a nil message changes nothing. A non-nil one writes only the worker's slot, with its fixed name and instance, and publishes the whole array. No slot is ever cleared, and every slot stays labelled |
| Statusbar.RunInvariant | statusbar/statusbar.go:31-50 | in any order of worker iterations, the slot count never changes and no slot is cleared. Each segment sits at its own slot, earlier snapshots stay unchanged, and one snapshot is published per non-nil message |
| Statusbar.DeliverRepeat | statusbar/statusbar.go:38-45 | the same message delivered twice in a row leaves the slots as they were and publishes the same snapshot twice |
| Statusbar.Listener.constructor | statusbar/statusbar.go:21 | the workers start with all slots empty and nothing published |
| Statusbar.Listener.Step | statusbar/statusbar.go:38-45 | one worker iteration updates the array and the published list exactly as `Deliver` says, keeping the state well formed |
| GranolaApplet.SegmentJson | applet/applet.go:14-23 | the JSON object of a segment holds `full_text` exactly when the embedded message is non-nil, holds `short_text` exactly when that message has a non-empty short text, and maps `name` to the name |
| GranolaApplet.String | applet/applet.go:26-33 | `String` is the marshalled object (marshalling never fails), a single line from '{' to '}' |
| GranolaApplet.Missing | applet/applet.go:68-72 | the position found is the first requested name that is not registered; when there is none, every name is registered |
| GranolaApplet.StartFromAll | applet/applet.go:76-97 | when every applet `Init` succeeds, each is called once and one worker starts per name, in the order requested |
| GranolaApplet.StartFromFails | applet/applet.go:76-81 | when the k-th `Init` is the first to fail, exactly the workers before it were started and its error is returned |
| GranolaApplet.StartRefusesUnknown | applet/applet.go:67-72 | an unknown name anywhere in the request means no applet is initialised and no worker starts, and the error names an unknown name at or before it |
| GranolaApplet.Registry.constructor | applet/applet.go:44 | the registry starts empty |
| GranolaApplet.Registry.Register | applet/applet.go:47-60 | a name already taken gives the duplicate error and changes nothing. A fresh name is stored with its applet, and its flag set, when given, is registered with the configuration file |
| GranolaApplet.Registry.Init | applet/applet.go:64-100 | the outcome (error, number of `Init` calls, workers started) is that of `Start`, and on success the channel is buffered to the number of names |
| GranolaApplet.SentCarries | applet/applet.go:82-96 | every segment a worker sends carries its applet's name and a message, and the messages, as they stand at each send, are exactly the non-nil results of `Run`, in order |
| GranolaApplet.Worker | applet/applet.go:82-96 | the worker loop sends exactly `Sent(name, msgs)` |
| Cpu.NumbersAt | applet/cpu/cpu.go:88-91 | each collected number is `Atoi` of the field in its place, with its error ignored |
| Cpu.Convert | applet/cpu/cpu.go:88-91 | the conversion loop collects exactly `Numbers` of the fields, the label included |
| Cpu.Scan | applet/cpu/cpu.go:82-95 | the scanning loop returns the numbers of the first line whose first field is "cpu", or the scanner's error when there is no such line |
| Cpu.ReadStats | applet/cpu/cpu.go:73-106 | `stats`, with the columns read as intended, returns `Reading`: nil when the file is missing, the scanner fails or fewer than eight times were read |
| Cpu.CpuValuesSkip | applet/cpu/cpu.go:85-87 | lines that are not the "cpu" line do not affect the scan |
| Cpu.AtoiLabel | applet/cpu/cpu.go:89 | the label "cpu" is parsed as 0 |
| Cpu.NumbersOfStatWords | applet/cpu/cpu.go:86-91 | the words of a "cpu" line of 64-bit times read back as 0 for the label followed by the times |
| Cpu.CpuLineOf | applet/cpu/cpu.go:86-91 | the "cpu" line the kernel writes for 64-bit times is taken for the "cpu" line and holds those times |
| Cpu.ScanFirstCpuLine | applet/cpu/cpu.go:85-95 | the scan uses the first "cpu" line and ignores everything after it |
| Cpu.ScanStatLine | applet/cpu/cpu.go:85-95 | after any other lines, the kernel's "cpu" line is read as 0 followed by its times |
| Cpu.ReadTimes | applet/cpu/cpu.go:97-105 | a file whose first "cpu" line holds the times reads, as intended, as idle + iowait and the other six. As written, it reads as the shifted sums |
| Cpu.StatsOfTimes | applet/cpu/cpu.go:102-105 | the sums, over the numbers of a "cpu" line, as intended and as written |
| Cpu.ReadLine | applet/cpu/cpu.go:102-105 | for the counters of a running kernel, the intended and as-written readings of a one-line file, none of them wrapped |
| Cpu.UsageShare | applet/cpu/cpu.go:41-46 | between two monotone readings, the usage is the active share of the elapsed time in whole percent rounded down (0 when no time passed), so it lies in 0..100 |
| Cpu.UsageOfTimes | applet/cpu/cpu.go:41-46 | read as intended, the usage between two "cpu" lines is 100 times the busy time elapsed over all time elapsed, rounded down |
| Cpu.Temp | applet/cpu/cpu.go:110-114 | a missing thermal-zone file gives the sentinel -274 |
| Cpu.TempNotNumber | applet/cpu/cpu.go:118-124 | a thermal-zone file whose first 32 characters, trimmed, are not an optionally signed run of digits gives the sentinel -274 |
| Cpu.TempOfFile | applet/cpu/cpu.go:118-128 | a file holding a 64-bit millidegree count and a little white space reads as that count divided by 1000, truncated toward zero |
| Cpu.CPU.constructor | applet/cpu/cpu.go:132-138 | a new applet has interval 5, scale "C", empty icons, an empty message and no reading |
| Cpu.CPU.Run | applet/cpu/cpu.go:34-65 | on a reading: the previous reading is replaced and the text is the icon, the usage and '%', then the temperature when it is above -274. On no reading: nothing is sent and nothing changes |
| Cpu.Load | applet/cpu/cpu.go:131-147 | the package's `init` takes a first reading and registers "cpu" with its flags only when there is one |
| Cpu.SystemTimeMisread | applet/cpu/cpu.go:101-105 | as written, two readings between which only system time advanced show 0% usage |
| Cpu.MisreadStats | applet/cpu/cpu.go:102-105 | as written, system time is added to idle time and steal time is dropped |
| Cpu.SystemTimeCounted | applet/cpu/cpu.go:101-105 | read as intended, the same two readings show 100% usage |
| Cpu.UnreadableStatPanics | applet/cpu/cpu.go:38-42 | as written, `Run` panics on a tick where /proc/stat cannot be read; the corrected reading is nil |
| Memory.Mebibytes | memory/memory.go:45-55 | a 64-bit kB count divided by 1024 lies within a bound that keeps `used` inside 64 bits |
| Memory.Absorb | memory/memory.go:39-60 | one line either leaves the count of matched lines unchanged or raises it by one |
| Memory.StoreBounded | memory/memory.go:47-58 | storing a bounded value keeps every counter bounded |
| Memory.ScanBounded | memory/memory.go:33-61 | every value the scan stores is a 64-bit kB count in MiB |
| Memory.ScanMeminfo | memory/memory.go:27-65 | the scanning loop gives `MemScan`: the tally when the scan ends or after the fourth match, and nothing when the scanner fails |
| Memory.UsedFits | memory/memory.go:67 | whatever the file holds, `total - free - buffers - cached` fits in 64 bits, and at most four lines were counted |
| Memory.MemLineFields | memory/memory.go:39-45 | a `/proc/meminfo` line splits into its label, its count and its unit, and the count reads back |
| Memory.AbsorbMemLine | memory/memory.go:39-60 | a `/proc/meminfo` line stores its count in MiB under its label, when the label is one of the four |
| Memory.ScanMemLine | memory/memory.go:33-61 | one `/proc/meminfo` line read before the fourth match acts as `Store` and the scan goes on |
| Memory.ScanStep | memory/memory.go:33-61 | before the fourth match, the scan takes the next line into account |
| Memory.ReadMemInfo | memory/memory.go:33-61 | a `/proc/meminfo` that starts as the kernel writes it reads back the four counts in MiB, skipping MemAvailable and stopping after Cached |
| Memory.Memory.constructor | memory/memory.go:90-93 | a new applet has interval 5, an empty icon, an empty message and no open file |
| Memory.Memory.Init | memory/memory.go:80-85 | `Init` returns the error of opening /proc/meminfo, and the file is open exactly when there is none |
| Memory.Memory.Run | memory/memory.go:26-72 | when the file is open and the scan succeeds, the text is the icon, the percentage of `used` over `total`, and '%'; otherwise nothing is sent and the message is unchanged |
| Memory.New | memory/memory.go:88-99 | the applet is named "memory", wraps a fresh memory runner with default flags, carries the flag set `icon`, `interval` and has no values |
| Setup.FirstLetterFirst | main.go:30 | no letter comes before the position where the description's match starts |
| Setup.ParseDescShape | main.go:30 | a description has no match exactly when it holds no letter; a match has a non-empty name of letters and options without a newline |
| Setup.ParseDescText | main.go:39-40 | `name` and `name:options` read back as that name and those options |
| Setup.MatchAt | main.go:31 | a match of the option pattern is a non-empty key followed by '=' and a non-empty value |
| Setup.ConfigPairsGood | main.go:31 | every option matched has a non-empty alphanumeric key and a non-empty printable value |
| Setup.MatchPair | main.go:31 | `key=value` followed by a blank or the end matches as a whole |
| Setup.ConfigPairsPair | main.go:48 | such a text is read as that pair, and matching continues after it |
| Setup.ConfigPairsBlank | main.go:48 | a blank never starts a match |
| Setup.ConfigPairsJoin | main.go:48 | the options read back every blank-separated list of `key=value` pairs; a value runs to the next blank, so it may hold ',' or '=' |
| Setup.ConfMapLast | main.go:47-50 | a key is in the configuration map exactly when some option has it, and it maps to the value of the last such option |
| Setup.BuildConf | main.go:47-50 | the loop filling the configuration map builds `ConfMap` of the matched pairs |
| Setup.Construct | main.go:52 | a registered constructor returns a fresh applet of that name, with its kind's flag set and no values |
| Setup.FirstRefusedFirst | main.go:37-44 | the first refused element is refused and all before it are accepted; when none is refused, all are accepted |
| Setup.CollectOutcome | main.go:37-58 | a loop that stops at the first element it cannot use ends with that element's outcome, or else has one value per element, in order |
| Setup.AcceptedParse | main.go:39-44 | a description lets the set-up go on exactly when it matches and names a registered kind; it panics exactly when it does not match |
| Setup.FailingFirst | main.go:37-44 | the set-up stops at the first description that is not accepted, and only there |
| Setup.PlanOutcome | main.go:34-59 | `setup` returns the panic or error of the first refused description. When none is refused, it returns one applet per description, in order |
| Setup.SetUpOne | main.go:39-55 | one iteration panics on a description without a match, fails with the error naming an unknown kind, or returns a fresh applet of the planned shape |
| Setup.SetUp | main.go:34-59 | `setup` ends as `Plan` says. On success it returns one fresh applet per description, in order, of the planned shape and pairwise distinct |
| Setup.Slots | main.go:89 | the JSON of a snapshot has one value per slot: `null` for an empty slot, the segment's object otherwise |
| Setup.SnapshotLine | main.go:89-90 | a snapshot line holds no newline |
| Setup.EmitStep | main.go:88-90 | printing one more snapshot appends its line and a newline to the output |
| Setup.Emit | main.go:84-94 | the printing loop writes exactly `Output` of the snapshots received |
| Setup.LinesTerminated | main.go:90 | lines that hold no newline, each printed with `Println`, read back as those lines |
| Setup.HeaderLines | main.go:84 | the header splits into the protocol header line and the line "[" |
| Setup.OutputLines | main.go:84-94 | the output is the header line, "[", then one line per snapshot, in the order received, each a JSON array followed by ',' |

## Left out

- Goroutines, channels and the `select` on signals become sequential events.
  `Listener.Step` is one worker iteration, and publishing appends a copy of
  the slot array. The source sends the same shared slice and reads the
  `instances` map from the goroutines, which races. The model takes each
  instance number when the loop counts it, which is what the comment
  intends.
- GranolaApplet.Worker: segments are sent as copies, each keeping the
  message it was sent with. The source sends one shared `*Segment` per
  worker: the next non-nil `Run` replaces its `Message`, and the runner
  overwrites that message's text in place (`&c.msg`, `&m.msg`). So a
  receiver that reads a buffered segment late sees the newest message. The
  model does not capture this aliasing; `SentCarries` states the messages
  as each send made them.
- The `Wait` methods (sleeps), `os.Exit`, the error messages `main` prints
  and the signal handling are left out.
- `globalconf.Register` is recorded as a list of registered flag sets. The
  configuration file itself is not read.
- `flag.Value.Set` parsing is a parameter that returns an error or nothing.
  So is each runner's `Init`.
- File contents are parameters: the lines a scanner yields and whether it
  ends in an error. Opening, reading and seeking files is not modelled. The
  memory applet's rewind after each run becomes a scan of the whole file on
  every `Run`.
- Statusbar.New: the model returns the calls made as a second result, so
  that the order of the calls can be stated.
- Memory.Run: `percent` is a parameter for the float computation
  `int(float64(used) / float64(total) * 100)`. Its NaN when `total` is 0 is
  not modelled.
- Cpu.CPU.Run: `toFahrenheit` is a parameter for `int(float64(temp)*1.8) + 32`.
- Cpu.CPU.Run: requires a previous reading. `init` registers the applet only
  after a successful first reading, and the as-written `Run` panics before
  it could store a nil one.
- Cpu.Temp: reads the first 32 characters of the file rather than the first
  32 bytes of one `Read` call. Its contract states only the missing-file
  sentinel; `TempNotNumber` states the sentinel for a text that is not a
  number, and `TempOfFile` states the reading of a well-formed file.
- Cpu.CPU.Run: reads /proc/stat through the corrected reading of the
  findings below: idle is idle + iowait, active is the other six counters,
  and a "cpu" line with fewer than nine values is no reading. As written,
  the columns are shifted one place and eight values are enough;
  `RunAsWritten` and `StatsAsWritten` model that.
- Cpu.Load: takes its first reading through the same corrected reading, so
  it registers the applet only when the "cpu" line has nine values or more.
  As written, eight values are enough.
- The model takes Go's `int` to be 64 bits wide, as on the 64-bit
  platforms the program targets: `Wrap64`, the int64 bounds and the 19-digit
  reach of `strconv.Atoi` all assume it.
- Cpu.Usage: the contract states only that the result is a 64-bit integer.
  `UsageShare` gives its value for readings that only grow.
- GoLib.Itoa: the contract states only that the text is non-empty.
  `AtoiItoa` states that the text reads back.
- The applets' runners and flag sets are objects: the model does not
  capture aliasing between them. `Setup.SetUp` proves that the applets it
  returns are pairwise distinct.
- main.go imports `granola/cpu.New`, which `applet/cpu/cpu.go` does not
  define. That file registers with the older registry, and its `CPU` type
  has no `Init` method. In `Setup`, a "cpu" applet is therefore a
  placeholder runner with the CPU flag set.
- The date and volume applets (date/date.go, volume/volume.go and the
  `applet/` variants) are placeholder runners. Their time formatting and
  ALSA calls are not modelled.
- On an `Init` failure, `applet.Init` returns while the workers already
  started keep running. The model reports those workers and does not
  follow them.
- `main` marshals a slice of nil pointers, so absent slots are written as
  `null`.
- Startup failures exit with status 1, not with a different code per
  failure class. Exit codes are not modelled.
- The regular expressions are modelled by their matching functions, on
  the ASCII classes that RE2 gives `[[:alpha:]]`, `[[:alnum:]]` and
  `[[:graph:]]`. The regular expression engine itself is not modelled.

## Findings

| source | as written | input that shows it | evidently intended | confidence | as-written member | corrected member |
|---|---|---|---|---|---|---|
| applet/cpu/cpu.go:85-105 | every field of the "cpu" line is collected, the label included, so `s[0]` is 0 and the columns are shifted one place. The code computes idle = system + idle and active = user + nice + iowait + irq + softirq; steal is dropped | two "cpu" lines between which only system time grows by d > 0 | idle = idle + iowait and active = user + nice + system + irq + softirq + steal, so the same readings show 100% | not executed | Cpu.SystemTimeMisread | Cpu.SystemTimeCounted |
| applet/cpu/cpu.go:37-42 | `Run` reads `now.idle` even when `stats` returned nil, so a tick on which /proc/stat cannot be read panics | a /proc/stat that cannot be opened at a tick after registration | skip the tick: send nothing and keep the previous reading | not executed | Cpu.UnreadableStatPanics | Cpu.CPU.Run |
