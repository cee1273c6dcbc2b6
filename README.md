# logger-factory in Dafny

A model of the two stateful parts of the `logger-factory` package, with proofs about them.

- **Log history and logger registry (`bin/logger.js`).**
  - A process-wide `Stream` keeps a bounded circular history of log records. It pushes every record from every attached logger into the history, then emits that record on its `logging` event.
  - A registry maps names to loggers. Each logger has an optional console transport and an optional file transport, each with its own level.
  - `get` memoises loggers by name. `getLevels` and `setLevels` read and write the levels. `isDebug` asks whether some transport is verbose. `configure` installs settings and may resize the history.
- **Daily rotation (`lib/file.js`).**
  - `dailyRotate` waits until the next local midnight.
  - It then copies the log file into an archive whose name carries the date, in 64 KiB chunks at explicit offsets.
  - It truncates the log file, closes both descriptors, reports any error, and schedules itself again.

Files:

- `common.dfy`: module `Common`, with `Option` (JavaScript's `undefined` is `None`), `Min` and a few facts about sequences, maps and multisets.
- `history.dfy`: module `History`.
  - The CBuffer library is a class `CBuffer` holding a bounded FIFO. A push into a full buffer evicts the oldest entry.
  - `Stream` is a class with the buffer, the emitted events and the labels of the attached loggers.
  - The pure functions `Pushed`, `PushAll` and `LastN` specify them.
- `logging.dfy`: module `Logging`.
  - `Logger` is a class with a label, a `Transports` record and a flag saying the `log` wrapper and `isDebug` were installed.
  - `LoggerFactory` is a class holding the module's state: the stream, the settings, the `loggers` map with its keys in the order they were added, and the files whose rotation was started.
  - The arity overload of `setLevels` is a `SetLevelsCall` value. It resolves to a tagged `Selector`: all, by transport, by name, or by name and transport.
- `files.dfy`: module `Files`.
  - The host file system is a class holding a map from path to bytes and a multiset of open descriptors.
  - Failures of open, truncate and close are inputs.
- `filetool.dfy`: module `FileTool`.
  - The date string and the archive path are pure string functions.
  - The delay is a function of local time in milliseconds.
  - `CopyAndClearFile` is a loop over a 64 KiB `array` buffer, proved against the reference function `CopySpec`.
  - One timer firing is the method `Fire`, which returns the next timer.

Points where the code behaves differently from what a reader might expect:

- **Unknown name in `setLevels`.** Calling `setLevels` with the name of an unknown logger throws a TypeError. The code pushes `undefined` into `lgs`, and the loop then reads its `transports`. `LoggerFactory.SetLevels` returns `threw` and changes nothing.
- **No zero-padding in `getDateString`.** Because of the `lenght` typo, the code never pads day or month. The evidently intended zero-padded `DD-MM-YYYY` is modelled beside it (see Findings).
- **Fault outcomes in `copyAndClearFile`.** The code checks the values returned by `openSync`, `truncateSync` and `closeSync` for errors. The model takes those outcomes as inputs (see Left out for what Node actually does).
- **Order of append and broadcast.** The code pushes a record into the history first and emits it afterwards (`bin/logger.js:38-39`). `Stream.Emit` may only be called once the record is the newest entry of the history.

The last `'.'` used for the archive name is searched in the whole path, directory part included. So `/home/u/.logs/app` rotates into `/home/u/_<date>.logs/app`. `RotatedPath` states this as it is.

## Model

| member | source | states |
|---|---|---|
| `History.Pushed` | bin/logger.js:38 | one push into a full buffer evicts the oldest entry: the result is the newest `capacity` entries of the old contents plus the new record |
| `History.PushAll` | bin/logger.js:38 | any number of pushes never takes the buffer beyond its capacity |
| `History.PushAllKeepsNewest` | bin/logger.js:36-39 | after any sequence of pushes the buffer holds the last `capacity` entries of old contents followed by the pushed records, in push order |
| `History.BoundedHistory` | bin/logger.js:20-39 | from an empty buffer, the history size is `min(capacity, pushes)` and its contents are the most recent pushes in push order |
| `History.CBuffer.constructor` | bin/logger.js:20 | a new buffer has the requested capacity and is empty |
| `History.CBuffer.Push` | bin/logger.js:38 | the buffer's contents become `Pushed` of the old contents and stay within capacity |
| `History.CBuffer.PushEach` | bin/logger.js:26-28 | re-pushing a sequence of records leaves the contents at `PushAll` of the old contents and that sequence, within capacity |
| `History.Stream.constructor` | bin/logger.js:18-21 | the stream starts with an empty history of capacity 25, no events and no sources |
| `History.Stream.SetBufferSize` | bin/logger.js:23-29 | corrected resize: a fresh buffer of capacity `n` holding the most recent `min(n, old size)` records in their original order |
| `History.Stream.SetBufferSizeAsWritten` | bin/logger.js:23-29 | resize as written: the new empty buffer is installed, and the call throws exactly when the old buffer held a record, leaving the history empty |
| `History.AsWrittenResizeDropsHistory` | bin/logger.js:23-29 | one logged record then a resize, as written: the call throws and no record is kept |
| `History.CorrectedResizeKeepsHistory` | bin/logger.js:23-29 | the same scenario with the corrected resize keeps the record |
| `History.Stream.History` | bin/logger.js:30-32 | returns the live buffer object itself, not a copy |
| `History.Stream.Source` | bin/logger.js:33-35 | attaching a logger appends its label to the stream's sources |
| `History.Stream.Emit` | bin/logger.js:39 | a record can only be emitted once it is the newest history entry; it is appended to the emitted events |
| `History.Stream.OnLogging` | bin/logger.js:35-40 | the listener builds the record with the current time, pushes exactly that record into the history, then emits that same record |
| `Logging.Keys` | bin/logger.js:119 | the keys of a levels record are exactly the transports that exist, with console first |
| `Logging.CallSelector` | bin/logger.js:95-101 | one argument targets every transport of every logger; two target that transport; three target that name and transport, undefined meaning all |
| `Logging.SetTransportLevel` | bin/logger.js:108-113 | existing transports stay existing and absent ones absent; a transport takes the level exactly when it exists and is the named one (or none is named) |
| `Logging.ApplyLevels` | bin/logger.js:102-114 | the same loggers keep entries; loggers the call does not select are unchanged |
| `Logging.InitialTransports` | bin/logger.js:135-149 | corrected: no outputs, no transports; otherwise a transport exists only if its output is configured, at its override level when that is truthy, else at the configured level |
| `Logging.InitialTransportsAsWritten` | bin/logger.js:135-149 | as written: throws exactly when only a file output is configured and it has a truthy override; otherwise the file transport always keeps its configured level, and console exists exactly when configured |
| `Logging.AsWrittenAgreesWithoutFileOverride` | bin/logger.js:135-149 | without a truthy file override, the code as written and the corrected version give the same transports |
| `Logging.AsWrittenFileOverrideHitsConsole` | bin/logger.js:143-148 | with both outputs and a file override, as written the override lands on console and file keeps its configured level; corrected, file takes the override |
| `Logging.AsWrittenFileOverrideWithoutConsoleThrows` | bin/logger.js:143-148 | with only a file output and a file override, the code as written throws; corrected, file takes the override |
| `Logging.KeyOf` | bin/logger.js:130 | a falsy name maps to `"default"`, any other name to itself |
| `Logging.ResolveFilename` | bin/logger.js:55-58 | a truthy absolute file name is kept; otherwise the result is the root, `/`, and the name (or `app.log`), so it is absolute when the root is |
| `Logging.RotationsStarted` | bin/logger.js:55-67 | at most one chain per new logger, exactly when the file output asks for rotation, on the resolved file name |
| `Logging.ApplyLevelsExact` | bin/logger.js:102-114 | setLevels gives exactly the selected, existing transports the new level; no transport is created or removed and no other level changes |
| `Logging.SetLevelsCallForms` | bin/logger.js:95-114 | 1 argument: all transports of all loggers; 2 arguments: that transport on every logger; name and transport: exactly that one; name and undefined transport: both transports of that logger; other names untouched |
| `Logging.SetAllDebugMakesVerbose` | bin/logger.js:95-127 | after setting every level to `debug`, a logger is verbose exactly when it has a transport |
| `Logging.Normalized` | bin/logger.js:154-156 | an Error argument becomes its message; any other argument is unchanged |
| `Logging.NormalizeErrors` | bin/logger.js:152-157 | every argument is normalised in place |
| `Logging.SetEach` | bin/logger.js:107-114 | every listed logger gets the per-transport update applied once, and keeps its wrapper flag |
| `Logging.Logger.constructor` | bin/logger.js:132-134 | a new logger carries its label, has no transports and no wrapper yet |
| `Logging.LoggerFactory.constructor` | bin/logger.js:14-15 | no settings, no loggers, and a fresh stream whose history is empty at capacity 25 |
| `Logging.LoggerFactory.AllLevels` | bin/logger.js:82-92 | the level map has one entry per registered logger |
| `Logging.LoggerFactory.GetLevels` | bin/logger.js:71-93 | with a name: the levels of exactly the existing transports, or `{}` for an unknown name; without: one entry per registered logger, each shaped like the single-name result |
| `Logging.LoggerFactory.SetLevels` | bin/logger.js:95-115 | throws exactly when the call names an unknown logger, then changes nothing; otherwise the levels become `ApplyLevels` of the old ones; no wrapper flag changes |
| `Logging.LoggerFactory.SetNamed` | bin/logger.js:95-115 | with the name of an existing logger, the levels become `ApplyLevels` of the old ones, so only that logger's levels change; no wrapper flag changes |
| `Logging.LoggerFactory.SetEvery` | bin/logger.js:95-115 | without a name, every registered logger is updated once, the levels become `ApplyLevels` of the old ones, and no wrapper flag changes |
| `Logging.LoggerFactory.AllLoggers` | bin/logger.js:104-106 | lists every registered logger once, in key order |
| `Logging.LoggerFactory.IsDebug` | bin/logger.js:117-127 | true exactly when the logger exists and one of its transport levels is `debug` or `all` |
| `Logging.LoggerFactory.Get` | bin/logger.js:129-163 | a known name returns the same logger with nothing else changed; a new name files a fresh logger under that key, attaches it to the stream once, and gives it the configured transports, the wrapper only when outputs exist, and one rotation chain per rotating file output |
| `Logging.LoggerFactory.Register` | bin/logger.js:132-134 | the new logger is filed under its label, appended to the key order, and attached to the stream |
| `Logging.LoggerFactory.Create` | bin/logger.js:132-149 | a new key gets a fresh logger with that label, filed and attached once; its transports are `InitialTransports`, the wrapper is present exactly when outputs are configured, and only its entry of the level map is new |
| `Logging.LoggerFactory.AddOutputs` | bin/logger.js:136-149 | the logger's transports become `InitialTransports`, its wrapper is installed, and a rotating file output starts its chain |
| `Logging.LoggerFactory.Install` | bin/logger.js:151-161 | installing the wrapper sets that logger's transports and wrapper flag and changes no other logger's levels |
| `Logging.LoggerFactory.Configure` | bin/logger.js:165-168 | settings replaced; a truthy buffer size resizes the history keeping recency; existing loggers' levels unchanged |
| `Logging.GetIsMemoized` | bin/logger.js:129-131 | two gets of one name around a configure return the same logger, whose transports are still those the first get found (known name) or gave it (`InitialTransports` of the settings at that time) |
| `Files.FileSystem.constructor` | lib/file.js:17 | the file system starts with the given files and no open descriptors |
| `Files.FileSystem.OpenRead` | lib/file.js:17-18 | opening for reading fails on a missing file or with the fault, and otherwise records an open descriptor |
| `Files.FileSystem.OpenWrite` | lib/file.js:19-20 | opening for writing empties or creates the file and records a descriptor, unless it fails (then nothing changes) |
| `Files.FileSystem.Close` | lib/file.js:21 | closing releases the descriptor and returns the fault |
| `Files.FileSystem.Truncate` | lib/file.js:31 | truncation empties the file unless it fails |
| `Files.FileSystem.ReadAt` | lib/file.js:26 | a read at `pos` returns `min(length, bytes left)` and fills the buffer with exactly those bytes |
| `Files.FileSystem.WriteNext` | lib/file.js:27 | the written bytes are appended to what this descriptor wrote before |
| `FileTool.NatStr` | lib/file.js:7-11 | the decimal text of a number is all digits, has no leading zero, denotes the number, and is one character exactly below 10 |
| `FileTool.DateString` | lib/file.js:6-13 | as written: splitting at `-` gives exactly the unpadded decimal texts of the day, the 1-based month and the year |
| `FileTool.DateStringRoundTrip` | lib/file.js:6-13 | as written: three `-`-separated decimal fields giving back day, 1-based month and year; a day or month below 10 is one digit |
| `FileTool.Pad2` | lib/file.js:8-10 | the intended padding makes at least two digits without changing the value |
| `FileTool.DateStringPaddedRoundTrip` | lib/file.js:6-13 | corrected: the same three values, with day and month exactly two digits |
| `FileTool.DateStringThirdOfMarch` | lib/file.js:6-13 | 3 March 2024 gives `3-3-2024` as written and `03-03-2024` corrected |
| `FileTool.LastIndexOf` | lib/file.js:43 | returns the index of the last occurrence, or -1 when the character is absent |
| `FileTool.RotatedPath` | lib/file.js:43-45 | the stamp, after a `_`, goes in front of the last `'.'`; with no `'.'` the prefix is empty and the whole name follows the stamp |
| `FileTool.RotatedPathRoundTrip` | lib/file.js:43-45 | removing the inserted `_` + stamp gives back the original name; after the stamp only the first character may be a `'.'` |
| `FileTool.CutStamp` | lib/file.js:43-45 | a name with `_` + stamp inserted at `k`, with no `'.'` after `k`, is that much longer; cutting the stamp out gives back the name; after the stamp only its first character may be a `'.'` |
| `FileTool.RotatedPathExample` | lib/file.js:43-45 | `/var/log/app.log` on 3 March 2024 becomes `/var/log/app` + `_` + `3-3-2024` + `.log` as written, with `03-03-2024` corrected |
| `FileTool.AppLogRotated` | lib/file.js:43-45 | for `/var/log/app.log` the stamp goes between `/var/log/app` and `.log`, whatever the stamp |
| `FileTool.Delay` | lib/file.js:38-41 | the delay is positive, at most one day, lands on a local midnight and skips none |
| `FileTool.DelayAtMidnight` | lib/file.js:38-41 | scheduled exactly at midnight, the delay is a full day |
| `FileTool.ReadPlanEnds` | lib/file.js:24-29 | the first read is at the starting offset, and the last read is the empty one at the end of the file |
| `FileTool.ReadPlanTail` | lib/file.js:24-29 | when there is more than one read, the first one returns bytes and the later ones are the reads that start where it stopped |
| `FileTool.ReadPlanBounded` | lib/file.js:24-26 | no read returns more than 65536 bytes |
| `FileTool.ReadPlanContiguous` | lib/file.js:24-28 | every read but the last returns bytes, and the next read starts where it stopped |
| `FileTool.ReadPlanStep` | lib/file.js:24-28 | one read of `min(65536, bytes left)` bytes at `pos`, followed by the plan from `pos` plus that count, is the plan from `pos`; a read of 0 bytes only happens at the end and is the last |
| `FileTool.ReadPlanLength` | lib/file.js:16-29 | a file of `len` bytes takes `ceil(len / 65536)` reads plus the final empty one |
| `FileTool.ReadPlan` | lib/file.js:24-29 | the reads the loop makes: never empty, and the first asks at `pos` and returns `min(65536, bytes left)` |
| `FileTool.CopyKeepsBytes` | lib/file.js:24-31 | between two different files, the destination ends up equal to the source byte for byte; the source is empty exactly when truncate succeeded; no other file changes |
| `FileTool.OpenFailureChangesNothing` | lib/file.js:17-23 | a failed open returns that error, and nothing is copied or truncated |
| `FileTool.CopySpec` | lib/file.js:15-35 | reference definition: when an open fails the result is that failure and no file changes; otherwise the result is `Outcome` and only the destination can be added as a file |
| `FileTool.NullIffAllSucceed` | lib/file.js:30-34 | the result is `null` exactly when both opens, the truncate and both closes succeed; otherwise the errors are in the order truncate, close-read, close-write |
| `FileTool.SameFileLosesContent` | lib/file.js:19-31 | rotating a file onto itself empties it |
| `FileTool.CopyChunks` | lib/file.js:24-29 | when the loop ends the destination equals the source and the reads made are exactly `ReadPlan` |
| `FileTool.CopyStep` | lib/file.js:26-27 | one iteration reads `min(65536, bytes left)` bytes at `pos` and appends exactly those bytes to the destination; no other file changes |
| `FileTool.ClearAndClose` | lib/file.js:30-34 | truncate and both closes give `Outcome`; the source is emptied unless truncate failed; both descriptors are released |
| `FileTool.CopyThenClear` | lib/file.js:24-34 | from an empty destination, the destination gets the source's bytes, then truncate and both closes give `Outcome`; both descriptors are released and the reads are `ReadPlan` of the source length |
| `FileTool.CopyToDest` | lib/file.js:19-34 | after the source is open: a failed open for writing closes the source and returns that error; otherwise the result and the files are `CopySpec`; the reads are `ReadPlan` of the copied length, or none when the open failed |
| `FileTool.CopyAndClearFile` | lib/file.js:15-35 | the result and the new files are `CopySpec` of the old ones; no descriptor leaks; the reads are `ReadPlan` of the copied length |
| `FileTool.DailyRotate` | lib/file.js:37-41 | the next firing is at the next local midnight after now, a day away at most, and remembers now's date |
| `FileTool.ArchivePath` | lib/file.js:43-45 | the archive name is the file name with `_` and the (corrected, padded) date string inserted at the last `'.'`, and cutting them out gives the file name back |
| `FileTool.Fire` | lib/file.js:42-48 | copies into `ArchivePath`, the archive named after the scheduled date; an error is reported exactly when the result is not null; the next timer is always scheduled (failures being returned outcomes) |
| `FileTool.OnTimeRotationIsDaily` | lib/file.js:37-48 | a timer that fires on time schedules the next one exactly a day later, named after the firing date |

## Left out

- Winston transport internals are not modelled: sink formatting, level filtering, `logger.add`, and the default level of a sink created without one. A transport is only its level. The configured level is an input.
- Forwarding of the normalised arguments to winston's `log` is not modelled, nor winston's `logging` events per transport. `Stream.OnLogging` is the listener body, called with the event's arguments.
- Directory creation and `fs.existsSync` (`bin/logger.js:59-62`) are not modelled. Neither is `path.join` normalisation; the root is a parameter of `LoggerFactory`.
- The JSON deep copy of output options is not modelled.
- `expressLogger` is not modelled. It is an HTTP timing wrapper.
- Keys from `Object.prototype` are not modelled. In the source, a name such as `toString` is found on the prototype. The `loggers` map is modelled as a plain dictionary.
- `Logging.LoggerFactory.Create` applies the file-level override to the file transport, the corrected behaviour (through `AddOutputs`). As written, bin/logger.js:147 assigns it to the console transport and throws when there is none.
- `Logging.LoggerFactory.AddOutputs` sets the file transport to the file-level override, the corrected behaviour; as written it lands on the console transport, or throws without one (see Findings).
- `Logging.LoggerFactory.Get`: the code throws when the file override is set and there is no console transport. In that case the logger has already been filed, attached to the stream and given its file transport. `Get` uses the corrected override instead (see Findings). Only the transports half of the throw is modelled, by `InitialTransportsAsWritten`.
- `Logging.LoggerFactory.IsDebug` is modelled for any logger name. In the source the method exists only on loggers created while outputs were configured, which is what the `wrapped` field records.
- `Logging.LoggerFactory.Configure`: `bufferSize` is a natural number, 0 meaning absent. Negative or fractional sizes are not modelled.
- `Logging.LoggerFactory.Configure` resizes with the corrected `Stream.SetBufferSize`, which keeps the newest records. As written, a truthy `bufferSize` while the history holds a record installs the settings and an empty buffer, then throws a TypeError to the caller. `SetBufferSizeAsWritten` models that call on its own.
- `Logging.LoggerFactory.AllLoggers` and the `names` order: keys are kept in the order they were added. `Object.keys` lists integer-like names (such as `7`) first, in ascending numeric order. No proved property depends on that order.
- `setTimeout`, real clocks, time zones and daylight-saving time are not modelled. Local time is an integer count of milliseconds. The calendar date of a clock reading is an input, not computed from it. A timer is a value, and one firing is a call of `Fire` that returns the next timer.
- Interleaving is not modelled. This covers writes by the active sink between the copy and the truncate (lost bytes), duplicate timer chains on the same file, and Node timers firing early.
- Exceptions thrown by `readSync` and `writeSync` are not modelled. The code does not check them, and they escape the timer callback.
- `FileTool.CopyAndClearFile`: Node's `openSync`, `truncateSync` and `closeSync` report failure by throwing; they return a descriptor or `undefined`. So the checks at lib/file.js:18, 20 and 31-33 never see an error in practice. The model instead takes the outcomes of those calls as inputs that may be errors, which is how the code reads them. A thrown failure, and the open descriptors it leaks, are not modelled.
- `FileTool.Fire`: the next timer is always scheduled only under that reading. When one of the file calls throws, the exception escapes the timer callback before `dailyRotate` is called again, and the rotation chain ends; this is not modelled.
- `FileTool.Fire` and `FileTool.ArchivePath` name the archive with the corrected, zero-padded `DateStringPadded`. As written, `getDateString` never pads, so the code copies `/var/log/app.log` on 3 March 2024 into `/var/log/app_3-3-2024.log`, not `/var/log/app_03-03-2024.log`. `RotatedPathExample` states both names.
- Reporting through the `FileTool` logger is not modelled. `Fire` returns the error to report.
- `FileTool.NatStr` covers non-negative integers only. Years are natural numbers.

## Findings

| source | as written | input that shows it | evidently intended | confidence | as-written member | corrected member |
|---|---|---|---|---|---|---|
| bin/logger.js:26-27 | the `forEach` callback reads `this.cbuffer` with `this` undefined (strict mode), so `setBufferSize` throws after installing the new, empty buffer | one logged record, then `configure({bufferSize: 10})` | re-push the old records, keeping the newest `min(n, old size)` in order | not executed | `History.AsWrittenResizeDropsHistory` | `History.Stream.SetBufferSize` |
| bin/logger.js:147 | the file-level override is assigned to the console transport, and throws when there is none | outputs console+file with `levels.x.file = 'debug'`; or only a file output with that override | set the file transport's level | not executed | `Logging.AsWrittenFileOverrideHitsConsole` | `Logging.InitialTransports` |
| lib/file.js:8-10 | `lenght` is undefined, so day and month are never zero-padded | 3 March 2024 gives `3-3-2024` | `03-03-2024` | not executed | `FileTool.DateStringRoundTrip` | `FileTool.DateStringPaddedRoundTrip` |
