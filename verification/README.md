# Esp8266log: the in-RAM log buffer and its line format, in Dafny

`Esp8266log` is a small logging library for the ESP8266. A `Logger` keeps
recent log entries in a RAM buffer. Every call to `log` stamps the event with
`millis()` and updates the buffer:

- a repeat of the newest event replaces it, which refreshes its timestamp;
- otherwise, once the buffer holds more than `MAX_LOG_ENTRIES` entries, the
  oldest entry is dropped;
- the new entry is then appended.

After each `log`, `checkFlush` flushes once `FLASH_WRITE_INTERVAL`
milliseconds have passed since the last flush. `flush` rewrites the log file
with one record per buffered entry, `"<timestamp> <level> <tag> <message>\n"`.
It then empties the buffer and records the time. The constructor reads the
file back. It splits each line at its first three spaces and loads every line
it can parse into the buffer.

This project models that core as pure functions:

| module | file | what it holds |
|---|---|---|
| `Word` | `word.dfy` | 32-bit `unsigned long`; unsigned subtraction with wrap-around |
| `Text` | `text.dfy` | `std::string::find` on one character; counting; slicing facts |
| `Decimal` | `decimal.dfy` | `std::to_string` and the value `std::stoul` reads from a digit string |
| `Entry` | `entry.dfy` | `LogEntry`; the repeat test; the well-formedness the format needs |
| `Codec` | `codec.dfy` | one line: writing it, parsing it, the round trip |
| `Lines` | `lines.dfy` | the constructor's `readStringUntil('\n')` loop over the file |
| `Store` | `store.dfy` | the whole file: what `flush` writes and what the constructor loads |
| `Logger` | `logger.dfy` | the `Logger` state, `log`, `checkFlush`, `flush`, the constructor, the wrappers |

The static members of `Logger` become an explicit `State`, which holds the
buffer, `lastFlashWriteTime` and the log file's content. The configuration
becomes a `Config` record. The world outside the logger becomes arguments:

- the `millis()` readings that `log`, `checkFlush` and `flush` each take;
- whether the file opens;
- the file's content at construction.

On the ESP8266, `unsigned long` and `size_t` are 32 bits wide, so timestamps,
`lastFlashWriteTime`, `FLASH_WRITE_INTERVAL` and `MAX_LOG_ENTRIES` are
`Word.ULong` (0 to 2^32 - 1). The flush gate's subtraction wraps modulo 2^32.

A few consequences of the code are easy to miss:

- Fields are separated by single spaces.
- A repeated event replaces the newest entry (pop, then push). The entry
  keeps the new timestamp.
- `flush` rewrites the file with the buffer alone (`Logger.Flush`,
  `Logger.Log`): the entries loaded at start-up, until the first flush, and
  those logged since. Entries flushed earlier and not reloaded are gone.
- Eviction tests `size() > MAX_LOG_ENTRIES`, so the buffer can reach
  `MAX_LOG_ENTRIES + 1` entries. That bound, not `MAX_LOG_ENTRIES`, is
  the one `log` keeps (`Logger.Push`, `Logger.LogKeepsValid`).
- The constructor appends every entry it parses from the file to the buffer.
- `flush` writes every field as it is. A field holding a newline spans
  several lines of the file, and each of them is read back as a line of its
  own. A line whose text before its first space is not a decimal numeral,
  such as `b c`, can make `std::stoul` throw when the file is read back. So
  a message such as `"a\nb c"` leaves a file the constructor cannot load
  (`Store.NewlineInMessageUnloadable`). A message such as `"a\n5 x y z"`
  instead reloads as two entries, the second made up from the message
  text (`Store.NewlineInMessageForgesEntry`). `log` does not check for
  this.

The file round trip therefore holds for well-formed entries
(`Entry.WellFormed`): level and tag hold no space, and no field holds a
newline. Empty levels and tags survive, and so do spaces inside the
message. The level names of the `info`, `err`, `warn` and `debug` wrappers
meet these conditions (`Logger.LevelName`).

## Model

| member | source | states |
|---|---|---|
| Word.Sub | Esp8266log.cpp:100 | `currentTime - lastFlashWriteTime` on `unsigned long`: `b + r` is congruent to `a` modulo 2^32; it is `a - b` without wrap and `2^32 - (b - a)` across the wrap |
| Word.SubMeasuresElapsed | Esp8266log.cpp:99-100 | for every elapsed time `d` below 2^32, subtracting the old clock reading from the reading `d` ms later gives exactly `d`, even when the clock wrapped in between |
| Text.Find | Esp8266log.cpp:34-40 | `line.find(" ", from)` returns a position at or after `from` that holds the character |
| Text.FindSkips | Esp8266log.cpp:34-40 | no position that `find` passes over holds the character; `npos` means none is left after `from` |
| Text.FindFirst | Esp8266log.cpp:34-40 | conversely, the first occurrence at or after `from` is what `find` returns |
| Text.FindCount | Esp8266log.cpp:34-41 | `find` returns `npos` exactly when no occurrence is left, and each hit uses up exactly one occurrence |
| Decimal.ToString | Esp8266log.cpp:110 | `std::to_string(timestamp)` is a non-empty digit string whose decimal value is the timestamp, with no leading zero |
| Codec.Line | Esp8266log.cpp:110 | the text before the first space of an entry's line is `std::to_string` of its timestamp, so the constructor's `stoul` reads it without throwing, whatever the other fields hold |
| Codec.Encode | Esp8266log.cpp:110 | every record ends in a newline; the constructor's read loop takes the record of a well-formed entry back as exactly one line, the entry's line |
| Codec.Cuts | Esp8266log.cpp:34-41 | the three `find` calls, each starting after the previous hit, give strictly increasing positions inside the line, the first being the line's first space |
| Codec.ParseLine | Esp8266log.cpp:34-45 | a line yields an entry exactly when the three successive `find` calls all succeed |
| Codec.RejoinCuts | Esp8266log.cpp:34-43 | cutting a line at its first three spaces loses nothing: the four pieces joined by single spaces give the line back, and level and tag hold no space |
| Codec.ParseLineSplits | Esp8266log.cpp:34-44 | an accepted line is its numeric timestamp field, level, tag and message joined by single spaces; level and tag hold no space, the message is the whole rest, and the timestamp is the field's decimal value |
| Codec.CutsIffThreeSpaces | Esp8266log.cpp:34-41 | the three spaces are found exactly when the line holds at least three spaces |
| Codec.ParseAcceptsIff | Esp8266log.cpp:34-47 | a line is kept exactly when it holds at least three spaces; otherwise it is skipped |
| Codec.CutsOfJoin | Esp8266log.cpp:34-43 | in a line `p level tag message` where `p`, level and tag hold no space, the cuts fall on the three joining spaces and the substrings between them are the fields |
| Codec.ParseFields | Esp8266log.cpp:34-44 | a line whose cuts fall around a numeral below 2^32 and three fields passes `stoul` and parses into exactly those fields |
| Codec.ParseComposed | Esp8266log.cpp:34-44 | any line made of a decimal numeral below 2^32, a space-free level and tag and an arbitrary message parses into exactly those fields; spaces in the message survive |
| Codec.LeadingZerosRead | Esp8266log.cpp:34-44 | the line `007 I t m`, which `flush` never writes, loads as level `I`, tag `t`, message `m`, timestamp 7 |
| Codec.RoundTrip | Esp8266log.cpp:34-44 | the line `flush` formats for an entry (line 110) parses back into the same entry whenever level and tag hold no space |
| Codec.LineHasNoNewline | Esp8266log.cpp:110 | the formatted line of a well-formed entry holds no newline, so it is read back as a single line |
| Lines.SplitLines | Esp8266log.cpp:31-32 | the read loop yields lines without newlines; joining them, each followed by a newline, gives back the file (plus a final newline when the file lacks one) |
| Lines.SplitFirst | Esp8266log.cpp:31-32 | one pass of the read loop over text that starts with a newline-free line takes that line and continues after its newline |
| Lines.SplitJoin | Esp8266log.cpp:31-32 | reading back text written one line per newline-terminated record yields exactly those lines |
| Store.Render | Esp8266log.cpp:108-113 | the text `flush` prints is each entry's line followed by a newline, in buffer order |
| Store.RenderOne | Esp8266log.cpp:108-113 | the file written for a one-entry buffer is that entry's line followed by a newline |
| Store.RenderOneSplit | Esp8266log.cpp:108-113 | an entry whose line holds one newline is written as two lines of the file |
| Store.ParseAll | Esp8266log.cpp:31-48 | loading yields at most one entry per line |
| Store.Load | Esp8266log.cpp:31-48 | the constructor loads at most one entry per line of the file and none from an empty file |
| Store.ParseAllAppend | Esp8266log.cpp:31-48 | each line is parsed independently: loading `a + b` gives the entries of `a` followed by those of `b` |
| Store.KeptLine | Esp8266log.cpp:34-44 | a line with at least three spaces (and a numeral below 2^32 before the first) adds exactly its parsed entry, whatever wrote it |
| Store.ParseTwo | Esp8266log.cpp:31-48 | two lines that each parse load as their two entries, in file order |
| Store.SkippedLine | Esp8266log.cpp:35-47 | a line with fewer than three spaces adds no entry, when it holds no space or its text before the first space is a numeral below 2^32 (otherwise `stoul` throws, see `Store.StrayLineRejected`) |
| Store.MalformedLineSkipped | Esp8266log.cpp:35-47 | such a line (fewer than three spaces, and no space or a numeral below 2^32 before its first space) is skipped, and the lines around it load as if it were absent |
| Store.StrayLineRejected | Esp8266log.cpp:34-36 | the line `b c` holds a space and the text before it is not a numeral, so `stoul` throws on it: a line with fewer than three spaces is not always skipped |
| Store.ParseAllLines | Esp8266log.cpp:31-48 | the lines of a buffer whose levels and tags hold no space parse back into that buffer, in order |
| Store.LoadRender | Esp8266log.cpp:105-113 | loading the file `flush` wrote for a buffer of well-formed entries gives back that buffer, in order |
| Store.NewlineMessageRecord | Esp8266log.cpp:110 | the record of an entry whose message is `"a\nb c"` is the two lines `1 I t a` and `b c` |
| Store.NewlineInMessageUnloadable | Esp8266log.cpp:31-36 | a file `flush` wrote for an entry whose message holds a newline can make the constructor's `stoul` throw: the entry is not well-formed, its file reads as the lines `1 I t a` and `b c`, and `b c` cannot be loaded |
| Store.ForgedRecord | Esp8266log.cpp:110 | the record of an entry whose message is `"a\n5 x y z"` is the two lines `1 I t a` and `5 x y z` |
| Store.RecordLineParses | Esp8266log.cpp:34-44 | the line `1 I t a` loads as level `I`, tag `t`, message `a`, timestamp 1 |
| Store.ForgedLineParses | Esp8266log.cpp:34-44 | the line `5 x y z` loads as level `x`, tag `y`, message `z`, timestamp 5 |
| Store.NewlineInMessageForgesEntry | Esp8266log.cpp:31-48 | the file `flush` wrote for an entry with message `"a\n5 x y z"` loads, but as two entries: the logged one cut at the newline, and one made up from the rest of the message |
| Logger.Construct | Esp8266log.cpp:21-51 | the constructor keeps the file, starts with `lastFlashWriteTime` 0, has an empty buffer when the file does not open and otherwise at most one entry per line |
| Logger.Push | Esp8266log.cpp:69-77 | the new entry is always newest; a repeat keeps the length and every older entry; otherwise, above `MAX_LOG_ENTRIES`, the oldest is dropped, the length is kept and the survivors keep their order; otherwise the buffer grows by one; no other entry appears; a buffer within `MAX_LOG_ENTRIES + 1` stays within it |
| Logger.Flush | Esp8266log.cpp:105-119 | when the file opens, its old content is discarded for the buffer's records, the buffer is emptied and the time is recorded; when it does not open, nothing changes |
| Logger.CheckFlush | Esp8266log.cpp:98-103 | flushes exactly when the unsigned elapsed time reaches `FLASH_WRITE_INTERVAL`; otherwise the state is unchanged |
| Logger.Log | Esp8266log.cpp:59-79 | keeps the `MAX_LOG_ENTRIES + 1` bound; when the flush gate opens (32-bit elapsed time at least the interval) and the file opens, the file becomes the records of the updated buffer, whose newest entry is the new event, the time becomes the flush reading and the buffer ends empty; otherwise file and time are untouched and the buffer is the updated one, with the new entry, stamped with the call's time, newest |
| Logger.LevelName | Esp8266log.cpp:81-95 | the wrappers' levels `INFO`, `ERR`, `WARN`, `DEBUG` are non-empty and hold no space or newline |
| Logger.LogAs | Esp8266log.cpp:81-95 | a wrapper's entry, when it stays in the buffer, is the newest entry and is the call's tag, message and time under the wrapper's level |
| Logger.RepeatRefreshesTail | Esp8266log.cpp:70-77 | logging an event and then a repeat of it leaves the buffer that logging the repeat alone would leave |
| Logger.RepeatedLogKeepsOne | Esp8266log.cpp:59-79 | two `log` calls with the same level, tag and message, neither due to flush, leave one entry stamped with the second call's time |
| Logger.GateMeasuresElapsed | Esp8266log.cpp:98-103 | `d` ms after the last flush (`d` below 2^32, across the clock's wrap too), `checkFlush` flushes exactly when `d` reaches the interval |
| Logger.LogKeepsValid | Esp8266log.cpp:69-78 | `log` with well-formed fields keeps the buffer within `MAX_LOG_ENTRIES + 1` entries, all well-formed |
| Logger.FlushThenRestart | Esp8266log.cpp:105-119 | a logger constructed on the file a successful flush wrote loads back exactly the flushed buffer |

## Left out

- Serial output: the echo of every read line and logged event, and the `hour`/`minute`/`second` formatting for it (Esp8266log.cpp:26, 33, 64-67). These are console side effects through library calls whose code is not part of this model.
- `millis()`: every reading is an argument (`Logger.Io`, the `now` arguments), not modelled behaviour.
- SPIFFS handles and open modes (Esp8266log.cpp:24, 106). The file is one string. Whether it opens is a boolean. The constructor's read through the handle opened in `"a"` mode is modelled as reading the file's content. A file that opens for writing is modelled as written completely, with no partial writes.
- `std::stoul` failures (Esp8266log.cpp:36): a line whose text before the first space is not a non-empty digit string, or whose value does not fit in an `unsigned long`, makes `stoul` throw or read a value the model does not compute. This is excluded by the precondition `Codec.TimestampFieldOk`. The extra inputs `stoul` accepts (leading whitespace, a sign, trailing non-digits) are not modelled.
- The destructor and the static-member definitions (Esp8266log.cpp:7-11, 53-57): resource plumbing.
- `FLASH_WRITE_INTERVAL` and `MAX_LOG_ENTRIES` have no definition in the source, only declarations (Esp8266log.h:42-43). They are the fields of `Logger.Config`, so every property holds for every setting.
- `printLog`, `logCount`, `clearFlashLogs`, `setFlashWriteInterval`, `setMaxLogEntries`, `flashLogCount` and `formatTime` are declared (Esp8266log.h:32-36, 45-46) but have no body in the source.
- Logger.Construct: models the first `Logger` of a program, while the static buffer is still empty and `lastFlashWriteTime` is still 0. A later instance would append to the shared static buffer. Its ensures bounds the number of loaded entries. What a file loads is fixed line by line by `Store.KeptLine`, `Store.SkippedLine` and `Store.ParseAllAppend`; for a file `flush` wrote, `Store.LoadRender` and `Logger.FlushThenRestart` give it whole.
- The file is taken to hold no NUL character, one `char` per byte. The constructor builds each line from `readStringUntil('\n').c_str()` (Esp8266log.cpp:32), which ends the line at its first NUL. The model keeps the whole line, so it agrees with the source only on NUL-free files. `log` receives its fields as C strings, so they hold no NUL, and neither do the files `flush` writes.
