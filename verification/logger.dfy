/** The `Logger` class: the in-RAM buffer with repeat suppression and
    oldest-first eviction, the time-gated flush that rewrites the log file,
    and the constructor that loads the file back. The static members become
    an explicit `State`; the clock and the file system become arguments. */
module Logger {
  import opened Word
  import opened Entry
  import opened Lines
  import opened Store

  /** `MAX_LOG_ENTRIES` (a `size_t`) and `FLASH_WRITE_INTERVAL` (an
      `unsigned long`, in milliseconds); both are set at run time. */
  datatype Config = Config(maxLogEntries: ULong, flashWriteInterval: ULong)

  /** The static state of `Logger` together with the content of its log file. */
  datatype State = State(entries: seq<LogEntry>, lastFlashWriteTime: ULong, file: string)

  /** What the outside world answers during one `log` call: the `millis()`
      readings taken by `log`, by `checkFlush` and by `flush`, in that order,
      and whether opening the log file for writing succeeds. */
  datatype Io = Io(stamp: ULong, checkTime: ULong, flushTime: ULong, fileOpens: bool)

  /** The constructor, run at start-up while the static members still hold
      their initial values: open the log file and, when that succeeds, load
      every line it can parse into the buffer. The file is not changed. */
  function Construct(fileOpens: bool, content: string): (r: State)
    requires fileOpens ==> Loadable(content)
    ensures r.lastFlashWriteTime == 0 && r.file == content
    ensures !fileOpens ==> r.entries == []
    ensures fileOpens ==> |r.entries| <= |SplitLines(content)|
  {
    State(if fileOpens then Load(content) else [], 0, content)
  }

  /** The new entry repeats the newest buffered one (timestamps aside). */
  predicate Repeats(entries: seq<LogEntry>, e: LogEntry)
  {
    |entries| > 0 && SameEvent(entries[|entries| - 1], e)
  }

  /** The buffer update of `log`: a repeat replaces the newest entry;
      otherwise, when the buffer holds more than `maxLogEntries` entries, the
      oldest is dropped; then the new entry is appended. */
  function Push(entries: seq<LogEntry>, maxLogEntries: ULong, e: LogEntry): (r: seq<LogEntry>)
    ensures |r| > 0 && r[|r| - 1] == e
    ensures forall x :: x in r ==> x in entries || x == e
    ensures Repeats(entries, e) ==>
              |r| == |entries| && forall i :: 0 <= i < |r| - 1 ==> r[i] == entries[i]
    ensures !Repeats(entries, e) && |entries| > maxLogEntries ==>
              |r| == |entries| && forall i :: 0 <= i < |r| - 1 ==> r[i] == entries[i + 1]
    ensures !Repeats(entries, e) && |entries| <= maxLogEntries ==>
              |r| == |entries| + 1 && forall i :: 0 <= i < |entries| ==> r[i] == entries[i]
    ensures |entries| <= maxLogEntries + 1 ==> |r| <= maxLogEntries + 1
  {
    if Repeats(entries, e) then entries[..|entries| - 1] + [e]
    else if |entries| > maxLogEntries then entries[1..] + [e]
    else entries + [e]
  }

  /** `flush`: when the log file opens for writing, its old content is
      replaced by the records of the buffered entries, the buffer is emptied
      and the flush time is recorded; when it does not open, nothing changes. */
  function Flush(s: State, now: ULong, fileOpens: bool): (r: State)
    ensures fileOpens ==>
              r.entries == [] && r.lastFlashWriteTime == now && r.file == Render(s.entries)
    ensures !fileOpens ==> r == s
  {
    if fileOpens then State([], now, Render(s.entries)) else s
  }

  /** `checkFlush`: flush when at least `flashWriteInterval` milliseconds
      have passed since the last flush, measured with unsigned subtraction. */
  function CheckFlush(s: State, cfg: Config, now: ULong, flushTime: ULong, fileOpens: bool): (r: State)
    ensures Sub(now, s.lastFlashWriteTime) >= cfg.flashWriteInterval ==>
              r == Flush(s, flushTime, fileOpens)
    ensures Sub(now, s.lastFlashWriteTime) < cfg.flashWriteInterval ==> r == s
  {
    if Sub(now, s.lastFlashWriteTime) >= cfg.flashWriteInterval then Flush(s, flushTime, fileOpens)
    else s
  }

  /** `log`: stamp the event, update the buffer, then check whether to flush.
      The buffer ends empty exactly when a flush ran and succeeded; then the
      file holds the records of the updated buffer, whose newest is the new
      event, and the flush time is recorded. Otherwise the file and the flush
      time are untouched and the buffer is the updated one. */
  function Log(s: State, cfg: Config, level: string, tag: string, message: string, io: Io): (r: State)
    ensures |s.entries| <= cfg.maxLogEntries + 1 ==> |r.entries| <= cfg.maxLogEntries + 1
    ensures r.entries != [] ==>
              r.entries[|r.entries| - 1] == LogEntry(level, tag, message, io.stamp)
    ensures r.entries == [] <==>
              Sub(io.checkTime, s.lastFlashWriteTime) >= cfg.flashWriteInterval && io.fileOpens
    ensures Sub(io.checkTime, s.lastFlashWriteTime) >= cfg.flashWriteInterval && io.fileOpens ==>
              r.lastFlashWriteTime == io.flushTime
              && r.file == Render(Push(s.entries, cfg.maxLogEntries, LogEntry(level, tag, message, io.stamp)))
    ensures !(Sub(io.checkTime, s.lastFlashWriteTime) >= cfg.flashWriteInterval && io.fileOpens) ==>
              r.file == s.file && r.lastFlashWriteTime == s.lastFlashWriteTime
              && r.entries == Push(s.entries, cfg.maxLogEntries, LogEntry(level, tag, message, io.stamp))
  {
    var e := LogEntry(level, tag, message, io.stamp);
    CheckFlush(s.(entries := Push(s.entries, cfg.maxLogEntries, e)), cfg,
               io.checkTime, io.flushTime, io.fileOpens)
  }

  /** The levels of the convenience wrappers `info`, `err`, `warn` and `debug`. */
  datatype Severity = Info | Err | Warn | Debug

  /** The level string each wrapper passes to `log`; each is one the line
      format carries back unchanged. */
  function LevelName(sev: Severity): (r: string)
    ensures r != [] && ' ' !in r && '\n' !in r
  {
    match sev
    case Info => "INFO"
    case Err => "ERR"
    case Warn => "WARN"
    case Debug => "DEBUG"
  }

  /** `info`, `err`, `warn` and `debug`: `log` with a fixed level. The newest
      entry, when the buffer is not emptied by a flush, is the call's event
      under the wrapper's level. */
  function LogAs(s: State, cfg: Config, sev: Severity, tag: string, message: string, io: Io): (r: State)
    ensures r.entries != [] ==>
              r.entries[|r.entries| - 1] == LogEntry(LevelName(sev), tag, message, io.stamp)
  {
    Log(s, cfg, LevelName(sev), tag, message, io)
  }

  /** A repeated event refreshes the newest entry: logging `e1` and then an
      event `e2` with the same level, tag and message leaves the buffer that
      logging `e2` alone would have left. */
  lemma RepeatRefreshesTail(entries: seq<LogEntry>, maxLogEntries: ULong, e1: LogEntry, e2: LogEntry)
    requires SameEvent(e1, e2)
    ensures Push(Push(entries, maxLogEntries, e1), maxLogEntries, e2)
            == Push(entries, maxLogEntries, e2)
  {
  }

  /** Logging the same event twice while no flush is due leaves a single
      entry for it, stamped with the second call's time. */
  lemma RepeatedLogKeepsOne(s: State, cfg: Config, level: string, tag: string, message: string,
                            io1: Io, io2: Io)
    requires Sub(io1.checkTime, s.lastFlashWriteTime) < cfg.flashWriteInterval
    requires Sub(io2.checkTime, s.lastFlashWriteTime) < cfg.flashWriteInterval
    ensures Log(Log(s, cfg, level, tag, message, io1), cfg, level, tag, message, io2)
            == Log(s, cfg, level, tag, message, io2)
  {
  }

  /** The flush gate measures elapsed time correctly across the wrap of the
      32-bit clock: `d` milliseconds after the last flush, `checkFlush`
      flushes exactly when `d` reaches the interval. */
  lemma GateMeasuresElapsed(s: State, cfg: Config, d: nat, flushTime: ULong, fileOpens: bool)
    requires d < MODULUS
    ensures CheckFlush(s, cfg, Advance(s.lastFlashWriteTime, d), flushTime, fileOpens)
            == if d >= cfg.flashWriteInterval then Flush(s, flushTime, fileOpens) else s
  {
    SubMeasuresElapsed(s.lastFlashWriteTime, d);
  }

  /** What `log` keeps true of the state: the buffer holds at most one entry
      more than `maxLogEntries`, and every entry survives the line format. */
  predicate Valid(s: State, cfg: Config)
  {
    |s.entries| <= cfg.maxLogEntries + 1 && forall i :: 0 <= i < |s.entries| ==> WellFormed(s.entries[i])
  }

  /** `log` with well-formed fields keeps the state valid. */
  lemma LogKeepsValid(s: State, cfg: Config, level: string, tag: string, message: string, io: Io)
    requires Valid(s, cfg) && WellFormed(LogEntry(level, tag, message, io.stamp))
    ensures Valid(Log(s, cfg, level, tag, message, io), cfg)
  {
  }

  /** Restart after a successful flush: a logger constructed on the file
      that `flush` wrote loads back exactly the buffer that was flushed. */
  lemma FlushThenRestart(s: State, now: ULong)
    requires forall i :: 0 <= i < |s.entries| ==> WellFormed(s.entries[i])
    ensures Loadable(Flush(s, now, true).file)
    ensures Construct(true, Flush(s, now, true).file).entries == s.entries
  {
    LoadRender(s.entries);
  }
}
