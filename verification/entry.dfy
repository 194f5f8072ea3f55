/** One record of the in-RAM log buffer. */
module Entry {
  import opened Word

  /** `struct LogEntry`: the timestamp is a `millis()` reading. */
  datatype LogEntry = LogEntry(level: string, tag: string, message: string, timestamp: ULong)

  /** Same level, tag and message: the test `log` uses to spot a repeated
      event. The timestamp plays no part. */
  predicate SameEvent(a: LogEntry, b: LogEntry)
  {
    a.level == b.level && a.tag == b.tag && a.message == b.message
  }

  /** Fields the space-separated line format carries back unchanged: level
      and tag hold no space, and no field holds a newline. */
  predicate WellFormed(e: LogEntry)
  {
    && ' ' !in e.level && ' ' !in e.tag
    && '\n' !in e.level && '\n' !in e.tag && '\n' !in e.message
  }
}
