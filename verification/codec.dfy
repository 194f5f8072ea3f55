/** The text form of one buffer entry: `"<timestamp> <level> <tag> <message>"`,
    written by `Logger::flush` and read back by the `Logger` constructor. */
module Codec {
  import opened Word
  import opened Text
  import opened Decimal
  import opened Entry
  import opened Lines

  /** The line `flush` writes for an entry, without its newline. Whatever
      the entry holds, the text before the line's first space is the
      timestamp's numeral, which `std::stoul` reads back without throwing. */
  function Line(e: LogEntry): (r: string)
    ensures TimestampField(r) == ToString(e.timestamp)
    ensures TimestampFieldOk(r)
  {
    var p := ToString(e.timestamp);
    var r := p + " " + e.level + " " + e.tag + " " + e.message;
    NumeralHasNoSeparator(p);
    FindAfterField(r, [], p, ' ', e.level + " " + e.tag + " " + e.message);
    r
  }

  /** The full record `flush` prints for an entry. For a well-formed entry
      the constructor's read loop takes it back as exactly one line. */
  function Encode(e: LogEntry): (r: string)
    ensures |r| > 0 && r[|r| - 1] == '\n'
    ensures WellFormed(e) ==> SplitLines(r) == [Line(e)]
  {
    assert WellFormed(e) ==> SplitLines(Line(e) + "\n") == [Line(e)] by {
      if WellFormed(e) {
        LineHasNoNewline(e);
        assert JoinLines([Line(e)]) == Line(e) + "\n";
        SplitJoin([Line(e)]);
      }
    }
    Line(e) + "\n"
  }

  /** The text before the first space: what the constructor hands to `std::stoul`. */
  function TimestampField(line: string): string
  {
    match Find(line, ' ', 0)
    case None => line
    case Some(i) => line[..i]
  }

  /** What the constructor needs of a line for `std::stoul` not to throw:
      when the line holds a space at all, the text before the first one is a
      decimal numeral that fits in an `unsigned long`. */
  predicate TimestampFieldOk(line: string)
  {
    Find(line, ' ', 0).Some? ==>
      IsNumeral(TimestampField(line)) && Value(TimestampField(line)) < MODULUS
  }

  /** Positions of the first three spaces of a line, as the constructor
      finds them one after the other. */
  function Cuts(line: string): (r: Option<(nat, nat, nat)>)
    ensures r.Some? ==> r.value.0 < r.value.1 < r.value.2 < |line|
    ensures r.Some? ==> Find(line, ' ', 0) == Some(r.value.0)
  {
    match Find(line, ' ', 0)
    case None => None
    case Some(te) =>
      match Find(line, ' ', te + 1)
      case None => None
      case Some(le) =>
        match Find(line, ' ', le + 1)
        case None => None
        case Some(ge) => Some((te, le, ge))
  }

  /** The parse of one line in the constructor's read loop: split at the
      first three spaces, the rest of the line is the message; `None` when a
      space is missing (the line is skipped). */
  function ParseLine(line: string): (r: Option<LogEntry>)
    requires TimestampFieldOk(line)
    ensures r.Some? <==> Cuts(line).Some?
  {
    match Cuts(line)
    case None => None
    case Some((te, le, ge)) =>
      Some(LogEntry(line[te + 1..le], line[le + 1..ge], line[ge + 1..], Value(line[..te])))
  }

  /** Cutting a line at its first three spaces loses nothing: the pieces,
      joined again by single spaces, are the line, and the two middle pieces
      hold no space. */
  lemma RejoinCuts(line: string)
    requires Cuts(line).Some?
    ensures var (te, le, ge) := Cuts(line).value;
            && ' ' !in line[te + 1..le] && ' ' !in line[le + 1..ge]
            && line == line[..te] + " " + line[te + 1..le] + " " + line[le + 1..ge]
                       + " " + line[ge + 1..]
  {
    var (te, le, ge) := Cuts(line).value;
    SkippedHasNone(line, ' ', te + 1);
    SkippedHasNone(line, ' ', le + 1);
    Rejoin3(line, ' ', te, le, ge);
  }

  /** A kept line is its timestamp field and the entry's three other fields
      joined by single spaces, with no space inside level or tag. */
  lemma ParseLineSplits(line: string)
    requires TimestampFieldOk(line) && ParseLine(line).Some?
    ensures IsNumeral(TimestampField(line))
    ensures ParseLine(line).value.timestamp == Value(TimestampField(line))
    ensures ' ' !in ParseLine(line).value.level && ' ' !in ParseLine(line).value.tag
    ensures line == TimestampField(line) + " " + ParseLine(line).value.level + " "
                    + ParseLine(line).value.tag + " " + ParseLine(line).value.message
  {
    RejoinCuts(line);
  }

  /** Three spaces are found exactly when the line holds at least three. */
  lemma CutsIffThreeSpaces(line: string)
    ensures Cuts(line).Some? <==> Count(line, ' ') >= 3
  {
    FindCount(line, ' ', 0);
    match Find(line, ' ', 0)
    case None =>
    case Some(te) =>
      FindCount(line, ' ', te + 1);
      match Find(line, ' ', te + 1)
      case None =>
      case Some(le) =>
        FindCount(line, ' ', le + 1);
  }

  /** A line is kept exactly when it holds at least three spaces; otherwise
      it is skipped. */
  lemma ParseAcceptsIff(line: string)
    requires TimestampFieldOk(line)
    ensures ParseLine(line).Some? <==> Count(line, ' ') >= 3
  {
    CutsIffThreeSpaces(line);
  }

  /** Where the first three spaces of `line == p + " " + level + " " + tag + " " + message`
      lie, and the fields between them, when `p`, `level` and `tag` hold no space. */
  lemma CutsOfJoin(line: string, p: string, level: string, tag: string, message: string)
    requires line == p + " " + level + " " + tag + " " + message
    requires ' ' !in p && ' ' !in level && ' ' !in tag
    ensures Cuts(line) == Some((|p|, |p| + 1 + |level|, |p| + 1 + |level| + 1 + |tag|))
    ensures line[..|p|] == p && line[|p| + 1..|p| + 1 + |level|] == level
    ensures line[|p| + 1 + |level| + 1..|p| + 1 + |level| + 1 + |tag|] == tag
    ensures line[|p| + 1 + |level| + 1 + |tag| + 1..] == message
  {
    Join3Finds(p, level, tag, message, ' ');
    Join3Slices(p, level, tag, message, ' ');
  }

  /** A line whose cuts fall around a numeral and three fields parses into
      exactly those fields. */
  lemma ParseFields(line: string, a: nat, b: nat, g: nat,
                    p: string, level: string, tag: string, message: string)
    requires Cuts(line) == Some((a, b, g))
    requires line[..a] == p && line[a + 1..b] == level && line[b + 1..g] == tag
             && line[g + 1..] == message
    requires IsNumeral(p) && Value(p) < MODULUS
    ensures TimestampFieldOk(line)
    ensures ParseLine(line) == Some(LogEntry(level, tag, message, Value(p)))
  {
    assert TimestampField(line) == p;
  }

  /** Any line made of a numeral and three fields, where level and tag hold
      no space, parses back into those fields; the message may hold spaces. */
  lemma ParseComposed(line: string, p: string, level: string, tag: string, message: string)
    requires line == p + " " + level + " " + tag + " " + message
    requires IsNumeral(p) && Value(p) < MODULUS
    requires ' ' !in level && ' ' !in tag
    ensures TimestampFieldOk(line)
    ensures ParseLine(line) == Some(LogEntry(level, tag, message, Value(p)))
  {
    NumeralHasNoSeparator(p);
    CutsOfJoin(line, p, level, tag, message);
    ParseFields(line, |p|, |p| + 1 + |level|, |p| + 1 + |level| + 1 + |tag|, p, level, tag, message);
  }

  /** A line `flush` would not write still loads: leading zeros in the
      timestamp field are read as `std::stoul` reads them. */
  lemma LeadingZerosRead()
    ensures TimestampFieldOk("007 I t m")
    ensures ParseLine("007 I t m") == Some(LogEntry("I", "t", "m", 7))
  {
    assert "007"[..2] == "00" && "00"[..1] == "0" && "0"[..0] == [];
    assert Value("0") == 0 && Value("00") == 0 && Value("007") == 7;
    ParseComposed("007 I t m", "007", "I", "t", "m");
  }

  /** Round trip: the line `flush` writes for an entry parses back into the
      same entry, spaces in the message included. */
  lemma {:induction false} RoundTrip(e: LogEntry)
    requires ' ' !in e.level && ' ' !in e.tag
    ensures TimestampFieldOk(Line(e))
    ensures ParseLine(Line(e)) == Some(e)
  {
    ParseComposed(Line(e), ToString(e.timestamp), e.level, e.tag, e.message);
  }

  /** A well-formed entry's line holds no newline, so it is read back as one line. */
  lemma LineHasNoNewline(e: LogEntry)
    requires WellFormed(e)
    ensures '\n' !in Line(e)
  {
  }
}
