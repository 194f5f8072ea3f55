/** The whole log file: what `Logger::flush` writes for a buffer and what
    the `Logger` constructor loads back from it. */
module Store {
  import opened Text
  import opened Decimal
  import opened Entry
  import opened Codec
  import opened Lines

  /** One line per entry, in buffer order. */
  function LinesOf(es: seq<LogEntry>): (r: seq<string>)
    ensures |r| == |es| && forall i :: 0 <= i < |es| ==> r[i] == Line(es[i])
  {
    seq(|es|, i requires 0 <= i < |es| => Line(es[i]))
  }

  /** The file content `flush` leaves behind: the record of every entry,
      oldest first, each ending in a newline. */
  function Render(es: seq<LogEntry>): (r: string)
    ensures r == JoinLines(LinesOf(es))
  {
    if es == [] then []
    else
      assert LinesOf(es)[1..] == LinesOf(es[1..]);
      Encode(es[0]) + Render(es[1..])
  }

  /** Every line is one the constructor can read without `std::stoul` throwing. */
  predicate AllTimestampsOk(ls: seq<string>)
  {
    forall i :: 0 <= i < |ls| ==> TimestampFieldOk(ls[i])
  }

  /** What one line contributes to the buffer: its entry, or nothing when
      it is skipped. */
  function Kept(line: string): (r: seq<LogEntry>)
    requires TimestampFieldOk(line)
    ensures |r| <= 1
  {
    match ParseLine(line)
    case None => []
    case Some(e) => [e]
  }

  /** The constructor's read loop over the lines: each line is parsed in
      turn, kept lines become entries in file order and skipped lines leave
      no trace. */
  function ParseAll(ls: seq<string>): (r: seq<LogEntry>)
    requires AllTimestampsOk(ls)
    ensures |r| <= |ls|
  {
    if ls == [] then []
    else
      Kept(ls[0]) + ParseAll(ls[1..])
  }

  /** A file the constructor can load. */
  predicate Loadable(content: string)
  {
    AllTimestampsOk(SplitLines(content))
  }

  /** The entries the constructor loads from a file's content: at most one
      per line, and none from an empty file. */
  function Load(content: string): (r: seq<LogEntry>)
    requires Loadable(content)
    ensures |r| <= |SplitLines(content)|
    ensures content == [] ==> r == []
  {
    ParseAll(SplitLines(content))
  }

  /** Parsing distributes over the lines: every line is handled on its own. */
  lemma {:induction false} ParseAllAppend(a: seq<string>, b: seq<string>)
    requires AllTimestampsOk(a) && AllTimestampsOk(b)
    ensures AllTimestampsOk(a + b)
    ensures ParseAll(a + b) == ParseAll(a) + ParseAll(b)
  {
    if a != [] {
      assert (a + b)[0] == a[0];
      assert (a + b)[1..] == a[1..] + b;
      ParseAllAppend(a[1..], b);
      assert ParseAll(a + b) == Kept(a[0]) + ParseAll(a[1..] + b);
      Assoc(Kept(a[0]), ParseAll(a[1..]), ParseAll(b));
    } else {
      assert a + b == b;
    }
  }

  /** A line with fewer than three spaces contributes nothing. */
  lemma SkippedLine(line: string)
    requires TimestampFieldOk(line) && Count(line, ' ') < 3
    ensures AllTimestampsOk([line]) && ParseAll([line]) == []
  {
    ParseAcceptsIff(line);
    assert ParseAll([line]) == Kept(line) + ParseAll([]);
  }

  /** A line with at least three spaces contributes its parsed entry. */
  lemma KeptLine(line: string)
    requires TimestampFieldOk(line) && Count(line, ' ') >= 3
    ensures ParseLine(line).Some?
    ensures AllTimestampsOk([line]) && ParseAll([line]) == [ParseLine(line).value]
  {
    ParseAcceptsIff(line);
    assert ParseAll([line]) == Kept(line) + ParseAll([]);
  }

  /** A malformed line, with fewer than three spaces, is skipped and the
      lines around it are loaded as if it were absent. */
  lemma MalformedLineSkipped(a: seq<string>, line: string, b: seq<string>)
    requires AllTimestampsOk(a) && AllTimestampsOk(b) && TimestampFieldOk(line)
    requires Count(line, ' ') < 3
    ensures AllTimestampsOk(a + [line] + b)
    ensures ParseAll(a + [line] + b) == ParseAll(a) + ParseAll(b)
  {
    SkippedLine(line);
    ParseAllAppend([line], b);
    ParseAllAppend(a, [line] + b);
    Assoc(a, [line], b);
    assert ParseAll([line] + b) == ParseAll(b);
    assert ParseAll(a + [line] + b) == ParseAll(a + ([line] + b));
  }

  /** Every line of a buffer's rendering parses back into its entry. */
  lemma {:induction false} ParseAllLines(es: seq<LogEntry>)
    requires forall i :: 0 <= i < |es| ==> ' ' !in es[i].level && ' ' !in es[i].tag
    ensures AllTimestampsOk(LinesOf(es))
    ensures ParseAll(LinesOf(es)) == es
  {
    forall i | 0 <= i < |es| ensures TimestampFieldOk(LinesOf(es)[i]) {
      RoundTrip(es[i]);
    }
    if es != [] {
      assert LinesOf(es)[1..] == LinesOf(es[1..]);
      RoundTrip(es[0]);
      ParseAllLines(es[1..]);
    }
  }

  /** `"b c"` holds a space, and the text before it is not a numeral. */
  lemma StrayLineRejected()
    ensures !TimestampFieldOk("b c")
  {
    assert Find("b c", ' ', 0) == Some(1);
    assert TimestampField("b c") == "b";
  }

  /** The file `flush` writes for a single entry is that entry's record. */
  lemma RenderOne(e: LogEntry)
    ensures Render([e]) == Line(e) + "\n"
  {
    assert LinesOf([e]) == [Line(e)];
  }

  /** An entry whose line holds one newline is written as two lines. */
  lemma RenderOneSplit(e: LogEntry, a: string, b: string)
    requires Line(e) == a + "\n" + b
    ensures Render([e]) == JoinLines([a, b])
  {
    RenderOne(e);
    assert [a, b][1..] == [b] && [b][1..] == [];
    assert JoinLines([b]) == b + "\n" + JoinLines([]);
    assert JoinLines([a, b]) == a + "\n" + JoinLines([b]);
    Assoc(a + "\n", b, "\n");
  }

  /** The record of message `"a\nb c"` spans two lines of the file. */
  lemma NewlineMessageRecord()
    ensures Render([LogEntry("I", "t", "a\nb c", 1)]) == JoinLines(["1 I t a", "b c"])
  {
    var e := LogEntry("I", "t", "a\nb c", 1);
    assert ToString(1) == "1";
    assert Line(e) == "1 I t a" + "\n" + "b c";
    RenderOneSplit(e, "1 I t a", "b c");
  }

  /** `flush` writes a message's newline unchanged, so a logged message
      holding a newline can leave a file the constructor cannot load: here
      the record of message `"a\nb c"` ends in the line `"b c"`, whose text
      before its first space is not a numeral, and `std::stoul` throws on it. */
  lemma NewlineInMessageUnloadable()
    ensures var e := LogEntry("I", "t", "a\nb c", 1);
            && !WellFormed(e)
            && SplitLines(Render([e])) == ["1 I t a", "b c"]
            && !Loadable(Render([e]))
  {
    var ls := ["1 I t a", "b c"];
    NewlineMessageRecord();
    SplitJoin(ls);
    StrayLineRejected();
    assert !TimestampFieldOk(ls[1]);
  }

  /** Two lines that each parse load as their two entries, in order. */
  lemma ParseTwo(l0: string, l1: string)
    requires TimestampFieldOk(l0) && ParseLine(l0).Some?
    requires TimestampFieldOk(l1) && ParseLine(l1).Some?
    ensures AllTimestampsOk([l0, l1])
    ensures ParseAll([l0, l1]) == [ParseLine(l0).value, ParseLine(l1).value]
  {
    assert [l0, l1][1..] == [l1];
    assert ParseAll([l1]) == Kept(l1) + ParseAll([]);
  }

  /** The record of message `"a\n5 x y z"` spans two lines of the file. */
  lemma ForgedRecord()
    ensures Render([LogEntry("I", "t", "a\n5 x y z", 1)]) == JoinLines(["1 I t a", "5 x y z"])
  {
    var e := LogEntry("I", "t", "a\n5 x y z", 1);
    assert ToString(1) == "1";
    assert Line(e) == "1 I t a" + "\n" + "5 x y z";
    RenderOneSplit(e, "1 I t a", "5 x y z");
  }

  /** The first line of that record is the logged entry, cut at the newline. */
  lemma RecordLineParses()
    ensures TimestampFieldOk("1 I t a")
    ensures ParseLine("1 I t a") == Some(LogEntry("I", "t", "a", 1))
  {
    assert Value("1") == 1;
    ParseComposed("1 I t a", "1", "I", "t", "a");
  }

  /** The second line of that record parses as an entry of its own. */
  lemma ForgedLineParses()
    ensures TimestampFieldOk("5 x y z")
    ensures ParseLine("5 x y z") == Some(LogEntry("x", "y", "z", 5))
  {
    assert Value("5") == 5;
    ParseComposed("5 x y z", "5", "x", "y", "z");
  }

  /** A message holding a newline can also add an entry on reload: the
      record of message `"a\n5 x y z"` loads as two entries, the second one
      made up from the message text. */
  lemma NewlineInMessageForgesEntry()
    ensures var e := LogEntry("I", "t", "a\n5 x y z", 1);
            && !WellFormed(e)
            && Loadable(Render([e]))
            && Load(Render([e])) == [LogEntry("I", "t", "a", 1), LogEntry("x", "y", "z", 5)]
  {
    ForgedRecord();
    SplitJoin(["1 I t a", "5 x y z"]);
    RecordLineParses();
    ForgedLineParses();
    ParseTwo("1 I t a", "5 x y z");
  }

  /** Round trip for the file: loading what `flush` wrote for a buffer of
      well-formed entries gives back that buffer, in order. */
  lemma LoadRender(es: seq<LogEntry>)
    requires forall i :: 0 <= i < |es| ==> WellFormed(es[i])
    ensures Loadable(Render(es))
    ensures Load(Render(es)) == es
  {
    forall i | 0 <= i < |es| ensures '\n' !in LinesOf(es)[i] {
      LineHasNoNewline(es[i]);
    }
    SplitJoin(LinesOf(es));
    ParseAllLines(es);
  }
}
