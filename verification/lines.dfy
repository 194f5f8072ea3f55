/** The file as the constructor reads it: a sequence of newline-separated lines. */
module Lines {
  import opened Text

  /** Each line followed by a newline, in order: the text the lines occupy
      in the file. */
  function JoinLines(ls: seq<string>): string
  {
    if ls == [] then [] else ls[0] + "\n" + JoinLines(ls[1..])
  }

  /** The first line of `s` and what follows its newline, when `s` has one. */
  lemma FirstLine(s: string)
    requires Find(s, '\n', 0).Some?
    ensures var i := Find(s, '\n', 0).value;
            '\n' !in s[..i] && s == s[..i] + "\n" + s[i + 1..]
  {
    var i := Find(s, '\n', 0).value;
    SkippedHasNone(s, '\n', 0);
    SplitAt(s, 0, i);
    assert s[0..] == s && s[0..i] == s[..i];
  }

  /** A string in which `Find` sees no newline holds none. */
  lemma NoNewline(s: string)
    requires Find(s, '\n', 0).None?
    ensures '\n' !in s
  {
    FindSkips(s, '\n', 0);
  }

  /** The lines the constructor's read loop yields: `readStringUntil('\n')`
      for as long as characters remain. Each read consumes the newline it
      stops at, and the last line need not end in one. Joining the lines
      again gives back the file, with a newline added at the end when the
      file did not end in one. */
  function SplitLines(s: string): (r: seq<string>)
    ensures forall i :: 0 <= i < |r| ==> '\n' !in r[i]
    ensures s == [] || s[|s| - 1] == '\n' ==> JoinLines(r) == s
    ensures s != [] && s[|s| - 1] != '\n' ==> JoinLines(r) == s + "\n"
    decreases |s|
  {
    if s == [] then []
    else
      match Find(s, '\n', 0)
      case None =>
        NoNewline(s);
        assert JoinLines([s]) == s + "\n" + JoinLines([]);
        [s]
      case Some(i) =>
        FirstLine(s);
        var rest := SplitLines(s[i + 1..]);
        var r := [s[..i]] + rest;
        assert r[1..] == rest;
        assert JoinLines(r) == s[..i] + "\n" + JoinLines(rest);
        assert s[i + 1..] != [] ==> s[i + 1..][|s[i + 1..]| - 1] == s[|s| - 1];
        Assoc(s[..i] + "\n", s[i + 1..], "\n");
        r
  }

  /** Reading text that starts with a newline-free line takes that line
      first and then reads on after its newline. */
  lemma SplitFirst(ls: seq<string>)
    requires ls != [] && '\n' !in ls[0]
    ensures SplitLines(JoinLines(ls)) == [ls[0]] + SplitLines(JoinLines(ls[1..]))
  {
    var s := JoinLines(ls);
    assert s == ls[0] + "\n" + JoinLines(ls[1..]);
    FindAfterField(s, [], ls[0], '\n', JoinLines(ls[1..]));
    assert s[..|ls[0]|] == ls[0];
    assert s[|ls[0]| + 1..] == JoinLines(ls[1..]);
  }

  /** Splitting recovers lines that were written one per line. */
  lemma {:induction false} SplitJoin(ls: seq<string>)
    requires forall i :: 0 <= i < |ls| ==> '\n' !in ls[i]
    ensures SplitLines(JoinLines(ls)) == ls
  {
    if ls != [] {
      SplitFirst(ls);
      SplitJoin(ls[1..]);
    }
  }
}
