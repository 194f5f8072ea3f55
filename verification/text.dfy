/** Character search and counting over strings, as `std::string` offers them. */
module Text {

  datatype Option<T> = None | Some(value: T)

  /** Number of occurrences of `c` in `s` at index `from` or later. */
  function CountFrom(s: string, c: char, from: nat): nat
    decreases |s| - from
  {
    if from >= |s| then 0 else (if s[from] == c then 1 else 0) + CountFrom(s, c, from + 1)
  }

  /** Number of occurrences of `c` in `s`. */
  function Count(s: string, c: char): nat
  {
    CountFrom(s, c, 0)
  }

  /** `s.find(c, from)`: the first index at or after `from` that holds `c`,
      or `None` for `std::string::npos`. */
  function Find(s: string, c: char, from: nat): (r: Option<nat>)
    ensures r.Some? ==> from <= r.value < |s| && s[r.value] == c
    decreases |s| - from
  {
    if from >= |s| then None
    else if s[from] == c then Some(from)
    else Find(s, c, from + 1)
  }

  /** `Find` fails exactly when no `c` is left, and each hit consumes one
      occurrence of `c`. */
  lemma {:induction false} FindCount(s: string, c: char, from: nat)
    ensures Find(s, c, from).None? <==> CountFrom(s, c, from) == 0
    ensures Find(s, c, from).Some? ==>
              CountFrom(s, c, from) == 1 + CountFrom(s, c, Find(s, c, from).value + 1)
    decreases |s| - from
  {
    if from < |s| {
      FindCount(s, c, from + 1);
    }
  }

  /** `Find` passes over no `c`: everything it skips differs from `c`. */
  lemma {:induction false} FindSkips(s: string, c: char, from: nat)
    ensures Find(s, c, from).Some? ==>
              forall k :: from <= k < Find(s, c, from).value ==> s[k] != c
    ensures Find(s, c, from).None? ==> forall k :: from <= k < |s| ==> s[k] != c
    decreases |s| - from
  {
    if from < |s| && s[from] != c {
      FindSkips(s, c, from + 1);
    }
  }

  /** A `c` with no earlier `c` since `from` is what `Find` returns. */
  lemma {:induction false} FindFirst(s: string, c: char, from: nat, i: nat)
    requires from <= i < |s| && s[i] == c
    requires forall k :: from <= k < i ==> s[k] != c
    ensures Find(s, c, from) == Some(i)
    decreases i - from
  {
    if from < i {
      FindFirst(s, c, from + 1, i);
    }
  }

  /** In `s == pre + field + [c] + post`, a search that starts at `field`
      stops at the `c` right after it when `field` holds no `c`. */
  lemma FindAfterField(s: string, pre: string, field: string, c: char, post: string)
    requires s == pre + field + [c] + post
    requires c !in field
    ensures Find(s, c, |pre|) == Some(|pre| + |field|)
  {
    forall k | |pre| <= k < |pre| + |field| ensures s[k] != c {
      assert s[k] == field[k - |pre|];
    }
    FindFirst(s, c, |pre|, |pre| + |field|);
  }

  /** The stretch `Find` passes over holds no `c`. */
  lemma SkippedHasNone(s: string, c: char, from: nat)
    requires Find(s, c, from).Some?
    ensures c !in s[from..Find(s, c, from).value]
  {
    FindSkips(s, c, from);
    var field := s[from..Find(s, c, from).value];
    forall k | 0 <= k < |field| ensures field[k] != c {
      assert field[k] == s[from + k];
    }
  }

  /** A suffix splits around any of its positions. */
  lemma SplitAt(s: string, from: nat, i: nat)
    requires from <= i < |s|
    ensures s[from..] == s[from..i] + [s[i]] + s[i + 1..]
  {
  }

  lemma Assoc<T>(a: seq<T>, b: seq<T>, c: seq<T>)
    ensures a + (b + c) == (a + b) + c
  {
  }

  /** A string with `c` at three increasing positions is the four pieces
      between them joined again by `c`. */
  lemma Rejoin3(s: string, c: char, i: nat, j: nat, k: nat)
    requires i < j < k < |s| && s[i] == c && s[j] == c && s[k] == c
    ensures s == s[..i] + [c] + s[i + 1..j] + [c] + s[j + 1..k] + [c] + s[k + 1..]
  {
  }

  /** The converse of `Rejoin3`: in `p + [c] + x + [c] + y + [c] + z` with no
      `c` inside `p`, `x` and `y`, the first three `c`s are the joining ones. */
  lemma Join3Finds(p: string, x: string, y: string, z: string, c: char)
    requires c !in p && c !in x && c !in y
    ensures var s := p + [c] + x + [c] + y + [c] + z;
            var i, j, k := |p|, |p| + 1 + |x|, |p| + 1 + |x| + 1 + |y|;
            Find(s, c, 0) == Some(i) && Find(s, c, i + 1) == Some(j) && Find(s, c, j + 1) == Some(k)
  {
    var s := p + [c] + x + [c] + y + [c] + z;
    var a := p + [c];
    var d := a + x + [c];
    forall n | 0 <= n < |p| ensures s[n] != c {
      assert s[n] == p[n];
    }
    FindFirst(s, c, 0, |p|);
    Assoc(d, y + [c], z);
    Assoc(d, y, [c]);
    FindAfterField(s, a, x, c, y + [c] + z);
    FindAfterField(s, d, y, c, z);
  }

  /** Slicing `p + [c] + x + [c] + y + [c] + z` between the joining `c`s
      recovers the pieces. */
  lemma Join3Slices(p: string, x: string, y: string, z: string, c: char)
    ensures var s := p + [c] + x + [c] + y + [c] + z;
            var i, j, k := |p|, |p| + 1 + |x|, |p| + 1 + |x| + 1 + |y|;
            s[..i] == p && s[i + 1..j] == x && s[j + 1..k] == y && s[k + 1..] == z
  {
  }
}
