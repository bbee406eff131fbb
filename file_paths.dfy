/**
 * The slash-separated path and string helpers the release logic relies on:
 * Go's strings.Split, strings.Join, strings.TrimSuffix, and filepath.Join,
 * filepath.Base and filepath.Dir on '/'-separated paths. Path cleaning
 * ("..", "." and repeated separators inside a path) is not modelled.
 */
module FilePaths {

  /** The path separator. */
  const Sep: char := '/'

  /** strings.TrimSuffix: drops one trailing occurrence of `suffix`, if present. */
  function TrimSuffix(s: string, suffix: string): (t: string)
    ensures t == s || t + suffix == s
  {
    if |suffix| <= |s| && s[|s| - |suffix|..] == suffix then s[..|s| - |suffix|] else s
  }

  // ---------------------------------------------------------------------------
  // strings.Split and strings.Join with a one-character separator
  // ---------------------------------------------------------------------------

  /** strings.Split(s, string(c)): the maximal c-free segments of s, in order. */
  function Split(s: string, c: char): (parts: seq<string>)
    ensures |parts| >= 1
    decreases |s|
  {
    if s == [] then [""] else SplitStep(s[0], c, Split(s[1..], c))
  }

  /**
   * One character in front of the segments of the rest: a separator opens a new
   * empty segment, any other character is prepended to the first segment.
   */
  function SplitStep(x: char, c: char, rest: seq<string>): (parts: seq<string>)
    requires |rest| >= 1
    ensures |parts| >= 1
  {
    if x == c then [""] + rest else [[x] + rest[0]] + rest[1..]
  }

  /** strings.Join(parts, string(c)). */
  function JoinWith(parts: seq<string>, c: char): string
    decreases |parts|
  {
    if |parts| == 0 then ""
    else if |parts| == 1 then parts[0]
    else parts[0] + [c] + JoinWith(parts[1..], c)
  }

  /** No segment produced by Split contains the separator. */
  lemma {:induction false} SplitSegmentsFree(s: string, c: char)
    ensures forall k :: 0 <= k < |Split(s, c)| ==> c !in Split(s, c)[k]
    decreases |s|
  {
    if s != [] {
      SplitSegmentsFree(s[1..], c);
      var rest := Split(s[1..], c);
      if s[0] != c {
        assert c !in [s[0]] + rest[0];
      }
    }
  }

  /** Joining the segments back with the separator gives the original string. */
  lemma {:induction false} JoinSplit(s: string, c: char)
    ensures JoinWith(Split(s, c), c) == s
    decreases |s|
  {
    if s != [] {
      var rest := Split(s[1..], c);
      JoinSplit(s[1..], c);
      if s[0] == c {
        assert ([""] + rest)[1..] == rest;
        assert s == [c] + s[1..];
      } else {
        var parts := [[s[0]] + rest[0]] + rest[1..];
        assert parts[1..] == rest[1..];
        if |rest| == 1 {
          assert s == [s[0]] + rest[0];
        } else {
          assert JoinWith(rest, c) == rest[0] + [c] + JoinWith(rest[1..], c);
          assert s == [s[0]] + rest[0] + [c] + JoinWith(rest[1..], c);
        }
      }
    }
  }

  /** A string without the separator is a single segment. */
  lemma {:induction false} SplitFree(a: string, c: char)
    requires c !in a
    ensures Split(a, c) == [a]
    decreases |a|
  {
    if a != [] {
      assert c !in a[1..];
      SplitFree(a[1..], c);
      assert [a[0]] + a[1..] == a;
    }
  }

  /** Split unfolded once on a string with a known first character. */
  lemma SplitCons(x: char, t: string, c: char)
    ensures Split([x] + t, c) == SplitStep(x, c, Split(t, c))
  {
    assert ([x] + t)[0] == x && ([x] + t)[1..] == t;
  }

  /** Appending segments after the rest commutes with one step of Split. */
  lemma SplitStepAppend(x: char, c: char, r: seq<string>, tail: seq<string>)
    requires |r| >= 1
    ensures SplitStep(x, c, r + tail) == SplitStep(x, c, r) + tail
  {
    assert (r + tail)[0] == r[0];
    assert (r + tail)[1..] == r[1..] + tail;
  }

  /** The inductive step of SplitConcat: a common first character keeps a common tail of segments. */
  lemma SplitConsAppend(x: char, t: string, u: string, tail: seq<string>, c: char)
    requires Split(t, c) == Split(u, c) + tail
    ensures Split([x] + t, c) == Split([x] + u, c) + tail
  {
    SplitCons(x, t, c);
    SplitCons(x, u, c);
    SplitStepAppend(x, c, Split(u, c), tail);
  }

  /** Splitting distributes over a separator: Split(a + "c" + b) == Split(a) ++ Split(b). */
  lemma {:induction false} SplitConcat(a: string, b: string, c: char)
    ensures Split(a + [c] + b, c) == Split(a, c) + Split(b, c)
    decreases |a|
  {
    if a == [] {
      assert a + [c] + b == [c] + b;
      SplitCons(c, b, c);
    } else {
      SplitConcat(a[1..], b, c);
      SplitConsAppend(a[0], a[1..] + [c] + b, a[1..], Split(b, c), c);
      assert a == [a[0]] + a[1..];
      assert a + [c] + b == [a[0]] + (a[1..] + [c] + b);
    }
  }

  /** Joining separator-free segments and splitting again gives the segments back. */
  lemma {:induction false} SplitJoin(parts: seq<string>, c: char)
    requires |parts| >= 1
    requires forall k :: 0 <= k < |parts| ==> c !in parts[k]
    ensures Split(JoinWith(parts, c), c) == parts
    decreases |parts|
  {
    SplitFree(parts[0], c);
    if |parts| > 1 {
      SplitJoin(parts[1..], c);
      SplitConcat(parts[0], JoinWith(parts[1..], c), c);
      assert [parts[0]] + parts[1..] == parts;
    }
  }

  /** Split yields at least two segments exactly when the separator occurs. */
  lemma {:induction false} SplitHasTwo(s: string, c: char)
    ensures |Split(s, c)| >= 2 <==> c in s
  {
    if c in s {
      var i :| 0 <= i < |s| && s[i] == c;
      assert s == s[..i] + [c] + s[i + 1..];
      SplitConcat(s[..i], s[i + 1..], c);
    } else {
      SplitFree(s, c);
    }
  }

  // ---------------------------------------------------------------------------
  // filepath.Join, filepath.Base, filepath.Dir
  // ---------------------------------------------------------------------------

  /** filepath.Join of two elements: empty elements are skipped, without cleaning. */
  function Join(a: string, b: string): string
  {
    if a == "" then b else if b == "" then a else a + [Sep] + b
  }

  /** Joining a plain element onto a non-empty path appends it as one more segment. */
  lemma SplitOfJoin(a: string, n: string)
    requires a != "" && IsElement(n)
    ensures Join(a, n) != ""
    ensures Split(Join(a, n), Sep) == Split(a, Sep) + [n]
  {
    SplitFree(n, Sep);
    SplitConcat(a, n, Sep);
  }

  /** The path with every trailing separator removed. */
  function TrimTrailing(p: string): (q: string)
    ensures |q| <= |p| && q == p[..|q|]
    ensures q == "" || q[|q| - 1] != Sep
    ensures forall k :: |q| <= k < |p| ==> p[k] == Sep
    decreases |p|
  {
    if p != "" && p[|p| - 1] == Sep then TrimTrailing(p[..|p| - 1]) else p
  }

  /** The index of the last separator of s, or -1 when there is none. */
  function LastSep(s: string): (i: int)
    ensures -1 <= i < |s|
    ensures 0 <= i ==> s[i] == Sep
    ensures forall k :: i < k < |s| ==> s[k] != Sep
    decreases |s|
  {
    if s == "" then -1
    else if s[|s| - 1] == Sep then |s| - 1
    else LastSep(s[..|s| - 1])
  }

  /**
   * filepath.Base: "." for the empty path, "/" for a path made only of
   * separators, otherwise the last element after trailing separators are dropped.
   */
  function Base(p: string): (b: string)
    ensures b != ""
    ensures b == [Sep] || Sep !in b
  {
    if p == "" then "."
    else
      var q := TrimTrailing(p);
      if q == "" then [Sep] else q[LastSep(q) + 1..]
  }

  /**
   * filepath.Dir: "." when there is no separator, otherwise everything before
   * the last separator with trailing separators dropped ("/" if nothing is left).
   */
  function Dir(p: string): (d: string)
    ensures d != ""
    ensures d == [Sep] || d[|d| - 1] != Sep
  {
    var i := LastSep(p);
    if i < 0 then "."
    else
      var q := TrimTrailing(p[..i]);
      if q == "" then [Sep] else q
  }

  /** A plain, non-empty element is a path whose own base name is itself. */
  predicate IsElement(n: string)
  {
    n != "" && Sep !in n
  }

  /** The last separator of d + "/" + n, when n holds none, is the one before n. */
  lemma LastSepOfChild(d: string, n: string)
    requires Sep !in n
    ensures LastSep(d + [Sep] + n) == |d|
  {
    var s := d + [Sep] + n;
    var i := LastSep(s);
    assert s[|d|] == Sep;
  }

  /** The base name of d + "/" + n is n. */
  lemma BaseOfChild(d: string, n: string)
    requires IsElement(n)
    ensures Base(d + [Sep] + n) == n
  {
    var s := d + [Sep] + n;
    assert s[|s| - 1] == n[|n| - 1];
    assert TrimTrailing(s) == s;
    LastSepOfChild(d, n);
    assert s[|d| + 1..] == n;
  }

  /** A plain element is its own base name. */
  lemma BaseOfElement(n: string)
    requires IsElement(n)
    ensures Base(n) == n
  {
    assert n[|n| - 1] != Sep;
    assert TrimTrailing(n) == n;
    assert LastSep(n) == -1;
  }

  /** The base name of Join(d, n) is n, for a plain element n. */
  lemma BaseOfJoin(d: string, n: string)
    requires IsElement(n)
    ensures Base(Join(d, n)) == n
  {
    if d == "" {
      BaseOfElement(n);
    } else {
      BaseOfChild(d, n);
    }
  }

  /** The directory of d + "/" + n is d, when d has no trailing separator. */
  lemma DirOfChild(d: string, n: string)
    requires d != "" && d[|d| - 1] != Sep
    requires Sep !in n
    ensures Dir(d + [Sep] + n) == d
  {
    var s := d + [Sep] + n;
    LastSepOfChild(d, n);
    assert s[..|d|] == d;
    assert TrimTrailing(d) == d;
  }

  /** The directory of Join(d, n) is d. */
  lemma DirOfJoin(d: string, n: string)
    requires d != "" && d[|d| - 1] != Sep
    requires IsElement(n)
    ensures Dir(Join(d, n)) == d
  {
    DirOfChild(d, n);
  }

  /** Replacing the last element keeps the directory: Dir(Dir(p) + "/" + n) == Dir(p). */
  lemma DirOfSibling(p: string, n: string)
    requires Sep !in n
    ensures Dir(Dir(p) + [Sep] + n) == Dir(p)
  {
    var d := Dir(p);
    if d == [Sep] {
      var s := d + [Sep] + n;
      LastSepOfChild(d, n);
      assert s[..|d|] == [Sep];
      assert TrimTrailing([Sep]) == "";
    } else {
      DirOfChild(d, n);
    }
  }
}
