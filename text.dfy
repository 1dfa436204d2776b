/**
 * The string operations the site's code uses from JavaScript's String and
 * Array prototypes (`includes`, `join`, and the count of matches that
 * `str.match(/p/g).length` gives), together with two helpers used only to
 * read the generated text back: the first index of a character and
 * splitting at a character.
 */
module Text {

  /** `p` occurs in `s` starting at index `i`. */
  predicate OccursAt(s: string, p: string, i: int)
  {
    0 <= i && i + |p| <= |s| && s[i..i + |p|] == p
  }

  predicate StartsWith(s: string, p: string)
  {
    |p| <= |s| && s[..|p|] == p
  }

  predicate EndsWith(s: string, p: string)
  {
    |p| <= |s| && s[|s| - |p|..] == p
  }

  /** `s.includes(p)`: true exactly when `p` occurs somewhere in `s`. */
  function Contains(s: string, p: string): (r: bool)
    ensures r <==> exists i :: OccursAt(s, p, i)
  {
    if |s| < |p| then
      false
    else if s[..|p|] == p then
      assert OccursAt(s, p, 0);
      true
    else
      forall i ensures OccursAt(s, p, i) <==> i > 0 && OccursAt(s[1..], p, i - 1) {
        if i > 0 && i + |p| <= |s| {
          assert s[1..][i - 1..i - 1 + |p|] == s[i..i + |p|];
        }
      }
      forall j | OccursAt(s[1..], p, j) ensures OccursAt(s, p, j + 1) {
        assert s[1..][j..j + |p|] == s[j + 1..j + 1 + |p|];
      }
      Contains(s[1..], p)
  }

  /** The first index holding `c`, or -1 when there is none (used to read a sitemap back). */
  function IndexOf(s: string, c: char): (r: int)
    ensures -1 <= r < |s|
    ensures r == -1 <==> c !in s
    ensures r >= 0 ==> s[r] == c && c !in s[..r]
  {
    if |s| == 0 then
      -1
    else if s[0] == c then
      0
    else
      var r := IndexOf(s[1..], c);
      if r == -1 then -1
      else
        assert s[..r + 1] == [s[0]] + s[1..][..r];
        r + 1
  }

  /**
   * Number of positions at which `p` occurs in `s`. For a pattern that
   * cannot overlap itself, such as "<url>", this is also the number of
   * matches that a global regular expression search reports.
   */
  function Count(s: string, p: string): nat
    requires |p| > 0
  {
    if |s| < |p| then 0
    else (if s[..|p|] == p then 1 else 0) + Count(s[1..], p)
  }

  /** `parts.join(sep)`: the parts in order, the separator between each two. */
  function Join(parts: seq<string>, sep: string): (r: string)
  {
    if |parts| == 0 then ""
    else if |parts| == 1 then parts[0]
    else parts[0] + sep + Join(parts[1..], sep)
  }

  /** Splitting at a character, as used to read robots.txt back line by line: never empty, and no piece holds `c`. */
  function Split(s: string, c: char): (r: seq<string>)
    ensures |r| >= 1
    ensures forall k :: 0 <= k < |r| ==> c !in r[k]
  {
    if s == [] then [""]
    else
      var rest := Split(s[1..], c);
      if s[0] == c then [""] + rest
      else [[s[0]] + rest[0]] + rest[1..]
  }

  /** Splitting undoes joining, when no piece contains the separator. */
  lemma {:induction false} SplitJoin(parts: seq<string>, c: char)
    requires |parts| >= 1
    requires forall k :: 0 <= k < |parts| ==> c !in parts[k]
    ensures Split(Join(parts, [c]), c) == parts
  {
    if |parts| == 1 {
      SplitNoSeparator(parts[0], c);
    } else {
      SplitJoin(parts[1..], c);
      assert Join(parts, [c]) == parts[0] + ([c] + Join(parts[1..], [c]));
      SplitPrefix(parts[0], [c] + Join(parts[1..], [c]), c);
      SplitSeparatorFirst(Join(parts[1..], [c]), c);
      assert ([""] + parts[1..])[1..] == parts[1..];
      assert parts[0] + "" == parts[0];
      assert parts == [parts[0]] + parts[1..];
    }
  }

  lemma {:induction false} SplitNoSeparator(s: string, c: char)
    requires c !in s
    ensures Split(s, c) == [s]
  {
    if s != [] {
      SplitNoSeparator(s[1..], c);
      assert [s[0]] + s[1..] == s;
    }
  }

  lemma SplitSeparatorFirst(s: string, c: char)
    ensures Split([c] + s, c) == [""] + Split(s, c)
  {
    assert ([c] + s)[1..] == s;
  }

  lemma {:induction false} SplitPrefix(x: string, y: string, c: char)
    requires c !in x
    requires |y| > 0 && y[0] == c
    ensures Split(x + y, c) == [x + Split(y, c)[0]] + Split(y, c)[1..]
  {
    if x == [] {
      assert x + y == y;
      assert Split(y, c) == [Split(y, c)[0]] + Split(y, c)[1..];
    } else {
      SplitPrefix(x[1..], y, c);
      assert (x + y)[1..] == x[1..] + y;
      assert [x[0]] + (x[1..] + Split(y, c)[0]) == x + Split(y, c)[0];
    }
  }

  /**
   * Counting distributes over concatenation when no occurrence of `p` can
   * start inside `a` and end inside `b`: the last character of `a` is not
   * one that `p` can continue from, or the first character of `b` is not
   * one that can continue `p`.
   */
  lemma CountConcat(a: string, b: string, p: string)
    requires |p| > 0
    requires (|a| > 0 && a[|a| - 1] !in p[..|p| - 1]) || (|b| > 0 && b[0] !in p[1..])
    ensures Count(a + b, p) == Count(a, p) + Count(b, p)
  {
    forall k | 0 < k < |p|
      ensures EndsWith(a, p[..k]) ==> a[|a| - 1] == p[..|p| - 1][k - 1]
      ensures StartsWith(b, p[k..]) ==> b[0] == p[1..][k - 1]
    {
    }
    CountConcatNoStraddle(a, b, p);
  }

  lemma {:induction false} CountConcatNoStraddle(a: string, b: string, p: string)
    requires |p| > 0
    requires forall k :: 0 < k < |p| ==> !(EndsWith(a, p[..k]) && StartsWith(b, p[k..]))
    ensures Count(a + b, p) == Count(a, p) + Count(b, p)
  {
    if a == [] {
      assert a + b == b;
    } else if |a + b| >= |p| {
      forall k | 0 < k < |p| ensures !(EndsWith(a[1..], p[..k]) && StartsWith(b, p[k..])) {
        if EndsWith(a[1..], p[..k]) {
          assert a[|a| - k..] == a[1..][|a[1..]| - k..];
        }
      }
      CountConcatNoStraddle(a[1..], b, p);
      assert (a + b)[1..] == a[1..] + b;
      if |a| < |p| {
        assert !(EndsWith(a, p[..|a|]) && StartsWith(b, p[|a|..]));
        assert (a + b)[..|p|] == a + b[..|p| - |a|];
        assert p == p[..|a|] + p[|a|..];
      } else {
        assert (a + b)[..|p|] == a[..|p|];
      }
    }
  }

  /** A string lacking one of the pattern's characters holds no occurrence of it. */
  lemma {:induction false} CountWithoutChar(s: string, p: string, c: char)
    requires |p| > 0 && c in p && c !in s
    ensures Count(s, p) == 0
  {
    if |s| >= |p| {
      assert s[..|p|] != p by {
        var j :| 0 <= j < |p| && p[j] == c;
        assert s[..|p|][j] == s[j];
      }
      CountWithoutChar(s[1..], p, c);
    }
  }

  /** A pattern that does not occur is counted zero times, and one that occurs is counted. */
  lemma {:induction false} CountZeroIff(s: string, p: string)
    requires |p| > 0
    ensures Count(s, p) == 0 <==> !Contains(s, p)
  {
    if |s| >= |p| && s[..|p|] != p {
      CountZeroIff(s[1..], p);
    }
  }
}
