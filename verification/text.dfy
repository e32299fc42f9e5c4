/** String utilities that the theme module borrows from Python: `'\n'.join`,
    `str.split`, `str.endswith`, the ordering `sorted`/`dir` use on strings,
    and list-comprehension filtering. */
module Text {

  /** `sep.join(lines)` for a one-character separator. */
  function Join(lines: seq<string>, sep: char): (s: string)
    ensures |lines| > 0 ==> |lines[0]| <= |s| && s[..|lines[0]|] == lines[0]
    ensures |lines| > 1 ==> |lines[0]| < |s| && s[|lines[0]|] == sep
    ensures |lines| > 0 ==> EndsWith(s, lines[|lines| - 1])
    decreases |lines|
  {
    if |lines| == 0 then ""
    else if |lines| == 1 then lines[0]
    else lines[0] + [sep] + Join(lines[1..], sep)
  }

  /** `s.split(sep)`: the pieces between occurrences of `sep`; never empty. */
  function Split(s: string, sep: char): (pieces: seq<string>)
    ensures |pieces| >= 1
    decreases |s|
  {
    if |s| == 0 then [""]
    else if s[0] == sep then [""] + Split(s[1..], sep)
    else
      var rest := Split(s[1..], sep);
      [[s[0]] + rest[0]] + rest[1..]
  }

  /** A string without `sep` splits into itself alone. */
  lemma {:induction false} SplitNoSep(s: string, sep: char)
    requires sep !in s
    ensures Split(s, sep) == [s]
    decreases |s|
  {
    if |s| > 0 {
      assert sep !in s[1..];
      SplitNoSep(s[1..], sep);
      assert [s[0]] + s[1..] == s;
    }
  }

  /** Splitting `a + sep + b` yields `a` followed by the pieces of `b`. */
  lemma {:induction false} SplitAfterFirst(a: string, b: string, sep: char)
    requires sep !in a
    ensures Split(a + [sep] + b, sep) == [a] + Split(b, sep)
    decreases |a|
  {
    var s := a + [sep] + b;
    if |a| == 0 {
      assert s[0] == sep && s[1..] == b;
    } else {
      assert s[0] == a[0];
      assert s[1..] == a[1..] + [sep] + b;
      assert sep !in a[1..];
      SplitAfterFirst(a[1..], b, sep);
      assert [a[0]] + a[1..] == a;
    }
  }

  /** Joining lines that do not contain the separator, then splitting on it,
      gives the lines back. */
  lemma {:induction false} SplitJoin(lines: seq<string>, sep: char)
    requires |lines| >= 1
    requires forall i :: 0 <= i < |lines| ==> sep !in lines[i]
    ensures Split(Join(lines, sep), sep) == lines
    decreases |lines|
  {
    if |lines| == 1 {
      SplitNoSep(lines[0], sep);
    } else {
      SplitJoin(lines[1..], sep);
      SplitAfterFirst(lines[0], Join(lines[1..], sep), sep);
      assert [lines[0]] + lines[1..] == lines;
    }
  }

  /** `s.endswith(suffix)`. */
  predicate EndsWith(s: string, suffix: string) {
    |suffix| <= |s| && s[|s| - |suffix|..] == suffix
  }

  /** `s.endswith(suffix)` holds exactly when `s` is something followed by
      `suffix`. */
  lemma EndsWithDecompose(s: string, suffix: string)
    ensures EndsWith(s, suffix) <==> exists p :: p + suffix == s
  {
    if EndsWith(s, suffix) {
      assert s[..|s| - |suffix|] + suffix == s;
    }
    if p :| p + suffix == s {
      assert s[|p|..] == suffix;
    }
  }

  /** Python's `<` on `str`: lexicographic by code point, a proper prefix
      coming first. */
  predicate Less(a: string, b: string)
    decreases |a|
  {
    if |a| == 0 then |b| > 0
    else if |b| == 0 then false
    else if a[0] == b[0] then Less(a[1..], b[1..])
    else a[0] < b[0]
  }

  /** `a < b` when they agree before position `k` and `a` is smaller there
      (or `a` ends there and `b` does not). */
  lemma {:induction false} LessAt(a: string, b: string, k: nat)
    requires k <= |a| && k < |b| && a[..k] == b[..k]
    requires k == |a| || a[k] < b[k]
    ensures Less(a, b)
    decreases k
  {
    if k > 0 {
      assert a[0] == a[..k][0] == b[..k][0] == b[0];
      assert a[1..][..k - 1] == a[..k][1..] == b[..k][1..] == b[1..][..k - 1];
      LessAt(a[1..], b[1..], k - 1);
    }
  }

  /** The converse of `LessAt`: whenever `a < b` there is such a position, so
      `Less` is exactly lexicographic order. */
  lemma {:induction false} LessFirstDifference(a: string, b: string)
    requires Less(a, b)
    ensures exists k :: 0 <= k <= |a| && k < |b| && a[..k] == b[..k] && (k == |a| || a[k] < b[k])
    decreases |a|
  {
    if |a| > 0 && a[0] == b[0] {
      LessFirstDifference(a[1..], b[1..]);
      var k :| 0 <= k <= |a[1..]| && k < |b[1..]| && a[1..][..k] == b[1..][..k]
               && (k == |a[1..]| || a[1..][k] < b[1..][k]);
      assert a[..k + 1] == [a[0]] + a[1..][..k];
      assert b[..k + 1] == [b[0]] + b[1..][..k];
      assert a[..k + 1] == b[..k + 1];
    } else {
      assert a[..0] == b[..0];
    }
  }

  lemma {:induction false} LessIrreflexive(a: string)
    ensures !Less(a, a)
    decreases |a|
  {
    if |a| > 0 {
      LessIrreflexive(a[1..]);
    }
  }

  lemma {:induction false} LessTransitive(a: string, b: string, c: string)
    requires Less(a, b) && Less(b, c)
    ensures Less(a, c)
    decreases |a|
  {
    if |a| > 0 && |b| > 0 && |c| > 0 && a[0] == b[0] && b[0] == c[0] {
      LessTransitive(a[1..], b[1..], c[1..]);
    }
  }

  lemma LessAsymmetric(a: string, b: string)
    requires Less(a, b)
    ensures !Less(b, a)
  {
    if Less(b, a) {
      LessTransitive(a, b, a);
      LessIrreflexive(a);
    }
  }

  /** Every earlier element is smaller than every later one. */
  predicate StrictlySorted(s: seq<string>) {
    forall i, j :: 0 <= i < j < |s| ==> Less(s[i], s[j])
  }

  /** Adjacent elements are in order. */
  predicate Chained(s: seq<string>) {
    forall i :: 0 <= i < |s| - 1 ==> Less(s[i], s[i + 1])
  }

  lemma {:induction false} ChainedSorted(s: seq<string>)
    requires Chained(s)
    ensures StrictlySorted(s)
    decreases |s|
  {
    if |s| > 1 {
      ChainedSorted(s[1..]);
      forall i, j | 0 <= i < j < |s|
        ensures Less(s[i], s[j])
      {
        if i > 0 {
          assert Less(s[1..][i - 1], s[1..][j - 1]);
        } else if j > 1 {
          assert Less(s[1..][0], s[1..][j - 1]);
          LessTransitive(s[0], s[1], s[j]);
        }
      }
    }
  }

  /** A set of strings has at most one strictly sorted enumeration: the list
      `sorted` produces is determined by the set alone. */
  lemma {:induction false} SortedUnique(a: seq<string>, b: seq<string>)
    requires StrictlySorted(a) && StrictlySorted(b)
    requires forall x :: x in a <==> x in b
    ensures a == b
    decreases |a|
  {
    assert |a| > 0 ==> a[0] in b;
    assert |b| > 0 ==> b[0] in a;
    if |a| > 0 {
      if a[0] != b[0] {
        var i :| 0 <= i < |a| && a[i] == b[0];
        var j :| 0 <= j < |b| && b[j] == a[0];
        assert i > 0 && j > 0;
        assert Less(a[0], b[0]);
        assert Less(b[0], a[0]);
        LessAsymmetric(a[0], b[0]);
        assert false;
      }
      forall x
        ensures x in a[1..] <==> x in b[1..]
      {
        if x in a[1..] {
          var i :| 1 <= i < |a| && a[i] == x;
          assert Less(a[0], x);
          LessIrreflexive(x);
          assert x in b && x != b[0];
          var j :| 0 <= j < |b| && b[j] == x;
          assert j != 0;
          assert x == b[1..][j - 1];
        }
        if x in b[1..] {
          var j :| 1 <= j < |b| && b[j] == x;
          assert Less(b[0], x);
          LessIrreflexive(x);
          assert x in a && x != a[0];
          var i :| 0 <= i < |a| && a[i] == x;
          assert i != 0;
          assert x == a[1..][i - 1];
        }
      }
      SortedUnique(a[1..], b[1..]);
      assert a == [a[0]] + a[1..] && b == [b[0]] + b[1..];
    }
  }

  /** `[k for k in names if k.endswith(suffix)]`. */
  function FilterSuffix(names: seq<string>, suffix: string): (kept: seq<string>)
    ensures |kept| <= |names|
    decreases |names|
  {
    if |names| == 0 then []
    else if EndsWith(names[0], suffix) then [names[0]] + FilterSuffix(names[1..], suffix)
    else FilterSuffix(names[1..], suffix)
  }

  /** Filtering keeps exactly the names with the suffix. */
  lemma {:induction false} FilterMembers(names: seq<string>, suffix: string)
    ensures forall x :: x in FilterSuffix(names, suffix) <==> x in names && EndsWith(x, suffix)
    decreases |names|
  {
    if |names| > 0 {
      FilterMembers(names[1..], suffix);
      assert names == [names[0]] + names[1..];
    }
  }

  /** Filtering keeps the order of what it keeps. */
  lemma {:induction false} FilterSorted(names: seq<string>, suffix: string)
    requires StrictlySorted(names)
    ensures StrictlySorted(FilterSuffix(names, suffix))
    decreases |names|
  {
    if |names| > 0 {
      var tail := names[1..];
      assert StrictlySorted(tail) by {
        forall i, j | 0 <= i < j < |tail| ensures Less(tail[i], tail[j]) {
          assert tail[i] == names[i + 1] && tail[j] == names[j + 1];
        }
      }
      FilterSorted(tail, suffix);
      FilterMembers(tail, suffix);
      var rest := FilterSuffix(tail, suffix);
      if EndsWith(names[0], suffix) {
        var kept := [names[0]] + rest;
        forall i, j | 0 <= i < j < |kept| ensures Less(kept[i], kept[j]) {
          if i == 0 {
            assert kept[j] in tail;
            var k :| 0 <= k < |tail| && tail[k] == kept[j];
            assert names[k + 1] == kept[j];
          } else {
            assert kept[i] == rest[i - 1] && kept[j] == rest[j - 1];
          }
        }
      }
    }
  }

  /** `ch * n`. */
  function Repeat(ch: char, n: nat): (s: string)
    ensures |s| == n
    ensures forall i :: 0 <= i < n ==> s[i] == ch
  {
    if n == 0 then "" else [ch] + Repeat(ch, n - 1)
  }

}
