/** The PHP string functions the block maker builds names and paths with:
    `explode` and `implode` on a one-character separator, `str_replace`
    of one character by another or of a word by nothing, `str_ends_with`. */
module Strings {

  /** `explode(c, s)`: the pieces between the occurrences of `c`, in order.
      There is always at least one piece. */
  function Split(s: string, c: char): (parts: seq<string>)
    ensures |parts| >= 1
    ensures forall p :: p in parts ==> c !in p
  {
    if s == [] then [""]
    else if s[0] == c then [""] + Split(s[1..], c)
    else
      var t := Split(s[1..], c);
      [[s[0]] + t[0]] + t[1..]
  }

  /** `implode(sep, parts)`. */
  function Join(parts: seq<string>, sep: string): string
  {
    if |parts| == 0 then ""
    else if |parts| == 1 then parts[0]
    else parts[0] + sep + Join(parts[1..], sep)
  }

  /** The prefix `implode(sep, xs) . sep` that the path getters put before a
      file or class name, or nothing when `xs` is empty. */
  function JoinedPrefix(xs: seq<string>, sep: string): string
  {
    if xs == [] then "" else Join(xs, sep) + sep
  }

  /** Joining the pieces of a split gives the string back. */
  lemma {:induction false} JoinSplit(s: string, c: char)
    ensures Join(Split(s, c), [c]) == s
  {
    if s != [] {
      var t := Split(s[1..], c);
      JoinSplit(s[1..], c);
      if s[0] == c {
        assert Split(s, c) == [""] + t;
      } else if |t| > 1 {
        assert Split(s, c)[1..] == t[1..];
      }
    }
  }

  /** A string without the separator splits into itself alone. */
  lemma {:induction false} SplitNoSeparator(s: string, c: char)
    requires c !in s
    ensures Split(s, c) == [s]
  {
    if s != [] {
      SplitNoSeparator(s[1..], c);
      assert [s[0]] + s[1..] == s;
    }
  }

  /** Splitting at one occurrence of the separator splits both sides. */
  lemma {:induction false} SplitAround(a: string, b: string, c: char)
    ensures Split(a + [c] + b, c) == Split(a, c) + Split(b, c)
  {
    if a == [] {
      assert a + [c] + b == [c] + b;
    } else {
      assert (a + [c] + b)[1..] == a[1..] + [c] + b;
      SplitAround(a[1..], b, c);
    }
  }

  /** A string splits into one piece exactly when it has no separator. */
  lemma SplitSingle(s: string, c: char)
    ensures |Split(s, c)| == 1 <==> c !in s
  {
    if c in s {
      var i :| 0 <= i < |s| && s[i] == c;
      assert s == s[..i] + [c] + s[i + 1..];
      SplitAround(s[..i], s[i + 1..], c);
    } else {
      SplitNoSeparator(s, c);
    }
  }

  /** Pieces without the separator are recovered by splitting their join. */
  lemma {:induction false} SplitJoin(parts: seq<string>, c: char)
    requires |parts| >= 1
    requires forall p :: p in parts ==> c !in p
    ensures Split(Join(parts, [c]), c) == parts
  {
    if |parts| == 1 {
      SplitNoSeparator(parts[0], c);
    } else {
      SplitJoin(parts[1..], c);
      SplitAround(parts[0], Join(parts[1..], [c]), c);
      SplitNoSeparator(parts[0], c);
    }
  }

  /** Joining a sequence with a non-empty tail is the joined prefix
      followed by the joined tail. */
  lemma {:induction false} JoinAfterPrefix(xs: seq<string>, ys: seq<string>, sep: string)
    requires |ys| > 0
    ensures Join(xs + ys, sep) == JoinedPrefix(xs, sep) + Join(ys, sep)
  {
    if |xs| == 1 {
      assert (xs + ys)[1..] == ys;
    } else if |xs| > 1 {
      assert (xs + ys)[1..] == xs[1..] + ys;
      JoinAfterPrefix(xs[1..], ys, sep);
    } else {
      assert xs + ys == ys;
    }
  }

  lemma ConcatAssoc(a: string, b: string, c: string)
    ensures a + b + c == a + (b + c)
  {
  }

  /** `str_replace(a, b, s)` for single characters. */
  function ReplaceChar(s: string, a: char, b: char): (r: string)
    ensures |r| == |s|
    ensures forall i :: 0 <= i < |s| ==> r[i] == if s[i] == a then b else s[i]
  {
    if s == [] then [] else [if s[0] == a then b else s[0]] + ReplaceChar(s[1..], a, b)
  }

  predicate StartsWith(s: string, prefix: string)
  {
    |prefix| <= |s| && s[..|prefix|] == prefix
  }

  /** `str_ends_with(s, suffix)`. */
  predicate EndsWith(s: string, suffix: string)
  {
    |suffix| <= |s| && s[|s| - |suffix|..] == suffix
  }

  /** `w` occurs in `s` starting at position `i`. */
  predicate OccursAt(s: string, w: string, i: int)
  {
    0 <= i <= |s| - |w| && s[i..i + |w|] == w
  }

  ghost predicate Contains(s: string, w: string)
  {
    exists i :: OccursAt(s, w, i)
  }

  /** `str_replace(w, '', s)`: removes the occurrences of `w` found scanning
      left to right, without overlap. */
  function RemoveAll(s: string, w: string): (r: string)
    requires w != ""
    ensures |r| <= |s|
    ensures !Contains(s, w) ==> r == s
    decreases |s|
  {
    if |s| < |w| then s
    else if s[..|w|] == w then
      assert OccursAt(s, w, 0);
      RemoveAll(s[|w|..], w)
    else
      var t := s[1..];
      assert !Contains(s, w) ==> !Contains(t, w) by {
        if Contains(t, w) {
          var i :| OccursAt(t, w, i);
          assert s[i + 1..i + 1 + |w|] == t[i..i + |w|];
          assert OccursAt(s, w, i + 1);
        }
      }
      [s[0]] + RemoveAll(t, w)
  }
  /** `str_replace($w, '', $s)` scans left to right: up to the first
      occurrence of `w` nothing is removed, that occurrence is, and the scan
      goes on after it. */
  lemma {:induction false} RemoveAllFirst(a: string, w: string, b: string)
    requires w != ""
    requires forall p :: 0 <= p < |a| ==> !OccursAt(a + w + b, w, p)
    ensures RemoveAll(a + w + b, w) == a + RemoveAll(b, w)
    decreases |a|
  {
    var s := a + w + b;
    if a == [] {
      assert s == w + b && s[..|w|] == w && s[|w|..] == b;
      assert RemoveAll(s, w) == RemoveAll(b, w) == a + RemoveAll(b, w);
    } else {
      var t := s[1..];
      assert t == a[1..] + w + b;
      RemoveAllKeepsHead(s, w);
      forall p | 0 <= p < |a| - 1
        ensures !OccursAt(t, w, p)
      {
        OccursShift(s, w, p);
      }
      RemoveAllFirst(a[1..], w, b);
      ConcatAssoc([a[0]], a[1..], RemoveAll(b, w));
      assert [a[0]] + a[1..] == a;
    }
  }

  /** Where `w` does not start the text, its first character stays. */
  lemma RemoveAllKeepsHead(s: string, w: string)
    requires w != "" && |s| >= |w| && !OccursAt(s, w, 0)
    ensures RemoveAll(s, w) == [s[0]] + RemoveAll(s[1..], w)
  {
  }

  /** An occurrence in the tail is one in the whole text, a place later. */
  lemma OccursShift(s: string, w: string, p: int)
    requires s != []
    ensures OccursAt(s[1..], w, p) ==> OccursAt(s, w, p + 1)
  {
    if OccursAt(s[1..], w, p) {
      assert s[p + 1..p + 1 + |w|] == s[1..][p..p + |w|];
    }
  }

  /** The removal is a single pass: an occurrence that only appears once an
      inner one is gone stays, as with `str_replace`. */
  lemma RemoveAllSinglePass()
    ensures RemoveAll("x_bl_blockock", "_block") == "x_block"
  {
    var w, s := "_block", "x_bl_blockock";
    assert s == "x_bl" + w + "ock";
    forall p | 0 <= p < 4
      ensures !OccursAt(s, w, p)
    {
      assert s[p + 3] != w[3];
    }
    RemoveAllFirst("x_bl", w, "ock");
    assert RemoveAll("ock", w) == "ock";
  }
}
