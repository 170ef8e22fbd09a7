/**
 * The few Python string operations the modelled code relies on:
 * `str.startswith`, `str.replace(pat, "")`, `str.split(c)` and `c.join(parts)`
 * for a one-character separator `c`.
 */
module PyText {

  /** `s.startswith(prefix)` */
  predicate StartsWith(s: string, prefix: string) {
    |prefix| <= |s| && s[..|prefix|] == prefix
  }

  /** `startswith` compares character by character. */
  lemma StartsWithChars(s: string, prefix: string)
    ensures StartsWith(s, prefix) <==> |prefix| <= |s| && forall i :: 0 <= i < |prefix| ==> s[i] == prefix[i]
  {
  }

  /** `pat` occurs in `s` starting at index `i`. */
  predicate OccursAt(s: string, pat: string, i: nat) {
    i + |pat| <= |s| && s[i..i + |pat|] == pat
  }

  /** `s.replace(pat, "")`: a left-to-right scan that drops each non-overlapping
      occurrence of `pat`; the text left behind is not scanned again. */
  function RemoveAll(s: string, pat: string): (r: string)
    requires |pat| > 0
    ensures |r| <= |s|
    decreases |s|
  {
    if |s| < |pat| then s
    else if s[..|pat|] == pat then
      RemoveAll(s[|pat|..], pat)
    else [s[0]] + RemoveAll(s[1..], pat)
  }

  /** Removal only drops characters: the result keeps a sub-multiset of them. */
  lemma {:induction false} RemoveAllDrops(s: string, pat: string)
    requires |pat| > 0
    ensures multiset(RemoveAll(s, pat)) <= multiset(s)
    decreases |s|
  {
    if |s| >= |pat| {
      if s[..|pat|] == pat {
        RemoveAllDrops(s[|pat|..], pat);
        assert s == s[..|pat|] + s[|pat|..];
      } else {
        RemoveAllDrops(s[1..], pat);
        assert s == [s[0]] + s[1..];
      }
    }
  }

  lemma {:induction false} RemoveAllAbsent(s: string, pat: string)
    requires |pat| > 0
    requires forall i: nat :: !OccursAt(s, pat, i)
    ensures RemoveAll(s, pat) == s
    decreases |s|
  {
    if |s| >= |pat| {
      assert !OccursAt(s, pat, 0);
      forall i: nat ensures !OccursAt(s[1..], pat, i) {
        assert !OccursAt(s, pat, i + 1);
        if i + |pat| <= |s[1..]| {
          assert s[1..][i..i + |pat|] == s[i + 1..i + 1 + |pat|];
        }
      }
      RemoveAllAbsent(s[1..], pat);
      assert s == [s[0]] + s[1..];
    }
  }

  /** No occurrence among the first `n + 1` positions of `s` means none among
      the first `n` positions of its tail. */
  lemma NoOccurrenceInTail(s: string, pat: string, n: nat)
    requires s != []
    requires forall i: nat :: i < n + 1 ==> !OccursAt(s, pat, i)
    ensures forall i: nat :: i < n ==> !OccursAt(s[1..], pat, i)
  {
    forall i: nat | i < n ensures !OccursAt(s[1..], pat, i) {
      assert !OccursAt(s, pat, i + 1);
      if i + |pat| <= |s[1..]| {
        assert s[1..][i..i + |pat|] == s[i + 1..i + 1 + |pat|];
      }
    }
  }

  /** The scan drops the leftmost occurrence and resumes right after it: the
      text before it is kept and the text after it is scanned afresh, so
      characters on either side of a removed occurrence are never rejoined
      into a new one. */
  lemma {:induction false} RemoveAllLeftmost(a: string, b: string, pat: string)
    requires |pat| > 0
    requires forall i: nat :: i < |a| ==> !OccursAt(a + pat + b, pat, i)
    ensures RemoveAll(a + pat + b, pat) == a + RemoveAll(b, pat)
    decreases |a|
  {
    var s := a + pat + b;
    if a == [] {
      assert s == pat + b;
      assert s[..|pat|] == pat && s[|pat|..] == b;
    } else {
      var t := a[1..] + pat + b;
      assert s == [a[0]] + t;
      assert s[0] == a[0] && s[1..] == t;
      assert s[..|pat|] != pat by { assert !OccursAt(s, pat, 0); }
      assert RemoveAll(s, pat) == [a[0]] + RemoveAll(t, pat);
      NoOccurrenceInTail(s, pat, |a[1..]|);
      RemoveAllLeftmost(a[1..], b, pat);
      assert a == [a[0]] + a[1..];
    }
  }

  /** A leading occurrence and one more, with none in between or after, are both dropped. */
  lemma RemoveAllTwo(a: string, b: string, pat: string)
    requires |pat| > 0
    requires forall i: nat :: i < |a| ==> !OccursAt(a + pat + b, pat, i)
    requires forall i: nat :: !OccursAt(b, pat, i)
    ensures RemoveAll(pat + a + pat + b, pat) == a + b
  {
    var inner := a + pat + b;
    assert pat + a + pat + b == [] + pat + inner;
    RemoveAllLeftmost([], inner, pat);
    RemoveAllLeftmost(a, b, pat);
    RemoveAllAbsent(b, pat);
  }

  /** Index of the first `c` in `s`. */
  function FirstIndex(s: string, c: char): (i: nat)
    requires c in s
    ensures i < |s| && s[i] == c && c !in s[..i]
  {
    if s[0] == c then 0
    else
      var j := FirstIndex(s[1..], c);
      assert s[..j + 1] == [s[0]] + s[1..][..j];
      j + 1
  }

  lemma FirstIndexUnique(s: string, c: char, k: nat)
    requires k < |s| && s[k] == c && c !in s[..k]
    ensures FirstIndex(s, c) == k
  {
    var i := FirstIndex(s, c);
    forall j | 0 <= j < k ensures s[j] != c { assert s[..k][j] == s[j]; }
    forall j | 0 <= j < i ensures s[j] != c { assert s[..i][j] == s[j]; }
  }

  /** `s.split(sep)`: never empty; `"".split("/") == [""]`. */
  function Split(s: string, sep: char): (parts: seq<string>)
    ensures |parts| >= 1
    ensures forall k :: 0 <= k < |parts| ==> sep !in parts[k]
    decreases |s|
  {
    if sep !in s then [s]
    else
      var i := FirstIndex(s, sep);
      [s[..i]] + Split(s[i + 1..], sep)
  }

  /** `sep.join(parts)`: `"".join([]) == ""`. */
  function Join(parts: seq<string>, sep: char): string
  {
    if parts == [] then ""
    else if |parts| == 1 then parts[0]
    else parts[0] + [sep] + Join(parts[1..], sep)
  }

  /** The joined text starts with the first part, and when no part holds the
      separator, the separator occurs in it exactly when there are two parts or more. */
  lemma {:induction false} JoinSeparators(parts: seq<string>, sep: char)
    ensures parts != [] ==> StartsWith(Join(parts, sep), parts[0])
    ensures (forall i :: 0 <= i < |parts| ==> sep !in parts[i]) ==> (sep in Join(parts, sep) <==> |parts| > 1)
  {
    if |parts| > 1 {
      var r := Join(parts, sep);
      JoinSeparators(parts[1..], sep);
      assert r[..|parts[0]|] == parts[0];
      assert r[|parts[0]|] == sep;
      if forall i :: 0 <= i < |parts| ==> sep !in parts[i] {
        assert forall i :: 0 <= i < |parts[1..]| ==> parts[1..][i] == parts[i + 1];
      }
    }
  }

  /** Splitting and joining back on the same separator gives the text back. */
  lemma {:induction false} JoinSplit(s: string, sep: char)
    ensures Join(Split(s, sep), sep) == s
    decreases |s|
  {
    if sep in s {
      var i := FirstIndex(s, sep);
      var rest := Split(s[i + 1..], sep);
      JoinSplit(s[i + 1..], sep);
      assert Split(s, sep) == [s[..i]] + rest;
      assert ([s[..i]] + rest)[1..] == rest;
      assert s == s[..i] + [sep] + s[i + 1..];
    }
  }

  /** Joining parts free of the separator and splitting again gives the parts back. */
  lemma {:induction false} SplitJoin(parts: seq<string>, sep: char)
    requires |parts| >= 1
    requires forall k :: 0 <= k < |parts| ==> sep !in parts[k]
    ensures Split(Join(parts, sep), sep) == parts
  {
    if |parts| > 1 {
      var s := Join(parts, sep);
      var p0 := parts[0];
      assert s == p0 + [sep] + Join(parts[1..], sep);
      assert s[|p0|] == sep;
      assert s[..|p0|] == p0;
      FirstIndexUnique(s, sep, |p0|);
      assert s[|p0| + 1..] == Join(parts[1..], sep);
      SplitJoin(parts[1..], sep);
      assert parts == [p0] + parts[1..];
    }
  }

  /** The first part of a split is the text before the first separator, and the
      remaining parts joined back are the text after it. */
  lemma SplitHead(s: string, sep: char)
    requires sep in s
    ensures Split(s, sep)[0] == s[..FirstIndex(s, sep)]
    ensures Join(Split(s, sep)[1..], sep) == s[FirstIndex(s, sep) + 1..]
  {
    var i := FirstIndex(s, sep);
    assert Split(s, sep)[1..] == Split(s[i + 1..], sep);
    JoinSplit(s[i + 1..], sep);
  }
}
