/** The few operations on Python strings that the plugin installer relies on:
    substring membership (`pat in s`), `s.split(sep)`, `s.isdigit()` and
    `int(s)` on a digit string, with the first-occurrence search that split
    performs and the join that undoes it. */
module Strings {

  /** `pat` occurs in `s` starting at index `i`. */
  predicate OccursAt(s: string, pat: string, i: nat) {
    i + |pat| <= |s| && s[i..i + |pat|] == pat
  }

  /** Python's `pat in s`. */
  predicate Contains(s: string, pat: string) {
    exists i: nat :: i <= |s| && OccursAt(s, pat, i)
  }

  predicate StartsWith(s: string, prefix: string) {
    |prefix| <= |s| && s[..|prefix|] == prefix
  }

  predicate EndsWith(s: string, suffix: string) {
    |suffix| <= |s| && s[|s| - |suffix|..] == suffix
  }

  /** An occurrence at `i + 1` in `s` is an occurrence at `i` in `s[1..]`. */
  lemma OccursShift(s: string, pat: string, i: nat)
    requires |s| > 0
    ensures OccursAt(s, pat, i + 1) <==> OccursAt(s[1..], pat, i)
  {
    if i + 1 + |pat| <= |s| {
      assert s[1..][i..i + |pat|] == s[i + 1..i + 1 + |pat|];
    }
  }

  /** Python's `s.find(pat)`: the index of the first occurrence of `pat` in `s`, or -1. */
  function Find(s: string, pat: string): (r: int)
    ensures r == -1 <==> !Contains(s, pat)
    ensures r != -1 ==> 0 <= r && OccursAt(s, pat, r)
    ensures r != -1 ==> forall j: nat :: j < r ==> !OccursAt(s, pat, j)
  {
    if |s| < |pat| then
      -1
    else if s[..|pat|] == pat then
      assert OccursAt(s, pat, 0);
      0
    else
      var k := Find(s[1..], pat);
      assert !OccursAt(s, pat, 0);
      assert forall j: nat :: 0 < j ==> (OccursAt(s, pat, j) <==> OccursAt(s[1..], pat, j - 1)) by {
        forall j: nat | 0 < j ensures OccursAt(s, pat, j) <==> OccursAt(s[1..], pat, j - 1) {
          OccursShift(s, pat, j - 1);
        }
      }
      assert Contains(s, pat) ==> Contains(s[1..], pat) by {
        if Contains(s, pat) {
          var i: nat :| i <= |s| && OccursAt(s, pat, i);
          assert OccursAt(s[1..], pat, i - 1);
        }
      }
      assert Contains(s[1..], pat) ==> Contains(s, pat) by {
        if Contains(s[1..], pat) {
          var i: nat :| i <= |s[1..]| && OccursAt(s[1..], pat, i);
          assert OccursAt(s, pat, i + 1);
        }
      }
      if k == -1 then -1 else k + 1
  }

  /** Python's `s.split(sep)` with an explicit, non-empty separator: the pieces
      between the non-overlapping occurrences of `sep`, found left to right. */
  function Split(s: string, sep: string): (parts: seq<string>)
    requires |sep| > 0
    ensures |parts| >= 1
    ensures |parts| >= 2 <==> Contains(s, sep)
    decreases |s|
  {
    var i := Find(s, sep);
    if i == -1 then [s] else [s[..i]] + Split(s[i + |sep|..], sep)
  }

  /** Python's `sep.join(parts)`. */
  function Join(parts: seq<string>, sep: string): string {
    if |parts| == 0 then ""
    else if |parts| == 1 then parts[0]
    else parts[0] + sep + Join(parts[1..], sep)
  }

  /** Joining two or more pieces puts the separator after the first. */
  lemma JoinCons(parts: seq<string>, sep: string)
    requires |parts| >= 2
    ensures Join(parts, sep) == parts[0] + sep + Join(parts[1..], sep)
  {
  }

  lemma JoinPair(parts: seq<string>, sep: string)
    requires |parts| == 2
    ensures Join(parts, sep) == parts[0] + sep + parts[1]
  {
  }

  lemma JoinThree(parts: seq<string>, sep: string)
    requires |parts| == 3
    ensures Join(parts, sep) == parts[0] + sep + parts[1] + sep + parts[2]
  {
    JoinPair(parts[1..], sep);
  }

  /** One step of a split: the piece before the first separator, then the rest split. */
  lemma SplitFound(s: string, sep: string)
    requires |sep| > 0 && Find(s, sep) != -1
    ensures var i := Find(s, sep);
      Split(s, sep) == [s[..i]] + Split(s[i + |sep|..], sep) &&
      s == s[..i] + sep + s[i + |sep|..]
  {
    var i := Find(s, sep);
    Around(s, i, i + |sep|);
  }

  lemma Around(s: string, i: nat, j: nat)
    requires i <= j <= |s|
    ensures s == s[..i] + s[i..j] + s[j..]
  {
    assert s[..j] == s[..i] + s[i..j];
    assert s == s[..j] + s[j..];
  }

  /** Joining the pieces of a split with the same separator gives back the string. */
  lemma {:induction false} JoinSplit(s: string, sep: string)
    requires |sep| > 0
    ensures Join(Split(s, sep), sep) == s
    decreases |s|
  {
    var i := Find(s, sep);
    if i != -1 {
      var rest := s[i + |sep|..];
      var parts := Split(s, sep);
      SplitFound(s, sep);
      JoinSplit(rest, sep);
      assert parts[1..] == Split(rest, sep);
      JoinCons(parts, sep);
    }
  }

  /** No piece of a split contains the separator. */
  lemma {:induction false} SplitPiecesFree(s: string, sep: string)
    requires |sep| > 0
    ensures forall k :: 0 <= k < |Split(s, sep)| ==> !Contains(Split(s, sep)[k], sep)
    decreases |s|
  {
    var i := Find(s, sep);
    if i != -1 {
      var rest := s[i + |sep|..];
      SplitPiecesFree(rest, sep);
      var head := s[..i];
      assert !Contains(head, sep) by {
        if Contains(head, sep) {
          var j: nat :| j <= |head| && OccursAt(head, sep, j);
          assert s[j..j + |sep|] == head[j..j + |sep|];
          assert OccursAt(s, sep, j);
          assert false;
        }
      }
      assert Split(s, sep) == [head] + Split(rest, sep);
    }
  }

  /** For a one-character pattern, `[c] in s` is membership of the character. */
  lemma ContainsChar(s: string, c: char)
    ensures Contains(s, [c]) <==> c in s
  {
    if c in s {
      var i :| 0 <= i < |s| && s[i] == c;
      assert OccursAt(s, [c], i);
    }
    if Contains(s, [c]) {
      var i: nat :| i <= |s| && OccursAt(s, [c], i);
      assert s[i] == s[i..i + 1][0];
    }
  }

  /** Splitting at a character absent from the string leaves the string whole. */
  lemma SplitWithout(s: string, c: char)
    requires c !in s
    ensures Split(s, [c]) == [s]
  {
    ContainsChar(s, c);
  }

  /** The first occurrence of `c` in `a + [c] + b`, when `a` lacks `c`, is right after `a`. */
  lemma SplitAtFirst(a: string, c: char, b: string)
    requires c !in a
    ensures Split(a + [c] + b, [c]) == [a] + Split(b, [c])
  {
    var s, pat := a + [c] + b, [c];
    assert OccursAt(s, pat, |a|);
    forall j: nat | j < |a| ensures !OccursAt(s, pat, j) {
      assert s[j] == a[j];
      assert s[j..j + 1][0] == s[j];
    }
    var i := Find(s, pat);
    assert i == |a|;
    assert s[..i] == a;
    assert s[i + 1..] == b;
  }

  /** Python's `s.isdigit()` for ASCII text: non-empty and only decimal digits. */
  predicate IsDigits(s: string) {
    |s| > 0 && forall k :: 0 <= k < |s| ==> '0' <= s[k] <= '9'
  }

  /** Python's `int(s)` for a string of decimal digits: a number of `|s|`
      digits is below 10^|s|. */
  function DecimalValue(s: string): (n: nat)
    requires forall k :: 0 <= k < |s| ==> '0' <= s[k] <= '9'
    ensures n < Power10(|s|)
    decreases |s|
  {
    if s == [] then 0
    else
      var high := DecimalValue(s[..|s| - 1]);
      assert high + 1 <= Power10(|s| - 1);
      high * 10 + (s[|s| - 1] as int - '0' as int)
  }

  /** Leading zeros do not change the value (`int("06") == 6`). */
  lemma {:induction false} LeadingZero(s: string)
    requires forall k :: 0 <= k < |s| ==> '0' <= s[k] <= '9'
    ensures DecimalValue("0" + s) == DecimalValue(s)
    decreases |s|
  {
    if s != [] {
      var t := "0" + s;
      assert t[..|t| - 1] == "0" + s[..|s| - 1];
      LeadingZero(s[..|s| - 1]);
    }
  }

  /** Reading a number from its first digit: the leading digit weighs
      10^(number of digits after it). */
  lemma {:induction false} LeadingDigit(d: char, s: string)
    requires '0' <= d <= '9' && forall k :: 0 <= k < |s| ==> '0' <= s[k] <= '9'
    ensures DecimalValue([d] + s) == (d as int - '0' as int) * Power10(|s|) + DecimalValue(s)
    decreases |s|
  {
    if s != [] {
      var t := [d] + s;
      var init := s[..|s| - 1];
      var last := s[|s| - 1] as int - '0' as int;
      assert t[..|t| - 1] == [d] + init;
      assert t[|t| - 1] == s[|s| - 1];
      LeadingDigit(d, init);
      var digit, p, rest := d as int - '0' as int, Power10(|init|), DecimalValue(init);
      assert DecimalValue(t) == (digit * p + rest) * 10 + last;
      assert Power10(|s|) == 10 * p;
      assert DecimalValue(s) == rest * 10 + last;
      ShiftDigit(digit, p, rest, last);
    }
  }

  lemma ShiftDigit(digit: int, p: int, rest: int, last: int)
    ensures (digit * p + rest) * 10 + last == digit * (10 * p) + (rest * 10 + last)
  {
  }

  /** A number written with at least `|s|` digits and no leading zero is at least 10^(|s|-1). */
  lemma {:induction false} NoLeadingZeroBound(s: string)
    requires IsDigits(s) && s[0] != '0'
    ensures DecimalValue(s) >= Power10(|s| - 1)
    decreases |s|
  {
    if |s| > 1 {
      NoLeadingZeroBound(s[..|s| - 1]);
    }
  }

  function Power10(k: nat): (p: nat)
    ensures p >= 1
  {
    if k == 0 then 1 else 10 * Power10(k - 1)
  }
}
