/**
 * The few string operations of Python's `str` that the converter relies on:
 * `lower`, `endswith` with one character, `rstrip` and `lstrip` with one
 * character, and `rfind` of one character.
 */
module Text {

  predicate IsUpper(c: char) {
    'A' <= c <= 'Z'
  }

  /** `c.lower()` on the ASCII range; every other character is left alone. */
  function LowerChar(c: char): char {
    if IsUpper(c) then (c as int + 32) as char else c
  }

  /** `s.lower()`: same length, every upper-case letter replaced by its
      lower-case letter, no upper-case letter left, and nothing else changed. */
  function Lower(s: string): (r: string)
    ensures |r| == |s|
    ensures forall i :: 0 <= i < |s| && IsUpper(s[i]) ==> r[i] == (s[i] as int + 32) as char
    ensures forall i :: 0 <= i < |r| ==> !IsUpper(r[i])
    ensures forall i :: 0 <= i < |s| && !IsUpper(s[i]) ==> r[i] == s[i]
    ensures forall i :: 0 <= i < |s| ==> (r[i] == '.' <==> s[i] == '.')
  {
    seq(|s|, i requires 0 <= i < |s| => LowerChar(s[i]))
  }

  /** No character of `s` is `c`. */
  predicate Lacks(s: string, c: char) {
    forall k :: 0 <= k < |s| ==> s[k] != c
  }

  /** `s.endswith(c)` for a one-character suffix. */
  predicate EndsWith(s: string, c: char) {
    |s| > 0 && s[|s| - 1] == c
  }

  /** `s.rstrip(c)`: the longest prefix of `s` that does not end in `c`, where
      everything removed is `c`. */
  function RStrip(s: string, c: char): (r: string)
    ensures r <= s
    ensures !EndsWith(r, c)
    ensures forall i :: |r| <= i < |s| ==> s[i] == c
    decreases |s|
  {
    if EndsWith(s, c) then RStrip(s[..|s| - 1], c) else s
  }

  /** `s.lstrip(c)`: the longest suffix of `s` that does not start with `c`,
      where everything removed is `c`. */
  function LStrip(s: string, c: char): (r: string)
    ensures |r| <= |s| && r == s[|s| - |r|..]
    ensures |r| == 0 || r[0] != c
    ensures forall i :: 0 <= i < |s| - |r| ==> s[i] == c
  {
    if |s| > 0 && s[0] == c then LStrip(s[1..], c) else s
  }

  /** `s.rfind(c)`: the index of the last `c` in `s`, or -1 when there is none. */
  function RFind(s: string, c: char): (i: int)
    ensures -1 <= i < |s|
    ensures i >= 0 ==> s[i] == c
    ensures forall j :: i < j < |s| ==> s[j] != c
  {
    LastIndexBefore(s, c, |s|)
  }

  /** The index of the last `c` among the first `n` characters of `s`, or -1. */
  function LastIndexBefore(s: string, c: char, n: nat): (i: int)
    requires n <= |s|
    ensures -1 <= i < n
    ensures i >= 0 ==> s[i] == c
    ensures forall j :: i < j < n ==> s[j] != c
  {
    if n == 0 then -1
    else if s[n - 1] == c then n - 1
    else LastIndexBefore(s, c, n - 1)
  }

  /** Cutting a sequence at any point and joining the halves gives it back. */
  lemma SplitAt(s: string, j: nat)
    requires j <= |s|
    ensures s[..j] + s[j..] == s
  {
  }

  /** Cutting `s` just after its last `c` leaves a tail without `c`. */
  lemma RFindSplit(s: string, c: char)
    ensures s[..RFind(s, c) + 1] + s[RFind(s, c) + 1..] == s
    ensures Lacks(s[RFind(s, c) + 1..], c)
  {
    var i := RFind(s, c);
    SplitAt(s, i + 1);
    TailLacks(s, c, i + 1);
  }

  /** Two strings without `c` joined have no `c` either. */
  lemma LacksJoin(a: string, b: string, c: char)
    requires Lacks(a, c) && Lacks(b, c)
    ensures Lacks(a + b, c)
  {
    var s := a + b;
    forall k | 0 <= k < |s| ensures s[k] != c {
      if k < |a| { assert s[k] == a[k]; } else { assert s[k] == b[k - |a|]; }
    }
  }

  /** A tail of `s` all of whose characters differ from `c` lacks `c`. */
  lemma TailLacks(s: string, c: char, from: nat)
    requires from <= |s|
    requires forall j :: from <= j < |s| ==> s[j] != c
    ensures Lacks(s[from..], c)
  {
    var t := s[from..];
    forall k | 0 <= k < |t| ensures t[k] != c {
      assert t[k] == s[from + k];
    }
  }

  /** Searching `d + n` for `c`, where `d` is empty or ends in `c` and `n` holds
      no `c`, finds the last character of `d`. */
  lemma {:induction false} RFindAtSplit(d: string, n: string, c: char)
    requires d == [] || d[|d| - 1] == c
    requires Lacks(n, c)
    ensures RFind(d + n, c) == |d| - 1
  {
    var s := d + n;
    forall j | |d| <= j < |s| ensures s[j] != c {
      assert s[j] == n[j - |d|];
    }
    if d != [] {
      assert s[|d| - 1] == c;
    }
  }
}
