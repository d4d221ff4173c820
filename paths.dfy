/**
 * The part of pathlib's pure POSIX paths the converter uses: the final
 * component (`name`), its last suffix (`suffix`), the name without it
 * (`stem`) and `with_suffix`. A path is split at its last '/'.
 */
module Paths {
  import opened Wrappers
  import opened Text

  datatype PathError =
    | InvalidSuffix(suffix: string)  // with_suffix was given something that is not a suffix
    | EmptyName                      // the path has no final component to re-suffix

  /** Everything up to and including the last '/', or "" when there is none. */
  function DirPrefix(path: string): (d: string)
    ensures d <= path
    ensures d == [] || d[|d| - 1] == '/'
  {
    path[..RFind(path, '/') + 1]
  }

  /** `Path(path).name`: the final component, which holds no '/' and completes
      the directory prefix to the whole path. */
  function Name(path: string): (n: string)
    ensures Lacks(n, '/')
    ensures DirPrefix(path) + n == path
  {
    RFindSplit(path, '/');
    path[RFind(path, '/') + 1..]
  }

  /** `Path(...).suffix` of a final component `name`: the text from its last '.',
      provided that dot is neither the first nor the last character. A non-empty
      suffix is one dot followed by at least one character and no other dot. */
  function Suffix(name: string): (s: string)
    ensures |s| <= |name| && s == name[|name| - |s|..]
    ensures s != [] ==> 2 <= |s| < |name| && s[0] == '.' && Lacks(s[1..], '.')
  {
    var i := RFind(name, '.');
    if 0 < i < |name| - 1 then
      var s := name[i..];
      assert forall k :: 1 <= k < |s| ==> s[k] == name[i + k];
      s
    else ""
  }

  /** `Path(...).stem` of a final component `name`: what is left once the suffix
      is taken off; it is empty only for the empty name. */
  function Stem(name: string): (r: string)
    ensures r + Suffix(name) == name
    ensures name != [] ==> r != []
  {
    var i := RFind(name, '.');
    if 0 < i < |name| - 1 then name[..i] else name
  }

  lemma StemBeforeSuffix(name: string)
    ensures name[..|name| - |Suffix(name)|] == Stem(name)
    ensures Suffix(name) == [] ==> Stem(name) == name
  {
    var stem := Stem(name);
    assert stem + Suffix(name) == name;
    assert name[..|stem|] == stem;
  }

  /** A name has no suffix exactly when it has no dot, when its only dot is the
      leading one (a hidden file such as ".bashrc"), or when it ends in a dot. */
  lemma {:induction false} SuffixEmptyCases(name: string)
    ensures Suffix(name) == [] <==>
      Lacks(name, '.') ||
      (name[0] == '.' && Lacks(name[1..], '.')) ||
      (name[|name| - 1] == '.')
  {
    var i := RFind(name, '.');
    if !Lacks(name, '.') {
      var k :| 0 <= k < |name| && name[k] == '.';
      assert i >= k;
      if i == 0 {
        assert forall j :: 1 <= j < |name| ==> name[1..][j - 1] == name[j];
      }
    }
  }

  /** `Path(path).with_suffix(suffix)`. The suffix must be empty, or start with
      '.' and be more than just ".", and hold no '/'; the path must have a
      non-empty final component. The old suffix is replaced, or the new one is
      appended when there is none. */
  function WithSuffix(path: string, suffix: string): (r: Result<string, PathError>)
    ensures r.Failure? <==>
      (!Lacks(suffix, '/') || (suffix != [] && suffix[0] != '.') || suffix == "." || Name(path) == [])
    ensures r.Success? ==> r.value == DirPrefix(path) + (Stem(Name(path)) + suffix)
  {
    if !Lacks(suffix, '/') || (suffix != [] && suffix[0] != '.') || suffix == "." then
      Failure(InvalidSuffix(suffix))
    else
      var name := Name(path);
      if name == [] then
        Failure(EmptyName)
      else
        var oldSuffix := Suffix(name);
        var newName := if oldSuffix == [] then name + suffix
                       else name[..|name| - |oldSuffix|] + suffix;
        assert newName == Stem(name) + suffix by {
          StemBeforeSuffix(name);
        }
        Success(DirPrefix(path) + newName)
  }

  /** A suffix made of one dot and at least one further character, none of them
      a dot or a '/': `with_suffix` with it is undone by `suffix` and `stem`. */
  predicate IsSimpleSuffix(suffix: string) {
    |suffix| >= 2 && suffix[0] == '.' && Lacks(suffix[1..], '.') && Lacks(suffix, '/')
  }

  /** Joining a directory prefix and a final component splits back into them. */
  lemma {:induction false} SplitOfJoin(d: string, n: string)
    requires d == [] || d[|d| - 1] == '/'
    requires Lacks(n, '/')
    ensures DirPrefix(d + n) == d && Name(d + n) == n
  {
    RFindAtSplit(d, n, '/');
    assert (d + n)[..|d|] == d;
  }

  /** A non-empty stem followed by a simple suffix has exactly that suffix and
      that stem. */
  lemma {:induction false} SuffixOfResuffixed(stem: string, suffix: string)
    requires stem != []
    requires IsSimpleSuffix(suffix)
    ensures Suffix(stem + suffix) == suffix
    ensures Stem(stem + suffix) == stem
  {
    var n := stem + suffix;
    var tail := suffix[1..];
    assert n == (stem + ['.']) + tail;
    RFindAtSplit(stem + ['.'], tail, '.');
    assert n[|stem|..] == suffix;
    assert n[..|stem|] == stem;
  }

  /** The stem of a final component holds no '/'. */
  lemma StemLacksSeparator(path: string)
    ensures Lacks(Stem(Name(path)), '/')
  {
    var name, stem := Name(path), Stem(Name(path));
    assert stem + Suffix(name) == name;
    forall k | 0 <= k < |stem| ensures stem[k] != '/' {
      assert stem[k] == name[k];
    }
  }

  /** Re-suffixing keeps the directory and the stem, and the new path's suffix is
      exactly the one asked for. */
  lemma {:induction false} WithSuffixRoundTrip(path: string, suffix: string)
    requires IsSimpleSuffix(suffix)
    requires Name(path) != []
    ensures WithSuffix(path, suffix).Success?
    ensures var out := WithSuffix(path, suffix).value;
      && DirPrefix(out) == DirPrefix(path)
      && Name(out) == Stem(Name(path)) + suffix
      && Suffix(Name(out)) == suffix
      && Stem(Name(out)) == Stem(Name(path))
  {
    var d, stem := DirPrefix(path), Stem(Name(path));
    var n := stem + suffix;
    assert WithSuffix(path, suffix).value == d + n;
    StemLacksSeparator(path);
    assert Lacks(n, '/') by {
      forall k | 0 <= k < |n| ensures n[k] != '/' {
        if k < |stem| { assert n[k] == stem[k]; } else { assert n[k] == suffix[k - |stem|]; }
      }
    }
    SplitOfJoin(d, n);
    SuffixOfResuffixed(stem, suffix);
  }
}
