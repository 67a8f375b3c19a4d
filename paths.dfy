/** Path.GetExtension as the provider factory uses it. */
module Paths {
  import opened Strings

  /** The directory separator, the alternative separator and the volume separator. */
  predicate IsSeparator(c: char) {
    c == '\\' || c == '/' || c == ':'
  }

  /** Path.GetExtension: scanning backwards from the end, the suffix that
      starts at the first '.' met; empty if a separator is met first, if
      there is no '.', or if the '.' is the last character. */
  function GetExtension(path: string): string {
    ExtensionBefore(path, |path|)
  }

  /** The scan of GetExtension, looking at path[..i]. */
  function ExtensionBefore(path: string, i: nat): string
    requires i <= |path|
    decreases i
  {
    if i == 0 then ""
    else if path[i - 1] == '.' then (if i != |path| then path[i - 1..] else "")
    else if IsSeparator(path[i - 1]) then ""
    else ExtensionBefore(path, i - 1)
  }

  /** An extension: a '.', at least one more character, and no further '.'
      or separator. */
  predicate IsExtension(e: string) {
    && |e| >= 2
    && e[0] == '.'
    && forall k | 1 <= k < |e| :: e[k] != '.' && !IsSeparator(e[k])
  }

  lemma {:induction false} ExtensionBeforeShape(path: string, i: nat)
    requires i <= |path|
    requires forall k | i <= k < |path| :: path[k] != '.' && !IsSeparator(path[k])
    ensures var e := ExtensionBefore(path, i); e == "" || (IsExtension(e) && EndsWith(path, e))
  {
    if i > 0 && path[i - 1] != '.' && !IsSeparator(path[i - 1]) {
      ExtensionBeforeShape(path, i - 1);
    }
  }

  /** What GetExtension returns is empty or an extension that ends the path. */
  lemma GetExtensionShape(path: string)
    ensures var e := GetExtension(path); e == "" || (IsExtension(e) && EndsWith(path, e))
  {
    ExtensionBeforeShape(path, |path|);
  }

  lemma {:induction false} ExtensionBeforeOfSuffix(path: string, e: string, i: nat)
    requires IsExtension(e) && EndsWith(path, e)
    requires |path| - |e| < i <= |path|
    ensures ExtensionBefore(path, i) == e
    decreases i
  {
    var start := |path| - |e|;
    if i - 1 == start {
      assert path[i - 1] == e[0];
    } else {
      assert path[i - 1] == e[i - 1 - start];
      ExtensionBeforeOfSuffix(path, e, i - 1);
    }
  }

  /** A path that ends in an extension has exactly that extension. */
  lemma GetExtensionOfSuffix(path: string, e: string)
    requires IsExtension(e) && EndsWith(path, e)
    ensures GetExtension(path) == e
  {
    ExtensionBeforeOfSuffix(path, e, |path|);
  }

  /** A lower-case extension made of a '.' and ASCII letters (".db", ".sqlite", ".duckdb"). */
  predicate IsLetterExtension(x: string) {
    |x| >= 2 && x[0] == '.' && forall k | 1 <= k < |x| :: 'a' <= x[k] <= 'z'
  }

  /** A lower-cased extension equal to x means the lower-cased path ends in x. */
  lemma LowerExtensionEnds(path: string, x: string)
    requires IsLetterExtension(x) && Lower(GetExtension(path)) == x
    ensures EndsWith(Lower(path), x)
  {
    var e := GetExtension(path);
    GetExtensionShape(path);
    assert e != "";
    LowerSuffix(path, |path| - |e|);
    assert Lower(path)[|path| - |e|..] == Lower(e);
  }

  /** A path whose lower-cased text ends in x has an extension that
      lower-cases to x. */
  lemma EndingIsLowerExtension(path: string, x: string)
    requires IsLetterExtension(x) && EndsWith(Lower(path), x)
    ensures Lower(GetExtension(path)) == x
  {
    var suf := path[|path| - |x|..];
    LowerSuffix(path, |path| - |x|);
    assert Lower(suf) == x;
    assert forall k | 0 <= k < |suf| :: LowerChar(suf[k]) == x[k];
    assert IsExtension(suf) by {
      assert suf[0] == '.' by { assert LowerChar(suf[0]) == '.'; }
      forall k | 1 <= k < |suf| ensures suf[k] != '.' && !IsSeparator(suf[k]) {
        assert LowerChar(suf[k]) == x[k];
      }
    }
    GetExtensionOfSuffix(path, suf);
  }

  /** Comparing the lower-cased extension with ".db" (or any letter
      extension) is the same as asking whether the lower-cased path ends
      in it. */
  lemma LowerExtensionIs(path: string, x: string)
    requires IsLetterExtension(x)
    ensures Lower(GetExtension(path)) == x <==> EndsWith(Lower(path), x)
  {
    if Lower(GetExtension(path)) == x {
      LowerExtensionEnds(path, x);
    }
    if EndsWith(Lower(path), x) {
      EndingIsLowerExtension(path, x);
    }
  }
}
