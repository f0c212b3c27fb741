/**
 * The built-in Python string operations the URL rewrites rely on, on strings
 * as sequences of characters: `s.startswith(p)`, `p in s` and
 * `s.replace(p, q, 1)`, together with the leftmost-occurrence search that
 * the model of `replace` is built on.
 */
module PyStr {
  import opened Wrappers

  /** `s.startswith(p)` */
  predicate StartsWith(s: string, p: string) {
    |p| <= |s| && s[..|p|] == p
  }

  /** The pattern `pat` occurs in `s` beginning at index `i`. */
  predicate OccursAt(s: string, pat: string, i: int) {
    0 <= i && i + |pat| <= |s| && s[i..i + |pat|] == pat
  }

  /** `pat in s` */
  predicate Contains(s: string, pat: string) {
    exists i | 0 <= i <= |s| :: OccursAt(s, pat, i)
  }

  /** The least index at or after `i` where `pat` occurs in `s`, if any. */
  function FindFrom(s: string, pat: string, i: nat): (r: Option<nat>)
    ensures r.Some? ==> i <= r.value && OccursAt(s, pat, r.value)
    ensures r.Some? ==> forall j :: i <= j < r.value ==> !OccursAt(s, pat, j)
    ensures r.None? ==> forall j :: i <= j ==> !OccursAt(s, pat, j)
    decreases |s| + 1 - i
  {
    if i + |pat| > |s| then None
    else if s[i..i + |pat|] == pat then Some(i)
    else FindFrom(s, pat, i + 1)
  }

  /**
   * The leftmost occurrence of `pat` in `s`, which `ReplaceFirst` replaces.
   * It matches Python's `s.find(pat)` (with `None` for `-1`), which the
   * rewrites themselves never call.
   */
  function Find(s: string, pat: string): (r: Option<nat>)
    ensures r.Some? <==> Contains(s, pat)
    ensures r.Some? ==> OccursAt(s, pat, r.value)
    ensures r.Some? ==> forall j :: 0 <= j < r.value ==> !OccursAt(s, pat, j)
  {
    var r := FindFrom(s, pat, 0);
    assert r.Some? ==> OccursAt(s, pat, r.value);
    r
  }

  /**
   * `s.replace(pat, rep, 1)`: the first occurrence of `pat`, wherever it is,
   * is replaced by `rep`; a string without `pat` comes back unchanged.
   */
  function ReplaceFirst(s: string, pat: string, rep: string): (r: string)
    ensures !Contains(s, pat) ==> r == s
  {
    match Find(s, pat)
    case None => s
    case Some(i) => s[..i] + rep + s[i + |pat|..]
  }

  /** Otherwise the replaced occurrence is the leftmost one, and the rest of `s` is kept. */
  lemma ReplaceFirstOccurrence(s: string, pat: string, rep: string)
    requires Contains(s, pat)
    ensures exists i :: && OccursAt(s, pat, i)
                        && (forall j :: 0 <= j < i ==> !OccursAt(s, pat, j))
                        && ReplaceFirst(s, pat, rep) == s[..i] + rep + s[i + |pat|..]
  {
    var i := Find(s, pat).value;
    assert OccursAt(s, pat, i);
  }

  /** A prefix is the first occurrence of itself. */
  lemma FindPrefix(s: string, pat: string)
    requires StartsWith(s, pat)
    ensures Find(s, pat) == Some(0)
  {
    assert OccursAt(s, pat, 0);
  }

  /** Under `s.startswith(pat)`, `s.replace(pat, rep, 1)` rewrites exactly the prefix. */
  lemma ReplacePrefix(s: string, pat: string, rep: string)
    requires StartsWith(s, pat)
    ensures ReplaceFirst(s, pat, rep) == rep + s[|pat|..]
  {
    FindPrefix(s, pat);
    assert ReplaceFirst(s, pat, rep) == s[..0] + rep + s[|pat|..];
    assert s[..0] == [];
  }

  /** A slice of a suffix is a shifted slice of the whole string. */
  lemma SliceOfSuffix(s: string, n: nat, a: nat, b: nat)
    requires n <= |s| && a <= b <= |s| - n
    ensures s[n..][a..b] == s[n + a..n + b]
  {
  }
}
