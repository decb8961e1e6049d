/** The two `String.prototype` methods the valuation relies on: `endsWith` and `replace`
    with a string pattern, which replaces the FIRST occurrence only. */
module Strings {
  import opened Common

  /** `pat` occurs in `s` starting at index `i`. */
  predicate OccursAt(s: string, pat: string, i: nat)
  {
    i + |pat| <= |s| && s[i..i + |pat|] == pat
  }

  /** `i` is the first index where `pat` occurs in `s`. */
  predicate IsFirstOccurrence(s: string, pat: string, i: nat)
  {
    OccursAt(s, pat, i) && forall j :: 0 <= j < i ==> !OccursAt(s, pat, j)
  }

  /** `s.endsWith(suffix)`. */
  predicate EndsWith(s: string, suffix: string)
  {
    |suffix| <= |s| && s[|s| - |suffix|..] == suffix
  }

  /** `endsWith` holds exactly when the string is some string followed by the suffix. */
  lemma EndsWithIsConcatenation(s: string, suffix: string)
    ensures EndsWith(s, suffix) <==> exists p: string :: p + suffix == s
  {
    if EndsWith(s, suffix) {
      assert s[..|s| - |suffix|] + suffix == s;
    }
  }

  /** `s.indexOf(pat, from)` for `from <= |s|`: the first index at or after `from` where `pat`
      occurs. For an empty pattern and `from > |s|`, JavaScript clamps `from` and answers `|s|`,
      where this gives `None`; the valuation only searches for "-EUR" from index 0. */
  function IndexOf(s: string, pat: string, from: nat): (r: Option<nat>)
    ensures r.Some? ==> from <= r.value && OccursAt(s, pat, r.value)
    ensures r.Some? ==> forall j :: from <= j < r.value ==> !OccursAt(s, pat, j)
    ensures r.None? ==> forall j :: from <= j ==> !OccursAt(s, pat, j)
    decreases |s| - from
  {
    if from + |pat| > |s| then None
    else if s[from..from + |pat|] == pat then Some(from)
    else IndexOf(s, pat, from + 1)
  }

  /** `s.replace(pat, rep)` for a string pattern and a replacement without `$` patterns:
      the first occurrence of `pat` is replaced, and `s` is returned unchanged when there is none. */
  function ReplaceFirst(s: string, pat: string, rep: string): string
  {
    match IndexOf(s, pat, 0)
    case None => s
    case Some(i) => s[..i] + rep + s[i + |pat|..]
  }

  /** Stated against occurrences rather than `indexOf`: with no occurrence the string is returned
      as it is; otherwise exactly the first occurrence is replaced. */
  lemma ReplaceFirstReplacesFirstOccurrence(s: string, pat: string, rep: string)
    ensures (forall j :: !OccursAt(s, pat, j)) ==> ReplaceFirst(s, pat, rep) == s
    ensures forall i: nat :: IsFirstOccurrence(s, pat, i) ==> ReplaceFirst(s, pat, rep) == s[..i] + rep + s[i + |pat|..]
  {
  }

  /** Replacing the first occurrence and putting the pattern back at the same place restores the
      string; when there is no occurrence, nothing changes. */
  lemma ReplaceFirstInverse(s: string, pat: string, rep: string)
    ensures IndexOf(s, pat, 0).None? ==> ReplaceFirst(s, pat, rep) == s
    ensures IndexOf(s, pat, 0).Some? ==>
      var i := IndexOf(s, pat, 0).value;
      var r := ReplaceFirst(s, pat, rep);
      && |r| == |s| - |pat| + |rep|
      && r[..i] == s[..i]
      && r[i..i + |rep|] == rep
      && r[..i] + pat + r[i + |rep|..] == s
  {
    if IndexOf(s, pat, 0).Some? {
      var i := IndexOf(s, pat, 0).value;
      assert s == s[..i] + s[i..i + |pat|] + s[i + |pat|..];
    }
  }

  /** A string ending in `suffix` contains it, and its first occurrence is no later than the suffix. */
  lemma EndsWithOccurs(s: string, suffix: string)
    requires EndsWith(s, suffix)
    ensures IndexOf(s, suffix, 0).Some?
    ensures IndexOf(s, suffix, 0).value <= |s| - |suffix|
  {
    assert OccursAt(s, suffix, |s| - |suffix|);
  }

  /** When the suffix occurs nowhere else, removing its first occurrence strips the suffix. */
  lemma RemoveFirstStripsUniqueSuffix(s: string, suffix: string)
    requires EndsWith(s, suffix)
    requires forall j :: 0 <= j < |s| - |suffix| ==> !OccursAt(s, suffix, j)
    ensures ReplaceFirst(s, suffix, "") == s[..|s| - |suffix|]
  {
    EndsWithOccurs(s, suffix);
    var i := IndexOf(s, suffix, 0).value;
    assert i == |s| - |suffix|;
    assert s[i + |suffix|..] == [];
  }

  /** Removing the first occurrence is not suffix stripping: in "A-EURB-EUR" the inner "-EUR" goes. */
  lemma RemoveFirstIsNotSuffixStrip()
    ensures EndsWith("A-EURB-EUR", "-EUR")
    ensures ReplaceFirst("A-EURB-EUR", "-EUR", "") == "AB-EUR"
  {
    var s := "A-EURB-EUR";
    assert s[0] == 'A' && "-EUR"[0] == '-';
    assert s[0..4] != "-EUR";
    assert !OccursAt(s, "-EUR", 0);
    assert OccursAt(s, "-EUR", 1);
    assert IndexOf(s, "-EUR", 1) == Some(1);
    assert IndexOf(s, "-EUR", 0) == Some(1);
    assert s[..1] + "" + s[5..] == "AB-EUR";
  }
}
