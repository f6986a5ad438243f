/** Text helpers used by the dialog: the case-sensitive substring test that the
    reply handler performs with QString::contains, and the inverse operations
    (prefix and suffix stripping, first-occurrence search) that show the
    strings the dialog builds can be taken apart again. */
module Strings {

  datatype Option<+T> = None | Some(value: T)

  /** `pat` occurs in `s` starting at index `i`. */
  ghost predicate OccursAt(s: string, pat: string, i: int)
  {
    0 <= i && i + |pat| <= |s| && s[i..i + |pat|] == pat
  }

  /** Case-sensitive substring test, as QString::contains with the default
      Qt::CaseSensitive; every string contains the empty string. */
  function Contains(s: string, pat: string): bool
    decreases |s|
  {
    if |pat| > |s| then false
    else if s[..|pat|] == pat then true
    else Contains(s[1..], pat)
  }

  lemma OccursAtShift(s: string, pat: string, i: nat)
    requires |s| > 0
    ensures OccursAt(s, pat, i + 1) <==> OccursAt(s[1..], pat, i)
  {
    if i + 1 + |pat| <= |s| {
      assert s[1..][i..i + |pat|] == s[i + 1..i + 1 + |pat|];
    }
  }

  /** Contains finds exactly the occurrences OccursAt describes. */
  lemma {:induction false} ContainsIffOccurs(s: string, pat: string)
    ensures Contains(s, pat) <==> exists i :: OccursAt(s, pat, i)
    decreases |s|
  {
    if |pat| > |s| {
    } else if s[..|pat|] == pat {
      assert OccursAt(s, pat, 0);
    } else {
      ContainsIffOccurs(s[1..], pat);
      forall i | OccursAt(s[1..], pat, i)
        ensures OccursAt(s, pat, i + 1)
      {
        OccursAtShift(s, pat, i);
      }
      forall i | OccursAt(s, pat, i)
        ensures OccursAt(s[1..], pat, i - 1)
      {
        assert i != 0;
        OccursAtShift(s, pat, i - 1);
      }
    }
  }

  lemma OccursInJoin(before: string, pat: string, after: string)
    ensures OccursAt(before + pat + after, pat, |before|)
  {
    assert (before + pat + after)[|before|..|before| + |pat|] == pat;
  }

  /** A string that lacks one of the characters of `pat` does not contain `pat`. */
  lemma MissingCharNotContained(s: string, pat: string, c: char)
    requires c in pat && c !in s
    ensures !Contains(s, pat)
  {
    ContainsIffOccurs(s, pat);
    var k :| 0 <= k < |pat| && pat[k] == c;
    forall i | 0 <= i && i + |pat| <= |s|
      ensures !OccursAt(s, pat, i)
    {
      assert s[i..i + |pat|][k] == s[i + k] != c;
    }
  }

  /** Index of the first `c` in `s`, if any. */
  function IndexOf(s: string, c: char): (r: Option<nat>)
    ensures r.Some? ==> r.value < |s| && s[r.value] == c && c !in s[..r.value]
    ensures r.None? ==> c !in s
  {
    if s == [] then None
    else if s[0] == c then Some(0)
    else match IndexOf(s[1..], c)
      case None => None
      case Some(k) =>
        assert s[..k + 1] == [s[0]] + s[1..][..k];
        Some(k + 1)
  }

  /** The rest of `s` after `prefix`, when `s` starts with `prefix`. */
  function StripPrefix(s: string, prefix: string): (r: Option<string>)
    ensures r.Some? <==> |prefix| <= |s| && s[..|prefix|] == prefix
    ensures r.Some? ==> prefix + r.value == s
  {
    if |prefix| <= |s| && s[..|prefix|] == prefix then
      assert prefix + s[|prefix|..] == s;
      Some(s[|prefix|..])
    else None
  }

  lemma StripPrefixOfJoin(prefix: string, rest: string)
    ensures StripPrefix(prefix + rest, prefix) == Some(rest)
  {
    assert (prefix + rest)[..|prefix|] == prefix;
    assert (prefix + rest)[|prefix|..] == rest;
  }

  /** The part of `s` before `suffix`, when `s` ends with `suffix`. */
  function StripSuffix(s: string, suffix: string): (r: Option<string>)
    ensures r.Some? <==> |suffix| <= |s| && s[|s| - |suffix|..] == suffix
    ensures r.Some? ==> r.value + suffix == s
  {
    if |suffix| <= |s| && s[|s| - |suffix|..] == suffix then
      assert s[..|s| - |suffix|] + suffix == s;
      Some(s[..|s| - |suffix|])
    else None
  }

  /** The text between `prefix` and `suffix`, when `s` is framed by both. */
  function Unwrap(s: string, prefix: string, suffix: string): Option<string>
  {
    match StripPrefix(s, prefix)
    case None => None
    case Some(rest) => StripSuffix(rest, suffix)
  }

  /** Framing a text and unwrapping it gives the text back. */
  lemma UnwrapWrapped(prefix: string, x: string, suffix: string)
    ensures Unwrap(prefix + x + suffix, prefix, suffix) == Some(x)
  {
    var s := prefix + x + suffix;
    assert s[..|prefix|] == prefix;
    assert s[|prefix|..] == x + suffix;
    assert (x + suffix)[|x + suffix| - |suffix|..] == suffix;
    assert (x + suffix)[..|x|] == x;
  }
}
