/**
 * String tests used by the city queries.
 *
 * .NET's `String.StartsWith(string)`, `String.EndsWith(string)` and the
 * default string comparer are culture-sensitive. This model replaces them by
 * ordinal, case-sensitive tests on the characters of the string: a prefix or
 * suffix test is a literal comparison of a slice, and the order is the
 * lexicographic order of character codes.
 */
module Strings {

  /** `s` begins with the characters of `prefix`, compared one by one. */
  predicate StartsWith(s: string, prefix: string)
    ensures StartsWith(s, prefix) <==>
      |prefix| <= |s| && forall i :: 0 <= i < |prefix| ==> s[i] == prefix[i]
  {
    |prefix| <= |s| && s[..|prefix|] == prefix
  }

  /** `s` ends with the characters of `suffix`, compared one by one. */
  predicate EndsWith(s: string, suffix: string)
    ensures EndsWith(s, suffix) <==>
      |suffix| <= |s| && forall i :: 0 <= i < |suffix| ==> s[|s| - |suffix| + i] == suffix[i]
  {
    |suffix| <= |s| && s[|s| - |suffix|..] == suffix
  }

  /**
   * The length of `s` as .NET's `String.Length` reports it: the number of
   * UTF-16 code units, two for a character above U+FFFF (a surrogate pair)
   * and one for any other.
   */
  function Utf16Length(s: string): (n: nat)
    ensures |s| <= n <= 2 * |s|
  {
    if s == [] then 0
    else (if s[0] > '\U{FFFF}' then 2 else 1) + Utf16Length(s[1..])
  }

  /** No character of `s` lies above U+FFFF (the Basic Multilingual Plane). */
  predicate InBmp(s: string) {
    forall i :: 0 <= i < |s| ==> s[i] <= '\U{FFFF}'
  }

  /** The code-unit length is the character count exactly when every character is in the Basic Multilingual Plane. */
  lemma {:induction false} Utf16LengthOfBmp(s: string)
    ensures Utf16Length(s) == |s| <==> InBmp(s)
  {
    if s != [] {
      Utf16LengthOfBmp(s[1..]);
      assert forall i :: 1 <= i < |s| ==> s[i] == s[1..][i - 1];
    }
  }

  /** The code-unit length of a concatenation is the sum of the lengths. */
  lemma {:induction false} Utf16LengthAppend(a: string, b: string)
    ensures Utf16Length(a + b) == Utf16Length(a) + Utf16Length(b)
  {
    if a != [] {
      assert (a + b)[0] == a[0] && (a + b)[1..] == a[1..] + b;
      Utf16LengthAppend(a[1..], b);
    } else {
      assert a + b == b;
    }
  }

  /** A character outside the Basic Multilingual Plane counts as two code units (a surrogate pair). */
  lemma SupplementaryCharCountsTwo(c: char)
    requires c > '\U{FFFF}'
    ensures Utf16Length([c]) == 2
  {
    assert [c][1..] == [];
  }

  /** A character inside the Basic Multilingual Plane counts as one code unit. */
  lemma BmpCharCountsOne(c: char)
    requires c <= '\U{FFFF}'
    ensures Utf16Length([c]) == 1
  {
    assert [c][1..] == [];
  }

  /** A one-character prefix test looks at the first character only. */
  lemma StartsWithChar(s: string, c: char)
    ensures StartsWith(s, [c]) <==> |s| > 0 && s[0] == c
  {
  }

  /** A one-character suffix test looks at the last character only. */
  lemma EndsWithChar(s: string, c: char)
    ensures EndsWith(s, [c]) <==> |s| > 0 && s[|s| - 1] == c
  {
  }

  /**
   * Ordinal lexicographic order: the first differing character decides,
   * and a proper prefix comes before the longer string.
   */
  predicate OrdinalLessOrEqual(a: string, b: string)
    ensures StartsWith(b, a) ==> OrdinalLessOrEqual(a, b)
    ensures StartsWith(a, b) && a != b ==> !OrdinalLessOrEqual(a, b)
  {
    if a == [] then true
    else if b == [] then false
    else if a[0] != b[0] then a[0] < b[0]
    else OrdinalLessOrEqual(a[1..], b[1..])
  }

  /** Past a common prefix, the first differing character decides the order. */
  lemma {:induction false} OrdinalFirstDifference(a: string, b: string, k: nat)
    requires k < |a| && k < |b|
    requires a[..k] == b[..k] && a[k] != b[k]
    ensures OrdinalLessOrEqual(a, b) <==> a[k] < b[k]
  {
    if k > 0 {
      assert a[0] == a[..k][0] == b[..k][0] == b[0];
      assert a[1..][..k - 1] == a[..k][1..] == b[..k][1..] == b[1..][..k - 1];
      OrdinalFirstDifference(a[1..], b[1..], k - 1);
    }
  }

  lemma {:induction false} OrdinalReflexive(a: string)
    ensures OrdinalLessOrEqual(a, a)
  {
    if a != [] {
      OrdinalReflexive(a[1..]);
    }
  }

  /** Any two strings are comparable. */
  lemma {:induction false} OrdinalTotal(a: string, b: string)
    ensures OrdinalLessOrEqual(a, b) || OrdinalLessOrEqual(b, a)
  {
    if a != [] && b != [] && a[0] == b[0] {
      OrdinalTotal(a[1..], b[1..]);
    }
  }

  /** Strings that compare equal in both directions are the same string. */
  lemma {:induction false} OrdinalAntisymmetric(a: string, b: string)
    requires OrdinalLessOrEqual(a, b) && OrdinalLessOrEqual(b, a)
    ensures a == b
  {
    if a != [] && b != [] {
      OrdinalAntisymmetric(a[1..], b[1..]);
      assert a == [a[0]] + a[1..];
      assert b == [b[0]] + b[1..];
    }
  }

  lemma {:induction false} OrdinalTransitive(a: string, b: string, c: string)
    requires OrdinalLessOrEqual(a, b) && OrdinalLessOrEqual(b, c)
    ensures OrdinalLessOrEqual(a, c)
  {
    if a != [] && b != [] && c != [] && a[0] == b[0] && b[0] == c[0] {
      OrdinalTransitive(a[1..], b[1..], c[1..]);
    }
  }
}
