/**
 * The `CityQueries` static class: six queries over an array of city names.
 * An array is modelled as the sequence of its elements, and each query
 * returns a new sequence, as `ToArray` does.
 */
module CityQueries {
  import opened Strings
  import opened Filtering
  import opened Sorting

  // The city tests, one per query. Prefix and suffix tests are ordinal and
  // case-sensitive (see module Strings).

  /**
   * The test of the length query, for a given length. `String.Length` counts
   * UTF-16 code units, so a character above U+FFFF counts twice.
   */
  function HasLength(length: int): (test: string -> bool)
    ensures forall c :: test(c) <==> Utf16Length(c) == length
    ensures forall c :: test(c) ==> |c| <= length <= 2 * |c|
    ensures forall c :: InBmp(c) ==> (test(c) <==> |c| == length)
  {
    forall c | InBmp(c) ensures Utf16Length(c) == |c| {
      Utf16LengthOfBmp(c);
    }
    city => Utf16Length(city) == length
  }

  predicate StartsWithA(city: string) { StartsWith(city, "A") }

  predicate EndsWithM(city: string) { EndsWith(city, "M") }

  predicate StartsWithN(city: string) { StartsWith(city, "N") }

  predicate EndsWithK(city: string) { EndsWith(city, "K") }

  predicate StartsWithNEndsWithK(city: string) { StartsWith(city, "N") && EndsWith(city, "K") }

  predicate StartsWithNe(city: string) { StartsWith(city, "Ne") }

  /** The whole array of cities, as given. */
  function GetAllCities(cities: seq<string>): (r: seq<string>)
    ensures |r| == |cities|
    ensures forall i :: 0 <= i < |r| ==> r[i] == cities[i]
  {
    cities
  }

  /** The cities whose name is `length` UTF-16 code units long, in input order. */
  function GetCitiesByLength(cities: seq<string>, length: int): (r: seq<string>)
    ensures forall c :: c in r <==> c in cities && Utf16Length(c) == length
    ensures forall c :: multiset(r)[c] == if Utf16Length(c) == length then multiset(cities)[c] else 0
    ensures IsSubsequence(r, cities)
  {
    FilterCount(cities, HasLength(length));
    FilterIsSubsequence(cities, HasLength(length));
    Filter(cities, HasLength(length))
  }

  /** The cities whose name starts with "A", in input order. */
  function GetCitiesStartWithA(cities: seq<string>): (r: seq<string>)
    ensures forall c :: c in r <==> c in cities && StartsWith(c, "A")
    ensures forall c :: multiset(r)[c] == if StartsWith(c, "A") then multiset(cities)[c] else 0
    ensures IsSubsequence(r, cities)
    ensures |r| <= |cities|
  {
    FilterCount(cities, StartsWithA);
    FilterIsSubsequence(cities, StartsWithA);
    Filter(cities, StartsWithA)
  }

  /** The cities whose name ends with "M", in input order. */
  function GetCitiesEndWithM(cities: seq<string>): (r: seq<string>)
    ensures forall c :: c in r <==> c in cities && EndsWith(c, "M")
    ensures forall c :: multiset(r)[c] == if EndsWith(c, "M") then multiset(cities)[c] else 0
    ensures IsSubsequence(r, cities)
    ensures |r| <= |cities|
  {
    FilterCount(cities, EndsWithM);
    FilterIsSubsequence(cities, EndsWithM);
    Filter(cities, EndsWithM)
  }

  /** The cities whose name starts with "N" and ends with "K", in input order. */
  function GetCitiesStartWithNEndWithK(cities: seq<string>): (r: seq<string>)
    ensures forall c :: c in r <==> c in cities && StartsWith(c, "N") && EndsWith(c, "K")
    ensures forall c :: multiset(r)[c] == if StartsWithNEndsWithK(c) then multiset(cities)[c] else 0
    ensures IsSubsequence(r, cities)
  {
    FilterCount(cities, StartsWithNEndsWithK);
    FilterIsSubsequence(cities, StartsWithNEndsWithK);
    Filter(cities, StartsWithNEndsWithK)
  }

  /**
   * The cities whose name starts with "Ne", sorted in descending ordinal
   * order: sorted, and holding each such city as often as the input does.
   */
  function GetCitiesStartWithNeDescending(cities: seq<string>): (r: seq<string>)
    ensures SortedDescending(r)
    ensures forall c :: multiset(r)[c] == if StartsWith(c, "Ne") then multiset(cities)[c] else 0
    ensures forall c :: c in r <==> c in cities && StartsWith(c, "Ne")
  {
    FilterCount(cities, StartsWithNe);
    SortDescending(Filter(cities, StartsWithNe))
  }

  /** The identity query is the filter that keeps every city. */
  lemma AllCitiesKeepsEverything(cities: seq<string>)
    ensures GetAllCities(cities) == Filter(cities, _ => true)
  {
    FilterKeepsAll(cities, _ => true);
  }

  /**
   * The length query returns exactly the filter by length: no other
   * order-preserving selection of cities of that length is as long.
   */
  lemma {:induction false} ByLengthIsLongest(cities: seq<string>, length: int, r: seq<string>)
    requires IsSubsequence(r, cities)
    requires forall i :: 0 <= i < |r| ==> Utf16Length(r[i]) == length
    ensures |r| <= |GetCitiesByLength(cities, length)|
    ensures |r| == |GetCitiesByLength(cities, length)| ==> r == GetCitiesByLength(cities, length)
  {
    SubsequenceBound(r, cities, HasLength(length));
    if |r| == |GetCitiesByLength(cities, length)| {
      FilterUnique(r, cities, HasLength(length));
    }
  }

  /** A name made of one character above U+FFFF has length 2, as `String.Length` counts it. */
  lemma ByLengthCountsCodeUnits()
    ensures GetCitiesByLength(["\U{1D538}"], 2) == ["\U{1D538}"]
    ensures GetCitiesByLength(["\U{1D538}"], 1) == []
  {
    SupplementaryCharCountsTwo('\U{1D538}');
  }

  /** A query that matches no city returns an empty sequence; an empty input gives an empty result. */
  lemma ByLengthEmpty(cities: seq<string>, length: int)
    ensures GetCitiesByLength(cities, length) == [] <==> forall c :: c in cities ==> Utf16Length(c) != length
  {
    FilterEmpty(cities, HasLength(length));
  }

  lemma StartWithAEmpty(cities: seq<string>)
    ensures GetCitiesStartWithA(cities) == [] <==> forall c :: c in cities ==> !StartsWith(c, "A")
  {
    FilterEmpty(cities, StartsWithA);
  }

  /** The combined query is the "N" prefix filter followed by the "K" suffix filter. */
  lemma {:induction false} NEndWithKIsComposition(cities: seq<string>)
    ensures GetCitiesStartWithNEndWithK(cities) == Filter(Filter(cities, StartsWithN), EndsWithK)
  {
    FilterConjunction(cities, StartsWithN, EndsWithK, StartsWithNEndsWithK);
  }

  /** Each filter query applied to its own output returns that output. */
  lemma ByLengthIdempotent(cities: seq<string>, length: int)
    ensures GetCitiesByLength(GetCitiesByLength(cities, length), length) == GetCitiesByLength(cities, length)
  {
    FilterIdempotent(cities, HasLength(length));
  }

  lemma StartWithAIdempotent(cities: seq<string>)
    ensures GetCitiesStartWithA(GetCitiesStartWithA(cities)) == GetCitiesStartWithA(cities)
  {
    FilterIdempotent(cities, StartsWithA);
  }

  lemma EndWithMIdempotent(cities: seq<string>)
    ensures GetCitiesEndWithM(GetCitiesEndWithM(cities)) == GetCitiesEndWithM(cities)
  {
    FilterIdempotent(cities, EndsWithM);
  }

  lemma NEndWithKIdempotent(cities: seq<string>)
    ensures GetCitiesStartWithNEndWithK(GetCitiesStartWithNEndWithK(cities)) == GetCitiesStartWithNEndWithK(cities)
  {
    FilterIdempotent(cities, StartsWithNEndsWithK);
  }

  /**
   * The descending query is determined by its two postconditions: any
   * descending arrangement of the "Ne" cities is its result, so the order in
   * which equal names are kept does not matter.
   */
  lemma NeDescendingUnique(cities: seq<string>, r: seq<string>)
    requires SortedDescending(r)
    requires forall c :: multiset(r)[c] == if StartsWith(c, "Ne") then multiset(cities)[c] else 0
    ensures r == GetCitiesStartWithNeDescending(cities)
  {
    var q := GetCitiesStartWithNeDescending(cities);
    assert forall c :: multiset(q)[c] == multiset(r)[c];
    assert multiset(q) == multiset(r);
    SortedUnique(r, q);
  }

  /** Running the descending query on its own output returns that output. */
  lemma NeDescendingIdempotent(cities: seq<string>)
    ensures GetCitiesStartWithNeDescending(GetCitiesStartWithNeDescending(cities))
         == GetCitiesStartWithNeDescending(cities)
  {
    var q := GetCitiesStartWithNeDescending(cities);
    NeDescendingUnique(q, q);
  }

  /** The sample cities of the demonstration program. */
  const SampleCities: seq<string> :=
    ["New York", "Los Angeles", "Chicago", "Houston", "Phoenix", "Philadelphia", "San Antonio", "San Diego"]

  /** No sample city has a name ten code units long. */
  lemma SampleByLength10()
    ensures GetCitiesByLength(SampleCities, 10) == []
  {
    var s := SampleCities;
    assert InBmp("New York") && InBmp("Los Angeles") && InBmp("Chicago") && InBmp("Houston");
    assert InBmp("Phoenix") && InBmp("Philadelphia") && InBmp("San Antonio") && InBmp("San Diego");
    forall c | c in s
      ensures Utf16Length(c) != 10
    {
      Utf16LengthOfBmp(c);
    }
    ByLengthEmpty(s, 10);
  }

  /** "New York" ends with a lower-case "k", so the case-sensitive combined query finds nothing. */
  lemma SampleStartWithNEndWithK()
    ensures GetCitiesStartWithNEndWithK(SampleCities) == []
  {
    var s := SampleCities;
    assert !EndsWith(s[0], "K") by { EndsWithChar(s[0], 'K'); }
    assert !EndsWith(s[1], "K") by { EndsWithChar(s[1], 'K'); }
    assert !EndsWith(s[2], "K") by { EndsWithChar(s[2], 'K'); }
    assert !EndsWith(s[3], "K") by { EndsWithChar(s[3], 'K'); }
    assert !EndsWith(s[4], "K") by { EndsWithChar(s[4], 'K'); }
    assert !EndsWith(s[5], "K") by { EndsWithChar(s[5], 'K'); }
    assert !EndsWith(s[6], "K") by { EndsWithChar(s[6], 'K'); }
    assert !EndsWith(s[7], "K") by { EndsWithChar(s[7], 'K'); }
    forall c | c in s
      ensures !StartsWithNEndsWithK(c)
    {
      var i :| 0 <= i < |s| && s[i] == c;
    }
    FilterEmpty(s, StartsWithNEndsWithK);
  }

  /** Only "New York" starts with "Ne". */
  lemma SampleNeDescending()
    ensures GetCitiesStartWithNeDescending(SampleCities) == ["New York"]
  {
    var s := SampleCities;
    assert s[0][..2] == "Ne";
    forall c | c in s[1..]
      ensures !StartsWithNe(c)
    {
      var i :| 0 <= i < |s[1..]| && s[1..][i] == c;
      assert c[0] != 'N';
    }
    FilterEmpty(s[1..], StartsWithNe);
    assert Filter(s, StartsWithNe) == ["New York"];
  }
}
