# City queries, modelled in Dafny

This project models the `CityQueries` static class of the Linqs exercises. The class has six queries over an array of city names:

- `GetAllCities` returns the array as it is.
- `GetCitiesByLength` keeps the names of a given length.
- `GetCitiesStartWithA` keeps the names starting with `"A"`.
- `GetCitiesEndWithM` keeps the names ending with `"M"`.
- `GetCitiesStartWithNEndWithK` keeps the names starting with `"N"` and ending with `"K"`.
- `GetCitiesStartWithNeDescending` keeps the names starting with `"Ne"` and sorts them in descending order.

Each query except `GetAllCities` is a LINQ `Where` and, for the last one, an `OrderByDescending`, then `ToArray`; `GetAllCities` returns its argument. Every query is pure: it never changes its input. So the model uses functions and lemmas, with an array of names written as a `seq<string>`.

Files:

- `strings.dfy` (module `Strings`): ordinal, case-sensitive prefix and suffix tests, the length of a name in UTF-16 code units (what `String.Length` counts), the ordinal string order, and the proof that this order is total.
- `filtering.dfy` (module `Filtering`): a generic `Filter` (the eager `Where` + `ToArray`) and what it guarantees. The result holds exactly the matching elements, as many times as the input holds them. It keeps their relative order, as a subsequence of the input. It is the only longest subsequence whose elements all match. Filtering is idempotent, and filtering by a conjunction is the same as filtering twice.
- `sorting.dfy` (module `Sorting`): a descending insertion sort whose result is sorted and is a permutation of its input. The lemma `SortedUnique` shows that a multiset of strings has only one descending arrangement.
- `city_queries.dfy` (module `CityQueries`): the six queries, lemmas about each one, and the checks on the demonstration program's sample array.

`OrderByDescending` is a stable sort. Under ordinal comparison, two names compare equal only if they are the same string. `SortedUnique` and `CityQueries.NeDescendingUnique` prove that every sorted permutation is the same sequence. So stability cannot be observed in the result, and no separate stability property is stated.

## Model

| member | source | states |
|---|---|---|
| `Filtering.Filter` | Linqs/Program.cs:24 | `Where(...).ToArray()`: the result is no longer than the input, and a value is in the result exactly when it is in the input and satisfies the predicate |
| `Filtering.FilterCount` | Linqs/Program.cs:24 | each value appears in the result as often as in the input if it matches, and never otherwise (nothing added, nothing dropped, duplicates kept) |
| `Filtering.FilterIsSubsequence` | Linqs/Program.cs:24 | the result keeps the input's relative order: it is a subsequence of the input |
| `Filtering.SubsequenceBound` | Linqs/Program.cs:24 | no order-preserving selection of matching elements is longer than the filter's result |
| `Filtering.FilterUnique` | Linqs/Program.cs:24 | an order-preserving selection of matching elements that is as long as the filter's result is that result, so the filter is fully determined by what it promises |
| `Filtering.FilterKeepsAll` | Linqs/Program.cs:24 | the filter returns its input unchanged if and only if every element matches |
| `Filtering.FilterEmpty` | Linqs/Program.cs:24 | the result is empty if and only if no element matches; an empty input gives an empty result, not an error |
| `Filtering.FilterIdempotent` | Linqs/Program.cs:24 | filtering the result again with the same predicate returns the same result |
| `Filtering.FilterConjunction` | Linqs/Program.cs:54 | filtering by `p && q` equals filtering by `p` and then filtering that result by `q` |
| `Strings.StartsWith` | Linqs/Program.cs:34 | the prefix test of `StartsWith("A")`, `StartsWith("N")` and `StartsWith("Ne")`: it holds exactly when the prefix is no longer than the name and agrees with it character by character (ordinal, case-sensitive) |
| `Strings.EndsWith` | Linqs/Program.cs:44 | the suffix test of `EndsWith("M")` and `EndsWith("K")`: it holds exactly when the suffix is no longer than the name and agrees with its last characters one by one (ordinal, case-sensitive) |
| `Strings.Utf16Length` | Linqs/Program.cs:24 | `city.Length`: the number of UTF-16 code units, which lies between the character count and twice the character count |
| `Strings.Utf16LengthOfBmp` | Linqs/Program.cs:24 | the code-unit length equals the character count if and only if no character lies above U+FFFF |
| `Strings.Utf16LengthAppend` | Linqs/Program.cs:24 | the code-unit length of a concatenation is the sum of the code-unit lengths |
| `Strings.SupplementaryCharCountsTwo` | Linqs/Program.cs:24 | every character above U+FFFF (a surrogate pair) counts as two code units |
| `Strings.BmpCharCountsOne` | Linqs/Program.cs:24 | every character at or below U+FFFF counts as one code unit; with `Utf16LengthAppend` this fixes the code-unit length of every name |
| `Strings.StartsWithChar` | Linqs/Program.cs:34 | a one-character prefix test such as `StartsWith("A")` holds exactly when the name is non-empty and its first character is that character |
| `Strings.EndsWithChar` | Linqs/Program.cs:44 | a one-character suffix test such as `EndsWith("M")` holds exactly when the name is non-empty and its last character is that character |
| `Strings.OrdinalLessOrEqual` | Linqs/Program.cs:64 | the order used by `OrderByDescending(city => city)`, taken as ordinal: a name is at most every name it is a prefix of, and a name is above each of its own proper prefixes |
| `Strings.OrdinalFirstDifference` | Linqs/Program.cs:64 | after a common prefix, the first differing character decides the order, in both directions |
| `Strings.OrdinalReflexive` | Linqs/Program.cs:64 | the order used by the descending sort is reflexive |
| `Strings.OrdinalTotal` | Linqs/Program.cs:64 | any two names are comparable in that order |
| `Strings.OrdinalAntisymmetric` | Linqs/Program.cs:64 | names that compare equal in both directions are the same name |
| `Strings.OrdinalTransitive` | Linqs/Program.cs:64 | the order is transitive |
| `Sorting.Insert` | Linqs/Program.cs:64 | inserting a name adds exactly that name to the multiset of names |
| `Sorting.InsertSorted` | Linqs/Program.cs:64 | inserting into a descending sequence keeps it descending |
| `Sorting.SortDescending` | Linqs/Program.cs:64 | `OrderByDescending(city => city)`: the result is in non-increasing order and is a permutation of the input |
| `Sorting.SortedHeadIsGreatest` | Linqs/Program.cs:64 | the first name of a descending sequence is at least every name in it |
| `Sorting.SortedUnique` | Linqs/Program.cs:64 | two descending sequences with the same multiset of names are equal, so a stable and an unstable sort give the same result |
| `CityQueries.GetAllCities` | Linqs/Program.cs:11-14 | the result has the input's length and the same element at every position |
| `CityQueries.AllCitiesKeepsEverything` | Linqs/Program.cs:11-14 | the identity query equals the filter whose predicate accepts every name |
| `CityQueries.HasLength` | Linqs/Program.cs:24 | the lambda `city => city.Length == length`: it accepts a name exactly when its UTF-16 code-unit length is `length`, which forces `length` between the character count and twice it, and for names without characters above U+FFFF is the character count |
| `CityQueries.GetCitiesByLength` | Linqs/Program.cs:22-25 | a name is in the result if and only if it is in the input and is exactly `length` UTF-16 code units long; each such name appears as often as in the input; input order is kept |
| `CityQueries.ByLengthIsLongest` | Linqs/Program.cs:22-25 | every order-preserving selection of names of that code-unit length is at most as long as the result, and one just as long is the result |
| `CityQueries.ByLengthEmpty` | Linqs/Program.cs:24 | the length query returns an empty sequence if and only if no input name has that code-unit length |
| `CityQueries.ByLengthCountsCodeUnits` | Linqs/Program.cs:24 | a name made of the single character U+1D538 is selected by length 2 and not by length 1 |
| `CityQueries.ByLengthIdempotent` | Linqs/Program.cs:24 | the length query applied to its own result returns that result |
| `CityQueries.GetCitiesStartWithA` | Linqs/Program.cs:32-35 | a name is in the result if and only if it is in the input and starts with `"A"`; multiplicities and input order are kept; the result is no longer than the input |
| `CityQueries.StartWithAEmpty` | Linqs/Program.cs:34 | the `"A"` query returns an empty sequence if and only if no input name starts with `"A"` |
| `CityQueries.StartWithAIdempotent` | Linqs/Program.cs:34 | the `"A"` query applied to its own result returns that result |
| `CityQueries.GetCitiesEndWithM` | Linqs/Program.cs:42-45 | a name is in the result if and only if it is in the input and ends with `"M"`; multiplicities and input order are kept; the result is no longer than the input |
| `CityQueries.EndWithMIdempotent` | Linqs/Program.cs:44 | the `"M"` query applied to its own result returns that result |
| `CityQueries.GetCitiesStartWithNEndWithK` | Linqs/Program.cs:52-55 | a name is in the result if and only if it is in the input, starts with `"N"` and ends with `"K"`; multiplicities and input order are kept |
| `CityQueries.NEndWithKIsComposition` | Linqs/Program.cs:54 | the combined query equals the `"N"` prefix filter followed by the `"K"` suffix filter |
| `CityQueries.NEndWithKIdempotent` | Linqs/Program.cs:54 | the combined query applied to its own result returns that result |
| `CityQueries.GetCitiesStartWithNeDescending` | Linqs/Program.cs:62-65 | the result is in non-increasing order; each name starting with `"Ne"` appears as often as in the input, and no other name appears |
| `CityQueries.NeDescendingUnique` | Linqs/Program.cs:64 | any descending arrangement of the `"Ne"` names is the query's result |
| `CityQueries.NeDescendingIdempotent` | Linqs/Program.cs:64 | the descending query applied to its own result returns that result |
| `CityQueries.SampleByLength10` | Linqs/Program.cs:72-79 | on the sample array, the length-10 query returns an empty sequence |
| `CityQueries.SampleStartWithNEndWithK` | Linqs/Program.cs:72-88 | on the sample array, the `"N"`/`"K"` query returns an empty sequence, because "New York" ends with a lower-case `k` |
| `CityQueries.SampleNeDescending` | Linqs/Program.cs:72-91 | on the sample array, the `"Ne"` descending query returns exactly `["New York"]` |

## Left out

- `Program.Main` (Linqs/Program.cs:70-92) only prints query results to the console. That printing is not modelled. Its sample array is the constant `CityQueries.SampleCities`.
- Culture: .NET's `StartsWith(string)`, `EndsWith(string)` and the default comparer used by `OrderByDescending` compare strings by the current culture. The model compares them ordinally and case-sensitively, character by character. Culture-specific matches, such as ignorable characters or linguistic ordering, are not captured.
- `Strings.OrdinalLessOrEqual`: ordinal order in .NET compares UTF-16 code units, while the model compares Dafny characters, which are Unicode scalar values. The two orders differ for a pair of names whose first differing position holds a character above U+FFFF in one name and a character in U+E000-U+FFFF in the other: the model puts U+E000 before U+10000, .NET puts U+10000 (the code units D800 DC00) first.
- Unpaired surrogates: a .NET string may hold a lone surrogate code unit such as `\uD800` (length 1, compared like any other code unit), but a Dafny `char` is a Unicode scalar value, so no Dafny string holds one. `Strings.Utf16Length` is what `String.Length` counts only for well-formed UTF-16, and the length, prefix, suffix and order results on names holding an unpaired surrogate are not modelled.
- Null: a null array or a null name makes every query except `GetAllCities` throw (`ArgumentNullException` or `NullReferenceException`); `GetAllCities` returns them unchanged. A Dafny sequence of strings has no null, so neither behaviour is modelled.
- `CityQueries.GetAllCities`: returns the caller's array object itself, so later writes through either reference are visible through both. The model returns the value, so this aliasing is not captured.
- LINQ's deferred evaluation is not modelled. Every result is computed eagerly, as `ToArray` forces it to be.
- The stability of `OrderByDescending` is not stated as a separate property. `Sorting.SortedUnique` shows it cannot be observed under ordinal comparison.
- The 32-bit width of `length` and of string lengths is not modelled. Nothing computes with them, so only their equality matters.
- The repository's integer, company, employee and student query exercises are not part of this model.
