# Country Information Cards — a verified model of the filter, sort and card logic

The application (a Streamlit page, in two near-identical scripts `app1.py`
and `app.py`) downloads the REST Countries dataset, lets the user narrow it
with three sidebar controls, sorts the result by country name and draws one
card per country. This project models, in Dafny, everything between the
download and the drawing:

- the country record, with every JSON key optional (`countries.dfy`);
- `format_population`: the unit it picks, and the exact `str(n)` below 1000
  (`population.dfy`);
- the population-range select box and its four range tests (`population.dfy`);
- the three filter stages (name search, region, population range), each a
  list comprehension over the previous list, and their composition
  (`filters.dfy`);
- the stable sort by `name.common`, with `''` for a missing name, under
  Python's string ordering (`sorting.dfy`, with the ordering in `text.dfy`);
- the region options, `"All"` followed by the sorted distinct regions
  (`regions.dfy`);
- the card fields and their `"Unknown"` defaults, the flag request and the
  Google Maps link (`cards.dfy`).

Everything in the core is pure: functions over sequences and datatypes,
with lemmas for the properties that relate several of them.

The two scripts compute the same thing. `app1.py` differs only in
`fetch_countries`, which is not modelled. The table below cites `app1.py`.
The same code in `app.py` sits 12 lines earlier:

| piece | app1.py | app.py |
|---|---|---|
| `format_population` | 78-86 | 66-74 |
| region options | 98 | 86 |
| population ranges | 102-108 | 90-96 |
| filters | 112-137 | 100-125 |
| sort | 140 | 128 |
| card fields | 156-191 | 144-179 |

Modelling choices:

- Python's `<` on `str` compares code points from the left, and a proper
  prefix is smaller. Dafny's `<` on sequences means "proper prefix", so the
  order is defined as `Text.LexLess` and proved to be a strict total order.
- `str.lower()` is modelled on ASCII only (`Text.Lower`).
- A JSON object such as `languages` or `currencies` is read only through
  `.values()`, in the object's order. It is therefore a sequence of values.
- `format_population` returns a `PopulationText`. That is either the exact
  decimal string or the pair (population, unit). The two decimals printed in
  front of the unit are a parameter of `Population.Render`.
- Python's `sorted` is a merge sort. The model sorts by insertion.
  `Sorting.SortIsStableSort` proves that any sorted, stable rearrangement
  equals the model's result, so the algorithm makes no difference.
  `Regions.RegionOptionsUnique` proves the same for `sorted(set(...))`.

## Model

| member | source | states |
|---|---|---|
| `Text.Lower` | app1.py:118 | same length; no ASCII upper-case letter remains; every other character is unchanged |
| `Text.LowerIdempotent` | app1.py:118 | lower-casing twice is lower-casing once |
| `Text.Contains` | app1.py:118 | Python's `needle in hay` holds iff some window of `hay` equals `needle` |
| `Text.EmptyContained` | app1.py:115-118 | the empty string is in every string |
| `Text.LexLess` | app1.py:140 | Python's `a < b` on `str`: a proper prefix is smaller, a string is never below one of its own prefixes, and otherwise the first differing code point decides |
| `Text.LexLessIrreflexive` | app1.py:140 | no string sorts before itself |
| `Text.LexLessTransitive` | app1.py:140 | the string order is transitive |
| `Text.LexLessConnected` | app1.py:140 | any two different strings are ordered one way or the other |
| `Text.LexLessAsymmetric` | app1.py:140 | a < b excludes b < a |
| `Text.LexLeTotal` | app1.py:140 | `<=` on strings is total |
| `Text.LexLeAntisymmetric` | app1.py:140 | `<=` both ways means equal strings |
| `Text.LexLeTransitive` | app1.py:140 | `<=` on strings is transitive |
| `Text.EmptyIsLeast` | app1.py:140 | `''`, the key of a nameless record, is the least string and the only one `<=` it |
| `Text.Join` | app1.py:174-176 | `sep.join(xs)` is `""` for no items; otherwise its length is the items' lengths plus one separator between each pair |
| `Text.JoinPieces` | app1.py:174-176 | every item of a join stands at its start offset, and a separator follows every item but the last |
| `Text.JoinContainsEach` | app1.py:174-176 | every joined item can be found in the joined text |
| `Text.JoinAppend` | app1.py:174-176 | joining two non-empty lists is the two joins with a separator between them |
| `Text.NatToString` | app1.py:86 | `str(n)` is a canonical decimal numeral (digits only, no leading zero) whose value is `n` |
| `Text.DecimalUnique` | app1.py:86 | two canonical numerals with the same value are the same string, so `str(n)` is determined by `n` |
| `Text.NatToStringExamples` | app1.py:86 | `str(500)` is `"500"` and `str(0)` is `"0"` |
| `Countries.CommonName` | app1.py:157 | `name.common` when both keys exist, otherwise the given default |
| `Countries.NameKey` | app1.py:140 | `name.common` when both keys exist, otherwise `''` |
| `Countries.PopulationOf` | app1.py:131-137 | the `population` value when present, otherwise 0 |
| `Population.FormatPopulation` | app1.py:78-86 | below 1000 the exact decimal of n; otherwise the unit d with d <= n, and n < 1000·d unless the unit is billion |
| `Population.Render` | app1.py:78-86 | the exact branch prints the digits; a scaled branch ends in a space and the unit's word |
| `Population.FormatMonotonic` | app1.py:78-86 | a larger population never gets a smaller unit |
| `Population.FormatBoundaries` | app1.py:78-86 | 500 prints `"500"`; 1000, 10^6 and 10^9 fall in the higher unit; 999,999 is still thousands |
| `Population.InBucket` | app1.py:131-137 | a population passes a range's test iff that range is its class under the thresholds 10^6, 10^7 and 10^8 |
| `Population.BucketsPartition` | app1.py:131-137 | every population passes some range's test, and never two |
| `Population.BucketBoundaries` | app1.py:129-137 | 0 (a missing population) is under 1 million; 10^6, 10^7 and 10^8 belong to the higher range |
| `Population.BucketLabel` | app1.py:102-108 | each range's label is one of the four options after "All", never "All" itself |
| `Population.LabelBucket` | app1.py:129-137 | a selected label yields a range only when it is that range's label; "All" yields none, so no range filter applies |
| `Population.LabelRoundTrip` | app1.py:102-108 | each range's label reads back as that range and differs from "All" |
| `Population.RangeOptions` | app1.py:102-108 | five options: "All" filters nothing, the other four select four different ranges |
| `Sorting.Insert` | app1.py:140 | one insertion step adds exactly one copy of the record |
| `Sorting.SortByName` | app1.py:140 | the result is non-decreasing by name key and a permutation of the input |
| `Sorting.SortedCons` | app1.py:140 | a list headed by `a` is sorted iff its tail is sorted and no tail name is below `a`'s |
| `Sorting.InsertSorted` | app1.py:140 | inserting into a sorted list keeps it sorted |
| `Sorting.WithName` | app1.py:140 | the records with a given name key, and only those |
| `Sorting.InsertWithName` | app1.py:140 | an insertion puts the new record ahead of the equal-named records already placed |
| `Sorting.SortStable` | app1.py:140 | records with equal names keep their input order |
| `Sorting.SortOfSorted` | app1.py:140 | sorting a sorted list returns it unchanged |
| `Sorting.SortIdempotent` | app1.py:140 | sorting twice is sorting once |
| `Sorting.StableSortUnique` | app1.py:140 | two sorted lists with the same records per name are equal |
| `Sorting.SortIsStableSort` | app1.py:140 | any sorted, stable rearrangement of the input equals the model's sort |
| `Sorting.MissingNamesFirst` | app1.py:140 | in the sorted list, nothing before a nameless record has a name |
| `Filters.SubsequenceTransitive` | app1.py:112-137 | a subsequence of a subsequence is a subsequence |
| `Filters.SubsequenceBounds` | app1.py:112-137 | a subsequence is no longer than its source and holds only its records |
| `Filters.Holds` | app1.py:116-137 | the search test is a substring match of the lowered query in the lowered name; the region test needs the region key equal to the selection; the range test is the population's class (0 when missing) |
| `Filters.Filter` | app1.py:116-137 | a comprehension keeps an order-preserving subsequence: every copy of each passing record and nothing else |
| `Filters.FilterKeepsAll` | app1.py:116-137 | a comprehension whose test every record passes returns its input |
| `Filters.FilterIdempotent` | app1.py:116-137 | the same comprehension twice equals it once |
| `Filters.NameStage` | app1.py:115-119 | an empty search keeps every record; otherwise a record is kept iff the lowered query is in its lowered name (`''` when missing), order preserved |
| `Filters.RegionStage` | app1.py:122-126 | "All" keeps every record; otherwise exactly the records whose region equals the selection, order preserved |
| `Filters.PopulationStage` | app1.py:129-137 | the selected range keeps exactly the records whose population (0 when missing) passes its test; "All" keeps everything |
| `Filters.Filtered` | app1.py:112-137 | the three stages yield a subsequence of the data, no longer than it, holding every copy of each record that passes all three tests |
| `Filters.Pipeline` | app1.py:112-140 | the shown list is sorted by name, no longer than the data, and has exactly the passing records with their multiplicities |
| `Filters.StageCons` | app1.py:115-137 | a stage decides each record on its own: the head is kept iff it passes |
| `Filters.StagesCommute` | app1.py:115-137 | any two stages give the same list in either order |
| `Filters.FilteredIsConjunction` | app1.py:115-137 | the three successive comprehensions equal one comprehension over the AND of their tests |
| `Filters.FiltersAnyOrder` | app1.py:115-137 | all six orders of the stages give the script's list |
| `Filters.FilteredKeepsSelected` | app1.py:112-137 | filtering a list whose records all pass changes nothing |
| `Filters.SelectAllKeepsAll` | app1.py:115-137 | the combined comprehension over records that all pass is the identity |
| `Filters.PipelineIdempotent` | app1.py:112-140 | running filters and sort on the shown list gives the same list |
| `Filters.PipelineStable` | app1.py:140 | the shown list keeps the filtered order among records of equal name |
| `Filters.FilterCons` | app1.py:116-137 | a comprehension decides the head on its own |
| `Filters.SearchIgnoresCase` | app1.py:118 | lower-casing the query first does not change the search |
| `Filters.MissingNameMatchesOnlyEmpty` | app1.py:115-118 | a record without a name is kept by the search iff the search is empty |
| `Filters.MissingRegionDropped` | app1.py:122-125 | a record without a region survives the region filter iff "All" is selected |
| `Filters.MissingPopulationIsSmall` | app1.py:129-137 | a record without a population passes exactly the ranges other than the three from 1 million up |
| `Filters.RangesSplitList` | app1.py:129-137 | the four range filters split any list: their results together are the list, as a multiset |
| `Filters.StageOfRange` | app1.py:129-137 | selecting a range's label applies that range's comprehension |
| `Filters.RangesSplitRecord` | app1.py:129-137 | each record's copies go to exactly one range |
| `Filters.RegionExample` | app1.py:122-140 | Chad (Africa) and Chile (Americas) filtered by "Africa" give exactly Chad |
| `Regions.RegionsPresent` | app1.py:98 | the values collected are exactly the regions of records that have a region key |
| `Regions.StrictCons` | app1.py:98 | a list headed by `a` is strictly increasing iff its tail is and `a` is below every tail entry |
| `Regions.InsertDistinct` | app1.py:98 | adding a region gives the old entries plus that region |
| `Regions.InsertDistinctIncreasing` | app1.py:98 | adding a region keeps the list strictly increasing |
| `Regions.SortedDistinct` | app1.py:98 | `sorted(set(xs))` is strictly increasing (so distinct) with exactly the values of `xs` |
| `Regions.StrictlyIncreasingUnique` | app1.py:98 | a strictly increasing list is determined by its elements |
| `Regions.RegionOptions` | app1.py:98 | the options are "All" then strictly increasing entries, each the region of some record, every record's region listed |
| `Regions.RegionOptionsUnique` | app1.py:98 | any strictly increasing list of exactly the regions present is the options after "All" |
| `Cards.CapitalOf` | app1.py:170 | the first capital when the list is present and non-empty, otherwise "Unknown" |
| `Cards.LanguagesOf` | app1.py:174 | "Unknown" when languages are missing or empty; otherwise the names joined with `", "` in the mapping's order, so every name appears in the text |
| `Cards.LastIndexOf` | app1.py:175-176 | the last position of a character, or none iff it does not occur |
| `Cards.CurrencyLabel` | app1.py:175 | the name (or "Unknown"), then `" ("`, then the symbol (or "Unknown"), then `")"`, and nothing else |
| `Cards.CurrencyLabelRoundTrip` | app1.py:175-176 | a label `"<name> (<symbol>)"`, each part defaulted to "Unknown", reads back as its name and symbol when the symbol has no `(` |
| `Cards.CurrencyLabels` | app1.py:175-176 | one label per currency, in order |
| `Cards.CurrenciesOf` | app1.py:175-176 | "Unknown" when currencies are missing or empty; otherwise the currency labels joined with `", "` in the mapping's order, so every label appears in the text |
| `Cards.MapLink` | app1.py:191-192 | a link exists iff `maps` and `maps.googleMaps` both exist, and it is that URL |
| `Cards.FlagRequest` | app1.py:156-159 | a flag is fetched iff `flags.png` exists and is non-empty, and the URL is that value |
| `Cards.ShowFlag` | app1.py:159-165 | no URL shows no flag; a load that raises one of the three caught exceptions shows the placeholder on that card; only a successful load shows the image |
| `Cards.CardOf` | app1.py:156-191 | the card's name, region and subregion default to "Unknown"; the population is formatted from the population or 0; capital, languages, currencies, flag request and map link are the field functions above |
| `Cards.BareCard` | app1.py:156-191 | a record with every key missing yields "Unknown" text fields, population "0", no flag and no map link |
| `Cards.EmptyListsDefault` | app1.py:170-176 | empty capital, language and currency lists give "Unknown", as missing keys do |
| `Cards.MapLinkNeedsBothKeys` | app1.py:191 | a `maps` object without `googleMaps` gives no link |
| `Cards.CardNameVersusSortKey` | app1.py:140-157 | the card shows the sort name, except that a missing name shows "Unknown" where the sort uses `''` |

## Left out

- `fetch_countries` (app1.py:60-74, app.py:56-63) is not modelled. It covers the HTTP request, the `st.cache_data` cache and the error notice. `app1.py` adds a `Retry`/`HTTPAdapter` policy, a 10-second timeout and `raise_for_status`; `app.py` has none of these. All of it is network I/O and library behaviour. The model takes the downloaded list as its input.
- The flag download and PIL decoding (app1.py:159-165) are not modelled. Their outcome is the `loaded` parameter of `Cards.ShowFlag`.
- Cards.ShowFlag: `loaded == false` stands only for the three exceptions the card catches (`RequestException`, `UnidentifiedImageError`, `IOError`). Any other exception from `requests.get`, `Image.open` or `st.image` escapes the `try` and stops the rest of the grid. Such escaping exceptions are not modelled.
- Population.Render: does not model the two decimals printed by `f"{n / d:.2f}"`. They come from float division and binary rounding, so they are a parameter of the function. The model fixes the branch, the unit and the exact `str(n)` branch.
- Text.Lower: covers ASCII only. Python's `str.lower()` also maps non-ASCII letters, so a search that differs from a name only in the case of a non-ASCII letter matches in the script but not in the model.
- JSON `null` values are not modelled. Keys are either present with a value of the expected type or absent. A `null` population, for example, would make the script's comparison raise.
- All Streamlit rendering is UI only and is left out: the CSS, page configuration, titles, the three-column grid loop (app1.py:146-194), the "Showing N countries" banner, the footer and the expander. The unused `pandas` import is left out too.
