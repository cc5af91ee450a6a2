# Geospatial crime dashboard — a Dafny model of its scoring core

The dashboard shows crime counts and social-media sentiment for the wards of
Scotland month by month. Its logic lives in a handful of React components and
a FastAPI back end:

- **score maps**: for the selected year and month, the value of each ward or place;
- **choropleth colour scales**: four variants, each with a grey "no data" colour;
- **totals, averages, ranks and top-five leaderboards**;
- **crime reasons**: crime categories with a positive count, largest first;
- **ward code ↔ place name lookups**;
- **small classifiers**: status, rank chip and calendar month;
- **fixed-length month and day series**;
- **two string operations**: ward-name normalisation and a case-insensitive
  region filter.

This project models that logic in Dafny, one module per component, and proves
what each part promises.

| module | component |
|---|---|
| `DisasterMapJs` | the map over the bundled monthly data: search options, five-band palette, top areas, top crimes |
| `DisasterMapJsx` | the API-backed map: data utilities, ranks, status, RGB gradient, name-keyed score map, leaderboard |
| `ScotlandMap` | the leaflet map: score lookup, bucket and clamp hue scales |
| `HomePage` | the county map: name-keyed crime map, linear 0..780 hue scale |
| `CrimeApi` | the FastAPI endpoints: totals, averages, rank search, crime reasons, ward list, metadata, coordinates |
| `DashBoardJsx` | the API-backed dashboard: month series, name normalisation, search and selection, calendar, rank chip |
| `DashBoardJs` | the bundled-data dashboard: region list, monthly and daily series |
| `RegionSelector` | the region picker's filter |

The shared modules are:

- `Wrappers`: `Option` and `Result`.
- `Seqs`: sums, first-index search, `new Set` de-duplication, `slice`.
- `Sorting`: the stable sort that `Array.prototype.sort` and Python's `sorted` perform, with its order, permutation and stability theorems.
- `Text`: JavaScript `\s`, ASCII case mapping, `includes`, code-point order, string sort.
- `Dicts`: an insertion-ordered JavaScript object or Python `dict`.
- `Records`: rows, JSON fields, `parseFloat`, `Number` coercion.
- `Colors`: palettes, clamping, `Math.round`.
- `Buckets`: threshold bucketing.
- `ScoreMaps`: maps filled row by row, where the last write wins.
- `Wards`: `find` over the ward-code / place-name pairs.

Modelling choices:

- **Numbers.** Scores are exact `real`s. A JSON field is either a JavaScript
  number or something else. For something else, the model also records what
  `parseFloat` and `Number` make of it; `None` stands for `NaN`.
- **Loops.** Loops that fill a local object or array are `method`s with loop
  invariants, proved equal to a function of their input. This covers the
  score maps, `topAreas`, `wardCodeMapping`, the rank search loop and the
  nested `crime_sums` loop.
- **Pure code.** Filter, map, sort and find chains are functions.
- **MongoDB results.** A `$group`/`$sort` result that an endpoint only walks
  through is an input sequence of groups.

Three behaviours of the scales are easy to misread, and the model states them:

- **Score 25.** With the thresholds `[0, 1, 2, 4, 6, 7, 10, 13, 17, 23, 248]`,
  `findIndex` puts a crime score of 25 in bucket 10, since 25 exceeds 23 and is
  at most 248 (`Buckets.CrimeBucketOfTwentyFive`).
- **Score 0.** The five-band and leaflet scales grey only `score < 0`, so 0 is
  green, or hue 120 (`DisasterMapJs.CrimeColorCases`).
- **County scale.** The county scale greys only `null`; a negative score gets
  hue 120 (`HomePage.HueScale`).

## Model

| member | source | states |
|---|---|---|
| Buckets.FindFirstAtLeast | frontend/src/components/DisasterMap.js:120 | `findIndex(t => score <= t)`: -1 only when every threshold is below the score; otherwise the index of a threshold at least the score, with every earlier threshold below it |
| Buckets.BucketIndex | frontend/src/components/DisasterMap.js:119-121 | the bucket is a valid index; the score does not exceed its threshold unless it is the last bucket; every earlier threshold is below the score |
| Buckets.BucketMonotone | frontend/src/components/ScotlandMap.js:52-56 | for any thresholds, a larger score never lands in a lower bucket |
| Buckets.CrimeBucketRange | frontend/src/components/DisasterMap.js:119-121 | crime buckets lie in 0..10; every score above 248 gets bucket 10, every score at or below 0 bucket 0 |
| Buckets.CrimeBucketOfTen | frontend/src/components/DisasterMap.js:119-122 | a score of 10 lands in bucket 6 |
| Buckets.CrimeBucketOfTwentyFive | frontend/src/components/DisasterMap.js:119-122 | a score of 25 lands in bucket 10, the last |
| Colors.Clamp01 | frontend/src/components/DisasterMap.js:133 | the clamp lies in [0, 1], is the identity inside it, 0 below and 1 above |
| Colors.Clamp01Monotone | frontend/src/components/ScotlandMap.js:65 | clamping preserves order |
| Colors.Round | frontend/src/components/DisasterMap.jsx:235 | `Math.round(x)` is the integer r with r <= x + 1/2 < r + 1 |
| Colors.RoundMonotone | frontend/src/components/DisasterMap.jsx:235 | rounding preserves order |
| Colors.RoundBounds | frontend/src/components/DisasterMap.jsx:235 | a value between two integers rounds to a value between them |
| Colors.HueOf | frontend/src/components/ScotlandMap.js:59 | a fraction in [0, 1] gives a hue in [0, 120] |
| Colors.BandOf | frontend/src/components/DisasterMap.js:125-129 | the band is green exactly below 0.2 and red exactly from 0.8 on |
| Colors.BandOfMonotone | frontend/src/components/DisasterMap.js:125-129 | a larger fraction never gets a less severe band |
| Records.ParseFloat | frontend/src/components/DisasterMap.js:104-107 | `parseFloat` of a JavaScript number is that number |
| Records.Coerce | src/components/HomePage.js:22 | `Number` coercion of a JavaScript number is that number |
| Records.NumberOrZero | frontend/src/components/DisasterMap.jsx:68 | a number counts as itself and any other value counts 0 |
| Seqs.IndexOf | frontend/src/components/DisasterMap.jsx:86 | `findIndex`: -1 exactly when the element is absent, else the first position holding it |
| Seqs.Dedup | frontend/src/components/DisasterMap.jsx:73 | `[...new Set(s)]` has no repeats, keeps every element of `s` and adds none |
| Seqs.DedupOrder | frontend/src/components/DisasterMap.jsx:73 | de-duplication keeps the order in which elements are first met, both ways |
| Seqs.Take | frontend/src/components/DisasterMap.js:268 | `slice(0, n)` is the prefix of length min(n, length) |
| Sorting.SortByCorrect | frontend/src/components/DisasterMap.js:266-267 | the sort's result is ordered by key and is a permutation of its input |
| Sorting.SortByStable | frontend/src/components/DisasterMap.jsx:83-84 | the elements sharing any one key come out in their input order |
| Sorting.SortByIndex | frontend/src/components/DisasterMap.jsx:83-86 | after sorting distinct elements, an element's position is the number of elements strictly ahead of it plus the number with an equal key earlier in the input |
| Sorting.SortByTies | frontend/src/components/DisasterMap.jsx:83-84 | of two distinct elements with equal keys, the one met first in the input comes first in the output |
| Sorting.SortedTiesKeepInputOrder | backend/api-app/main.py:220 | of two output positions with equal keys, the earlier one holds the element met first in the input |
| Sorting.OrderedIndices | frontend/src/components/DisasterMap.jsx:86 | in an ordered sequence an element with a key strictly ahead stands at a smaller index |
| Sorting.TopN | frontend/src/components/DisasterMap.js:266-268 | `sort(...).slice(0, n)` keeps at most n elements, ordered, drawn from the input, and no element left out stands strictly ahead of the last one kept |
| Text.Upper | frontend/src/components/DashBoard.jsx:154 | `toUpperCase` keeps the length and maps each character |
| Text.Lower | frontend/src/components/RegionSelector.js:9 | `toLowerCase` keeps the length and maps each character |
| Text.LowerOfUpper | frontend/src/components/RegionSelector.js:9 | lower-casing an upper-cased string gives the lower-cased original |
| Text.LowerIdempotent | frontend/src/components/RegionSelector.js:9 | lower-casing twice is lower-casing once |
| Text.UpperIdempotent | frontend/src/components/DashBoard.jsx:154 | upper-casing twice is upper-casing once |
| Text.CollapseSpaces | frontend/src/components/DashBoard.jsx:154 | `replace(/\s+/g, '_')` leaves no whitespace and never lengthens the text |
| Text.CollapseNoSpace | frontend/src/components/DashBoard.jsx:154 | text without whitespace is left unchanged |
| Text.CollapseRun | frontend/src/components/DashBoard.jsx:154 | a maximal whitespace run between words becomes exactly one underscore |
| Text.Contains | frontend/src/components/RegionSelector.js:9 | `includes` holds exactly when the text occurs at some position |
| Text.LexLessTotal | frontend/src/components/DashBoard.js:34 | of two different strings one is below the other in code-point order (with LexLessIrreflexive, LexLessTransitive, LexLessAsymmetric: a strict total order) |
| Text.LexLessTransitive | frontend/src/components/DashBoard.js:34 | code-point order is transitive |
| Text.SortByNameCorrect | frontend/src/components/DisasterMap.js:80-81 | sorting by label gives a label-ordered permutation of the input |
| Dicts.Get | frontend/src/components/ScotlandMap.js:45 | a lookup is missing exactly when the key is not stored |
| Dicts.PutGet | frontend/src/components/DisasterMap.js:109 | `map[key] = value` stores the value under the key, leaves every other key alone, keeps keys unique, and appends a new key at the end while an existing key keeps its place |
| ScoreMaps.LastWrite | frontend/src/components/DisasterMap.js:97-111 | absent exactly when no row writes the key; otherwise the value of a row writing it after which no row writes it |
| ScoreMaps.ScoreMapLookup | frontend/src/components/DisasterMap.js:95-113 | the map filled row by row stores each key once, with the value of the last row writing it |
| ScoreMaps.ScoreMapKeys | frontend/src/components/DisasterMap.js:95-113 | a key is stored exactly when some row writes it |
| ScoreMaps.PeriodScoreMap | frontend/src/components/DisasterMap.js:95-113 | the loop yields the row-by-row map: each key once, the last write under it, and a key exactly for the non-empty keys of period rows whose metric parses (also ScotlandMap.js:24-42 with ward codes, and the corrected HomePage.js:15-27 with place names) |
| ScoreMaps.PeriodScoreMapKeys | frontend/src/components/ScotlandMap.js:24-42 | a ward code is a key exactly when a row of the selected year and month carries it, non-empty, with a metric that parses |
| ScotlandMap.GetRegionScore | frontend/src/components/ScotlandMap.js:44-46 | the score is `null` exactly when the key is not in the map, and otherwise the value stored under it (the home page's `getRegionScore`, HomePage.js:30-32, is the same lookup by place name) |
| ScotlandMap.GetColor | frontend/src/components/ScotlandMap.js:48-71 | `'#ccc'` exactly for a missing or negative score; otherwise a hue in [0, 120] |
| ScotlandMap.CrimeHueSteps | frontend/src/components/ScotlandMap.js:52-61 | the crime hue is a whole multiple of 12 between 0 and 120 |
| ScotlandMap.CrimeHueMonotone | frontend/src/components/ScotlandMap.js:52-61 | a higher crime score never gets a greener hue |
| ScotlandMap.SentimentHue | frontend/src/components/ScotlandMap.js:64-67 | the sentiment hue never rises with the score, is 120 at 0 and 0 from 1 on |
| ScotlandMap.RegionColor | frontend/src/components/ScotlandMap.js:75-78 | a ward without a score is filled `'#ccc'` |
| HomePage.EntryAsWrittenStoresNaN | src/components/HomePage.js:18-24 | as written, a period row whose crime value coerces to a number but does not parse is stored as `NaN` |
| HomePage.NullCrimeCounterexample | src/components/HomePage.js:16-51 | a single period row with a `null` crime value leaves `NaN` under its name in the map as written and fills the place with a `NaN` hue; the corrected map has no entry and greys the place |
| HomePage.EntryAsWrittenSkipsPartialNumber | src/components/HomePage.js:18-24 | a period row whose crime value parses but does not coerce (such as `"12abc"`) is skipped as written and entered by the corrected map |
| HomePage.GetColor | src/components/HomePage.js:35-44 | `'#ccc'` exactly for a `null` score; otherwise a hue in [0, 120] |
| HomePage.HueScale | src/components/HomePage.js:38-43 | the hue never rises with the score, is 0 from 780 on and 120 at 0 and below, negative scores included |
| HomePage.RegionColor | src/components/HomePage.js:47-51 | over the corrected map, a place without a score is filled `'#ccc'`; one with a score gets a hue |
| HomePage.RegionColorAsWritten | src/components/HomePage.js:30-51 | over the map as written: `'#ccc'` exactly for a place without an entry, a `NaN` hue exactly for a stored `NaN`, otherwise a hue in [0, 120] |
| Wards.FindByWard | frontend/src/components/DisasterMap.jsx:241 | `find` by ward code: nothing exactly when no pair has the code, else the first pair that has it |
| Wards.FindByLocation | frontend/src/components/DisasterMap.jsx:304 | `find` by place name: nothing exactly when no pair has the name, else the first pair that has it |
| Wards.SourceLocationOf | frontend/src/components/DisasterMap.jsx:362-365 | an unmapped ward code is returned as is; a mapped one gives the name of the first pair with that code |
| Wards.WardCodeOf | frontend/src/components/DashBoard.jsx:167-171 | `null` exactly when no pair has the name, else the code of the first pair that has it |
| Wards.WardRoundTrip | frontend/src/components/DisasterMap.jsx:302-306 | with a one-to-one pair list, selecting the name shown for a mapped ward code selects that ward code |
| Wards.LocationRoundTrip | frontend/src/components/DisasterMap.jsx:362-365 | with a one-to-one pair list, the name shown for the ward selected by a listed name is that name |
| DisasterMapJs.FirstPerLocation | frontend/src/components/DisasterMap.js:67-79 | one option per place name, every place of the data present, each option made from the first row with its name |
| DisasterMapJs.AreaOptionsCorrect | frontend/src/components/DisasterMap.js:66-82 | the options are in strictly ascending label order, offer every place of the data, and carry the ward code and position of the first row with that name |
| DisasterMapJs.GetColor | frontend/src/components/DisasterMap.js:115-144 | `'#e0e0e0'` exactly for a missing or negative score, whatever the score type; otherwise a palette band |
| DisasterMapJs.CrimeColorMonotone | frontend/src/components/DisasterMap.js:119-129 | for 0 <= a <= b the band of a is never above the band of b |
| DisasterMapJs.CrimeColorCases | frontend/src/components/DisasterMap.js:119-129 | score 0 is `'#33cc33'`, score 10 (bucket 6) is `'#ff9933'` |
| DisasterMapJs.CrimeColorRed | frontend/src/components/DisasterMap.js:119-129 | every score from 25 on (300 included) is `'#ff3333'` |
| DisasterMapJs.SentimentColorBands | frontend/src/components/DisasterMap.js:132-141 | sentiment is clamped first: from 0.8 on (above 1 included) red, below 0.2 green, and monotone |
| DisasterMapJs.NameOrUnknown | frontend/src/components/DisasterMap.js:259 | the name is never empty and a non-empty place name is kept |
| DisasterMapJs.PeriodScoresMembers | frontend/src/components/DisasterMap.js:249-265 | the collected entries are exactly the records of period rows whose metric parses |
| DisasterMapJs.TopAreas | frontend/src/components/DisasterMap.js:248-269 | the loop collects the period's entries in data order, and the result is the first five of their stable descending sort |
| DisasterMapJs.TopAreasCorrect | frontend/src/components/DisasterMap.js:266-268 | at most five entries of the period, in non-increasing score order, and no period entry left out scores above the last one kept |
| DisasterMapJs.TopAreasFromPeriod | frontend/src/components/DisasterMap.js:250-262 | every leaderboard entry comes from a row of the selected period whose metric parses |
| DisasterMapJs.FindPeriodRow | frontend/src/components/DisasterMap.js:299-303 | nothing exactly when no row has the ward code, year and month; else the first such row |
| DisasterMapJs.AreaCrimeDetails | frontend/src/components/DisasterMap.js:296-304 | nothing without a selected option; otherwise the first row of its ward code in the period, nothing when there is none |
| DisasterMapJs.PositiveCrimesMembers | frontend/src/components/DisasterMap.js:309-311 | a category is kept exactly when it is not a meta field and holds a positive number |
| DisasterMapJs.TopCrimesCorrect | frontend/src/components/DisasterMap.js:307-314 | at most five categories, in non-increasing order, drawn from the row's positive categories, none left out above the last one kept |
| DisasterMapJs.TopCrimeFromRow | frontend/src/components/DisasterMap.js:308-314 | every listed crime is a key of the row, not one of the meta fields, with a positive numeric value |
| DisasterMapJsx.FilteredData | frontend/src/components/DisasterMap.jsx:57-63 | the filtered rows are exactly the rows of the ward, year and month, and never more than the data |
| DisasterMapJsx.TotalMetricIsMatchSum | frontend/src/components/DisasterMap.jsx:65-69 | the total is the sum of the metric over the rows of the ward and period, a non-number counting 0 |
| DisasterMapJsx.TotalMetricNoMatch | frontend/src/components/DisasterMap.jsx:65-69 | with no row of the ward and period the total is 0 |
| DisasterMapJsx.TotalMetricAppend | frontend/src/components/DisasterMap.jsx:65-69 | the total over concatenated data is the sum of the totals |
| DisasterMapJsx.TotalRegionsCount | frontend/src/components/DisasterMap.jsx:73-89 | `totalRegions` is the number of distinct ward codes in the whole data, whatever the period |
| DisasterMapJsx.RankRange | frontend/src/components/DisasterMap.jsx:83-88 | the rank is 0 exactly for a ward absent from the data, and in 1..totalRegions for a present one |
| DisasterMapJsx.RankFormula | frontend/src/components/DisasterMap.jsx:83-86 | a present ward's rank is 1 + the number of wards with a strictly larger total + the number with an equal total met earlier in the data |
| DisasterMapJsx.RankOrder | frontend/src/components/DisasterMap.jsx:83-86 | a strictly larger total gives a strictly smaller rank |
| DisasterMapJsx.RankTies | frontend/src/components/DisasterMap.jsx:73-86 | of two wards with equal totals, the one met first in the data ranks first |
| DisasterMapJsx.FoundTotalIsTotal | frontend/src/components/DisasterMap.jsx:90-91 | `totalCrime`/`totalSentiment` are the ward's total, 0 for an absent ward |
| DisasterMapJsx.GetStatus | frontend/src/components/DisasterMap.jsx:95-103 | Low exactly for ranks up to 5, High exactly above 10, Medium otherwise |
| DisasterMapJsx.StatusMonotone | frontend/src/components/DisasterMap.jsx:95-103 | a larger rank never gets a lower severity |
| DisasterMapJsx.CrimeReasons | frontend/src/components/DisasterMap.jsx:105-108 | one value per filtered row, never negative, positive exactly when the detected crime coerces to a positive number and then equal to it |
| DisasterMapJsx.RgbValues | frontend/src/components/DisasterMap.jsx:204-220 | blue is 0, red and green lie in [0, 255], green is 255 below the midpoint and red from it on |
| DisasterMapJsx.RgbMonotone | frontend/src/components/DisasterMap.jsx:204-220 | along the gradient red never decreases and green never increases |
| DisasterMapJsx.SentimentT | frontend/src/components/DisasterMap.jsx:226-232 | a sentiment between -1.5 and -0.5 maps to a gradient position in [0, 1] |
| DisasterMapJsx.GetColor | frontend/src/components/DisasterMap.jsx:200-236 | `'#e0e0e0'` exactly without a score; otherwise an `rgb` colour with blue 0 and red, green in 0..255 |
| DisasterMapJsx.CrimeGradientCases | frontend/src/components/DisasterMap.jsx:222-235 | crime 0 is rgb(0,255,0), 10 is rgb(255,255,0), and 20 and above rgb(255,0,0) |
| DisasterMapJsx.CrimeGradientMonotone | frontend/src/components/DisasterMap.jsx:222-235 | a higher crime score is never less red nor more green |
| DisasterMapJsx.SentimentGradientCases | frontend/src/components/DisasterMap.jsx:226-232 | above -0.5 rgb(0,255,0), below -1.5 rgb(255,0,0), and -1 rgb(255,255,0) |
| DisasterMapJsx.RegionalScoreMap | frontend/src/components/DisasterMap.jsx:238-252 | the loop re-keys the selected totals by place name: each key once with the last write, and a key exactly for the name of a ward code that has a pair |
| DisasterMapJsx.AreaScores | frontend/src/components/DisasterMap.jsx:337-340 | one record per entry of the score map, in entry order |
| DisasterMapJsx.TopAreasCorrect | frontend/src/components/DisasterMap.jsx:336-344 | at most five entries of the map, ascending for sentiment and descending for crime, and no entry left out would come before the last one kept |
| CrimeApi.Matching | backend/api-app/main.py:68-70 | the matched documents are exactly those of the year, month and ward code |
| CrimeApi.CrimeTotal | backend/api-app/main.py:66-74 | 0 when no document matches; otherwise the sum of the matching documents' numeric crime values |
| CrimeApi.CrimeTotalAppend | backend/api-app/main.py:66-74 | the total over two batches of documents is the sum of their totals |
| CrimeApi.SentimentTotal | backend/api-app/main.py:112-120 | `None` exactly when no matching document has a numeric sentiment |
| CrimeApi.NoDataDistinct | backend/api-app/main.py:118-119 | with no matching document the sentiment stays `None` while the crime total (lines 72-73) reads 0 |
| CrimeApi.SentimentWithinRange | backend/api-app/main.py:112-120 | the average lies within any bounds that hold for every sentiment value |
| CrimeApi.RankOf | backend/api-app/main.py:157-162 | `None` exactly when no group has the ward code; else 1 + the first position holding it, within 1..number of groups |
| CrimeApi.LocationRank | backend/api-app/main.py:155-162 | the loop returns the number of groups and the rank of the first group with the ward code, stopping there |
| CrimeApi.RankFirst | backend/api-app/main.py:158-161 | a first match at position idx gives rank idx + 1 |
| CrimeApi.RankOrder | backend/api-app/main.py:148-178 | in a descending, one-per-ward group list each ward ranks at its position + 1, and a strictly higher score ranks strictly better |
| CrimeApi.ColumnsDistinct | backend/api-app/main.py:193-211 | the seventeen crime columns are distinct |
| CrimeApi.PositivesMembers | backend/api-app/main.py:220 | the filter keeps exactly the entries with a positive sum |
| CrimeApi.PositivesOrder | backend/api-app/main.py:220 | the filter keeps the relative order of what it keeps |
| CrimeApi.CrimeReasons | backend/api-app/main.py:191-221 | the result's entries, in order, are the positive column sums sorted by non-increasing sum |
| CrimeApi.SumColumns | backend/api-app/main.py:216-219 | starting from 0 for every column, the nested loop leaves each column's sum over the documents, in column order |
| CrimeApi.AddCounts | backend/api-app/main.py:218-219 | the inner loop adds one document's `get(col, 0)` to every column |
| CrimeApi.AddStep | backend/api-app/main.py:219 | one `crime_sums[col] += doc.get(col, 0)` reads the running sum and writes it back with the count added, touching no other column |
| CrimeApi.ReasonsMembers | backend/api-app/main.py:212-220 | an entry is in the result exactly when it names a listed column paired with its positive sum over the matching documents |
| CrimeApi.ReasonsOrdered | backend/api-app/main.py:220 | the result is in non-increasing order of sum and names each column once |
| CrimeApi.ReasonsTies | backend/api-app/main.py:220 | equal sums keep the order of the column list |
| CrimeApi.GetWards | backend/api-app/main.py:223-233 | one entry per distinct (ward code, place name) pair of the documents, none invented |
| CrimeApi.FindOne | backend/api-app/main.py:182 | nothing exactly when no document has the ward code; else the first that has it |
| CrimeApi.Truncate | backend/api-app/main.py:186 | Python's `int()` of a float truncates toward zero |
| CrimeApi.LocationMetadata | backend/api-app/main.py:180-189 | a 404 with the location message exactly when no document has the ward code; otherwise the first document's fields, missing ones read as 0, 0.0 and the empty string |
| CrimeApi.WardLatLon | backend/api-app/main.py:235-243 | a 404 with the ward-code message exactly when no document has the ward code; otherwise the first document's coordinates, 0.0 when missing |
| DashBoardJsx.MonthSeries | frontend/src/components/DashBoard.jsx:106-107 | twelve values; entry i is month i + 1's number when it is one and 0 when the month is missing or `null` |
| DashBoardJsx.MonthSeriesPut | frontend/src/components/DashBoard.jsx:106-107 | changing the value of month k + 1 changes entry k of the series and no other |
| DashBoardJsx.Normalise | frontend/src/components/DashBoard.jsx:154 | the normalised name has no whitespace and is never longer than the name |
| DashBoardJsx.NormaliseIdempotent | frontend/src/components/DashBoard.jsx:154 | normalising a normalised name changes nothing |
| DashBoardJsx.NormaliseRun | frontend/src/components/DashBoard.jsx:154 | a whitespace run between words becomes one underscore, and the letters are upper-cased |
| DashBoardJsx.WardCodeMapping | frontend/src/components/DashBoard.jsx:152-156 | the loop builds one key per distinct region in first-seen order, each mapped to its normalised name |
| DashBoardJsx.SearchLocation | frontend/src/components/DashBoard.jsx:159-165 | the search accepts a query exactly when it is one of the listed names |
| DashBoardJsx.SelectLocation | frontend/src/components/DashBoard.jsx:167-171 | the chosen name is kept; the ward code is `null` exactly when no pair has the name, else that of the first pair with it |
| DashBoardJsx.SearchThenSelect | frontend/src/components/DashBoard.jsx:159-171 | a query the search accepts selects a ward, and one it rejects would not |
| DashBoardJsx.Confirm | frontend/src/components/DashBoard.jsx:284-288 | Confirm selects the picker's year and a month in 1..12 from which the picker's 0-based month is recovered |
| DashBoardJsx.ConfirmRunsPeriodEffects | frontend/src/components/DashBoard.jsx:111-148 | before Confirm no period effect runs; after confirming a month within the picker's bounds, the weekly, rank, total and crime-reason effects run exactly when a ward code is selected |
| DashBoardJsx.ChipBandAsWritten | frontend/src/components/DashBoard.jsx:395-406 | as written: High Crime Rate exactly for ranks up to 30 (a `null` rank included), 31..75 Relatively High, 76..150 Relatively Safe, 151 on Safe |
| DashBoardJsx.SentenceAgreesWithChip | frontend/src/components/DashBoard.jsx:409-414 | every rank of 1 or more gets exactly one sentence, of the chip's band |
| DashBoardJsx.NullRankChip | frontend/src/components/DashBoard.jsx:395-413 | as written, a `null` rank is labelled "High Crime Rate" in `error` colour with no sentence |
| DashBoardJsx.RankChip | frontend/src/components/DashBoard.jsx:395-414 | no chip exactly when there is no rank; for a rank of 1 or more the chip's band is the one sentence shown |
| DashBoardJsx.RankChipMonotone | frontend/src/components/DashBoard.jsx:395-406 | a larger rank never gets a less safe band |
| DashBoardJs.AllRegionsCorrect | frontend/src/components/DashBoard.js:34 | the region list is strictly increasing (hence duplicate-free) and lists exactly the place names of the data |
| DashBoardJs.ReadingOf | frontend/src/components/DashBoard.js:45 | `null` exactly without an entry; otherwise the entry's `parseFloat` |
| DashBoardJs.FindEntry | frontend/src/components/DashBoard.js:40-42 | nothing exactly when no row has the region, year and month; else the first such row |
| DashBoardJs.MonthRecordOf | frontend/src/components/DashBoard.js:39-47 | crime and sentiment are both `null` exactly when no row matches; otherwise both are parsed from the first matching row |
| DashBoardJs.MonthlyCrimeData | frontend/src/components/DashBoard.js:37-49 | twelve records, month 1 to 12 in order, record i being the month's `MonthRecordOf`: both readings from the first matching row, `null` without one |
| DashBoardJs.MonthlyGapsAreNotZeros | frontend/src/components/DashBoard.js:40-47 | a month charts `null` exactly when it has no row; a month that charts 0 has a row |
| DashBoardJs.FindDay | frontend/src/components/DashBoard.js:54-60 | nothing exactly when no day-wise row has the region and date; else the first such row |
| DashBoardJs.DayRecordOf | frontend/src/components/DashBoard.js:53-64 | crime is `null` exactly when no day-wise row matches; otherwise parsed from the first one |
| DashBoardJs.DailyCrimeData | frontend/src/components/DashBoard.js:51-66 | thirty records, day 1 to 30 in order, record i being the day's `DayRecordOf`: the crime reading from the first matching day-wise row, `null` without one |
| DashBoardJs.DailyIgnoresData | frontend/src/components/DashBoard.js:51-54 | the daily series does not depend on its `data` argument, and day 31 never appears |
| RegionSelector.FilteredRegions | frontend/src/components/RegionSelector.js:8-10 | a region is shown exactly when it is listed and its lower-cased name contains the lower-cased search |
| RegionSelector.FilteredIsSubsequence | frontend/src/components/RegionSelector.js:8 | the shown regions keep the list's order |
| RegionSelector.EmptySearchShowsAll | frontend/src/components/RegionSelector.js:8-10 | an empty search shows every region |
| RegionSelector.CaseInsensitive | frontend/src/components/RegionSelector.js:9 | upper- or lower-casing the search shows the same list |
| RegionSelector.FilterIdempotent | frontend/src/components/RegionSelector.js:8-10 | filtering the shown list again with the same search changes nothing |

## Left out

- Floating point: scores are exact reals. `NaN` is the `None` of an optional value, and IEEE rounding is not modelled.
- `parseFloat` and `Number` coercion of strings are not computed. A non-number field carries their results as given data.
- Case mapping covers the ASCII letters only. Unicode case folding is not modelled.
- `localeCompare` and the default `sort()` are modelled as code-point order (`Text.LexLess`). Locale collation is not modelled. JavaScript compares UTF-16 code units, which differs from code-point order only when a character above U+FFFF is compared with one in U+E000–U+FFFF.
- `Array.prototype.sort` with a numeric comparator, and Python's `sorted`, are modelled by one stable insertion sort on sequences. The in-place sort of `topCrimes` (DisasterMap.js:313) is modelled on a value, not on an array.
- A JavaScript object's own key order puts integer-like keys first. The model keeps plain insertion order, so it matters only for keys that look like integers.
- MongoDB is not modelled. The `$match` and `$group` of the totals and crime reasons are computed over a document sequence, and `$sum`/`$avg` skip non-numeric values. The `$group`/`$sort` output of the rank endpoints is an input sequence; `CrimeApi.RankOrder` assumes it sorted and one group per ward. Mongo's tie order is left unspecified.
- `Records.Row` and `CrimeApi.Doc`: every row and document is assumed to carry `'WARD CODE'`/`ward_code` and `source_location` as strings, a missing or empty one in a row being the empty string. The code behaves differently for a missing key:
  - `[...new Set(...)].sort()` (DashBoard.js:34) puts `undefined` last, where `DashBoardJs.AllRegions` puts `""` first.
  - `region.toLowerCase()` (RegionSelector.js:9) throws a `TypeError` on `undefined`, where `RegionSelector.FilteredRegions` treats `""` as a name.
  - `a.label.localeCompare` (DisasterMap.js:81) can throw on an `undefined` label.
  - `$group` leaves a missing field out of `_id`, so `doc["_id"]["source_location"]` (main.py:230) raises `KeyError`, where `CrimeApi.GetWards` yields a pair.
- `CrimeApi.CrimeReasons`: a crime column that holds a non-numeric value raises `TypeError` in Python. The model reads counts as numbers, so that error path is absent.
- `CrimeApi.LocationMetadata`: `int()`/`float()`/`str()` of a field that is present but `null` or malformed raises an error. The model treats a present field as already numeric or textual.
- The endpoints `get_crime_by_location`, `get_crime_location_yearly`, `get_sentiment_by_location`, `get_sentiment_location_yearly` and the two weekly endpoints are not modelled. They are thin `$group` or `find` wrappers; the dashboard's month series takes their month-keyed output as input.
- React state, effects and memo hooks, map layers, popups, `flyTo`, the GeoJSON fetch, `fetch` calls, snackbars and all rendering are not modelled. The corresponding functions take their state as parameters.
- `Date` handling: the date pickers, `handleDateChange` and `isDateInRange` are not modelled. Only the calendar's month arithmetic is modelled.
- `DashBoardJsx.WardCodeMapping`: in DashBoard.jsx nothing calls `setAllRegions`, so `allRegions` stays `[]` (line 47) and the effect at lines 150-158 always yields `{}`; nothing reads `wardCodeMapping` either. The loop is modelled for any region list; that in the component it is dead code is not.
- `DisasterMapJs.TopAreas`: the unused GeoJSON feature lookup inside the loop is not modelled.
- `DisasterMapJsx.CrimeReasons` models the values before `join(', ')`. The string formatting of numbers is not modelled.
- Colours are a datatype (palette band, hue, `rgb` triple, grey). The CSS strings they print as are not modelled, apart from the palette's hex codes.

## Findings

| source | as written | input that shows it | evidently intended | confidence | as-written member | corrected member |
|---|---|---|---|---|---|---|
| src/components/HomePage.js:16-26 | the guard tests `isNaN(entry['DETECTED CRIME'])`, which coerces with `Number`, but the map stores `parseFloat` of the value | a row of the selected period whose `'DETECTED CRIME'` is `null` (or `''`): `Number(null)` is 0, so the guard passes, and `parseFloat(null)` is `NaN`, which is stored and then coloured with a `NaN` hue (`NaN ?? null` is `NaN`, which is not `== null`). The fix also changes the other direction: a value such as `"12abc"` is skipped as written (`Number` gives `NaN`) and entered by the corrected map (`parseFloat` gives 12), see `HomePage.EntryAsWrittenSkipsPartialNumber` | only rows whose crime value parses to a number enter the map, as in the other score maps | not executed | HomePage.NullCrimeCounterexample | ScoreMaps.PeriodScoreMap |
| frontend/src/components/DashBoard.jsx:395-414 | the chip compares `crimeRank <= 30` while the sentences test `crimeRank >= 1` first | a ward absent from the month's data gets `rank: null` from the rank endpoint; `null <= 30` is true, so the chip reads "High Crime Rate" in red while no sentence is shown | no severity chip for a ward without a rank | not executed | DashBoardJsx.NullRankChip | DashBoardJsx.RankChip |
