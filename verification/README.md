# Planning poker: estimate statistics, distribution and membership record

This project models the computational core of a planning-poker web
application. Participants in a session each pick a card. Once the cards are
revealed, two components summarise them:

- the participants table shows an average/median panel;
- a distribution chart component computes the bars and the consensus labels.
  The session page renders only the participants table; the chart component
  is modelled as written.

A browser also remembers the name it joined under, and the list of sessions
it joined, in local storage.

The modules follow the source files:

| module | file | models |
|---|---|---|
| `Optional` | optional.dfy | `null`/`undefined` as `Option` |
| `Seqs` | seqs.dfy | `filter`, `filter(...).map(...)` and counting, with append and permutation laws |
| `Numbers` | numbers.dfy | JavaScript's `Number(...)` on card faces (`ParseNum`), the decimal numeral of a whole number (`NatString`, used to state the card sets' values), `Math.round(x * 10) / 10` (`RoundToTenth`) |
| `Estimates` | estimates.dfy | the `Estimate` row; `getUserEstimate`, `getRevealedEstimates`; the card cell each participant row shows |
| `EstimateStats` | estimate_stats.dfy | `calculateStats`: numeric filter, sort, rounded mean, median, and the reveal gate on the statistics panel |
| `Distribution` | distribution.dfy | the distribution chart: tally, sorted buckets, `maxCount`, `totalEstimates`, strong-consensus and wide-spread labels |
| `CardSets` | card_sets.dfy | `SIZING_OPTIONS` (`SizingOptions`, the four literal card sets; the rows of `SizingOptionsDistinct`, `FibonacciAscending` and `ShortFibonacciAscending` state its properties) |
| `LocalStore` | local_store.dfy | `getUserName`, `setUserName`, `getUserSessions`, `addUserSession`, `getUserSessionData` |

Each operation is a pure function. Its partner properties are:

- a characterisation independent of the body (the order-statistic median, the
  multiset tally);
- invariance under reordering of the rows;
- round trips (set then get, join then look up);
- "nothing else changes" facts.

## Model

| member | source | states |
|---|---|---|
| Estimates.UserEstimate | components/user-estimates-table.tsx:22-24 | `None` exactly when no row has that user name; otherwise the estimate of the FIRST row carrying the name |
| Estimates.RevealedValues | components/user-estimates-table.tsx:26-28 | every kept value is a non-empty estimate of some row, every row with a non-empty estimate contributes its value, and no more values than rows |
| Estimates.RevealedValuesAppend | components/user-estimates-table.tsx:26-28 | the revealed values of two row lists placed one after the other are the two results concatenated |
| Estimates.RevealedValuesPermutation | components/user-estimates-table.tsx:26-28 | reordering the rows reorders the revealed values, as a multiset they are unchanged |
| Estimates.UserCell | components/user-estimates-table.tsx:89-136 | before reveal no face is shown; after reveal a participant with a card shows it face up; a face-up card is that participant's own estimate (from their first row) and so one of the revealed values; the cell is empty exactly when the participant's first row has no non-empty estimate |
| EstimateStats.NumericEstimates | components/user-estimates-table.tsx:32-34 | keeps exactly the values that are not "?" and parse as numbers, mapped to their numeric value, one number per numeric value so duplicates are kept |
| EstimateStats.NumericEstimatesAppend | components/user-estimates-table.tsx:32-34 | the numbers of two value lists placed one after the other are the two results concatenated, so order and multiplicity are kept |
| EstimateStats.NumericEstimatesSingle | components/user-estimates-table.tsx:32-34 | a single face gives its number when it is not "?" and parses, and nothing otherwise |
| EstimateStats.SortAscending | components/user-estimates-table.tsx:35 | the result is sorted ascending and a permutation of the input |
| EstimateStats.SortedUnique | components/user-estimates-table.tsx:35 | two sorted permutations of the same numbers are equal, so the sort's result is determined by the multiset |
| EstimateStats.StatsOf | components/user-estimates-table.tsx:37-45 | no numbers gives average 0 and median 0; otherwise the average is within 0.05 of the true mean and has at most one decimal, and the median lies between the smallest and largest number |
| EstimateStats.CalculateStats | components/user-estimates-table.tsx:30-46 | no numeric revealed value gives average 0 and median 0; otherwise the average is within 0.05 of the mean of the numeric revealed values and has at most one decimal, and the median lies between their smallest and largest; the result is the statistics of exactly those numbers, so the median is the one `CalculateStatsMedian` characterises |
| EstimateStats.CalculateStatsMedian | components/user-estimates-table.tsx:30-43 | the median the panel shows is, for an odd number of numeric revealed values, the one of rank n/2; for an even number, the mean of those of ranks n/2-1 and n/2 |
| EstimateStats.MeanWithinRange | components/user-estimates-table.tsx:39 | the mean of a non-empty list lies between some element and some element |
| EstimateStats.StatsPermutationInvariant | components/user-estimates-table.tsx:30-46 | reordering the estimate rows leaves the statistics unchanged |
| EstimateStats.StatsOfPermutation | components/user-estimates-table.tsx:35-45 | the statistics depend only on the multiset of numbers, whichever rows and order they come from |
| EstimateStats.MedianIsMiddle | components/user-estimates-table.tsx:40-43 | for an odd count the median is the order statistic of rank n/2; for an even count it is the mean of the order statistics of ranks n/2-1 and n/2 |
| EstimateStats.OrderStatisticUnique | components/user-estimates-table.tsx:40-43 | a rank has only one order statistic |
| EstimateStats.OrderStatisticPermutation | components/user-estimates-table.tsx:40-43 | order statistics do not depend on the order of the input |
| EstimateStats.StatsOfSorted | components/user-estimates-table.tsx:37-45 | on a sorted non-empty list, the result is the rounded mean and the middle element or the mean of the two middle elements |
| EstimateStats.OddCountExample | components/user-estimates-table.tsx:37-45 | 1, 2, 3, 5, 8 gives average 3.8 and median 3 |
| EstimateStats.EvenCountExample | components/user-estimates-table.tsx:40-42 | 1, 2, 3, 5 gives median 2.5 |
| EstimateStats.StatsPanel | components/user-estimates-table.tsx:144-163 | the panel is shown exactly when the cards are revealed and some row has a non-empty estimate; it shows the statistics of the rows, and its count is the number of revealed values that are not "?" and parse, at most the number of revealed values |
| Numbers.ParseNum | components/user-estimates-table.tsx:33-34 | a card face's value is never negative |
| Numbers.ParseNumAccepts | components/user-estimates-table.tsx:33 | a face has a numeric value exactly when it is an unsigned decimal numeral |
| Numbers.NatStringRoundTrip | components/user-estimates-table.tsx:33-34 | reading back the decimal numeral of a whole number yields that number |
| Numbers.RoundToTenth | components/user-estimates-table.tsx:45 | the result is within 0.05 of the input, on the side that rounds halves up, and has at most one decimal |
| Distribution.BuildChart | components/estimate-distribution-chart.tsx:16-45 | a chart is drawn exactly when the cards are revealed and some row has a non-empty estimate; the drawn chart is the chart of the revealed values, and its total is their number |
| Distribution.BuildChartContent | components/estimate-distribution-chart.tsx:16-45 | the drawn chart has one bar per distinct revealed value with its number of occurrences, `maxCount` is the count of the most frequent revealed value, and the two labels follow their thresholds and never both show |
| Distribution.ChartOf | components/estimate-distribution-chart.tsx:21-45 | no values gives no chart; otherwise the total and the bucket counts both equal the number of values, and the buckets are a reordering of the tally |
| Distribution.Bump | components/estimate-distribution-chart.tsx:22-25 | incrementing a key raises that key's count by one and leaves every other key's count unchanged |
| Distribution.Tally | components/estimate-distribution-chart.tsx:22-25 | every key's count is its number of occurrences among the values |
| Distribution.TallyShape | components/estimate-distribution-chart.tsx:22-29 | the counts add up to the number of values, keys are distinct, counts positive, and the keys are exactly the distinct values |
| Distribution.TallyCounts | components/estimate-distribution-chart.tsx:22-29 | each bucket's count is the number of occurrences of its key, at least one |
| Distribution.SortBuckets | components/estimate-distribution-chart.tsx:30-38 | the sorted buckets are a permutation of the unsorted ones |
| Distribution.SortBucketsSorted | components/estimate-distribution-chart.tsx:30-36 | when every key is numeric, the sorted buckets ascend by numeric value |
| Distribution.ChartBuckets | components/estimate-distribution-chart.tsx:21-38 | the chart's keys are distinct, each count is the key's number of occurrences, and every revealed value has a bucket |
| Distribution.ChartSorted | components/estimate-distribution-chart.tsx:30-36 | when every revealed value is numeric, the chart's buckets ascend by value |
| Distribution.MaxCount | components/estimate-distribution-chart.tsx:44 | the maximum is some bucket's count and no bucket's count exceeds it |
| Distribution.ChartSummary | components/estimate-distribution-chart.tsx:44-45 | `maxCount` is the count of some bucket and at least every count; it lies between 1 and the total; the labels follow their integer thresholds and never both show |
| Distribution.MaxCountIsMode | components/estimate-distribution-chart.tsx:44 | `maxCount` is the number of occurrences of the most frequent revealed value: no value occurs more often, and some value occurs exactly that often |
| Distribution.ConsensusThresholds | components/estimate-distribution-chart.tsx:166-181 | strong consensus holds exactly when 5·max ≥ 3·total; wide spread holds exactly when 5·max < 2·total with more than two distinct values; the two never hold together |
| Distribution.StrongConsensusExample | components/estimate-distribution-chart.tsx:166 | "5", "5", "5", "8" gives maximum 3, ratio 0.75 and the strong-consensus label |
| CardSets.SizingOptionsDistinct | lib/supabase.ts:18-23 | no card set offers the same card twice |
| CardSets.FibonacciAscending | lib/supabase.ts:19 | every Fibonacci card is numeric and the values strictly increase |
| CardSets.ShortFibonacciAscending | lib/supabase.ts:20 | every short-Fibonacci card, the half-point card included, is numeric and the values strictly increase |
| LocalStore.GetUserName | lib/supabase.ts:60-63 | without a window the stored name is absent |
| LocalStore.GetUserSessions | lib/supabase.ts:68-72 | without a window or without a stored list the result is the empty list |
| LocalStore.SetUserName | lib/supabase.ts:64-67 | without a window nothing changes; otherwise reading the name back yields the name set, and the session list is untouched |
| LocalStore.AddUserSession | lib/supabase.ts:73-80 | without a window nothing changes; the stored name is untouched |
| LocalStore.AddUserSessionRecords | lib/supabase.ts:73-80 | after joining, the session has exactly one record, it is the last one and carries the given name and time, and every other session's record is kept in order |
| LocalStore.AddUserSessionLength | lib/supabase.ts:77-78 | the list loses the session's earlier records and gains one |
| LocalStore.RejoinReplaces | lib/supabase.ts:73-80 | joining the same session twice leaves the same store as joining once with the later name and time |
| LocalStore.RejoinSameShape | lib/supabase.ts:73-80 | joining a session a second time keeps the list length and every earlier record; the last record differs only in its time |
| LocalStore.FindSession | lib/supabase.ts:84 | `None` exactly when no record has that session id; otherwise the first such record |
| LocalStore.GetUserSessionData | lib/supabase.ts:81-86 | `None` without a window or when no record has the session id; otherwise the user name of the first matching record |
| LocalStore.AddThenGetSessionData | lib/supabase.ts:73-86 | looking a session up right after joining it returns the name joined with |
| LocalStore.AddKeepsOtherSessionData | lib/supabase.ts:73-86 | joining one session does not change what a lookup of any other session returns |

## Left out

- Rendering is not modelled. This covers JSX, styling, animation, icons and the "n of m have estimated" counter. The chart's bar widths and the rounded percentage text are also left out.
- The Supabase client, the realtime subscription that builds the estimate list, the toasts, the pages and the API routes are not part of this model.
- Numbers are exact reals rather than IEEE doubles. Rounding error in the sum, and `Math.round` on values that are not exactly representable, are therefore left out.
- Numbers.ParseNum: accepts only unsigned decimal numerals such as "5", "0.5", ".5" and "5.". `Number(...)` also accepts signs, exponents, surrounding whitespace, the `0x`, `0b` and `0o` prefixes, "Infinity" and the empty string (as 0). `Number.parseFloat` in the chart also accepts a numeric prefix. On every card the application offers (the four card sets and the "?" card) the model agrees with both: the numerals parse to their value, and the letter sizes and "?" are not numbers.
- Distribution.SortBuckets: faces that do not both parse are compared by code-unit order instead of `localeCompare`, whose result depends on the locale.
- Distribution.Tally: the keys keep the order of first appearance. `Object.entries` lists integer-like keys first. The order is immaterial after the sort, except among keys the comparator calls equal.
- Distribution.Tally: counts every value as an ordinary key. The source tallies into a plain object, so a value named like an `Object.prototype` member behaves differently there. `"__proto__"` is counted in the total but gets no bucket. `"constructor"`, `"toString"`, `"valueOf"` and the like get a string count, which makes `maxCount` NaN. No card set contains such a face.
- Distribution.SortBucketsSorted: the numeric ordering is proved only when every key parses. With mixed keys the JavaScript comparator is not a consistent order, and the model only promises a permutation.
- LocalStore: the store holds the decoded session list. JSON encoding, an unparsable stored string, and an empty-string value (which the source treats as no list) are not modelled. `Date.now()` is the `now` parameter.
- LocalStore.GetUserSessions: records are typed, whereas the source reads `any` objects from JSON.
