# Vote aggregation of resVoteGenerator, in Dafny

resVoteGenerator produces synthetic election ballots (`Vote` records that carry
an election, a candidate, a voter, a dictionary of demographic attributes and a
timestamp) and draws charts from them. This project models the part that turns
a list of votes into the numbers the charts show:

- `Datatype` (datatype.dfy): the `Vote` record, its constructor defaults (an
  empty attribute dictionary, and one timestamp drawn when the class is
  defined, inside 2024-10-16 00:00:00 to 2024-11-05 23:59:59), and the
  derived `transaction_id`.
- `AgeBands` (age_bands.dfy): the two age bucketers, `age_range` (used by the
  pie chart) and `process_age` (used by the grouped bars). Python's
  `TypeError` on comparing a non-integer age with 18 is the `Err` outcome.
- `Counting` (counting.dfy): a `Counter` over a sequence of labels, with the
  facts the tables share. Its keys are the labels that occur, its counts are
  multiplicities, the counts sum to the length, and reordering the input
  changes nothing. It also holds the row and column margins of a table of
  pairs.
- `Tallies` (tallies.dfy): votes per candidate (`plot_candidate_distribution`)
  and votes per value of one attribute (`plot_attribute_distribution`).
- `CrossTab` (cross_tab.dfy): the label-by-candidate table of
  `plot_grouped_bar_chart`. It collects the `data` pairs, then does the work
  of `groupby(...).size()`, `pivot(...).fillna(0)`, the row totals and the
  descending sort, step by step as loops.
- `TimeSeries` (time_series.dfy): `plot_candidate_time_series`. The votes'
  instants are resampled into buckets of a fixed number of seconds. The
  model gives a total per bucket (`total_count`) and a count per candidate
  per bucket (`candidate_counts`). These are specified as functions and
  computed by methods that pass over the votes.

Timestamps are whole seconds on a naive clock. A frequency string is a
bucket width in seconds that divides a day (`'H'` = 3600, `'D'` = 86400).
Bucket `q` is the span `[q * width, (q + 1) * width)`. pandas anchors its
bins at midnight of the first instant's day, and for such a width those bins
lie on this grid.

The pandas semantics the model commits to are these:

- `groupby` drops a `None` key.
- `resample(freq).size()` covers every bucket from the earliest vote's to the
  latest vote's, empty ones included.
- `groupby('candidate').resample(freq)` gives each candidate the buckets from
  its own first vote to its own last vote.
- `unstack(fill_value=0)` takes the union of those per-candidate ranges as
  its rows, with 0 where a candidate has no entry.

Where a natural reading of the charts' intent and the code differ, the model
follows the code:

- The time axis ends at the latest vote's bucket. It is not rounded up.
- Two instants less than one width apart can fall into two buckets.
- The per-candidate table has no row for a bucket that no candidate's range
  covers. The total series does have a row (of 0) for it.
- A missing age is "Under 18" in the pie chart (the default -1 is banded)
  but "Unknown" in the grouped bars.
- An attribute whose capitalised name is "Candidate", "Votes" or "Total"
  makes the grouped bars raise `ValueError`.
- With no votes, the time series raises `TypeError` (`TimeSeries.ResampleVotes`).
  The function `TimeSeries.CandidateTimeSeries` gives empty tables there,
  which is what a chart of nothing evidently means. See "## Findings".

## Model

The definitions without contracts of their own are described by the lemma
rows below:

- `Tallies.DistributionLabel` (src/visualization.py:65, 68): by
  `Tallies.MissingAttributePolicy` and `Tallies.DistributionLabelFailure`.
- `CrossTab.CrossTabLabel` (src/visualization.py:130-132): by
  `CrossTab.MissingAttributeIsUnknownRow` and `CrossTab.LabelsAgree`.
- `CrossTab.Kept`, the `groupby`'s dropping of `None` keys
  (src/visualization.py:139): by `CrossTab.KeptMembers`, `CrossTab.KeptFirsts`,
  `CrossTab.KeptAll` and `CrossTab.KeptMargins`.
- `CrossTab.ColumnClash` (src/visualization.py:136-144): by
  `CrossTab.ClashingAttributes` and `CrossTab.GroupedBarTable`.
- `CrossTab.Tabulates` (src/visualization.py:136-140): by `CrossTab.Pivot`,
  `CrossTab.RowTotalsCountLabels`, `CrossTab.ColumnTotalsCountCandidates` and
  `CrossTab.TabulatesPermutationInvariant`.
- `TimeSeries.BucketOf` (src/visualization.py:178): by `TimeSeries.BucketBounds`,
  `TimeSeries.BucketUnique` and `TimeSeries.BucketMonotone`.
- `TimeSeries.MinTime` and `TimeSeries.MaxTime` (src/visualization.py:175): by
  `TimeSeries.TimeBounds` and `TimeSeries.TimeSpan`.
- `TimeSeries.InCandidateAxis` (src/visualization.py:181): by
  `TimeSeries.RowsUpToMembers`, `TimeSeries.VoteBucketIsARow` and
  `TimeSeries.GapNotCovered`.

| member | source | states |
|---|---|---|
| Datatype.Get | src/visualization.py:130 | A dictionary lookup with a default returns the stored value when the key is present and the default otherwise. |
| Datatype.TransactionId | src/datatype.py:21-23 | The transaction id is the election id, then "++", then the voter id. Its length and all three parts are stated. |
| Datatype.TransactionIdIgnoresBallot | src/datatype.py:21-23 | Two votes with the same election and voter have the same transaction id, whatever their candidate, attributes or time. |
| Datatype.TransactionIdInjective | src/datatype.py:21-23 | When election ids contain no '+', equal transaction ids mean equal election and voter ids. |
| Datatype.TransactionIdCollision | src/datatype.py:21-23 | Without that restriction, ("a+", "b") and ("a", "+b") share the id "a+++b". |
| Datatype.DefaultTimestamp | src/datatype.py:7-10 | The default instant is the window start plus the drawn number of seconds, so it lies inside 2024-10-16 00:00:00 .. 2024-11-05 23:59:59. |
| Datatype.NewVote | src/datatype.py:12-19 | The three required fields are stored as given. An omitted attribute dictionary is empty. An omitted timestamp is the class default. |
| Datatype.DefaultTimestampShared | src/datatype.py:19 | Any two votes built without a timestamp carry the same instant, and it lies in the window, because the default is drawn once. |
| Datatype.DefaultAttributesAllMissing | src/datatype.py:17 | A vote built without attributes answers every lookup with the default. |
| AgeBands.AgeRange | src/visualization.py:48-63 | An integer age gets a band other than "Unknown". The band is label i exactly when the age lies in the i-th inclusive range. |
| AgeBands.AgeRangeBoundaries | src/visualization.py:49-62 | The band edges: 17 → "Under 18", 18 and 24 → "18-24", 25 → "25-34", 64 → "55-64", 65 → "65+". |
| AgeBands.AgeRangeMonotone | src/visualization.py:48-63 | An older age never gets an earlier band. |
| AgeBands.AgeRangeOf | src/visualization.py:48-65 | `age_range` on a raw value succeeds exactly on integers. Anything else raises `TypeError` carrying that value. |
| AgeBands.ProcessAge | src/visualization.py:109-125 | `None` and "Unknown" give "Unknown". An integer gets the same band as `age_range`. Any other string raises `TypeError`. |
| AgeBands.BucketersDisagreeOffIntegers | src/visualization.py:48-63 | The two bucketers agree on every integer. On `None` and "Unknown", `age_range` raises while `process_age` gives "Unknown". |
| Counting.Occurrences | src/visualization.py:22 | A label's count is at most the length of the sequence, and is positive exactly when the label occurs. |
| Counting.Tally | src/visualization.py:22 | A `Counter`'s keys are exactly the labels that occur, each counting between 1 and the length. |
| Counting.TallySumsToLength | src/visualization.py:22 | The counts of a `Counter` sum to the number of labels. |
| Counting.TallyPermutationInvariant | src/visualization.py:22 | Reordering the labels leaves the `Counter` unchanged. |
| Tallies.CandidateTally | src/visualization.py:22 | The candidate counter's keys are exactly the candidates some vote names, each counting between 1 and the number of votes. |
| Tallies.CandidateTallyCounts | src/visualization.py:22 | Each candidate's count is the number of votes naming it. |
| Tallies.CandidateTallySumsToLength | src/visualization.py:22-25 | The bar heights, in the counter's key order, sum to the number of votes. |
| Tallies.CandidateTallyPermutationInvariant | src/visualization.py:22 | The candidate counts do not depend on the order of the votes. |
| Tallies.MissingAttributePolicy | src/visualization.py:65-68 | A missing age falls in "Under 18" (the default -1 is banded). Any other missing attribute is "Unknown". |
| Tallies.DistributionLabelFailure | src/visualization.py:65 | A vote's pie label fails exactly when the attribute is "age" and the stored age is not an integer. The error carries that value. |
| Tallies.DistributionLabels | src/visualization.py:65-68 | Either every vote's label, in order, or the error of the first vote whose label fails, with all earlier votes labelled. |
| Tallies.AttributeDistribution | src/visualization.py:65-68 | The pie counter succeeds exactly when every vote can be labelled. Its keys are exactly the labels the votes produce. For attributes other than "age" it always succeeds. |
| Tallies.AttributeDistributionSumsToLength | src/visualization.py:65-72 | The slice sizes sum to the number of votes. |
| Tallies.AttributeDistributionCounts | src/visualization.py:65-68 | Each slice's size is the number of votes producing that label. |
| Tallies.AttributeDistributionPermutationInvariant | src/visualization.py:65-68 | Reordering the votes neither makes the pie chart fail nor succeed. When it succeeds, the slices are the same. |
| Tallies.AttributeDistributionOfNothing | src/visualization.py:65-68 | No votes give no slices. |
| Tallies.OneBareVote | src/visualization.py:68 | One vote without attributes, charted by "gender", gives a single "Unknown" slice of size 1. |
| CrossTab.MissingAttributeIsUnknownRow | src/visualization.py:130-132 | In the grouped bars, any missing attribute, age included, becomes the row "Unknown". |
| CrossTab.MissingAgeSplitsTheCharts | src/visualization.py:65 | One vote without an age is "Under 18" in the pie chart and "Unknown" in the grouped bars. |
| CrossTab.LabelsAgree | src/visualization.py:130-132 | Except for a missing or non-integer age, both charts give a vote the same label. |
| CrossTab.Pairs | src/visualization.py:128-133 | The `data` list has one pair per vote, in order: its label and its candidate. |
| CrossTab.CollectPairs | src/visualization.py:128-133 | The loop succeeds exactly when every vote can be labelled, and then yields the `data` list. Otherwise it stops with the first vote's error, all earlier votes labelled. |
| CrossTab.KeptMembers | src/visualization.py:139 | The pairs that reach the groups are exactly those whose label is not `None`. |
| CrossTab.KeptFirsts | src/visualization.py:139 | Dropping the `None` labels leaves every other label's count unchanged. |
| CrossTab.KeptAll | src/visualization.py:139 | With no `None` label, nothing is dropped. |
| CrossTab.Pivot | src/visualization.py:136-140 | The pivoted table has distinct rows, the labels other than `None`, and distinct columns, their candidates. It has a cell for every row and column, holding the number of pairs naming both. |
| CrossTab.GroupSizes | src/visualization.py:139 | The group keys are exactly the kept pairs, each with its count in `data`. The labels and candidates are listed once each. |
| CrossTab.GroupOne | src/visualization.py:139 | Taking one more pair keeps the groups those of the pairs seen so far. |
| CrossTab.SizesStep | src/visualization.py:139 | One more pair adds one to its own group, unless its label is `None`, and leaves every other group alone. |
| CrossTab.FillGrid | src/visualization.py:140 | `fillna(0)`: there is a cell for every row against every column. It holds the pair's count, 0 where no pair occurs. |
| CrossTab.RowTotals | src/visualization.py:143 | There is a total for every row, and it is that row's sum over the columns. |
| CrossTab.SortByTotalDescending | src/visualization.py:144 | The sorted rows are a permutation of the rows, and their totals never increase. |
| CrossTab.FindSlot | src/visualization.py:144 | The insertion point is after every row whose total is at least the new row's, and before the first smaller one. |
| CrossTab.InsertOne | src/visualization.py:144 | Inserting at that point keeps the rows a duplicate-free permutation of those seen, with totals never increasing. |
| CrossTab.InsertKeepsOrder | src/visualization.py:144 | Inserting a new row before the first smaller total keeps the rows distinct and their totals non-increasing. |
| CrossTab.InsertKeepsElements | src/visualization.py:144 | An insertion adds exactly the new row. |
| CrossTab.ReorderRows | src/visualization.py:143-144 | Reordering the rows of a count table by their totals leaves it the count table of the same pairs, now sorted. |
| CrossTab.GroupedBarTable | src/visualization.py:128-144 | Fails exactly when some vote cannot be labelled or the attribute's column name clashes. An unlabelled vote gives the first such `TypeError`. A clash gives `ValueError` naming the column. Otherwise the table is the count table of the votes' pairs, its rows in non-increasing order of total. |
| CrossTab.Capitalize | src/visualization.py:136 | `str.capitalize` on ASCII keeps the length, upper-cases the first letter and lower-cases every other letter. |
| CrossTab.ClashingAttributes | src/visualization.py:136-144 | "candidate", "VOTES" and "tOTAL" clash with the columns "Candidate", "Votes" and "Total". The five attributes the program charts (gender, age, region, race, education) do not. |
| CrossTab.KeptMargins | src/visualization.py:139 | A label is a group label exactly when it is not `None` and some pair carries it. A candidate is a group candidate exactly when some pair with a non-`None` label names it. |
| CrossTab.TabulatesPermutationInvariant | src/visualization.py:136-140 | The count table of the pairs does not depend on their order. |
| CrossTab.GroupedBarTablePermutationInvariant | src/visualization.py:128-140 | Reordering the votes neither makes the table fail nor succeed. A table counts the pairs of one order exactly when it counts those of the other. |
| CrossTab.DropTotalAsWritten | src/visualization.py:143-144 | As written, the columns left after the drop are the candidates other than "Total". |
| CrossTab.RowTotalsCountLabels | src/visualization.py:139-143 | Each row's total is the number of votes with that label. |
| CrossTab.ColumnTotalsCountCandidates | src/visualization.py:139-140 | Each candidate's column sums to the number of kept pairs naming it. |
| CrossTab.KeptPairCount | src/visualization.py:139 | A pair whose label is not `None` keeps its full count through the `groupby`. |
| CrossTab.RowTotalsMatchDistribution | src/visualization.py:65-68 | When the attribute is not "age" or every vote's age is an integer, the pie chart can be drawn. Every row label of the grouped bars is then one of its slices, and the row total equals that slice's size. |
| CrossTab.ColumnTotalsMatchTally | src/visualization.py:22 | With no `None` label, the columns are exactly the candidates of the candidate bar chart, and each column sums to that candidate's bar. |
| CrossTab.PairsNames | src/visualization.py:133 | The candidates of the `data` list are the votes' candidates, in order. |
| CrossTab.TotalCandidateVanishes | src/visualization.py:143-144 | A candidate named "Total" with a labelled vote has votes in the tally and a column with at least one vote, yet is missing after the drop. |
| TimeSeries.BucketBounds | src/visualization.py:178 | An instant's bucket starts at the instant rounded down to a multiple of the width, and holds the instant. |
| TimeSeries.BucketUnique | src/visualization.py:178 | Only one bucket holds an instant. |
| TimeSeries.BucketMonotone | src/visualization.py:175-178 | A later instant never falls in an earlier bucket. |
| TimeSeries.TimeBounds | src/visualization.py:175 | The earliest and latest instants are those of some vote, and every vote lies between them. |
| TimeSeries.BucketCount | src/visualization.py:178 | A non-empty axis has at least one bucket and ends at the latest vote's bucket. No votes give no buckets. |
| TimeSeries.TotalSeries | src/visualization.py:178 | The total series has one entry per bucket of the axis. |
| TimeSeries.RowsUpTo | src/visualization.py:181 | The per-candidate rows strictly increase and lie within the axis range. |
| TimeSeries.RowsUpToMembers | src/visualization.py:181 | A bucket is a per-candidate row exactly when it lies in the axis range and some candidate has votes at or before it and at or after it. |
| TimeSeries.CandidateSeries | src/visualization.py:181 | Each candidate's series has one entry per per-candidate row. |
| TimeSeries.CandidateTimeSeries | src/visualization.py:168-181 | The total spans from the earliest vote's bucket to the latest's. The rows increase and lie in that span. There is one column per candidate voted for, as long as the rows. With no votes the total is empty, the intended result where the code raises. |
| TimeSeries.Range | src/visualization.py:178 | The bucket indices of the axis are consecutive and distinct. |
| TimeSeries.VoteInAxis | src/visualization.py:178 | Every vote's bucket lies on the axis. |
| TimeSeries.VoteBucketIsARow | src/visualization.py:181 | Every vote's bucket is a row of the per-candidate table. |
| TimeSeries.EveryVoteInOneBucket | src/visualization.py:178-181 | Every vote lies in exactly one bucket, which is on the axis and a per-candidate row. |
| TimeSeries.TotalSeriesSumsToLength | src/visualization.py:178 | The per-bucket totals sum to the number of votes. |
| TimeSeries.TotalIsVotesInSpan | src/visualization.py:178 | The total at each position of the axis is the number of votes whose instant lies in that bucket's span. |
| TimeSeries.CandidateCountIsVotesInSpan | src/visualization.py:181 | A candidate's entry at each row is the number of its votes whose instant lies in that row's bucket span. |
| TimeSeries.TimeSeriesSumsToLength | src/visualization.py:178 | No vote is lost or counted twice: the total series sums to the number of votes. |
| TimeSeries.NonEmptyBucketsAreRows | src/visualization.py:178-181 | Every bucket with a vote is a per-candidate row, so `unstack` leaves out only empty buckets. |
| TimeSeries.CandidatesSumToCount | src/visualization.py:181 | At each row, the candidates' entries sum to the number of votes in that bucket. |
| TimeSeries.CandidatesSumToTotal | src/visualization.py:178-181 | At every per-candidate row, the candidates' counts add up to the total of the same bucket. |
| TimeSeries.AllVotesInAxis | src/visualization.py:178 | All votes fall within the axis. |
| TimeSeries.TimeSpan | src/visualization.py:175 | One pass finds the earliest and the latest instant. |
| TimeSeries.FullSeries | src/visualization.py:181 | A candidate's series over n buckets has n entries. |
| TimeSeries.OneMoreVote | src/visualization.py:178 | One more vote adds one to its own bucket's total and changes no other bucket. |
| TimeSeries.OneMoreCandidateVote | src/visualization.py:181 | One more vote adds one to its candidate's count at its bucket, changes no other count, and appends its name. |
| TimeSeries.CountTotals | src/visualization.py:178 | Counting each vote into its bucket gives, per bucket of the axis, the number of votes in it. |
| TimeSeries.FullSeriesOfAbsent | src/visualization.py:181 | A candidate nobody voted for counts 0 everywhere. |
| TimeSeries.CountCandidates | src/visualization.py:181 | Counting each vote into its candidate's bucket gives a series for exactly the candidates voted for, with each candidate's votes per bucket of the axis. |
| TimeSeries.CountOne | src/visualization.py:181 | Adding one vote to its candidate's bucket keeps the counts those of the votes seen so far. |
| TimeSeries.FullSeriesStep | src/visualization.py:181 | One more vote raises its own candidate's count at its bucket by one and changes no other series. |
| TimeSeries.AtRows | src/visualization.py:181 | Reading a series at the kept rows keeps every candidate, and the entry at row k is the series at that bucket. |
| TimeSeries.ResampleVotes | src/visualization.py:168-181 | With no votes it raises `TypeError`: the frame's index holds no datetimes. Otherwise the passes over the votes (span, totals, per-candidate counts, `unstack`) produce exactly the resampled tables. |
| TimeSeries.Unstack | src/visualization.py:181 | Reading the per-candidate counts over the whole axis at the kept rows gives the per-candidate table. |
| TimeSeries.SelectedRowsAreSeries | src/visualization.py:181 | Selecting the kept rows from the full per-candidate counts yields the table exactly. |
| TimeSeries.MinMaxOfSameVotes | src/visualization.py:175 | The earliest and latest instants depend only on which votes there are. |
| TimeSeries.RowsOfSameVotes | src/visualization.py:181 | The per-candidate rows depend only on which votes there are. |
| TimeSeries.CountsOfSameVotes | src/visualization.py:175-181 | Reordering the votes changes no bucket count and no per-candidate bucket count. |
| TimeSeries.AxisOfSameVotes | src/visualization.py:175-181 | Reordering the votes changes neither the axis nor the rows. |
| TimeSeries.TotalsOfSameVotes | src/visualization.py:178 | Reordering the votes changes no total. |
| TimeSeries.SeriesOfSameVotes | src/visualization.py:181 | Reordering the votes changes no candidate's series. |
| TimeSeries.SeriesMapOfSameVotes | src/visualization.py:181 | Reordering the votes changes no column of the per-candidate table. |
| TimeSeries.TimeSeriesPermutationInvariant | src/visualization.py:175-181 | Sorting by time is immaterial: any reordering of the votes gives the same tables. |
| TimeSeries.SingleVote | src/visualization.py:178-181 | One vote gives one bucket (its own) with total 1, and one column counting 1. |
| TimeSeries.AxisFromBuckets | src/visualization.py:178 | When votes fall in buckets lo and hi and none outside, the axis is lo..hi. |
| TimeSeries.HourlyScenario | src/visualization.py:178-181 | Two votes for x in one bucket and one for y in the next give totals [2, 1], x = [2, 0] and y = [0, 1]. |
| TimeSeries.GapNotCovered | src/visualization.py:181 | With x only in bucket 0 and y only in bucket 2, no candidate's range covers bucket 1. |
| TimeSeries.GapRowLeftOut | src/visualization.py:178-181 | With a vote for x in bucket 0 and one for y in bucket 2, the total keeps the empty bucket as [1, 0, 1]. The per-candidate table has rows 0 and 2 only. |
| TimeSeries.NarrowSpanTwoBuckets | src/visualization.py:178 | Two instants less than one width apart, on either side of a boundary, give two buckets. |
| TimeSeries.TimeSeriesOfNothing | src/visualization.py:178-181 | The intended result for no votes is empty tables, where the code as written raises. |

## Left out

- Drawing: matplotlib, seaborn and plotly calls, figure sizes, titles, colours and file output are not modelled.
- Parsing the ISO-8601 text with `datetime.fromisoformat`: timestamps are whole seconds since 1970-01-01 on the same naive clock. Time zones and sub-second parts are not modelled.
- Frequency strings: only fixed widths that divide a day are modelled (the `Width` type), such as `'H'`, `'30min'` and `'D'`. Other widths (`'2D'`, `'7min'`) are not modelled: pandas anchors their bins at midnight of the first day, and inside `groupby('candidate').resample` at each candidate's own first day. Also not modelled: `'W'` and the month, quarter and year frequencies, which are closed and labelled on the right, and invalid strings, which pandas rejects.
- `sort_index`: the order of the votes is immaterial to the counts (`TimeSeries.TimeSeriesPermutationInvariant`). Only the earliest and latest instants it exposes are modelled (`TimeSeries.TimeSpan`).
- Timestamp indices: buckets are integer indices rather than `DatetimeIndex` labels. The label of bucket `q` is `q * width` seconds.
- Floating point: where some label–candidate pair has no votes, `pivot` introduces NaN and the counts become floats; the model keeps natural numbers throughout. Ages are integers, `null` or strings; a float age is not modelled.
- Column order of the pivoted table and the order of labels in the `Counter` are not stated beyond "each once". pandas sorts the group keys.
- CrossTab.SortByTotalDescending: rows with equal totals may come in any order, which is weaker than pandas' own (quicksort, unstable) choice. That choice is not specified.
- The row and column order of mixed-type keys (an integer next to a string in one `groupby`) is not modelled.
- CrossTab.Capitalize: only ASCII letters change case. Python's full Unicode case mapping is not modelled.
- Random draws: `generate_random_timestamp`'s `random.randint` is the `draw` parameter of `Datatype.DefaultTimestamp`.
- The JSON round trip between the dataclass and the dictionaries the charts read: the aggregators take `Vote` values directly.
- The ballot generator, main.py and app/visualization.py (the web front end) are not part of this model.

## Findings

| source | as written | input that shows it | evidently intended | confidence | as-written member | corrected member |
|---|---|---|---|---|---|---|
| src/visualization.py:143-144 | The row totals are stored in a column named "Total", which is dropped after the sort. A candidate named "Total" has its own column overwritten by the row totals and then dropped. | One vote for a candidate "Total" with a gender label: the candidate counter shows it with 1 vote, but its column is removed from the grouped bar table. | Sort the rows by their totals without sharing the namespace of the candidate columns, so that every candidate stays in the table. | not executed | CrossTab.DropTotalAsWritten, CrossTab.TotalCandidateVanishes | CrossTab.GroupedBarTable, CrossTab.ColumnTotalsMatchTally |
| src/visualization.py:172-178 | With an empty vote list, the frame's index is an empty object index, not a `DatetimeIndex`, and `resample(freq)` raises `TypeError`. | `plot_candidate_time_series([])`. | A chart of no votes shows empty series. | not executed | TimeSeries.ResampleVotes | TimeSeries.CandidateTimeSeries, TimeSeries.TimeSeriesOfNothing |
