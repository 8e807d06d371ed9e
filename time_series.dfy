/**
 The counts behind `plot_candidate_time_series` (src/visualization.py:158-181):
 the votes' instants resampled into fixed-width buckets, a total per bucket
 and a count per candidate per bucket. The frequency string ('H', 'D') is a
 bucket width in seconds (3600, 86400); bucket `q` is the half-open span
 `[q * width, (q + 1) * width)`, so an instant on a boundary opens its bucket.
 */
module TimeSeries {
  import opened Datatype
  import opened Counting
  import opened Tallies

  /**
   A resampling frequency: a positive number of seconds that divides a day.
   pandas anchors the bins at midnight of the first instant's day; for such a
   width those bins lie on the grid of multiples of the width counted from
   1970-01-01 00:00:00, whatever the day and whichever candidate.
   */
  type Width = w: int | w > 0 && 86400 % w == 0 witness 1

  /** The index of the bucket holding instant `t`. */
  function BucketOf(t: int, width: Width): int
  {
    t / width
  }

  /** Bucket `BucketOf(t, width)` holds `t`, and starts at `t` rounded down to a multiple of `width`. */
  lemma BucketBounds(t: int, width: Width)
    ensures BucketOf(t, width) * width <= t < BucketOf(t, width) * width + width
    ensures BucketOf(t, width) * width == t - t % width
  {
  }

  lemma MulMonotone(a: int, b: int, width: Width)
    requires a <= b
    ensures a * width <= b * width
  {
    assert b * width - a * width == (b - a) * width;
  }

  /** Exactly one bucket holds an instant. */
  lemma BucketUnique(t: int, width: Width, q: int)
    requires q * width <= t < q * width + width
    ensures q == BucketOf(t, width)
  {
    var b := BucketOf(t, width);
    BucketBounds(t, width);
    if q < b {
      MulMonotone(q + 1, b, width);
    } else if b < q {
      MulMonotone(b + 1, q, width);
    }
  }

  /** A later instant never falls in an earlier bucket. */
  lemma BucketMonotone(t: int, u: int, width: Width)
    requires t <= u
    ensures BucketOf(t, width) <= BucketOf(u, width)
  {
    BucketBounds(t, width);
    BucketBounds(u, width);
    if BucketOf(u, width) < BucketOf(t, width) {
      MulMonotone(BucketOf(u, width) + 1, BucketOf(t, width), width);
    }
  }

  /** The earliest instant among the votes. */
  function MinTime(votes: seq<Vote>): int
    requires votes != []
  {
    if |votes| == 1 then votes[0].timestamp
    else
      var m := MinTime(votes[..|votes| - 1]);
      if votes[|votes| - 1].timestamp < m then votes[|votes| - 1].timestamp else m
  }

  /** The latest instant among the votes. */
  function MaxTime(votes: seq<Vote>): int
    requires votes != []
  {
    if |votes| == 1 then votes[0].timestamp
    else
      var m := MaxTime(votes[..|votes| - 1]);
      if votes[|votes| - 1].timestamp > m then votes[|votes| - 1].timestamp else m
  }

  /** `MinTime` and `MaxTime` are the instants of some vote, and no vote lies outside them. */
  lemma {:induction false} TimeBounds(votes: seq<Vote>)
    requires votes != []
    ensures exists i :: 0 <= i < |votes| && votes[i].timestamp == MinTime(votes)
    ensures exists i :: 0 <= i < |votes| && votes[i].timestamp == MaxTime(votes)
    ensures forall i :: 0 <= i < |votes| ==> MinTime(votes) <= votes[i].timestamp <= MaxTime(votes)
  {
    if |votes| > 1 {
      var init := votes[..|votes| - 1];
      TimeBounds(init);
      assert forall i :: 0 <= i < |votes| - 1 ==> votes[i] == init[i];
      var a :| 0 <= a < |init| && init[a].timestamp == MinTime(init);
      var b :| 0 <= b < |init| && init[b].timestamp == MaxTime(init);
      assert votes[a] == init[a] && votes[b] == init[b];
      var last := |votes| - 1;
      if votes[last].timestamp < MinTime(init) {
        assert MinTime(votes) == votes[last].timestamp;
      } else {
        assert MinTime(votes) == votes[a].timestamp;
      }
      if votes[last].timestamp > MaxTime(init) {
        assert MaxTime(votes) == votes[last].timestamp;
      } else {
        assert MaxTime(votes) == votes[b].timestamp;
      }
    } else {
      assert votes[0].timestamp == MinTime(votes) == MaxTime(votes);
    }
  }

  function BucketFn(width: Width): Vote -> int
  {
    (v: Vote) => BucketOf(v.timestamp, width)
  }

  function CandidateBucketFn(width: Width): Vote -> (string, int)
  {
    (v: Vote) => (v.candidateName, BucketOf(v.timestamp, width))
  }

  /** The bucket of every vote, in input order. */
  function Buckets(votes: seq<Vote>, width: Width): seq<int>
  {
    MapSeq(BucketFn(width), votes)
  }

  /** The candidate and bucket of every vote, in input order. */
  function CandidateBuckets(votes: seq<Vote>, width: Width): seq<(string, int)>
  {
    MapSeq(CandidateBucketFn(width), votes)
  }

  /** The index of the first bucket of the resampled axis: that of the earliest vote. */
  function FirstBucket(votes: seq<Vote>, width: Width): int
  {
    if votes == [] then 0 else BucketOf(MinTime(votes), width)
  }

  /**
   How many buckets the resampled axis has: every bucket from the earliest
   vote's to the latest vote's, none when there are no votes.
   */
  function BucketCount(votes: seq<Vote>, width: Width): (n: nat)
    ensures votes != [] ==> 1 <= n
    ensures votes != [] ==> FirstBucket(votes, width) + n - 1 == BucketOf(MaxTime(votes), width)
    ensures votes == [] ==> n == 0
  {
    if votes == [] then 0
    else
      TimeBounds(votes);
      BucketMonotone(MinTime(votes), MaxTime(votes), width);
      BucketOf(MaxTime(votes), width) - BucketOf(MinTime(votes), width) + 1
  }

  /** `df.resample(freq).size()`: the number of votes in each bucket of the axis. */
  function TotalSeries(votes: seq<Vote>, width: Width): (s: seq<nat>)
    ensures |s| == BucketCount(votes, width)
  {
    seq<nat>(BucketCount(votes, width), k => Occurrences(Buckets(votes, width), FirstBucket(votes, width) + k))
  }

  /**
   Whether bucket `q` is a row of the per-candidate table. `groupby('candidate')
   .resample(freq)` resamples each candidate from its own first bucket to its
   own last, and `unstack` takes the union of those ranges: `q` is kept when
   some candidate has a vote at or before it and a vote at or after it.
   */
  predicate InCandidateAxis(votes: seq<Vote>, width: Width, q: int)
  {
    exists v, w :: v in votes && w in votes && v.candidateName == w.candidateName &&
      BucketOf(v.timestamp, width) <= q <= BucketOf(w.timestamp, width)
  }

  /** The buckets among `first`, ..., `first + n - 1` that are rows of the per-candidate table, in order. */
  function RowsUpTo(votes: seq<Vote>, width: Width, first: int, n: nat): (rows: seq<int>)
    ensures forall j, k :: 0 <= j < k < |rows| ==> rows[j] < rows[k]
    ensures forall k :: 0 <= k < |rows| ==> first <= rows[k] < first + n
  {
    if n == 0 then []
    else
      var q := first + n - 1;
      var rest := RowsUpTo(votes, width, first, n - 1);
      if InCandidateAxis(votes, width, q) then
        assert forall j :: 0 <= j < |rest| ==> (rest + [q])[j] == rest[j] < q;
        rest + [q]
      else rest
  }

  /** The rows are exactly the buckets of the range that some candidate's range covers. */
  lemma {:induction false} RowsUpToMembers(votes: seq<Vote>, width: Width, first: int, n: nat)
    ensures forall q :: q in RowsUpTo(votes, width, first, n) <==> first <= q < first + n && InCandidateAxis(votes, width, q)
  {
    if n > 0 {
      RowsUpToMembers(votes, width, first, n - 1);
    }
  }

  /** The row index of the per-candidate table: the buckets of the axis that some candidate's range covers. */
  function CandidateRows(votes: seq<Vote>, width: Width): seq<int>
  {
    RowsUpTo(votes, width, FirstBucket(votes, width), BucketCount(votes, width))
  }

  /** One candidate's count in each row of the per-candidate table, 0 where it has none (`fill_value=0`). */
  function CandidateSeries(votes: seq<Vote>, width: Width, c: string): (s: seq<nat>)
    ensures |s| == |CandidateRows(votes, width)|
  {
    var rows := CandidateRows(votes, width);
    seq<nat>(|rows|, k requires 0 <= k < |rows| => Occurrences(CandidateBuckets(votes, width), (c, rows[k])))
  }

  /** The per-candidate table after `unstack`: one column per candidate. */
  function CandidateSeriesMap(votes: seq<Vote>, width: Width): map<string, seq<nat>>
  {
    map c | c in Names(votes) :: CandidateSeries(votes, width, c)
  }

  /**
   The two tables the chart is drawn from: the index of the first bucket, the
   total per bucket of the axis (`total_count`), the buckets that are rows of
   the per-candidate table and each candidate's count per row
   (`candidate_counts`).
   */
  datatype Resampled = Resampled(first: int, total: seq<nat>, rows: seq<int>, byCandidate: map<string, seq<nat>>)

  /**
   What the plotting function gets from pandas: the two tables, or the
   `TypeError` that `resample` raises on the frame built from no votes, whose
   index holds no datetimes.
   */
  datatype Resampling = Tables(tables: Resampled) | EmptyIndexTypeError

  /**
   Lines 168-181: the instants indexed and sorted, resampled into buckets of
   `width` seconds, counted per bucket and per candidate per bucket. The
   total covers every bucket from the earliest vote's to the latest vote's;
   the candidate table has a column for each candidate voted for, over rows
   that are buckets of that axis, in increasing order. With no votes the
   tables are empty, which is what a chart of nothing evidently means; the
   code raises there instead (`ResampleVotes`).
   */
  function CandidateTimeSeries(votes: seq<Vote>, width: Width): (r: Resampled)
    ensures votes == [] ==> r.total == []
    ensures votes != [] ==> |r.total| == BucketOf(MaxTime(votes), width) - BucketOf(MinTime(votes), width) + 1
    ensures votes != [] ==> r.first == BucketOf(MinTime(votes), width)
    ensures forall j, k :: 0 <= j < k < |r.rows| ==> r.rows[j] < r.rows[k]
    ensures forall k :: 0 <= k < |r.rows| ==> r.first <= r.rows[k] < r.first + |r.total|
    ensures forall c :: c in r.byCandidate <==> exists i :: 0 <= i < |votes| && votes[i].candidateName == c
    ensures forall c :: c in r.byCandidate ==> |r.byCandidate[c]| == |r.rows|
  {
    Resampled(FirstBucket(votes, width), TotalSeries(votes, width), CandidateRows(votes, width), CandidateSeriesMap(votes, width))
  }

  // ----- what the two tables promise -----

  /** The sum of a series. */
  function Sum(s: seq<nat>): nat
  {
    if s == [] then 0 else Sum(s[..|s| - 1]) + s[|s| - 1]
  }

  /** The `n` consecutive bucket indices from `first`. */
  function Range(first: int, n: nat): (r: seq<int>)
    ensures |r| == n && forall k :: 0 <= k < n ==> r[k] == first + k
    ensures NoDuplicates(r)
  {
    seq(n, k => first + k)
  }

  lemma {:induction false} SumOfCountsOverRange(b: seq<int>, first: int, n: nat)
    ensures Sum(seq<nat>(n, k => Occurrences(b, first + k))) == SumOccurrences(Range(first, n), b)
  {
    if n > 0 {
      SumOfCountsOverRange(b, first, n - 1);
      assert seq<nat>(n, k => Occurrences(b, first + k))[..n - 1] == seq<nat>(n - 1, k => Occurrences(b, first + k));
      assert Range(first, n)[..n - 1] == Range(first, n - 1);
    }
  }

  /** The bucket of every vote is one of the axis. */
  lemma VoteInAxis(votes: seq<Vote>, width: Width, i: int)
    requires 0 <= i < |votes|
    ensures FirstBucket(votes, width) <= BucketOf(votes[i].timestamp, width)
    ensures BucketOf(votes[i].timestamp, width) < FirstBucket(votes, width) + BucketCount(votes, width)
  {
    TimeBounds(votes);
    BucketMonotone(MinTime(votes), votes[i].timestamp, width);
    BucketMonotone(votes[i].timestamp, MaxTime(votes), width);
  }

  /** The bucket of every vote is a row of the per-candidate table: the vote's own candidate covers it. */
  lemma VoteBucketIsARow(votes: seq<Vote>, width: Width, i: int)
    requires 0 <= i < |votes|
    ensures BucketOf(votes[i].timestamp, width) in CandidateRows(votes, width)
  {
    VoteInAxis(votes, width, i);
    CoveredByVote(votes, width, i);
    RowsUpToMembers(votes, width, FirstBucket(votes, width), BucketCount(votes, width));
  }

  /** Every vote lies in exactly one bucket of the axis, and that bucket is a row of the per-candidate table. */
  lemma EveryVoteInOneBucket(votes: seq<Vote>, width: Width, i: int)
    requires 0 <= i < |votes|
    ensures var r := CandidateTimeSeries(votes, width);
      var q := BucketOf(votes[i].timestamp, width);
      r.first <= q < r.first + |r.total| &&
      q * width <= votes[i].timestamp < q * width + width &&
      q in r.rows
    ensures forall q' :: q' * width <= votes[i].timestamp < q' * width + width ==> q' == BucketOf(votes[i].timestamp, width)
  {
    BucketBounds(votes[i].timestamp, width);
    VoteInAxis(votes, width, i);
    VoteBucketIsARow(votes, width, i);
    forall q' | q' * width <= votes[i].timestamp < q' * width + width
      ensures q' == BucketOf(votes[i].timestamp, width)
    {
      BucketUnique(votes[i].timestamp, width, q');
    }
  }

  lemma TotalSeriesSumsToLength(votes: seq<Vote>, width: Width)
    ensures Sum(TotalSeries(votes, width)) == |votes|
  {
    var first, n := FirstBucket(votes, width), BucketCount(votes, width);
    var b := Buckets(votes, width);
    SumOfCountsOverRange(b, first, n);
    forall x | x in b
      ensures x in Range(first, n)
    {
      var i :| 0 <= i < |b| && b[i] == x;
      assert x == BucketOf(votes[i].timestamp, width);
      VoteInAxis(votes, width, i);
      assert Range(first, n)[x - first] == x;
    }
    SumOccurrencesPartition(Range(first, n), b);
  }

  /** The total at position `k` of the axis counts the votes in bucket `first + k`. */
  lemma TotalAt(votes: seq<Vote>, width: Width, k: int)
    requires 0 <= k < BucketCount(votes, width)
    ensures TotalSeries(votes, width)[k] == Occurrences(Buckets(votes, width), FirstBucket(votes, width) + k)
  {
  }

  /** The positions of the buckets list holding `q` are the votes whose instant lies in bucket `q`'s span. */
  lemma BucketPositions(votes: seq<Vote>, width: Width, q: int)
    ensures Positions(Buckets(votes, width), q)
         == set i | 0 <= i < |votes| && q * width <= votes[i].timestamp < q * width + width
  {
    forall i | 0 <= i < |votes|
      ensures Buckets(votes, width)[i] == q <==> q * width <= votes[i].timestamp < q * width + width
    {
      BucketBounds(votes[i].timestamp, width);
      if q * width <= votes[i].timestamp < q * width + width {
        BucketUnique(votes[i].timestamp, width, q);
      }
    }
  }

  lemma CandidateBucketPositions(votes: seq<Vote>, width: Width, c: string, q: int)
    ensures Positions(CandidateBuckets(votes, width), (c, q))
         == set i | 0 <= i < |votes| && votes[i].candidateName == c && q * width <= votes[i].timestamp < q * width + width
  {
    forall i | 0 <= i < |votes|
      ensures CandidateBuckets(votes, width)[i] == (c, q) <==>
                votes[i].candidateName == c && q * width <= votes[i].timestamp < q * width + width
    {
      BucketBounds(votes[i].timestamp, width);
      if q * width <= votes[i].timestamp < q * width + width {
        BucketUnique(votes[i].timestamp, width, q);
      }
    }
  }

  /** The total at position `k` of the axis is the number of votes whose instant lies in that bucket's span. */
  lemma TotalIsVotesInSpan(votes: seq<Vote>, width: Width, k: int)
    requires 0 <= k < |CandidateTimeSeries(votes, width).total|
    ensures var r := CandidateTimeSeries(votes, width);
      var q := r.first + k;
      r.total[k] == |set i | 0 <= i < |votes| && q * width <= votes[i].timestamp < q * width + width|
  {
    var q := FirstBucket(votes, width) + k;
    TotalAt(votes, width, k);
    OccurrencesArePositions(Buckets(votes, width), q);
    BucketPositions(votes, width, q);
  }

  /**
   A candidate's entry at row `k` of the per-candidate table is the number of
   its votes whose instant lies in that row's bucket span.
   */
  lemma CandidateCountIsVotesInSpan(votes: seq<Vote>, width: Width, c: string, k: int)
    requires 0 <= k < |CandidateTimeSeries(votes, width).rows|
    requires c in CandidateTimeSeries(votes, width).byCandidate
    ensures var r := CandidateTimeSeries(votes, width);
      var q := r.rows[k];
      |r.byCandidate[c]| == |r.rows| &&
      r.byCandidate[c][k] == |set i | 0 <= i < |votes| && votes[i].candidateName == c &&
                                      q * width <= votes[i].timestamp < q * width + width|
  {
    var q := CandidateRows(votes, width)[k];
    assert CandidateSeriesMap(votes, width)[c] == CandidateSeries(votes, width, c);
    OccurrencesArePositions(CandidateBuckets(votes, width), (c, q));
    CandidateBucketPositions(votes, width, c, q);
  }

  /** Every vote is counted once: the totals sum to the number of votes. */
  lemma TimeSeriesSumsToLength(votes: seq<Vote>, width: Width)
    ensures Sum(CandidateTimeSeries(votes, width).total) == |votes|
  {
    TotalSeriesSumsToLength(votes, width);
  }

  /**
   A bucket of the axis that holds a vote is a row of the per-candidate table:
   the rows `unstack` leaves out are empty buckets.
   */
  lemma NonEmptyBucketsAreRows(votes: seq<Vote>, width: Width, k: int)
    requires 0 <= k < |CandidateTimeSeries(votes, width).total|
    requires CandidateTimeSeries(votes, width).total[k] > 0
    ensures CandidateTimeSeries(votes, width).first + k in CandidateTimeSeries(votes, width).rows
  {
    var b := Buckets(votes, width);
    var q := FirstBucket(votes, width) + k;
    assert Occurrences(b, q) > 0;
    var i :| 0 <= i < |b| && b[i] == q;
    assert q == BucketOf(votes[i].timestamp, width);
    VoteBucketIsARow(votes, width, i);
  }

  /** The count of each candidate at one bucket, read from the per-candidate table at row `k`. */
  function CandidatesAt(series: map<string, seq<nat>>, k: int): map<string, nat>
  {
    map c | c in series && 0 <= k < |series[c]| :: series[c][k]
  }

  lemma {:induction false} SumOverColumn(cands: seq<string>, m: map<string, nat>, p: seq<(string, int)>, q: int)
    requires forall c :: c in cands ==> c in m && m[c] == Occurrences(p, (c, q))
    ensures SumOver(cands, m) == SumOccurrences(Column(cands, q), p)
  {
    if cands != [] {
      SumOverColumn(cands[..|cands| - 1], m, p, q);
      assert Column(cands, q)[..|cands| - 1] == Column(cands[..|cands| - 1], q);
    }
  }

  lemma CandidatesAtCounts(votes: seq<Vote>, width: Width, k: int)
    requires 0 <= k < |CandidateRows(votes, width)|
    ensures forall c :: c in Distinct(Names(votes)) ==>
      c in CandidatesAt(CandidateSeriesMap(votes, width), k) &&
      CandidatesAt(CandidateSeriesMap(votes, width), k)[c]
        == Occurrences(CandidateBuckets(votes, width), (c, CandidateRows(votes, width)[k]))
  {
    var series := CandidateSeriesMap(votes, width);
    forall c | c in Distinct(Names(votes))
      ensures c in CandidatesAt(series, k)
      ensures CandidatesAt(series, k)[c] == Occurrences(CandidateBuckets(votes, width), (c, CandidateRows(votes, width)[k]))
    {
      assert c in series;
      assert series[c] == CandidateSeries(votes, width, c);
    }
  }

  lemma CandidatesSumToCount(votes: seq<Vote>, width: Width, k: int)
    requires 0 <= k < |CandidateRows(votes, width)|
    ensures SumOver(Distinct(Names(votes)), CandidatesAt(CandidateSeriesMap(votes, width), k))
         == Occurrences(Buckets(votes, width), CandidateRows(votes, width)[k])
  {
    var q := CandidateRows(votes, width)[k];
    var cb := CandidateBuckets(votes, width);
    var cands := Distinct(Names(votes));
    CandidatesAtCounts(votes, width, k);
    SumOverColumn(cands, CandidatesAt(CandidateSeriesMap(votes, width), k), cb, q);
    assert Firsts(cb) == Names(votes);
    ColumnMargin(cb, cands, q);
    assert Seconds(cb) == Buckets(votes, width);
  }

  /** At every row of the per-candidate table, the candidates' counts add up to that bucket's total. */
  lemma CandidatesSumToTotal(votes: seq<Vote>, width: Width, k: int)
    requires 0 <= k < |CandidateTimeSeries(votes, width).rows|
    ensures var r := CandidateTimeSeries(votes, width);
      SumOver(Distinct(Names(votes)), CandidatesAt(r.byCandidate, k)) == r.total[r.rows[k] - r.first]
  {
    var r := CandidateTimeSeries(votes, width);
    var q := CandidateRows(votes, width)[k];
    TotalAt(votes, width, q - FirstBucket(votes, width));
    assert r.total[r.rows[k] - r.first] == Occurrences(Buckets(votes, width), q);
    CandidatesSumToCount(votes, width, k);
  }

  // ----- the resampling, pass by pass -----

  lemma AllVotesInAxis(votes: seq<Vote>, width: Width)
    ensures forall i :: 0 <= i < |votes| ==>
      FirstBucket(votes, width) <= BucketOf(votes[i].timestamp, width) < FirstBucket(votes, width) + BucketCount(votes, width)
  {
    forall i | 0 <= i < |votes|
      ensures FirstBucket(votes, width) <= BucketOf(votes[i].timestamp, width) < FirstBucket(votes, width) + BucketCount(votes, width)
    {
      VoteInAxis(votes, width, i);
    }
  }

  /** The earliest and latest instants, read in one pass: all that `sort_index` gives `resample` to fix the axis. */
  method TimeSpan(votes: seq<Vote>) returns (lo: int, hi: int)
    requires votes != []
    ensures lo == MinTime(votes) && hi == MaxTime(votes)
  {
    lo, hi := votes[0].timestamp, votes[0].timestamp;
    for i := 1 to |votes|
      invariant lo == MinTime(votes[..i]) && hi == MaxTime(votes[..i])
    {
      assert votes[..i + 1][..i] == votes[..i];
      if votes[i].timestamp < lo {
        lo := votes[i].timestamp;
      }
      if votes[i].timestamp > hi {
        hi := votes[i].timestamp;
      }
    }
    assert votes[..|votes|] == votes;
  }

  /** Candidate `c`'s count in each of the `n` buckets from `first`. */
  function FullSeries(votes: seq<Vote>, width: Width, c: string, first: int, n: nat): (s: seq<nat>)
    ensures |s| == n
  {
    seq<nat>(n, k => Occurrences(CandidateBuckets(votes, width), (c, first + k)))
  }

  /** One more vote adds one to its own bucket of the total and nothing elsewhere. */
  lemma OneMoreVote(votes: seq<Vote>, i: int, width: Width)
    requires 0 <= i < |votes|
    ensures forall q :: Occurrences(Buckets(votes[..i + 1], width), q)
                     == Occurrences(Buckets(votes[..i], width), q) + (if BucketOf(votes[i].timestamp, width) == q then 1 else 0)
  {
    assert votes[..i + 1] == votes[..i] + [votes[i]];
    var q0 := BucketOf(votes[i].timestamp, width);
    assert Buckets(votes[..i + 1], width) == Buckets(votes[..i], width) + [q0];
    forall q {
      OccurrencesAppend(Buckets(votes[..i], width), q0, q);
    }
  }

  /** One more vote adds one to its candidate's count at its bucket and nothing elsewhere, and its name to the names. */
  lemma OneMoreCandidateVote(votes: seq<Vote>, i: int, width: Width)
    requires 0 <= i < |votes|
    ensures forall p :: Occurrences(CandidateBuckets(votes[..i + 1], width), p)
                     == Occurrences(CandidateBuckets(votes[..i], width), p)
                        + (if (votes[i].candidateName, BucketOf(votes[i].timestamp, width)) == p then 1 else 0)
    ensures Names(votes[..i + 1]) == Names(votes[..i]) + [votes[i].candidateName]
  {
    assert votes[..i + 1] == votes[..i] + [votes[i]];
    var p0 := (votes[i].candidateName, BucketOf(votes[i].timestamp, width));
    assert CandidateBuckets(votes[..i + 1], width) == CandidateBuckets(votes[..i], width) + [p0];
    forall p {
      OccurrencesAppend(CandidateBuckets(votes[..i], width), p0, p);
    }
  }

  /** `resample(freq).size()` over a given axis: one pass that adds each vote to its bucket. */
  method CountTotals(votes: seq<Vote>, width: Width, first: int, n: nat) returns (total: seq<nat>)
    requires forall i :: 0 <= i < |votes| ==> first <= BucketOf(votes[i].timestamp, width) < first + n
    ensures total == seq<nat>(n, k => Occurrences(Buckets(votes, width), first + k))
  {
    var counts := new nat[n](_ => 0);
    for i := 0 to |votes|
      invariant forall k :: 0 <= k < n ==> counts[k] == Occurrences(Buckets(votes[..i], width), first + k)
    {
      OneMoreVote(votes, i, width);
      var k := BucketOf(votes[i].timestamp, width) - first;
      counts[k] := counts[k] + 1;
    }
    assert votes[..|votes|] == votes;
    total := counts[..];
  }

  /** The series of a candidate absent from `votes` is all zeros. */
  lemma FullSeriesOfAbsent(votes: seq<Vote>, width: Width, c: string, first: int, n: nat)
    requires c !in Names(votes)
    ensures FullSeries(votes, width, c, first, n) == seq(n, _ => 0)
  {
    var cb := CandidateBuckets(votes, width);
    forall k | 0 <= k < n
      ensures FullSeries(votes, width, c, first, n)[k] == 0
    {
      forall i | 0 <= i < |cb|
        ensures cb[i] != (c, first + k)
      {
        assert Names(votes)[i] == cb[i].0;
      }
      assert FullSeries(votes, width, c, first, n)[k] == Occurrences(cb, (c, first + k));
    }
  }

  /** `groupby('candidate').resample(freq).size()` over a given axis: one pass that adds each vote to its candidate's bucket. */
  method CountCandidates(votes: seq<Vote>, width: Width, first: int, n: nat) returns (byCandidate: map<string, seq<nat>>)
    requires forall i :: 0 <= i < |votes| ==> first <= BucketOf(votes[i].timestamp, width) < first + n
    ensures forall c :: c in byCandidate <==> c in Names(votes)
    ensures forall c :: c in byCandidate ==> byCandidate[c] == FullSeries(votes, width, c, first, n)
  {
    byCandidate := map[];
    for i := 0 to |votes|
      invariant CountedSoFar(votes[..i], width, first, n, byCandidate)
    {
      var c, k := votes[i].candidateName, BucketOf(votes[i].timestamp, width) - first;
      var row := if c in byCandidate then byCandidate[c] else seq(n, _ => 0);
      var byCandidate' := byCandidate[c := row[k := row[k] + 1]];
      CountOne(votes, i, width, first, n, byCandidate, byCandidate');
      byCandidate := byCandidate';
    }
    assert votes[..|votes|] == votes;
  }

  /** `m` holds, for each candidate of `seen`, its count per bucket of the axis. */
  ghost predicate CountedSoFar(seen: seq<Vote>, width: Width, first: int, n: nat, m: map<string, seq<nat>>)
  {
    && (forall c :: c in m <==> c in Names(seen))
    && (forall c :: c in m ==> m[c] == FullSeries(seen, width, c, first, n))
  }

  /** Adding vote `i` to its candidate's bucket keeps the counts those of the votes so far. */
  lemma CountOne(votes: seq<Vote>, i: int, width: Width, first: int, n: nat, m: map<string, seq<nat>>, m': map<string, seq<nat>>)
    requires 0 <= i < |votes| && first <= BucketOf(votes[i].timestamp, width) < first + n
    requires CountedSoFar(votes[..i], width, first, n, m)
    requires var c, k := votes[i].candidateName, BucketOf(votes[i].timestamp, width) - first;
             var row := if c in m then m[c] else seq(n, _ => 0);
             m' == m[c := row[k := row[k] + 1]]
    ensures CountedSoFar(votes[..i + 1], width, first, n, m')
  {
    var c, k := votes[i].candidateName, BucketOf(votes[i].timestamp, width) - first;
    assert Names(votes[..i + 1]) == Names(votes[..i]) + [c] by {
      OneMoreCandidateVote(votes, i, width);
    }
    if c !in m {
      FullSeriesOfAbsent(votes[..i], width, c, first, n);
    }
    forall d | d in m'
      ensures m'[d] == FullSeries(votes[..i + 1], width, d, first, n)
    {
      FullSeriesStep(votes, i, width, d, first, n);
    }
  }

  /** One more vote adds one to its own candidate's count at its bucket, and changes no other series. */
  lemma FullSeriesStep(votes: seq<Vote>, i: int, width: Width, d: string, first: int, n: nat)
    requires 0 <= i < |votes| && first <= BucketOf(votes[i].timestamp, width) < first + n
    ensures var k := BucketOf(votes[i].timestamp, width) - first;
            var before := FullSeries(votes[..i], width, d, first, n);
            FullSeries(votes[..i + 1], width, d, first, n)
              == if d == votes[i].candidateName then before[k := before[k] + 1] else before
  {
    OneMoreCandidateVote(votes, i, width);
  }

  /** `unstack`: each candidate's series read at the rows of the per-candidate table. */
  function AtRows(full: map<string, seq<nat>>, rows: seq<int>, first: int, n: nat): (m: map<string, seq<nat>>)
    requires forall c :: c in full ==> |full[c]| == n
    requires forall k :: 0 <= k < |rows| ==> first <= rows[k] < first + n
    ensures m.Keys == full.Keys
    ensures forall c :: c in m ==> |m[c]| == |rows| && forall k :: 0 <= k < |rows| ==> m[c][k] == full[c][rows[k] - first]
  {
    map c | c in full :: seq(|rows|, k requires 0 <= k < |rows| => full[c][rows[k] - first])
  }

  /**
   Lines 172-181 as passes over the votes: the span, the axis it fixes, the
   totals, the per-candidate counts, and the rows the per-candidate table keeps.
   With no votes the frame's index is not a `DatetimeIndex` and `resample`
   raises `TypeError`.
   */
  method ResampleVotes(votes: seq<Vote>, width: Width) returns (r: Resampling)
    ensures r.EmptyIndexTypeError? <==> votes == []
    ensures votes != [] ==> r == Tables(CandidateTimeSeries(votes, width))
  {
    if votes == [] {
      return EmptyIndexTypeError;
    }
    var lo, hi := TimeSpan(votes);
    var first := BucketOf(lo, width);
    var n := BucketOf(hi, width) - first + 1;
    assert first == FirstBucket(votes, width) && n == BucketCount(votes, width);
    AllVotesInAxis(votes, width);
    var total := CountTotals(votes, width, first, n);
    var full := CountCandidates(votes, width, first, n);
    r := Tables(Resampled(first, total, CandidateRows(votes, width), Unstack(votes, width, full)));
  }

  /** `unstack`: the per-candidate counts over the whole axis, read at the rows the per-candidate table keeps. */
  function Unstack(votes: seq<Vote>, width: Width, full: map<string, seq<nat>>): (m: map<string, seq<nat>>)
    requires forall c :: c in full <==> c in Names(votes)
    requires forall c :: c in full ==> full[c] == FullSeries(votes, width, c, FirstBucket(votes, width), BucketCount(votes, width))
    ensures m == CandidateSeriesMap(votes, width)
  {
    FullSeriesPointwise(votes, width, full, FirstBucket(votes, width), BucketCount(votes, width));
    SelectedRowsAreSeries(votes, width, full);
    AtRows(full, CandidateRows(votes, width), FirstBucket(votes, width), BucketCount(votes, width))
  }

  lemma AtRowsCounts(full: map<string, seq<nat>>, rows: seq<int>, first: int, n: nat, cb: seq<(string, int)>, c: string)
    requires forall c :: c in full ==> |full[c]| == n
    requires forall k :: 0 <= k < |rows| ==> first <= rows[k] < first + n
    requires forall j :: 0 <= j < n && c in full ==> full[c][j] == Occurrences(cb, (c, first + j))
    requires c in full
    ensures AtRows(full, rows, first, n)[c] == seq<nat>(|rows|, k requires 0 <= k < |rows| => Occurrences(cb, (c, rows[k])))
  {
    var m := AtRows(full, rows, first, n);
    forall k | 0 <= k < |rows|
      ensures m[c][k] == Occurrences(cb, (c, rows[k]))
    {
      assert m[c][k] == full[c][rows[k] - first];
    }
  }

  lemma FullSeriesPointwise(votes: seq<Vote>, width: Width, full: map<string, seq<nat>>, first: int, n: nat)
    requires forall c :: c in full ==> full[c] == FullSeries(votes, width, c, first, n)
    ensures forall c :: c in full ==> |full[c]| == n
    ensures forall c, j :: c in full && 0 <= j < |full[c]| ==>
      full[c][j] == Occurrences(CandidateBuckets(votes, width), (c, first + j))
  {
  }

  lemma SeriesMapKeys(votes: seq<Vote>, width: Width)
    ensures forall c :: c in CandidateSeriesMap(votes, width) <==> c in Names(votes)
  {
  }

  lemma SelectedRowIsSeries(votes: seq<Vote>, width: Width, full: map<string, seq<nat>>, c: string)
    requires forall c :: c in full ==> |full[c]| == BucketCount(votes, width)
    requires forall c, j :: c in full && 0 <= j < |full[c]| ==>
      full[c][j] == Occurrences(CandidateBuckets(votes, width), (c, FirstBucket(votes, width) + j))
    requires c in full
    ensures AtRows(full, CandidateRows(votes, width), FirstBucket(votes, width), BucketCount(votes, width))[c]
         == CandidateSeries(votes, width, c)
  {
    AtRowsCounts(full, CandidateRows(votes, width), FirstBucket(votes, width), BucketCount(votes, width), CandidateBuckets(votes, width), c);
  }

  lemma SelectedRowsAreSeries(votes: seq<Vote>, width: Width, full: map<string, seq<nat>>)
    requires forall c :: c in full <==> c in Names(votes)
    requires forall c :: c in full ==> |full[c]| == BucketCount(votes, width)
    requires forall c, j :: c in full && 0 <= j < |full[c]| ==>
      full[c][j] == Occurrences(CandidateBuckets(votes, width), (c, FirstBucket(votes, width) + j))
    ensures AtRows(full, CandidateRows(votes, width), FirstBucket(votes, width), BucketCount(votes, width)) == CandidateSeriesMap(votes, width)
  {
    var m := AtRows(full, CandidateRows(votes, width), FirstBucket(votes, width), BucketCount(votes, width));
    var spec := CandidateSeriesMap(votes, width);
    assert m.Keys == spec.Keys by {
      SeriesMapKeys(votes, width);
    }
    assert forall c :: c in m ==> m[c] == spec[c] by {
      forall c | c in m
        ensures m[c] == spec[c]
      {
        SelectedRowIsSeries(votes, width, full, c);
      }
    }
    MapsAgree(m, spec);
  }

  lemma MapsAgree(m: map<string, seq<nat>>, m': map<string, seq<nat>>)
    requires m.Keys == m'.Keys
    requires forall c :: c in m ==> m[c] == m'[c]
    ensures m == m'
  {
  }

  /** A candidate's series is pinned down by its count at each row. */
  lemma SeriesFromCounts(votes: seq<Vote>, width: Width, c: string, expected: seq<nat>)
    requires |expected| == |CandidateRows(votes, width)|
    requires forall k :: 0 <= k < |expected| ==>
      expected[k] == Occurrences(CandidateBuckets(votes, width), (c, CandidateRows(votes, width)[k]))
    ensures CandidateSeries(votes, width, c) == expected
  {
  }

  // ----- order independence -----

  lemma MinMaxOfSameVotes(votes: seq<Vote>, votes': seq<Vote>)
    requires votes != [] && votes' != []
    requires forall v :: v in votes <==> v in votes'
    ensures MinTime(votes) == MinTime(votes') && MaxTime(votes) == MaxTime(votes')
  {
    TimeBounds(votes);
    TimeBounds(votes');
    var i :| 0 <= i < |votes| && votes[i].timestamp == MinTime(votes);
    var i' :| 0 <= i' < |votes'| && votes'[i'].timestamp == MinTime(votes');
    var j :| 0 <= j < |votes| && votes[j].timestamp == MaxTime(votes);
    var j' :| 0 <= j' < |votes'| && votes'[j'].timestamp == MaxTime(votes');
    assert votes[i] in votes' && votes'[i'] in votes && votes[j] in votes' && votes'[j'] in votes;
  }

  lemma RowsOfSameVotes(votes: seq<Vote>, votes': seq<Vote>, width: Width, first: int, n: nat)
    requires forall v :: v in votes <==> v in votes'
    ensures RowsUpTo(votes, width, first, n) == RowsUpTo(votes', width, first, n)
  {
    if n > 0 {
      RowsOfSameVotes(votes, votes', width, first, n - 1);
      var q := first + n - 1;
      assert InCandidateAxis(votes, width, q) <==> InCandidateAxis(votes', width, q);
    }
  }

  lemma CountsOfSameVotes(votes: seq<Vote>, votes': seq<Vote>, width: Width)
    requires multiset(votes) == multiset(votes')
    ensures forall q :: Occurrences(Buckets(votes, width), q) == Occurrences(Buckets(votes', width), q)
    ensures forall p :: Occurrences(CandidateBuckets(votes, width), p) == Occurrences(CandidateBuckets(votes', width), p)
  {
    MapSeqPermutation(BucketFn(width), votes, votes');
    MapSeqPermutation(CandidateBucketFn(width), votes, votes');
    forall q
      ensures Occurrences(Buckets(votes, width), q) == Occurrences(Buckets(votes', width), q)
    {
      OccurrencesIsMultiplicity(Buckets(votes, width), q);
      OccurrencesIsMultiplicity(Buckets(votes', width), q);
    }
    forall p
      ensures Occurrences(CandidateBuckets(votes, width), p) == Occurrences(CandidateBuckets(votes', width), p)
    {
      OccurrencesIsMultiplicity(CandidateBuckets(votes, width), p);
      OccurrencesIsMultiplicity(CandidateBuckets(votes', width), p);
    }
  }

  lemma SameElements(votes: seq<Vote>, votes': seq<Vote>)
    requires multiset(votes) == multiset(votes')
    ensures forall v :: v in votes <==> v in votes'
    ensures votes == [] <==> votes' == []
  {
    forall v
      ensures v in votes <==> v in votes'
    {
      assert v in votes <==> v in multiset(votes);
      assert v in votes' <==> v in multiset(votes');
    }
    assert |votes| == |multiset(votes)| == |multiset(votes')| == |votes'|;
  }

  lemma NamesOfSameVotes(votes: seq<Vote>, votes': seq<Vote>)
    requires forall v :: v in votes <==> v in votes'
    ensures forall c :: c in Names(votes) <==> c in Names(votes')
  {
    forall c
      ensures c in Names(votes) ==> c in Names(votes')
      ensures c in Names(votes') ==> c in Names(votes)
    {
      if c in Names(votes) {
        var i :| 0 <= i < |votes| && Names(votes)[i] == c;
        assert votes[i] in votes';
        var j :| 0 <= j < |votes'| && votes'[j] == votes[i];
        assert Names(votes')[j] == c;
      }
      if c in Names(votes') {
        var i :| 0 <= i < |votes'| && Names(votes')[i] == c;
        assert votes'[i] in votes;
        var j :| 0 <= j < |votes| && votes[j] == votes'[i];
        assert Names(votes)[j] == c;
      }
    }
  }

  lemma AxisOfSameVotes(votes: seq<Vote>, votes': seq<Vote>, width: Width)
    requires multiset(votes) == multiset(votes')
    ensures FirstBucket(votes, width) == FirstBucket(votes', width)
    ensures BucketCount(votes, width) == BucketCount(votes', width)
    ensures CandidateRows(votes, width) == CandidateRows(votes', width)
  {
    SameElements(votes, votes');
    if votes != [] {
      MinMaxOfSameVotes(votes, votes');
    }
    RowsOfSameVotes(votes, votes', width, FirstBucket(votes, width), BucketCount(votes, width));
  }

  lemma TotalsOfSameVotes(votes: seq<Vote>, votes': seq<Vote>, width: Width)
    requires multiset(votes) == multiset(votes')
    ensures TotalSeries(votes, width) == TotalSeries(votes', width)
  {
    AxisOfSameVotes(votes, votes', width);
    CountsOfSameVotes(votes, votes', width);
  }

  lemma SeriesOfSameVotes(votes: seq<Vote>, votes': seq<Vote>, width: Width, c: string)
    requires multiset(votes) == multiset(votes')
    ensures CandidateSeries(votes, width, c) == CandidateSeries(votes', width, c)
  {
    AxisOfSameVotes(votes, votes', width);
    CountsOfSameVotes(votes, votes', width);
  }

  lemma SeriesMapOfSameVotes(votes: seq<Vote>, votes': seq<Vote>, width: Width)
    requires multiset(votes) == multiset(votes')
    ensures CandidateSeriesMap(votes, width) == CandidateSeriesMap(votes', width)
  {
    var m, m' := CandidateSeriesMap(votes, width), CandidateSeriesMap(votes', width);
    assert m.Keys == m'.Keys by {
      SameElements(votes, votes');
      SeriesMapKeys(votes, width);
      SeriesMapKeys(votes', width);
      NamesOfSameVotes(votes, votes');
    }
    forall c | c in m
      ensures m[c] == m'[c]
    {
      SeriesOfSameVotes(votes, votes', width, c);
    }
    MapsAgree(m, m');
  }

  /** Bucketing reads only the instants and candidates, never the input order: reordering the votes changes neither table. */
  lemma TimeSeriesPermutationInvariant(votes: seq<Vote>, votes': seq<Vote>, width: Width)
    requires multiset(votes) == multiset(votes')
    ensures CandidateTimeSeries(votes, width) == CandidateTimeSeries(votes', width)
  {
    AxisOfSameVotes(votes, votes', width);
    TotalsOfSameVotes(votes, votes', width);
    SeriesMapOfSameVotes(votes, votes', width);
  }

  // ----- scenarios -----

  /** A vote for `name` at instant `t`; the other fields play no part in the resampling. */
  function VoteAt(name: string, t: int): Vote
  {
    Vote("e", name, "v", map[], t)
  }

  lemma SingleVoteTotals(v: Vote, width: Width)
    ensures FirstBucket([v], width) == BucketOf(v.timestamp, width)
    ensures TotalSeries([v], width) == [1]
  {
    var q := BucketOf(v.timestamp, width);
    assert Buckets([v], width) == [q];
    assert Occurrences([q], q) == 1 by { assert [q][..0] == []; }
    TotalAt([v], width, 0);
  }

  lemma SingleVoteColumns(v: Vote, width: Width)
    ensures CandidateRows([v], width) == [BucketOf(v.timestamp, width)]
    ensures CandidateSeriesMap([v], width) == map[v.candidateName := [1]]
  {
    var q := BucketOf(v.timestamp, width);
    assert FirstBucket([v], width) == q && BucketCount([v], width) == 1;
    assert CandidateBuckets([v], width) == [(v.candidateName, q)];
    assert Occurrences([(v.candidateName, q)], (v.candidateName, q)) == 1 by { assert [(v.candidateName, q)][..0] == []; }
    assert InCandidateAxis([v], width, q) by { assert v in [v]; }
    assert RowsUpTo([v], width, q, 1) == [q];
    var m := CandidateSeriesMap([v], width);
    assert m.Keys == {v.candidateName} by {
      SeriesMapKeys([v], width);
      assert Names([v]) == [v.candidateName];
    }
    assert m[v.candidateName] == [1];
  }

  /** One vote: one bucket holding it, one row, one candidate counting one. */
  lemma SingleVote(v: Vote, width: Width)
    ensures CandidateTimeSeries([v], width)
         == Resampled(BucketOf(v.timestamp, width), [1], [BucketOf(v.timestamp, width)], map[v.candidateName := [1]])
  {
    SingleVoteTotals(v, width);
    SingleVoteColumns(v, width);
  }

  /**
   The axis runs from bucket `lo` to bucket `hi` when some vote falls in each
   of them and every vote falls between them.
   */
  lemma AxisFromBuckets(votes: seq<Vote>, width: Width, i: int, j: int, lo: int, hi: int)
    requires 0 <= i < |votes| && BucketOf(votes[i].timestamp, width) == lo
    requires 0 <= j < |votes| && BucketOf(votes[j].timestamp, width) == hi
    requires forall k :: 0 <= k < |votes| ==> lo <= BucketOf(votes[k].timestamp, width) <= hi
    ensures FirstBucket(votes, width) == lo
    ensures BucketCount(votes, width) == hi - lo + 1
  {
    TimeBounds(votes);
    var a :| 0 <= a < |votes| && votes[a].timestamp == MinTime(votes);
    var b :| 0 <= b < |votes| && votes[b].timestamp == MaxTime(votes);
    BucketMonotone(MinTime(votes), votes[i].timestamp, width);
    BucketMonotone(votes[j].timestamp, MaxTime(votes), width);
  }

  lemma RowsStep(votes: seq<Vote>, width: Width, first: int, n: nat)
    ensures RowsUpTo(votes, width, first, n + 1)
         == if InCandidateAxis(votes, width, first + n) then RowsUpTo(votes, width, first, n) + [first + n]
            else RowsUpTo(votes, width, first, n)
  {
  }

  /** A vote's own bucket is covered by its candidate's range. */
  lemma CoveredByVote(votes: seq<Vote>, width: Width, i: int)
    requires 0 <= i < |votes|
    ensures InCandidateAxis(votes, width, BucketOf(votes[i].timestamp, width))
  {
    assert votes[i] in votes;
  }

  /** `x` votes twice in bucket 0, then `y` once in bucket 1. */
  function Hourly(x: string, y: string, t1: int, t2: int, t3: int): seq<Vote>
  {
    [VoteAt(x, t1), VoteAt(x, t2), VoteAt(y, t3)]
  }

  lemma HourlyAxis(x: string, y: string, t1: int, t2: int, t3: int, width: Width)
    requires 0 <= t1 < width && 0 <= t2 < width && width <= t3 < 2 * width
    ensures FirstBucket(Hourly(x, y, t1, t2, t3), width) == 0
    ensures BucketCount(Hourly(x, y, t1, t2, t3), width) == 2
  {
    var votes := Hourly(x, y, t1, t2, t3);
    BucketUnique(t1, width, 0);
    BucketUnique(t2, width, 0);
    BucketUnique(t3, width, 1);
    AxisFromBuckets(votes, width, 0, 2, 0, 1);
  }

  lemma HourlyBuckets(x: string, y: string, t1: int, t2: int, t3: int, width: Width)
    requires 0 <= t1 < width && 0 <= t2 < width && width <= t3 < 2 * width
    ensures Buckets(Hourly(x, y, t1, t2, t3), width) == [0, 0, 1]
    ensures CandidateBuckets(Hourly(x, y, t1, t2, t3), width) == [(x, 0), (x, 0), (y, 1)]
  {
    BucketUnique(t1, width, 0);
    BucketUnique(t2, width, 0);
    BucketUnique(t3, width, 1);
  }

  lemma HourlyTotals(x: string, y: string, t1: int, t2: int, t3: int, width: Width)
    requires 0 <= t1 < width && 0 <= t2 < width && width <= t3 < 2 * width
    ensures TotalSeries(Hourly(x, y, t1, t2, t3), width) == [2, 1]
  {
    HourlyAxis(x, y, t1, t2, t3, width);
    HourlyBuckets(x, y, t1, t2, t3, width);
    var b: seq<int> := [0, 0, 1];
    assert b[..2] == [0, 0] && b[..2][..1] == [0] && b[..2][..1][..0] == [];
    assert Occurrences(b, 0) == 2 && Occurrences(b, 1) == 1;
    TotalAt(Hourly(x, y, t1, t2, t3), width, 0);
    TotalAt(Hourly(x, y, t1, t2, t3), width, 1);
  }

  lemma HourlyRows(x: string, y: string, t1: int, t2: int, t3: int, width: Width)
    requires 0 <= t1 < width && 0 <= t2 < width && width <= t3 < 2 * width
    ensures CandidateRows(Hourly(x, y, t1, t2, t3), width) == [0, 1]
  {
    var votes := Hourly(x, y, t1, t2, t3);
    HourlyAxis(x, y, t1, t2, t3, width);
    BucketUnique(t1, width, 0);
    BucketUnique(t3, width, 1);
    CoveredByVote(votes, width, 0);
    CoveredByVote(votes, width, 2);
    RowsStep(votes, width, 0, 0);
    RowsStep(votes, width, 0, 1);
  }

  lemma HourlyCounts(x: string, y: string, t1: int, t2: int, t3: int, width: Width)
    requires x != y
    requires 0 <= t1 < width && 0 <= t2 < width && width <= t3 < 2 * width
    ensures Occurrences(CandidateBuckets(Hourly(x, y, t1, t2, t3), width), (x, 0)) == 2
    ensures Occurrences(CandidateBuckets(Hourly(x, y, t1, t2, t3), width), (x, 1)) == 0
    ensures Occurrences(CandidateBuckets(Hourly(x, y, t1, t2, t3), width), (y, 0)) == 0
    ensures Occurrences(CandidateBuckets(Hourly(x, y, t1, t2, t3), width), (y, 1)) == 1
  {
    HourlyBuckets(x, y, t1, t2, t3, width);
    var cb: seq<(string, int)> := [(x, 0), (x, 0), (y, 1)];
    assert cb[..2] == [(x, 0), (x, 0)] && cb[..2][..1] == [(x, 0)] && cb[..2][..1][..0] == [];
  }

  lemma HourlySeries(x: string, y: string, t1: int, t2: int, t3: int, width: Width)
    requires x != y
    requires 0 <= t1 < width && 0 <= t2 < width && width <= t3 < 2 * width
    ensures CandidateSeries(Hourly(x, y, t1, t2, t3), width, x) == [2, 0]
    ensures CandidateSeries(Hourly(x, y, t1, t2, t3), width, y) == [0, 1]
  {
    HourlyRows(x, y, t1, t2, t3, width);
    HourlyCounts(x, y, t1, t2, t3, width);
    SeriesFromCounts(Hourly(x, y, t1, t2, t3), width, x, [2, 0]);
    SeriesFromCounts(Hourly(x, y, t1, t2, t3), width, y, [0, 1]);
  }

  lemma HourlyColumns(x: string, y: string, t1: int, t2: int, t3: int, width: Width)
    requires x != y
    requires 0 <= t1 < width && 0 <= t2 < width && width <= t3 < 2 * width
    ensures CandidateSeriesMap(Hourly(x, y, t1, t2, t3), width) == map[x := [2, 0], y := [0, 1]]
  {
    var votes := Hourly(x, y, t1, t2, t3);
    HourlySeries(x, y, t1, t2, t3, width);
    var m := CandidateSeriesMap(votes, width);
    assert m.Keys == {x, y} by {
      SeriesMapKeys(votes, width);
      assert Names(votes) == [x, x, y];
    }
    MapsAgree(m, map[x := [2, 0], y := [0, 1]]);
  }

  /**
   Two votes for `x` in the first bucket and one for `y` in the next (say
   00:10 and 00:50, then 01:05, hourly): the axis is the two buckets, the
   totals 2 and 1, `x` counts 2 then 0, `y` 0 then 1.
   */
  lemma HourlyScenario(x: string, y: string, t1: int, t2: int, t3: int, width: Width)
    requires x != y
    requires 0 <= t1 < width && 0 <= t2 < width && width <= t3 < 2 * width
    ensures CandidateTimeSeries(Hourly(x, y, t1, t2, t3), width)
         == Resampled(0, [2, 1], [0, 1], map[x := [2, 0], y := [0, 1]])
  {
    HourlyAxis(x, y, t1, t2, t3, width);
    HourlyTotals(x, y, t1, t2, t3, width);
    HourlyRows(x, y, t1, t2, t3, width);
    HourlyColumns(x, y, t1, t2, t3, width);
  }

  /** `x` votes in bucket 0 and `y` in bucket 2, nobody in bucket 1. */
  function Gap(x: string, y: string, t1: int, t2: int): seq<Vote>
  {
    [VoteAt(x, t1), VoteAt(y, t2)]
  }

  lemma GapAxis(x: string, y: string, t1: int, t2: int, width: Width)
    requires 0 <= t1 < width && 2 * width <= t2 < 3 * width
    ensures FirstBucket(Gap(x, y, t1, t2), width) == 0
    ensures BucketCount(Gap(x, y, t1, t2), width) == 3
  {
    var votes := Gap(x, y, t1, t2);
    BucketUnique(t1, width, 0);
    BucketUnique(t2, width, 2);
    AxisFromBuckets(votes, width, 0, 1, 0, 2);
  }

  lemma GapBuckets(x: string, y: string, t1: int, t2: int, width: Width)
    requires 0 <= t1 < width && 2 * width <= t2 < 3 * width
    ensures Buckets(Gap(x, y, t1, t2), width) == [0, 2]
    ensures CandidateBuckets(Gap(x, y, t1, t2), width) == [(x, 0), (y, 2)]
  {
    BucketUnique(t1, width, 0);
    BucketUnique(t2, width, 2);
  }

  lemma GapTotals(x: string, y: string, t1: int, t2: int, width: Width)
    requires 0 <= t1 < width && 2 * width <= t2 < 3 * width
    ensures TotalSeries(Gap(x, y, t1, t2), width) == [1, 0, 1]
  {
    GapAxis(x, y, t1, t2, width);
    GapBuckets(x, y, t1, t2, width);
    var b: seq<int> := [0, 2];
    assert b[..1] == [0] && b[..1][..0] == [];
    assert Occurrences(b, 0) == 1 && Occurrences(b, 1) == 0 && Occurrences(b, 2) == 1;
    TotalAt(Gap(x, y, t1, t2), width, 0);
    TotalAt(Gap(x, y, t1, t2), width, 1);
    TotalAt(Gap(x, y, t1, t2), width, 2);
  }

  /** Neither candidate's own range reaches bucket 1. */
  lemma GapNotCovered(x: string, y: string, t1: int, t2: int, width: Width)
    requires x != y
    requires 0 <= t1 < width && 2 * width <= t2 < 3 * width
    ensures !InCandidateAxis(Gap(x, y, t1, t2), width, 1)
  {
    var votes := Gap(x, y, t1, t2);
    BucketUnique(t1, width, 0);
    BucketUnique(t2, width, 2);
    forall v, w | v in votes && w in votes && v.candidateName == w.candidateName
      ensures !(BucketOf(v.timestamp, width) <= 1 <= BucketOf(w.timestamp, width))
    {
      assert v == votes[0] || v == votes[1];
      assert v == w;
    }
  }

  lemma GapRows(x: string, y: string, t1: int, t2: int, width: Width)
    requires x != y
    requires 0 <= t1 < width && 2 * width <= t2 < 3 * width
    ensures CandidateRows(Gap(x, y, t1, t2), width) == [0, 2]
  {
    var votes := Gap(x, y, t1, t2);
    GapAxis(x, y, t1, t2, width);
    BucketUnique(t1, width, 0);
    BucketUnique(t2, width, 2);
    CoveredByVote(votes, width, 0);
    GapNotCovered(x, y, t1, t2, width);
    CoveredByVote(votes, width, 1);
    RowsOfThree(votes, width);
  }

  /** Three buckets from 0 of which only the middle one is uncovered give the rows 0 and 2. */
  lemma RowsOfThree(votes: seq<Vote>, width: Width)
    requires InCandidateAxis(votes, width, 0) && !InCandidateAxis(votes, width, 1) && InCandidateAxis(votes, width, 2)
    ensures RowsUpTo(votes, width, 0, 3) == [0, 2]
  {
    RowsStep(votes, width, 0, 0);
    RowsStep(votes, width, 0, 1);
    RowsStep(votes, width, 0, 2);
  }

  lemma GapCounts(x: string, y: string, t1: int, t2: int, width: Width)
    requires x != y
    requires 0 <= t1 < width && 2 * width <= t2 < 3 * width
    ensures Occurrences(CandidateBuckets(Gap(x, y, t1, t2), width), (x, 0)) == 1
    ensures Occurrences(CandidateBuckets(Gap(x, y, t1, t2), width), (x, 2)) == 0
    ensures Occurrences(CandidateBuckets(Gap(x, y, t1, t2), width), (y, 0)) == 0
    ensures Occurrences(CandidateBuckets(Gap(x, y, t1, t2), width), (y, 2)) == 1
  {
    GapBuckets(x, y, t1, t2, width);
    var cb: seq<(string, int)> := [(x, 0), (y, 2)];
    assert cb[..1] == [(x, 0)] && cb[..1][..0] == [];
  }

  lemma GapColumns(x: string, y: string, t1: int, t2: int, width: Width)
    requires x != y
    requires 0 <= t1 < width && 2 * width <= t2 < 3 * width
    ensures CandidateSeriesMap(Gap(x, y, t1, t2), width) == map[x := [1, 0], y := [0, 1]]
  {
    var votes := Gap(x, y, t1, t2);
    GapRows(x, y, t1, t2, width);
    GapCounts(x, y, t1, t2, width);
    SeriesFromCounts(votes, width, x, [1, 0]);
    SeriesFromCounts(votes, width, y, [0, 1]);
    var m := CandidateSeriesMap(votes, width);
    assert m.Keys == {x, y} by {
      SeriesMapKeys(votes, width);
      assert Names(votes) == [x, y];
    }
    MapsAgree(m, map[x := [1, 0], y := [0, 1]]);
  }

  /**
   A vote for `x` in bucket 0 and one for `y` in bucket 2 (say 00:10 and
   02:10, hourly): the total keeps the empty bucket 1 as 0, but neither
   candidate's own range reaches it, so the per-candidate table has no row
   for it.
   */
  lemma GapRowLeftOut(x: string, y: string, t1: int, t2: int, width: Width)
    requires x != y
    requires 0 <= t1 < width && 2 * width <= t2 < 3 * width
    ensures CandidateTimeSeries(Gap(x, y, t1, t2), width)
         == Resampled(0, [1, 0, 1], [0, 2], map[x := [1, 0], y := [0, 1]])
  {
    GapAxis(x, y, t1, t2, width);
    GapTotals(x, y, t1, t2, width);
    GapRows(x, y, t1, t2, width);
    GapColumns(x, y, t1, t2, width);
  }

  /**
   Two instants closer together than one width but on either side of a
   bucket boundary make two buckets (say 00:59:59 and 01:00:01, hourly).
   */
  lemma NarrowSpanTwoBuckets(x: string, y: string, t1: int, t2: int, width: Width)
    requires t1 <= t2 < t1 + width && BucketOf(t1, width) < BucketOf(t2, width)
    ensures |CandidateTimeSeries([VoteAt(x, t1), VoteAt(y, t2)], width).total| == 2
  {
    var votes := [VoteAt(x, t1), VoteAt(y, t2)];
    BucketBounds(t1, width);
    BucketBounds(t2, width);
    var q := BucketOf(t1, width);
    assert BucketOf(t2, width) == q + 1 by {
      if BucketOf(t2, width) > q + 1 {
        MulMonotone(q + 2, BucketOf(t2, width), width);
      }
    }
    AxisFromBuckets(votes, width, 0, 1, q, q + 1);
  }

  /**
   What a chart of no votes evidently should be: empty tables. As written the
   resampling raises instead (`ResampleVotes`).
   */
  lemma TimeSeriesOfNothing(width: Width)
    ensures CandidateTimeSeries([], width) == Resampled(0, [], [], map[])
  {
  }
}
