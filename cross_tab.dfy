/**
 The table behind `plot_grouped_bar_chart` (src/visualization.py:99-144):
 one (label, candidate) pair per vote, grouped and counted, pivoted into a
 label-by-candidate table with absent pairs filled with 0, its rows ordered
 by their totals.
 */
module CrossTab {
  import opened Datatype
  import opened AgeBands
  import opened Counting
  import opened Tallies

  // ----- column names -----

  function UpperAscii(ch: char): char
  {
    if 'a' <= ch <= 'z' then (ch as int - 32) as char else ch
  }

  function LowerAscii(ch: char): char
  {
    if 'A' <= ch <= 'Z' then (ch as int + 32) as char else ch
  }

  /** `str.capitalize` on ASCII text: the first letter upper case, every other letter lower case. */
  function Capitalize(s: string): (r: string)
    ensures |r| == |s|
    ensures s != [] ==> r[0] == UpperAscii(s[0])
    ensures forall i :: 0 < i < |s| ==> r[i] == LowerAscii(s[i])
  {
    if s == [] then []
    else [UpperAscii(s[0])] + seq(|s| - 1, i requires 0 <= i < |s| - 1 => LowerAscii(s[i + 1]))
  }

  /**
   The attribute's column is named `attribute.capitalize()`, next to the
   columns "Candidate", "Votes" (the group sizes) and "Total" (the row totals);
   a clash with one of them makes pandas raise `ValueError`.
   */
  predicate ColumnClash(attribute: string)
  {
    Capitalize(attribute) in {"Candidate", "Votes", "Total"}
  }

  /** Which attribute names clash, whatever their case, and that the five the program charts do not. */
  lemma ClashingAttributes()
    ensures ColumnClash("candidate") && ColumnClash("VOTES") && ColumnClash("tOTAL")
    ensures !ColumnClash("gender") && !ColumnClash("age") && !ColumnClash("region")
    ensures !ColumnClash("race") && !ColumnClash("education")
  {
    assert Capitalize("candidate") == "Candidate";
    assert Capitalize("VOTES") == "Votes";
    assert Capitalize("tOTAL") == "Total";
    assert Capitalize("gender")[0] == 'G';
    assert Capitalize("age")[0] == 'A';
    assert Capitalize("region")[0] == 'R';
    assert Capitalize("race")[0] == 'R';
    assert Capitalize("education")[0] == 'E';
  }

  /** A row label and a candidate: one element of the `data` list. */
  type Pair = (AttrVal, string)

  /**
   The row label one vote adds to the grouped bars: the stored value, or
   `"Unknown"` when the key is missing; for `"age"` that value passed through
   `process_age`.
   */
  function CrossTabLabel(v: Vote, attribute: string): Result<AttrVal>
  {
    var value := Get(v.attributes, attribute, Text(Unknown));
    if attribute == "age" then
      match ProcessAge(value)
      case Ok(band) => Ok(Text(band))
      case Err(e) => Err(e)
    else
      Ok(value)
  }

  /** Any missing attribute, age included, becomes an "Unknown" row. */
  lemma MissingAttributeIsUnknownRow(v: Vote, attribute: string)
    requires attribute !in v.attributes
    ensures CrossTabLabel(v, attribute) == Ok(Text(Unknown))
  {
  }

  /** The same vote without an age is "Under 18" in the pie chart and "Unknown" in the grouped bars. */
  lemma MissingAgeSplitsTheCharts(v: Vote)
    requires "age" !in v.attributes
    ensures DistributionLabel(v, "age") == Ok(Text("Under 18"))
    ensures CrossTabLabel(v, "age") == Ok(Text(Unknown))
  {
    MissingAttributePolicy(v, "age");
  }

  /** Away from a missing or non-integer age, both charts label a vote alike. */
  lemma LabelsAgree(v: Vote, attribute: string)
    requires attribute != "age" || ("age" in v.attributes && v.attributes["age"].Num?)
    ensures CrossTabLabel(v, attribute) == DistributionLabel(v, attribute)
  {
  }

  predicate AllLabelled(votes: seq<Vote>, attribute: string)
  {
    forall i :: 0 <= i < |votes| ==> CrossTabLabel(votes[i], attribute).Ok?
  }

  /** The `data` list once every label is known. */
  function Pairs(votes: seq<Vote>, attribute: string): (data: seq<Pair>)
    requires AllLabelled(votes, attribute)
    ensures |data| == |votes|
    ensures forall i :: 0 <= i < |votes| ==> data[i] == (CrossTabLabel(votes[i], attribute).value, votes[i].candidateName)
  {
    seq(|votes|, i requires 0 <= i < |votes| && AllLabelled(votes, attribute) =>
      (CrossTabLabel(votes[i], attribute).value, votes[i].candidateName))
  }

  /**
   Lines 128-133: one `(label, candidate)` pair appended per vote, in order;
   the first label that `process_age` cannot compute raises and ends the call.
   */
  method CollectPairs(votes: seq<Vote>, attribute: string) returns (r: Result<seq<Pair>>)
    ensures r.Ok? <==> AllLabelled(votes, attribute)
    ensures r.Ok? ==> |r.value| == |votes|
    ensures r.Ok? ==> forall i :: 0 <= i < |votes| ==>
                        r.value[i] == (CrossTabLabel(votes[i], attribute).value, votes[i].candidateName)
    ensures r.Err? ==> exists i :: 0 <= i < |votes| && CrossTabLabel(votes[i], attribute) == Err(r.error)
                                   && (forall j :: 0 <= j < i ==> CrossTabLabel(votes[j], attribute).Ok?)
  {
    var data: seq<Pair> := [];
    var i := 0;
    while i < |votes|
      invariant 0 <= i <= |votes|
      invariant |data| == i
      invariant forall j :: 0 <= j < i ==> CrossTabLabel(votes[j], attribute).Ok?
      invariant forall j :: 0 <= j < i ==> data[j] == (CrossTabLabel(votes[j], attribute).value, votes[j].candidateName)
    {
      var v := votes[i];
      var value := Get(v.attributes, attribute, Text(Unknown));
      if attribute == "age" {
        var processed := ProcessAge(value);
        if processed.Err? {
          return Err(processed.error);
        }
        value := Text(processed.value);
      }
      data := data + [(value, v.candidateName)];
      i := i + 1;
    }
    return Ok(data);
  }

  // ----- grouping and pivoting -----

  /** The pairs that reach the table: pandas' `groupby` drops a `None` key. */
  function Kept(data: seq<Pair>): seq<Pair>
  {
    if data == [] then []
    else
      Kept(data[..|data| - 1]) + (if data[|data| - 1].0 != Null then [data[|data| - 1]] else [])
  }

  /** One more pair is kept exactly when its label is not `None`. */
  lemma KeptSnoc(data: seq<Pair>, p: Pair)
    ensures p.0 != Null ==> Kept(data + [p]) == Kept(data) + [p]
    ensures p.0 == Null ==> Kept(data + [p]) == Kept(data)
  {
    assert (data + [p])[..|data|] == data;
  }

  /** The kept pairs are those whose label is not `None`. */
  lemma {:induction false} KeptMembers(data: seq<Pair>)
    ensures forall p :: p in Kept(data) <==> p in data && p.0 != Null
  {
    if data != [] {
      var init, last := data[..|data| - 1], data[|data| - 1];
      KeptMembers(init);
      assert data == init + [last];
      KeptSnoc(init, last);
    }
  }

  /** No kept pair has a `None` label. */
  lemma KeptLabels(data: seq<Pair>)
    ensures forall l :: l in Firsts(Kept(data)) ==> l != Null && l in Firsts(data)
  {
    var kept := Kept(data);
    KeptMembers(data);
    forall l | l in Firsts(kept)
      ensures l != Null && l in Firsts(data)
    {
      var i :| 0 <= i < |kept| && Firsts(kept)[i] == l;
      assert kept[i] in data;
      var j :| 0 <= j < |data| && data[j] == kept[i];
      assert Firsts(data)[j] == l;
    }
  }

  /** Dropping the `None` labels leaves the count of every other label alone. */
  lemma {:induction false} KeptFirsts(data: seq<Pair>, l: AttrVal)
    requires l != Null
    ensures Occurrences(Firsts(Kept(data)), l) == Occurrences(Firsts(data), l)
  {
    if data != [] {
      var init, last := data[..|data| - 1], data[|data| - 1];
      KeptFirsts(init, l);
      assert data == init + [last];
      KeptSnoc(init, last);
      FirstsAppend(init, last);
      OccurrencesAppend(Firsts(init), last.0, l);
      if last.0 != Null {
        FirstsAppend(Kept(init), last);
        OccurrencesAppend(Firsts(Kept(init)), last.0, l);
      }
    }
  }

  /** With no `None` label nothing is dropped. */
  lemma {:induction false} KeptAll(data: seq<Pair>)
    requires forall i :: 0 <= i < |data| ==> data[i].0 != Null
    ensures Kept(data) == data
  {
    if data != [] {
      var init, last := data[..|data| - 1], data[|data| - 1];
      KeptAll(init);
      assert data == init + [last];
      KeptSnoc(init, last);
    }
  }

  /** The pivoted table: row labels, candidate columns and one count per cell. */
  datatype Table = Table(rows: seq<AttrVal>, columns: seq<string>, cells: map<Pair, nat>)

  /** Every row has a cell under every column (the `fillna(0)` leaves no hole). */
  ghost predicate Complete(t: Table)
  {
    forall l, c :: l in t.rows && c in t.columns ==> (l, c) in t.cells
  }

  /**
   `t` is the count table of `data`: one row per distinct label that is not
   `None`, one column per candidate of such a pair, and in every cell the
   number of pairs that name both.
   */
  ghost predicate Tabulates(t: Table, data: seq<Pair>)
  {
    && NoDuplicates(t.rows)
    && NoDuplicates(t.columns)
    && (forall l :: l in t.rows <==> l in Firsts(Kept(data)))
    && (forall c :: c in t.columns <==> c in Seconds(Kept(data)))
    && Complete(t)
    && (forall l, c :: l in t.rows && c in t.columns ==> t.cells[(l, c)] == Occurrences(data, (l, c)))
  }

  /** `vote_counts.sum(axis=1)` at one row. */
  function RowTotal(t: Table, l: AttrVal): nat
    requires forall c :: c in t.columns ==> (l, c) in t.cells
  {
    SumOver(Row(l, t.columns), t.cells)
  }

  /** The sum of one candidate's column. */
  function ColumnTotal(t: Table, c: string): nat
    requires forall l :: l in t.rows ==> (l, c) in t.cells
  {
    SumOver(Column(t.rows, c), t.cells)
  }

  /**
   Lines 136-140: `groupby([label, candidate]).size()` gives the count of each
   pair that occurs, `pivot` spreads them over a label-by-candidate grid and
   `fillna(0)` puts 0 in every cell no pair reached.
   */
  method Pivot(data: seq<Pair>) returns (t: Table)
    ensures Tabulates(t, data)
  {
    var rows, columns, sizes := GroupSizes(data);
    KeptMembers(data);
    var cells := FillGrid(data, rows, columns, sizes);
    t := Table(rows, columns, cells);
  }

  /**
   `groupby([label, candidate]).size()`: the pairs that occur with a label
   other than `None`, with their counts, and their labels and candidates in
   order of first appearance.
   */
  method GroupSizes(data: seq<Pair>) returns (rows: seq<AttrVal>, columns: seq<string>, sizes: map<Pair, nat>)
    ensures NoDuplicates(rows) && NoDuplicates(columns)
    ensures forall l :: l in rows <==> l in Firsts(Kept(data))
    ensures forall c :: c in columns <==> c in Seconds(Kept(data))
    ensures forall p :: p in sizes <==> p in Kept(data)
    ensures forall p :: p in sizes ==> sizes[p] == Occurrences(data, p)
  {
    rows, columns, sizes := [], [], map[];
    var i := 0;
    while i < |data|
      invariant 0 <= i <= |data|
      invariant GroupedSoFar(data[..i], rows, columns, sizes)
    {
      assert data[..i + 1] == data[..i] + [data[i]];
      rows, columns, sizes := GroupOne(data[..i], data[i], rows, columns, sizes);
      i := i + 1;
    }
    assert data[..i] == data;
  }

  /** The group keys and sizes of `groupby` after the pairs `seen`. */
  ghost predicate GroupedSoFar(seen: seq<Pair>, rows: seq<AttrVal>, columns: seq<string>, sizes: map<Pair, nat>)
  {
    && NoDuplicates(rows) && NoDuplicates(columns)
    && (forall l :: l in rows <==> l in Firsts(Kept(seen)))
    && (forall c :: c in columns <==> c in Seconds(Kept(seen)))
    && (forall p :: p in sizes <==> p in Kept(seen))
    && (forall p :: p in sizes ==> sizes[p] == Occurrences(seen, p))
  }

  /** One more pair: a new label or candidate is appended to the keys, and its group grows by one. */
  method GroupOne(seen: seq<Pair>, p: Pair, rows: seq<AttrVal>, columns: seq<string>, sizes: map<Pair, nat>)
    returns (rows': seq<AttrVal>, columns': seq<string>, sizes': map<Pair, nat>)
    requires GroupedSoFar(seen, rows, columns, sizes)
    ensures GroupedSoFar(seen + [p], rows', columns', sizes')
  {
    rows', columns', sizes' := rows, columns, sizes;
    KeptSnoc(seen, p);
    if p.0 != Null {
      KeptStepMembership(seen, p);
      if p.0 !in rows {
        rows' := rows + [p.0];
      }
      if p.1 !in columns {
        columns' := columns + [p.1];
      }
      sizes' := sizes[p := if p in sizes then sizes[p] + 1 else 1];
    }
    SizesStep(seen, p, sizes, sizes');
  }

  /** The group sizes after one more pair: its own group grows by one unless its label is `None`. */
  lemma SizesStep(seen: seq<Pair>, p: Pair, sizes: map<Pair, nat>, sizes': map<Pair, nat>)
    requires forall q :: q in sizes <==> q in Kept(seen)
    requires forall q :: q in sizes ==> sizes[q] == Occurrences(seen, q)
    requires sizes' == if p.0 != Null then sizes[p := if p in sizes then sizes[p] + 1 else 1] else sizes
    ensures forall q :: q in sizes' <==> q in Kept(seen + [p])
    ensures forall q :: q in sizes' ==> sizes'[q] == Occurrences(seen + [p], q)
  {
    KeptSnoc(seen, p);
    KeptMembers(seen);
    forall q | q in sizes'
      ensures sizes'[q] == Occurrences(seen + [p], q)
    {
      OccurrencesAppend(seen, p, q);
    }
  }

  lemma KeptStepMembership(before: seq<Pair>, p: Pair)
    requires Kept(before + [p]) == Kept(before) + [p]
    ensures forall l :: l in Firsts(Kept(before + [p])) <==> l in Firsts(Kept(before)) || l == p.0
    ensures forall c :: c in Seconds(Kept(before + [p])) <==> c in Seconds(Kept(before)) || c == p.1
  {
    FirstsAppend(Kept(before), p);
  }

  /** `pivot(...).fillna(0)`: a cell for every row against every column, 0 where no pair occurs. */
  method FillGrid(data: seq<Pair>, rows: seq<AttrVal>, columns: seq<string>, sizes: map<Pair, nat>)
    returns (cells: map<Pair, nat>)
    requires Null !in rows
    requires forall p :: p in sizes <==> p in data && p.0 != Null
    requires forall p :: p in sizes ==> sizes[p] == Occurrences(data, p)
    ensures forall p :: p in cells <==> p.0 in rows && p.1 in columns
    ensures forall p :: p in cells ==> cells[p] == Occurrences(data, p)
  {
    cells := map[];
    var a := 0;
    while a < |rows|
      invariant 0 <= a <= |rows|
      invariant forall p :: p in cells <==> p.0 in rows[..a] && p.1 in columns
      invariant forall p :: p in cells ==> cells[p] == Occurrences(data, p)
    {
      var b := 0;
      while b < |columns|
        invariant 0 <= b <= |columns|
        invariant forall p :: p in cells <==> (p.0 in rows[..a] && p.1 in columns) || (p.0 == rows[a] && p.1 in columns[..b])
        invariant forall p :: p in cells ==> cells[p] == Occurrences(data, p)
      {
        var p := (rows[a], columns[b]);
        cells := cells[p := if p in sizes then sizes[p] else 0];
        assert columns[..b + 1] == columns[..b] + [columns[b]];
        b := b + 1;
      }
      assert columns[..b] == columns;
      assert rows[..a + 1] == rows[..a] + [rows[a]];
      a := a + 1;
    }
    assert rows[..a] == rows;
  }

  /** Line 143: the total of every row, `vote_counts.sum(axis=1)`. */
  method RowTotals(t: Table) returns (totals: map<AttrVal, nat>)
    requires Complete(t)
    ensures forall l :: l in totals <==> l in t.rows
    ensures forall l :: l in totals ==> totals[l] == RowTotal(t, l)
  {
    totals := map[];
    var a := 0;
    while a < |t.rows|
      invariant 0 <= a <= |t.rows|
      invariant forall l :: l in totals <==> l in t.rows[..a]
      invariant forall l :: l in totals ==> totals[l] == RowTotal(t, l)
    {
      var l := t.rows[a];
      var sum := 0;
      var b := 0;
      while b < |t.columns|
        invariant 0 <= b <= |t.columns|
        invariant sum == SumOver(Row(l, t.columns[..b]), t.cells)
      {
        assert Row(l, t.columns[..b + 1])[..b] == Row(l, t.columns[..b]);
        sum := sum + t.cells[(l, t.columns[b])];
        b := b + 1;
      }
      assert t.columns[..b] == t.columns;
      totals := totals[l := sum];
      assert t.rows[..a + 1] == t.rows[..a] + [l];
      a := a + 1;
    }
    assert t.rows[..a] == t.rows;
  }

  predicate NonIncreasing(rows: seq<AttrVal>, totals: map<AttrVal, nat>)
    requires forall l :: l in rows ==> l in totals
  {
    forall i, j :: 0 <= i < j < |rows| ==> totals[rows[i]] >= totals[rows[j]]
  }

  /**
   Line 144: `sort_values("Total", ascending=False)`, the rows reordered so
   that their totals never increase. Which of two equal rows comes first is
   pandas' choice and is left open here.
   */
  method SortByTotalDescending(rows: seq<AttrVal>, totals: map<AttrVal, nat>) returns (sorted: seq<AttrVal>)
    requires NoDuplicates(rows)
    requires forall l :: l in rows ==> l in totals
    ensures multiset(sorted) == multiset(rows)
    ensures NoDuplicates(sorted)
    ensures forall l :: l in sorted <==> l in rows
    ensures NonIncreasing(sorted, totals)
  {
    sorted := [];
    var i := 0;
    while i < |rows|
      invariant 0 <= i <= |rows|
      invariant SortedSoFar(rows[..i], sorted, totals)
    {
      var x := rows[i];
      var k := FindSlot(sorted, totals, x);
      assert rows[..i + 1] == rows[..i] + [x];
      assert x !in rows[..i] by {
        assert forall j :: 0 <= j < i ==> rows[..i][j] == rows[j];
      }
      InsertOne(rows[..i], sorted, totals, x, k);
      sorted := sorted[..k] + [x] + sorted[k..];
      i := i + 1;
    }
    assert rows[..i] == rows;
  }

  /** The first place in `sorted` whose total is smaller than that of `x`, or its end. */
  method FindSlot(sorted: seq<AttrVal>, totals: map<AttrVal, nat>, x: AttrVal) returns (k: int)
    requires x in totals && forall l :: l in sorted ==> l in totals
    ensures 0 <= k <= |sorted|
    ensures forall j :: 0 <= j < k ==> totals[sorted[j]] >= totals[x]
    ensures k < |sorted| ==> totals[sorted[k]] < totals[x]
  {
    k := 0;
    while k < |sorted| && totals[sorted[k]] >= totals[x]
      invariant 0 <= k <= |sorted|
      invariant forall j :: 0 <= j < k ==> totals[sorted[j]] >= totals[x]
    {
      k := k + 1;
    }
  }

  /** `sorted` holds the rows `seen` once each, by non-increasing total. */
  ghost predicate SortedSoFar(seen: seq<AttrVal>, sorted: seq<AttrVal>, totals: map<AttrVal, nat>)
  {
    && multiset(sorted) == multiset(seen)
    && NoDuplicates(sorted)
    && (forall l :: l in sorted <==> l in seen)
    && (forall l :: l in sorted ==> l in totals)
    && NonIncreasing(sorted, totals)
  }

  /** Inserting one more row in front of the first smaller total. */
  lemma InsertOne(seen: seq<AttrVal>, sorted: seq<AttrVal>, totals: map<AttrVal, nat>, x: AttrVal, k: int)
    requires SortedSoFar(seen, sorted, totals)
    requires x in totals && x !in seen
    requires 0 <= k <= |sorted|
    requires forall j :: 0 <= j < k ==> totals[sorted[j]] >= totals[x]
    requires k < |sorted| ==> totals[sorted[k]] < totals[x]
    ensures SortedSoFar(seen + [x], sorted[..k] + [x] + sorted[k..], totals)
  {
    InsertKeepsOrder(sorted, totals, x, k);
    InsertKeepsElements(sorted, x, k);
  }

  lemma InsertKeepsElements(sorted: seq<AttrVal>, x: AttrVal, k: int)
    requires 0 <= k <= |sorted|
    ensures multiset(sorted[..k] + [x] + sorted[k..]) == multiset(sorted) + multiset{x}
    ensures forall l :: l in sorted[..k] + [x] + sorted[k..] <==> l in sorted || l == x
  {
    assert sorted == sorted[..k] + sorted[k..];
  }

  /** Inserting a row at the first place whose total is smaller keeps the order and the rows distinct. */
  lemma InsertKeepsOrder(sorted: seq<AttrVal>, totals: map<AttrVal, nat>, x: AttrVal, k: int)
    requires x in totals && forall l :: l in sorted ==> l in totals
    requires NoDuplicates(sorted) && x !in sorted
    requires NonIncreasing(sorted, totals)
    requires 0 <= k <= |sorted|
    requires forall j :: 0 <= j < k ==> totals[sorted[j]] >= totals[x]
    requires k < |sorted| ==> totals[sorted[k]] < totals[x]
    ensures NoDuplicates(sorted[..k] + [x] + sorted[k..])
    ensures NonIncreasing(sorted[..k] + [x] + sorted[k..], totals)
  {
    var s := sorted[..k] + [x] + sorted[k..];
    assert forall j :: 0 <= j < |s| ==> s[j] == if j < k then sorted[j] else if j == k then x else sorted[j - 1];
  }

  /** The rows are ordered by non-increasing total. */
  ghost predicate SortedByRowTotal(t: Table)
    requires Complete(t)
  {
    forall i, j :: 0 <= i < j < |t.rows| ==> RowTotal(t, t.rows[i]) >= RowTotal(t, t.rows[j])
  }

  /**
   Lines 143-144 as written: the row totals are stored as a column named
   "Total" and that column is dropped after the sort. When a candidate is
   itself called "Total", the assignment overwrites that candidate's column
   and the drop then removes it, so the columns that remain are the
   candidates other than "Total".
   */
  function DropTotalAsWritten(columns: seq<string>): (shown: seq<string>)
    ensures forall c :: c in shown <==> c in columns && c != "Total"
  {
    if columns == [] then []
    else
      assert columns == columns[..|columns| - 1] + [columns[|columns| - 1]];
      DropTotalAsWritten(columns[..|columns| - 1])
        + (if columns[|columns| - 1] != "Total" then [columns[|columns| - 1]] else [])
  }

  /**
   The table of the grouped bar chart (lines 128-144), with the helper total
   kept apart from the candidate columns, so that only it is removed: the
   rows are the labels ordered by non-increasing total, the columns every
   candidate, the cells the pair counts. The first label that cannot be
   computed raises; once the pairs are collected, an attribute column that
   clashes with "Candidate", "Votes" or "Total" raises `ValueError`.
   */
  method GroupedBarTable(votes: seq<Vote>, attribute: string) returns (r: Result<Table>)
    ensures r.Ok? <==> AllLabelled(votes, attribute) && !ColumnClash(attribute)
    ensures !AllLabelled(votes, attribute) ==>
              r.Err? && exists i :: 0 <= i < |votes| && CrossTabLabel(votes[i], attribute) == Err(r.error)
                                    && (forall j :: 0 <= j < i ==> CrossTabLabel(votes[j], attribute).Ok?)
    ensures AllLabelled(votes, attribute) && ColumnClash(attribute) ==> r == Err(ValueError(Capitalize(attribute)))
    ensures r.Ok? ==> Tabulates(r.value, Pairs(votes, attribute))
    ensures r.Ok? ==> SortedByRowTotal(r.value)
  {
    var collected := CollectPairs(votes, attribute);
    if collected.Err? {
      return Err(collected.error);
    }
    if ColumnClash(attribute) {
      return Err(ValueError(Capitalize(attribute)));
    }
    var data := collected.value;
    assert data == Pairs(votes, attribute);
    var t := Pivot(data);
    var totals := RowTotals(t);
    var rows := SortByTotalDescending(t.rows, totals);
    ReorderRows(t, data, rows, totals);
    return Ok(Table(rows, t.columns, t.cells));
  }

  /** Putting the rows of a count table in order of their totals keeps it the count table, now sorted. */
  lemma ReorderRows(t: Table, data: seq<Pair>, rows: seq<AttrVal>, totals: map<AttrVal, nat>)
    requires Tabulates(t, data)
    requires NoDuplicates(rows) && forall l :: l in rows <==> l in t.rows
    requires forall l :: l in totals <==> l in t.rows
    requires forall l :: l in totals ==> totals[l] == RowTotal(t, l)
    requires NonIncreasing(rows, totals)
    ensures Tabulates(Table(rows, t.columns, t.cells), data)
    ensures SortedByRowTotal(Table(rows, t.columns, t.cells))
  {
    var sorted := Table(rows, t.columns, t.cells);
    forall l | l in rows
      ensures RowTotal(sorted, l) == totals[l]
    {
    }
  }

  // ----- what the table says -----

  /** Each row totals the number of pairs with that label. */
  lemma RowTotalsCountLabels(t: Table, data: seq<Pair>, l: AttrVal)
    requires Tabulates(t, data)
    requires l in t.rows
    ensures RowTotal(t, l) == Occurrences(Firsts(data), l)
  {
    var kept := Kept(data);
    KeptLabels(data);
    KeptMembers(data);
    assert l != Null;
    forall c | c in t.columns
      ensures t.cells[(l, c)] == Occurrences(kept, (l, c))
    {
      assert (l, c) in kept <==> (l, c) in data;
      KeptPairCount(data, (l, c));
    }
    forall k | k in Row(l, t.columns)
      ensures k in t.cells && t.cells[k] == Occurrences(kept, k)
    {
    }
    SumOverCounts(Row(l, t.columns), t.cells, kept);
    RowMargin(kept, l, t.columns);
    KeptFirsts(data, l);
  }

  /** Each candidate's column totals the number of kept pairs naming it. */
  lemma ColumnTotalsCountCandidates(t: Table, data: seq<Pair>, c: string)
    requires Tabulates(t, data)
    requires c in t.columns
    ensures ColumnTotal(t, c) == Occurrences(Seconds(Kept(data)), c)
  {
    var kept := Kept(data);
    KeptLabels(data);
    forall l | l in t.rows
      ensures t.cells[(l, c)] == Occurrences(kept, (l, c))
    {
      KeptPairCount(data, (l, c));
    }
    forall k | k in Column(t.rows, c)
      ensures k in t.cells && t.cells[k] == Occurrences(kept, k)
    {
    }
    SumOverCounts(Column(t.rows, c), t.cells, kept);
    ColumnMargin(kept, t.rows, c);
  }

  lemma {:induction false} KeptPairCount(data: seq<Pair>, p: Pair)
    requires p.0 != Null
    ensures Occurrences(Kept(data), p) == Occurrences(data, p)
  {
    if data != [] {
      var init, last := data[..|data| - 1], data[|data| - 1];
      KeptPairCount(init, p);
      assert data == init + [last];
      KeptSnoc(init, last);
      OccurrencesAppend(init, last, p);
      if last.0 != Null {
        OccurrencesAppend(Kept(init), last, p);
      }
    }
  }

  /**
   When every vote's age is an integer (or the chart is not of ages), the pie
   chart of the attribute can be drawn and each row of the table totals that
   label's slice of it.
   */
  lemma RowTotalsMatchDistribution(votes: seq<Vote>, attribute: string, t: Table, l: AttrVal)
    requires forall i :: 0 <= i < |votes| ==>
               attribute != "age" || ("age" in votes[i].attributes && votes[i].attributes["age"].Num?)
    requires AllLabelled(votes, attribute)
    requires Tabulates(t, Pairs(votes, attribute))
    requires l in t.rows
    ensures AttributeDistribution(votes, attribute).Ok?
    ensures l in AttributeDistribution(votes, attribute).value
    ensures RowTotal(t, l) == AttributeDistribution(votes, attribute).value[l]
  {
    var data := Pairs(votes, attribute);
    forall i | 0 <= i < |votes|
      ensures CrossTabLabel(votes[i], attribute) == DistributionLabel(votes[i], attribute)
    {
      LabelsAgree(votes[i], attribute);
    }
    var labels := DistributionLabels(votes, attribute).value;
    forall i | 0 <= i < |votes|
      ensures Firsts(data)[i] == labels[i]
    {
    }
    assert Firsts(data) == labels;
    RowTotalsCountLabels(t, data, l);
    KeptLabels(data);
    assert l in labels;
    var i :| 0 <= i < |labels| && labels[i] == l;
    assert DistributionLabel(votes[i], attribute) == Ok(l);
  }

  /**
   When no vote has a `None` label, the columns are exactly the candidates of
   the bar chart and each column totals that candidate's bar.
   */
  lemma ColumnTotalsMatchTally(votes: seq<Vote>, attribute: string, t: Table)
    requires AllLabelled(votes, attribute)
    requires Tabulates(t, Pairs(votes, attribute))
    requires forall i :: 0 <= i < |votes| ==> CrossTabLabel(votes[i], attribute).value != Null
    ensures forall c :: c in t.columns <==> c in CandidateTally(votes)
    ensures forall c :: c in t.columns ==> ColumnTotal(t, c) == CandidateTally(votes)[c]
  {
    var data := Pairs(votes, attribute);
    assert Kept(data) == data by {
      KeptAll(data);
    }
    PairsNames(votes, attribute);
    forall c | c in t.columns
      ensures ColumnTotal(t, c) == CandidateTally(votes)[c]
    {
      ColumnTotalsCountCandidates(t, data, c);
    }
  }

  /** The candidates of the `data` list are those of the votes, in order. */
  lemma PairsNames(votes: seq<Vote>, attribute: string)
    requires AllLabelled(votes, attribute)
    ensures Seconds(Pairs(votes, attribute)) == Names(votes)
  {
  }

  /** The labels and candidates of the kept pairs are read off the pairs themselves. */
  lemma KeptMargins(data: seq<Pair>)
    ensures forall l :: l in Firsts(Kept(data)) <==> l != Null && exists p :: p in data && p.0 == l
    ensures forall c :: c in Seconds(Kept(data)) <==> exists p :: p in data && p.0 != Null && p.1 == c
  {
    var kept := Kept(data);
    KeptMembers(data);
    forall l
      ensures l in Firsts(kept) <==> l != Null && exists p :: p in data && p.0 == l
    {
      if l in Firsts(kept) {
        var i :| 0 <= i < |kept| && Firsts(kept)[i] == l;
        assert kept[i] in data;
      }
      if l != Null && exists p :: p in data && p.0 == l {
        var p :| p in data && p.0 == l;
        assert p in kept;
        var i :| 0 <= i < |kept| && kept[i] == p;
        assert Firsts(kept)[i] == l;
      }
    }
    forall c
      ensures c in Seconds(kept) <==> exists p :: p in data && p.0 != Null && p.1 == c
    {
      if c in Seconds(kept) {
        var i :| 0 <= i < |kept| && Seconds(kept)[i] == c;
        assert kept[i] in data;
      }
      if exists p :: p in data && p.0 != Null && p.1 == c {
        var p :| p in data && p.0 != Null && p.1 == c;
        assert p in kept;
        var i :| 0 <= i < |kept| && kept[i] == p;
        assert Seconds(kept)[i] == c;
      }
    }
  }

  /** The count table depends only on which pairs there are and how often, not on their order. */
  lemma TabulatesPermutationInvariant(t: Table, data: seq<Pair>, data': seq<Pair>)
    requires multiset(data) == multiset(data')
    ensures Tabulates(t, data) <==> Tabulates(t, data')
  {
    forall p
      ensures p in data <==> p in data'
      ensures Occurrences(data, p) == Occurrences(data', p)
    {
      assert p in data <==> p in multiset(data);
      assert p in data' <==> p in multiset(data');
      OccurrencesIsMultiplicity(data, p);
      OccurrencesIsMultiplicity(data', p);
    }
    KeptMargins(data);
    KeptMargins(data');
  }

  /** A vote's pair where its label can be computed. */
  function PairOf(attribute: string): Vote -> Pair
  {
    (v: Vote) => (if CrossTabLabel(v, attribute).Ok? then CrossTabLabel(v, attribute).value else Null, v.candidateName)
  }

  /**
   Reordering the votes neither makes the grouped bar table fail nor succeed,
   and a table that counts the pairs of one order counts those of the other.
   */
  lemma GroupedBarTablePermutationInvariant(votes: seq<Vote>, votes': seq<Vote>, attribute: string, t: Table)
    requires multiset(votes) == multiset(votes')
    ensures AllLabelled(votes, attribute) <==> AllLabelled(votes', attribute)
    ensures AllLabelled(votes, attribute) ==>
              (Tabulates(t, Pairs(votes, attribute)) <==> Tabulates(t, Pairs(votes', attribute)))
  {
    forall v
      ensures v in votes <==> v in votes'
    {
      assert v in votes <==> v in multiset(votes);
      assert v in votes' <==> v in multiset(votes');
    }
    if AllLabelled(votes, attribute) {
      assert AllLabelled(votes', attribute) by {
        forall i | 0 <= i < |votes'|
          ensures CrossTabLabel(votes'[i], attribute).Ok?
        {
          assert votes'[i] in votes;
        }
      }
      assert Pairs(votes, attribute) == MapSeq(PairOf(attribute), votes);
      assert Pairs(votes', attribute) == MapSeq(PairOf(attribute), votes');
      MapSeqPermutation(PairOf(attribute), votes, votes');
      TabulatesPermutationInvariant(t, Pairs(votes, attribute), Pairs(votes', attribute));
    } else if AllLabelled(votes', attribute) {
      forall i | 0 <= i < |votes|
        ensures CrossTabLabel(votes[i], attribute).Ok?
      {
        assert votes[i] in votes';
      }
    }
  }

  /**
   As written, a candidate called "Total" is counted in the table and yet
   missing from the chart: its votes are in the tally, its column is dropped.
   */
  lemma TotalCandidateVanishes(votes: seq<Vote>, attribute: string, t: Table, i: int)
    requires AllLabelled(votes, attribute)
    requires Tabulates(t, Pairs(votes, attribute))
    requires 0 <= i < |votes| && votes[i].candidateName == "Total"
    requires CrossTabLabel(votes[i], attribute).value != Null
    ensures "Total" in CandidateTally(votes)
    ensures "Total" in t.columns && ColumnTotal(t, "Total") >= 1
    ensures "Total" !in DropTotalAsWritten(t.columns)
  {
    var data := Pairs(votes, attribute);
    KeptMembers(data);
    assert data[i] in Kept(data);
    assert "Total" in Seconds(Kept(data));
    ColumnTotalsCountCandidates(t, data, "Total");
  }
}
