/**
 The one-dimensional tables of src/visualization.py: votes per candidate
 (`plot_candidate_distribution`) and votes per value of one attribute
 (`plot_attribute_distribution`). Each is a `Counter` over one label per
 vote; the drawing that follows is not modelled.
 */
module Tallies {
  import opened Datatype
  import opened AgeBands
  import opened Counting

  function CandidateOf(v: Vote): string
  {
    v.candidateName
  }

  /** `[v['candidate_name'] for v in votes]`. */
  function Names(votes: seq<Vote>): seq<string>
  {
    MapSeq(CandidateOf, votes)
  }

  /**
   `Counter(v['candidate_name'] for v in votes)`: its keys are exactly the
   candidates that some vote names, and none of them counts zero.
   */
  function CandidateTally(votes: seq<Vote>): (tally: map<string, nat>)
    ensures forall c :: c in tally <==> exists i :: 0 <= i < |votes| && votes[i].candidateName == c
    ensures forall c :: c in tally ==> 1 <= tally[c] <= |votes|
  {
    Tally(Names(votes))
  }

  /** Each candidate's count is the number of votes that name it. */
  lemma CandidateTallyCounts(votes: seq<Vote>, c: string)
    requires c in CandidateTally(votes)
    ensures CandidateTally(votes)[c] == |set i | 0 <= i < |votes| && votes[i].candidateName == c|
  {
    OccurrencesArePositions(Names(votes), c);
    assert Positions(Names(votes), c) == set i | 0 <= i < |votes| && votes[i].candidateName == c;
  }

  /** Summed over the candidates, in the order the `Counter` lists them, the counts give the number of votes. */
  lemma CandidateTallySumsToLength(votes: seq<Vote>)
    ensures SumOver(Distinct(Names(votes)), CandidateTally(votes)) == |votes|
  {
    TallySumsToLength(Names(votes));
  }

  /** Reordering the votes leaves the tally unchanged. */
  lemma CandidateTallyPermutationInvariant(votes: seq<Vote>, votes': seq<Vote>)
    requires multiset(votes) == multiset(votes')
    ensures CandidateTally(votes) == CandidateTally(votes')
  {
    MapSeqPermutation(CandidateOf, votes, votes');
    TallyPermutationInvariant(Names(votes), Names(votes'));
  }

  // ----- plot_attribute_distribution -----

  /**
   The label one vote adds to the pie chart of `attribute`: for `"age"` the
   band of the stored value, a missing age read as -1; for any other
   attribute the stored value itself, a missing one read as `"Unknown"`.
   */
  function DistributionLabel(v: Vote, attribute: string): Result<AttrVal>
  {
    if attribute == "age" then
      match AgeRangeOf(Get(v.attributes, attribute, Num(-1)))
      case Ok(band) => Ok(Text(band))
      case Err(e) => Err(e)
    else
      Ok(Get(v.attributes, attribute, Text(Unknown)))
  }

  /** A missing age lands in "Under 18"; any other missing attribute in "Unknown". */
  lemma MissingAttributePolicy(v: Vote, attribute: string)
    requires attribute !in v.attributes
    ensures attribute == "age" ==> DistributionLabel(v, attribute) == Ok(Text("Under 18"))
    ensures attribute != "age" ==> DistributionLabel(v, attribute) == Ok(Text(Unknown))
  {
    AgeRangeBoundaries();
  }

  /** Only an age that is not an integer stops the pie chart, and then with the offending value. */
  lemma DistributionLabelFailure(v: Vote, attribute: string)
    ensures DistributionLabel(v, attribute).Err? <==>
              attribute == "age" && "age" in v.attributes && !v.attributes["age"].Num?
    ensures DistributionLabel(v, attribute).Err? ==>
              DistributionLabel(v, attribute).error == TypeError(v.attributes["age"])
  {
  }

  /**
   The labels of all votes in order, or the error of the first vote whose
   label cannot be computed: the `Counter` consumes its generator left to
   right and the first `TypeError` ends it.
   */
  function DistributionLabels(votes: seq<Vote>, attribute: string): (r: Result<seq<AttrVal>>)
    ensures r.Ok? <==> forall i :: 0 <= i < |votes| ==> DistributionLabel(votes[i], attribute).Ok?
    ensures r.Ok? ==> |r.value| == |votes|
    ensures r.Ok? ==> forall i :: 0 <= i < |votes| ==> DistributionLabel(votes[i], attribute) == Ok(r.value[i])
    ensures r.Err? ==> exists i :: 0 <= i < |votes| && DistributionLabel(votes[i], attribute) == Err(r.error)
                                   && (forall j :: 0 <= j < i ==> DistributionLabel(votes[j], attribute).Ok?)
  {
    if votes == [] then Ok([])
    else
      match DistributionLabel(votes[0], attribute)
      case Err(e) => Err(e)
      case Ok(first) =>
        match DistributionLabels(votes[1..], attribute)
        case Err(e) =>
          assert forall i :: 1 <= i < |votes| ==> votes[i] == votes[1..][i - 1];
          Err(e)
        case Ok(rest) =>
          assert forall i :: 1 <= i < |votes| ==> votes[i] == votes[1..][i - 1];
          Ok([first] + rest)
  }

  /**
   `Counter` of the labels (lines 65 and 68): its keys are exactly the labels
   the votes produce; it fails exactly when some vote's label fails.
   */
  function AttributeDistribution(votes: seq<Vote>, attribute: string): (r: Result<map<AttrVal, nat>>)
    ensures r.Ok? <==> forall i :: 0 <= i < |votes| ==> DistributionLabel(votes[i], attribute).Ok?
    ensures r.Ok? ==> forall l :: l in r.value <==>
              exists i :: 0 <= i < |votes| && DistributionLabel(votes[i], attribute) == Ok(l)
    ensures attribute != "age" ==> r.Ok?
  {
    match DistributionLabels(votes, attribute)
    case Ok(labels) => Ok(Tally(labels))
    case Err(e) => Err(e)
  }

  /** Every vote adds exactly one count: the counts sum to the number of votes. */
  lemma AttributeDistributionSumsToLength(votes: seq<Vote>, attribute: string)
    requires AttributeDistribution(votes, attribute).Ok?
    ensures SumOver(Distinct(DistributionLabels(votes, attribute).value),
                    AttributeDistribution(votes, attribute).value) == |votes|
  {
    TallySumsToLength(DistributionLabels(votes, attribute).value);
  }

  /** Each label's count is the number of votes that produce it. */
  lemma AttributeDistributionCounts(votes: seq<Vote>, attribute: string, l: AttrVal)
    requires AttributeDistribution(votes, attribute).Ok?
    requires l in AttributeDistribution(votes, attribute).value
    ensures AttributeDistribution(votes, attribute).value[l]
         == |set i | 0 <= i < |votes| && DistributionLabel(votes[i], attribute) == Ok(l)|
  {
    var labels := DistributionLabels(votes, attribute).value;
    OccurrencesArePositions(labels, l);
    LabelPositions(votes, attribute, labels, l);
  }

  lemma LabelPositions(votes: seq<Vote>, attribute: string, labels: seq<AttrVal>, l: AttrVal)
    requires |labels| == |votes|
    requires forall i :: 0 <= i < |votes| ==> DistributionLabel(votes[i], attribute) == Ok(labels[i])
    ensures Positions(labels, l) == set i | 0 <= i < |votes| && DistributionLabel(votes[i], attribute) == Ok(l)
  {
  }

  /** A vote's label where it can be computed, `None` where it cannot. */
  function LabelOrNull(attribute: string): Vote -> AttrVal
  {
    (v: Vote) => if DistributionLabel(v, attribute).Ok? then DistributionLabel(v, attribute).value else Null
  }

  lemma LabelsAsMap(votes: seq<Vote>, attribute: string)
    requires DistributionLabels(votes, attribute).Ok?
    ensures DistributionLabels(votes, attribute).value == MapSeq(LabelOrNull(attribute), votes)
  {
  }

  /**
   Reordering the votes neither makes the pie chart fail nor succeed, and
   when it succeeds its slices are the same.
   */
  lemma AttributeDistributionPermutationInvariant(votes: seq<Vote>, votes': seq<Vote>, attribute: string)
    requires multiset(votes) == multiset(votes')
    ensures AttributeDistribution(votes, attribute).Ok? <==> AttributeDistribution(votes', attribute).Ok?
    ensures AttributeDistribution(votes, attribute).Ok? ==>
              AttributeDistribution(votes, attribute).value == AttributeDistribution(votes', attribute).value
  {
    forall v
      ensures v in votes <==> v in votes'
    {
      assert v in votes <==> v in multiset(votes);
      assert v in votes' <==> v in multiset(votes');
    }
    if AttributeDistribution(votes, attribute).Ok? {
      assert AttributeDistribution(votes', attribute).Ok? by {
        forall i | 0 <= i < |votes'|
          ensures DistributionLabel(votes'[i], attribute).Ok?
        {
          assert votes'[i] in votes;
        }
      }
      LabelsAsMap(votes, attribute);
      LabelsAsMap(votes', attribute);
      MapSeqPermutation(LabelOrNull(attribute), votes, votes');
      TallyPermutationInvariant(DistributionLabels(votes, attribute).value, DistributionLabels(votes', attribute).value);
    } else if AttributeDistribution(votes', attribute).Ok? {
      forall i | 0 <= i < |votes|
        ensures DistributionLabel(votes[i], attribute).Ok?
      {
        assert votes[i] in votes';
      }
    }
  }

  /** No votes, no slices. */
  lemma AttributeDistributionOfNothing(attribute: string)
    ensures AttributeDistribution([], attribute) == Ok(map[])
  {
  }

  /** One vote without attributes, asked for "gender", gives one "Unknown" slice. */
  lemma OneBareVote(v: Vote)
    requires v.attributes == map[]
    ensures AttributeDistribution([v], "gender") == Ok(map[Text(Unknown) := 1])
  {
    var labels := DistributionLabels([v], "gender").value;
    assert labels == [Text(Unknown)];
    var t := Tally(labels);
    assert t.Keys == {Text(Unknown)};
    assert labels[..0] == [];
    assert Occurrences(labels, Text(Unknown)) == 1;
    assert t == map[Text(Unknown) := 1];
    assert AttributeDistribution([v], "gender") == Ok(t);
  }
}
