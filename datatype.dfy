/**
 The vote record (src/datatype.py): a `Vote` dataclass with three required
 string fields, an attribute dictionary that defaults to empty, a timestamp
 whose default is drawn once when the class is defined, and the derived
 `transaction_id`.
 */
module Datatype {

  datatype Option<+T> = None | Some(value: T)

  /**
   An attribute value as the aggregators meet it after the records are read
   back from JSON: a string, an integer (ages) or `null` (Python's `None`).
   */
  datatype AttrVal = Text(text: string) | Num(num: int) | Null

  /**
   One vote. `timestamp` is the record's ISO-8601 time already parsed, as whole
   seconds since 1970-01-01 00:00:00 on the same naive (zone-less) clock.
   */
  datatype Vote = Vote(
    electionId: string,
    candidateName: string,
    voterId: string,
    attributes: map<string, AttrVal>,
    timestamp: int)

  /** `d.get(key, default)` on an attribute dictionary. */
  function Get(attributes: map<string, AttrVal>, key: string, default: AttrVal): (v: AttrVal)
    ensures key in attributes ==> v == attributes[key]
    ensures key !in attributes ==> v == default
  {
    if key in attributes then attributes[key] else default
  }

  /** `transaction_id`: the election and the voter joined by two plus signs. */
  function TransactionId(v: Vote): (id: string)
    ensures |id| == |v.electionId| + 2 + |v.voterId|
    ensures id[..|v.electionId|] == v.electionId
    ensures id[|v.electionId|..|v.electionId| + 2] == "++"
    ensures id[|v.electionId| + 2..] == v.voterId
  {
    v.electionId + "++" + v.voterId
  }

  /** The transaction id reads only the election and the voter. */
  lemma TransactionIdIgnoresBallot(v: Vote, w: Vote)
    requires v.electionId == w.electionId && v.voterId == w.voterId
    ensures TransactionId(v) == TransactionId(w)
  {
  }

  /**
   When election ids contain no '+', the id determines both the election and
   the voter: the first '+' of the id ends the election id.
   */
  lemma TransactionIdInjective(v: Vote, w: Vote)
    requires '+' !in v.electionId && '+' !in w.electionId
    requires TransactionId(v) == TransactionId(w)
    ensures v.electionId == w.electionId && v.voterId == w.voterId
  {
    var id := TransactionId(v);
    var m, n := |v.electionId|, |w.electionId|;
    if m < n {
      CharAt(w.electionId, "++" + w.voterId, m);
      CharAt(v.electionId + "++", v.voterId, m);
      assert false;
    } else if n < m {
      CharAt(v.electionId, "++" + v.voterId, n);
      CharAt(w.electionId + "++", w.voterId, n);
      assert false;
    }
    assert v.electionId == id[..m] == w.electionId;
    assert v.voterId == id[m + 2..] == w.voterId;
  }

  lemma CharAt(s: string, t: string, k: int)
    ensures 0 <= k < |s| ==> (s + t)[k] == s[k]
  {
  }

  /** Without that restriction two different (election, voter) pairs can share an id. */
  lemma TransactionIdCollision()
    ensures TransactionId(Vote("a+", "Alice", "b", map[], 0))
         == TransactionId(Vote("a", "Alice", "+b", map[], 0))
  {
  }

  // ----- the class defaults -----

  /** 2024-10-16 00:00:00 and 2024-11-05 23:59:59 on the naive clock. */
  const WindowStart: int := 1729036800
  const WindowEnd: int := 1730851199

  /**
   The default `timestamp`: evaluated once, when the class body runs, as the
   window start plus a whole number of seconds drawn from
   `random.randint(0, seconds in the window)`; the draw is a parameter here.
   */
  function DefaultTimestamp(draw: int): (t: int)
    requires 0 <= draw <= WindowEnd - WindowStart
    ensures WindowStart <= t <= WindowEnd
    ensures t - WindowStart == draw
  {
    WindowStart + draw
  }

  /**
   `Vote(election_id, candidate_name, voter_id, attributes=..., timestamp=...)`:
   an omitted keyword argument is `None` here and takes the class default;
   `classDefault` is the one timestamp fixed when the class was defined.
   */
  function NewVote(
    classDefault: int,
    electionId: string, candidateName: string, voterId: string,
    attributes: Option<map<string, AttrVal>>, timestamp: Option<int>): (v: Vote)
    ensures v.electionId == electionId && v.candidateName == candidateName && v.voterId == voterId
    ensures attributes.None? ==> v.attributes == map[]
    ensures attributes.Some? ==> v.attributes == attributes.value
    ensures timestamp.None? ==> v.timestamp == classDefault
    ensures timestamp.Some? ==> v.timestamp == timestamp.value
  {
    Vote(electionId, candidateName, voterId,
         if attributes.Some? then attributes.value else map[],
         if timestamp.Some? then timestamp.value else classDefault)
  }

  /** Every vote built without an explicit timestamp carries the same one, inside the window. */
  lemma DefaultTimestampShared(
    draw: int,
    v: Vote, electionId: string, candidateName: string, voterId: string, attributes: Option<map<string, AttrVal>>,
    w: Vote, electionId': string, candidateName': string, voterId': string, attributes': Option<map<string, AttrVal>>)
    requires 0 <= draw <= WindowEnd - WindowStart
    requires v == NewVote(DefaultTimestamp(draw), electionId, candidateName, voterId, attributes, None)
    requires w == NewVote(DefaultTimestamp(draw), electionId', candidateName', voterId', attributes', None)
    ensures v.timestamp == w.timestamp
    ensures WindowStart <= v.timestamp <= WindowEnd
  {
  }

  /** A vote built without attributes has none: every lookup takes its default. */
  lemma DefaultAttributesAllMissing(
    classDefault: int, electionId: string, candidateName: string, voterId: string,
    timestamp: Option<int>, key: string, default: AttrVal)
    ensures Get(NewVote(classDefault, electionId, candidateName, voterId, None, timestamp).attributes, key, default)
         == default
  {
  }
}
