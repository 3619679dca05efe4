/** The core entity: a "revendication" (civic demand), its vote counters and
    the ordered corpus of categories that holds them. */
module Demands {
  import opened Common
  import opened OrderedMap

  /** The three simple-vote counters. */
  datatype Counter = Oui | Non | Abstention

  /** The `votes` object. A counter may be absent: a stored record may carry
      a partial `votes` object, and the loader keeps it as it is. */
  type Votes = map<Counter, int>

  const ZeroVotes: Votes := map[Oui := 0, Non := 0, Abstention := 0]

  /** `votes.oui || 0` and its two siblings. */
  function CounterOrZero(votes: Votes, c: Counter): int
  {
    if c in votes then votes[c] else 0
  }

  /** The derived `totalVotes`: the three counters summed, a missing one
      counting as 0. */
  function VoteSum(votes: Votes): int
  {
    CounterOrZero(votes, Oui) + CounterOrZero(votes, Non) + CounterOrZero(votes, Abstention)
  }

  /** `votes.oui + votes.non + votes.abstention` read straight off the
      object, as the client does: a missing counter makes the sum NaN,
      modelled as `None`. */
  function CounterSum(votes: Votes): (t: Option<int>)
    ensures t.Some? <==> Oui in votes && Non in votes && Abstention in votes
    ensures t.Some? ==> t.value == VoteSum(votes)
  {
    if Oui in votes && Non in votes && Abstention in votes then
      Some(votes[Oui] + votes[Non] + votes[Abstention])
    else None
  }

  /** The request-body spelling of each counter (`voteType`). */
  function CounterName(c: Counter): string
  {
    match c
    case Oui => "oui"
    case Non => "non"
    case Abstention => "abstention"
  }

  function ParseCounter(name: string): (c: Option<Counter>)
    ensures c.Some? ==> CounterName(c.value) == name
    ensures c.None? ==> forall k: Counter :: CounterName(k) != name
  {
    if name == "oui" then Some(Oui)
    else if name == "non" then Some(Non)
    else if name == "abstention" then Some(Abstention)
    else None
  }

  /** A demand as held in memory after loading. */
  datatype Demand = Demand(
    id: string,
    category: string,
    revendication: string,
    votes: Votes,
    totalVotes: int,
    ricType: string,
    priority: string,
    totalScore: int)

  /** `totalVotes` is recomputable from `votes` alone. */
  predicate Consistent(d: Demand)
  {
    d.totalVotes == VoteSum(d.votes)
  }

  /** The category map, in key order (`for (const category in data)`). */
  type Corpus = Assoc<string, seq<Demand>>

  predicate AllConsistent(c: Corpus)
  {
    forall k, j :: 0 <= k < |c| && 0 <= j < |c[k].1| ==> Consistent(c[k].1[j])
  }

  /** Position of one demand inside the corpus. */
  datatype Location = Location(cat: nat, pos: nat)

  predicate ValidLocation(c: Corpus, loc: Location)
  {
    loc.cat < |c| && loc.pos < |c[loc.cat].1|
  }

  function At(c: Corpus, loc: Location): Demand
    requires ValidLocation(c, loc)
  {
    c[loc.cat].1[loc.pos]
  }

  /** Replace the demand at `loc`, keeping every key and every other demand. */
  function Replace(c: Corpus, loc: Location, d: Demand): (r: Corpus)
    requires ValidLocation(c, loc)
    ensures |r| == |c| && ValidLocation(r, loc) && At(r, loc) == d
    ensures forall k :: 0 <= k < |c| ==> r[k].0 == c[k].0 && |r[k].1| == |c[k].1|
    ensures forall k, j :: 0 <= k < |c| && 0 <= j < |c[k].1| && (k, j) != (loc.cat, loc.pos) ==>
      r[k].1[j] == c[k].1[j]
  {
    c[loc.cat := (c[loc.cat].0, c[loc.cat].1[loc.pos := d])]
  }

  /** Every demand of every category, in category order then list order. */
  function Flatten(c: Corpus): (all: seq<Demand>)
  {
    if c == [] then [] else c[0].1 + Flatten(c[1..])
  }

  /** Σ of the category lengths. */
  function CorpusSize(c: Corpus): nat
  {
    if c == [] then 0 else |c[0].1| + CorpusSize(c[1..])
  }
}
