/** The two mutation endpoints of srv.js: the simple vote (`/api/vote`) and
    the signed priority-score delta (`/api/vote-score`). Each validates in a
    fixed order, updates one demand in place and rewrites that demand's
    category document. */
module Mutations {
  import opened Common
  import opened OrderedMap
  import opened Demands
  import opened Store

  datatype ApiError = BadRequest | NotFound
  {
    function Status(): int
    {
      match this
      case BadRequest => 400
      case NotFound => 404
    }
  }

  /** The JSON body sent back to the client. */
  datatype Reply =
    | VoteRecorded(newVotes: Votes, totalVotes: int)
    | ScoreRecorded(newItemScore: int)
    | Rejected(error: ApiError)

  /** The store after the request, the document written (if any) and the reply.
      `saveRevendications` catches its own errors, so a write is modelled as
      always succeeding. */
  datatype Outcome = Outcome(corpus: Corpus, write: Option<Document>, reply: Reply)

  /** `c'` differs from `c` at most in the demand at `loc`. */
  predicate OnlyAt(c: Corpus, c': Corpus, loc: Location)
  {
    && ValidLocation(c, loc)
    && |c'| == |c|
    && (forall k :: 0 <= k < |c| ==> c'[k].0 == c[k].0 && |c'[k].1| == |c[k].1|)
    && (forall k, j :: 0 <= k < |c| && 0 <= j < |c[k].1| && (k, j) != (loc.cat, loc.pos) ==>
          c'[k].1[j] == c[k].1[j])
  }

  /** The demand after one `voteType` vote: that counter up by exactly one,
      `totalVotes` recomputed, nothing else touched. */
  predicate VoteApplied(before: Demand, after: Demand, k: Counter)
  {
    && k in before.votes
    && after.votes.Keys == before.votes.Keys
    && after.votes[k] == before.votes[k] + 1
    && (forall other :: other in before.votes && other != k ==> after.votes[other] == before.votes[other])
    && after.totalVotes == VoteSum(after.votes)
    && after == before.(votes := after.votes, totalVotes := after.totalVotes)
  }

  /** `/api/vote` with body `{id, voteType}`. */
  function Vote(c: Corpus, id: Option<string>, voteType: Option<string>): (o: Outcome)
    ensures !Truthy(id) || !Truthy(voteType) ==> o == Outcome(c, None, Rejected(BadRequest))
    ensures Truthy(id) && Truthy(voteType) && FindById(c, id.value).None? ==>
      o == Outcome(c, None, Rejected(NotFound))
    ensures
      (&& Truthy(id) && Truthy(voteType) && FindById(c, id.value).Some?
       && !(ParseCounter(voteType.value).Some? &&
            ParseCounter(voteType.value).value in At(c, FindById(c, id.value).value).votes))
      ==> o == Outcome(c, None, Rejected(BadRequest))
    ensures o.reply.Rejected? ==> o.corpus == c && o.write.None?
    ensures !o.reply.ScoreRecorded?
    ensures o.reply.VoteRecorded? <==>
      && Truthy(id) && Truthy(voteType)
      && FindById(c, id.value).Some?
      && ParseCounter(voteType.value).Some?
      && ParseCounter(voteType.value).value in At(c, FindById(c, id.value).value).votes
    ensures o.reply.VoteRecorded? ==>
      var loc := FindById(c, id.value).value;
      && OnlyAt(c, o.corpus, loc)
      && VoteApplied(At(c, loc), At(o.corpus, loc), ParseCounter(voteType.value).value)
      && o.write == Some(SaveCategory(c[loc.cat].0, o.corpus[loc.cat].1))
      && o.reply == VoteRecorded(At(o.corpus, loc).votes, At(o.corpus, loc).totalVotes)
  {
    if !Truthy(id) || !Truthy(voteType) then Outcome(c, None, Rejected(BadRequest))
    else match FindById(c, id.value)
      case None => Outcome(c, None, Rejected(NotFound))
      case Some(loc) =>
        var item := At(c, loc);
        var k := ParseCounter(voteType.value);
        if k.Some? && k.value in item.votes then
          var votes := item.votes[k.value := item.votes[k.value] + 1];
          var item' := item.(votes := votes, totalVotes := VoteSum(votes));
          var c' := Replace(c, loc, item');
          Outcome(c', Some(SaveCategory(c'[loc.cat].0, c'[loc.cat].1)), VoteRecorded(votes, item'.totalVotes))
        else Outcome(c, None, Rejected(BadRequest))
  }

  /** `/api/vote-score` with body `{id, scoreChange}`; `scoreChange` is None
      when it is not a number. */
  function VoteScore(c: Corpus, id: Option<string>, scoreChange: Option<int>): (o: Outcome)
    ensures !Truthy(id) || scoreChange.None? || scoreChange == Some(0) ==>
      o == Outcome(c, None, Rejected(BadRequest))
    ensures Truthy(id) && scoreChange.Some? && scoreChange.value != 0 && FindById(c, id.value).None? ==>
      o == Outcome(c, None, Rejected(NotFound))
    ensures o.reply.Rejected? ==> o.corpus == c && o.write.None?
    ensures !o.reply.VoteRecorded?
    ensures o.reply.ScoreRecorded? <==>
      Truthy(id) && scoreChange.Some? && scoreChange.value != 0 && FindById(c, id.value).Some?
    ensures o.reply.ScoreRecorded? ==>
      var loc := FindById(c, id.value).value;
      && OnlyAt(c, o.corpus, loc)
      && At(o.corpus, loc) == At(c, loc).(totalScore := At(c, loc).totalScore + scoreChange.value)
      && o.write == Some(SaveCategory(c[loc.cat].0, o.corpus[loc.cat].1))
      && o.reply == ScoreRecorded(At(o.corpus, loc).totalScore)
  {
    if !Truthy(id) || scoreChange.None? || scoreChange.value == 0 then
      Outcome(c, None, Rejected(BadRequest))
    else match FindById(c, id.value)
      case None => Outcome(c, None, Rejected(NotFound))
      case Some(loc) =>
        var item := At(c, loc);
        var item' := item.(totalScore := item.totalScore + scoreChange.value);
        var c' := Replace(c, loc, item');
        Outcome(c', Some(SaveCategory(c'[loc.cat].0, c'[loc.cat].1)), ScoreRecorded(item'.totalScore))
  }

  /** Two corpora with the same shape and the same id at every position. */
  predicate SameIds(c: Corpus, c': Corpus)
  {
    && |c| == |c'|
    && (forall k :: 0 <= k < |c| ==> |c[k].1| == |c'[k].1|)
    && (forall k, j :: 0 <= k < |c| && 0 <= j < |c[k].1| ==> c[k].1[j].id == c'[k].1[j].id)
  }

  lemma FirstMatchUnique(c: Corpus, id: string, l1: Location, l2: Location)
    requires FirstMatch(c, id, l1) && FirstMatch(c, id, l2)
    ensures l1 == l2
  {
    var d1, d2 := c[l1.cat].1[l1.pos], c[l2.cat].1[l2.pos];
    assert d1.id == id && d2.id == id;
  }

  lemma SameIdsFirstMatch(c: Corpus, c': Corpus, id: string, loc: Location)
    requires SameIds(c, c') && FirstMatch(c', id, loc)
    ensures FirstMatch(c, id, loc)
  {
    assert c[loc.cat].1[loc.pos].id == c'[loc.cat].1[loc.pos].id;
  }

  /** Lookup depends on the ids alone, so a mutation that keeps every id
      keeps every lookup. */
  lemma FindByIdSameIds(c: Corpus, c': Corpus, id: string)
    requires SameIds(c, c')
    ensures FindById(c, id) == FindById(c', id)
  {
    var r, r' := FindById(c, id), FindById(c', id);
    if r'.Some? {
      SameIdsFirstMatch(c, c', id, r'.value);
      FirstMatchUnique(c, id, r.value, r'.value);
    }
    if r.Some? {
      SameIdsFirstMatch(c', c, id, r.value);
    }
  }

  /** A loaded store stays loaded after any vote request: keys, ids,
      categories and the `totalVotes` invariant survive. */
  lemma VoteKeepsLoaded(c: Corpus, id: Option<string>, voteType: Option<string>)
    requires Loaded(c)
    ensures Loaded(Vote(c, id, voteType).corpus)
  {
    var v := Vote(c, id, voteType);
    if v.reply.VoteRecorded? {
      var c' := v.corpus;
      forall i, j | 0 <= i < j < |c'| ensures c'[i].0 != c'[j].0 {
        assert c[i].0 != c[j].0;
      }
      forall k, j | 0 <= k < |c'| && 0 <= j < |c'[k].1| ensures Normalised(c'[k].0, c'[k].1[j]) {
        assert Normalised(c[k].0, c[k].1[j]);
      }
    }
  }

  /** A loaded store stays loaded after any score request. */
  lemma VoteScoreKeepsLoaded(c: Corpus, id: Option<string>, scoreChange: Option<int>)
    requires Loaded(c)
    ensures Loaded(VoteScore(c, id, scoreChange).corpus)
  {
    var s := VoteScore(c, id, scoreChange);
    if s.reply.ScoreRecorded? {
      var c' := s.corpus;
      forall i, j | 0 <= i < j < |c'| ensures c'[i].0 != c'[j].0 {
        assert c[i].0 != c[j].0;
      }
      forall k, j | 0 <= k < |c'| && 0 <= j < |c'[k].1| ensures Normalised(c'[k].0, c'[k].1[j]) {
        assert Normalised(c[k].0, c[k].1[j]);
      }
    }
  }

  /** On a consistent demand a recorded vote raises `totalVotes` by one. */
  lemma VoteRaisesTotalByOne(c: Corpus, id: Option<string>, voteType: Option<string>)
    requires AllConsistent(c)
    requires Vote(c, id, voteType).reply.VoteRecorded?
    ensures var loc := FindById(c, id.value).value;
      Vote(c, id, voteType).reply.totalVotes == At(c, loc).totalVotes + 1
  {
    var loc := FindById(c, id.value).value;
    var before, after := At(c, loc), At(Vote(c, id, voteType).corpus, loc);
    assert Consistent(before);
    var k := ParseCounter(voteType.value).value;
    assert CounterOrZero(after.votes, k) == CounterOrZero(before.votes, k) + 1;
    forall other: Counter | other != k
      ensures CounterOrZero(after.votes, other) == CounterOrZero(before.votes, other)
    {
    }
  }

  /** Score deltas sent one after another for the same id: the store after
      them and the `new_item_score` of each reply. */
  function ApplyScoreChanges(c: Corpus, id: string, deltas: seq<int>): (r: (Corpus, seq<Reply>))
    ensures |r.1| == |deltas|
    decreases |deltas|
  {
    if deltas == [] then (c, [])
    else
      var o := VoteScore(c, Some(id), Some(deltas[0]));
      var rest := ApplyScoreChanges(o.corpus, id, deltas[1..]);
      (rest.0, [o.reply] + rest.1)
  }

  /** One accepted score request moves the found demand's score by the
      delta and leaves the lookup of its id where it was. */
  lemma ScoreStep(c: Corpus, id: string, delta: int)
    requires id != "" && delta != 0 && FindById(c, id).Some?
    ensures var o := VoteScore(c, Some(id), Some(delta));
      var loc := FindById(c, id).value;
      && FindById(o.corpus, id) == Some(loc)
      && At(o.corpus, loc).totalScore == At(c, loc).totalScore + delta
      && o.reply == ScoreRecorded(At(c, loc).totalScore + delta)
  {
    var o := VoteScore(c, Some(id), Some(delta));
    assert SameIds(c, o.corpus) by {
      forall k, j | 0 <= k < |c| && 0 <= j < |c[k].1| ensures c[k].1[j].id == o.corpus[k].1[j].id {
      }
    }
    FindByIdSameIds(c, o.corpus, id);
  }

  lemma SumIntsPrefix(xs: seq<int>, i: nat)
    requires 0 < i <= |xs|
    ensures SumInts(xs[..i]) == xs[0] + SumInts(xs[1..][..i - 1])
  {
    assert xs[..i][1..] == xs[1..][..i - 1];
  }

  /** Non-zero deltas on an existing id accumulate: the lookup stays in
      place and the final `totalScore` is the start plus their sum
      (starting from 0 and sending +5, -2, +10 ends at 13). */
  lemma {:induction false} ScoreChangesTotal(c: Corpus, id: string, deltas: seq<int>)
    requires id != ""
    requires FindById(c, id).Some?
    requires forall i :: 0 <= i < |deltas| ==> deltas[i] != 0
    ensures var loc := FindById(c, id).value;
      var r := ApplyScoreChanges(c, id, deltas);
      && FindById(r.0, id) == Some(loc)
      && At(r.0, loc).totalScore == At(c, loc).totalScore + SumInts(deltas)
    decreases |deltas|
  {
    if deltas != [] {
      var o := VoteScore(c, Some(id), Some(deltas[0]));
      ScoreStep(c, id, deltas[0]);
      ScoreChangesTotal(o.corpus, id, deltas[1..]);
    }
  }

  /** The i-th reply to a run of non-zero deltas reports the start plus
      the first i + 1 deltas. */
  lemma {:induction false} ScoreChangeReply(c: Corpus, id: string, deltas: seq<int>, loc: Location, start: int, i: nat)
    requires id != "" && FindById(c, id) == Some(loc) && At(c, loc).totalScore == start
    requires forall j :: 0 <= j < |deltas| ==> deltas[j] != 0
    requires i < |deltas|
    ensures ApplyScoreChanges(c, id, deltas).1[i] == ScoreRecorded(start + SumInts(deltas[..i + 1]))
    decreases i
  {
    var o := VoteScore(c, Some(id), Some(deltas[0]));
    ScoreStep(c, id, deltas[0]);
    var rest := ApplyScoreChanges(o.corpus, id, deltas[1..]);
    assert ApplyScoreChanges(c, id, deltas).1 == [o.reply] + rest.1;
    SumIntsPrefix(deltas, i + 1);
    if i > 0 {
      ScoreChangeReply(o.corpus, id, deltas[1..], loc, start + deltas[0], i - 1);
    }
  }
}
