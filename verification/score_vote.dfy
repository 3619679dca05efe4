/** The per-user priority budget of docs/score-vote.js: every visitor holds
    361 points (one per demand) and spreads them over demands with a
    slider; each change is kept locally and sent to `/api/vote-score` as a
    signed delta. localStorage is the `stored` parameter. */
module ScoreVote {
  import opened Common
  import opened OrderedMap
  import opened Demands
  import opened Store

  /** `TOTAL_REVENDICATIONS`. */
  const TotalRevendications: int := 361

  /** `userScores`: item id to the points the user gave it. */
  type UserScores = Assoc<string, int>

  datatype Budget = Budget(userScores: UserScores, totalPointsMax: int, pointsAvailable: int)

  /** `loadUserScores`: missing or unparseable storage is an empty object;
      the points still available are the maximum minus all points given. */
  function LoadUserScores(stored: Option<UserScores>): (b: Budget)
    ensures stored.Some? ==> b.userScores == stored.value
    ensures stored.None? ==> b.userScores == []
    ensures b.totalPointsMax == TotalRevendications
    ensures b.pointsAvailable + Sum(b.userScores) == TotalRevendications
  {
    var scores := stored.GetOr([]);
    Budget(scores, TotalRevendications, TotalRevendications - Sum(scores))
  }

  /** `userScores[itemId] || 0`. */
  function CurrentScore(b: Budget, itemId: string): int
  {
    Get(b.userScores, itemId, 0)
  }

  /** The slider's `max`: what is left plus what this item already holds,
      so the item's own points can be moved around. */
  function SliderMax(b: Budget, itemId: string): (m: int)
    ensures m - CurrentScore(b, itemId) == b.pointsAvailable
  {
    b.pointsAvailable + CurrentScore(b, itemId)
  }

  datatype Submission =
    | NoItem                                        // no item id on the button
    | NoChange                                      // "Aucun changement détecté."
    | Submitted(budget: Budget, scoreChange: int)   // stored, reloaded, delta sent

  /** `handleSubmitScore` with the slider at `newScore`: a zero change
      neither writes nor calls; otherwise the new score is stored, the
      budget reloaded from it and the delta sent to the server. */
  function SubmitScore(scores: UserScores, itemId: Option<string>, newScore: int): (r: Submission)
    ensures r == NoItem <==> !Truthy(itemId)
    ensures r == NoChange <==> Truthy(itemId) && newScore == Get(scores, itemId.value, 0)
    ensures r.Submitted? ==>
      && r.scoreChange == newScore - Get(scores, itemId.value, 0)
      && r.scoreChange != 0
      && r.budget == LoadUserScores(Some(r.budget.userScores))
      && HasKey(r.budget.userScores, itemId.value)
  {
    if !Truthy(itemId) then NoItem
    else
      var id := itemId.value;
      var scoreChange := newScore - Get(scores, id, 0);
      if scoreChange == 0 then NoChange
      else
        var scores' := Put(scores, id, newScore);
        PutHasKey(scores, id, newScore, id);
        Submitted(LoadUserScores(Some(scores')), scoreChange)
  }

  /** A submitted change moves only this item's entry to the new score and
      lowers the points available by exactly the delta; the slider's range
      allows exactly the scores that do not overspend the budget. */
  lemma SubmitScoreEffect(scores: UserScores, itemId: string, newScore: int)
    requires DistinctKeys(scores)
    requires itemId != "" && newScore != Get(scores, itemId, 0)
    ensures var r := SubmitScore(scores, Some(itemId), newScore);
      var before := LoadUserScores(Some(scores));
      && r.Submitted?
      && DistinctKeys(r.budget.userScores)
      && Get(r.budget.userScores, itemId, 0) == newScore
      && (forall k :: k != itemId ==> Get(r.budget.userScores, k, 0) == Get(scores, k, 0))
      && r.budget.pointsAvailable == before.pointsAvailable - r.scoreChange
      && (newScore <= SliderMax(before, itemId) <==> r.budget.pointsAvailable >= 0)
  {
    var r := SubmitScore(scores, Some(itemId), newScore);
    PutKeepsDistinct(scores, itemId, newScore);
    SumPut(scores, itemId, newScore);
    PutGet(scores, itemId, newScore, itemId, 0);
    forall k | k != itemId
      ensures Get(r.budget.userScores, k, 0) == Get(scores, k, 0)
    {
      PutGet(scores, itemId, newScore, k, 0);
    }
  }

  /** `findItemDataGlobally`: nothing before the data are loaded; then the
      first demand with this id in category order, as the server finds it. */
  function FindItemGlobally(allData: Option<Corpus>, itemId: string): (r: Option<Demand>)
    ensures allData.None? ==> r.None?
    ensures allData.Some? && r.Some? ==>
      exists loc :: FirstMatch(allData.value, itemId, loc) && At(allData.value, loc) == r.value
    ensures allData.Some? && r.None? ==>
      forall k, j :: 0 <= k < |allData.value| && 0 <= j < |allData.value[k].1| ==> allData.value[k].1[j].id != itemId
  {
    match allData
    case None => None
    case Some(c) =>
      match FindById(c, itemId)
      case None => None
      case Some(loc) => Some(At(c, loc))
  }

  /** The simple-vote total shown in the modal: the item's counters, or
      zeros when the item is unknown. */
  function DisplayedVoteTotal(item: Option<Demand>): (t: Option<int>)
    ensures item.None? ==> t == Some(0)
    ensures item.Some? ==> t == CounterSum(item.value.votes)
  {
    CounterSum(if item.Some? then item.value.votes else ZeroVotes)
  }

  /** For a loaded demand with a full `votes` object the modal's total is
      the stored `totalVotes`. */
  lemma DisplayedTotalIsStoredTotal(d: Demand)
    requires Consistent(d)
    requires Oui in d.votes && Non in d.votes && Abstention in d.votes
    ensures DisplayedVoteTotal(Some(d)) == Some(d.totalVotes)
  {
  }
}
