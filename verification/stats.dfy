/** The `/api/stats` fold of srv.js: one scan of the corpus producing the
    demand count, the count per category, the count per priority (the three
    known priorities always present) and, under the name `totalVotes`, the
    sum of the priority scores. */
module Stats {
  import opened Common
  import opened OrderedMap
  import opened Demands
  import opened Store
  import opened AnalysisLog

  datatype Stats = Stats(
    totalRevendications: int,
    byCategory: Assoc<string, int>,
    byPriority: Assoc<string, int>,
    totalVotes: int)

  const InitialByPriority: Assoc<string, int> := [("Faible", 0), ("Moyen", 0), ("Élevé", 0)]
  const Initial := Stats(0, [], InitialByPriority, 0)

  /** The per-item step: `byPriority[item.priority] = (… || 0) + 1` and the
      score added to `totalVotes`. */
  function AddItem(s: Stats, d: Demand): Stats
  {
    s.(byPriority := Put(s.byPriority, d.priority, Get(s.byPriority, d.priority, 0) + 1),
       totalVotes := s.totalVotes + d.totalScore)
  }

  function AddItems(s: Stats, ds: seq<Demand>): Stats
    decreases |ds|
  {
    if ds == [] then s else AddItems(AddItem(s, ds[0]), ds[1..])
  }

  /** The per-category step. */
  function AddCategory(s: Stats, category: (string, seq<Demand>)): Stats
  {
    var count := |category.1|;
    AddItems(s.(totalRevendications := s.totalRevendications + count,
                byCategory := Put(s.byCategory, category.0, count)),
             category.1)
  }

  function Fold(s: Stats, c: Corpus): Stats
    decreases |c|
  {
    if c == [] then s else Fold(AddCategory(s, c[0]), c[1..])
  }

  function ComputeStats(c: Corpus): Stats
  {
    Fold(Initial, c)
  }

  // Reference definitions, independent of the fold.

  function CountPriorityIn(ds: seq<Demand>, p: string): nat
  {
    if ds == [] then 0 else (if ds[0].priority == p then 1 else 0) + CountPriorityIn(ds[1..], p)
  }

  function CountPriority(c: Corpus, p: string): nat
  {
    if c == [] then 0 else CountPriorityIn(c[0].1, p) + CountPriority(c[1..], p)
  }

  function ScoreSumIn(ds: seq<Demand>): int
  {
    if ds == [] then 0 else ds[0].totalScore + ScoreSumIn(ds[1..])
  }

  function ScoreSum(c: Corpus): int
  {
    if c == [] then 0 else ScoreSumIn(c[0].1) + ScoreSum(c[1..])
  }

  function CategoryCounts(c: Corpus): Assoc<string, int>
    decreases |c|
  {
    if c == [] then [] else [(c[0].0, |c[0].1|)] + CategoryCounts(c[1..])
  }

  lemma PutNonNegative(m: Assoc<string, int>, k: string, v: int)
    requires NonNegative(m) && v >= 0
    ensures NonNegative(Put(m, k, v))
  {
    PutShape(m, k, v);
  }

  /** The per-priority counting done by `AddItems`, on the counts alone. */
  function CountInto(m: Assoc<string, int>, ds: seq<Demand>): Assoc<string, int>
    decreases |ds|
  {
    if ds == [] then m else CountInto(Put(m, ds[0].priority, Get(m, ds[0].priority, 0) + 1), ds[1..])
  }

  /** The fields `AddItems` leaves alone. */
  lemma {:induction false} AddItemsFrame(s: Stats, ds: seq<Demand>)
    ensures AddItems(s, ds).totalRevendications == s.totalRevendications
    ensures AddItems(s, ds).byCategory == s.byCategory
    decreases |ds|
  {
    if ds != [] {
      AddItemsFrame(AddItem(s, ds[0]), ds[1..]);
    }
  }

  /** `AddItems` accumulates the scores into `totalVotes`. */
  lemma {:induction false} AddItemsScores(s: Stats, ds: seq<Demand>)
    ensures AddItems(s, ds).totalVotes == s.totalVotes + ScoreSumIn(ds)
    decreases |ds|
  {
    if ds != [] {
      AddItemsScores(AddItem(s, ds[0]), ds[1..]);
    }
  }

  /** `AddItems` counts priorities exactly as `CountInto` does. */
  lemma {:induction false} AddItemsCounts(s: Stats, ds: seq<Demand>)
    ensures AddItems(s, ds).byPriority == CountInto(s.byPriority, ds)
    decreases |ds|
  {
    if ds != [] {
      var s1 := AddItem(s, ds[0]);
      AddItemsCounts(s1, ds[1..]);
    }
  }

  /** One item adds one to its priority's count and nothing elsewhere. */
  lemma AddItemPriority(m: Assoc<string, int>, p: string)
    requires DistinctKeys(m)
    ensures var m' := Put(m, p, Get(m, p, 0) + 1);
      && DistinctKeys(m')
      && Sum(m') == Sum(m) + 1
      && (forall q :: Get(m', q, 0) == Get(m, q, 0) + (if p == q then 1 else 0))
      && (forall q :: HasKey(m, q) ==> HasKey(m', q))
      && (NonNegative(m) ==> NonNegative(m'))
  {
    var v := Get(m, p, 0) + 1;
    PutKeepsDistinct(m, p, v);
    SumPut(m, p, v);
    forall q ensures Get(Put(m, p, v), q, 0) == Get(m, q, 0) + (if p == q then 1 else 0) {
      PutGet(m, p, v, q, 0);
    }
    forall q ensures HasKey(m, q) ==> HasKey(Put(m, p, v), q) {
      PutHasKey(m, p, v, q);
    }
    if NonNegative(m) {
      GetShape(m, p, 0);
      if HasKey(m, p) {
        assert m[IndexOf(m, p)].1 >= 0;
      }
      PutNonNegative(m, p, v);
    }
  }

  /** The sum part of `AddItemPriority` on its own. */
  lemma BumpSum(m: Assoc<string, int>, p: string)
    requires DistinctKeys(m)
    ensures DistinctKeys(Put(m, p, Get(m, p, 0) + 1))
    ensures Sum(Put(m, p, Get(m, p, 0) + 1)) == Sum(m) + 1
  {
    PutKeepsDistinct(m, p, Get(m, p, 0) + 1);
    SumPut(m, p, Get(m, p, 0) + 1);
  }

  lemma {:induction false} CountIntoDistinct(m: Assoc<string, int>, ds: seq<Demand>)
    requires DistinctKeys(m)
    ensures DistinctKeys(CountInto(m, ds))
    decreases |ds|
  {
    if ds != [] {
      var p := ds[0].priority;
      var m1 := Put(m, p, Get(m, p, 0) + 1);
      PutKeepsDistinct(m, p, Get(m, p, 0) + 1);
      CountIntoDistinct(m1, ds[1..]);
    }
  }

  lemma {:induction false} CountIntoSum(m: Assoc<string, int>, ds: seq<Demand>)
    requires DistinctKeys(m)
    ensures Sum(CountInto(m, ds)) == Sum(m) + |ds|
    decreases |ds|
  {
    if ds != [] {
      var p := ds[0].priority;
      var m1 := Put(m, p, Get(m, p, 0) + 1);
      BumpSum(m, p);
      CountIntoSum(m1, ds[1..]);
    }
  }

  lemma {:induction false} CountIntoGet(m: Assoc<string, int>, ds: seq<Demand>, q: string)
    requires DistinctKeys(m)
    ensures Get(CountInto(m, ds), q, 0) == Get(m, q, 0) + CountPriorityIn(ds, q)
    decreases |ds|
  {
    if ds != [] {
      var p := ds[0].priority;
      var m1 := Put(m, p, Get(m, p, 0) + 1);
      AddItemPriority(m, p);
      assert Get(m1, q, 0) == Get(m, q, 0) + (if p == q then 1 else 0);
      CountIntoGet(m1, ds[1..], q);
    }
  }

  lemma {:induction false} CountIntoKeys(m: Assoc<string, int>, ds: seq<Demand>)
    requires DistinctKeys(m)
    ensures forall q :: HasKey(m, q) ==> HasKey(CountInto(m, ds), q)
    ensures NonNegative(m) ==> NonNegative(CountInto(m, ds))
    decreases |ds|
  {
    if ds != [] {
      var m1 := Put(m, ds[0].priority, Get(m, ds[0].priority, 0) + 1);
      AddItemPriority(m, ds[0].priority);
      CountIntoKeys(m1, ds[1..]);
      assert CountInto(m, ds) == CountInto(m1, ds[1..]);
    }
  }

  /** The per-priority counts over a whole corpus, category by category. */
  function CountIntoAll(m: Assoc<string, int>, c: Corpus): Assoc<string, int>
    decreases |c|
  {
    if c == [] then m else CountIntoAll(CountInto(m, c[0].1), c[1..])
  }

  lemma {:induction false} CountIntoAllSum(m: Assoc<string, int>, c: Corpus)
    requires DistinctKeys(m)
    ensures DistinctKeys(CountIntoAll(m, c))
    ensures Sum(CountIntoAll(m, c)) == Sum(m) + CorpusSize(c)
    decreases |c|
  {
    if c != [] {
      CountIntoDistinct(m, c[0].1);
      CountIntoSum(m, c[0].1);
      CountIntoAllSum(CountInto(m, c[0].1), c[1..]);
    }
  }

  lemma {:induction false} CountIntoAllGet(m: Assoc<string, int>, c: Corpus, q: string)
    requires DistinctKeys(m)
    ensures Get(CountIntoAll(m, c), q, 0) == Get(m, q, 0) + CountPriority(c, q)
    decreases |c|
  {
    if c != [] {
      CountIntoDistinct(m, c[0].1);
      CountIntoGet(m, c[0].1, q);
      CountIntoAllGet(CountInto(m, c[0].1), c[1..], q);
    }
  }

  lemma {:induction false} CountIntoAllKeys(m: Assoc<string, int>, c: Corpus)
    requires DistinctKeys(m)
    ensures forall q :: HasKey(m, q) ==> HasKey(CountIntoAll(m, c), q)
    ensures NonNegative(m) ==> NonNegative(CountIntoAll(m, c))
    decreases |c|
  {
    if c != [] {
      CountIntoDistinct(m, c[0].1);
      CountIntoKeys(m, c[0].1);
      CountIntoAllKeys(CountInto(m, c[0].1), c[1..]);
    }
  }

  /** The category step, field by field. */
  lemma AddCategoryFrame(s: Stats, category: (string, seq<Demand>))
    ensures var s' := AddCategory(s, category);
      && s'.totalRevendications == s.totalRevendications + |category.1|
      && s'.byCategory == Put(s.byCategory, category.0, |category.1|)
      && s'.totalVotes == s.totalVotes + ScoreSumIn(category.1)
      && s'.byPriority == CountInto(s.byPriority, category.1)
  {
    var s0 := s.(totalRevendications := s.totalRevendications + |category.1|,
                 byCategory := Put(s.byCategory, category.0, |category.1|));
    AddItemsFrame(s0, category.1);
    AddItemsScores(s0, category.1);
    AddItemsCounts(s0, category.1);
  }

  lemma DistinctTail(c: Corpus)
    requires c != [] && DistinctKeys(c)
    ensures DistinctKeys(c[1..])
  {
    var tail := c[1..];
    forall i, j | 0 <= i < j < |tail| ensures tail[i].0 != tail[j].0 {
      assert tail[i] == c[i + 1] && tail[j] == c[j + 1];
    }
  }

  /** The per-category counts written by `Fold`, on the counts alone. */
  function PutCounts(m: Assoc<string, int>, c: Corpus): Assoc<string, int>
    decreases |c|
  {
    if c == [] then m else PutCounts(Put(m, c[0].0, |c[0].1|), c[1..])
  }

  lemma {:induction false} FoldTotals(s: Stats, c: Corpus)
    ensures Fold(s, c).totalRevendications == s.totalRevendications + CorpusSize(c)
    ensures Fold(s, c).totalVotes == s.totalVotes + ScoreSum(c)
    ensures Fold(s, c).byCategory == PutCounts(s.byCategory, c)
    decreases |c|
  {
    if c != [] {
      AddCategoryFrame(s, c[0]);
      FoldTotals(AddCategory(s, c[0]), c[1..]);
    }
  }

  /** Writing a key the object does not hold appends it. */
  lemma PutFresh(m: Assoc<string, int>, k: string, v: int)
    requires k !in Keys(m)
    ensures Put(m, k, v) == m + [(k, v)]
    ensures Keys(Put(m, k, v)) == Keys(m) + [k]
  {
    forall j | 0 <= j < |m| ensures m[j].0 != k {
      assert Keys(m)[j] == m[j].0;
    }
    PutShape(m, k, v);
    var r := m + [(k, v)];
    assert forall i :: 0 <= i < |r| ==> Keys(r)[i] == (Keys(m) + [k])[i];
  }

  lemma FreshTail(m: Assoc<string, int>, c: Corpus)
    requires c != [] && DistinctKeys(c)
    requires forall i :: 0 <= i < |c| ==> c[i].0 !in Keys(m)
    ensures forall i :: 0 <= i < |c[1..]| ==> c[1..][i].0 !in Keys(m) + [c[0].0]
  {
    forall i | 0 <= i < |c[1..]| ensures c[1..][i].0 !in Keys(m) + [c[0].0] {
      assert c[1..][i] == c[i + 1];
    }
  }

  lemma AppendStep(m: Assoc<string, int>, c: Corpus)
    requires c != []
    requires Put(m, c[0].0, |c[0].1|) == m + [(c[0].0, |c[0].1|)]
    requires PutCounts(m + [(c[0].0, |c[0].1|)], c[1..]) == (m + [(c[0].0, |c[0].1|)]) + CategoryCounts(c[1..])
    ensures PutCounts(m, c) == m + CategoryCounts(c)
  {
    var x := (c[0].0, |c[0].1|);
    AppendAssoc(m, [x], CategoryCounts(c[1..]));
  }

  /** With distinct category keys every count is appended, in order. */
  lemma {:induction false} PutCountsAppends(m: Assoc<string, int>, c: Corpus)
    requires DistinctKeys(c)
    requires forall i :: 0 <= i < |c| ==> c[i].0 !in Keys(m)
    ensures PutCounts(m, c) == m + CategoryCounts(c)
    decreases |c|
  {
    if c != [] {
      var x := (c[0].0, |c[0].1|);
      PutFresh(m, c[0].0, |c[0].1|);
      FreshTail(m, c);
      DistinctTail(c);
      PutCountsAppends(m + [x], c[1..]);
      AppendStep(m, c);
    }
  }

  lemma {:induction false} FoldPriorities(s: Stats, c: Corpus)
    ensures Fold(s, c).byPriority == CountIntoAll(s.byPriority, c)
    decreases |c|
  {
    if c != [] {
      AddCategoryFrame(s, c[0]);
      FoldPriorities(AddCategory(s, c[0]), c[1..]);
    }
  }

  lemma {:induction false} SumCategoryCounts(c: Corpus)
    ensures Sum(CategoryCounts(c)) == CorpusSize(c)
    decreases |c|
  {
    if c != [] {
      SumCategoryCounts(c[1..]);
    }
  }

  lemma InitialByPriorityFacts()
    ensures DistinctKeys(InitialByPriority) && NonNegative(InitialByPriority)
    ensures Sum(InitialByPriority) == 0
    ensures forall p :: Get(InitialByPriority, p, 0) == 0
    ensures HasKey(InitialByPriority, "Faible") && HasKey(InitialByPriority, "Moyen")
      && HasKey(InitialByPriority, "Élevé")
  {
    assert InitialByPriority[0].0 == "Faible";
    assert InitialByPriority[1].0 == "Moyen";
    assert InitialByPriority[2].0 == "Élevé";
  }

  /** The demand count is the corpus size and `totalVotes` is the sum of
      the priority scores. */
  lemma StatsTotals(c: Corpus)
    ensures ComputeStats(c).totalRevendications == CorpusSize(c)
    ensures ComputeStats(c).totalVotes == ScoreSum(c)
  {
    FoldTotals(Initial, c);
  }

  /** With distinct category keys, one count per category, in key order,
      summing to the demand count. */
  lemma StatsByCategory(c: Corpus)
    requires DistinctKeys(c)
    ensures ComputeStats(c).byCategory == CategoryCounts(c)
    ensures Sum(ComputeStats(c).byCategory) == CorpusSize(c)
  {
    FoldTotals(Initial, c);
    PutCountsAppends([], c);
    assert [] + CategoryCounts(c) == CategoryCounts(c);
    SumCategoryCounts(c);
  }

  /** The three known priorities are always reported; each count is the
      number of demands carrying that priority, and they sum to the demand
      count. */
  lemma StatsByPriority(c: Corpus)
    ensures var m := ComputeStats(c).byPriority;
      && HasKey(m, "Faible") && HasKey(m, "Moyen") && HasKey(m, "Élevé")
      && NonNegative(m)
      && Sum(m) == CorpusSize(c)
      && (forall p :: Get(m, p, 0) == CountPriority(c, p))
  {
    InitialByPriorityFacts();
    FoldPriorities(Initial, c);
    CountIntoAllSum(InitialByPriority, c);
    CountIntoAllKeys(InitialByPriority, c);
    forall p ensures Get(CountIntoAll(InitialByPriority, c), p, 0) == CountPriority(c, p) {
      CountIntoAllGet(InitialByPriority, c, p);
    }
  }

  /** The statistics agree with one another and with direct counts: the
      total equals the sum of the per-category counts and the sum of the
      per-priority counts, the three priorities are always reported, each
      priority count is the number of demands carrying it, and `totalVotes`
      is the sum of `totalScore`, not of votes. */
  lemma StatsProperties(c: Corpus)
    requires DistinctKeys(c)
    ensures var s := ComputeStats(c);
      && s.totalRevendications == CorpusSize(c)
      && s.totalRevendications == Sum(s.byCategory)
      && s.totalRevendications == Sum(s.byPriority)
      && s.byCategory == CategoryCounts(c)
      && HasKey(s.byPriority, "Faible") && HasKey(s.byPriority, "Moyen") && HasKey(s.byPriority, "Élevé")
      && NonNegative(s.byPriority)
      && (forall p :: Get(s.byPriority, p, 0) == CountPriority(c, p))
      && s.totalVotes == ScoreSum(c)
  {
    StatsTotals(c);
    StatsByCategory(c);
    StatsByPriority(c);
  }

  // ------------------------------------------------------------- the route

  /** What `/api/stats` leaves behind: the reloaded corpus, the reloaded
      analysis log, and the statistics it answers with. */
  datatype StatsRun = StatsRun(corpus: Corpus, log: Log, stats: Stats)

  /** `/api/stats`: `await loadAllRevendications()` first, which replaces the
      analysis log held in memory (`log`) by the stored one and the corpus by
      the reloaded one (the previous corpus when the directory cannot be
      listed); then the fold over the reloaded corpus. */
  function StatsRoute(previous: Corpus, log: Log, storedLog: Option<Log>,
                      listing: Option<seq<DirEntry>>): StatsRun
  {
    var corpus := LoadAll(previous, listing);
    StatsRun(corpus, LoadLog(storedLog), ComputeStats(corpus))
  }

  /** The statistics describe the corpus as reloaded from disk, not the one
      held before the request: a listed directory yields a loaded corpus
      filed under its category files, a failed listing keeps the previous
      one. The in-memory analysis log is dropped in favour of the stored one,
      and is emptied when that cannot be read. */
  lemma StatsRouteProperties(previous: Corpus, log: Log, storedLog: Option<Log>,
                             listing: Option<seq<DirEntry>>)
    requires DistinctKeys(previous)
    ensures var r := StatsRoute(previous, log, storedLog, listing);
      var s := r.stats;
      && (listing.None? ==> r.corpus == previous)
      && (listing.Some? ==> Loaded(r.corpus) && forall k :: HasKey(r.corpus, k) ==> FiledUnder(listing.value, k))
      && (storedLog.None? ==> r.log == [])
      && (storedLog.Some? ==> r.log == storedLog.value)
      && s.totalRevendications == CorpusSize(r.corpus)
      && s.totalRevendications == Sum(s.byCategory)
      && s.byCategory == CategoryCounts(r.corpus)
      && (forall p :: Get(s.byPriority, p, 0) == CountPriority(r.corpus, p))
      && s.totalVotes == ScoreSum(r.corpus)
  {
    LoadAllProperties(previous, listing);
    StatsProperties(LoadAll(previous, listing));
  }
}
