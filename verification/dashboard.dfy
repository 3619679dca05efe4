/** The dashboard of docs/dashboard.js: the summary cards and priority
    table built from `/api/stats`, and the action hub listing the five
    demands with the highest priority score. */
module Dashboard {
  import opened OrderedMap
  import opened Demands
  import opened Stats

  /** Demands ranked by score, highest first. */
  predicate RankedByScore(s: seq<Demand>)
  {
    forall i, j :: 0 <= i < j < |s| ==> s[i].totalScore >= s[j].totalScore
  }

  /** Every item of every category appears in the flattened list, which is
      exactly as long as the categories together. */
  lemma {:induction false} FlattenKeepsEverything(c: Corpus)
    ensures |Flatten(c)| == CorpusSize(c)
    ensures forall k, j :: 0 <= k < |c| && 0 <= j < |c[k].1| ==> c[k].1[j] in Flatten(c)
    ensures forall d :: d in Flatten(c) ==> exists k, j :: 0 <= k < |c| && 0 <= j < |c[k].1| && c[k].1[j] == d
  {
    if c != [] {
      FlattenKeepsEverything(c[1..]);
      var f := Flatten(c);
      assert f == c[0].1 + Flatten(c[1..]);
      forall k, j | 0 <= k < |c| && 0 <= j < |c[k].1| ensures c[k].1[j] in f {
        if k == 0 {
          assert f[j] == c[0].1[j];
        } else {
          assert c[1..][k - 1] == c[k];
          assert c[k].1[j] in Flatten(c[1..]);
        }
      }
      forall d | d in f ensures exists k, j :: 0 <= k < |c| && 0 <= j < |c[k].1| && c[k].1[j] == d {
        if d in c[0].1 {
          var j :| 0 <= j < |c[0].1| && c[0].1[j] == d;
          assert c[0].1[j] == d;
        } else {
          assert d in Flatten(c[1..]);
          var k, j :| 0 <= k < |c[1..]| && 0 <= j < |c[1..][k].1| && c[1..][k].1[j] == d;
          assert c[k + 1].1[j] == d;
        }
      }
    }
  }

  /** Inserting `x` ahead of the first item it is not below: an item is put
      before later items of equal score, which keeps the sort stable. */
  function Insert(x: Demand, s: seq<Demand>): (r: seq<Demand>)
    ensures |r| == |s| + 1
    ensures r[0] == x || (s != [] && r[0] == s[0])
    ensures multiset(r) == multiset(s) + multiset{x}
  {
    if s == [] then [x]
    else if s[0].totalScore <= x.totalScore then [x] + s
    else
      assert s == [s[0]] + s[1..];
      [s[0]] + Insert(x, s[1..])
  }

  lemma {:induction false} InsertRanked(x: Demand, s: seq<Demand>)
    requires RankedByScore(s)
    ensures RankedByScore(Insert(x, s))
  {
    if s != [] && s[0].totalScore > x.totalScore {
      var t := Insert(x, s[1..]);
      InsertRanked(x, s[1..]);
      var r := [s[0]] + t;
      assert Insert(x, s) == r;
      assert s[0].totalScore >= t[0].totalScore by {
        if t[0] != x {
          assert t[0] == s[1..][0] == s[1];
        }
      }
      forall i, j | 0 <= i < j < |r| ensures r[i].totalScore >= r[j].totalScore {
        assert r[j] == t[j - 1];
        if i == 0 {
          assert t[0].totalScore >= t[j - 1].totalScore;
        } else {
          assert r[i] == t[i - 1];
        }
      }
    }
  }

  /** `globalList.sort((a, b) => (b.totalScore || 0) - (a.totalScore || 0))`:
      a stable sort, highest score first. */
  function SortByScore(s: seq<Demand>): (r: seq<Demand>)
    ensures multiset(r) == multiset(s)
    ensures |r| == |s|
  {
    if s == [] then []
    else
      assert s == [s[0]] + s[1..];
      Insert(s[0], SortByScore(s[1..]))
  }

  lemma {:induction false} SortByScoreRanked(s: seq<Demand>)
    ensures RankedByScore(SortByScore(s))
  {
    if s != [] {
      SortByScoreRanked(s[1..]);
      InsertRanked(s[0], SortByScore(s[1..]));
    }
  }

  const TopCount: nat := 5

  /** What the action hub shows: the placeholder text, or ranked cards. */
  datatype ActionHub = Placeholder | Cards(top: seq<Demand>)

  function Min(a: nat, b: nat): nat
  {
    if a < b then a else b
  }

  /** `renderActionHub`: flatten, sort, keep the first five. */
  function RenderActionHub(c: Corpus): (h: ActionHub)
  {
    var top := SortByScore(Flatten(c))[..Min(|Flatten(c)|, TopCount)];
    if |top| == 0 then Placeholder else Cards(top)
  }

  lemma {:induction false} FlattenSize(c: Corpus)
    ensures |Flatten(c)| == CorpusSize(c)
  {
    if c != [] {
      FlattenSize(c[1..]);
    }
  }

  /** Cutting a ranked permutation of `all`: the head is ranked, head and
      tail together are `all`, nothing in the tail scores above anything in
      the head, and the head holds only items of `all`. */
  lemma CutOfRanked(all: seq<Demand>, sorted: seq<Demand>, n: nat)
    requires multiset(sorted) == multiset(all) && RankedByScore(sorted) && n <= |sorted|
    ensures RankedByScore(sorted[..n])
    ensures multiset(sorted[..n]) + multiset(sorted[n..]) == multiset(all)
    ensures forall a, b :: a in sorted[n..] && b in sorted[..n] ==> a.totalScore <= b.totalScore
    ensures forall d :: d in sorted[..n] ==> d in all
  {
    assert sorted == sorted[..n] + sorted[n..];
    forall a, b | a in sorted[n..] && b in sorted[..n] ensures a.totalScore <= b.totalScore {
      var i :| 0 <= i < |sorted[n..]| && sorted[n..][i] == a;
      var j :| 0 <= j < |sorted[..n]| && sorted[..n][j] == b;
      assert sorted[n + i] == a && sorted[j] == b;
    }
    forall d | d in sorted[..n] ensures d in all {
      assert d in multiset(sorted);
    }
  }

  /** The hub shows the placeholder exactly when the corpus holds no
      demand. */
  lemma ActionHubPlaceholder(c: Corpus)
    ensures RenderActionHub(c).Placeholder? <==> CorpusSize(c) == 0
  {
    FlattenSize(c);
  }

  /** Otherwise it shows min(5, n) ranked demands, all taken from the
      corpus, and no demand left out scores above one shown. */
  lemma ActionHubCards(c: Corpus)
    ensures RenderActionHub(c).Cards? ==>
      var top := RenderActionHub(c).top;
      var sorted := SortByScore(Flatten(c));
      && |top| == Min(CorpusSize(c), TopCount)
      && RankedByScore(top)
      && multiset(top) + multiset(sorted[|top|..]) == multiset(Flatten(c))
      && (forall a, b :: a in sorted[|top|..] && b in top ==> a.totalScore <= b.totalScore)
      && (forall d :: d in top ==> d in Flatten(c))
  {
    FlattenSize(c);
    SortByScoreRanked(Flatten(c));
    CutOfRanked(Flatten(c), SortByScore(Flatten(c)), Min(|Flatten(c)|, TopCount));
  }

  /** The priority table rows, in the fixed order Élevé, Moyen, Faible,
      a missing count shown as 0. */
  function PriorityRows(byPriority: Assoc<string, int>): (rows: seq<(string, int)>)
    ensures |rows| == 3
    ensures rows[0].0 == "Élevé" && rows[1].0 == "Moyen" && rows[2].0 == "Faible"
  {
    seq(3, i requires 0 <= i < 3 =>
      var p := ["Élevé", "Moyen", "Faible"][i];
      (p, Get(byPriority, p, 0)))
  }

  /** `stats.byPriority['Élevé'] || 0`. */
  function HighPriorityCount(s: Stats): int
  {
    Get(s.byPriority, "Élevé", 0)
  }

  /** Drawn from the server's statistics, each row counts the demands of
      that priority, and the high-priority card agrees with the table. */
  lemma DashboardCountsMatchCorpus(c: Corpus)
    requires DistinctKeys(c)
    ensures var s := ComputeStats(c);
      var rows := PriorityRows(s.byPriority);
      && (forall i :: 0 <= i < 3 ==> rows[i].1 == CountPriority(c, rows[i].0) && rows[i].1 >= 0)
      && HighPriorityCount(s) == rows[0].1
  {
    StatsProperties(c);
  }
}
