/** The category view shared by docs/script.js and docs/revendications.js:
    ten demands per page, bounded previous/next navigation, the section
    switch, and the participation label on each card. */
module Pagination {
  import opened Common
  import opened OrderedMap
  import opened Demands

  /** `REVENDICATIONS_PER_PAGE`. */
  const PerPage: nat := 10

  /** `Math.ceil(n / 10)`. */
  function TotalPages(n: nat): (t: nat)
    ensures t * PerPage >= n
    ensures t > 0 ==> (t - 1) * PerPage < n
    ensures t == 0 <==> n == 0
  {
    (n + PerPage - 1) / PerPage
  }

  function Min(a: int, b: int): int
  {
    if a < b then a else b
  }

  function Max(a: int, b: int): int
  {
    if a < b then b else a
  }

  /** `Array.prototype.slice(start, end)`: negative bounds count from the
      end, both are clamped to the length, and a reversed range is empty. */
  function JsSlice<T>(s: seq<T>, start: int, end: int): (r: seq<T>)
    ensures |r| <= |s|
  {
    var from := if start < 0 then Max(|s| + start, 0) else Min(start, |s|);
    var to := if end < 0 then Max(|s| + end, 0) else Min(end, |s|);
    if to <= from then [] else s[from..to]
  }

  /** The page `page` as `renderRevendications` computes it:
      `startIndex = (page - 1) * 10`, `endIndex = min(startIndex + 10, n)`. */
  function PageItems<T>(items: seq<T>, page: int): seq<T>
  {
    var start := (page - 1) * PerPage;
    JsSlice(items, start, Min(start + PerPage, |items|))
  }

  /** A page from 1 to the page count holds the items from (p-1)·10 up to
      p·10 or the end, never more than ten and never none. */
  lemma PageItemsBounds<T>(items: seq<T>, page: int)
    requires 1 <= page <= TotalPages(|items|)
    ensures PageItems(items, page) == items[(page - 1) * PerPage..Min(page * PerPage, |items|)]
    ensures 0 < |PageItems(items, page)| <= PerPage
  {
  }

  /** Pages `page`, `page + 1`, … up to the last, concatenated. */
  function PagesFrom<T>(items: seq<T>, page: nat): seq<T>
    requires page >= 1
    decreases TotalPages(|items|) + 1 - page
  {
    if page > TotalPages(|items|) then [] else PageItems(items, page) + PagesFrom(items, page + 1)
  }

  /** Pages 1 to the page count cover the list in order, each item once. */
  lemma {:induction false} PagesPartitionFrom<T>(items: seq<T>, page: nat)
    requires 1 <= page <= TotalPages(|items|) + 1
    ensures PagesFrom(items, page) == items[Min((page - 1) * PerPage, |items|)..]
    decreases TotalPages(|items|) + 1 - page
  {
    if page <= TotalPages(|items|) {
      PageItemsBounds(items, page);
      PagesPartitionFrom(items, page + 1);
      var lo, hi := (page - 1) * PerPage, Min(page * PerPage, |items|);
      assert items[lo..] == items[lo..hi] + items[hi..];
    }
  }

  lemma PagesPartition<T>(items: seq<T>)
    ensures PagesFrom(items, 1) == items
  {
    PagesPartitionFrom(items, 1);
  }

  // ---------------------------------------------------------- navigation

  datatype Click = PrevClick | NextClick

  /** The pagination buttons' handlers. */
  function Navigate(page: int, totalPages: nat, click: Click): int
  {
    match click
    case PrevClick => if page > 1 then page - 1 else page
    case NextClick => if page < totalPages then page + 1 else page
  }

  /** The page stays between 1 and the last page (1 when the category is
      empty). */
  predicate PageInRange(page: int, totalPages: nat)
  {
    1 <= page <= Max(1, totalPages)
  }

  lemma NavigateKeepsRange(page: int, totalPages: nat, click: Click)
    requires PageInRange(page, totalPages)
    ensures PageInRange(Navigate(page, totalPages, click), totalPages)
    ensures click == PrevClick ==>
      Navigate(page, totalPages, click) == (if page > 1 then page - 1 else page)
    ensures click == NextClick && page < totalPages ==> Navigate(page, totalPages, click) == page + 1
    ensures click == NextClick && page >= totalPages ==> Navigate(page, totalPages, click) == page
  {
  }

  /** The two front-ends wire the same pager differently. docs/script.js
      re-renders the list it holds after a page change. docs/revendications.js
      re-renders into `container.querySelector('#revendications-section')`,
      where `container` already is that section: the search looks only inside
      it, finds nothing, and the re-render throws before writing anything. */
  datatype Frontend = ScriptJs | RevendicationsJs

  /** `currentPage`, and the page whose cards, counter and buttons are on
      screen. */
  datatype Pager = Pager(page: int, rendered: int)

  /** A button rendered for page `rendered` is `disabled` on the first page
      (previous) or on the last page (next). */
  predicate Enabled(rendered: int, totalPages: nat, click: Click)
  {
    match click
    case PrevClick => rendered != 1
    case NextClick => rendered != totalPages
  }

  /** One click: a disabled button fires nothing; otherwise the handler's
      guard decides, and a page change is followed by the re-render. */
  function ClickOnce(front: Frontend, totalPages: nat, p: Pager, click: Click): Pager
  {
    if !Enabled(p.rendered, totalPages, click) then p
    else
      var page := Navigate(p.page, totalPages, click);
      if page == p.page then p
      else match front
        case ScriptJs => Pager(page, page)
        case RevendicationsJs => Pager(page, p.rendered)
  }

  function RunClicks(front: Frontend, totalPages: nat, p: Pager, clicks: seq<Click>): Pager
    decreases |clicks|
  {
    if clicks == [] then p
    else RunClicks(front, totalPages, ClickOnce(front, totalPages, p, clicks[0]), clicks[1..])
  }

  function NextCount(clicks: seq<Click>): nat
  {
    if clicks == [] then 0 else (if clicks[0] == NextClick then 1 else 0) + NextCount(clicks[1..])
  }

  /** docs/script.js: the cards on screen are always those of the current
      page, and that page stays in range. */
  lemma {:induction false} ScriptPagerShowsCurrentPage(totalPages: nat, p: Pager, clicks: seq<Click>)
    requires p.rendered == p.page && PageInRange(p.page, totalPages)
    ensures var q := RunClicks(ScriptJs, totalPages, p, clicks);
      q.rendered == q.page && PageInRange(q.page, totalPages)
    decreases |clicks|
  {
    if clicks != [] {
      NavigateKeepsRange(p.page, totalPages, clicks[0]);
      ScriptPagerShowsCurrentPage(totalPages, ClickOnce(ScriptJs, totalPages, p, clicks[0]), clicks[1..]);
    }
  }

  /** docs/revendications.js: once page 1 is on screen its previous button
      stays disabled, and each next click moves `currentPage` on, up to the
      last page, while the cards and the counter of page 1 stay. */
  lemma {:induction false} ListPagerStuckOnFirstPage(totalPages: nat, p: Pager, clicks: seq<Click>)
    requires p.rendered == 1 && PageInRange(p.page, totalPages)
    ensures var q := RunClicks(RevendicationsJs, totalPages, p, clicks);
      && q.rendered == 1
      && q.page == Min(p.page + NextCount(clicks), Max(1, totalPages))
    decreases |clicks|
  {
    if clicks != [] {
      var p' := ClickOnce(RevendicationsJs, totalPages, p, clicks[0]);
      assert p'.rendered == 1;
      assert p'.page == if clicks[0] == NextClick then Min(p.page + 1, Max(1, totalPages)) else p.page;
      ListPagerStuckOnFirstPage(totalPages, p', clicks[1..]);
    }
  }

  /** A run of clicks from the first page, as after `showSection`: the page
      reached is always one the category has. With docs/script.js the items
      shown are that page's slice; with docs/revendications.js they stay
      those of page 1 whatever the counter says. */
  method ClickThrough<T>(front: Frontend, items: seq<T>, clicks: seq<Click>) returns (page: int, shown: seq<T>)
    ensures PageInRange(page, TotalPages(|items|))
    ensures front == ScriptJs ==> shown == PageItems(items, page)
    ensures front == ScriptJs && items != [] ==>
      0 < |shown| <= PerPage && shown == items[(page - 1) * PerPage..Min(page * PerPage, |items|)]
    ensures front == RevendicationsJs ==>
      && shown == PageItems(items, 1)
      && page == Min(1 + NextCount(clicks), Max(1, TotalPages(|items|)))
  {
    var totalPages := TotalPages(|items|);
    var p := Pager(1, 1);
    var i := 0;
    while i < |clicks|
      invariant 0 <= i <= |clicks|
      invariant RunClicks(front, totalPages, p, clicks[i..]) == RunClicks(front, totalPages, Pager(1, 1), clicks)
    {
      assert clicks[i..][1..] == clicks[i + 1..];
      p := ClickOnce(front, totalPages, p, clicks[i]);
      i := i + 1;
    }
    assert clicks[i..] == [];
    if front == ScriptJs {
      ScriptPagerShowsCurrentPage(totalPages, Pager(1, 1), clicks);
    } else {
      ListPagerStuckOnFirstPage(totalPages, Pager(1, 1), clicks);
    }
    page, shown := p.page, PageItems(items, p.rendered);
    if front == ScriptJs && items != [] {
      PageItemsBounds(items, page);
    }
  }

  /** The two front-ends part on the first click: with more than ten
      demands, one click on next shows page 2 in docs/script.js, while
      docs/revendications.js moves its counter to 2 and keeps the first ten
      demands on screen. */
  lemma FrontEndsPartOnSecondPage<T>(items: seq<T>)
    requires |items| > PerPage
    ensures RunClicks(ScriptJs, TotalPages(|items|), Pager(1, 1), [NextClick]) == Pager(2, 2)
    ensures RunClicks(RevendicationsJs, TotalPages(|items|), Pager(1, 1), [NextClick]) == Pager(2, 1)
    ensures PageItems(items, 2) == items[PerPage..Min(2 * PerPage, |items|)]
    ensures PageItems(items, 1) == items[..PerPage]
  {
    var tp := TotalPages(|items|);
    assert tp >= 2;
    assert [NextClick][1..] == [];
    PageItemsBounds(items, 1);
    PageItemsBounds(items, 2);
  }

  // ------------------------------------------------------ section switch

  /** `currentCategoryKey` and `currentPage`. */
  datatype View = View(categoryKey: Option<string>, page: int)

  /** `showSection` (both files): an unknown category changes nothing; a
      known one becomes current and its first page is shown. */
  function ShowSection(data: Corpus, view: View, key: string): (v: View)
    ensures !HasKey(data, key) ==> v == view
    ensures HasKey(data, key) ==> v.categoryKey == Some(key) && v.page == 1
  {
    if !HasKey(data, key) then view else View(Some(key), 1)
  }

  /** The category a view lists: `allData[currentCategoryKey] || []`. */
  function CategoryItems(data: Corpus, view: View): seq<Demand>
  {
    if view.categoryKey.Some? then Get(data, view.categoryKey.value, []) else []
  }

  /** Switching to a known category lands on a page in range that shows
      the start of that category. */
  lemma ShowSectionStartsAtTop(data: Corpus, view: View, key: string)
    requires HasKey(data, key)
    ensures var v := ShowSection(data, view, key);
      var items := CategoryItems(data, v);
      && items == Get(data, key, [])
      && PageInRange(v.page, TotalPages(|items|))
      && PageItems(items, v.page) == items[..Min(PerPage, |items|)]
  {
  }

  // ------------------------------------------------ participation label

  /** The count shown on a card, or 'Pas encore de vote'. */
  datatype Participation = Votes(count: nat) | NoVoteYet

  function ParticipationText(p: Participation): string
  {
    match p
    case Votes(n) => NatToString(n) + " Votes"
    case NoVoteYet => "Pas encore de vote"
  }

  /** `totalVotes > 0 ? … : 'Pas encore de vote'`; NaN is not above 0. */
  function ParticipationOf(total: Option<int>): (p: Participation)
    ensures p.Votes? <==> total.Some? && total.value > 0
    ensures p.Votes? ==> p.count == total.value
  {
    if total.Some? && total.value > 0 then Votes(total.value) else NoVoteYet
  }

  /** docs/script.js sums the counters on the card. */
  function ScriptCardParticipation(d: Demand): Participation
  {
    ParticipationOf(CounterSum(d.votes))
  }

  /** docs/revendications.js shows `item.totalVotes || 0`. */
  function ListCardParticipation(d: Demand): Participation
  {
    ParticipationOf(Some(d.totalVotes))
  }

  /** On a loaded demand with all three counters the two cards agree, and
      with non-negative counters 'Pas encore de vote' means no vote at all. */
  lemma CardLabelsAgree(d: Demand)
    requires Consistent(d)
    requires Oui in d.votes && Non in d.votes && Abstention in d.votes
    ensures ScriptCardParticipation(d) == ListCardParticipation(d)
    ensures d.votes[Oui] >= 0 && d.votes[Non] >= 0 && d.votes[Abstention] >= 0 ==>
      (ScriptCardParticipation(d) == NoVoteYet <==> d.votes[Oui] == d.votes[Non] == d.votes[Abstention] == 0)
  {
  }

  /** A stored `votes` object lacking a counter is where they can part: the
      sum on the script.js card is NaN, so it reads 'Pas encore de vote',
      while the list card shows the loaded total. They disagree exactly when
      that total is positive. */
  lemma CardLabelsOnPartialVotes(d: Demand)
    requires !(Oui in d.votes && Non in d.votes && Abstention in d.votes)
    ensures ScriptCardParticipation(d) == NoVoteYet
    ensures ListCardParticipation(d) == if d.totalVotes > 0 then Votes(d.totalVotes) else NoVoteYet
    ensures ScriptCardParticipation(d) != ListCardParticipation(d) <==> d.totalVotes > 0
  {
  }

  /** A stored `{oui: 2}` is one such case: the list card shows 2 votes and
      the script.js card none. */
  lemma CardLabelsDifferOnPartialVotes()
    ensures var d := Demand("x-0", "x", "r", map[Oui := 2], 2, "Législatif", "Faible", 0);
      && Consistent(d)
      && ScriptCardParticipation(d) == NoVoteYet
      && ListCardParticipation(d) == Votes(2)
  {
    var d := Demand("x-0", "x", "r", map[Oui := 2], 2, "Législatif", "Faible", 0);
    assert Non !in d.votes;
  }
}
