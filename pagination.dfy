/** The page responses of the two job boards and the pagination rules of
    the outer loops of `get_hh_stats` (main.py:35-61) and `get_sj_stats`
    (main.py:80-112). `get_response` is replaced by a supplied sequence of
    fetch outcomes indexed by page number. */
module Pagination {
  import opened Outcomes
  import opened Vacancies

  /** One hh.ru response: `items`, `found` and `pages`. */
  datatype HhPage = HhPage(items: seq<HhVacancy>, found: int, pages: int)

  /** One SuperJob response: `objects`, `total` and `more`. */
  datatype SjPage = SjPage(objects: seq<SjVacancy>, total: int, more: bool)

  /** The outcome of `get_response` for one page: the decoded body, or a
      failed request (`raise_for_status` or a connection error). */
  datatype Fetch<P> = Received(page: P) | Failed

  // ---------------------------------------------------------------- hh.ru

  /** The hh.ru loop ends at page `k`: the request failed, or
      `k >= pages - 1` (main.py:58-61). A TypeError raised by a record of
      the page (main.py:52) ends it too, possibly on an earlier page; that
      exit is part of `HhCollect`, not of this rule. */
  predicate HhStops(k: nat, f: Fetch<HhPage>) {
    f.Failed? || k >= f.page.pages - 1
  }

  /** Some page at or after `i` ends the hh.ru loop. */
  predicate HhEndsFrom(rs: seq<Fetch<HhPage>>, i: nat) {
    exists k :: i <= k < |rs| && HhStops(k, rs[k])
  }

  /** The first page at or after `i` that ends the hh.ru loop. */
  function HhFirstStop(rs: seq<Fetch<HhPage>>, i: nat): (k: nat)
    requires HhEndsFrom(rs, i)
    ensures i <= k < |rs| && HhStops(k, rs[k])
    ensures forall j :: i <= j < k ==> !HhStops(j, rs[j])
    decreases |rs| - i
  {
    if HhStops(i, rs[i]) then i else HhFirstStop(rs, i + 1)
  }

  /** The estimates collected from pages `i`, `i + 1`, …, in page and item
      order, up to the page that ends the loop; fails with the first
      error raised on the way. */
  function HhCollect(rs: seq<Fetch<HhPage>>, i: nat): (r: Result<seq<real>>)
    requires HhEndsFrom(rs, i)
    ensures r.Ok? ==> forall j :: i <= j <= HhFirstStop(rs, i) ==> rs[j].Received?
    ensures r.Ok? ==> |r.value| <= HhSeen(rs, i)
    ensures r.Err? ==> r.error == TransportError || r.error == TypeError
    decreases |rs| - i
  {
    match rs[i]
    case Failed => Err(TransportError)
    case Received(p) =>
      var salaries :- HhItems(p.items);
      if i >= p.pages - 1 then Ok(salaries)
      else Prepend(salaries, HhCollect(rs, i + 1))
  }

  /** One iteration of the hh.ru loop that does not end it. */
  lemma HhCollectStep(rs: seq<Fetch<HhPage>>, i: nat)
    requires HhEndsFrom(rs, i) && !HhStops(i, rs[i]) && HhItems(rs[i].page.items).Ok?
    ensures HhEndsFrom(rs, i + 1)
    ensures HhCollect(rs, i) == Prepend(HhItems(rs[i].page.items).value, HhCollect(rs, i + 1))
  {
    var k :| i <= k < |rs| && HhStops(k, rs[k]);
    assert k != i;
  }

  /** The number of records on the pages the hh.ru loop fetches from page `i` on. */
  function HhSeen(rs: seq<Fetch<HhPage>>, i: nat): nat
    requires HhEndsFrom(rs, i)
    decreases |rs| - i
  {
    var here := if rs[i].Received? then |rs[i].page.items| else 0;
    if HhStops(i, rs[i]) then here else here + HhSeen(rs, i + 1)
  }

  /** The number of records that pass the hh.ru filter on the pages the
      loop fetches from page `i` on. */
  function HhUsable(rs: seq<Fetch<HhPage>>, i: nat): nat
    requires HhEndsFrom(rs, i)
    decreases |rs| - i
  {
    var here := if rs[i].Received? then HhAcceptedCount(rs[i].page.items) else 0;
    if HhStops(i, rs[i]) then here else here + HhUsable(rs, i + 1)
  }

  /** The hh.ru collection succeeds exactly when every fetched page was
      received and none of its records raised, and then it holds one
      estimate per accepted record on those pages. */
  lemma {:induction false} HhCollectExact(rs: seq<Fetch<HhPage>>, i: nat)
    requires HhEndsFrom(rs, i)
    ensures HhCollect(rs, i).Ok? <==>
      forall j :: i <= j <= HhFirstStop(rs, i) ==> rs[j].Received? && HhItems(rs[j].page.items).Ok?
    ensures HhCollect(rs, i).Ok? ==> |HhCollect(rs, i).value| == HhUsable(rs, i)
    decreases |rs| - i
  {
    if !HhStops(i, rs[i]) {
      HhCollectExact(rs, i + 1);
    }
  }

  /** Only the pages up to the first stopping page are ever read: any
      sequence that agrees with `rs` on them gives the same collection. */
  lemma {:induction false} HhCollectPrefix(rs: seq<Fetch<HhPage>>, i: nat, n: nat)
    requires HhEndsFrom(rs, i) && HhFirstStop(rs, i) < n <= |rs|
    ensures HhEndsFrom(rs[..n], i)
    ensures HhFirstStop(rs[..n], i) == HhFirstStop(rs, i)
    ensures HhCollect(rs[..n], i) == HhCollect(rs, i)
    decreases |rs| - i
  {
    var k := HhFirstStop(rs, i);
    assert rs[..n][k] == rs[k];
    assert rs[..n][i] == rs[i];
    if !HhStops(i, rs[i]) {
      HhCollectPrefix(rs, i + 1, n);
    }
  }

  /** A response with `pages` of 0 or 1 ends the loop at once. */
  lemma HhSinglePage(rs: seq<Fetch<HhPage>>)
    requires |rs| > 0 && rs[0].Received? && rs[0].page.pages <= 1
    ensures HhEndsFrom(rs, 0) && HhFirstStop(rs, 0) == 0
    ensures HhCollect(rs, 0) == HhItems(rs[0].page.items)
  {
    assert HhStops(0, rs[0]);
  }

  /** Three pages that each report `pages = 3` are all fetched, and no more. */
  lemma HhThreePages(rs: seq<Fetch<HhPage>>)
    requires |rs| >= 3 && forall j :: 0 <= j < 3 ==> rs[j].Received? && rs[j].page.pages == 3
    ensures HhEndsFrom(rs, 0) && HhFirstStop(rs, 0) == 2
  {
    assert HhStops(2, rs[2]);
    assert !HhStops(0, rs[0]) && !HhStops(1, rs[1]);
  }

  /** When none of their records raises, three pages that each report
      `pages = 3` are collected in page order, and no further page is. */
  lemma HhThreePagesCollect(rs: seq<Fetch<HhPage>>)
    requires |rs| >= 3 && forall j :: 0 <= j < 3 ==> rs[j].Received? && rs[j].page.pages == 3
    requires forall j :: 0 <= j < 3 ==> HhItems(rs[j].page.items).Ok?
    ensures HhEndsFrom(rs, 0)
    ensures HhCollect(rs, 0) ==
      Ok(HhItems(rs[0].page.items).value + HhItems(rs[1].page.items).value + HhItems(rs[2].page.items).value)
  {
    HhThreePages(rs);
    HhCollectStep(rs, 0);
    HhCollectStep(rs, 1);
    PrependPrepend(HhItems(rs[0].page.items).value, HhItems(rs[1].page.items).value, HhCollect(rs, 2));
  }

  /** All bounds on the pages from `i` on are absent or non-negative. */
  predicate HhPagesNonNegative(rs: seq<Fetch<HhPage>>, i: nat) {
    forall j, k :: i <= j < |rs| && rs[j].Received? && 0 <= k < |rs[j].page.items| ==>
      HhNonNegative(rs[j].page.items[k])
  }

  lemma {:induction false} HhCollectNonNegative(rs: seq<Fetch<HhPage>>, i: nat)
    requires HhEndsFrom(rs, i) && HhPagesNonNegative(rs, i) && HhCollect(rs, i).Ok?
    ensures forall k :: 0 <= k < |HhCollect(rs, i).value| ==> HhCollect(rs, i).value[k] >= 0.0
    decreases |rs| - i
  {
    var p := rs[i].page;
    HhItemsNonNegative(p.items);
    if i < p.pages - 1 {
      HhCollectNonNegative(rs, i + 1);
    }
  }

  // ------------------------------------------------------------- SuperJob

  /** The SuperJob loop ends at a page whose request failed, whose
      `objects` is empty (main.py:92-94) or whose `more` is false
      (main.py:109-112). */
  predicate SjStops(f: Fetch<SjPage>) {
    f.Failed? || f.page.objects == [] || !f.page.more
  }

  /** Some page at or after `i` ends the SuperJob loop. */
  predicate SjEndsFrom(rs: seq<Fetch<SjPage>>, i: nat) {
    exists k :: i <= k < |rs| && SjStops(rs[k])
  }

  /** The first page at or after `i` that ends the SuperJob loop. */
  function SjFirstStop(rs: seq<Fetch<SjPage>>, i: nat): (k: nat)
    requires SjEndsFrom(rs, i)
    ensures i <= k < |rs| && SjStops(rs[k])
    ensures forall j :: i <= j < k ==> !SjStops(rs[j])
    decreases |rs| - i
  {
    if SjStops(rs[i]) then i else SjFirstStop(rs, i + 1)
  }

  /** The estimates collected from pages `i`, `i + 1`, … in page and item
      order. A page with no objects ends the loop without contributing;
      a page whose `more` is false contributes and then ends it. */
  function SjCollect(rs: seq<Fetch<SjPage>>, i: nat): (r: Result<seq<real>>)
    requires SjEndsFrom(rs, i)
    ensures r.Ok? ==> forall j :: i <= j <= SjFirstStop(rs, i) ==> rs[j].Received?
    ensures r.Ok? ==> |r.value| <= SjSeen(rs, i)
    ensures r.Err? ==> r.error == TransportError
    decreases |rs| - i
  {
    match rs[i]
    case Failed => Err(TransportError)
    case Received(p) =>
      if p.objects == [] then Ok([])
      else if !p.more then Ok(SjItems(p.objects))
      else Prepend(SjItems(p.objects), SjCollect(rs, i + 1))
  }

  /** One iteration of the SuperJob loop that does not end it. */
  lemma SjCollectStep(rs: seq<Fetch<SjPage>>, i: nat)
    requires SjEndsFrom(rs, i) && !SjStops(rs[i])
    ensures SjEndsFrom(rs, i + 1)
    ensures SjCollect(rs, i) == Prepend(SjItems(rs[i].page.objects), SjCollect(rs, i + 1))
  {
    var k :| i <= k < |rs| && SjStops(rs[k]);
    assert k != i;
  }

  /** The number of records on the pages the SuperJob loop fetches from page `i` on. */
  function SjSeen(rs: seq<Fetch<SjPage>>, i: nat): nat
    requires SjEndsFrom(rs, i)
    decreases |rs| - i
  {
    var here := if rs[i].Received? then |rs[i].page.objects| else 0;
    if SjStops(rs[i]) then here else here + SjSeen(rs, i + 1)
  }

  /** The number of records that pass the SuperJob filter on the pages the
      loop fetches from page `i` on; an empty page has none. */
  function SjUsable(rs: seq<Fetch<SjPage>>, i: nat): nat
    requires SjEndsFrom(rs, i)
    decreases |rs| - i
  {
    var here := if rs[i].Received? then SjAcceptedCount(rs[i].page.objects) else 0;
    if SjStops(rs[i]) then here else here + SjUsable(rs, i + 1)
  }

  /** The SuperJob collection succeeds exactly when every fetched page was
      received, and then it holds one estimate per accepted record on
      those pages. */
  lemma {:induction false} SjCollectExact(rs: seq<Fetch<SjPage>>, i: nat)
    requires SjEndsFrom(rs, i)
    ensures SjCollect(rs, i).Ok? <==> forall j :: i <= j <= SjFirstStop(rs, i) ==> rs[j].Received?
    ensures SjCollect(rs, i).Ok? ==> |SjCollect(rs, i).value| == SjUsable(rs, i)
    decreases |rs| - i
  {
    if !SjStops(rs[i]) {
      SjCollectExact(rs, i + 1);
    }
  }

  /** Only the pages up to the first stopping page are ever read. */
  lemma {:induction false} SjCollectPrefix(rs: seq<Fetch<SjPage>>, i: nat, n: nat)
    requires SjEndsFrom(rs, i) && SjFirstStop(rs, i) < n <= |rs|
    ensures SjEndsFrom(rs[..n], i)
    ensures SjFirstStop(rs[..n], i) == SjFirstStop(rs, i)
    ensures SjCollect(rs[..n], i) == SjCollect(rs, i)
    decreases |rs| - i
  {
    var k := SjFirstStop(rs, i);
    assert rs[..n][k] == rs[k];
    assert rs[..n][i] == rs[i];
    if !SjStops(rs[i]) {
      SjCollectPrefix(rs, i + 1, n);
    }
  }

  /** An empty page ends the loop whatever its `more` flag says, and
      contributes nothing. */
  lemma SjEmptyPageEnds(rs: seq<Fetch<SjPage>>, i: nat)
    requires i < |rs| && rs[i].Received? && rs[i].page.objects == []
    ensures SjEndsFrom(rs, i) && SjFirstStop(rs, i) == i
    ensures SjCollect(rs, i) == Ok([])
  {
    assert SjStops(rs[i]);
  }

  /** All bounds on the pages from `i` on are absent or non-negative. */
  predicate SjPagesNonNegative(rs: seq<Fetch<SjPage>>, i: nat) {
    forall j, k :: i <= j < |rs| && rs[j].Received? && 0 <= k < |rs[j].page.objects| ==>
      SjNonNegative(rs[j].page.objects[k])
  }

  lemma {:induction false} SjCollectNonNegative(rs: seq<Fetch<SjPage>>, i: nat)
    requires SjEndsFrom(rs, i) && SjPagesNonNegative(rs, i) && SjCollect(rs, i).Ok?
    ensures forall k :: 0 <= k < |SjCollect(rs, i).value| ==> SjCollect(rs, i).value[k] >= 0.0
    decreases |rs| - i
  {
    var p := rs[i].page;
    SjItemsNonNegative(p.objects);
    if p.objects != [] && p.more {
      SjCollectNonNegative(rs, i + 1);
    }
  }
}
