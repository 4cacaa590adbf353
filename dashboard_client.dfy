/** The interactive dashboard: realtime row updates, the sort toggle and
    the client-side sort of computed columns, pagination, and the state a
    data refresh installs. Rendering is not modelled. */
module DashboardClient {
  import opened Js
  import opened MarketUtils
  import DashboardPage

  // ---------------------------------------------------------------------
  // Realtime updates

  /** The `payload.new` row of a `route_stats` UPDATE event. */
  datatype RouteUpdate = RouteUpdate(
    origin_country: string, dest_country: string, body_group: string,
    avg_rate_per_km: real, offers_count: int)

  /** The sparkline with one more point: an absent sparkline starts over. */
  function AppendPoint(sparkline: Option<seq<real>>, v: real): (r: seq<real>)
    ensures |r| == (if sparkline.Some? then |sparkline.value| else 0) + 1
    ensures r[|r| - 1] == v
    ensures sparkline.Some? ==> r[..|r| - 1] == sparkline.value
  {
    if sparkline.Some? then sparkline.value + [v] else [v]
  }

  /** A row after an update that concerns it: new rate and offer count,
      one more sparkline point. */
  function Refresh(r: RouteStat, u: RouteUpdate): RouteStat {
    r.(avg_rate_per_km := u.avg_rate_per_km, offers_count := u.offers_count,
       sparkline := Some(AppendPoint(r.sparkline, u.avg_rate_per_km)))
  }

  /** The main-table reducer for an update of an `ALL` row. */
  function ApplyMainUpdate(routes: seq<RouteStat>, u: RouteUpdate): seq<RouteStat> {
    seq(|routes|, i requires 0 <= i < |routes| =>
      if routes[i].origin_country == u.origin_country && routes[i].dest_country == u.dest_country
      then Refresh(routes[i], u) else routes[i])
  }

  /** The sub-row cache reducer for an update of a body-group row. */
  function ApplySubUpdate(cache: map<string, seq<RouteStat>>, u: RouteUpdate): map<string, seq<RouteStat>> {
    var key := DashboardPage.RouteKeyText(u.origin_country, u.dest_country);
    if key !in cache then cache
    else
      var subs := cache[key];
      cache[key := seq(|subs|, i requires 0 <= i < |subs| =>
                    if subs[i].body_group == u.body_group then Refresh(subs[i], u) else subs[i])]
  }

  /** A refreshed row keeps its rank, changes, caps and identity; only the
      rate, the offer count and the sparkline move, the sparkline by
      exactly one point carrying the new rate. */
  lemma RefreshChangesOnlyLiveFields(r: RouteStat, u: RouteUpdate)
    ensures var r' := Refresh(r, u);
      && r'.(avg_rate_per_km := r.avg_rate_per_km, offers_count := r.offers_count, sparkline := r.sparkline) == r
      && r'.avg_rate_per_km == u.avg_rate_per_km && r'.offers_count == u.offers_count
      && r'.sparkline.Some?
      && |r'.sparkline.value| == (if r.sparkline.Some? then |r.sparkline.value| else 0) + 1
      && r'.sparkline.value[|r'.sparkline.value| - 1] == u.avg_rate_per_km
  {
  }

  /** An `ALL` update touches exactly the rows of its origin and destination,
      leaving the order and every other row as they were. */
  lemma MainUpdateTouchesOnlyItsRoute(routes: seq<RouteStat>, u: RouteUpdate)
    ensures var out := ApplyMainUpdate(routes, u);
      && |out| == |routes|
      && forall i :: 0 <= i < |routes| ==>
        && ((routes[i].origin_country == u.origin_country && routes[i].dest_country == u.dest_country)
              ==> out[i] == Refresh(routes[i], u) && out[i].rank == routes[i].rank)
        && ((routes[i].origin_country != u.origin_country || routes[i].dest_country != u.dest_country)
              ==> out[i] == routes[i])
  {
  }

  /** A body-group update changes nothing when its route was never
      expanded; otherwise it changes only that route's entry, and in it only
      the rows of its body group. */
  lemma SubUpdateTouchesOnlyItsGroup(cache: map<string, seq<RouteStat>>, u: RouteUpdate)
    ensures var key := DashboardPage.RouteKeyText(u.origin_country, u.dest_country);
      var out := ApplySubUpdate(cache, u);
      && (key !in cache ==> out == cache)
      && out.Keys == cache.Keys
      && (forall k :: k in cache && k != key ==> out[k] == cache[k])
      && (key in cache ==>
            |out[key]| == |cache[key]|
            && forall i :: 0 <= i < |cache[key]| ==>
                 out[key][i] == (if cache[key][i].body_group == u.body_group then Refresh(cache[key][i], u) else cache[key][i]))
  {
  }

  /** `n` updates of the same route grow each of its sparklines by `n` points. */
  function ApplyMainUpdates(routes: seq<RouteStat>, us: seq<RouteUpdate>): seq<RouteStat>
    decreases |us|
  {
    if us == [] then routes else ApplyMainUpdates(ApplyMainUpdate(routes, us[0]), us[1..])
  }

  function SparkLen(r: RouteStat): nat {
    if r.sparkline.Some? then |r.sparkline.value| else 0
  }

  lemma {:induction false} SparklineGrowsPerUpdate(routes: seq<RouteStat>, us: seq<RouteUpdate>, i: nat)
    requires i < |routes|
    requires forall k :: 0 <= k < |us| ==>
      us[k].origin_country == routes[i].origin_country && us[k].dest_country == routes[i].dest_country
    ensures |ApplyMainUpdates(routes, us)| == |routes|
    ensures SparkLen(ApplyMainUpdates(routes, us)[i]) == SparkLen(routes[i]) + |us|
    ensures ApplyMainUpdates(routes, us)[i].rank == routes[i].rank
    decreases |us|
  {
    if us != [] {
      var next := ApplyMainUpdate(routes, us[0]);
      assert next[i] == Refresh(routes[i], us[0]);
      SparklineGrowsPerUpdate(next, us[1..], i);
    }
  }

  // ---------------------------------------------------------------------
  // Sorting

  /** The sortable columns of the table, and `offers_count`, the default
      order. */
  datatype SortKey = OriginCountry | AvgRatePerKm | OffersCount | Change1h | Change24h | Change7d | MarketCap | Volume24h

  datatype Direction = Asc | Desc

  datatype SortConfig = SortConfig(key: SortKey, direction: Direction)

  /** Columns the store already orders by. */
  predicate IsServerSide(key: SortKey) {
    key == OffersCount || key == AvgRatePerKm || key == OriginCountry
  }

  /** `handleSort`: a new column sorts descending; the current column goes
      from descending to ascending and then back to no sort. */
  function NextSort(config: Option<SortConfig>, key: SortKey): Option<SortConfig> {
    if config.Some? && config.value.key == key then
      (if config.value.direction == Desc then Some(SortConfig(key, Asc)) else None)
    else Some(SortConfig(key, Desc))
  }

  /** Three clicks on one column cycle through descending, ascending and
      unsorted, whatever was sorted before. */
  lemma SortCycle(config: Option<SortConfig>, key: SortKey)
    requires config.None? || config.value.key != key
    ensures NextSort(config, key) == Some(SortConfig(key, Desc))
    ensures NextSort(NextSort(config, key), key) == Some(SortConfig(key, Asc))
    ensures NextSort(NextSort(NextSort(config, key), key), key) == None
  {
  }

  /** The value of a client-sorted column, absent when the row has none. */
  function SortValue(r: RouteStat, key: SortKey): Option<real>
    requires !IsServerSide(key)
  {
    match key
    case Change1h => r.change_1h
    case Change24h => r.change_24h
    case Change7d => r.change_7d
    case MarketCap => r.market_cap
    case Volume24h => r.volume_24h
  }

  /** `a` may come before `b`: rows without a value go last, the others
      follow the direction. */
  predicate InOrder(a: RouteStat, b: RouteStat, key: SortKey, dir: Direction)
    requires !IsServerSide(key)
  {
    var va := SortValue(a, key);
    var vb := SortValue(b, key);
    vb.None? || (va.Some? && (if dir == Asc then va.value <= vb.value else va.value >= vb.value))
  }

  predicate Sorted(rs: seq<RouteStat>, key: SortKey, dir: Direction)
    requires !IsServerSide(key)
  {
    forall i, j :: 0 <= i < j < |rs| ==> InOrder(rs[i], rs[j], key, dir)
  }

  /** Insert `x` before the first row it may precede. */
  function Insert(x: RouteStat, s: seq<RouteStat>, key: SortKey, dir: Direction): seq<RouteStat>
    requires !IsServerSide(key)
    decreases |s|
  {
    if s == [] || InOrder(x, s[0], key, dir) then [x] + s else [s[0]] + Insert(x, s[1..], key, dir)
  }

  /** The comparator's order, as a stable sort. */
  function SortRows(rs: seq<RouteStat>, key: SortKey, dir: Direction): seq<RouteStat>
    requires !IsServerSide(key)
    decreases |rs|
  {
    if rs == [] then [] else Insert(rs[0], SortRows(rs[1..], key, dir), key, dir)
  }

  /** `sortedRoutes` */
  function SortedRoutes(routes: seq<RouteStat>, config: Option<SortConfig>): seq<RouteStat> {
    if config.None? || IsServerSide(config.value.key) then routes
    else SortRows(routes, config.value.key, config.value.direction)
  }

  lemma InOrderTotal(a: RouteStat, b: RouteStat, key: SortKey, dir: Direction)
    requires !IsServerSide(key)
    ensures InOrder(a, b, key, dir) || InOrder(b, a, key, dir)
  {
  }

  lemma InOrderTransitive(a: RouteStat, b: RouteStat, c: RouteStat, key: SortKey, dir: Direction)
    requires !IsServerSide(key)
    requires InOrder(a, b, key, dir) && InOrder(b, c, key, dir)
    ensures InOrder(a, c, key, dir)
  {
  }

  /** A row that may precede every row of a sorted sequence may head it. */
  lemma ConsSorted(h: RouteStat, t: seq<RouteStat>, key: SortKey, dir: Direction)
    requires !IsServerSide(key)
    requires Sorted(t, key, dir)
    requires forall e :: e in t ==> InOrder(h, e, key, dir)
    ensures Sorted([h] + t, key, dir)
  {
    var u := [h] + t;
    forall i, j | 0 <= i < j < |u| ensures InOrder(u[i], u[j], key, dir) {
      assert u[j] == t[j - 1];
      if i > 0 {
        assert u[i] == t[i - 1];
      }
    }
  }

  lemma {:induction false} InsertSorted(x: RouteStat, s: seq<RouteStat>, key: SortKey, dir: Direction)
    requires !IsServerSide(key)
    requires Sorted(s, key, dir)
    ensures multiset(Insert(x, s, key, dir)) == multiset(s) + multiset{x}
    ensures Sorted(Insert(x, s, key, dir), key, dir)
    decreases |s|
  {
    if s == [] {
    } else if InOrder(x, s[0], key, dir) {
      forall e | e in s ensures InOrder(x, e, key, dir) {
        var k :| 0 <= k < |s| && s[k] == e;
        if k > 0 {
          InOrderTransitive(x, s[0], e, key, dir);
        }
      }
      ConsSorted(x, s, key, dir);
    } else {
      InOrderTotal(x, s[0], key, dir);
      var tail := s[1..];
      assert Sorted(tail, key, dir) by {
        forall i, j | 0 <= i < j < |tail| ensures InOrder(tail[i], tail[j], key, dir) {
          assert tail[i] == s[i + 1] && tail[j] == s[j + 1];
        }
      }
      InsertSorted(x, tail, key, dir);
      var rest := Insert(x, tail, key, dir);
      forall e | e in rest ensures InOrder(s[0], e, key, dir) {
        assert e in multiset(rest);
        if e != x {
          assert e in multiset(tail);
          var k :| 0 <= k < |tail| && tail[k] == e;
          assert s[k + 1] == e;
        }
      }
      ConsSorted(s[0], rest, key, dir);
      assert s == [s[0]] + tail;
    }
  }

  /** The client sort is a permutation of the page's rows, ordered by the
      column in the chosen direction, with rows lacking a value last. */
  lemma {:induction false} SortRowsIsSortedPermutation(rs: seq<RouteStat>, key: SortKey, dir: Direction)
    requires !IsServerSide(key)
    ensures multiset(SortRows(rs, key, dir)) == multiset(rs)
    ensures Sorted(SortRows(rs, key, dir), key, dir)
    decreases |rs|
  {
    if rs != [] {
      SortRowsIsSortedPermutation(rs[1..], key, dir);
      InsertSorted(rs[0], SortRows(rs[1..], key, dir), key, dir);
      assert rs == [rs[0]] + rs[1..];
    }
  }

  /** Without a sort, or for a column the store orders, the rows are shown
      as fetched; otherwise they are reordered, never added or dropped, and
      every row with a value precedes every row without one. */
  lemma SortedRoutesContract(routes: seq<RouteStat>, config: Option<SortConfig>)
    ensures config.None? || IsServerSide(config.value.key) ==> SortedRoutes(routes, config) == routes
    ensures multiset(SortedRoutes(routes, config)) == multiset(routes)
    ensures config.Some? && !IsServerSide(config.value.key) ==>
      var out := SortedRoutes(routes, config);
      forall i, j :: 0 <= i < j < |out| && SortValue(out[i], config.value.key).None?
        ==> SortValue(out[j], config.value.key).None?
  {
    if config.Some? && !IsServerSide(config.value.key) {
      SortRowsIsSortedPermutation(routes, config.value.key, config.value.direction);
    }
  }

  // ---------------------------------------------------------------------
  // Pagination

  /** `Math.ceil(totalCount / itemsPerPage)` */
  function TotalPages(totalCount: nat, itemsPerPage: nat): (t: nat)
    requires itemsPerPage > 0
    ensures (t - 1) * itemsPerPage < totalCount <= t * itemsPerPage || (t == 0 && totalCount == 0)
  {
    (totalCount + itemsPerPage - 1) / itemsPerPage
  }

  function StartItem(page: int, itemsPerPage: int): int {
    (page - 1) * itemsPerPage + 1
  }

  function EndItem(page: int, itemsPerPage: int, totalCount: int): int {
    if page * itemsPerPage < totalCount then page * itemsPerPage else totalCount
  }

  /** On any existing page, "Showing a - b" names a non-empty run of at
      most a page's worth of rows, within the total, and the last page
      ends at the total. */
  lemma ShowingRangeOnAPage(page: int, itemsPerPage: nat, totalCount: nat)
    requires itemsPerPage > 0 && 1 <= page <= TotalPages(totalCount, itemsPerPage)
    ensures 1 <= StartItem(page, itemsPerPage) <= EndItem(page, itemsPerPage, totalCount) <= totalCount
    ensures EndItem(page, itemsPerPage, totalCount) - StartItem(page, itemsPerPage) + 1 <= itemsPerPage
    ensures page == TotalPages(totalCount, itemsPerPage) ==> EndItem(page, itemsPerPage, totalCount) == totalCount
  {
    var t := TotalPages(totalCount, itemsPerPage);
    assert (page - 1) * itemsPerPage <= (t - 1) * itemsPerPage;
  }

  /** The previous and next buttons. */
  function PrevPage(page: int): int {
    if page - 1 > 1 then page - 1 else 1
  }

  function NextPage(page: int, totalPages: int): int {
    if page + 1 < totalPages then page + 1 else totalPages
  }

  lemma PrevNextStayInRange(page: int, totalPages: int)
    requires 1 <= page <= totalPages
    ensures 1 <= PrevPage(page) <= page && page <= NextPage(page, totalPages) <= totalPages
    ensures PrevPage(page) == page <==> page == 1
    ensures NextPage(page, totalPages) == page <==> page == totalPages
  {
  }

  /** The store query for a page: its order and its inclusive index range. */
  datatype Query = Query(order: SortKey, ascending: bool, first: int, last: int)

  function QueryFor(config: Option<SortConfig>, page: int, itemsPerPage: int): Query {
    var first := (page - 1) * itemsPerPage;
    var last := page * itemsPerPage - 1;
    if config.Some? && IsServerSide(config.value.key)
    then Query(config.value.key, config.value.direction == Asc, first, last)
    else Query(OffersCount, false, first, last)
  }

  /** A page's query asks for exactly one page of rows, the rows just
      after the previous page's, ordered by the chosen column when the
      store can sort by it and by offer count, largest first, otherwise. */
  lemma QueryCoversOnePage(config: Option<SortConfig>, page: int, itemsPerPage: int)
    ensures var q := QueryFor(config, page, itemsPerPage);
      && q.last - q.first + 1 == itemsPerPage
      && q.first == QueryFor(config, page - 1, itemsPerPage).last + 1
      && q.first + 1 == StartItem(page, itemsPerPage)
      && (config.Some? && IsServerSide(config.value.key) ==>
            q.order == config.value.key && (q.ascending <==> config.value.direction == Asc))
      && (config.None? || !IsServerSide(config.value.key) ==> q.order == OffersCount && !q.ascending)
  {
  }

  /** An entry of the page-number strip. */
  datatype PageItem = Page(n: int) | Ellipsis

  function MaxInt(a: int, b: int): int { if a > b then a else b }
  function MinInt(a: int, b: int): int { if a < b then a else b }

  /** The pages `lo..hi`, empty when `hi < lo`. */
  function PageRun(lo: int, hi: int): seq<PageItem> {
    if hi < lo then [] else seq(hi - lo + 1, i requires 0 <= i < hi - lo + 1 => Page(lo + i))
  }

  /** The page-number strip for `page` out of `totalPages`. */
  function PageNumbers(page: int, totalPages: int): seq<PageItem> {
    var lo := MaxInt(2, page - 2);
    var hi := MinInt(totalPages - 1, page + 2);
    [Page(1)]
    + (if page - 2 > 2 then [Ellipsis] else [])
    + PageRun(lo, hi)
    + (if page + 2 < totalPages - 1 then [Ellipsis] else [])
    + (if totalPages != 1 then [Page(totalPages)] else [])
  }

  /** `getPageNumbers()` */
  method GetPageNumbers(page: int, totalPages: int) returns (range: seq<PageItem>)
    ensures range == PageNumbers(page, totalPages)
  {
    var delta := 2;
    range := [];
    var lo := MaxInt(2, page - delta);
    var hi := MinInt(totalPages - 1, page + delta);
    var i := lo;
    while i <= hi
      invariant lo <= i && (i <= hi + 1 || i == lo)
      invariant range == PageRun(lo, i - 1)
      decreases hi - i
    {
      range := range + [Page(i)];
      i := i + 1;
    }
    assert range == PageRun(lo, hi);
    if page - delta > 2 {
      range := [Ellipsis] + range;
    }
    if page + delta < totalPages - 1 {
      range := range + [Ellipsis];
    }
    range := [Page(1)] + range;
    if totalPages != 1 {
      range := range + [Page(totalPages)];
    }
  }

  /** The page numbers shown, in strip order. */
  function Numbers(items: seq<PageItem>): seq<int>
    decreases |items|
  {
    if items == [] then []
    else (if items[0].Page? then [items[0].n] else []) + Numbers(items[1..])
  }

  lemma {:induction false} NumbersConcat(a: seq<PageItem>, b: seq<PageItem>)
    ensures Numbers(a + b) == Numbers(a) + Numbers(b)
    decreases |a|
  {
    if a != [] {
      assert (a + b)[1..] == a[1..] + b;
      NumbersConcat(a[1..], b);
    } else {
      assert a + b == b;
    }
  }

  /** The integers `lo..hi`, empty when `hi < lo`. */
  function IntRun(lo: int, hi: int): (r: seq<int>)
    ensures |r| == if hi < lo then 0 else hi - lo + 1
    ensures forall i :: 0 <= i < |r| ==> r[i] == lo + i
  {
    if hi < lo then [] else seq(hi - lo + 1, i requires 0 <= i < hi - lo + 1 => lo + i)
  }

  lemma PageRunCons(lo: int, hi: int)
    requires lo <= hi
    ensures PageRun(lo, hi) == [Page(lo)] + PageRun(lo + 1, hi)
  {
    var run, rest := PageRun(lo, hi), PageRun(lo + 1, hi);
    assert |run| == |rest| + 1 && run[0] == Page(lo);
    assert forall k :: 0 <= k < |rest| ==> run[k + 1] == rest[k];
  }

  lemma {:induction false} NumbersOfRun(lo: int, hi: int)
    ensures Numbers(PageRun(lo, hi)) == IntRun(lo, hi)
    decreases if hi < lo then 0 else hi - lo + 1
  {
    if lo <= hi {
      NumbersOfRun(lo + 1, hi);
      PageRunCons(lo, hi);
      NumbersConcat([Page(lo)], PageRun(lo + 1, hi));
      assert Numbers([Page(lo)]) == [lo] by {
        assert [Page(lo)][1..] == [];
      }
      IntRunCons(lo, hi);
    }
  }

  lemma IntRunCons(lo: int, hi: int)
    requires lo <= hi
    ensures IntRun(lo, hi) == [lo] + IntRun(lo + 1, hi)
  {
    var run, rest := IntRun(lo, hi), IntRun(lo + 1, hi);
    assert forall k :: 0 <= k < |rest| ==> run[k + 1] == rest[k];
  }

  /** The numbers of the strip: 1, the run around the current page, and
      the last page. */
  lemma NumbersOfStrip(page: int, totalPages: int)
    ensures Numbers(PageNumbers(page, totalPages))
      == [1] + IntRun(MaxInt(2, page - 2), MinInt(totalPages - 1, page + 2))
        + (if totalPages != 1 then [totalPages] else [])
  {
    var pre: seq<PageItem> := if page - 2 > 2 then [Ellipsis] else [];
    var post: seq<PageItem> := if page + 2 < totalPages - 1 then [Ellipsis] else [];
    var last := if totalPages != 1 then [Page(totalPages)] else [];
    var run := PageRun(MaxInt(2, page - 2), MinInt(totalPages - 1, page + 2));
    assert PageNumbers(page, totalPages) == [Page(1)] + pre + run + post + last;
    NumbersConcat([Page(1)] + pre + run + post, last);
    NumbersConcat([Page(1)] + pre + run, post);
    NumbersConcat([Page(1)] + pre, run);
    NumbersConcat([Page(1)], pre);
    NumbersOfRun(MaxInt(2, page - 2), MinInt(totalPages - 1, page + 2));
    assert Numbers(pre) == [] && Numbers(post) == [];
    assert Numbers([Page(1)]) == [1];
    assert Numbers(last) == (if totalPages != 1 then [totalPages] else []);
  }

  predicate StrictlyIncreasing(xs: seq<int>) {
    forall i, j :: 0 <= i < j < |xs| ==> xs[i] < xs[j]
  }

  lemma RunBetweenEndsIncreases(lo: int, hi: int, last: seq<int>)
    requires 1 < lo && forall n :: n in last ==> n > hi && n > 1
    requires |last| <= 1
    ensures StrictlyIncreasing([1] + IntRun(lo, hi) + last)
  {
    var xs := [1] + IntRun(lo, hi) + last;
    var m := |IntRun(lo, hi)|;
    forall i, j | 0 <= i < j < |xs| ensures xs[i] < xs[j] {
      if j == m + 1 {
        assert xs[j] in last;
      }
    }
  }

  /** For a page within range the strip starts at 1, ends at the last page
      (unless there is only one), and its numbers strictly increase, lie
      between 1 and the last page, and include the current page. */
  lemma PageNumbersShape(page: int, totalPages: int)
    requires 1 <= page <= totalPages
    ensures var items := PageNumbers(page, totalPages);
      && items[0] == Page(1)
      && (totalPages != 1 ==> items[|items| - 1] == Page(totalPages))
      && StrictlyIncreasing(Numbers(items))
      && page in Numbers(items)
      && forall n :: n in Numbers(items) ==> 1 <= n <= totalPages
  {
    var lo := MaxInt(2, page - 2);
    var hi := MinInt(totalPages - 1, page + 2);
    var last := if totalPages != 1 then [totalPages] else [];
    NumbersOfStrip(page, totalPages);
    RunBetweenEndsIncreases(lo, hi, last);
    var nums := [1] + IntRun(lo, hi) + last;
    assert Numbers(PageNumbers(page, totalPages)) == nums;
    if page != 1 && page != totalPages {
      assert nums[1 + page - lo] == page;
    } else if page != 1 {
      assert nums[|nums| - 1] == page;
    }
    forall n | n in nums ensures 1 <= n <= totalPages {
      var k :| 0 <= k < |nums| && nums[k] == n;
      if 0 < k <= |IntRun(lo, hi)| {
        assert n == IntRun(lo, hi)[k - 1];
      }
    }
  }

  /** The ellipses: one right after page 1 exactly when the current page
      is more than four, one right before the last page exactly when the
      current page is more than three from it. */
  lemma EllipsisPlacement(page: int, totalPages: int)
    requires 1 <= page <= totalPages && totalPages != 1
    ensures var items := PageNumbers(page, totalPages);
      && |items| >= 2
      && (items[1] == Ellipsis <==> page - 2 > 2)
      && (items[|items| - 2] == Ellipsis <==> page + 2 < totalPages - 1)
      && (forall i :: 0 <= i < |items| && items[i] == Ellipsis ==> i == 1 || i == |items| - 2)
  {
    var lo := MaxInt(2, page - 2);
    var hi := MinInt(totalPages - 1, page + 2);
    var pre := if page - 2 > 2 then [Ellipsis] else [];
    var post := if page + 2 < totalPages - 1 then [Ellipsis] else [];
    var run := PageRun(lo, hi);
    var items := PageNumbers(page, totalPages);
    assert items == [Page(1)] + pre + run + post + [Page(totalPages)];
    if page - 2 > 2 || page + 2 < totalPages - 1 {
      assert lo <= hi;
    }
  }

  /** With no rows at all the strip shows a page 1 and a page 0. */
  lemma PageNumbersWithoutRows()
    ensures PageNumbers(1, 0) == [Page(1), Page(0)]
  {
  }

  // ---------------------------------------------------------------------
  // Refresh

  /** The figures of the global stats bar. */
  datatype GlobalStats = GlobalStats(marketVol7d: real, vol24h: real, dominance: DashboardPage.Dominance)

  /** History rows as the refresh and sub-route queries select them:
      `source` is not among the columns, so no row carries one. */
  predicate Unsourced(hourly: seq<HourlyStat>, daily: seq<DailyStat>) {
    && (forall h :: h in hourly ==> h.source.None?)
    && (forall d :: d in daily ==> d.source.None?)
  }

  /** The rows a refresh installs as the source computes them: ranked from
      1 on every page, from history rows that carry no source. */
  function RefreshedRowsAsWritten(routes: seq<RouteStat>, hourly: seq<HourlyStat>, daily: seq<DailyStat>, clock: Clock)
    : seq<RouteStat>
    requires Unsourced(hourly, daily)
  {
    EnrichRouteData(routes, hourly, daily, 0, clock)
  }

  /** The rows a refresh installs, ranked by their position in the whole
      ordering: the first row of a page has the rank of the first item the
      footer shows. */
  function RefreshedRows(routes: seq<RouteStat>, hourly: seq<HourlyStat>, daily: seq<DailyStat>, clock: Clock,
                         page: int, itemsPerPage: int): seq<RouteStat>
  {
    EnrichRouteData(routes, hourly, daily, (page - 1) * itemsPerPage, clock)
  }

  /** As written, the first row of page 2 is ranked 1 although it is the
      `itemsPerPage + 1`-th row. */
  lemma RankRestartsOnEveryPage(routes: seq<RouteStat>, hourly: seq<HourlyStat>, daily: seq<DailyStat>, clock: Clock,
                                itemsPerPage: int)
    requires |routes| > 0 && itemsPerPage > 0 && Unsourced(hourly, daily)
    ensures RefreshedRowsAsWritten(routes, hourly, daily, clock)[0].rank == Some(1)
    ensures StartItem(2, itemsPerPage) == itemsPerPage + 1
  {
  }

  /** Corrected, each row's rank is its item number: the page's start
      item plus its offset on the page. */
  lemma RankIsItemNumber(routes: seq<RouteStat>, hourly: seq<HourlyStat>, daily: seq<DailyStat>, clock: Clock,
                         page: int, itemsPerPage: int)
    ensures var out := RefreshedRows(routes, hourly, daily, clock, page, itemsPerPage);
      |out| == |routes| &&
      forall i :: 0 <= i < |out| ==> out[i].rank == Some(StartItem(page, itemsPerPage) + i)
  {
    EnrichKeepsRows(routes, hourly, daily, (page - 1) * itemsPerPage, clock);
  }

  /** As written, every refreshed row of a route that carries a source
      (the table's routes carry "ALL") shows no history at all: its
      changes are 0, its sparkline is empty and its volumes are 0. */
  lemma RefreshShowsNoHistory(routes: seq<RouteStat>, hourly: seq<HourlyStat>, daily: seq<DailyStat>, clock: Clock)
    requires Unsourced(hourly, daily)
    ensures var out := RefreshedRowsAsWritten(routes, hourly, daily, clock);
      && |out| == |routes|
      && forall i :: 0 <= i < |routes| && HasSource(routes[i]) ==>
        && out[i].change_1h == Some(0.0) && out[i].change_24h == Some(0.0) && out[i].change_7d == Some(0.0)
        && out[i].sparkline == Some([]) && out[i].volume_24h == Some(0.0) && out[i].market_cap == Some(0.0)
  {
    forall i | 0 <= i < |routes| && HasSource(routes[i])
      ensures var e := EnrichRoute(routes[i], i + 1, hourly, daily, clock);
        && e.change_1h == Some(0.0) && e.change_24h == Some(0.0) && e.change_7d == Some(0.0)
        && e.sparkline == Some([]) && e.volume_24h == Some(0.0) && e.market_cap == Some(0.0)
    {
      UnsourcedHistoryIgnored(routes[i], i + 1, hourly, daily, clock);
    }
  }

  /** Corrected, with the history taken together with its source, each
      refreshed row's sparkline is the rates of its own route's hourly rows
      in order, and it is non-empty whenever such a row exists. */
  lemma RefreshShowsRouteHistory(routes: seq<RouteStat>, hourly: seq<HourlyStat>, daily: seq<DailyStat>, clock: Clock,
                                 page: int, itemsPerPage: int)
    ensures var out := RefreshedRows(routes, hourly, daily, clock, page, itemsPerPage);
      && |out| == |routes|
      && forall i :: 0 <= i < |routes| ==>
        && out[i].sparkline == Some(Map(Filter(hourly, HourlyOf(routes[i])), HourRate))
        && ((exists h :: h in hourly && HourlyOf(routes[i])(h)) ==> out[i].sparkline.value != [])
  {
    var base := (page - 1) * itemsPerPage;
    forall i | 0 <= i < |routes|
      ensures var e := EnrichRoute(routes[i], base + i + 1, hourly, daily, clock);
        && e.sparkline == Some(Map(Filter(hourly, HourlyOf(routes[i])), HourRate))
        && ((exists h :: h in hourly && HourlyOf(routes[i])(h)) ==> e.sparkline.value != [])
    {
      SparklineOf(routes[i], base + i + 1, hourly, daily, clock);
      FilterMembers(hourly, HourlyOf(routes[i]));
    }
  }

  /** The dashboard's state. */
  class Dashboard {
    var liveRoutes: seq<RouteStat>
    var subRouteCache: map<string, seq<RouteStat>>
    var sortConfig: Option<SortConfig>
    var page: int
    var itemsPerPage: nat
    var totalCount: nat
    var globalStats: GlobalStats

    ghost predicate Valid()
      reads this
    {
      itemsPerPage > 0
    }

    constructor (initialData: seq<RouteStat>, initialGlobalStats: GlobalStats, initialTotalCount: nat)
      ensures Valid()
      ensures liveRoutes == initialData && subRouteCache == map[] && sortConfig.None?
      ensures page == 1 && itemsPerPage == 50 && totalCount == initialTotalCount
      ensures globalStats == initialGlobalStats
    {
      liveRoutes := initialData;
      subRouteCache := map[];
      sortConfig := None;
      page := 1;
      itemsPerPage := 50;
      totalCount := initialTotalCount;
      globalStats := initialGlobalStats;
    }

    /** The rows as displayed. */
    function Displayed(): seq<RouteStat>
      reads this
    {
      SortedRoutes(liveRoutes, sortConfig)
    }

    function TotalPagesNow(): nat
      reads this
      requires Valid()
    {
      TotalPages(totalCount, itemsPerPage)
    }

    /** The realtime handler: an `ALL` row updates the main table,
        any other row the expanded sub-rows. */
    method OnRouteUpdate(u: RouteUpdate)
      modifies this
      requires Valid()
      ensures Valid()
      ensures u.body_group == "ALL" ==>
        liveRoutes == ApplyMainUpdate(old(liveRoutes), u) && subRouteCache == old(subRouteCache)
      ensures u.body_group != "ALL" ==>
        subRouteCache == ApplySubUpdate(old(subRouteCache), u) && liveRoutes == old(liveRoutes)
      ensures sortConfig == old(sortConfig) && page == old(page) && itemsPerPage == old(itemsPerPage)
      ensures totalCount == old(totalCount) && globalStats == old(globalStats)
    {
      if u.body_group == "ALL" {
        liveRoutes := ApplyMainUpdate(liveRoutes, u);
      } else {
        subRouteCache := ApplySubUpdate(subRouteCache, u);
      }
    }

    method HandleSort(key: SortKey)
      modifies this
      requires Valid()
      ensures Valid()
      ensures sortConfig == NextSort(old(sortConfig), key)
      ensures liveRoutes == old(liveRoutes) && page == old(page) && subRouteCache == old(subRouteCache)
      ensures itemsPerPage == old(itemsPerPage) && totalCount == old(totalCount) && globalStats == old(globalStats)
    {
      var direction := Desc;
      if sortConfig.Some? && sortConfig.value.key == key {
        if sortConfig.value.direction == Desc {
          direction := Asc;
        } else {
          sortConfig := None;
          return;
        }
      }
      sortConfig := Some(SortConfig(key, direction));
    }

    method GoToPrevious()
      modifies this
      requires Valid()
      ensures Valid()
      ensures page == PrevPage(old(page))
      ensures liveRoutes == old(liveRoutes) && sortConfig == old(sortConfig) && subRouteCache == old(subRouteCache)
      ensures itemsPerPage == old(itemsPerPage) && totalCount == old(totalCount) && globalStats == old(globalStats)
    {
      page := PrevPage(page);
    }

    /** A numbered button of the page strip: the page becomes its number.
        Only page entries of the current strip are buttons; an ellipsis is
        not clickable. */
    method GoToPage(n: int)
      modifies this
      requires Valid() && Page(n) in PageNumbers(page, TotalPagesNow())
      ensures Valid()
      ensures page == n
      ensures liveRoutes == old(liveRoutes) && sortConfig == old(sortConfig) && subRouteCache == old(subRouteCache)
      ensures itemsPerPage == old(itemsPerPage) && totalCount == old(totalCount) && globalStats == old(globalStats)
    {
      page := n;
    }

    method GoToNext()
      modifies this
      requires Valid()
      ensures Valid()
      ensures page == NextPage(old(page), TotalPages(old(totalCount), old(itemsPerPage)))
      ensures liveRoutes == old(liveRoutes) && sortConfig == old(sortConfig) && subRouteCache == old(subRouteCache)
      ensures itemsPerPage == old(itemsPerPage) && totalCount == old(totalCount) && globalStats == old(globalStats)
    {
      page := NextPage(page, TotalPagesNow());
    }

    /** Choosing a page size from the menu also returns to page 1. */
    method SetRowsPerPage(size: nat)
      modifies this
      requires Valid() && size > 0
      ensures Valid()
      ensures itemsPerPage == size && page == 1
      ensures liveRoutes == old(liveRoutes) && sortConfig == old(sortConfig) && subRouteCache == old(subRouteCache)
      ensures totalCount == old(totalCount) && globalStats == old(globalStats)
    {
      itemsPerPage := size;
      page := 1;
    }

    /** The sub-route fetch of `toggleRoute` when a route is expanded: a
        route already in the cache is not fetched again; otherwise, when
        all three queries returned data, the route's key maps to its
        enriched body-group rows, ranked from 1. */
    method ApplySubFetch(route: RouteStat, subRoutes: Option<seq<RouteStat>>, subHourly: Option<seq<HourlyStat>>,
                         subDaily: Option<seq<DailyStat>>, clock: Clock)
      modifies this
      requires Valid()
      ensures Valid()
      ensures var key := DashboardPage.RouteKeyText(route.origin_country, route.dest_country);
        subRouteCache ==
          if key !in old(subRouteCache) && subRoutes.Some? && subHourly.Some? && subDaily.Some?
          then old(subRouteCache)[key := EnrichRouteData(subRoutes.value, subHourly.value, subDaily.value, 0, clock)]
          else old(subRouteCache)
      ensures liveRoutes == old(liveRoutes) && sortConfig == old(sortConfig) && page == old(page)
      ensures itemsPerPage == old(itemsPerPage) && totalCount == old(totalCount) && globalStats == old(globalStats)
    {
      var key := DashboardPage.RouteKeyText(route.origin_country, route.dest_country);
      if key !in subRouteCache && subRoutes.Some? && subHourly.Some? && subDaily.Some? {
        subRouteCache := subRouteCache[key := EnrichRouteData(subRoutes.value, subHourly.value, subDaily.value, 0, clock)];
      }
    }

    /** The outcome of `fetchData` for the current page: the count is
        taken when the store returned one; rows, global stats and totals
        are replaced only when all three queries returned data. */
    method ApplyFetch(routes: Option<seq<RouteStat>>, count: Option<nat>, hourly: Option<seq<HourlyStat>>,
                      daily: Option<seq<DailyStat>>, clock: Clock)
      modifies this
      requires Valid()
      ensures Valid()
      ensures totalCount == (if count.Some? then count.value else old(totalCount))
      ensures routes.Some? && hourly.Some? && daily.Some? ==>
        && liveRoutes == RefreshedRows(routes.value, hourly.value, daily.value, clock, old(page), old(itemsPerPage))
        && globalStats.marketVol7d == TotalAmount(daily.value)
        && globalStats.vol24h == TotalAmount(Filter(daily.value, DashboardPage.InLastTwoDays(clock.todayStr, clock.yesterdayStr)))
        && globalStats.dominance == DashboardPage.DominanceOf(DashboardPage.CountryTally(daily.value))
      ensures !(routes.Some? && hourly.Some? && daily.Some?) ==>
        liveRoutes == old(liveRoutes) && globalStats == old(globalStats)
      ensures page == old(page) && sortConfig == old(sortConfig) && subRouteCache == old(subRouteCache)
      ensures itemsPerPage == old(itemsPerPage)
    {
      if count.Some? {
        totalCount := count.value;
      }
      if routes.Some? && hourly.Some? && daily.Some? {
        var vol7d, vol24h, counts := DashboardPage.GlobalStats(daily.value, clock.todayStr, clock.yesterdayStr);
        globalStats := GlobalStats(vol7d, vol24h, DashboardPage.DominanceOf(counts));
        liveRoutes := RefreshedRows(routes.value, hourly.value, daily.value, clock, page, itemsPerPage);
      }
    }
  }
}
