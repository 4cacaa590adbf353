/** The server-rendered first page of the dashboard: global market figures
    from the daily history, the hourly history grouped by route, and the
    first page of routes ranked and given sparklines and changes. */
module DashboardPage {
  import opened Js
  import opened MarketUtils

  const DayMs := 86400000

  // ---------------------------------------------------------------------
  // Global stats

  /** An entry of `countryCounts`. */
  datatype CountryCount = CountryCount(code: string, count: int)

  /** `countryCounts[code] = (countryCounts[code] || 0) + n`: an existing
      entry grows in place, a new code is appended. */
  function Tally(counts: seq<CountryCount>, code: string, n: int): seq<CountryCount>
    decreases |counts|
  {
    if counts == [] then [CountryCount(code, n)]
    else if counts[0].code == code then [counts[0].(count := counts[0].count + n)] + counts[1..]
    else [counts[0]] + Tally(counts[1..], code, n)
  }

  /** The tally after a run over `ds`: each row adds its offer count to its
      origin's entry and then to its destination's. */
  function CountryTally(ds: seq<DailyStat>): seq<CountryCount>
    decreases |ds|
  {
    if ds == [] then []
    else
      var d := ds[|ds| - 1];
      Tally(Tally(CountryTally(ds[..|ds| - 1]), d.origin_country, d.offer_count), d.dest_country, d.offer_count)
  }

  /** `Object.values(countryCounts).reduce((a, b) => a + b, 0)` */
  function Activity(counts: seq<CountryCount>): int
    decreases |counts|
  {
    if counts == [] then 0 else counts[0].count + Activity(counts[1..])
  }

  function OfferTotal(ds: seq<DailyStat>): int
    decreases |ds|
  {
    if ds == [] then 0 else OfferTotal(ds[..|ds| - 1]) + ds[|ds| - 1].offer_count
  }

  /** The tally's entry for country `c`, 0 when there is none. */
  function CountOf(counts: seq<CountryCount>, c: string): int
    decreases |counts|
  {
    if counts == [] then 0 else (if counts[0].code == c then counts[0].count else 0) + CountOf(counts[1..], c)
  }

  predicate HasCode(counts: seq<CountryCount>, c: string) {
    exists k :: 0 <= k < |counts| && counts[k].code == c
  }

  predicate DistinctCodes(counts: seq<CountryCount>) {
    forall i, j :: 0 <= i < j < |counts| ==> counts[i].code != counts[j].code
  }

  /** A tally step adds `n` to the total and to the entry of `code`, and
      to no other entry. */
  lemma {:induction false} TallyStep(counts: seq<CountryCount>, code: string, n: int)
    ensures Activity(Tally(counts, code, n)) == Activity(counts) + n
    ensures forall c :: CountOf(Tally(counts, code, n), c) == CountOf(counts, c) + (if c == code then n else 0)
    decreases |counts|
  {
    if counts == [] {
      assert Tally(counts, code, n)[1..] == [];
    } else if counts[0].code != code {
      TallyStep(counts[1..], code, n);
      assert Tally(counts, code, n)[1..] == Tally(counts[1..], code, n);
    } else {
      assert Tally(counts, code, n)[1..] == counts[1..];
    }
  }

  /** A code not yet in the tally is appended with count `n`. */
  lemma {:induction false} TallyNew(counts: seq<CountryCount>, code: string, n: int)
    requires !HasCode(counts, code)
    ensures Tally(counts, code, n) == counts + [CountryCount(code, n)]
    decreases |counts|
  {
    if counts != [] {
      assert counts[0].code != code;
      forall k | 0 <= k < |counts[1..]| ensures counts[1..][k].code != code {
        assert counts[1..][k] == counts[k + 1];
      }
      TallyNew(counts[1..], code, n);
      assert counts == [counts[0]] + counts[1..];
    }
  }

  /** A code already in the tally at position `k` (its first) has `n` added there. */
  lemma {:induction false} TallyExisting(counts: seq<CountryCount>, code: string, n: int, k: nat)
    requires k < |counts| && counts[k].code == code
    requires forall m :: 0 <= m < k ==> counts[m].code != code
    ensures Tally(counts, code, n) == counts[k := counts[k].(count := counts[k].count + n)]
    decreases k
  {
    if k > 0 {
      TallyExisting(counts[1..], code, n, k - 1);
      assert counts == [counts[0]] + counts[1..];
    }
  }

  /** A tally step adds `code` to the codes and no other, and keeps the
      codes distinct. */
  lemma TallyCodes(counts: seq<CountryCount>, code: string, n: int)
    requires DistinctCodes(counts)
    ensures forall c :: HasCode(Tally(counts, code, n), c) <==> HasCode(counts, c) || c == code
    ensures DistinctCodes(Tally(counts, code, n))
  {
    var t := Tally(counts, code, n);
    if HasCode(counts, code) {
      var k :| 0 <= k < |counts| && counts[k].code == code;
      TallyExisting(counts, code, n, k);
      assert forall i :: 0 <= i < |t| ==> t[i].code == counts[i].code;
    } else {
      TallyNew(counts, code, n);
      assert t[|counts|].code == code;
      forall c | HasCode(counts, c) ensures HasCode(t, c) {
        var i :| 0 <= i < |counts| && counts[i].code == c;
        assert t[i].code == c;
      }
    }
  }

  /** How much country `c` takes from `ds`: each row's offer count once if
      `c` is its origin and once more if `c` is its destination. */
  function Involvement(ds: seq<DailyStat>, c: string): int
    decreases |ds|
  {
    if ds == [] then 0
    else
      var d := ds[|ds| - 1];
      Involvement(ds[..|ds| - 1], c)
      + (if d.origin_country == c then d.offer_count else 0)
      + (if d.dest_country == c then d.offer_count else 0)
  }

  /** Every row counts once for each end: each country's entry is its
      involvement, so the total activity is twice the sum of the offer
      counts. */
  lemma {:induction false} TallyCountsBothEnds(ds: seq<DailyStat>)
    ensures Activity(CountryTally(ds)) == 2 * OfferTotal(ds)
    ensures forall c :: CountOf(CountryTally(ds), c) == Involvement(ds, c)
    decreases |ds|
  {
    if ds != [] {
      var init := ds[..|ds| - 1];
      var d := ds[|ds| - 1];
      TallyCountsBothEnds(init);
      TallyStep(CountryTally(init), d.origin_country, d.offer_count);
      TallyStep(Tally(CountryTally(init), d.origin_country, d.offer_count), d.dest_country, d.offer_count);
    }
  }

  /** The tally has exactly one entry per country occurring as an origin or
      a destination. */
  lemma {:induction false} TallyEntriesAreCountries(ds: seq<DailyStat>)
    ensures DistinctCodes(CountryTally(ds))
    ensures forall c :: HasCode(CountryTally(ds), c) <==>
      exists i :: 0 <= i < |ds| && (ds[i].origin_country == c || ds[i].dest_country == c)
    decreases |ds|
  {
    if ds != [] {
      var init := ds[..|ds| - 1];
      var d := ds[|ds| - 1];
      TallyEntriesAreCountries(init);
      var t1 := Tally(CountryTally(init), d.origin_country, d.offer_count);
      TallyCodes(CountryTally(init), d.origin_country, d.offer_count);
      TallyCodes(t1, d.dest_country, d.offer_count);
      forall c ensures HasCode(CountryTally(ds), c) <==>
        exists i :: 0 <= i < |ds| && (ds[i].origin_country == c || ds[i].dest_country == c)
      {
        if exists i :: 0 <= i < |ds| && (ds[i].origin_country == c || ds[i].dest_country == c) {
          var i :| 0 <= i < |ds| && (ds[i].origin_country == c || ds[i].dest_country == c);
          if i < |ds| - 1 {
            assert init[i] == ds[i];
          }
        }
        if HasCode(CountryTally(init), c) {
          var i :| 0 <= i < |init| && (init[i].origin_country == c || init[i].dest_country == c);
          assert ds[i] == init[i];
        }
      }
    }
  }

  /** Rows dated today or yesterday. */
  function InLastTwoDays(todayStr: string, yesterdayStr: string): DailyStat -> bool {
    (d: DailyStat) => d.stat_date == todayStr || d.stat_date == yesterdayStr
  }

  /** A sub-list's volume is at most the whole list's when no amount is negative. */
  lemma {:induction false} FilteredVolumeBelowTotal(ds: seq<DailyStat>, p: DailyStat -> bool)
    requires NonNegativeAmounts(ds)
    ensures TotalAmount(Filter(ds, p)) <= TotalAmount(ds)
    decreases |ds|
  {
    if ds != [] {
      assert ds[0] in ds;
      FilteredVolumeBelowTotal(ds[1..], p);
      FilterConcat(if p(ds[0]) then [ds[0]] else [], Filter(ds[1..], p), p);
      TotalAmountConcat(if p(ds[0]) then [ds[0]] else [], Filter(ds[1..], p));
    }
  }

  /** `marketVol7d`, `vol24h` and `countryCounts` as the `forEach` over the
      daily rows accumulates them. */
  method GlobalStats(daily: seq<DailyStat>, todayStr: string, yesterdayStr: string)
    returns (totalVol7d: real, totalVol24h: real, countryCounts: seq<CountryCount>)
    ensures totalVol7d == TotalAmount(daily)
    ensures totalVol24h == TotalAmount(Filter(daily, InLastTwoDays(todayStr, yesterdayStr)))
    ensures countryCounts == CountryTally(daily)
  {
    totalVol7d, totalVol24h, countryCounts := 0.0, 0.0, [];
    var k := 0;
    while k < |daily|
      invariant 0 <= k <= |daily|
      invariant totalVol7d == TotalAmount(daily[..k])
      invariant totalVol24h == TotalAmount(Filter(daily[..k], InLastTwoDays(todayStr, yesterdayStr)))
      invariant countryCounts == CountryTally(daily[..k])
    {
      var d := daily[k];
      var vol := Amount(Some(d));
      assert daily[..k + 1] == daily[..k] + [d];
      TotalAmountSnoc(daily[..k], d);
      FilterSnoc(daily[..k], d, InLastTwoDays(todayStr, yesterdayStr));
      totalVol7d := totalVol7d + vol;
      if d.stat_date == todayStr || d.stat_date == yesterdayStr {
        TotalAmountSnoc(Filter(daily[..k], InLastTwoDays(todayStr, yesterdayStr)), d);
        totalVol24h := totalVol24h + vol;
      } else {
        assert Filter(daily[..k], InLastTwoDays(todayStr, yesterdayStr)) + []
            == Filter(daily[..k], InLastTwoDays(todayStr, yesterdayStr));
      }
      countryCounts := Tally(countryCounts, d.origin_country, d.offer_count);
      countryCounts := Tally(countryCounts, d.dest_country, d.offer_count);
      assert daily[..k + 1][..k] == daily[..k];
      k := k + 1;
    }
    assert daily[..k] == daily;
  }

  /** The 24h volume is part of the 7-day volume. */
  lemma Vol24hWithinVol7d(daily: seq<DailyStat>, todayStr: string, yesterdayStr: string)
    requires NonNegativeAmounts(daily)
    ensures TotalAmount(Filter(daily, InLastTwoDays(todayStr, yesterdayStr))) <= TotalAmount(daily)
  {
    FilteredVolumeBelowTotal(daily, InLastTwoDays(todayStr, yesterdayStr));
  }

  /** The position of the first largest count in `counts[..n]`, passing
      over position `skip`, or -1 when there is none. */
  function ArgMax(counts: seq<CountryCount>, skip: int, n: nat): (r: int)
    requires n <= |counts|
    ensures -1 <= r < n
    ensures r == -1 <==> n == 0 || (n == 1 && skip == 0)
    ensures r >= 0 ==> r != skip
    ensures r >= 0 ==> forall k :: 0 <= k < n && k != skip ==> counts[k].count <= counts[r].count
    ensures r >= 0 ==> forall k :: 0 <= k < r && k != skip ==> counts[k].count < counts[r].count
    decreases n
  {
    if n == 0 then -1
    else
      var r := ArgMax(counts, skip, n - 1);
      if n - 1 == skip then r
      else if r == -1 || counts[n - 1].count > counts[r].count then n - 1
      else r
  }

  /** The entries the dominance line names: the first two of the tally
      sorted by descending count, ties keeping tally order. */
  function TopTwo(counts: seq<CountryCount>): seq<CountryCount> {
    var i := ArgMax(counts, -1, |counts|);
    if i < 0 then []
    else
      var j := ArgMax(counts, i, |counts|);
      [counts[i]] + (if j < 0 then [] else [counts[j]])
  }

  datatype Dominance = NotAvailable | Leaders(leaders: seq<CountryCount>)

  /** `dominanceStr`, without the percentage text: "N/A" for an empty tally. */
  function DominanceOf(counts: seq<CountryCount>): Dominance {
    if |TopTwo(counts)| > 0 then Leaders(TopTwo(counts)) else NotAvailable
  }

  /** The dominance line is "N/A" exactly when nothing was tallied;
      otherwise it names the two largest entries of the tally (one when
      there is only one), largest first. */
  lemma DominanceIsTopTwo(counts: seq<CountryCount>)
    ensures DominanceOf(counts).NotAvailable? <==> counts == []
    ensures DominanceOf(counts).Leaders? ==>
      var l := DominanceOf(counts).leaders;
      && |l| == (if |counts| < 2 then |counts| else 2)
      && (forall e :: e in l ==> e in counts)
      && (forall e :: e in counts ==> e.count <= l[0].count)
      && (|l| == 2 ==> l[0].count >= l[1].count)
      && (|l| == 2 ==>
            exists i, j ::
              (&& 0 <= i < |counts| && 0 <= j < |counts| && i != j
               && counts[i] == l[0] && counts[j] == l[1]
               && forall k :: 0 <= k < |counts| && k != i && k != j ==> counts[k].count <= l[1].count))
  {
    var i := ArgMax(counts, -1, |counts|);
    if i >= 0 {
      var j := ArgMax(counts, i, |counts|);
      var l := TopTwo(counts);
      assert counts[i] == l[0];
      if j >= 0 {
        assert counts[j] == l[1];
      }
    }
  }

  // ---------------------------------------------------------------------
  // Hourly lookup

  /** `{stat_hour, avg_rate_per_km}` as kept in the lookup. */
  datatype HourPoint = HourPoint(stat_hour: int, avg_rate_per_km: real)

  /** The `${origin}-${dest}` key. */
  function RouteKeyText(origin: string, dest: string): string {
    origin + "-" + dest
  }

  function KeyIs(key: string): HourlyStat -> bool {
    (h: HourlyStat) => RouteKeyText(h.origin_country, h.dest_country) == key
  }

  /** The point an hourly row contributes to the lookup. */
  function PointOf(h: HourlyStat): HourPoint {
    HourPoint(h.stat_hour, h.avg_rate_per_km)
  }

  /** The points of some hourly rows, in order. */
  function Points(hs: seq<HourlyStat>): seq<HourPoint> {
    Map(hs, PointOf)
  }

  /** A lookup holds a key exactly for the routes in the history, and under
      each key the points of that route's rows in history order. */
  ghost predicate IsHourlyLookup(lookup: map<string, seq<HourPoint>>, hourly: seq<HourlyStat>) {
    forall key ::
      && (key in lookup <==> Filter(hourly, KeyIs(key)) != [])
      && (key in lookup ==> lookup[key] == Points(Filter(hourly, KeyIs(key))))
  }

  /** The lookup after the row `h`: its point appended under its key. */
  function AddPoint(lookup: map<string, seq<HourPoint>>, h: HourlyStat): map<string, seq<HourPoint>> {
    var key := RouteKeyText(h.origin_country, h.dest_country);
    var prev := if key in lookup then lookup[key] else [];
    lookup[key := prev + [HourPoint(h.stat_hour, h.avg_rate_per_km)]]
  }

  lemma AddPointStep(lookup: map<string, seq<HourPoint>>, hourly: seq<HourlyStat>, h: HourlyStat)
    requires IsHourlyLookup(lookup, hourly)
    ensures IsHourlyLookup(AddPoint(lookup, h), hourly + [h])
  {
    var key := RouteKeyText(h.origin_country, h.dest_country);
    var next := AddPoint(lookup, h);
    forall key' ensures
      && (key' in next <==> Filter(hourly + [h], KeyIs(key')) != [])
      && (key' in next ==> next[key'] == Points(Filter(hourly + [h], KeyIs(key'))))
    {
      FilterSnoc(hourly, h, KeyIs(key'));
      if key' == key {
        assert Points(Filter(hourly, KeyIs(key)) + [h])
            == Points(Filter(hourly, KeyIs(key))) + [HourPoint(h.stat_hour, h.avg_rate_per_km)];
      }
    }
  }

  /** `hourlyLookup`, built by the `forEach` over the hourly rows. */
  method BuildHourlyLookup(hourly: seq<HourlyStat>) returns (lookup: map<string, seq<HourPoint>>)
    ensures IsHourlyLookup(lookup, hourly)
  {
    lookup := map[];
    var k := 0;
    while k < |hourly|
      invariant 0 <= k <= |hourly|
      invariant IsHourlyLookup(lookup, hourly[..k])
    {
      var h := hourly[k];
      var key := RouteKeyText(h.origin_country, h.dest_country);
      ghost var before := lookup;
      if key !in lookup {
        lookup := lookup[key := []];
      }
      lookup := lookup[key := lookup[key] + [HourPoint(h.stat_hour, h.avg_rate_per_km)]];
      assert lookup == AddPoint(before, h);
      AddPointStep(before, hourly[..k], h);
      assert hourly[..k + 1] == hourly[..k] + [h];
      k := k + 1;
    }
    assert hourly[..k] == hourly;
  }

  /** A key is present exactly when some history row has that route. */
  lemma LookupKeys(lookup: map<string, seq<HourPoint>>, hourly: seq<HourlyStat>, key: string)
    requires IsHourlyLookup(lookup, hourly)
    ensures key in lookup <==>
      exists i :: 0 <= i < |hourly| && RouteKeyText(hourly[i].origin_country, hourly[i].dest_country) == key
  {
    FilterMembers(hourly, KeyIs(key));
    if exists i :: 0 <= i < |hourly| && RouteKeyText(hourly[i].origin_country, hourly[i].dest_country) == key {
      var i :| 0 <= i < |hourly| && RouteKeyText(hourly[i].origin_country, hourly[i].dest_country) == key;
      assert hourly[i] in Filter(hourly, KeyIs(key));
    }
    if key in lookup {
      var f := Filter(hourly, KeyIs(key));
      assert f[0] in f;
    }
  }

  /** `hourlyLookup[key] || []` for a route: exactly the points of the
      history rows with the same origin and destination, in order. */
  lemma LookupGivesRouteHistory(lookup: map<string, seq<HourPoint>>, hourly: seq<HourlyStat>, origin: string, dest: string)
    requires IsHourlyLookup(lookup, hourly)
    ensures RouteHistory(lookup, origin, dest) == Points(Filter(hourly, KeyIs(RouteKeyText(origin, dest))))
  {
  }

  function RouteHistory(lookup: map<string, seq<HourPoint>>, origin: string, dest: string): seq<HourPoint> {
    var key := RouteKeyText(origin, dest);
    if key in lookup then lookup[key] else []
  }

  // ---------------------------------------------------------------------
  // Rate lookups

  /** The last point at or before time `t`. */
  function LastAtOrBefore(hs: seq<HourPoint>, t: int): Option<HourPoint>
    decreases |hs|
  {
    if hs == [] then None
    else if hs[|hs| - 1].stat_hour <= t then Some(hs[|hs| - 1])
    else LastAtOrBefore(hs[..|hs| - 1], t)
  }

  /** There is no such point exactly when every point is later than `t`. */
  lemma {:induction false} LastAtOrBeforeNone(hs: seq<HourPoint>, t: int)
    ensures LastAtOrBefore(hs, t).None? <==> forall i :: 0 <= i < |hs| ==> hs[i].stat_hour > t
    decreases |hs|
  {
    if hs != [] {
      LastAtOrBeforeNone(hs[..|hs| - 1], t);
    }
  }

  /** The point at position `i` is found when it is at or before `t` and
      every later point is after `t`. */
  lemma {:induction false} LastAtOrBeforeAt(hs: seq<HourPoint>, t: int, i: nat)
    requires i < |hs| && hs[i].stat_hour <= t
    requires forall j :: i < j < |hs| ==> hs[j].stat_hour > t
    ensures LastAtOrBefore(hs, t) == Some(hs[i])
    decreases |hs|
  {
    if i < |hs| - 1 {
      LastAtOrBeforeAt(hs[..|hs| - 1], t, i);
    }
  }

  /** `closest?.avg_rate_per_km` */
  function RateOf(p: Option<HourPoint>): Option<real> {
    if p.Some? then Some(p.value.avg_rate_per_km) else None
  }

  /** `findRateAtTime(routeHourly, hoursAgo)` */
  method FindRateAtTime(routeHourly: seq<HourPoint>, hoursAgo: int, now: int) returns (rate: Option<real>)
    ensures rate == RateOf(LastAtOrBefore(routeHourly, now - hoursAgo * HourMs))
  {
    var targetTime := now - hoursAgo * HourMs;
    var closest: Option<HourPoint> := None;
    var k := 0;
    while k < |routeHourly|
      invariant 0 <= k <= |routeHourly|
      invariant closest == LastAtOrBefore(routeHourly[..k], targetTime)
    {
      if routeHourly[k].stat_hour <= targetTime {
        closest := Some(routeHourly[k]);
      }
      assert routeHourly[..k + 1][..k] == routeHourly[..k];
      k := k + 1;
    }
    assert routeHourly[..k] == routeHourly;
    rate := RateOf(closest);
  }

  // ---------------------------------------------------------------------
  // Initial rows

  /** `ref && ref > 0 ? (current - ref) / ref * 100 : 0` */
  function GuardedChange(current: real, ref: Option<real>): (c: real)
    ensures ref.None? || ref.value <= 0.0 ==> c == 0.0
    ensures ref.Some? && ref.value > 0.0 ==> c == PercentChange(current, ref.value)
  {
    if ref.Some? && ref.value > 0.0 then PercentChange(current, ref.value) else 0.0
  }

  function AtOrAfterPoint(t: int): HourPoint -> bool {
    (h: HourPoint) => h.stat_hour >= t
  }

  /** `h.avg_rate_per_km` of a kept point. */
  function PointRate(h: HourPoint): real {
    h.avg_rate_per_km
  }

  /** The 24h sparkline of a route's history. */
  function Sparkline24h(routeHourly: seq<HourPoint>, now: int): seq<real> {
    Map(Filter(routeHourly, AtOrAfterPoint(now - 24 * HourMs)), PointRate)
  }

  /** The initial row for route `r` at position `i`. */
  function InitialRow(r: RouteStat, i: int, lookup: map<string, seq<HourPoint>>, now: int): RouteStat {
    var routeHourly := RouteHistory(lookup, r.origin_country, r.dest_country);
    var current := r.avg_rate_per_km;
    r.(rank := Some(i + 1),
       sparkline := Some(Sparkline24h(routeHourly, now)),
       change_1h := Some(GuardedChange(current, RateOf(LastAtOrBefore(routeHourly, now - HourMs)))),
       change_24h := Some(GuardedChange(current, RateOf(LastAtOrBefore(routeHourly, now - 24 * HourMs)))),
       change_7d := Some(GuardedChange(current, RateOf(LastAtOrBefore(routeHourly, now - 24 * 7 * HourMs)))))
  }

  /** `initialData`: the first page of routes, ranked and enriched. */
  function InitialData(routes: seq<RouteStat>, lookup: map<string, seq<HourPoint>>, now: int): seq<RouteStat> {
    seq(|routes|, i requires 0 <= i < |routes| => InitialRow(routes[i], i, lookup, now))
  }

  /** One row per route, in order, ranked from 1, with every other field
      (including a stored market cap and volume) as it came from the store. */
  lemma InitialDataKeepsRows(routes: seq<RouteStat>, lookup: map<string, seq<HourPoint>>, now: int)
    ensures var out := InitialData(routes, lookup, now);
      && |out| == |routes|
      && forall i :: 0 <= i < |routes| ==>
        && out[i].rank == Some(i + 1)
        && Unaugmented(out[i]) == Unaugmented(routes[i])
        && out[i].market_cap == routes[i].market_cap
        && out[i].volume_24h == routes[i].volume_24h
  {
  }

  /** The sparkline holds exactly the rates of the route's points from the
      last 24 hours, in history order: empty for an empty history, and a
      point appended to the history adds its rate at the end exactly when
      it is at most 24 hours old. Its values are the rates of such points. */
  lemma SparklineIsLast24h(routeHourly: seq<HourPoint>, now: int, h: HourPoint)
    ensures Sparkline24h([], now) == []
    ensures Sparkline24h(routeHourly + [h], now)
         == Sparkline24h(routeHourly, now) + (if h.stat_hour >= now - 24 * HourMs then [h.avg_rate_per_km] else [])
    ensures var s := Sparkline24h(routeHourly, now);
      && (forall v :: v in s <==> exists h :: h in routeHourly && h.stat_hour >= now - 24 * HourMs && h.avg_rate_per_km == v)
      && |s| <= |routeHourly|
  {
    var p := AtOrAfterPoint(now - 24 * HourMs);
    var m := Filter(routeHourly, p);
    FilterSnoc(routeHourly, h, p);
    MapSnoc(m, h, PointRate);
    FilterMembers(routeHourly, p);
    var s := Map(m, PointRate);
    forall v | v in s ensures exists h :: h in routeHourly && h.stat_hour >= now - 24 * HourMs && h.avg_rate_per_km == v {
      var k :| 0 <= k < |s| && s[k] == v;
      assert m[k] in m;
    }
    forall v | exists h :: h in routeHourly && h.stat_hour >= now - 24 * HourMs && h.avg_rate_per_km == v
      ensures v in s
    {
      var h :| h in routeHourly && h.stat_hour >= now - 24 * HourMs && h.avg_rate_per_km == v;
      assert h in m;
      var k :| 0 <= k < |m| && m[k] == h;
      assert s[k] == v;
    }
  }

  /** `j` is the last position whose point is at or before `t`. */
  predicate IsLastAtOrBefore(hs: seq<HourPoint>, t: int, j: int) {
    0 <= j < |hs| && hs[j].stat_hour <= t && forall k :: j < k < |hs| ==> hs[k].stat_hour > t
  }

  /** The rule a change against reference time `t` follows: 0 when no point
      is at or before `t`; otherwise the change against the last such point,
      or 0 when that point's rate is not positive. */
  predicate ChangeRule(current: real, hs: seq<HourPoint>, t: int, c: Option<real>) {
    && ((forall k :: 0 <= k < |hs| ==> hs[k].stat_hour > t) ==> c == Some(0.0))
    && (forall j :: 0 <= j < |hs| && IsLastAtOrBefore(hs, t, j) ==>
          c == Some(if hs[j].avg_rate_per_km > 0.0 then PercentChange(current, hs[j].avg_rate_per_km) else 0.0))
  }

  /** A guarded change against the point `findRateAtTime` finds follows the rule. */
  lemma GuardedChangeFollowsRule(current: real, hs: seq<HourPoint>, t: int)
    ensures ChangeRule(current, hs, t, Some(GuardedChange(current, RateOf(LastAtOrBefore(hs, t)))))
  {
    LastAtOrBeforeNone(hs, t);
    forall j | IsLastAtOrBefore(hs, t, j)
      ensures LastAtOrBefore(hs, t) == Some(hs[j])
    {
      LastAtOrBeforeAt(hs, t, j);
    }
  }

  /** Each of the 1h, 24h and 7d changes compares the current rate with the
      rate of the route's last point at or before one hour, 24 hours and
      168 hours ago, and is 0 when there is no such point or its rate is
      not positive. */
  lemma ChangesUseLastPointBefore(r: RouteStat, i: int, lookup: map<string, seq<HourPoint>>, now: int)
    ensures var hs := RouteHistory(lookup, r.origin_country, r.dest_country);
      var row := InitialRow(r, i, lookup, now);
      && ChangeRule(r.avg_rate_per_km, hs, now - HourMs, row.change_1h)
      && ChangeRule(r.avg_rate_per_km, hs, now - 24 * HourMs, row.change_24h)
      && ChangeRule(r.avg_rate_per_km, hs, now - 168 * HourMs, row.change_7d)
  {
    var hs := RouteHistory(lookup, r.origin_country, r.dest_country);
    GuardedChangeFollowsRule(r.avg_rate_per_km, hs, now - HourMs);
    GuardedChangeFollowsRule(r.avg_rate_per_km, hs, now - 24 * HourMs);
    GuardedChangeFollowsRule(r.avg_rate_per_km, hs, now - 24 * 7 * HourMs);
  }

  /** A route with no history at all has all three changes 0 and an empty sparkline. */
  lemma NoHistoryNoChange(r: RouteStat, i: int, lookup: map<string, seq<HourPoint>>, now: int)
    requires RouteKeyText(r.origin_country, r.dest_country) !in lookup
    ensures var row := InitialRow(r, i, lookup, now);
      row.change_1h == Some(0.0) && row.change_24h == Some(0.0) && row.change_7d == Some(0.0)
      && row.sparkline == Some([])
  {
  }
}
