/** Route enrichment for the market dashboard: each base route row gets its
    rank, 1h/24h/7d percent changes, sparkline, 24h volume and market cap,
    computed from the hourly and daily history rows of the same route. */
module MarketUtils {
  import opened Js

  /** A `route_stats` row. The fields from `rank` on are the ones the
      dashboard adds; a row straight from the store has them absent. */
  datatype RouteStat = RouteStat(
    origin_country: string,
    dest_country: string,
    body_group: string,
    source: Option<string>,
    avg_rate_per_km: real,
    offers_count: int,
    last_updated: string,
    rank: Option<int>,
    change_1h: Option<real>,
    change_24h: Option<real>,
    change_7d: Option<real>,
    market_cap: Option<real>,
    volume_24h: Option<real>,
    sparkline: Option<seq<real>>)

  /** An `hourly_market_stats` row; `stat_hour` is in epoch milliseconds. */
  datatype HourlyStat = HourlyStat(
    origin_country: string,
    dest_country: string,
    body_group: string,
    source: Option<string>,
    stat_hour: int,
    avg_rate_per_km: real)

  /** A `daily_market_stats` row; an absent amount reads as 0. */
  datatype DailyStat = DailyStat(
    origin_country: string,
    dest_country: string,
    body_group: string,
    source: Option<string>,
    stat_date: string,
    total_price_amount: Option<real>,
    total_distance_km: real,
    offer_count: int)

  /** The current time and the three ISO dates derived from it. */
  datatype Clock = Clock(now: int, todayStr: string, yesterdayStr: string, lastWeekStr: string)

  const HourMs := 3600000

  /** The augmented fields a route row may carry, all absent. */
  function Unaugmented(r: RouteStat): RouteStat {
    r.(rank := None, change_1h := None, change_24h := None, change_7d := None,
       market_cap := None, volume_24h := None, sparkline := None)
  }

  // ---------------------------------------------------------------------
  // Key matching

  predicate HasSource(r: RouteStat) {
    r.source.Some? && r.source.value != ""
  }

  /** A history row belongs to the route when origin, destination and body
      group agree, and also the source when the route has one. */
  predicate KeyMatches(r: RouteStat, origin: string, dest: string, group: string, source: Option<string>) {
    origin == r.origin_country && dest == r.dest_country && group == r.body_group
    && (HasSource(r) ==> source == r.source)
  }

  function HourlyOf(r: RouteStat): HourlyStat -> bool {
    (h: HourlyStat) => KeyMatches(r, h.origin_country, h.dest_country, h.body_group, h.source)
  }

  function DailyOf(r: RouteStat): DailyStat -> bool {
    (d: DailyStat) => KeyMatches(r, d.origin_country, d.dest_country, d.body_group, d.source)
  }

  // ---------------------------------------------------------------------
  // Changes

  /** `ref ? (current - ref) / ref * 100 : 0` */
  function PercentChange(current: real, ref: real): (c: real)
    ensures ref == 0.0 ==> c == 0.0
    ensures ref != 0.0 ==> (c == 0.0 <==> current == ref)
    ensures ref > 0.0 ==> (c > 0.0 <==> current > ref) && (c < 0.0 <==> current < ref)
  {
    if ref != 0.0 then (current - ref) / ref * 100.0 else 0.0
  }

  function AtOrAfter(t: int): HourlyStat -> bool {
    (h: HourlyStat) => h.stat_hour >= t
  }

  /** The 1h change: against the first hourly point at most an hour old,
      or against the current rate itself when there is none. */
  function Change1h(currentRate: real, routeHourly: seq<HourlyStat>, now: int): real {
    var past := Find(routeHourly, AtOrAfter(now - HourMs));
    var ref := if past.Some? then past.value.avg_rate_per_km else currentRate;
    PercentChange(currentRate, ref)
  }

  /** `h.avg_rate_per_km` */
  function HourRate(h: HourlyStat): real {
    h.avg_rate_per_km
  }

  // ---------------------------------------------------------------------
  // Daily figures

  function DatedOn(date: string): DailyStat -> bool {
    (d: DailyStat) => d.stat_date == date
  }

  /** `Number(s?.total_price_amount) || 0` */
  function Amount(s: Option<DailyStat>): real {
    if s.Some? && s.value.total_price_amount.Some? then s.value.total_price_amount.value else 0.0
  }

  /** `getRate`: price per km when the distance is positive. */
  function DailyRate(s: Option<DailyStat>): Option<real> {
    if s.Some? && s.value.total_distance_km > 0.0 then Some(Amount(s) / s.value.total_distance_km) else None
  }

  /** `rate || fallback`: a present non-zero rate is kept, and a missing
      or zero rate gives the fallback. */
  function RateOr(rate: Option<real>, fallback: real): (r: real)
    ensures rate.Some? && rate.value != 0.0 ==> r == rate.value
    ensures rate.None? || rate.value == 0.0 ==> r == fallback
  {
    if rate.Some? && rate.value != 0.0 then rate.value else fallback
  }

  /** The daily rows chosen as today's, yesterday's and last week's. */
  datatype DayPicks = DayPicks(today: Option<DailyStat>, yesterday: Option<DailyStat>, lastWeek: Option<DailyStat>)

  /** Each day's row is the one dated that day, else a fixed position of the
      route's daily rows (newest first): the first, the second, the last. */
  function PickDays(routeDaily: seq<DailyStat>, clock: Clock): DayPicks {
    DayPicks(
      OrElse(Find(routeDaily, DatedOn(clock.todayStr)), Nth(routeDaily, 0)),
      OrElse(Find(routeDaily, DatedOn(clock.yesterdayStr)), Nth(routeDaily, 1)),
      OrElse(Find(routeDaily, DatedOn(clock.lastWeekStr)), Nth(routeDaily, |routeDaily| - 1)))
  }

  /** The 7-day volume: the sum of the daily amounts. */
  function TotalAmount(ds: seq<DailyStat>): real
    decreases |ds|
  {
    if ds == [] then 0.0 else Amount(Some(ds[0])) + TotalAmount(ds[1..])
  }

  /** The 24h volume as the source computes it: today's amount, plus
      yesterday's when the row taken for today is not dated today. */
  function Volume24hAsWritten(p: DayPicks, todayStr: string): real {
    Amount(p.today) + (if p.today.Some? && p.today.value.stat_date == todayStr then 0.0 else Amount(p.yesterday))
  }

  /** The 24h volume with each daily row counted at most once. */
  function Volume24h(p: DayPicks, todayStr: string): real {
    Amount(p.today)
    + (if (p.today.Some? && p.today.value.stat_date == todayStr) || p.yesterday == p.today then 0.0
       else Amount(p.yesterday))
  }

  // ---------------------------------------------------------------------
  // Enrichment

  /** The enriched row for base row `r` at rank `rank`, given the hourly
      and daily rows of its own route. */
  function EnrichFromHistory(r: RouteStat, rank: int, routeHourly: seq<HourlyStat>, routeDaily: seq<DailyStat>,
                             clock: Clock): RouteStat {
    var p := PickDays(routeDaily, clock);
    var rateToday := RateOr(DailyRate(p.today), r.avg_rate_per_km);
    var rateYesterday := RateOr(DailyRate(p.yesterday), rateToday);
    var rateLastWeek := RateOr(DailyRate(p.lastWeek), rateToday);
    r.(rank := Some(rank),
       change_1h := Some(Change1h(r.avg_rate_per_km, routeHourly, clock.now)),
       change_24h := Some(PercentChange(rateToday, rateYesterday)),
       change_7d := Some(PercentChange(rateToday, rateLastWeek)),
       market_cap := Some(TotalAmount(routeDaily) * 52.0),
       volume_24h := Some(Volume24h(p, clock.todayStr)),
       sparkline := Some(Map(routeHourly, HourRate)))
  }

  /** The enriched row for base row `r` at rank `rank`: the history is
      first narrowed to the rows whose key matches the route. */
  function EnrichRoute(r: RouteStat, rank: int, hourly: seq<HourlyStat>, daily: seq<DailyStat>, clock: Clock): RouteStat {
    EnrichFromHistory(r, rank, Filter(hourly, HourlyOf(r)), Filter(daily, DailyOf(r)), clock)
  }

  /** `enrichRouteData(baseRoutes, hourlyChanges, dailyStats, baseRank)` */
  function EnrichRouteData(base: seq<RouteStat>, hourly: seq<HourlyStat>, daily: seq<DailyStat>,
                           baseRank: int, clock: Clock): seq<RouteStat>
  {
    seq(|base|, i requires 0 <= i < |base| => EnrichRoute(base[i], baseRank + i + 1, hourly, daily, clock))
  }

  /** One output row per base row, in order, ranked from `baseRank + 1`,
      with every base field kept and every augmented field present. */
  lemma EnrichKeepsRows(base: seq<RouteStat>, hourly: seq<HourlyStat>, daily: seq<DailyStat>, baseRank: int, clock: Clock)
    ensures var out := EnrichRouteData(base, hourly, daily, baseRank, clock);
      && |out| == |base|
      && forall i :: 0 <= i < |base| ==>
        && out[i].rank == Some(baseRank + i + 1)
        && Unaugmented(out[i]) == Unaugmented(base[i])
        && out[i].change_1h.Some? && out[i].change_24h.Some? && out[i].change_7d.Some?
        && out[i].market_cap.Some? && out[i].volume_24h.Some? && out[i].sparkline.Some?
  {
  }

  /** History rows of other routes have no effect on a route's figures:
      adding a row whose key does not match leaves the result unchanged. */
  lemma {:induction false} ForeignHistoryIgnored(r: RouteStat, rank: int, hourly: seq<HourlyStat>, daily: seq<DailyStat>,
                                                  clock: Clock, h: HourlyStat, d: DailyStat)
    requires !KeyMatches(r, h.origin_country, h.dest_country, h.body_group, h.source)
    requires !KeyMatches(r, d.origin_country, d.dest_country, d.body_group, d.source)
    ensures EnrichRoute(r, rank, hourly + [h], daily + [d], clock) == EnrichRoute(r, rank, hourly, daily, clock)
  {
    FilterConcat(hourly, [h], HourlyOf(r));
    FilterConcat(daily, [d], DailyOf(r));
    assert !HourlyOf(r)(h) && !DailyOf(r)(d);
    assert Filter([h], HourlyOf(r)) == [];
    assert Filter([d], DailyOf(r)) == [];
    assert Filter(hourly + [h], HourlyOf(r)) == Filter(hourly, HourlyOf(r));
    assert Filter(daily + [d], DailyOf(r)) == Filter(daily, DailyOf(r));
  }

  /** Only the matching rows count: pre-filtering the history by the
      route's key gives the same row. */
  lemma OnlyMatchingHistoryCounts(r: RouteStat, rank: int, hourly: seq<HourlyStat>, daily: seq<DailyStat>, clock: Clock)
    ensures EnrichRoute(r, rank, Filter(hourly, HourlyOf(r)), Filter(daily, DailyOf(r)), clock)
         == EnrichRoute(r, rank, hourly, daily, clock)
  {
    FilterIdempotent(hourly, HourlyOf(r));
    FilterIdempotent(daily, DailyOf(r));
  }

  lemma SparklineOf(r: RouteStat, rank: int, hourly: seq<HourlyStat>, daily: seq<DailyStat>, clock: Clock)
    ensures EnrichRoute(r, rank, hourly, daily, clock).sparkline == Some(Map(Filter(hourly, HourlyOf(r)), HourRate))
  {
  }

  /** The sparkline is the matched hourly rates in input order: empty
      without history, and an appended hourly row adds its rate at the end
      exactly when it belongs to the route. It has one point per matched
      row, and every matched row's rate is among them. */
  lemma SparklineIsMatchedRates(r: RouteStat, rank: int, hourly: seq<HourlyStat>, daily: seq<DailyStat>, clock: Clock,
                                h: HourlyStat)
    ensures EnrichRoute(r, rank, [], daily, clock).sparkline == Some([])
    ensures EnrichRoute(r, rank, hourly + [h], daily, clock).sparkline.value
         == EnrichRoute(r, rank, hourly, daily, clock).sparkline.value
            + (if HourlyOf(r)(h) then [h.avg_rate_per_km] else [])
    ensures var s := EnrichRoute(r, rank, hourly, daily, clock).sparkline.value;
      && |s| == |Filter(hourly, HourlyOf(r))|
      && (forall i :: 0 <= i < |s| ==> exists h :: h in hourly && HourlyOf(r)(h) && s[i] == h.avg_rate_per_km)
      && (forall h :: h in hourly && HourlyOf(r)(h) ==> h.avg_rate_per_km in s)
  {
    SparklineOf(r, rank, [], daily, clock);
    SparklineOf(r, rank, hourly, daily, clock);
    SparklineOf(r, rank, hourly + [h], daily, clock);
    MatchedRatesSnoc(hourly, h, HourlyOf(r));
    MatchedRatesMembers(hourly, HourlyOf(r));
    var m := Filter(hourly, HourlyOf(r));
    forall i | 0 <= i < |m|
      ensures exists h :: h in hourly && HourlyOf(r)(h) && Map(m, HourRate)[i] == h.avg_rate_per_km
    {
      assert m[i] in hourly && HourlyOf(r)(m[i]) && Map(m, HourRate)[i] == m[i].avg_rate_per_km;
    }
  }

  /** The rates of the rows kept by `p`, extended by one row. */
  lemma MatchedRatesSnoc(hourly: seq<HourlyStat>, h: HourlyStat, p: HourlyStat -> bool)
    ensures Map(Filter(hourly + [h], p), HourRate)
         == Map(Filter(hourly, p), HourRate) + (if p(h) then [h.avg_rate_per_km] else [])
  {
    FilterSnoc(hourly, h, p);
    MapSnoc(Filter(hourly, p), h, HourRate);
  }

  /** The i-th kept rate is the rate of the i-th kept row, a row of the
      input that passes `p`. */
  lemma MatchedRateAt(hourly: seq<HourlyStat>, p: HourlyStat -> bool, i: int)
    requires 0 <= i < |Filter(hourly, p)|
    ensures Filter(hourly, p)[i] in hourly && p(Filter(hourly, p)[i])
    ensures Map(Filter(hourly, p), HourRate)[i] == Filter(hourly, p)[i].avg_rate_per_km
  {
    FilterMembers(hourly, p);
    assert Filter(hourly, p)[i] in Filter(hourly, p);
  }

  /** Every input row that passes `p` has its rate among the kept rates. */
  lemma KeptRowRatesAppear(hourly: seq<HourlyStat>, p: HourlyStat -> bool)
    ensures forall h :: h in hourly && p(h) ==> h.avg_rate_per_km in Map(Filter(hourly, p), HourRate)
  {
    FilterMembers(hourly, p);
    var m := Filter(hourly, p);
    forall h | h in hourly && p(h) ensures h.avg_rate_per_km in Map(m, HourRate) {
      var k :| 0 <= k < |m| && m[k] == h;
      assert Map(m, HourRate)[k] == h.avg_rate_per_km;
    }
  }

  /** The rates of the rows kept by `p`: one per kept row, the i-th being
      the rate of the i-th kept row, a row of the input that passes `p`;
      and every kept row's rate is among them. */
  lemma MatchedRatesMembers(hourly: seq<HourlyStat>, p: HourlyStat -> bool)
    ensures |Map(Filter(hourly, p), HourRate)| == |Filter(hourly, p)|
    ensures forall i :: 0 <= i < |Filter(hourly, p)| ==>
      && Filter(hourly, p)[i] in hourly && p(Filter(hourly, p)[i])
      && Map(Filter(hourly, p), HourRate)[i] == Filter(hourly, p)[i].avg_rate_per_km
    ensures forall h :: h in hourly && p(h) ==> h.avg_rate_per_km in Map(Filter(hourly, p), HourRate)
  {
    forall i | 0 <= i < |Filter(hourly, p)|
      ensures Filter(hourly, p)[i] in hourly && p(Filter(hourly, p)[i])
      ensures Map(Filter(hourly, p), HourRate)[i] == Filter(hourly, p)[i].avg_rate_per_km
    {
      MatchedRateAt(hourly, p, i);
    }
    KeptRowRatesAppear(hourly, p);
  }

  /** With no matched hourly point less than an hour old, the 1h change is 0. */
  lemma Change1hWithoutRecentPoint(currentRate: real, routeHourly: seq<HourlyStat>, now: int)
    requires forall h :: h in routeHourly ==> h.stat_hour < now - HourMs
    ensures Change1h(currentRate, routeHourly, now) == 0.0
  {
    FindFirst(routeHourly, AtOrAfter(now - HourMs));
  }

  /** Otherwise it is measured against the first such point. */
  lemma Change1hAgainstFirstRecent(currentRate: real, routeHourly: seq<HourlyStat>, now: int, i: nat)
    requires i < |routeHourly| && routeHourly[i].stat_hour >= now - HourMs
    requires forall j :: 0 <= j < i ==> routeHourly[j].stat_hour < now - HourMs
    ensures Change1h(currentRate, routeHourly, now) == PercentChange(currentRate, routeHourly[i].avg_rate_per_km)
  {
    var p := AtOrAfter(now - HourMs);
    FindFirst(routeHourly, p);
    assert p(routeHourly[i]) && routeHourly[i] in routeHourly;
    var k :| 0 <= k < |routeHourly| && routeHourly[k] == Find(routeHourly, p).value && p(routeHourly[k])
             && forall j :: 0 <= j < k ==> !p(routeHourly[j]);
    assert k == i;
  }

  /** `x` is the first of the rows dated `date`. */
  predicate FirstDatedOn(routeDaily: seq<DailyStat>, date: string, x: DailyStat) {
    exists i :: 0 <= i < |routeDaily| && routeDaily[i] == x && routeDaily[i].stat_date == date
      && forall j :: 0 <= j < i ==> routeDaily[j].stat_date != date
  }

  /** One day's choice: the first row dated that day, or else the row at
      the fallback position, absent when there is no such row. */
  lemma DayChoice(routeDaily: seq<DailyStat>, date: string, fallback: int)
    ensures var c := OrElse(Find(routeDaily, DatedOn(date)), Nth(routeDaily, fallback));
      && ((exists d :: d in routeDaily && d.stat_date == date) ==> c.Some? && FirstDatedOn(routeDaily, date, c.value))
      && ((forall d :: d in routeDaily ==> d.stat_date != date) ==>
            c == (if 0 <= fallback < |routeDaily| then Some(routeDaily[fallback]) else None))
      && (c.Some? ==> c.value in routeDaily)
  {
    FindFirst(routeDaily, DatedOn(date));
    FoundIsMember(routeDaily, DatedOn(date));
  }

  /** The chosen daily rows. For each of today, yesterday and last week:
      when some row carries that date, the choice is the first such row;
      otherwise it is the first row, the second row and the last row
      respectively, absent when the route has too few rows. Each chosen
      row is one of the route's rows. */
  lemma PickDaysChoices(routeDaily: seq<DailyStat>, clock: Clock)
    ensures var p := PickDays(routeDaily, clock);
      && (p.today.None? <==> routeDaily == [])
      && (p.lastWeek.None? <==> routeDaily == [])
      && (p.yesterday.None? <==> |routeDaily| < 2 && forall d :: d in routeDaily ==> d.stat_date != clock.yesterdayStr)
      && ((exists d :: d in routeDaily && d.stat_date == clock.todayStr) ==>
            p.today.Some? && FirstDatedOn(routeDaily, clock.todayStr, p.today.value))
      && ((exists d :: d in routeDaily && d.stat_date == clock.yesterdayStr) ==>
            p.yesterday.Some? && FirstDatedOn(routeDaily, clock.yesterdayStr, p.yesterday.value))
      && ((exists d :: d in routeDaily && d.stat_date == clock.lastWeekStr) ==>
            p.lastWeek.Some? && FirstDatedOn(routeDaily, clock.lastWeekStr, p.lastWeek.value))
      && ((forall d :: d in routeDaily ==> d.stat_date != clock.todayStr) ==>
            p.today == (if |routeDaily| > 0 then Some(routeDaily[0]) else None))
      && ((forall d :: d in routeDaily ==> d.stat_date != clock.yesterdayStr) ==>
            p.yesterday == (if |routeDaily| > 1 then Some(routeDaily[1]) else None))
      && ((forall d :: d in routeDaily ==> d.stat_date != clock.lastWeekStr) ==>
            p.lastWeek == (if |routeDaily| > 0 then Some(routeDaily[|routeDaily| - 1]) else None))
      && (p.today.Some? ==> p.today.value in routeDaily)
      && (p.yesterday.Some? ==> p.yesterday.value in routeDaily)
      && (p.lastWeek.Some? ==> p.lastWeek.value in routeDaily)
  {
    DayChoice(routeDaily, clock.todayStr, 0);
    DayChoice(routeDaily, clock.yesterdayStr, 1);
    DayChoice(routeDaily, clock.lastWeekStr, |routeDaily| - 1);
  }

  /** The rate fallbacks: today's rate is the route's current rate when the
      row for today gives no non-zero rate, and the 24h and 7d changes are
      0 when their reference row gives none. */
  lemma RateFallbacks(r: RouteStat, rank: int, hourly: seq<HourlyStat>, daily: seq<DailyStat>, clock: Clock)
    ensures var p := PickDays(Filter(daily, DailyOf(r)), clock);
      var e := EnrichRoute(r, rank, hourly, daily, clock);
      && (RateOr(DailyRate(p.yesterday), 0.0) == 0.0 ==> e.change_24h == Some(0.0))
      && (RateOr(DailyRate(p.lastWeek), 0.0) == 0.0 ==> e.change_7d == Some(0.0))
      && (RateOr(DailyRate(p.today), 0.0) == 0.0 ==>
            && e.change_24h == Some(PercentChange(r.avg_rate_per_km, RateOr(DailyRate(p.yesterday), r.avg_rate_per_km)))
            && e.change_7d == Some(PercentChange(r.avg_rate_per_km, RateOr(DailyRate(p.lastWeek), r.avg_rate_per_km))))
  {
  }

  /** The ordinary case: when the rows picked for today, yesterday and last
      week all give a non-zero rate, the 24h and 7d changes compare today's
      rate with yesterday's and with last week's. */
  lemma ChangesFromPickedRates(r: RouteStat, rank: int, hourly: seq<HourlyStat>, daily: seq<DailyStat>, clock: Clock)
    ensures var p := PickDays(Filter(daily, DailyOf(r)), clock);
      var e := EnrichRoute(r, rank, hourly, daily, clock);
      var t, y, w := DailyRate(p.today), DailyRate(p.yesterday), DailyRate(p.lastWeek);
      && (t.Some? && t.value != 0.0 && y.Some? && y.value != 0.0 ==> e.change_24h == Some(PercentChange(t.value, y.value)))
      && (t.Some? && t.value != 0.0 && w.Some? && w.value != 0.0 ==> e.change_7d == Some(PercentChange(t.value, w.value)))
  {
  }

  /** The worked example of the design: a rate of 1.20 today against 1.00
      yesterday is a 24h change of 20; with no rate for yesterday and 1.50
      last week, the 24h change is 0 and the 7d change is -20. */
  lemma ExampleChanges(r: RouteStat, rank: int, hourly: seq<HourlyStat>, daily: seq<DailyStat>, clock: Clock)
    ensures var p := PickDays(Filter(daily, DailyOf(r)), clock);
      var e := EnrichRoute(r, rank, hourly, daily, clock);
      && (DailyRate(p.today) == Some(1.2) && DailyRate(p.yesterday) == Some(1.0) ==> e.change_24h == Some(20.0))
      && (DailyRate(p.today) == Some(1.2) && DailyRate(p.yesterday).None? && DailyRate(p.lastWeek) == Some(1.5) ==>
            e.change_24h == Some(0.0) && e.change_7d == Some(-20.0))
  {
    assert PercentChange(1.2, 1.0) == 20.0;
    assert PercentChange(1.2, 1.5) == -20.0;
  }

  /** With no matched history all changes are 0, the sparkline is empty
      and both volumes are 0. */
  lemma NoHistoryGivesZeros(r: RouteStat, rank: int, hourly: seq<HourlyStat>, daily: seq<DailyStat>, clock: Clock)
    requires forall h :: h in hourly ==> !HourlyOf(r)(h)
    requires forall d :: d in daily ==> !DailyOf(r)(d)
    ensures var e := EnrichRoute(r, rank, hourly, daily, clock);
      && e.change_1h == Some(0.0) && e.change_24h == Some(0.0) && e.change_7d == Some(0.0)
      && e.sparkline == Some([]) && e.volume_24h == Some(0.0) && e.market_cap == Some(0.0)
  {
    FilterNone(hourly, HourlyOf(r));
    FilterNone(daily, DailyOf(r));
  }

  /** A route that carries a source matches no history row without one:
      every figure is 0 and the sparkline is empty, whatever the history. */
  lemma UnsourcedHistoryIgnored(r: RouteStat, rank: int, hourly: seq<HourlyStat>, daily: seq<DailyStat>, clock: Clock)
    requires HasSource(r)
    requires forall h :: h in hourly ==> h.source.None?
    requires forall d :: d in daily ==> d.source.None?
    ensures var e := EnrichRoute(r, rank, hourly, daily, clock);
      && e.change_1h == Some(0.0) && e.change_24h == Some(0.0) && e.change_7d == Some(0.0)
      && e.sparkline == Some([]) && e.volume_24h == Some(0.0) && e.market_cap == Some(0.0)
  {
    NoHistoryGivesZeros(r, rank, hourly, daily, clock);
  }

  /** The 7-day volume adds up over concatenation. */
  lemma {:induction false} TotalAmountConcat(xs: seq<DailyStat>, ys: seq<DailyStat>)
    ensures TotalAmount(xs + ys) == TotalAmount(xs) + TotalAmount(ys)
    decreases |xs|
  {
    if xs != [] {
      assert (xs + ys)[1..] == xs[1..] + ys;
      TotalAmountConcat(xs[1..], ys);
    } else {
      assert xs + ys == ys;
    }
  }

  lemma TotalAmountSnoc(xs: seq<DailyStat>, d: DailyStat)
    ensures TotalAmount(xs + [d]) == TotalAmount(xs) + Amount(Some(d))
  {
    TotalAmountConcat(xs, [d]);
    assert TotalAmount([d]) == Amount(Some(d)) + TotalAmount([]);
  }

  predicate NonNegativeAmounts(ds: seq<DailyStat>) {
    forall d :: d in ds ==> Amount(Some(d)) >= 0.0
  }

  /** The market cap is 52 times the 7-day volume, never negative when no
      amount is negative. */
  lemma MarketCapIsYearlyVolume(r: RouteStat, rank: int, hourly: seq<HourlyStat>, daily: seq<DailyStat>, clock: Clock)
    requires NonNegativeAmounts(daily)
    ensures var e := EnrichRoute(r, rank, hourly, daily, clock);
      e.market_cap == Some(52.0 * TotalAmount(Filter(daily, DailyOf(r)))) && e.market_cap.value >= 0.0
  {
    FilterMembers(daily, DailyOf(r));
    TotalNonNegative(Filter(daily, DailyOf(r)));
  }

  lemma {:induction false} TotalNonNegative(ds: seq<DailyStat>)
    requires NonNegativeAmounts(ds)
    ensures TotalAmount(ds) >= 0.0
    decreases |ds|
  {
    if ds != [] {
      assert ds[0] in ds;
      TotalNonNegative(ds[1..]);
    }
  }

  /** One row's amount is at most the total. */
  lemma {:induction false} OneBelowTotal(ds: seq<DailyStat>, i: nat)
    requires i < |ds| && NonNegativeAmounts(ds)
    ensures Amount(Some(ds[i])) <= TotalAmount(ds)
    decreases i
  {
    assert ds[0] in ds;
    if i == 0 {
      TotalNonNegative(ds[1..]);
    } else {
      assert ds[1..][i - 1] == ds[i];
      OneBelowTotal(ds[1..], i - 1);
    }
  }

  /** Two rows at different positions together are at most the total. */
  lemma {:induction false} TwoBelowTotal(ds: seq<DailyStat>, i: nat, j: nat)
    requires i < j < |ds| && NonNegativeAmounts(ds)
    ensures Amount(Some(ds[i])) + Amount(Some(ds[j])) <= TotalAmount(ds)
    decreases i
  {
    assert ds[0] in ds;
    assert ds[1..][j - 1] == ds[j];
    if i == 0 {
      OneBelowTotal(ds[1..], j - 1);
    } else {
      assert ds[1..][i - 1] == ds[i];
      TwoBelowTotal(ds[1..], i - 1, j - 1);
    }
  }

  /** With the correction, the 24h volume never exceeds the 7-day volume
      of the same rows, as long as no amount is negative. */
  lemma Volume24hWithinWeek(routeDaily: seq<DailyStat>, clock: Clock)
    requires NonNegativeAmounts(routeDaily)
    ensures Volume24h(PickDays(routeDaily, clock), clock.todayStr) <= TotalAmount(routeDaily)
  {
    var p := PickDays(routeDaily, clock);
    PickDaysChoices(routeDaily, clock);
    TotalNonNegative(routeDaily);
    if p.today.Some? {
      var i :| 0 <= i < |routeDaily| && routeDaily[i] == p.today.value;
      OneBelowTotal(routeDaily, i);
      if p.yesterday.Some? && p.yesterday != p.today {
        var j :| 0 <= j < |routeDaily| && routeDaily[j] == p.yesterday.value;
        if i < j { TwoBelowTotal(routeDaily, i, j); } else { TwoBelowTotal(routeDaily, j, i); }
      }
    }
  }

  /** As written, a route whose only daily row is yesterday's reports twice
      that row's amount as its 24h volume, more than its 7-day volume. */
  lemma Volume24hDoubleCounts(clock: Clock)
    requires clock.todayStr != clock.yesterdayStr
    ensures var ds := [DailyStat("PL", "DE", "ALL", None, clock.yesterdayStr, Some(100.0), 50.0, 1)];
      && Volume24hAsWritten(PickDays(ds, clock), clock.todayStr) == 200.0
      && TotalAmount(ds) == 100.0
      && Volume24h(PickDays(ds, clock), clock.todayStr) == 100.0
  {
    var ds := [DailyStat("PL", "DE", "ALL", None, clock.yesterdayStr, Some(100.0), 50.0, 1)];
    assert Find(ds, DatedOn(clock.todayStr)) == Find(ds[1..], DatedOn(clock.todayStr));
    assert Find(ds, DatedOn(clock.yesterdayStr)) == Some(ds[0]);
  }

  /** The two definitions differ only when the row taken for today is also
      the row taken for yesterday and is not dated today. */
  lemma Volume24hCorrectionIsNarrow(p: DayPicks, todayStr: string)
    ensures Volume24h(p, todayStr) != Volume24hAsWritten(p, todayStr) ==>
      p.yesterday == p.today && !(p.today.Some? && p.today.value.stat_date == todayStr) && Amount(p.today) != 0.0
  {
  }
}
