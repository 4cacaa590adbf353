/** The CargoMind side panel: it joins the latest route history with the
    live four-hour snapshot and shows one card per history row, live when a
    busy enough snapshot exists for the same route and body group. */
module SidePanel {
  import opened Js

  /** The text shown when there is no history to list. */
  const NoHistoryNotice := "Brak danych historycznych."

  const DefaultGroup := "GENERAL"

  /** Icons: a snowflake for refrigerated, a bolt for express, a truck
      for anything else. */
  const TempIcon := "\U{2744}\U{FE0F}"
  const ExpressIcon := "\U{26A1}"
  const GeneralIcon := "\U{1F69B}"

  // ---------------------------------------------------------------------
  // Keyed maps filled row by row

  /** A JS object filled with `obj[keyOf(x)] = valOf(x)` for each `x` in
      turn: later rows overwrite earlier ones with the same key. */
  function Assign<V>(m: map<string, V>, xs: seq<Value>, keyOf: Value -> string, valOf: Value -> V): map<string, V>
    decreases |xs|
  {
    if xs == [] then m
    else Assign(m, xs[..|xs| - 1], keyOf, valOf)[keyOf(xs[|xs| - 1]) := valOf(xs[|xs| - 1])]
  }

  /** A key is present exactly when it was present before or some row
      carries it; a key no row carries keeps its old entry. */
  lemma {:induction false} AssignKeys<V>(m: map<string, V>, xs: seq<Value>, keyOf: Value -> string, valOf: Value -> V,
                                         key: string)
    ensures key in Assign(m, xs, keyOf, valOf) <==> key in m || exists i :: 0 <= i < |xs| && keyOf(xs[i]) == key
    ensures (forall i :: 0 <= i < |xs| ==> keyOf(xs[i]) != key) && key in m ==> Assign(m, xs, keyOf, valOf)[key] == m[key]
    decreases |xs|
  {
    if xs != [] {
      var init := xs[..|xs| - 1];
      AssignKeys(m, init, keyOf, valOf, key);
      if exists i :: 0 <= i < |init| && keyOf(init[i]) == key {
        var i :| 0 <= i < |init| && keyOf(init[i]) == key;
        assert keyOf(xs[i]) == key;
      }
      if exists i :: 0 <= i < |xs| && keyOf(xs[i]) == key {
        var i :| 0 <= i < |xs| && keyOf(xs[i]) == key;
        if i < |init| {
          assert keyOf(init[i]) == key;
        }
      }
    }
  }

  /** The entry of a key is the value of the last row carrying it. */
  lemma {:induction false} AssignLastWins<V>(m: map<string, V>, xs: seq<Value>, keyOf: Value -> string, valOf: Value -> V,
                                             i: nat)
    requires i < |xs|
    requires forall j :: i < j < |xs| ==> keyOf(xs[j]) != keyOf(xs[i])
    ensures keyOf(xs[i]) in Assign(m, xs, keyOf, valOf)
    ensures Assign(m, xs, keyOf, valOf)[keyOf(xs[i])] == valOf(xs[i])
    decreases |xs|
  {
    if i < |xs| - 1 {
      var init := xs[..|xs| - 1];
      forall j | i < j < |init| ensures keyOf(init[j]) != keyOf(init[i]) {
        assert init[j] == xs[j];
      }
      AssignLastWins(m, init, keyOf, valOf, i);
    }
  }

  // ---------------------------------------------------------------------
  // Keys, codes and icons

  /** `countryMap[id] || id || "?"` */
  function CountryCode(countryMap: map<string, Value>, id: Value): (r: Value)
    ensures Truthy(r)
    ensures Text(id) in countryMap && Truthy(countryMap[Text(id)]) ==> r == countryMap[Text(id)]
    ensures !(Text(id) in countryMap && Truthy(countryMap[Text(id)])) && Truthy(id) ==> r == id
    ensures !(Text(id) in countryMap && Truthy(countryMap[Text(id)])) && !Truthy(id) ==> r == Str("?")
  {
    var mapped := if Text(id) in countryMap then countryMap[Text(id)] else Undef;
    Or(Or(mapped, id), Str("?"))
  }

  /** `getGroupIcon`: strict comparison against the two special groups. */
  function GroupIcon(group: Value): (icon: string)
    ensures icon == TempIcon <==> group == Str("TEMP")
    ensures icon == ExpressIcon <==> group == Str("EXPRESS")
    ensures icon == TempIcon || icon == ExpressIcon || icon == GeneralIcon
  {
    if group == Str("TEMP") then TempIcon
    else if group == Str("EXPRESS") then ExpressIcon
    else GeneralIcon
  }

  /** The group of a history row: `hist.body_group || 'GENERAL'`. */
  function GroupOf(hist: Value): Value {
    Or(Get(hist, "body_group"), Str(DefaultGroup))
  }

  function RouteKey(origin: Value, dest: Value, group: Value): string {
    Text(origin) + "-" + Text(dest) + "-" + Text(group)
  }

  /** The key a snapshot row is filed under. */
  function LiveKey(row: Value): string {
    RouteKey(Get(row, "origin_country"), Get(row, "dest_country"), Get(row, "body_group"))
  }

  /** The key a history row is looked up by. */
  function HistoryKey(hist: Value): string {
    RouteKey(Get(hist, "origin_country"), Get(hist, "dest_country"), GroupOf(hist))
  }

  /** A history row without a body group finds the snapshot row filed under
      `GENERAL` for the same countries. */
  lemma MissingGroupMeansGeneral(hist: Value, row: Value)
    requires !Truthy(Get(hist, "body_group"))
    requires Get(row, "body_group") == Str(DefaultGroup)
    requires Get(hist, "origin_country") == Get(row, "origin_country")
    requires Get(hist, "dest_country") == Get(row, "dest_country")
    ensures HistoryKey(hist) == LiveKey(row)
    ensures GroupIcon(GroupOf(hist)) == GeneralIcon
  {
  }

  function CodeOf(d: Value): Value { Get(d, "code") }

  function ExternalIdKey(d: Value): string { Text(Get(d, "external_id")) }

  function Itself(v: Value): Value { v }

  // ---------------------------------------------------------------------
  // Cards

  /** `live.volume > 3` for a number; other volumes are treated as not
      above three. */
  predicate BusyEnough(live: Value) {
    var v := Get(live, "volume");
    v.Num? && v.n > 3.0
  }

  /** What a card shows. */
  datatype Card = Card(origin: Value, dest: Value, group: Value, icon: string,
                       isLive: bool, rate: Value, volume: Value)

  /** The card for one history row. */
  function CardFor(hist: Value, liveMap: map<string, Value>, countryMap: map<string, Value>): Card {
    var group := GroupOf(hist);
    var live := if HistoryKey(hist) in liveMap then liveMap[HistoryKey(hist)] else Undef;
    var origin := CountryCode(countryMap, Get(hist, "origin_country"));
    var dest := CountryCode(countryMap, Get(hist, "dest_country"));
    if Truthy(live) && BusyEnough(live) then
      Card(origin, dest, group, GroupIcon(group), true, Get(live, "live_rate"), Get(live, "volume"))
    else
      Card(origin, dest, group, GroupIcon(group), false, Get(hist, "ema_rate_per_km"), Get(hist, "offers_count"))
  }

  /** The cards of a history list, one per row, in order. */
  function Cards(history: seq<Value>, liveMap: map<string, Value>, countryMap: map<string, Value>): (cs: seq<Card>)
    ensures |cs| == |history|
  {
    seq(|history|, i requires 0 <= i < |history| => CardFor(history[i], liveMap, countryMap))
  }

  /** The snapshot map of a fetched snapshot (none when the fetch gave null). */
  function LiveMapOf(liveData: Option<seq<Value>>): map<string, Value> {
    if liveData.Some? then Assign(map[], liveData.value, LiveKey, Itself) else map[]
  }

  /** A card is live exactly when the latest snapshot row for its route and
      group reports more than three offers, and then shows that row's
      rate and volume; otherwise, and whenever no snapshot row matches, it
      shows the history's smoothed rate and offer count. */
  lemma CardUsesLatestSnapshot(hist: Value, live: seq<Value>, countryMap: map<string, Value>, i: nat)
    requires i < |live| && LiveKey(live[i]) == HistoryKey(hist)
    requires forall j :: i < j < |live| ==> LiveKey(live[j]) != LiveKey(live[i])
    ensures var card := CardFor(hist, LiveMapOf(Some(live)), countryMap);
      && (card.isLive <==> Truthy(live[i]) && BusyEnough(live[i]))
      && (card.isLive ==> card.rate == Get(live[i], "live_rate") && card.volume == Get(live[i], "volume"))
      && (!card.isLive ==> card.rate == Get(hist, "ema_rate_per_km") && card.volume == Get(hist, "offers_count"))
  {
    AssignLastWins(map[], live, LiveKey, Itself, i);
  }

  lemma CardWithoutSnapshotIsHistorical(hist: Value, live: seq<Value>, countryMap: map<string, Value>)
    requires forall j :: 0 <= j < |live| ==> LiveKey(live[j]) != HistoryKey(hist)
    ensures var card := CardFor(hist, LiveMapOf(Some(live)), countryMap);
      !card.isLive && card.rate == Get(hist, "ema_rate_per_km") && card.volume == Get(hist, "offers_count")
  {
    AssignKeys(map[], live, LiveKey, Itself, HistoryKey(hist));
  }

  /** The `liveMap` construction in `loadStats`. */
  method BuildLiveMap(liveData: Option<seq<Value>>) returns (liveMap: map<string, Value>)
    ensures liveMap == LiveMapOf(liveData)
  {
    liveMap := map[];
    if liveData.Some? {
      var rows := liveData.value;
      var i := 0;
      while i < |rows|
        invariant 0 <= i <= |rows|
        invariant liveMap == Assign(map[], rows[..i], LiveKey, Itself)
      {
        assert rows[..i + 1][..i] == rows[..i];
        liveMap := liveMap[LiveKey(rows[i]) := rows[i]];
        i := i + 1;
      }
      assert rows[..|rows|] == rows;
    }
  }

  /** The `forEach` that appends one card per history row. */
  method BuildCards(history: seq<Value>, liveMap: map<string, Value>, countryMap: map<string, Value>)
    returns (cards: seq<Card>)
    ensures cards == Cards(history, liveMap, countryMap)
  {
    cards := [];
    var i := 0;
    while i < |history|
      invariant 0 <= i <= |history|
      invariant |cards| == i
      invariant forall k :: 0 <= k < i ==> cards[k] == CardFor(history[k], liveMap, countryMap)
    {
      cards := cards + [CardFor(history[i], liveMap, countryMap)];
      i := i + 1;
    }
  }

  /** The panel: its country dictionary and what its list shows. */
  class Panel {
    var countryMap: map<string, Value>
    var cards: seq<Card>
    var notice: Option<string>

    constructor ()
      ensures countryMap == map[] && cards == [] && notice.None?
    {
      countryMap := map[];
      cards := [];
      notice := None;
    }

    /** `loadDictionaries`: `countryMap[d.external_id] = d.code` for each
        fetched entry. */
    method LoadDictionaries(data: Option<seq<Value>>)
      modifies this
      ensures countryMap == (if data.Some? then Assign(old(countryMap), data.value, ExternalIdKey, CodeOf) else old(countryMap))
      ensures cards == old(cards) && notice == old(notice)
    {
      if data.Some? {
        var ds := data.value;
        var i := 0;
        while i < |ds|
          invariant 0 <= i <= |ds|
          invariant countryMap == Assign(old(countryMap), ds[..i], ExternalIdKey, CodeOf)
          invariant cards == old(cards) && notice == old(notice)
        {
          assert ds[..i + 1][..i] == ds[..i];
          countryMap := countryMap[ExternalIdKey(ds[i]) := CodeOf(ds[i])];
          i := i + 1;
        }
        assert ds[..|ds|] == ds;
      }
    }

    /** `loadStats`: the dictionary is fetched only while empty; an absent
        or empty history shows the notice; otherwise the list holds one
        card per history row. The three fetch results are parameters. */
    method LoadStats(dictData: Option<seq<Value>>, historyData: Option<seq<Value>>, liveData: Option<seq<Value>>)
      modifies this
      ensures countryMap == (if |old(countryMap)| == 0 && dictData.Some?
                             then Assign(old(countryMap), dictData.value, ExternalIdKey, CodeOf)
                             else old(countryMap))
      ensures historyData.None? || historyData.value == [] ==> cards == [] && notice == Some(NoHistoryNotice)
      ensures historyData.Some? && historyData.value != [] ==>
        cards == Cards(historyData.value, LiveMapOf(liveData), countryMap) && notice.None?
    {
      notice := None;
      if |countryMap| == 0 {
        LoadDictionaries(dictData);
      }
      var liveMap := BuildLiveMap(liveData);
      cards := [];
      if historyData.None? || |historyData.value| == 0 {
        notice := Some(NoHistoryNotice);
        return;
      }
      cards := BuildCards(historyData.value, liveMap, countryMap);
    }
  }
}
