/** The background service worker of the Cargomind extension: it receives
    classified batches, rate-limits and de-duplicates offer batches,
    normalises each raw offer into a storage row, and flattens and maps
    dictionary payloads. The HTTP upserts themselves are outside the model;
    their result is an input. */
module SyncEngine {
  import opened Js
  import Interceptor

  /** Minimum time between two accepted offer syncs, in milliseconds. */
  const MinSyncInterval := 5000

  // ---------------------------------------------------------------------
  // Batch fingerprint

  /** `o.publicOfferId || o.id || "no-id"`, as `join` writes it. */
  function OfferIdText(o: Value): string {
    Text(Or(Or(Get(o, "publicOfferId"), Get(o, "id")), Str("no-id")))
  }

  function IdTexts(sample: seq<Value>): (r: seq<string>)
    ensures |r| == |sample|
    ensures forall i :: 0 <= i < |sample| ==> r[i] == OfferIdText(sample[i])
  {
    seq(|sample|, i requires 0 <= i < |sample| => OfferIdText(sample[i]))
  }

  /** `[...offers.slice(0, 3), ...offers.slice(-3)]` */
  function HashSample(offers: seq<Value>): seq<Value> {
    Slice(offers, 0, 3) + SliceFrom(offers, -3)
  }

  /** `calculateBatchHash`: empty for an empty batch, otherwise the length,
      a bar and the comma-joined ids of the sample. */
  function BatchHash(offers: seq<Value>): (h: string)
    ensures h == "" <==> offers == []
  {
    if offers == [] then "" else NatText(|offers|) + "|" + Join(IdTexts(HashSample(offers)))
  }

  /** The sample is the first three offers followed by the last three (so a
      batch of at most three offers is sampled twice). */
  lemma HashSampleIsFirstAndLastThree(offers: seq<Value>)
    ensures var k := if |offers| < 3 then |offers| else 3;
      HashSample(offers) == offers[..k] + offers[|offers| - k..]
  {
  }

  /** The fingerprint is a heuristic: two batches of the same length whose
      first three and last three ids agree collide, whatever lies between. */
  lemma {:induction false} SampledIdsDecideHash(a: seq<Value>, b: seq<Value>)
    requires |a| == |b|
    requires forall i :: 0 <= i < |a| && (i < 3 || i >= |a| - 3) ==> OfferIdText(a[i]) == OfferIdText(b[i])
    ensures BatchHash(a) == BatchHash(b)
  {
    if a != [] {
      HashSampleIsFirstAndLastThree(a);
      HashSampleIsFirstAndLastThree(b);
      var sa, sb := HashSample(a), HashSample(b);
      assert |sa| == |sb|;
      forall i | 0 <= i < |sa| ensures IdTexts(sa)[i] == IdTexts(sb)[i] {
        var k := if |a| < 3 then |a| else 3;
        if i < k {
          assert sa[i] == a[i] && sb[i] == b[i];
        } else {
          assert sa[i] == a[|a| - k + (i - k)] && sb[i] == b[|a| - k + (i - k)];
        }
      }
      assert IdTexts(sa) == IdTexts(sb);
    }
  }

  // ---------------------------------------------------------------------
  // Offer normalisation

  /** The `distance_km` column: null, a number of kilometres, or NaN (a
      distance that is not numeric), which the JSON body carries as null but
      which is not `=== null` when the rows are counted. */
  datatype Distance = NoDistance | Km(km: real) | NotANumber

  /** One `raw_offers` row. Nullable columns hold `Null`. */
  datatype OfferRow = OfferRow(
    original_id: Value,
    price_amount: Value,
    currency_id: Value,
    distance_km: Distance,
    origin_zip: Value,
    origin_country: string,
    dest_zip: Value,
    dest_country: string,
    vehicle_body_ids: Value,
    full_payload: Value)

  const UnknownCountry := "UNKNOWN"

  /** `v` unless it is undefined or null, in which case null. */
  function OrNull(v: Value): Value {
    if Nullish(v) then Null else v
  }

  predicate IsLoading(lp: Value) {
    Get(lp, "loadingType") == Str("LOADING")
  }

  predicate IsUnloading(lp: Value) {
    Get(lp, "loadingType") == Str("UNLOADING")
  }

  /** The zip code a stop contributes: `stop.address.zipCode || null`. */
  function StopZip(stop: Value): Value {
    var address := Get(stop, "address");
    if Truthy(stop) && Truthy(address) then Or(Get(address, "zipCode"), Null) else Null
  }

  /** The country a stop contributes: its id as text when truthy, else the sentinel. */
  function StopCountry(stop: Value): string {
    var address := Get(stop, "address");
    if Truthy(stop) && Truthy(address) && Truthy(Get(address, "countryId"))
    then Text(Get(address, "countryId"))
    else UnknownCountry
  }

  /** The origin stop: the first LOADING stop, else the first stop. */
  function LoadStop(places: seq<Value>): Value {
    Or(FindValue(places, IsLoading), At(places, 0))
  }

  /** The destination stop: the first UNLOADING stop of the reversed list,
      else the last stop. */
  function UnloadStop(places: seq<Value>): Value {
    Or(FindValue(Reverse(places), IsUnloading), At(places, |places| - 1))
  }

  /** The stops list when `o.loadingplaces` is an array. */
  function Places(o: Value): Option<seq<Value>> {
    var lp := Get(o, "loadingplaces");
    if lp.Arr? then Some(lp.items) else None
  }

  /** `meters !== undefined && meters !== null ? meters / 1000 : null` */
  function DistanceOf(meters: Value): Distance {
    if Nullish(meters) then NoDistance
    else match ToNumber(meters)
      case Some(m) => Km(m / 1000.0)
      case None => NotANumber
  }

  /** The row `offers.map` builds for one offer; `uuid` stands for the
      random identifier generated when the offer has no id of its own. */
  function NormaliseOffer(o: Value, uuid: string): OfferRow {
    var price := Get(o, "price");
    var amount := if Truthy(price) then OrNull(Get(price, "amount")) else OrNull(Get(o, "amount"));
    var currency := if Truthy(price) then OrNull(Get(price, "currencyId")) else OrNull(Get(o, "currencyId"));
    var places := Places(o);
    var load := if places.Some? then LoadStop(places.value) else Undef;
    var unload := if places.Some? then UnloadStop(places.value) else Undef;
    OfferRow(
      Or(Or(Get(o, "publicOfferId"), Get(o, "id")), Str("generated-" + uuid)),
      amount,
      currency,
      DistanceOf(Get(o, "distanceInMeters")),
      StopZip(load),
      StopCountry(load),
      StopZip(unload),
      StopCountry(unload),
      Or(Get(o, "vehicleBodyIds"), Arr([])),
      Or(o, Obj(map[])))
  }

  /** `offers.map(...)` */
  function NormaliseBatch(offers: seq<Value>, uuids: seq<string>): seq<OfferRow>
    requires |uuids| == |offers|
    decreases |offers|
  {
    if offers == [] then [] else [NormaliseOffer(offers[0], uuids[0])] + NormaliseBatch(offers[1..], uuids[1..])
  }

  /** Exactly one row per offer, in the order of the batch. */
  lemma {:induction false} NormaliseBatchIsPointwise(offers: seq<Value>, uuids: seq<string>)
    requires |uuids| == |offers|
    ensures |NormaliseBatch(offers, uuids)| == |offers|
    ensures forall i :: 0 <= i < |offers| ==> NormaliseBatch(offers, uuids)[i] == NormaliseOffer(offers[i], uuids[i])
    decreases |offers|
  {
    if offers != [] {
      NormaliseBatchIsPointwise(offers[1..], uuids[1..]);
    }
  }

  predicate IsComplete(r: OfferRow) {
    !r.price_amount.Null? && !r.distance_km.NoDistance?
  }

  predicate IsIncomplete(r: OfferRow) {
    !IsComplete(r)
  }

  /** Rows lacking a price or a distance are only counted apart: valid and
      invalid rows together are all the rows, and every offer has a row. */
  lemma IncompleteRowsAreKept(offers: seq<Value>, uuids: seq<string>)
    requires |uuids| == |offers|
    ensures var rows := NormaliseBatch(offers, uuids);
      |Filter(rows, IsComplete)| + |Filter(rows, IsIncomplete)| == |offers|
  {
    NormaliseBatchIsPointwise(offers, uuids);
    FilterPartition(NormaliseBatch(offers, uuids), IsComplete, IsIncomplete);
  }

  /** With a nested price object, amount and currency come from it alone:
      changing the flat fields does not change the row. */
  lemma NestedPriceWins(o: map<string, Value>, uuid: string, flatAmount: Value, flatCurrency: Value)
    requires "price" in o && Truthy(o["price"])
    ensures var a := NormaliseOffer(Obj(o), uuid);
      var b := NormaliseOffer(Obj(o["amount" := flatAmount]["currencyId" := flatCurrency]), uuid);
      a.price_amount == b.price_amount && a.currency_id == b.currency_id
      && a.price_amount == OrNull(Get(o["price"], "amount"))
      && a.currency_id == OrNull(Get(o["price"], "currencyId"))
  {
    var o' := o["amount" := flatAmount]["currencyId" := flatCurrency];
    assert Get(Obj(o'), "price") == o["price"];
  }

  /** Without a price object, the flat fields are used, null when nullish. */
  lemma FlatPriceFallback(o: Value, uuid: string)
    requires !Truthy(Get(o, "price"))
    ensures NormaliseOffer(o, uuid).price_amount == OrNull(Get(o, "amount"))
    ensures NormaliseOffer(o, uuid).currency_id == OrNull(Get(o, "currencyId"))
  {
  }

  /** Distance is the metres value, converted to a number, divided by 1000;
      null when absent, NaN when the value is not numeric. */
  lemma DistanceInKilometres(o: Value, uuid: string)
    ensures var d := NormaliseOffer(o, uuid).distance_km;
      && (Nullish(Get(o, "distanceInMeters")) <==> d.NoDistance?)
      && (d.Km? <==> !Nullish(Get(o, "distanceInMeters")) && ToNumber(Get(o, "distanceInMeters")).Some?)
      && (d.Km? ==> d.km * 1000.0 == ToNumber(Get(o, "distanceInMeters")).value)
    ensures Get(o, "distanceInMeters").Num? ==>
      NormaliseOffer(o, uuid).distance_km == Km(Get(o, "distanceInMeters").n / 1000.0)
  {
  }

  /** A distance sent as decimal text is read as its number, `true` as 1
      metre; an object is NaN and still counts as present. */
  lemma DistanceFromOtherValues(o: map<string, Value>, uuid: string, n: nat)
    ensures NormaliseOffer(Obj(o["distanceInMeters" := Str(NatText(n))]), uuid).distance_km == Km(n as real / 1000.0)
    ensures NormaliseOffer(Obj(o["distanceInMeters" := Bool(true)]), uuid).distance_km == Km(0.001)
    ensures NormaliseOffer(Obj(o["distanceInMeters" := Obj(map[])]), uuid).distance_km == NotANumber
  {
    DistanceOfOtherValues(n);
    assert Get(Obj(o["distanceInMeters" := Str(NatText(n))]), "distanceInMeters") == Str(NatText(n));
    assert Get(Obj(o["distanceInMeters" := Bool(true)]), "distanceInMeters") == Bool(true);
    assert Get(Obj(o["distanceInMeters" := Obj(map[])]), "distanceInMeters") == Obj(map[]);
  }

  lemma DistanceOfOtherValues(n: nat)
    ensures DistanceOf(Str(NatText(n))) == Km(n as real / 1000.0)
    ensures DistanceOf(Bool(true)) == Km(0.001)
    ensures DistanceOf(Obj(map[])) == NotANumber
  {
    NatTextRoundTrip(n);
  }

  /** The origin is the first LOADING stop. */
  lemma OriginIsFirstLoadingStop(o: Value, uuid: string, i: nat)
    requires Places(o).Some? && i < |Places(o).value|
    requires IsLoading(Places(o).value[i])
    requires forall j :: 0 <= j < i ==> !IsLoading(Places(o).value[j])
    ensures NormaliseOffer(o, uuid).origin_country == StopCountry(Places(o).value[i])
    ensures NormaliseOffer(o, uuid).origin_zip == StopZip(Places(o).value[i])
  {
    var places := Places(o).value;
    FindFirst(places, IsLoading);
    var k :| 0 <= k < |places| && places[k] == Find(places, IsLoading).value && IsLoading(places[k])
             && forall j :: 0 <= j < k ==> !IsLoading(places[j]);
    assert k == i;
    assert Truthy(places[i]);
  }

  /** With no LOADING stop the origin is the first stop. */
  lemma OriginFallsBackToFirstStop(o: Value, uuid: string)
    requires Places(o).Some? && |Places(o).value| > 0
    requires forall j :: 0 <= j < |Places(o).value| ==> !IsLoading(Places(o).value[j])
    ensures NormaliseOffer(o, uuid).origin_country == StopCountry(Places(o).value[0])
    ensures NormaliseOffer(o, uuid).origin_zip == StopZip(Places(o).value[0])
  {
    FindFirst(Places(o).value, IsLoading);
  }

  /** The destination is the last UNLOADING stop. */
  lemma DestinationIsLastUnloadingStop(o: Value, uuid: string, i: nat)
    requires Places(o).Some? && i < |Places(o).value|
    requires IsUnloading(Places(o).value[i])
    requires forall j :: i < j < |Places(o).value| ==> !IsUnloading(Places(o).value[j])
    ensures NormaliseOffer(o, uuid).dest_country == StopCountry(Places(o).value[i])
    ensures NormaliseOffer(o, uuid).dest_zip == StopZip(Places(o).value[i])
  {
    var places := Places(o).value;
    FindInReverseIsLast(places, IsUnloading);
    var k :| 0 <= k < |places| && places[k] == Find(Reverse(places), IsUnloading).value && IsUnloading(places[k])
             && forall j :: k < j < |places| ==> !IsUnloading(places[j]);
    assert k == i;
    assert Truthy(places[i]);
  }

  /** With no UNLOADING stop the destination is the last stop. */
  lemma DestinationFallsBackToLastStop(o: Value, uuid: string)
    requires Places(o).Some? && |Places(o).value| > 0
    requires forall j :: 0 <= j < |Places(o).value| ==> !IsUnloading(Places(o).value[j])
    ensures NormaliseOffer(o, uuid).dest_country == StopCountry(Places(o).value[|Places(o).value| - 1])
    ensures NormaliseOffer(o, uuid).dest_zip == StopZip(Places(o).value[|Places(o).value| - 1])
  {
    FindInReverseIsLast(Places(o).value, IsUnloading);
  }

  /** Without a stops array both countries are the sentinel and both zips null. */
  lemma NoStopsGivesUnknown(o: Value, uuid: string)
    requires Places(o).None? || Places(o) == Some([])
    ensures NormaliseOffer(o, uuid).origin_country == UnknownCountry
    ensures NormaliseOffer(o, uuid).dest_country == UnknownCountry
    ensures NormaliseOffer(o, uuid).origin_zip == Null && NormaliseOffer(o, uuid).dest_zip == Null
  {
    if Places(o) == Some([]) {
      assert Find([], IsLoading).None?;
      assert Find(Reverse([]), IsUnloading).None?;
    }
  }

  /** The worked example: an offer with id "A", a nested EUR price of 100,
      200 km, loaded in country 1 and unloaded in country 2. */
  const ExampleLoading := Obj(map["loadingType" := Str("LOADING"),
                                  "address" := Obj(map["countryId" := Num(1.0), "zipCode" := Str("00-001")])])
  const ExampleUnloading := Obj(map["loadingType" := Str("UNLOADING"),
                                    "address" := Obj(map["countryId" := Num(2.0), "zipCode" := Str("10115")])])
  const ExampleOffer := Obj(map["id" := Str("A"),
                                "price" := Obj(map["amount" := Num(100.0), "currencyId" := Str("EUR")]),
                                "distanceInMeters" := Num(200000.0),
                                "loadingplaces" := Arr([ExampleLoading, ExampleUnloading])])

  lemma ExampleStops(uuid: string)
    ensures NormaliseOffer(ExampleOffer, uuid).origin_country == StopCountry(ExampleLoading)
    ensures NormaliseOffer(ExampleOffer, uuid).origin_zip == StopZip(ExampleLoading)
    ensures NormaliseOffer(ExampleOffer, uuid).dest_country == StopCountry(ExampleUnloading)
    ensures NormaliseOffer(ExampleOffer, uuid).dest_zip == StopZip(ExampleUnloading)
  {
    assert Places(ExampleOffer) == Some([ExampleLoading, ExampleUnloading]);
    OriginIsFirstLoadingStop(ExampleOffer, uuid, 0);
    DestinationIsLastUnloadingStop(ExampleOffer, uuid, 1);
  }

  lemma NormaliseExample(uuid: string)
    ensures var r := NormaliseOffer(ExampleOffer, uuid);
      && r.original_id == Str("A") && r.price_amount == Num(100.0) && r.currency_id == Str("EUR")
      && r.distance_km == Km(200.0) && r.origin_country == "1" && r.dest_country == "2"
      && r.origin_zip == Str("00-001") && r.dest_zip == Str("10115")
  {
    ExampleStops(uuid);
    ExampleDistance(uuid);
    ExamplePrice(uuid);
    ExampleCountries();
  }

  lemma ExampleCountries()
    ensures StopCountry(ExampleLoading) == "1" && StopCountry(ExampleUnloading) == "2"
    ensures StopZip(ExampleLoading) == Str("00-001") && StopZip(ExampleUnloading) == Str("10115")
  {
    assert Get(Get(ExampleLoading, "address"), "countryId") == Num(1.0);
    assert Get(Get(ExampleUnloading, "address"), "countryId") == Num(2.0);
    assert Text(Num(1.0)) == NumberText(1.0) == "1";
    assert Text(Num(2.0)) == NumberText(2.0) == "2";
  }

  const ExamplePriceObj := Obj(map["amount" := Num(100.0), "currencyId" := Str("EUR")])

  lemma ExampleFields()
    ensures Get(ExampleOffer, "price") == ExamplePriceObj
    ensures Get(ExamplePriceObj, "amount") == Num(100.0) && Get(ExamplePriceObj, "currencyId") == Str("EUR")
    ensures Get(ExampleOffer, "publicOfferId") == Undef && Get(ExampleOffer, "id") == Str("A")
    ensures Get(ExampleOffer, "distanceInMeters") == Num(200000.0)
  {
  }

  /** Id, amount and currency of a row, read off the offer. */
  lemma OfferIdAndPrice(o: Value, uuid: string)
    ensures var r := NormaliseOffer(o, uuid); var price := Get(o, "price");
      && r.original_id == Or(Or(Get(o, "publicOfferId"), Get(o, "id")), Str("generated-" + uuid))
      && r.price_amount == (if Truthy(price) then OrNull(Get(price, "amount")) else OrNull(Get(o, "amount")))
      && r.currency_id == (if Truthy(price) then OrNull(Get(price, "currencyId")) else OrNull(Get(o, "currencyId")))
  {
  }

  lemma ExamplePrice(uuid: string)
    ensures var r := NormaliseOffer(ExampleOffer, uuid);
      r.original_id == Str("A") && r.price_amount == Num(100.0) && r.currency_id == Str("EUR")
  {
    ExampleFields();
    OfferIdAndPrice(ExampleOffer, uuid);
  }

  lemma ExampleDistance(uuid: string)
    ensures NormaliseOffer(ExampleOffer, uuid).distance_km == Km(200.0)
  {
    ExampleFields();
    DistanceInKilometres(ExampleOffer, uuid);
  }

  // ---------------------------------------------------------------------
  // Dictionaries

  /** One `dictionaries` row. */
  datatype DictRow = DictRow(kind: string, external_id: Value, code: Value, dictLabel: Value, payload: Value)

  /** `group.propertyModelList || []` as `flatMap` spreads it: an array
      contributes its elements, any other truthy value itself. */
  function Children(group: Value): seq<Value> {
    var c := Or(Get(group, "propertyModelList"), Arr([]));
    if c.Arr? then c.items else [c]
  }

  function FlattenGroups(groups: seq<Value>): seq<Value>
    decreases |groups|
  {
    if groups == [] then [] else Children(groups[0]) + FlattenGroups(groups[1..])
  }

  /** The items to map: vehicle-body groups are flattened one level when the
      first entry carries `propertyModelList`. */
  function ItemsToSync(kind: string, data: seq<Value>): seq<Value> {
    if kind == "body_type" && |data| > 0 && Truthy(Get(data[0], "propertyModelList"))
    then FlattenGroups(data)
    else data
  }

  /** The `flatMap` reads `propertyModelList` of every group, and the guard
      that of the first: a null or undefined group there throws a TypeError. */
  predicate FlattenThrows(kind: string, data: seq<Value>) {
    && kind == "body_type" && |data| > 0
    && (|| Nullish(data[0])
        || (Truthy(Get(data[0], "propertyModelList")) && exists i :: 0 <= i < |data| && Nullish(data[i])))
  }

  /** Building a row throws a TypeError for a null or undefined item, and when
      the code chain reaches an i18n label that is truthy but not a string
      (only strings have `split`). */
  predicate RowThrows(item: Value) {
    var i18n := Get(item, "i18nLabel");
    || Nullish(item)
    || (&& !Truthy(Get(item, "isoCode")) && !Truthy(Get(item, "labelKey")) && !Truthy(Get(item, "text"))
        && Truthy(i18n) && !i18n.Str?)
  }

  /** `isoCode || labelKey || text || (i18nLabel ? last '.'-segment : null)`,
      for an item where that does not throw. */
  function DictCode(item: Value): Value {
    var i18n := Get(item, "i18nLabel");
    Or(Or(Or(Get(item, "isoCode"), Get(item, "labelKey")), Get(item, "text")),
       if Truthy(i18n) && i18n.Str? then Str(LastSegment(i18n.s)) else Null)
  }

  function DictRowOf(kind: string, item: Value): DictRow {
    DictRow(kind, Get(item, "id"), DictCode(item),
            Or(Or(Get(item, "i18nLabel"), Get(item, "label")), Null), item)
  }

  /** The rows `syncDictionaryToSupabase` would upsert, or None when it
      returns early (store not configured, or a payload that is not an array)
      or throws while building the rows). `configured` stands for the
      module's own test, a non-empty store URL; the worker's placeholder-URL
      test belongs to the offer path only. */
  function DictionaryRows(kind: string, data: Value, configured: bool): (r: Option<seq<DictRow>>)
    ensures r.Some? <==>
      && configured && data.Arr? && !FlattenThrows(kind, data.items)
      && forall i :: 0 <= i < |ItemsToSync(kind, data.items)| ==> !RowThrows(ItemsToSync(kind, data.items)[i])
    ensures r.Some? ==> |r.value| == |ItemsToSync(kind, data.items)|
    ensures r.Some? ==> forall i :: 0 <= i < |r.value| ==>
      r.value[i].kind == kind && r.value[i].payload == ItemsToSync(kind, data.items)[i]
  {
    if !configured || !data.Arr? || FlattenThrows(kind, data.items) then None
    else
      var items := ItemsToSync(kind, data.items);
      if exists i :: 0 <= i < |items| && RowThrows(items[i]) then None
      else Some(seq(|items|, i requires 0 <= i < |items| => DictRowOf(kind, items[i])))
  }

  function ChildCount(groups: seq<Value>): nat
    decreases |groups|
  {
    if groups == [] then 0 else |Children(groups[0])| + ChildCount(groups[1..])
  }

  /** Flattening yields one item per child across all groups, never one per group. */
  lemma {:induction false} FlattenCountsChildren(groups: seq<Value>)
    ensures |FlattenGroups(groups)| == ChildCount(groups)
    decreases |groups|
  {
    if groups != [] {
      FlattenCountsChildren(groups[1..]);
    }
  }

  /** For groups that all carry a child array, the body-type rows are those
      children, one row each. */
  lemma {:induction false} BodyRowsAreAllChildren(groups: seq<Value>)
    requires |groups| > 0
    requires forall g :: g in groups ==> Get(g, "propertyModelList").Arr?
    requires forall i :: 0 <= i < |FlattenGroups(groups)| ==> !RowThrows(FlattenGroups(groups)[i])
    ensures ItemsToSync("body_type", groups) == FlattenGroups(groups)
    ensures DictionaryRows("body_type", Arr(groups), true).Some?
    ensures |DictionaryRows("body_type", Arr(groups), true).value| == ChildCount(groups)
  {
    assert groups[0] in groups;
    forall i | 0 <= i < |groups|
      ensures !Nullish(groups[i])
    {
      assert groups[i] in groups;
    }
    FlattenCountsChildren(groups);
  }

  /** The code fallback chain: the first truthy of isoCode, labelKey, text;
      otherwise the dot-free tail of the i18n label; otherwise null. */
  lemma DictCodeFallback(item: Value)
    ensures Truthy(Get(item, "isoCode")) ==> DictCode(item) == Get(item, "isoCode")
    ensures !Truthy(Get(item, "isoCode")) && Truthy(Get(item, "labelKey")) ==> DictCode(item) == Get(item, "labelKey")
    ensures !Truthy(Get(item, "isoCode")) && !Truthy(Get(item, "labelKey")) && Truthy(Get(item, "text"))
      ==> DictCode(item) == Get(item, "text")
    ensures !Truthy(Get(item, "isoCode")) && !Truthy(Get(item, "labelKey")) && !Truthy(Get(item, "text"))
      && !RowThrows(item)
      ==> if Truthy(Get(item, "i18nLabel"))
          then DictCode(item).Str? && '.' !in DictCode(item).s
               && var full := Get(item, "i18nLabel").s;
               |DictCode(item).s| <= |full| && full[|full| - |DictCode(item).s|..] == DictCode(item).s
          else DictCode(item) == Null
  {
    if Get(item, "i18nLabel").Str? {
      LastSegmentIsLastPart(Get(item, "i18nLabel").s);
    }
  }

  // ---------------------------------------------------------------------
  // Message dispatch

  datatype Action =
    | SyncOffers(offers: Value)
    | SyncDictionary(kind: string, data: Value)
    | Ignore

  /** The `switch (message.type)` of the runtime message listener. */
  function Dispatch(messageType: string, payload: Value): Action {
    if messageType == "OFFERS_INTERCEPTED" then SyncOffers(payload)
    else if messageType == "DICT_CURRENCIES" then SyncDictionary("currency", payload)
    else if messageType == "DICT_BODIES" then SyncDictionary("body_type", payload)
    else if messageType == "DICT_COUNTRIES" then SyncDictionary("country", payload)
    else if messageType == "DICT_ADDITIONAL_INFO" then SyncDictionary("additional_info", payload)
    else Ignore
  }

  /** Every kind the interceptor posts reaches a sync path except
      translations, which the worker ignores. */
  lemma DispatchOfInterceptedKinds(k: Interceptor.Kind, payload: Value)
    ensures Dispatch(Interceptor.WireName(k), payload).Ignore? <==> k == Interceptor.DictTranslations
    ensures k == Interceptor.OffersIntercepted <==> Dispatch(Interceptor.WireName(k), payload) == SyncOffers(payload)
    ensures k == Interceptor.DictBodies <==> Dispatch(Interceptor.WireName(k), payload) == SyncDictionary("body_type", payload)
    ensures k == Interceptor.DictCurrencies <==> Dispatch(Interceptor.WireName(k), payload) == SyncDictionary("currency", payload)
    ensures k == Interceptor.DictCountries <==> Dispatch(Interceptor.WireName(k), payload) == SyncDictionary("country", payload)
    ensures k == Interceptor.DictAdditionalInfo <==> Dispatch(Interceptor.WireName(k), payload) == SyncDictionary("additional_info", payload)
  {
  }

  // ---------------------------------------------------------------------
  // The sync state machine

  /** The result of the single upsert of an accepted batch. */
  datatype WriteOutcome = WriteOk | WriteRejected(status: int) | NetworkError

  datatype Skip = NoOffers | NotConfigured | RateLimited | DuplicateBatch

  datatype SyncResult = Skipped(reason: Skip) | Written(rows: seq<OfferRow>, outcome: WriteOutcome)

  /** The module-level variables of the worker. */
  datatype SyncState = SyncState(
    lastSyncTime: int, lastBatchHash: string,
    attempts: nat, successes: nat, failures: nat)

  /** Why a batch is skipped, checked in the worker's order, or None when
      it is accepted. */
  function Gate(st: SyncState, configured: bool, offers: seq<Value>, now: int): Option<Skip> {
    if offers == [] then Some(NoOffers)
    else if !configured then Some(NotConfigured)
    else if now - st.lastSyncTime < MinSyncInterval then Some(RateLimited)
    else if BatchHash(offers) == st.lastBatchHash then Some(DuplicateBatch)
    else None
  }

  /** The state after one call of `syncToSupabase`. */
  function Next(st: SyncState, configured: bool, offers: seq<Value>, now: int, outcome: WriteOutcome): SyncState {
    var tried := st.(attempts := st.attempts + 1);
    match Gate(st, configured, offers, now)
    case Some(NotConfigured) => tried.(failures := tried.failures + 1)
    case Some(_) => tried
    case None =>
      var committed := tried.(lastSyncTime := now, lastBatchHash := BatchHash(offers));
      if outcome == WriteOk then committed.(successes := committed.successes + 1)
      else committed.(failures := committed.failures + 1)
  }

  /** A skipped batch leaves the rate-limit and dedup state as it was; an
      accepted one commits time and fingerprint whatever the write's result. */
  lemma CommitOnlyOnAcceptance(st: SyncState, configured: bool, offers: seq<Value>, now: int, outcome: WriteOutcome)
    ensures var st' := Next(st, configured, offers, now, outcome);
      && st'.attempts == st.attempts + 1
      && (Gate(st, configured, offers, now).Some? ==>
            st'.lastSyncTime == st.lastSyncTime && st'.lastBatchHash == st.lastBatchHash && st'.successes == st.successes)
      && (Gate(st, configured, offers, now).None? ==>
            st'.lastSyncTime == now && st'.lastBatchHash == BatchHash(offers) && st'.lastBatchHash != "")
      && st'.successes + st'.failures <= st.successes + st.failures + 1
  {
  }

  /** The rate limit is checked before the fingerprint: a batch arriving
      too soon is reported rate-limited even when it is also a duplicate. */
  lemma RateLimitBeforeDedup(st: SyncState, offers: seq<Value>, now: int)
    requires offers != [] && now - st.lastSyncTime < MinSyncInterval
    ensures Gate(st, true, offers, now) == Some(RateLimited)
  {
  }

  /** Once a batch is accepted, submitting it again is always skipped, at
      any later time and whatever the first write's outcome. */
  lemma ResubmissionIsSkipped(st: SyncState, offers: seq<Value>, now: int, later: int, outcome: WriteOutcome, outcome2: WriteOutcome)
    requires Gate(st, true, offers, now).None?
    ensures var st' := Next(st, true, offers, now, outcome);
      Gate(st', true, offers, later) in {Some(RateLimited), Some(DuplicateBatch)}
      && Next(st', true, offers, later, outcome2).lastSyncTime == now
      && Next(st', true, offers, later, outcome2).successes == st'.successes
  {
  }

  /** The worker: its sync state plus whether the store URL is configured. */
  class Worker {
    /** `SUPABASE_URL` is set and is not the placeholder. */
    const configured: bool
    var lastBatchHash: string
    var lastSyncTime: int
    var totalSyncAttempts: nat
    var totalSyncSuccesses: nat
    var totalSyncFailures: nat

    function State(): SyncState
      reads this
    {
      SyncState(lastSyncTime, lastBatchHash, totalSyncAttempts, totalSyncSuccesses, totalSyncFailures)
    }

    constructor (supabaseUrl: string)
      ensures configured <==> supabaseUrl != "" && !Includes(supabaseUrl, "YOUR_SUPABASE")
      ensures State() == SyncState(0, "", 0, 0, 0)
    {
      configured := supabaseUrl != "" && !Includes(supabaseUrl, "YOUR_SUPABASE");
      lastBatchHash, lastSyncTime := "", 0;
      totalSyncAttempts, totalSyncSuccesses, totalSyncFailures := 0, 0, 0;
    }

    /** `syncToSupabase(offers)` at time `now`; `uuids` supplies the ids
        generated for offers without one, and `outcome` is what the store
        answers to the upsert. */
    method SyncToSupabase(offers: seq<Value>, now: int, uuids: seq<string>, outcome: WriteOutcome)
      returns (result: SyncResult)
      requires |uuids| == |offers|
      modifies this
      ensures State() == Next(old(State()), configured, offers, now, outcome)
      ensures var gate := Gate(old(State()), configured, offers, now);
        && (gate.Some? ==> result == Skipped(gate.value))
        && (gate.None? ==> result == Written(NormaliseBatch(offers, uuids), outcome))
    {
      totalSyncAttempts := totalSyncAttempts + 1;
      if |offers| == 0 {
        return Skipped(NoOffers);
      }
      if !configured {
        totalSyncFailures := totalSyncFailures + 1;
        return Skipped(NotConfigured);
      }
      if now - lastSyncTime < MinSyncInterval {
        return Skipped(RateLimited);
      }
      var currentHash := BatchHash(offers);
      if currentHash == lastBatchHash {
        return Skipped(DuplicateBatch);
      }
      lastSyncTime := now;
      lastBatchHash := currentHash;
      var rows := NormaliseBatch(offers, uuids);
      if outcome == WriteOk {
        totalSyncSuccesses := totalSyncSuccesses + 1;
      } else {
        totalSyncFailures := totalSyncFailures + 1;
      }
      result := Written(rows, outcome);
    }
  }
}
