/** The page-side interceptor of the Cargobloom extension: every JSON
    response the page receives is classified by the URL it came from and at
    most one message is posted for it, while per-kind counters are kept. */
module Interceptor {
  import opened Js

  /** The message kinds posted to the relay, in classification priority order. */
  datatype Kind =
    | OffersIntercepted
    | DictCurrencies
    | DictBodies
    | DictTranslations
    | DictCountries
    | DictAdditionalInfo

  /** The `type` field each kind is posted with. */
  function WireName(k: Kind): string {
    match k
    case OffersIntercepted => "OFFERS_INTERCEPTED"
    case DictCurrencies => "DICT_CURRENCIES"
    case DictBodies => "DICT_BODIES"
    case DictTranslations => "DICT_TRANSLATIONS"
    case DictCountries => "DICT_COUNTRIES"
    case DictAdditionalInfo => "DICT_ADDITIONAL_INFO"
  }

  /** A posted message: `{type, payload, source}`. */
  datatype Message = Message(kind: Kind, payload: Value, source: string)

  /** The `interceptedCount` object. */
  datatype Counts = Counts(
    offers: nat, currencies: nat, bodies: nat,
    translations: nat, countries: nat, additionalInfo: nat)

  const OffersMarker := "freight-search-offers"

  predicate IsCurrenciesUrl(url: string) {
    Includes(url, "/api/currencies") || Includes(url, "geolocale/currency")
  }

  predicate IsBodiesUrl(url: string) {
    Includes(url, "/api/vehicleproperties") || Includes(url, "vehiclepropertygroup")
  }

  predicate IsTranslationsUrl(url: string) {
    Includes(url, "/api/translations")
  }

  predicate IsCountriesUrl(url: string) {
    Includes(url, "/api/countries") || Includes(url, "geolocale/country")
  }

  predicate IsAdditionalInfoUrl(url: string) {
    Includes(url, "additional-infos") || Includes(url, "additionalinfos")
  }

  /** The branch of the classifier a URL selects. The tests are tried in a
      fixed order, so a URL matching several families takes the first. */
  function MatchedKind(url: string): (k: Option<Kind>)
    ensures k == Some(OffersIntercepted) <==> Includes(url, OffersMarker)
    ensures k == Some(DictCurrencies) <==> !Includes(url, OffersMarker) && IsCurrenciesUrl(url)
    ensures k == Some(DictBodies) <==>
      !Includes(url, OffersMarker) && !IsCurrenciesUrl(url) && IsBodiesUrl(url)
    ensures k == Some(DictTranslations) <==>
      !Includes(url, OffersMarker) && !IsCurrenciesUrl(url) && !IsBodiesUrl(url) && IsTranslationsUrl(url)
    ensures k == Some(DictCountries) <==>
      !Includes(url, OffersMarker) && !IsCurrenciesUrl(url) && !IsBodiesUrl(url) && !IsTranslationsUrl(url)
      && IsCountriesUrl(url)
    ensures k == Some(DictAdditionalInfo) <==>
      !Includes(url, OffersMarker) && !IsCurrenciesUrl(url) && !IsBodiesUrl(url) && !IsTranslationsUrl(url)
      && !IsCountriesUrl(url) && IsAdditionalInfoUrl(url)
  {
    if Includes(url, OffersMarker) then Some(OffersIntercepted)
    else if IsCurrenciesUrl(url) then Some(DictCurrencies)
    else if IsBodiesUrl(url) then Some(DictBodies)
    else if IsTranslationsUrl(url) then Some(DictTranslations)
    else if IsCountriesUrl(url) then Some(DictCountries)
    else if IsAdditionalInfoUrl(url) then Some(DictAdditionalInfo)
    else None
  }

  /** `isRelevant`: the ten substring tests the wrappers use to decide
      whether to log. It holds exactly when the classifier has a branch for
      the URL. */
  function IsRelevant(url: string): (b: bool)
    ensures b <==> MatchedKind(url).Some?
  {
    || Includes(url, "freight-search-offers")
    || Includes(url, "/api/currencies")
    || Includes(url, "geolocale/currency")
    || Includes(url, "/api/vehicleproperties")
    || Includes(url, "vehiclepropertygroup")
    || Includes(url, "/api/translations")
    || Includes(url, "/api/countries")
    || Includes(url, "geolocale/country")
    || Includes(url, "additional-infos")
    || Includes(url, "additionalinfos")
  }

  /** `data?.invocationResult?.filteredOfferRows` when it is a non-empty array. */
  function OfferRows(data: Value): Option<seq<Value>> {
    var rows := Get(Get(data, "invocationResult"), "filteredOfferRows");
    if rows.Arr? && |rows.items| > 0 then Some(rows.items) else None
  }

  /** The message `handleInterceptedData(url, data, source)` posts, if any. */
  function Classify(url: string, data: Value, source: string): (m: Option<Message>)
    ensures m.None? <==> MatchedKind(url).None? || (MatchedKind(url) == Some(OffersIntercepted) && OfferRows(data).None?)
    ensures m.Some? ==> Some(m.value.kind) == MatchedKind(url) && m.value.source == source
    ensures m.Some? && m.value.kind == OffersIntercepted ==>
      m.value.payload.Arr? && Some(m.value.payload.items) == OfferRows(data) && |m.value.payload.items| > 0
    ensures m.Some? && m.value.kind != OffersIntercepted ==> m.value.payload == data
  {
    match MatchedKind(url)
    case None => None
    case Some(k) =>
      if k == OffersIntercepted then
        (match OfferRows(data)
         case None => None
         case Some(rows) => Some(Message(OffersIntercepted, Arr(rows), source)))
      else Some(Message(k, data, source))
  }

  /** The counters after a call that posted `m`: offers grow by the number of
      rows, a dictionary counter by one. */
  function Bump(c: Counts, m: Option<Message>): Counts {
    match m
    case None => c
    case Some(msg) =>
      match msg.kind
      case OffersIntercepted =>
        c.(offers := c.offers + if msg.payload.Arr? then |msg.payload.items| else 0)
      case DictCurrencies => c.(currencies := c.currencies + 1)
      case DictBodies => c.(bodies := c.bodies + 1)
      case DictTranslations => c.(translations := c.translations + 1)
      case DictCountries => c.(countries := c.countries + 1)
      case DictAdditionalInfo => c.(additionalInfo := c.additionalInfo + 1)
  }

  function Total(c: Counts): nat {
    c.offers + c.currencies + c.bodies + c.translations + c.countries + c.additionalInfo
  }

  /** One call posts at most one message; the counters grow by the number of
      offer rows it carried or by one for a dictionary, and only the counter
      of the matched kind moves. */
  lemma BumpMatchedCounterOnly(c: Counts, url: string, data: Value, source: string)
    ensures var m := Classify(url, data, source);
      var c' := Bump(c, m);
      && (m.None? ==> c' == c)
      && (m.Some? && m.value.kind == OffersIntercepted ==>
            c' == c.(offers := c.offers + |OfferRows(data).value|) && c'.offers > c.offers)
      && (m.Some? && m.value.kind != OffersIntercepted ==> Total(c') == Total(c) + 1 && c'.offers == c.offers)
      && (MatchedKind(url) == Some(DictCurrencies) ==> c' == c.(currencies := c.currencies + 1))
      && (MatchedKind(url) == Some(DictBodies) ==> c' == c.(bodies := c.bodies + 1))
      && (MatchedKind(url) == Some(DictTranslations) ==> c' == c.(translations := c.translations + 1))
      && (MatchedKind(url) == Some(DictCountries) ==> c' == c.(countries := c.countries + 1))
      && (MatchedKind(url) == Some(DictAdditionalInfo) ==> c' == c.(additionalInfo := c.additionalInfo + 1))
  {
  }

  /** An offers URL never reaches a dictionary branch, whatever its body. */
  lemma OffersUrlNeverDictionary(url: string, data: Value, source: string)
    requires Includes(url, OffersMarker)
    ensures Classify(url, data, source).None? || Classify(url, data, source).value.kind == OffersIntercepted
    ensures Classify(url, data, source).None? <==> OfferRows(data).None?
  {
  }

  /** The interceptor's state: the counters and the messages posted so far. */
  class Agent {
    var offers: nat
    var currencies: nat
    var bodies: nat
    var translations: nat
    var countries: nat
    var additionalInfo: nat
    /** Messages handed to `window.postMessage`, oldest first. */
    var posted: seq<Message>

    function Counters(): Counts
      reads this
    {
      Counts(offers, currencies, bodies, translations, countries, additionalInfo)
    }

    constructor ()
      ensures Counters() == Counts(0, 0, 0, 0, 0, 0) && posted == []
    {
      offers, currencies, bodies, translations, countries, additionalInfo := 0, 0, 0, 0, 0, 0;
      posted := [];
    }

    /** `handleInterceptedData`: classify, bump the matching counter and post. */
    method HandleInterceptedData(url: string, data: Value, source: string)
      modifies this
      ensures var m := Classify(url, data, source);
        && Counters() == Bump(old(Counters()), m)
        && posted == old(posted) + (if m.Some? then [m.value] else [])
    {
      if Includes(url, OffersMarker) {
        var rows := Get(Get(data, "invocationResult"), "filteredOfferRows");
        if rows.Arr? && |rows.items| > 0 {
          offers := offers + |rows.items|;
          posted := posted + [Message(OffersIntercepted, rows, source)];
        }
      } else if IsCurrenciesUrl(url) {
        currencies := currencies + 1;
        posted := posted + [Message(DictCurrencies, data, source)];
      } else if IsBodiesUrl(url) {
        bodies := bodies + 1;
        posted := posted + [Message(DictBodies, data, source)];
      } else if IsTranslationsUrl(url) {
        translations := translations + 1;
        posted := posted + [Message(DictTranslations, data, source)];
      } else if IsCountriesUrl(url) {
        countries := countries + 1;
        posted := posted + [Message(DictCountries, data, source)];
      } else if IsAdditionalInfoUrl(url) {
        additionalInfo := additionalInfo + 1;
        posted := posted + [Message(DictAdditionalInfo, data, source)];
      }
    }

    /** The `fetch` wrapper: the page gets the original response back; the
        parsed body of a clone (absent when it is not JSON) is classified
        with source "fetch". */
    method OnFetch<R>(url: string, response: R, parsedClone: Option<Value>) returns (delivered: R)
      modifies this
      ensures delivered == response
      ensures parsedClone.None? ==> Counters() == old(Counters()) && posted == old(posted)
      ensures parsedClone.Some? ==>
        var m := Classify(url, parsedClone.value, "fetch");
        Counters() == Bump(old(Counters()), m) && posted == old(posted) + (if m.Some? then [m.value] else [])
    {
      if parsedClone.Some? {
        HandleInterceptedData(url, parsedClone.value, "fetch");
      }
      delivered := response;
    }

    /** The XHR `load` listener: an empty URL is skipped, an unparsable body
        is swallowed, anything else is classified with source "xhr". */
    method OnXhrLoad(url: string, parsedBody: Option<Value>)
      modifies this
      ensures url == "" || parsedBody.None? ==> Counters() == old(Counters()) && posted == old(posted)
      ensures url != "" && parsedBody.Some? ==>
        var m := Classify(url, parsedBody.value, "xhr");
        Counters() == Bump(old(Counters()), m) && posted == old(posted) + (if m.Some? then [m.value] else [])
    {
      if url != "" && parsedBody.Some? {
        HandleInterceptedData(url, parsedBody.value, "xhr");
      }
    }
  }
}
