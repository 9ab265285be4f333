/** Special offers: the discount as displayed, whether the offer has ended or not yet
    started on a given day, the localized text for exactly one locale, the list of current
    named offers in display order, and the lookup of one offer by its code. Dates are day
    numbers; `today` is the day the page is shown. */
module OfferService {
  import opened JsStrings
  import opened Seqs
  import opened Content

  /** An offer's text in one locale; an absent field is "". */
  datatype OfferTranslation = OfferTranslation(title: string, description: string, termsConditions: string)

  datatype Offer = Offer(
    id: int, code: string, status: string, discountType: string, discountValue: int,
    validFrom: int, validTo: int, minNights: int, applicableRoomTypes: seq<string>,
    translations: map<string, OfferTranslation>, vrLink: Option<string>,
    displayOrder: int, createdAt: string, updatedAt: string)

  datatype OfferUI = OfferUI(
    id: int, code: string, status: string,
    discountType: string, discountValue: int, discountDisplay: string,
    validFrom: int, validTo: int, isExpired: bool, isUpcoming: bool,
    minNights: int, applicableRoomTypes: seq<string>,
    title: string, description: string, termsConditions: string,
    vrLink: Option<string>, displayOrder: int, createdAt: string, updatedAt: string)

  /** `formatDiscount(type, value)`: a percentage is the number followed by '%'; any other
      type is handed to the currency formatter, a parameter here. */
  function FormatDiscount(discountType: string, value: int, formatCurrency: int -> string): (r: string)
    ensures discountType == "percentage" ==>
              |r| >= 2 && r[|r| - 1] == '%' && ParseInt(r[..|r| - 1]) == value
              && forall i :: 0 <= i < |r| - 1 ==> r[i] != '%'
    ensures discountType != "percentage" ==> r == formatCurrency(value)
  {
    if discountType == "percentage" then
      var text := IntToString(value);
      ParseIntToString(value);
      assert (text + "%")[..|text|] == text;
      text + "%"
    else
      formatCurrency(value)
  }

  /** `isOfferExpired(validTo)`: the last day lies before today. */
  predicate IsOfferExpired(validTo: int, today: int) {
    validTo < today
  }

  /** `isOfferUpcoming(validFrom)`: the first day lies after today. */
  predicate IsOfferUpcoming(validFrom: int, today: int) {
    validFrom > today
  }

  /** `transformOfferForUI(offer, locale)` on day `today`. */
  function TransformOfferForUI(offer: Offer, locale: string, today: int, formatCurrency: int -> string): (r: OfferUI)
    ensures locale !in offer.translations ==> r.title == "" && r.description == "" && r.termsConditions == ""
    ensures locale in offer.translations ==>
              r.title == offer.translations[locale].title
              && r.description == offer.translations[locale].description
              && r.termsConditions == offer.translations[locale].termsConditions
    ensures r.isExpired <==> offer.validTo < today
    ensures r.isUpcoming <==> offer.validFrom > today
    ensures offer.validFrom <= offer.validTo ==> !(r.isExpired && r.isUpcoming)
    ensures r.discountDisplay == FormatDiscount(offer.discountType, offer.discountValue, formatCurrency)
    ensures r.id == offer.id && r.code == offer.code && r.status == offer.status
    ensures r.discountType == offer.discountType && r.discountValue == offer.discountValue
    ensures r.validFrom == offer.validFrom && r.validTo == offer.validTo
    ensures r.minNights == offer.minNights && r.applicableRoomTypes == offer.applicableRoomTypes
    ensures r.vrLink == offer.vrLink && r.displayOrder == offer.displayOrder
    ensures r.createdAt == offer.createdAt && r.updatedAt == offer.updatedAt
  {
    var translation := Lookup(offer.translations, locale);
    OfferUI(
      offer.id, offer.code, offer.status,
      offer.discountType, offer.discountValue,
      FormatDiscount(offer.discountType, offer.discountValue, formatCurrency),
      offer.validFrom, offer.validTo,
      IsOfferExpired(offer.validTo, today), IsOfferUpcoming(offer.validFrom, today),
      offer.minNights, offer.applicableRoomTypes,
      if translation.Some? then translation.value.title else "",
      if translation.Some? then translation.value.description else "",
      if translation.Some? then translation.value.termsConditions else "",
      offer.vrLink, offer.displayOrder, offer.createdAt, offer.updatedAt)
  }

  /** The test `getOffersForUI` keeps an offer by. */
  function Shown(o: OfferUI): bool {
    !o.isExpired && NotBlank(o.title)
  }

  function DisplayOrder(o: OfferUI): int {
    o.displayOrder
  }

  /** The list step of `getOffersForUI` over the offers the backend returned. */
  function GetOffersForUI(offers: seq<Offer>, locale: string, today: int, formatCurrency: int -> string): (r: seq<OfferUI>)
    ensures |r| <= |offers|
    ensures forall i :: 0 <= i < |r| ==> r[i].validTo >= today && NotBlank(r[i].title)
    ensures SortedBy(r, DisplayOrder)
    ensures forall i :: 0 <= i < |r| ==>
              exists j :: 0 <= j < |offers| && r[i] == TransformOfferForUI(offers[j], locale, today, formatCurrency)
    ensures forall j :: 0 <= j < |offers| && offers[j].validTo >= today
                        && NotBlank(TransformOfferForUI(offers[j], locale, today, formatCurrency).title)
              ==> TransformOfferForUI(offers[j], locale, today, formatCurrency) in r
  {
    MapListing(offers, o => TransformOfferForUI(o, locale, today, formatCurrency), Shown, DisplayOrder)
  }

  /** The optional arguments of `getOffers`. */
  datatype OfferQuery = OfferQuery(skip: Option<int>, limit: Option<int>, status: Option<string>)

  datatype OfferQueryParams = OfferQueryParams(skip: int, limit: int, status: Option<string>)

  /** The query of `getOffers`: `||` defaults, the status sent as given. */
  function QueryParams(q: OfferQuery): (r: OfferQueryParams)
    ensures r.skip == (if q.skip.Some? then q.skip.value else 0)
    ensures r.limit == (if q.limit.Some? && q.limit.value != 0 then q.limit.value else 100)
    ensures r.status == q.status
  {
    OfferQueryParams(OrElse(q.skip, 0), OrElse(q.limit, 100), q.status)
  }

  /** The query `getOffersForUI` sends: the caller's paging, with the status always 'active'
      whatever the caller asked for. */
  function ForUIQuery(q: OfferQuery): (r: OfferQueryParams)
    ensures r.status == Some("active")
    ensures r == QueryParams(q).(status := Some("active"))
  {
    QueryParams(q.(status := Some("active")))
  }

  /** The query `getOfferByCode` sends: the first hundred active offers. */
  function ByCodeQuery(): (r: OfferQueryParams)
    ensures r == OfferQueryParams(0, 100, Some("active"))
  {
    QueryParams(OfferQuery(None, None, Some("active")))
  }

  function HasCode(code: string): Offer -> bool {
    (o: Offer) => o.code == code
  }

  /** `getOfferByCode` over the offers the backend returned: the first offer with exactly
      that code, transformed, or null. */
  function GetOfferByCode(offers: seq<Offer>, code: string, locale: string, today: int, formatCurrency: int -> string): (r: Option<OfferUI>)
    ensures r.None? <==> forall i :: 0 <= i < |offers| ==> offers[i].code != code
    ensures r.Some? ==>
              exists i :: 0 <= i < |offers| && offers[i].code == code
                          && (forall j :: 0 <= j < i ==> offers[j].code != code)
                          && r.value == TransformOfferForUI(offers[i], locale, today, formatCurrency)
  {
    match FindIndex(offers, HasCode(code))
    case None => None
    case Some(k) => Some(TransformOfferForUI(offers[k], locale, today, formatCurrency))
  }

  /** A percentage discount of 15 shows as "15%". */
  lemma FifteenPercent(formatCurrency: int -> string)
    ensures FormatDiscount("percentage", 15, formatCurrency) == "15%"
  {
    assert NatToString(15) == NatToString(1) + [DigitChar(5)];
  }
}
