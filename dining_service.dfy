/** Restaurants and bars as the pages show them: localized text for exactly one locale,
    opening hours as sent, the first primary media item as the main image, the other
    media as an ordered gallery, and the named venues in display order. */
module DiningService {
  import opened JsStrings
  import opened Seqs
  import opened Content

  /** A venue's text in one locale; an absent field is "". */
  datatype DiningTranslation = DiningTranslation(name: string, description: string)

  datatype Dining = Dining(
    id: int, code: string, diningType: string, operatingHours: Option<string>,
    vrLink: Option<string>, status: string, displayOrder: int,
    translations: map<string, DiningTranslation>, media: seq<MediaItem>,
    createdAt: string, updatedAt: Option<string>)

  datatype DiningUI = DiningUI(
    id: int, code: string, diningType: string, operatingHours: Option<string>, status: string,
    name: string, description: string,
    primaryImage: Option<string>, galleryImages: seq<string>,
    vrLink: Option<string>, displayOrder: int, createdAt: string, updatedAt: Option<string>)

  /** The optional arguments of `getDinings`. */
  datatype DiningQuery = DiningQuery(skip: Option<int>, limit: Option<int>, diningType: Option<string>)

  datatype DiningQueryParams = DiningQueryParams(skip: int, limit: int, diningType: Option<string>)

  /** The query of `getDinings`: `||` defaults, so a limit of 0 is sent as 100. */
  function QueryParams(q: DiningQuery): (r: DiningQueryParams)
    ensures r.skip == (if q.skip.Some? then q.skip.value else 0)
    ensures r.limit == (if q.limit.Some? && q.limit.value != 0 then q.limit.value else 100)
    ensures r.diningType == q.diningType
  {
    DiningQueryParams(OrElse(q.skip, 0), OrElse(q.limit, 100), q.diningType)
  }

  /** `transformDiningForUI(dining, locale)`, with the media URL resolver as a parameter. */
  function TransformDiningForUI(dining: Dining, locale: string, viewUrl: nat -> string): (r: DiningUI)
    ensures locale !in dining.translations ==> r.name == "" && r.description == ""
    ensures locale in dining.translations ==>
              r.name == dining.translations[locale].name
              && r.description == dining.translations[locale].description
    ensures r.primaryImage.None? <==> forall i :: 0 <= i < |dining.media| ==> !dining.media[i].isPrimary
    ensures r.primaryImage.Some? ==>
              exists i :: 0 <= i < |dining.media| && dining.media[i].isPrimary
                          && r.primaryImage.value == viewUrl(dining.media[i].mediaId)
                          && forall j :: 0 <= j < i ==> !dining.media[j].isPrimary
    ensures r.galleryImages == Gallery(dining.media, NonPrimary, viewUrl)
    ensures |r.galleryImages| <= |dining.media|
    ensures r.vrLink == dining.vrLink && r.displayOrder == dining.displayOrder
    ensures r.id == dining.id && r.code == dining.code && r.diningType == dining.diningType
    ensures r.operatingHours == dining.operatingHours && r.status == dining.status
    ensures r.createdAt == dining.createdAt && r.updatedAt == dining.updatedAt
  {
    var translation := Lookup(dining.translations, locale);
    DiningUI(
      dining.id, dining.code, dining.diningType, dining.operatingHours, dining.status,
      if translation.Some? then translation.value.name else "",
      if translation.Some? then translation.value.description else "",
      PrimaryImage(dining.media, Primary, viewUrl),
      Gallery(dining.media, NonPrimary, viewUrl),
      dining.vrLink, dining.displayOrder, dining.createdAt, dining.updatedAt)
  }

  function HasName(f: DiningUI): bool {
    NotBlank(f.name)
  }

  function DisplayOrder(f: DiningUI): int {
    f.displayOrder
  }

  /** The list step of `getDiningsForUI` over the dinings the backend returned. */
  function GetDiningsForUI(dinings: seq<Dining>, locale: string, viewUrl: nat -> string): (r: seq<DiningUI>)
    ensures |r| <= |dinings|
    ensures forall i :: 0 <= i < |r| ==> NotBlank(r[i].name)
    ensures SortedBy(r, DisplayOrder)
    ensures forall i :: 0 <= i < |r| ==>
              exists j :: 0 <= j < |dinings| && r[i] == TransformDiningForUI(dinings[j], locale, viewUrl)
    ensures forall j :: 0 <= j < |dinings| && NotBlank(TransformDiningForUI(dinings[j], locale, viewUrl).name)
              ==> TransformDiningForUI(dinings[j], locale, viewUrl) in r
  {
    MapListing(dinings, f => TransformDiningForUI(f, locale, viewUrl), HasName, DisplayOrder)
  }
}
