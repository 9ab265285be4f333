/** Hotel facilities (pool, gym, ...) as the pages show them: localized text for exactly
    one locale, the first primary media item as the main image, the other media as an
    ordered gallery, and the named facilities in display order. */
module FacilityService {
  import opened JsStrings
  import opened Seqs
  import opened Content

  /** A facility's text in one locale; an absent field is "". */
  datatype FacilityTranslation = FacilityTranslation(name: string, description: string)

  datatype Facility = Facility(
    id: int, code: string, facilityType: string, operatingHours: Option<string>,
    vrLink: Option<string>, status: string, displayOrder: int,
    translations: map<string, FacilityTranslation>, media: seq<MediaItem>,
    createdAt: string, updatedAt: Option<string>)

  datatype FacilityUI = FacilityUI(
    id: int, code: string, facilityType: string, operatingHours: Option<string>, status: string,
    name: string, description: string,
    primaryImage: Option<string>, galleryImages: seq<string>,
    vrLink: Option<string>, displayOrder: int, createdAt: string, updatedAt: Option<string>)

  /** The optional arguments of `getFacilities`. */
  datatype FacilityQuery = FacilityQuery(skip: Option<int>, limit: Option<int>, facilityType: Option<string>)

  datatype FacilityQueryParams = FacilityQueryParams(skip: int, limit: int, facilityType: Option<string>)

  /** The query of `getFacilities`: `||` defaults, so a limit of 0 is sent as 100. */
  function QueryParams(q: FacilityQuery): (r: FacilityQueryParams)
    ensures r.skip == (if q.skip.Some? then q.skip.value else 0)
    ensures r.limit == (if q.limit.Some? && q.limit.value != 0 then q.limit.value else 100)
    ensures r.facilityType == q.facilityType
  {
    FacilityQueryParams(OrElse(q.skip, 0), OrElse(q.limit, 100), q.facilityType)
  }

  /** `transformFacilityForUI(facility, locale)`, with the media URL resolver as a parameter. */
  function TransformFacilityForUI(facility: Facility, locale: string, viewUrl: nat -> string): (r: FacilityUI)
    ensures locale !in facility.translations ==> r.name == "" && r.description == ""
    ensures locale in facility.translations ==>
              r.name == facility.translations[locale].name
              && r.description == facility.translations[locale].description
    ensures r.primaryImage.None? <==> forall i :: 0 <= i < |facility.media| ==> !facility.media[i].isPrimary
    ensures r.primaryImage.Some? ==>
              exists i :: 0 <= i < |facility.media| && facility.media[i].isPrimary
                          && r.primaryImage.value == viewUrl(facility.media[i].mediaId)
                          && forall j :: 0 <= j < i ==> !facility.media[j].isPrimary
    ensures r.galleryImages == Gallery(facility.media, NonPrimary, viewUrl)
    ensures |r.galleryImages| <= |facility.media|
    ensures r.vrLink == facility.vrLink && r.displayOrder == facility.displayOrder
    ensures r.id == facility.id && r.code == facility.code && r.facilityType == facility.facilityType
    ensures r.operatingHours == facility.operatingHours && r.status == facility.status
    ensures r.createdAt == facility.createdAt && r.updatedAt == facility.updatedAt
  {
    var translation := Lookup(facility.translations, locale);
    FacilityUI(
      facility.id, facility.code, facility.facilityType, facility.operatingHours, facility.status,
      if translation.Some? then translation.value.name else "",
      if translation.Some? then translation.value.description else "",
      PrimaryImage(facility.media, Primary, viewUrl),
      Gallery(facility.media, NonPrimary, viewUrl),
      facility.vrLink, facility.displayOrder, facility.createdAt, facility.updatedAt)
  }

  function HasName(f: FacilityUI): bool {
    NotBlank(f.name)
  }

  function DisplayOrder(f: FacilityUI): int {
    f.displayOrder
  }

  /** The list step of `getFacilitiesForUI` over the facilities the backend returned. */
  function GetFacilitiesForUI(facilities: seq<Facility>, locale: string, viewUrl: nat -> string): (r: seq<FacilityUI>)
    ensures |r| <= |facilities|
    ensures forall i :: 0 <= i < |r| ==> NotBlank(r[i].name)
    ensures SortedBy(r, DisplayOrder)
    ensures forall i :: 0 <= i < |r| ==>
              exists j :: 0 <= j < |facilities| && r[i] == TransformFacilityForUI(facilities[j], locale, viewUrl)
    ensures forall j :: 0 <= j < |facilities| && NotBlank(TransformFacilityForUI(facilities[j], locale, viewUrl).name)
              ==> TransformFacilityForUI(facilities[j], locale, viewUrl) in r
  {
    MapListing(facilities, f => TransformFacilityForUI(f, locale, viewUrl), HasName, DisplayOrder)
  }

  /** Unlike rooms, a facility's primary image may be a VR360 item. */
  lemma Vr360CanBePrimary(facility: Facility, locale: string, viewUrl: nat -> string)
    requires facility.media == [MediaItem(7, true, true, 0)]
    ensures TransformFacilityForUI(facility, locale, viewUrl).primaryImage == Some(viewUrl(7))
  {
  }
}
