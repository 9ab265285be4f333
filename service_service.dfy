/** Hotel services (spa, laundry, ...) as the pages show them: localized text for exactly
    one locale, availability and price text as sent, the first primary media item as the
    main image, the other media as an ordered gallery, and the named services in display
    order. */
module ServiceCatalog {
  import opened JsStrings
  import opened Seqs
  import opened Content

  /** A service's text in one locale; an absent field is "". */
  datatype ServiceTranslation = ServiceTranslation(name: string, description: string)

  datatype Service = Service(
    id: int, code: string, serviceType: string, availability: Option<string>,
    priceInfo: Option<string>, vrLink: Option<string>, status: string, displayOrder: int,
    translations: map<string, ServiceTranslation>, media: seq<MediaItem>,
    createdAt: string, updatedAt: Option<string>)

  datatype ServiceUI = ServiceUI(
    id: int, code: string, serviceType: string, status: string,
    name: string, description: string, availability: Option<string>, priceInfo: Option<string>,
    primaryImage: Option<string>, galleryImages: seq<string>,
    vrLink: Option<string>, displayOrder: int, createdAt: string, updatedAt: Option<string>)

  /** The optional arguments of `getServices`. */
  datatype ServiceQuery = ServiceQuery(skip: Option<int>, limit: Option<int>, serviceType: Option<string>)

  datatype ServiceQueryParams = ServiceQueryParams(skip: int, limit: int, serviceType: Option<string>)

  /** The query of `getServices`: `||` defaults, so a limit of 0 is sent as 100. */
  function QueryParams(q: ServiceQuery): (r: ServiceQueryParams)
    ensures r.skip == (if q.skip.Some? then q.skip.value else 0)
    ensures r.limit == (if q.limit.Some? && q.limit.value != 0 then q.limit.value else 100)
    ensures r.serviceType == q.serviceType
  {
    ServiceQueryParams(OrElse(q.skip, 0), OrElse(q.limit, 100), q.serviceType)
  }

  /** `transformServiceForUI(service, locale)`, with the media URL resolver as a parameter. */
  function TransformServiceForUI(service: Service, locale: string, viewUrl: nat -> string): (r: ServiceUI)
    ensures locale !in service.translations ==> r.name == "" && r.description == ""
    ensures locale in service.translations ==>
              r.name == service.translations[locale].name
              && r.description == service.translations[locale].description
    ensures r.primaryImage.None? <==> forall i :: 0 <= i < |service.media| ==> !service.media[i].isPrimary
    ensures r.primaryImage.Some? ==>
              exists i :: 0 <= i < |service.media| && service.media[i].isPrimary
                          && r.primaryImage.value == viewUrl(service.media[i].mediaId)
                          && forall j :: 0 <= j < i ==> !service.media[j].isPrimary
    ensures r.galleryImages == Gallery(service.media, NonPrimary, viewUrl)
    ensures |r.galleryImages| <= |service.media|
    ensures r.vrLink == service.vrLink && r.displayOrder == service.displayOrder
    ensures r.id == service.id && r.code == service.code && r.serviceType == service.serviceType
    ensures r.availability == service.availability && r.priceInfo == service.priceInfo
    ensures r.status == service.status
    ensures r.createdAt == service.createdAt && r.updatedAt == service.updatedAt
  {
    var translation := Lookup(service.translations, locale);
    ServiceUI(
      service.id, service.code, service.serviceType, service.status,
      if translation.Some? then translation.value.name else "",
      if translation.Some? then translation.value.description else "",
      service.availability, service.priceInfo,
      PrimaryImage(service.media, Primary, viewUrl),
      Gallery(service.media, NonPrimary, viewUrl),
      service.vrLink, service.displayOrder, service.createdAt, service.updatedAt)
  }

  function HasName(f: ServiceUI): bool {
    NotBlank(f.name)
  }

  function DisplayOrder(f: ServiceUI): int {
    f.displayOrder
  }

  /** The list step of `getServicesForUI` over the services the backend returned. */
  function GetServicesForUI(services: seq<Service>, locale: string, viewUrl: nat -> string): (r: seq<ServiceUI>)
    ensures |r| <= |services|
    ensures forall i :: 0 <= i < |r| ==> NotBlank(r[i].name)
    ensures SortedBy(r, DisplayOrder)
    ensures forall i :: 0 <= i < |r| ==>
              exists j :: 0 <= j < |services| && r[i] == TransformServiceForUI(services[j], locale, viewUrl)
    ensures forall j :: 0 <= j < |services| && NotBlank(TransformServiceForUI(services[j], locale, viewUrl).name)
              ==> TransformServiceForUI(services[j], locale, viewUrl) in r
  {
    MapListing(services, f => TransformServiceForUI(f, locale, viewUrl), HasName, DisplayOrder)
  }
}
