/** What every content service shares: a record's media items, the choice of its primary
    image and its ordered gallery, the translation looked up for exactly one locale, and
    the listing step that keeps some records and sorts them by display order. */
module Content {
  import opened Seqs

  /** One media reference of a record. The image URL is made from `mediaId` by a resolver
      that each function takes as a parameter. */
  datatype MediaItem = MediaItem(mediaId: nat, isPrimary: bool, isVr360: bool, sortOrder: int)

  /** The primary test of facilities, dining venues and services (VR360 items included). */
  function Primary(m: MediaItem): bool {
    m.isPrimary
  }

  function NonPrimary(m: MediaItem): bool {
    !m.isPrimary
  }

  function SortOrder(m: MediaItem): int {
    m.sortOrder
  }

  /** `translations[locale]`: the entry for exactly that locale, no fallback. */
  function Lookup<T>(translations: map<string, T>, locale: string): (r: Option<T>)
    ensures r.Some? <==> locale in translations
    ensures r.Some? ==> r.value == translations[locale]
  {
    if locale in translations then Some(translations[locale]) else None
  }

  /** The URL of the first media item `primary` accepts, or null. */
  function PrimaryImage(media: seq<MediaItem>, primary: MediaItem -> bool, viewUrl: nat -> string): (r: Option<string>)
    ensures r.None? <==> forall i :: 0 <= i < |media| ==> !primary(media[i])
    ensures r.Some? ==> exists i :: 0 <= i < |media| && primary(media[i])
                                    && r.value == viewUrl(media[i].mediaId)
                                    && forall j :: 0 <= j < i ==> !primary(media[j])
  {
    match FindIndex(media, primary)
    case None => None
    case Some(k) => Some(viewUrl(media[k].mediaId))
  }

  /** `items.filter(keep).sort((a, b) => key(a) - key(b))`: exactly the kept items, in
      ascending key order, never more than the input. */
  function Listing<T>(items: seq<T>, keep: T -> bool, key: T -> int): (r: seq<T>)
    ensures |r| <= |items|
    ensures forall i :: 0 <= i < |r| ==> keep(r[i])
    ensures forall i :: 0 <= i < |r| ==> r[i] in items
    ensures forall i :: 0 <= i < |items| && keep(items[i]) ==> items[i] in r
    ensures multiset(r) == multiset(Filter(items, keep))
    ensures SortedBy(r, key)
  {
    SortBySorted(Filter(items, keep), key);
    SameMembers(SortBy(Filter(items, keep), key), Filter(items, keep));
    SortBy(Filter(items, keep), key)
  }

  /** `src.map(f).filter(keep).sort(by key)`: every listed record is the image of a
      source record, and every source record whose image is kept is listed. */
  function MapListing<S, T>(src: seq<S>, f: S -> T, keep: T -> bool, key: T -> int): (r: seq<T>)
    ensures |r| <= |src|
    ensures forall i :: 0 <= i < |r| ==> keep(r[i])
    ensures SortedBy(r, key)
    ensures forall i :: 0 <= i < |r| ==> exists j :: 0 <= j < |src| && r[i] == f(src[j])
    ensures forall j :: 0 <= j < |src| && keep(f(src[j])) ==> f(src[j]) in r
  {
    var images := Map(src, f);
    var r := Listing(images, keep, key);
    assert forall i :: 0 <= i < |r| ==> exists j :: 0 <= j < |images| && images[j] == r[i];
    r
  }

  /** Records with the same key keep their source order in a listing. */
  lemma MapListingStable<S, T>(src: seq<S>, f: S -> T, keep: T -> bool, key: T -> int, k: int)
    ensures WithKey(MapListing(src, f, keep, key), key, k) == WithKey(Filter(Map(src, f), keep), key, k)
  {
    ListingStable(Map(src, f), keep, key, k);
  }

  /** Items with the same key keep their input order in a listing. */
  lemma ListingStable<T>(items: seq<T>, keep: T -> bool, key: T -> int, k: int)
    ensures WithKey(Listing(items, keep, key), key, k) == WithKey(Filter(items, keep), key, k)
  {
    SortByStable(Filter(items, keep), key, k);
  }

  /** The media items of the gallery, in gallery order. */
  function GalleryMedia(media: seq<MediaItem>, inGallery: MediaItem -> bool): (r: seq<MediaItem>)
    ensures |r| <= |media|
    ensures forall m :: m in r <==> m in media && inGallery(m)
    ensures multiset(r) == multiset(Filter(media, inGallery))
    ensures SortedBy(r, SortOrder)
  {
    Listing(media, inGallery, SortOrder)
  }

  /** The gallery URLs: one per gallery item, in ascending `sortOrder`. */
  function Gallery(media: seq<MediaItem>, inGallery: MediaItem -> bool, viewUrl: nat -> string): (r: seq<string>)
    ensures |r| == |GalleryMedia(media, inGallery)| <= |media|
    ensures forall i :: 0 <= i < |r| ==> r[i] == viewUrl(GalleryMedia(media, inGallery)[i].mediaId)
  {
    var items := GalleryMedia(media, inGallery);
    seq(|items|, i requires 0 <= i < |items| => viewUrl(items[i].mediaId))
  }
}
