/** Rooms as the booking pages show them: the localized text for exactly one locale, a
    primary image and a gallery that leave out VR360 media, a list of amenities, and the
    list of rooms with a name for that locale in display order. */
module RoomService {
  import opened JsStrings
  import opened Seqs
  import opened Content

  /** A room's text in one locale; an absent field is "". */
  datatype RoomTranslation = RoomTranslation(name: string, description: string, amenitiesText: string)

  /** A room as the backend sends it; a null `amenities_json` is the empty list. */
  datatype Room = Room(
    id: int, roomCode: string, roomType: string, pricePerNight: int, capacity: int,
    sizeSqm: int, floor: int, bedType: string, status: string,
    amenitiesJson: seq<string>, vrLink: Option<string>,
    translations: map<string, RoomTranslation>, media: seq<MediaItem>,
    displayOrder: int, createdAt: string, updatedAt: string)

  /** A room ready for display. */
  datatype RoomUI = RoomUI(
    id: int, code: string, roomType: string, name: string, description: string,
    price: int, capacity: int, size: int, floor: int, bedType: string, status: string,
    amenities: seq<string>, vrLink: Option<string>,
    primaryImage: Option<string>, galleryImages: seq<string>,
    displayOrder: int, createdAt: string, updatedAt: string)

  /** The optional arguments of `getRooms`. */
  datatype RoomQuery = RoomQuery(skip: Option<int>, limit: Option<int>, roomType: Option<string>, status: Option<string>)

  /** The query string sent; `None` means the key is left out. */
  datatype RoomQueryParams = RoomQueryParams(skip: int, limit: int, roomType: Option<string>, status: Option<string>)

  /** The query of `getRooms`: `skip` and `limit` fall back to 0 and 100 only when absent
      (an explicit 0 is sent as given), and a filter is sent only when it is a non-empty
      string. */
  function QueryParams(q: RoomQuery): (r: RoomQueryParams)
    ensures r.skip == (if q.skip.Some? then q.skip.value else 0)
    ensures r.limit == (if q.limit.Some? then q.limit.value else 100)
    ensures r.roomType.Some? <==> q.roomType.Some? && q.roomType.value != ""
    ensures r.roomType.Some? ==> r.roomType == q.roomType
    ensures r.status.Some? <==> q.status.Some? && q.status.value != ""
    ensures r.status.Some? ==> r.status == q.status
  {
    RoomQueryParams(
      match q.skip case Some(s) => s case None => 0,
      match q.limit case Some(l) => l case None => 100,
      if q.roomType.Some? && q.roomType.value != "" then q.roomType else None,
      if q.status.Some? && q.status.value != "" then q.status else None)
  }

  predicate NonEmpty(s: string) {
    s != ""
  }

  /** The items of the list are trimmed and non-empty. */
  lemma AmenityItemsTrimmed(pieces: seq<string>)
    ensures forall i :: 0 <= i < |Filter(Map(pieces, Trim), NonEmpty)| ==>
              Trim(Filter(Map(pieces, Trim), NonEmpty)[i]) == Filter(Map(pieces, Trim), NonEmpty)[i]
  {
    var m := Map(pieces, Trim);
    var r := Filter(m, NonEmpty);
    forall i | 0 <= i < |r| ensures Trim(r[i]) == r[i] {
      assert r[i] in m;
      var j :| 0 <= j < |m| && m[j] == r[i];
      TrimIdempotent(pieces[j]);
    }
  }

  /** `text.split(',').map(item => item.trim()).filter(item => item !== '')`: the
      comma-separated items, trimmed, empty ones dropped. */
  function ParseAmenities(text: string): (r: seq<string>)
    ensures |r| <= |Split(text, ",")|
    ensures forall i :: 0 <= i < |r| ==> r[i] != "" && Trim(r[i]) == r[i]
  {
    AmenityItemsTrimmed(Split(text, ","));
    Filter(Map(Split(text, ","), Trim), NonEmpty)
  }

  function RoomPrimary(m: MediaItem): bool {
    m.isPrimary && !m.isVr360
  }

  function RoomGallery(m: MediaItem): bool {
    !m.isPrimary && !m.isVr360
  }

  /** `transformRoomForUI(room, locale)`, with the media URL resolver as a parameter. */
  function TransformRoomForUI(room: Room, locale: string, viewUrl: nat -> string): (r: RoomUI)
    ensures locale !in room.translations ==> r.name == "" && r.description == ""
    ensures locale in room.translations ==>
              r.name == room.translations[locale].name
              && r.description == room.translations[locale].description
    ensures r.primaryImage.None? <==> forall i :: 0 <= i < |room.media| ==> !RoomPrimary(room.media[i])
    ensures r.primaryImage.Some? ==>
              exists i :: 0 <= i < |room.media| && RoomPrimary(room.media[i])
                          && r.primaryImage.value == viewUrl(room.media[i].mediaId)
                          && forall j :: 0 <= j < i ==> !RoomPrimary(room.media[j])
    ensures r.galleryImages == Gallery(room.media, RoomGallery, viewUrl)
    ensures |r.galleryImages| <= |room.media|
    ensures r.vrLink.Some? <==> room.vrLink.Some? && room.vrLink.value != ""
    ensures r.vrLink.Some? ==> r.vrLink == room.vrLink
    ensures locale in room.translations && room.translations[locale].amenitiesText != ""
            ==> r.amenities == ParseAmenities(room.translations[locale].amenitiesText)
    ensures (locale !in room.translations || room.translations[locale].amenitiesText == "")
            ==> r.amenities == room.amenitiesJson
    ensures r.id == room.id && r.code == room.roomCode && r.roomType == room.roomType
    ensures r.price == room.pricePerNight && r.capacity == room.capacity && r.size == room.sizeSqm
    ensures r.floor == room.floor && r.bedType == room.bedType && r.status == room.status
    ensures r.displayOrder == room.displayOrder && r.createdAt == room.createdAt && r.updatedAt == room.updatedAt
  {
    var translation := Lookup(room.translations, locale);
    var amenities :=
      if translation.Some? && translation.value.amenitiesText != "" then
        ParseAmenities(translation.value.amenitiesText)
      else if |room.amenitiesJson| > 0 then room.amenitiesJson
      else [];
    RoomUI(
      room.id, room.roomCode, room.roomType,
      if translation.Some? then translation.value.name else "",
      if translation.Some? then translation.value.description else "",
      room.pricePerNight, room.capacity, room.sizeSqm, room.floor, room.bedType, room.status,
      amenities,
      if room.vrLink.Some? && room.vrLink.value != "" then room.vrLink else None,
      PrimaryImage(room.media, RoomPrimary, viewUrl),
      Gallery(room.media, RoomGallery, viewUrl),
      room.displayOrder, room.createdAt, room.updatedAt)
  }

  function HasName(r: RoomUI): bool {
    NotBlank(r.name)
  }

  function DisplayOrder(r: RoomUI): int {
    r.displayOrder
  }

  /** The list step of `getRoomsForUI` over the rooms the backend returned. */
  function GetRoomsForUI(rooms: seq<Room>, locale: string, viewUrl: nat -> string): (r: seq<RoomUI>)
    ensures |r| <= |rooms|
    ensures forall i :: 0 <= i < |r| ==> NotBlank(r[i].name)
    ensures SortedBy(r, DisplayOrder)
    ensures forall i :: 0 <= i < |r| ==>
              exists j :: 0 <= j < |rooms| && r[i] == TransformRoomForUI(rooms[j], locale, viewUrl)
    ensures forall j :: 0 <= j < |rooms| && NotBlank(TransformRoomForUI(rooms[j], locale, viewUrl).name)
              ==> TransformRoomForUI(rooms[j], locale, viewUrl) in r
  {
    var toUI := RoomToUI(locale, viewUrl);
    assert forall room :: toUI(room) == TransformRoomForUI(room, locale, viewUrl);
    MapListing(rooms, toUI, HasName, DisplayOrder)
  }

  function RoomToUI(locale: string, viewUrl: nat -> string): Room -> RoomUI {
    (room: Room) => TransformRoomForUI(room, locale, viewUrl)
  }

  function HasId(id: int): Room -> bool {
    (room: Room) => room.id == id
  }

  /** `getRoomById` over the rooms the backend returned: the first room with that id,
      transformed, or null. */
  function GetRoomById(rooms: seq<Room>, id: int, locale: string, viewUrl: nat -> string): (r: Option<RoomUI>)
    ensures r.None? <==> forall i :: 0 <= i < |rooms| ==> rooms[i].id != id
    ensures r.Some? ==>
              exists i :: 0 <= i < |rooms| && rooms[i].id == id
                          && (forall j :: 0 <= j < i ==> rooms[j].id != id)
                          && r.value == TransformRoomForUI(rooms[i], locale, viewUrl)
  {
    match FindIndex(rooms, HasId(id))
    case None => None
    case Some(k) => Some(TransformRoomForUI(rooms[k], locale, viewUrl))
  }

  /** Without arguments the first hundred rooms are asked for, with no filter. */
  lemma DefaultQuery()
    ensures QueryParams(RoomQuery(None, None, None, None)) == RoomQueryParams(0, 100, None, None)
    ensures QueryParams(RoomQuery(Some(0), Some(0), Some(""), Some(""))) == RoomQueryParams(0, 0, None, None)
  {
  }

  /** Amenities text made of trimmed, non-empty, comma-free items in the "Item1, Item2"
      format is read back as exactly those items. */
  lemma AmenitiesRoundTrip(items: seq<string>)
    requires |items| >= 1
    requires forall i :: 0 <= i < |items| ==> items[i] != "" && Trim(items[i]) == items[i] && Excludes(items[i], ',')
    ensures ParseAmenities(Join(items, ", ")) == items
  {
    TrimmedPieces("", items);
    assert "" + Join(items, ", ") == Join(items, ", ");
    FilterAll(items, NonEmpty);
  }

  /** Amenities text splits at every comma: the items of the text on either side of a
      comma, in order, are the items of the whole. */
  lemma AmenitiesAtComma(a: string, b: string)
    ensures ParseAmenities(a + "," + b) == ParseAmenities(a) + ParseAmenities(b)
  {
    SplitAtSeparator(a, ',', b);
    MapConcat(Split(a, ","), Split(b, ","), Trim);
    FilterConcat(Map(Split(a, ","), Trim), Map(Split(b, ","), Trim), NonEmpty);
  }

  /** A comma-free piece is one item, its trimmed text, or none when that is empty. */
  lemma AmenitiesOfPiece(s: string)
    requires Excludes(s, ',')
    ensures ParseAmenities(s) == (if Trim(s) == "" then [] else [Trim(s)])
  {
    ExcludesClear(s, ",");
    SplitWithoutSeparator(s, ",");
    assert Map([s], Trim) == [Trim(s)];
  }

  lemma PaddedPieceExcludes(pad: string, item: string)
    requires forall k :: 0 <= k < |pad| ==> IsWhitespace(pad[k])
    requires Excludes(item, ',')
    ensures Excludes(pad + item, ',')
  {
    var first := pad + item;
    forall k | 0 <= k < |first| ensures first[k] != ',' {
      if k < |pad| { assert IsWhitespace(pad[k]); } else { assert first[k] == item[k - |pad|]; }
    }
  }

  lemma JoinUnfold(pad: string, items: seq<string>)
    requires |items| >= 2
    ensures pad + Join(items, ", ") == (pad + items[0]) + [','] + (" " + Join(items[1..], ", "))
  {
  }

  /** The first piece of a padded list, trimmed, is its first item. */
  lemma FirstPiece(pad: string, item: string)
    requires forall k :: 0 <= k < |pad| ==> IsWhitespace(pad[k])
    requires Trim(item) == item && Excludes(item, ',')
    ensures Excludes(pad + item, ',') && Trim(pad + item) == item
  {
    PaddedPieceExcludes(pad, item);
    TrimLeftPadded(pad, item);
  }

  lemma SplitAfterItem(first: string, rest: string)
    requires Excludes(first, ',')
    ensures Split(first + [','] + (" " + rest), ",") == [first] + Split(" " + rest, ",")
  {
    ExcludesClear(first, ",");
    SplitAfterPiece(first, ",", " " + rest);
  }

  lemma TrimmedCons(first: string, tail: seq<string>, items: seq<string>)
    requires |items| >= 2 && Trim(first) == items[0] && Map(tail, Trim) == items[1..]
    ensures Map([first] + tail, Trim) == items
  {
    MapCons(first, tail, Trim);
    assert [items[0]] + items[1..] == items;
  }

  lemma {:induction false} TrimmedPieces(pad: string, items: seq<string>)
    requires forall k :: 0 <= k < |pad| ==> IsWhitespace(pad[k])
    requires |items| >= 1
    requires forall i :: 0 <= i < |items| ==> Trim(items[i]) == items[i] && Excludes(items[i], ',')
    ensures Map(Split(pad + Join(items, ", "), ","), Trim) == items
    decreases |items|
  {
    if |items| == 1 {
      var first := pad + items[0];
      FirstPiece(pad, items[0]);
      ExcludesClear(first, ",");
      SplitWithoutSeparator(first, ",");
      assert pad + Join(items, ", ") == first;
    } else {
      TrimmedPieces(" ", items[1..]);
      TrimmedPiecesCons(pad, items);
    }
  }

  /** The first item comes off a padded list ahead of the pieces of the others. */
  lemma TrimmedPiecesCons(pad: string, items: seq<string>)
    requires forall k :: 0 <= k < |pad| ==> IsWhitespace(pad[k])
    requires |items| >= 2
    requires Trim(items[0]) == items[0] && Excludes(items[0], ',')
    requires Map(Split(" " + Join(items[1..], ", "), ","), Trim) == items[1..]
    ensures Map(Split(pad + Join(items, ", "), ","), Trim) == items
  {
    var first := pad + items[0];
    var rest := Join(items[1..], ", ");
    FirstPiece(pad, items[0]);
    JoinUnfold(pad, items);
    SplitAfterItem(first, rest);
    TrimmedCons(first, Split(" " + rest, ","), items);
  }

  /** A room whose amenities text is only blanks shows no amenities: the text is truthy,
      so the JSON list is not consulted. */
  lemma BlankAmenitiesTextHidesJson(room: Room, locale: string, viewUrl: nat -> string)
    requires locale in room.translations && room.translations[locale].amenitiesText == " "
    ensures TransformRoomForUI(room, locale, viewUrl).amenities == []
  {
    ExcludesClear(" ", ",");
    SplitWithoutSeparator(" ", ",");
    assert Map([" "], Trim) == [""];
  }
}
