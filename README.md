# hotel-link core in Dafny

hotel-link is the front-end of a hotel "virtual tour" site. The page shows a VR360
panorama behind a header menu and a content panel. The content is fetched per property
from a backend and shown in one active language. This project models the logic beneath
the React rendering and proves properties of it:

- **Token gateway** (`Api`, from `src/api.ts`). One cached bearer token, a flag for a
  login in flight, and a queue of callers waiting for it. The response interceptor
  replays a request once after an authentication failure. The module-level state is the
  class `Api.TokenGateway`, whose methods are the events that can happen between two
  `await`s. Each method is proved against a pure step function on the `Api.Gateway`
  datatype, and the invariants (one login in flight, one replay per request) are proved
  on that function.
- **Language prefixes** (`Routes`, from `src/constants/routes.ts`). Adding, detecting
  and removing a locale prefix on a path, and validating and normalizing locale codes
  against the supported list.
- **Content services** (`Content` and one module per service). The exact-locale
  translation lookup, the primary image and ordered gallery, the copied fields, and the
  listing step that drops unnamed records and sorts by display order. Offers add the
  expired and upcoming tests and the discount text.
- **Decisions inside components**:
  - the booking form's room-type preselection (`BookingForm`);
  - the header menu, its active-entry test and language switch (`Header`);
  - the page classification, title and VR360 background of the shell (`App`);
  - the exact-locale property posts (`PropertyPosts`);
  - the paragraph and list blocks of the about text (`AboutContent`);
  - the error messages of the VR360 service (`Vr360Service`).

`JsStrings` and `Seqs` define the JavaScript built-ins the code relies on:
- `trim` over the ECMAScript white-space and line-terminator set;
- `toLowerCase` on A-Z and U+212A KELVIN SIGN;
- `split` and `join`, `includes`, and `||` on strings, where `""` is falsy;
- `find`, `filter`, and a stable `sort`.

## Model

| member | source | states |
|---|---|---|
| Api.LoginAndGetToken | src/api.ts:32-55 | A missing username, password, base URL or tenant code fails with the credentials error and makes no request. Otherwise the result is a token exactly when the POST answered, and it is the token of that answer. |
| Api.ShouldRetry | src/api.ts:127-132 | A retry happens only for status 401, or for 403 whose detail is exactly "Could not validate credentials - no token". The request must have a configuration that is not yet marked `_retry`. Every such case does retry. |
| Api.CachedTokenReused | src/api.ts:77 | With a token cached, `ensureToken` resolves the caller with it, starts no login and changes nothing else. |
| Api.QueuedWhileRefreshing | src/api.ts:79-88 | While a login is in flight, the caller is appended to `failedQueue` and no second login starts. |
| Api.StepValid | src/api.ts:64-155 | Every event keeps the gateway invariant. A login is in flight exactly when its caller is suspended on it, and then no token is cached. The queue is empty when no login is in flight. At most one login is unfinished. Every replayed request was marked and is replayed once. |
| Api.RunValid | src/api.ts:76-155 | The invariant holds after any sequence of events. |
| Api.SingleLoginAndSingleReplay | src/api.ts:76-155 | From start-up, whatever happens: at most one login is in flight and no request is replayed twice. |
| Api.EnsureAllWhileRefreshing | src/api.ts:79-88 | Callers arriving during a login are all queued, in arrival order. |
| Api.ConcurrentCallersShareOneLogin | src/api.ts:76-92 | Callers arriving with no token and no login in flight share one login. The first starts it and the others queue in order. |
| Api.SettleLength | src/api.ts:64-74 | `processQueue` with an error or a truthy token settles exactly one promise per waiter. |
| Api.SettleResolvesEach | src/api.ts:64-74 | With no error and a truthy token, the i-th settlement resolves the i-th waiter with that token. |
| Api.SettleRejectsEach | src/api.ts:64-74 | With an error, the i-th settlement rejects the i-th waiter with that error. |
| Api.EmptyTokenSettlesNobody | src/api.ts:64-74 | With no error and an empty token, no waiter is settled. |
| Api.LoginSuccessResolvesAll | src/api.ts:90-101 | A successful login caches the token and resolves every queued caller with it, in order, then the caller that started the login. It leaves the queue empty, the flag cleared and the invariant intact. |
| Api.LoginFailureRejectsAll | src/api.ts:96-101 | A failed login rejects every queued caller, then the starting caller, with the login error. It leaves no token, an empty queue and the flag cleared. The next call starts exactly one new login. |
| Api.Other403Propagates | src/api.ts:127-132 | A 403 with any other detail is passed on and the state is unchanged. |
| Api.SecondFailurePropagates | src/api.ts:127-132 | A request already marked `_retry` is passed on and the state is unchanged, whatever its status. |
| Api.FirstAuthFailure | src/api.ts:134-150 | A first 401 marks the request and drops the token. It queues the replay and starts exactly one login, settling nobody yet. |
| Api.ReplayResolved | src/api.ts:90-95 | When the login for a replay succeeds, the replay and then the background caller are resolved with the new token. A further failure of that request is passed on. |
| Api.RetryScenario | src/api.ts:119-155 | The whole retry: a first 401, one login, the replay resolved with the new token, and a second failure of the same request rejected unchanged. |
| Api.TokenGateway.constructor | src/api.ts:16-22 | The gateway starts with no token, no login in flight, an empty queue, and the invariant. |
| Api.TokenGateway.EnsureToken | src/api.ts:76-90 | The new state and the reply are those of the `ensureToken` step, and the invariant is kept. |
| Api.TokenGateway.ProcessQueue | src/api.ts:64-74 | The loop settles the old queue in order (rejected on error, resolved on a truthy token) and then empties the queue. Nothing else changes. |
| Api.TokenGateway.CompleteLogin | src/api.ts:92-101 | The result is `loginAndGetToken`'s. The new state is the login-completion step, and the invariant holds. |
| Api.TokenGateway.OnResponseError | src/api.ts:119-155 | The decision and the new state are those of the interceptor step, and the invariant is kept. |
| Routes.GetLocalizedPath | src/constants/routes.ts:30-35 | An absent, empty or 'vi' language leaves the path unchanged. Any other language gives "/" + lang + path, which always ends with the path. |
| Routes.NormalizeLocale | src/constants/routes.ts:62-67 | A valid code becomes a supported code equal to it ignoring case. Any other code is returned unchanged. |
| Routes.ValidLocaleIgnoresCase | src/constants/routes.ts:53-56 | A code is valid exactly when its lower-cased form is one of the lower-cased supported codes. |
| Routes.NormalizeSupported | src/constants/routes.ts:42-45 | Every supported code is valid and is its own normal form. |
| Routes.NormalizeLocaleIdempotent | src/constants/routes.ts:62-67 | Normalizing twice equals normalizing once. |
| Routes.LowerLocalesDistinct | src/constants/routes.ts:42-45 | No two supported codes differ only in case. |
| Routes.Segment | src/constants/routes.ts:81 | The first path segment is the longest prefix without '/'. |
| Routes.PrefixCandidate | src/constants/routes.ts:81 | A captured prefix is the whole first segment of a path that starts with '/'. |
| Routes.ExtractLanguageFromPath | src/constants/routes.ts:79-86 | The language is always a supported code. It is the normal form of the captured prefix when that prefix is a valid locale, and 'vi' when there is no prefix or the prefix is not a supported code. |
| Routes.ExtractCleanPathCases | src/constants/routes.ts:93-101 | Without a valid locale as first segment the pathname is returned unchanged. A bare valid prefix gives "/". |
| Routes.ExtractCleanPathRooted | src/constants/routes.ts:93-101 | A rooted pathname stays rooted once the prefix is removed. |
| Routes.SupportedShaped | src/constants/routes.ts:42-45 | Every supported code has the shape the pattern captures and holds no '/'. |
| Routes.PrefixOfLocalizedPath | src/constants/routes.ts:30-35 | A locale-shaped language put in front of a rooted path is what both patterns capture. |
| Routes.LocalizedPathLanguage | src/constants/routes.ts:79-86 | For a rooted path and a supported language other than 'vi', the language read back from the localized path is that language. |
| Routes.CleanOfPrefixed | src/constants/routes.ts:93-101 | A valid locale prefix added to a rooted path is removed again. |
| Routes.LocalizedPathRoundTrip | src/constants/routes.ts:30-35 | For a rooted path and a supported language other than 'vi', `extractCleanPath(getLocalizedPath(p, lang)) == p`. |
| Content.Lookup | src/services/roomService.ts:64 | The translation is found exactly when the locale is a key, and it is that key's entry: there is no fallback. |
| Content.PrimaryImage | src/services/facilityService.ts:20-23 | The image is null exactly when no item is primary. Otherwise it is the URL of the first primary item. |
| Content.GalleryMedia | src/services/facilityService.ts:26-28 | The gallery holds exactly the selected media, as a permutation of the filtered list, in ascending `sort_order`. |
| Content.Gallery | src/services/facilityService.ts:30-32 | The gallery URLs are those of the ordered gallery media, one each, never more than the media. |
| Content.Listing | src/services/roomService.ts:134-137 | The kept items are a permutation of the filtered items in ascending key order. Every kept input appears and nothing else does. |
| Content.MapListing | src/services/facilityService.ts:91-97 | Every listed record is the transform of an input record and passes the filter, in ascending key order. Every transformed record that passes is listed. |
| Content.MapListingStable | src/services/facilityService.ts:91-97 | Records with equal display order keep their input order, since the sort is stable. |
| Content.ListingStable | src/services/roomService.ts:134-137 | Items with equal key keep their filtered order. |
| RoomService.QueryParams | src/services/roomService.ts:35-40 | `skip` defaults to 0 and `limit` to 100 (`??`, so 0 is kept). `room_type` and `status` are sent only when given and non-empty. |
| RoomService.DefaultQuery | src/services/roomService.ts:35-40 | Without arguments the query is skip 0, limit 100, no filters. Explicit zeros are kept and empty filters omitted. |
| RoomService.ParseAmenities | src/services/roomService.ts:85-88 | The amenities are trimmed, non-empty pieces of the text split on ',', at most one per piece. |
| RoomService.AmenityItemsTrimmed | src/services/roomService.ts:87-88 | Each piece kept after trimming is already trimmed and non-empty. |
| RoomService.AmenitiesAtComma | src/services/roomService.ts:85-88 | The text on either side of any comma gives its own items, and the whole text gives those of the left side followed by those of the right. |
| RoomService.AmenitiesOfPiece | src/services/roomService.ts:85-88 | Text without a comma gives one item, its trimmed text, or none when the trimmed text is empty. With AmenitiesAtComma this fixes the items of every text, padded and empty pieces included. |
| RoomService.AmenitiesRoundTrip | src/services/roomService.ts:82-92 | Trimmed, non-empty, comma-free items written as "Item1, Item2" are read back as exactly those items. |
| RoomService.BlankAmenitiesTextHidesJson | src/services/roomService.ts:83-92 | Amenities text that is a single blank is truthy, so `amenities_json` is not consulted and the room shows no amenities. |
| RoomService.TransformRoomForUI | src/services/roomService.ts:62-114 | Name and description come from the exact locale or are "". The primary image is the first primary, non-VR360 item, or null. The gallery is the non-primary, non-VR360 media in `sort_order`. `vrLink` is kept only when truthy. Amenities come from the text when it is truthy, else from the JSON list. The other fields are copied. |
| RoomService.GetRoomsForUI | src/services/roomService.ts:133-137 | Each room listed has a non-blank name and is the transform of an input room. Every such transform is listed, in ascending display order. |
| RoomService.GetRoomById | src/services/roomService.ts:153-158 | The result is null exactly when no room has the id. Otherwise it is the transform of the first room with that id, as `find` returns it. |
| FacilityService.QueryParams | src/services/facilityService.ts:66-71 | `skip` defaults to 0 and `limit` to 100 with `\|\|`, so a limit of 0 becomes 100. The type is sent as given. |
| FacilityService.TransformFacilityForUI | src/services/facilityService.ts:12-57 | Name and description come from the exact locale or are "". The primary image is the first primary item, VR360 included. The gallery is all non-primary media in `sort_order`. `vrLink`, `display_order` and the other fields are copied. |
| FacilityService.GetFacilitiesForUI | src/services/facilityService.ts:84-99 | Only named facilities are listed, each the transform of an input facility. Every named one is listed, in ascending display order, never more than the input. |
| FacilityService.Vr360CanBePrimary | src/services/facilityService.ts:20-23 | A primary VR360 item is chosen as the facility's image. |
| DiningService.QueryParams | src/services/diningService.ts:67-73 | `skip` defaults to 0 and `limit` to 100 with `\|\|`. The type is sent as given. |
| DiningService.TransformDiningForUI | src/services/diningService.ts:12-59 | Name and description come from the exact locale or are "". The primary image is the first primary item. The gallery is the non-primary media in `sort_order`. `operatingHours`, `vrLink` and `display_order` are copied. |
| DiningService.GetDiningsForUI | src/services/diningService.ts:86-101 | Only named venues are listed, every named one is, in ascending display order. |
| ServiceCatalog.QueryParams | src/services/serviceService.ts:68-74 | `skip` defaults to 0 and `limit` to 100 with `\|\|`. The type is sent as given. |
| ServiceCatalog.TransformServiceForUI | src/services/serviceService.ts:12-60 | Name and description come from the exact locale or are "". The primary image is the first primary item. The gallery is the non-primary media in `sort_order`. `availability` and `priceInfo` are copied, absent values included. |
| ServiceCatalog.GetServicesForUI | src/services/serviceService.ts:87-102 | Only named services are listed, every named one is, in ascending display order. |
| OfferService.FormatDiscount | src/services/offerService.ts:11-21 | A percentage is the decimal number, read back as the value, followed by a single '%'. Any other type is the currency formatter's text. |
| OfferService.FifteenPercent | src/services/offerService.ts:12-14 | A 15 percent discount is shown as "15%". |
| OfferService.TransformOfferForUI | src/services/offerService.ts:26-86 | Title, description and terms come from the exact locale or are "". The offer is expired iff `valid_to` is before today and upcoming iff `valid_from` is after today. With `valid_from` ≤ `valid_to` it is never both. The other fields are copied. |
| OfferService.GetOffersForUI | src/services/offerService.ts:120-123 | Only offers that are not expired and have a non-blank title are listed, and every such offer is, in ascending display order. |
| OfferService.QueryParams | src/services/offerService.ts:95-100 | `skip` defaults to 0 and `limit` to 100 with `\|\|`. The status is sent as given. |
| OfferService.ForUIQuery | src/services/offerService.ts:118 | The listing always asks for status 'active', whatever the caller passed, and keeps the caller's paging. |
| OfferService.ByCodeQuery | src/services/offerService.ts:134 | The lookup by code asks for the first hundred active offers. |
| OfferService.GetOfferByCode | src/services/offerService.ts:134-139 | The result is null exactly when no offer has the code. Otherwise it is the transform of the first offer with that code, as `find` returns it. |
| ContactService.TextOrEmpty | src/services/contactService.ts:21-23 | An absent text becomes "" and a present one is kept. |
| ContactService.TransformContactForUI | src/services/contactService.ts:11-33 | Address, working hours and description come from the exact locale or are "". Phone, email, website and map coordinates default to "" and social media to an empty map; a present value is copied. The VR360 fields are copied. |
| ContactService.OtherLocalesIgnored | src/services/contactService.ts:16-18 | Changing another locale's texts does not change the result. |
| RegulationService.TransformRegulationForUI | src/services/regulationService.ts:11-26 | The three texts are "" without an entry for the locale and copied from it otherwise. The VR360 fields are copied. |
| RegulationService.OtherLocalesIgnored | src/services/regulationService.ts:16 | Only the requested locale's entry is consulted. |
| PolicyService.TransformPolicyForUI | src/services/policyService.ts:11-26 | The three texts are "" without an entry for the locale and copied from it otherwise. The VR360 fields are copied. |
| PolicyService.OtherLocalesIgnored | src/services/policyService.ts:16 | Only the requested locale's entry is consulted. |
| BookingForm.SpecialMatch | src/components/common/BookingForm.tsx:53-63 | The special stage yields the type of the first key the slug holds, always a room type, and null exactly when it holds none. |
| BookingForm.NameStage | src/components/common/BookingForm.tsx:33-34 | The first stage finds a room type exactly when some lower-cased name equals the slug, and it finds that type. |
| BookingForm.SlugStage | src/components/common/BookingForm.tsx:37-40 | The second stage finds a room type exactly when some hyphenated name equals the slug. |
| BookingForm.KeywordStage | src/components/common/BookingForm.tsx:43-50 | The third stage finds a type exactly when the keyword test accepts one. |
| BookingForm.NormalizeSlugToRoomType | src/components/common/BookingForm.tsx:29-66 | The result is null or one of the room types. |
| BookingForm.TypeNames | src/components/common/BookingForm.tsx:16-26 | The lower-cased and hyphenated forms of each room type. |
| BookingForm.LowerTypesDistinct | src/components/common/BookingForm.tsx:16-26 | No two room types have the same lower-cased name. |
| BookingForm.NormalizeIgnoresCaseAndPadding | src/components/common/BookingForm.tsx:30 | Slugs that differ in case and surrounding whitespace give the same result. |
| BookingForm.DecidedByName | src/components/common/BookingForm.tsx:33-34 | When a lower-cased name equals the slug, the first such room type is the result. |
| BookingForm.DecidedBySlug | src/components/common/BookingForm.tsx:37-40 | When no name matches and a hyphenated name does, the first such type is the result. |
| BookingForm.KeywordStageFinds | src/components/common/BookingForm.tsx:43-50 | The keyword stage returns the first room type, in declared order, that the test accepts. |
| BookingForm.DecidedByKeyword | src/components/common/BookingForm.tsx:43-50 | When neither name stage matches, the first type the keyword test accepts is the result. |
| BookingForm.DecidedBySpecial | src/components/common/BookingForm.tsx:61-65 | When no earlier stage matches, the special table decides, and the result is null exactly when the slug holds none of its keys. |
| BookingForm.NameDecides | src/components/common/BookingForm.tsx:33-34 | The lower-cased name of each room type is decided by the first stage, as that type. |
| BookingForm.RoomTypeMapsToItself | src/components/common/BookingForm.tsx:33-34 | Every room type maps to itself. |
| BookingForm.SpelledRoomTypeSelected | src/components/common/BookingForm.tsx:30-34 | A room type spelled in any case with any surrounding whitespace selects that type, e.g. 'DELUXE' gives 'Deluxe'. |
| BookingForm.HyphenatedSlugRoundTrip | src/components/common/BookingForm.tsx:37-40 | The hyphenated slug of each multi-word type is decided by the second stage as that type, e.g. 'senior-ocean-view' gives 'Senior Ocean View'. |
| BookingForm.SlugRoundTrip | src/components/common/BookingForm.tsx:37-40 | The hyphenated slug of every room type maps back to that type. |
| BookingForm.DeluxePartialKeyUnreachable | src/components/common/BookingForm.tsx:46-54 | For a slug holding 'deluxe-partial', the keyword stage always finds a room type (if no earlier stage has), so the special table is never reached and that key never decides. |
| BookingForm.OceanViewSelectsDeluxePartial | src/components/common/BookingForm.tsx:43-56 | The slug 'ocean-view' selects 'Deluxe Partial Ocean View' in the keyword stage. The special entry mapping it to 'Senior Ocean View' is never reached. |
| BookingForm.BlankSlugSelectsStandard | src/components/common/BookingForm.tsx:30-48 | A slug of only whitespace normalizes to "", which every name holds, so 'Standard' is selected. |
| Header.AllItems | src/components/common/Header.tsx:74-82 | The seven entries are listed in menu order. |
| Header.VisibleItems | src/components/common/Header.tsx:85-98 | Without page settings all entries are kept. With them, exactly the displayed entries are kept. |
| Header.MenuKeepsOrder | src/components/common/Header.tsx:89 | The filtered menu keeps menu order. |
| Header.UnmappedItemsKept | src/components/common/Header.tsx:90-94 | About, policy and contact are always in the menu. |
| Header.MappedItemShownUnlessFalse | src/components/common/Header.tsx:96-97 | A mapped entry is shown exactly unless its page's `is_displaying` is `false`. Missing settings or a missing flag show it. |
| Header.ActiveIsPrefix | src/components/common/Header.tsx:108 | An active entry's path is a prefix of the pathname. |
| Header.SiblingNotActive | src/components/common/Header.tsx:108 | A pathname continuing the path with anything but '/' is not active. |
| Header.SubpageActive | src/components/common/Header.tsx:108 | Every path below the entry's path activates it. |
| Header.RoomsSiblingExample | src/components/common/Header.tsx:108 | '/phong-nghi-x' does not activate '/phong-nghi'; '/phong-nghi/deluxe' does. |
| Header.LanguageMenu | src/components/common/Header.tsx:123-124 | The language menu holds every offered language except the current one, and never the current one. |
| Header.LanguageMenuKeepsOrder | src/components/common/Header.tsx:123-124 | The menu of two runs of offered languages is the menu of the first followed by the menu of the second, so the offered order is kept. |
| Header.LanguageMenuOfOne | src/components/common/Header.tsx:123-124 | One offered language is in the menu, once, exactly when its code is not the current one. |
| Header.LanguageChangePath | src/components/common/Header.tsx:110-116 | Switching to 'vi' goes to the clean path. Switching to any other language goes to "/" + the language + the clean path. |
| Header.LanguageSwitchFromUnprefixedPage | src/components/common/Header.tsx:110-116 | Switching language on a page without a supported prefix gives that page localized for the new language, and that language is read back from it. |
| Header.LanguageSwitchKeepsPage | src/components/common/Header.tsx:110-116 | Switching language on a localized page gives the same page localized for the new language, and that language is read back from it. |
| App.SectionFlags | src/App.tsx:83-92 | A section flag holds exactly on the section root and the paths below it. |
| App.SignaturesDistinct | src/App.tsx:81-92 | The pages' path signatures are pairwise distinct. |
| App.FlagSignature | src/App.tsx:81-92 | Each page flag determines the second and third characters of the path. |
| App.AtMostOnePage | src/App.tsx:81-92 | No clean path sets two page flags. |
| App.OnePageOrNone | src/App.tsx:81-92 | Every clean path is exactly one page or none. |
| App.FlagsIgnoreLanguage | src/App.tsx:81-92 | A localized path is classified as the path it localizes. |
| App.PageTitle | src/App.tsx:104-139 | Home has the first post title. About has the introduction title, else its label. Policy, regulation, contact, booking and gallery have their labels. A section has its detail title, else its label. An unknown path has "". |
| App.RoomsTitle | src/App.tsx:122-129 | On a rooms page a detail title takes precedence over the rooms label. |
| App.Vr360Url | src/App.tsx:188-210 | The about, policy, regulation and contact pages use their link when truthy, else the default. The sections use the detail link, else the settings link, else the default. Any other page uses the default. |
| App.RoomsBackground | src/App.tsx:198-200 | On a rooms page the background is the detail link, else the settings rooms link, else the default. |
| App.ShouldShowInfoBox | src/App.tsx:225-228 | The info box shows iff the menu is expanded on desktop, and iff it is collapsed on mobile. |
| PropertyPosts.GetPostTranslation | src/components/common/PropertyPostsContent.tsx:13-22 | Null when there are no translations or none has exactly the locale. Otherwise the first translation with exactly that locale. |
| PropertyPosts.FilteredPosts | src/components/common/PropertyPostsContent.tsx:42-46 | Each shown post has an exact-locale translation, and every post with one is shown. |
| PropertyPosts.FilteredPostsKeepOrder | src/components/common/PropertyPostsContent.tsx:42-46 | The filter distributes over concatenation, so it keeps post order. |
| PropertyPosts.FilteredPostsIdempotent | src/components/common/PropertyPostsContent.tsx:42-46 | Filtering the shown posts again changes nothing. |
| PropertyPosts.NoFallback | src/components/common/PropertyPostsContent.tsx:19-21 | A post only in other locales is not shown. |
| AboutContent.BulletIsTrimmedDash | src/components/common/AboutContent.tsx:119 | A line is a bullet exactly when its trimmed form starts with '-'. |
| AboutContent.StripBullet | src/components/common/AboutContent.tsx:135 | A dash in the first column and the whitespace after it are removed. A line not starting with '-' is kept as is. |
| AboutContent.Title | src/components/common/AboutContent.tsx:122 | The title is the first non-bullet line, and is absent exactly when every line is a bullet. |
| AboutContent.Items | src/components/common/AboutContent.tsx:123-136 | Each item is a stripped bullet line, and there is at least one item when there is a bullet. |
| AboutContent.RenderParagraph | src/components/common/AboutContent.tsx:116-147 | A paragraph is a list exactly when it has more than one line and a bullet line. Then it has that title and at least one item. Otherwise it is kept verbatim. |
| AboutContent.Blocks | src/components/common/AboutContent.tsx:108-114 | Empty text gives no blocks. Otherwise each block renders a non-empty piece between blank lines. |
| AboutContent.StripBulletOfItem | src/components/common/AboutContent.tsx:135 | "-" plus whitespace plus an item is a bullet that strips back to the item. |
| AboutContent.IndentedBulletKeepsDash | src/components/common/AboutContent.tsx:119-135 | An indented dash line counts as a bullet but keeps its dash when shown. |
| AboutContent.SingleLineParagraph | src/components/common/AboutContent.tsx:119 | A one-line paragraph is never a list, even when it starts with '-'. |
| AboutContent.ParagraphsRoundTrip | src/components/common/AboutContent.tsx:108-114 | Paragraphs joined with blank lines render as the blocks of the non-empty ones, in order: extra blank lines give no block. |
| AboutContent.BlocksOfPieces | src/components/common/AboutContent.tsx:108-114 | Every text, the empty one included, renders as the blocks of its non-empty blank-line-separated pieces, in order. |
| AboutContent.BlocksAfterParagraph | src/components/common/AboutContent.tsx:112-114 | The text before the first blank line gives the first block unless it is empty, and the rest of the text gives the blocks after it. |
| AboutContent.ItemsConcat | src/components/common/AboutContent.tsx:123-136 | The items of two runs of lines are those of the first followed by those of the second, so every bullet line gives its item in line order. |
| AboutContent.ItemsOfLine | src/components/common/AboutContent.tsx:123-136 | One line gives its stripped text as an item when it is a bullet, and nothing otherwise. |
| AboutContent.TitledList | src/components/common/AboutContent.tsx:122-123 | A title line ahead of bullets is the list's title, and the stripped bullets are its items. |
| AboutContent.ListRoundTrip | src/components/common/AboutContent.tsx:116-136 | A title line followed by "- item" lines renders as a list with that title and exactly those items. |
| AboutContent.RenderList | src/components/common/AboutContent.tsx:116-123 | Lines joined by line breaks that form a list render with their title and items. |
| Vr360Service.Entry | src/services/vr360Service.ts:85 | A validation entry starts with its field name and ": ". |
| Vr360Service.ValidationMessage | src/services/vr360Service.ts:84-87 | The message starts with "Validation Error: ", and is just that prefix when there are no entries. |
| Vr360Service.HandleApiError | src/services/vr360Service.ts:78-95 | The handler always throws. The caught error is rethrown exactly when there is no response. A 422 with `errors` throws the validation message. Any other response throws detail, message or 'API request failed', never an empty message. |
| Vr360Service.ErrorMessagePreference | src/services/vr360Service.ts:91 | Outside the validation case the message is `detail` if truthy, else `message`, else 'API request failed'. |
| Vr360Service.ValidationOnlyFor422 | src/services/vr360Service.ts:83-91 | A status other than 422 never produces the validation message, even with `errors` present. |
| Vr360Service.ParseEntryRoundTrip | src/services/vr360Service.ts:85 | A plain entry reads back from its "field: m1, m2" text. |
| Vr360Service.ValidationMessageRoundTrip | src/services/vr360Service.ts:84-87 | The validation message lists every field with its messages, in order: plain entries read back exactly. |
| Vr360Service.VR360Query | src/services/vr360Service.ts:116-124 | Filters are sent as given. `page` defaults to 1 and `limit` to 20 with `\|\|`, so neither is ever 0. |
| Vr360Service.VR360QueryStable | src/services/vr360Service.ts:116-124 | Sending a query's own values back yields the same query. |
| Vr360Service.OffsetIgnored | src/services/vr360Service.ts:116-124 | The `offset` parameter never reaches the query. |

## Left out

- HTTP and axios are not modelled. This covers the login POST itself, request and response plumbing, the 15 s timeout, interceptor registration and headers. The replay through `api(originalRequest)` is recorded only as an entry in `replays`. The login's answer is the parameter `LoginReply`.
- Promises and scheduling are not modelled. Each `await` boundary is one event of `Api.TokenGateway`. A promise's settlement is a `Settlement` entry, and true parallelism is not modelled.
- A login reply without `access_token` leaves the queued callers unsettled. This is modelled, as `Api.EmptyTokenSettlesNobody`, but what those callers do afterwards is not.
- The missing-credentials error is an error value, not its message text.
- `mediaService.getMediaViewUrl` is not part of this model. It is the parameter `viewUrl: nat -> string`.
- Dates are integer day numbers and "today" is a parameter. `Date` parsing, time zones and `setHours` are not modelled.
- OfferService.FormatDiscount: the fixed-amount branch (`Intl.NumberFormat` in VND) is the parameter `formatCurrency`. Only integer discount values are modelled, so fractional percentages are not.
- JavaScript numbers are unbounded integers. Fractions, NaN and overflow do not arise in the model.
- Records' missing `translations` field is modelled as an empty map or list.
- JsStrings `toLowerCase` maps only A-Z and U+212A. Non-ASCII letters keep their case, which changes no comparison with the ASCII names and codes here. U+0130 is left out, because it lower-cases to two characters.
- AboutContent.Blocks: the `null` returned for empty text and the `[]` for text of only blank lines both become `[]`. A list title that is the empty string is kept in the block, and not displaying it is rendering, which is not modelled.
- Vr360Service.HandleApiError: `errors` is the object's entries in insertion order, and FastAPI's array form of `detail` is not modelled. A response without `data`, which raises a TypeError in the source, is not modelled either.
- The other VR360 endpoints and `getVrHotelSettings` are I/O. Only the query of `getVR360Links` and the error handler are modelled.
- `getRooms`, `getFacilities`, `getDinings`, `getServices`, `getOffers` and `getContact` are I/O. Only their query parameters are modelled. The `get*ForUI` functions and the lookups by id or code take the list the backend returned.
- React rendering, styles, hooks and state setters are not modelled. Neither are the list, detail and view components, `useGallery`, the redirect to the booking URL, the mock page, the scripts and the type-only files.
- Header.LanguageChangePath: `setLanguage` and `navigate` are effects. Only the computed path is modelled.
