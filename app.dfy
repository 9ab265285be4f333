/** The application shell: the page the current path shows, the title above it, the
    VR360 background behind it and whether the info box is open. */
module App {
  import opened JsStrings
  import opened Seqs
  import opened Routes
  import opened Header

  /** Which page the clean path (the pathname without its language prefix) shows. */
  datatype PageFlags = PageFlags(
    home: bool, about: bool, rooms: bool, dining: bool, facility: bool, service: bool,
    policy: bool, contact: bool, booking: bool, gallery: bool, regulation: bool, offers: bool)

  /** The page labels of the active locale. */
  datatype Labels = Labels(
    about: string, policy: string, regulation: string, rooms: string, dining: string,
    facilities: string, services: string, contact: string, booking: string,
    gallery: string, offers: string)

  /** The titles the pages report. `""` stands for a missing title (`null`, `undefined`
      and `''` are all falsy); `firstPostTitle` is the first post title for the locale. */
  datatype Titles = Titles(
    firstPostTitle: string, introTitle: string, roomTitle: string, diningTitle: string,
    facilityTitle: string, serviceTitle: string, offerTitle: string)

  /** The VR360 links the pages report, `""` for a missing one. `pageX` is
      `vrHotelSettings?.pages?.X?.vr360_link` and `xDetail` the link of an open detail. */
  datatype Links = Links(
    default: string, intro: string, policy: string, regulation: string, contact: string,
    roomDetail: string, diningDetail: string, serviceDetail: string, facilityDetail: string,
    offerDetail: string, pageRooms: string, pageDining: string, pageServices: string,
    pageFacilities: string, pageOffers: string)

  /** The page flags of a clean path: the five sections match their root and everything
      below it, the other pages match their path exactly. */
  function Flags(clean: string): PageFlags {
    PageFlags(
      home := clean == "/",
      about := clean == "/gioi-thieu",
      rooms := IsActive(clean, "/phong-nghi"),
      dining := IsActive(clean, "/am-thuc"),
      facility := IsActive(clean, "/tien-ich"),
      service := IsActive(clean, "/dich-vu"),
      policy := clean == "/chinh-sach",
      contact := clean == "/lien-he",
      booking := clean == "/dat-phong",
      gallery := clean == "/thu-vien-anh",
      regulation := clean == "/noi-quy-khach-san",
      offers := IsActive(clean, "/uu-dai"))
  }

  /** A section flag holds exactly on the section root and the paths below it. */
  lemma SectionFlags(clean: string)
    ensures Flags(clean).rooms <==> clean == "/phong-nghi" || StartsWith(clean, "/phong-nghi/")
    ensures Flags(clean).dining <==> clean == "/am-thuc" || StartsWith(clean, "/am-thuc/")
    ensures Flags(clean).facility <==> clean == "/tien-ich" || StartsWith(clean, "/tien-ich/")
    ensures Flags(clean).service <==> clean == "/dich-vu" || StartsWith(clean, "/dich-vu/")
    ensures Flags(clean).offers <==> clean == "/uu-dai" || StartsWith(clean, "/uu-dai/")
  {
    assert "/phong-nghi" + "/" == "/phong-nghi/";
    assert "/am-thuc" + "/" == "/am-thuc/";
    assert "/tien-ich" + "/" == "/tien-ich/";
    assert "/dich-vu" + "/" == "/dich-vu/";
    assert "/uu-dai" + "/" == "/uu-dai/";
  }

  /** The flags in declaration order. */
  function FlagList(f: PageFlags): seq<bool> {
    [f.home, f.about, f.rooms, f.dining, f.facility, f.service, f.policy, f.contact,
     f.booking, f.gallery, f.regulation, f.offers]
  }

  /** The second and third characters of a path, which tell the pages apart. */
  function Signature(clean: string): (r: string)
    ensures |r| == 0 || |r| == 2
  {
    if |clean| >= 3 then [clean[1], clean[2]] else ""
  }

  /** The signature of each page, in flag order. */
  const Signatures: seq<string> := ["", "gi", "ph", "am", "ti", "di", "ch", "li", "da", "th", "no", "uu"]

  lemma SignaturesDistinct()
    ensures forall i, j :: 0 <= i < j < |Signatures| ==> Signatures[i] != Signatures[j]
  {
  }

  /** A path at or below `root` has the signature of `root`. */
  lemma SectionSignature(clean: string, root: string, sig: string)
    requires |root| >= 3 && IsActive(clean, root) && sig == root[1..3]
    ensures Signature(clean) == sig
  {
    ActiveIsPrefix(clean, root);
    assert clean[..|root|] == root;
  }

  /** The signature a single-path page implies. */
  lemma PageSignature(clean: string, i: nat)
    requires i in {0, 1, 6, 7, 8, 9, 10} && FlagList(Flags(clean))[i]
    ensures Signature(clean) == Signatures[i]
  {
    var f := Flags(clean);
    if i == 0 {
      assert f.home;
    } else if i == 1 {
      assert f.about;
      SectionSignature(clean, "/gioi-thieu", "gi");
    } else if i == 6 {
      assert f.policy;
      SectionSignature(clean, "/chinh-sach", "ch");
    } else if i == 7 {
      assert f.contact;
      SectionSignature(clean, "/lien-he", "li");
    } else if i == 8 {
      assert f.booking;
      SectionSignature(clean, "/dat-phong", "da");
    } else if i == 9 {
      assert f.gallery;
      SectionSignature(clean, "/thu-vien-anh", "th");
    } else {
      assert f.regulation;
      SectionSignature(clean, "/noi-quy-khach-san", "no");
    }
  }

  /** The signature a section implies. */
  lemma SectionSignatureOf(clean: string, i: nat)
    requires i in {2, 3, 4, 5, 11} && FlagList(Flags(clean))[i]
    ensures Signature(clean) == Signatures[i]
  {
    var f := Flags(clean);
    if i == 2 {
      assert f.rooms;
      SectionSignature(clean, "/phong-nghi", "ph");
    } else if i == 3 {
      assert f.dining;
      SectionSignature(clean, "/am-thuc", "am");
    } else if i == 4 {
      assert f.facility;
      SectionSignature(clean, "/tien-ich", "ti");
    } else if i == 5 {
      assert f.service;
      SectionSignature(clean, "/dich-vu", "di");
    } else {
      assert f.offers;
      SectionSignature(clean, "/uu-dai", "uu");
    }
  }

  /** A path's signature follows from any flag it sets. */
  lemma FlagSignature(clean: string, i: nat)
    requires i < 12 && FlagList(Flags(clean))[i]
    ensures Signature(clean) == Signatures[i]
  {
    if i in {2, 3, 4, 5, 11} {
      SectionSignatureOf(clean, i);
    } else {
      PageSignature(clean, i);
    }
  }

  /** The path of every page and the root of every section begin with '/' and the two
      characters after it tell them apart, so no path shows two pages. */
  lemma AtMostOnePage(clean: string)
    ensures forall i, j :: 0 <= i < j < 12 ==> !(FlagList(Flags(clean))[i] && FlagList(Flags(clean))[j])
  {
    SignaturesDistinct();
    forall i, j | 0 <= i < j < 12 ensures !(FlagList(Flags(clean))[i] && FlagList(Flags(clean))[j]) {
      if FlagList(Flags(clean))[i] {
        FlagSignature(clean, i);
        if FlagList(Flags(clean))[j] {
          FlagSignature(clean, j);
        }
      }
    }
  }

  /** The page is classified from the clean path, so a localized path shows the same page
      as the path it localizes. */
  lemma FlagsIgnoreLanguage(path: string, i: nat)
    requires StartsWith(path, "/") && NoLineTerminator(path)
    requires i < |SupportedLocales| && SupportedLocales[i] != DefaultLocale
    ensures Flags(ExtractCleanPath(GetLocalizedPath(path, Some(SupportedLocales[i])))) == Flags(path)
  {
    LocalizedPathRoundTrip(path, i);
  }

  /** Only the `k`th flag is set. */
  predicate Only(f: PageFlags, k: nat) {
    forall i :: 0 <= i < 12 ==> (FlagList(f)[i] <==> i == k)
  }

  /** No flag is set: the path is no page. */
  predicate NoPage(f: PageFlags) {
    forall i :: 0 <= i < 12 ==> !FlagList(f)[i]
  }

  /** The flag a path sets is the only one it sets. */
  lemma OnlyPage(clean: string, k: nat)
    requires k < 12 && FlagList(Flags(clean))[k]
    ensures Only(Flags(clean), k)
  {
    AtMostOnePage(clean);
  }

  /** Every clean path shows exactly one page or none, so the cases of `PageTitle` and
      `Vr360Url` cover every path. */
  lemma OnePageOrNone(clean: string)
    ensures NoPage(Flags(clean)) || exists k :: 0 <= k < 12 && Only(Flags(clean), k)
  {
    if !NoPage(Flags(clean)) {
      var k :| 0 <= k < 12 && FlagList(Flags(clean))[k];
      OnlyPage(clean, k);
    }
  }

  /** `Only` and `NoPage` spelled out field by field. */
  lemma FlagsSpelledOut(f: PageFlags)
    ensures forall k :: Only(f, k) ==>
              (f.home <==> k == 0) && (f.about <==> k == 1) && (f.rooms <==> k == 2)
              && (f.dining <==> k == 3) && (f.facility <==> k == 4) && (f.service <==> k == 5)
              && (f.policy <==> k == 6) && (f.contact <==> k == 7) && (f.booking <==> k == 8)
              && (f.gallery <==> k == 9) && (f.regulation <==> k == 10) && (f.offers <==> k == 11)
    ensures NoPage(f) ==>
              !f.home && !f.about && !f.rooms && !f.dining && !f.facility && !f.service
              && !f.policy && !f.contact && !f.booking && !f.gallery && !f.regulation && !f.offers
  {
    var l := FlagList(f);
    forall k | Only(f, k)
      ensures (f.home <==> k == 0) && (f.about <==> k == 1) && (f.rooms <==> k == 2)
              && (f.dining <==> k == 3) && (f.facility <==> k == 4) && (f.service <==> k == 5)
              && (f.policy <==> k == 6) && (f.contact <==> k == 7) && (f.booking <==> k == 8)
              && (f.gallery <==> k == 9) && (f.regulation <==> k == 10) && (f.offers <==> k == 11)
    {
      assert l[0] <==> k == 0;
      assert l[1] <==> k == 1;
      assert l[2] <==> k == 2;
      assert l[3] <==> k == 3;
      assert l[4] <==> k == 4;
      assert l[5] <==> k == 5;
      assert l[6] <==> k == 6;
      assert l[7] <==> k == 7;
      assert l[8] <==> k == 8;
      assert l[9] <==> k == 9;
      assert l[10] <==> k == 10;
      assert l[11] <==> k == 11;
    }
    if NoPage(f) {
      assert !l[0] && !l[1] && !l[2] && !l[3] && !l[4] && !l[5];
      assert !l[6] && !l[7] && !l[8] && !l[9] && !l[10] && !l[11];
    }
  }

  /** `getPageTitle()`: the first post title on the home page, the introduction title or
      the about label on the about page, a fixed label on the policy and regulation pages,
      on a section page its detail title when there is one and its label otherwise, the
      label of the other known pages, and nothing elsewhere. */
  function PageTitle(f: PageFlags, t: Titles, labels: Labels): (r: string)
    ensures Only(f, 0) ==> r == t.firstPostTitle
    ensures Only(f, 1) ==> r == Or(t.introTitle, labels.about)
    ensures Only(f, 2) ==> r == Or(t.roomTitle, labels.rooms)
    ensures Only(f, 3) ==> r == Or(t.diningTitle, labels.dining)
    ensures Only(f, 4) ==> r == Or(t.facilityTitle, labels.facilities)
    ensures Only(f, 5) ==> r == Or(t.serviceTitle, labels.services)
    ensures Only(f, 6) ==> r == labels.policy
    ensures Only(f, 7) ==> r == labels.contact
    ensures Only(f, 8) ==> r == labels.booking
    ensures Only(f, 9) ==> r == labels.gallery
    ensures Only(f, 10) ==> r == labels.regulation
    ensures Only(f, 11) ==> r == Or(t.offerTitle, labels.offers)
    ensures NoPage(f) ==> r == ""
  {
    FlagsSpelledOut(f);
    if f.home then t.firstPostTitle
    else if f.about then Or(t.introTitle, labels.about)
    else if f.policy then labels.policy
    else if f.regulation then labels.regulation
    else if f.rooms && t.roomTitle != "" then t.roomTitle
    else if f.dining && t.diningTitle != "" then t.diningTitle
    else if f.facility && t.facilityTitle != "" then t.facilityTitle
    else if f.service && t.serviceTitle != "" then t.serviceTitle
    else if f.offers && t.offerTitle != "" then t.offerTitle
    else if f.rooms then labels.rooms
    else if f.dining then labels.dining
    else if f.facility then labels.facilities
    else if f.service then labels.services
    else if f.contact then labels.contact
    else if f.booking then labels.booking
    else if f.gallery then labels.gallery
    else if f.offers then labels.offers
    else ""
  }

  /** On a rooms page, a detail title wins over the rooms label. */
  lemma RoomsTitle(clean: string, t: Titles, labels: Labels)
    requires Flags(clean).rooms
    ensures PageTitle(Flags(clean), t, labels) == Or(t.roomTitle, labels.rooms)
  {
    OnlyPage(clean, 2);
  }

  /** The `vr360Url` chain: a page link when the page reports one, for the sections the
      detail link, else the settings link of the section, else the property default. */
  function Vr360Url(f: PageFlags, l: Links): (r: string)
    ensures Only(f, 1) ==> r == Or(l.intro, l.default)
    ensures Only(f, 6) ==> r == Or(l.policy, l.default)
    ensures Only(f, 10) ==> r == Or(l.regulation, l.default)
    ensures Only(f, 7) ==> r == Or(l.contact, l.default)
    ensures Only(f, 2) ==> r == Or(l.roomDetail, Or(l.pageRooms, l.default))
    ensures Only(f, 3) ==> r == Or(l.diningDetail, Or(l.pageDining, l.default))
    ensures Only(f, 5) ==> r == Or(l.serviceDetail, Or(l.pageServices, l.default))
    ensures Only(f, 4) ==> r == Or(l.facilityDetail, Or(l.pageFacilities, l.default))
    ensures Only(f, 11) ==> r == Or(l.offerDetail, Or(l.pageOffers, l.default))
    ensures Only(f, 0) || Only(f, 8) || Only(f, 9) || NoPage(f) ==> r == l.default
  {
    FlagsSpelledOut(f);
    if f.about && l.intro != "" then l.intro
    else if f.policy && l.policy != "" then l.policy
    else if f.regulation && l.regulation != "" then l.regulation
    else if f.contact && l.contact != "" then l.contact
    else if f.rooms then Or(l.roomDetail, Or(l.pageRooms, l.default))
    else if f.dining then Or(l.diningDetail, Or(l.pageDining, l.default))
    else if f.service then Or(l.serviceDetail, Or(l.pageServices, l.default))
    else if f.facility then Or(l.facilityDetail, Or(l.pageFacilities, l.default))
    else if f.offers then Or(l.offerDetail, Or(l.pageOffers, l.default))
    else l.default
  }

  /** On the rooms page the background is the room's detail link, else the rooms link of
      the settings, else the property default. */
  lemma RoomsBackground(clean: string, l: Links)
    requires Flags(clean).rooms
    ensures Vr360Url(Flags(clean), l) == Or(l.roomDetail, Or(l.pageRooms, l.default))
  {
    OnlyPage(clean, 2);
  }

  /** `shouldShowInfoBox`: on desktop the box follows the menu, on mobile it is open while
      the menu is closed. */
  function ShouldShowInfoBox(isDesktop: bool, isMenuExpanded: bool): (r: bool)
    ensures r <==> isDesktop == isMenuExpanded
  {
    if isDesktop then isMenuExpanded else !isMenuExpanded
  }
}
