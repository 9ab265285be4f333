/** The site header: which menu entries are shown, which one is highlighted for the
    current path, and the language menu with its path-preserving language switch. */
module Header {
  import opened JsStrings
  import opened Seqs
  import opened Routes

  /** One navigation entry. */
  datatype MenuItem = MenuItem(path: string, caption: string)

  /** The menu labels of the active locale. */
  datatype MenuLabels = MenuLabels(
    about: string, rooms: string, dining: string, facilities: string,
    services: string, policy: string, contact: string)

  /** A language the backend offers. */
  datatype Language = Language(code: string, name: string)

  /** The page visibility settings of the hotel, by page key. A key that is absent stands
      for a page without settings, and `None` for settings without `is_displaying`. */
  type PageSettings = map<string, Option<bool>>

  /** The menu paths that have a page key in the hotel settings. */
  const PageKeyMap: map<string, string> := map[
    "/phong-nghi" := "rooms", "/am-thuc" := "dining", "/tien-ich" := "facilities",
    "/dich-vu" := "services", "/uu-dai" := "offers"
  ]

  /** The menu paths in menu order. */
  const MenuPaths: seq<string> := [
    "/gioi-thieu", "/phong-nghi", "/am-thuc", "/tien-ich", "/dich-vu", "/chinh-sach", "/lien-he"
  ]

  /** Every menu entry, in menu order, labelled for the active locale. */
  function AllItems(t: MenuLabels): (r: seq<MenuItem>)
    ensures |r| == |MenuPaths|
    ensures forall i :: 0 <= i < |r| ==> r[i].path == MenuPaths[i]
  {
    [ MenuItem("/gioi-thieu", t.about), MenuItem("/phong-nghi", t.rooms),
      MenuItem("/am-thuc", t.dining), MenuItem("/tien-ich", t.facilities),
      MenuItem("/dich-vu", t.services), MenuItem("/chinh-sach", t.policy),
      MenuItem("/lien-he", t.contact) ]
  }

  /** An entry is hidden only when its path has a page key whose settings say
      `is_displaying: false`; missing settings and a missing flag both show it. */
  predicate Displayed(pages: PageSettings, item: MenuItem) {
    !(item.path in PageKeyMap && PageKeyMap[item.path] in pages
      && pages[PageKeyMap[item.path]] == Some(false))
  }

  function Shown(pages: PageSettings): MenuItem -> bool {
    (item: MenuItem) => Displayed(pages, item)
  }

  /** The filter of the `menuItems` memo over a list of entries: all of them when the
      hotel has no page settings, otherwise the displayed ones. */
  function VisibleItems(items: seq<MenuItem>, pages: Option<PageSettings>): (r: seq<MenuItem>)
    ensures pages.None? ==> r == items
    ensures pages.Some? ==> forall i :: 0 <= i < |r| ==> Displayed(pages.value, r[i]) && r[i] in items
    ensures pages.Some? ==> forall i :: 0 <= i < |items| && Displayed(pages.value, items[i]) ==> items[i] in r
    ensures |r| <= |items|
  {
    if pages.None? then items
    else
      var r := Filter(items, Shown(pages.value));
      assert forall i :: 0 <= i < |items| && Displayed(pages.value, items[i]) ==> Shown(pages.value)(items[i]);
      r
  }

  /** `menuItems`: the menu entries of the active locale that the hotel displays. */
  function MenuItems(t: MenuLabels, pages: Option<PageSettings>): (r: seq<MenuItem>)
    ensures |r| <= |MenuPaths|
  {
    VisibleItems(AllItems(t), pages)
  }

  /** The position of a menu path in the menu. */
  function PathRank(item: MenuItem): int {
    match FindIndex(MenuPaths, (p: string) => p == item.path)
    case Some(k) => k
    case None => |MenuPaths|
  }

  lemma MenuPathsDistinct()
    ensures forall i, j :: 0 <= i < j < |MenuPaths| ==> MenuPaths[i] != MenuPaths[j]
  {
  }

  lemma RankOfMenuPath(i: nat)
    requires i < |MenuPaths|
    ensures PathRank(MenuItem(MenuPaths[i], "")) == i
  {
    MenuPathsDistinct();
    var p := (q: string) => q == MenuPaths[i];
    assert forall j :: 0 <= j < i ==> !p(MenuPaths[j]);
  }

  /** The entries are listed in menu order. */
  lemma AllItemsRanked(t: MenuLabels)
    ensures Increasing(AllItems(t), PathRank)
  {
    var all := AllItems(t);
    forall i | 0 <= i < |all| ensures PathRank(all[i]) == i {
      RankOfMenuPath(i);
      assert PathRank(all[i]) == PathRank(MenuItem(MenuPaths[i], ""));
    }
  }

  /** Filtering keeps the entries in menu order. */
  lemma MenuKeepsOrder(t: MenuLabels, pages: Option<PageSettings>)
    ensures forall i, j :: 0 <= i < j < |MenuItems(t, pages)|
                           ==> PathRank(MenuItems(t, pages)[i]) < PathRank(MenuItems(t, pages)[j])
  {
    AllItemsRanked(t);
    if pages.Some? {
      FilterKeepsOrder(AllItems(t), Shown(pages.value), PathRank);
    }
    assert Increasing(MenuItems(t, pages), PathRank);
  }

  /** The entries without a page key (about, policy, contact) are always in the menu. */
  lemma UnmappedItemsKept(t: MenuLabels, pages: Option<PageSettings>, i: nat)
    requires i < |MenuPaths| && MenuPaths[i] !in PageKeyMap
    ensures AllItems(t)[i] in MenuItems(t, pages)
  {
  }

  /** A mapped entry is dropped exactly when its page's `is_displaying` is `false`. */
  lemma MappedItemShownUnlessFalse(t: MenuLabels, pages: PageSettings, i: nat)
    requires i < |MenuPaths| && MenuPaths[i] in PageKeyMap
    ensures AllItems(t)[i] in MenuItems(t, Some(pages))
            <==> !(PageKeyMap[MenuPaths[i]] in pages && pages[PageKeyMap[MenuPaths[i]]] == Some(false))
  {
  }

  /** `isActive(path)`: the current pathname is the entry's path or lies below it. */
  predicate IsActive(pathname: string, path: string) {
    pathname == path || StartsWith(pathname, path + "/")
  }

  /** An active entry's path is a prefix of the pathname. */
  lemma ActiveIsPrefix(pathname: string, path: string)
    requires IsActive(pathname, path)
    ensures StartsWith(pathname, path)
  {
    if pathname != path {
      assert pathname[..|path|] == (path + "/")[..|path|];
    }
  }

  /** A pathname that continues the entry's path with anything but '/' does not activate
      it: '/phong-nghi-x' is not under '/phong-nghi'. */
  lemma SiblingNotActive(pathname: string, path: string)
    requires |pathname| > |path| && StartsWith(pathname, path) && pathname[|path|] != '/'
    ensures !IsActive(pathname, path)
  {
  }

  /** Every page below the entry's path activates it. */
  lemma SubpageActive(path: string, rest: string)
    ensures IsActive(path + "/" + rest, path)
  {
    assert (path + "/" + rest)[..|path + "/"|] == path + "/";
  }

  lemma RoomsSiblingExample()
    ensures !IsActive("/phong-nghi-x", "/phong-nghi")
    ensures IsActive("/phong-nghi/deluxe", "/phong-nghi")
  {
    SiblingNotActive("/phong-nghi-x", "/phong-nghi");
    SubpageActive("/phong-nghi", "deluxe");
    assert "/phong-nghi" + "/" + "deluxe" == "/phong-nghi/deluxe";
  }

  function OtherThan(current: Language): Language -> bool {
    (l: Language) => l.code != current.code
  }

  /** The language menu: every offered language except the current one, in the offered
      order. */
  function LanguageMenu(available: seq<Language>, current: Language): (r: seq<Language>)
    ensures forall i :: 0 <= i < |r| ==> r[i].code != current.code
    ensures forall i :: 0 <= i < |r| ==> r[i] in available
    ensures forall i :: 0 <= i < |available| && available[i].code != current.code ==> available[i] in r
    ensures |r| <= |available|
  {
    Filter(available, OtherThan(current))
  }

  /** The language menu keeps the offered order: the menu of two runs of languages is
      the menu of the first followed by the menu of the second. */
  lemma LanguageMenuKeepsOrder(a: seq<Language>, b: seq<Language>, current: Language)
    ensures LanguageMenu(a + b, current) == LanguageMenu(a, current) + LanguageMenu(b, current)
  {
    FilterConcat(a, b, OtherThan(current));
  }

  /** One offered language is in the menu exactly when it is not the current one. */
  lemma LanguageMenuOfOne(l: Language, current: Language)
    ensures LanguageMenu([l], current) == (if l.code != current.code then [l] else [])
  {
    assert [l][1..] == [];
  }

  /** `handleLanguageChange`: the path the app navigates to, the current page without its
      language prefix, localized for the chosen language. */
  function LanguageChangePath(pathname: string, lang: Language): (r: string)
    ensures lang.code == "" || lang.code == DefaultLocale ==> r == ExtractCleanPath(pathname)
    ensures lang.code != "" && lang.code != DefaultLocale ==> r == "/" + lang.code + ExtractCleanPath(pathname)
  {
    GetLocalizedPath(ExtractCleanPath(pathname), Some(lang.code))
  }

  /** Switching language on a localized page keeps the page and changes only the prefix,
      and the new path is read back as the chosen language. */
  lemma LanguageSwitchKeepsPage(path: string, i: nat, j: nat, name: string)
    requires StartsWith(path, "/") && NoLineTerminator(path)
    requires i < |SupportedLocales| && SupportedLocales[i] != DefaultLocale
    requires j < |SupportedLocales|
    ensures LanguageChangePath(GetLocalizedPath(path, Some(SupportedLocales[i])), Language(SupportedLocales[j], name))
            == GetLocalizedPath(path, Some(SupportedLocales[j]))
    ensures ExtractLanguageFromPath(LanguageChangePath(GetLocalizedPath(path, Some(SupportedLocales[i])),
                                                       Language(SupportedLocales[j], name)))
            == (if SupportedLocales[j] == DefaultLocale
                then ExtractLanguageFromPath(path) else SupportedLocales[j])
  {
    LocalizedPathRoundTrip(path, i);
    if SupportedLocales[j] != DefaultLocale {
      LocalizedPathLanguage(path, j);
    }
  }

  /** Switching language on a page without a language prefix (a page in the default
      language, or one whose first segment is not a supported code) keeps the page and
      puts the chosen language in front; the new path is read back as that language. */
  lemma LanguageSwitchFromUnprefixedPage(path: string, j: nat, name: string)
    requires StartsWith(path, "/")
    requires PrefixCandidate(path).None? || !IsValidLocale(PrefixCandidate(path).value)
    requires j < |SupportedLocales|
    ensures LanguageChangePath(path, Language(SupportedLocales[j], name))
            == GetLocalizedPath(path, Some(SupportedLocales[j]))
    ensures ExtractLanguageFromPath(LanguageChangePath(path, Language(SupportedLocales[j], name)))
            == SupportedLocales[j]
  {
    ExtractCleanPathCases(path);
    if SupportedLocales[j] != DefaultLocale {
      LocalizedPathLanguage(path, j);
    }
  }
}
