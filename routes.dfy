/** Language prefixes on URL paths: the default language ('vi') has no prefix, every
    other supported locale is the first path segment (`/en/phong-nghi`). */
module Routes {
  import opened JsStrings
  import opened Seqs

  /** The locale codes the backend serves, in declared order; all lower case except 'zh-TW'. */
  const SupportedLocales: seq<string> := [
    "ar", "de", "en", "es", "fr", "hi", "id", "it", "ja", "ko",
    "ms", "pt", "ru", "ta", "th", "tl", "vi", "yue", "zh", "zh-TW"
  ]

  /** The language whose paths carry no prefix. */
  const DefaultLocale: string := "vi"

  /** The same list lower-cased, used to reason about case-insensitive comparisons. */
  const LowerLocales: seq<string> := [
    "ar", "de", "en", "es", "fr", "hi", "id", "it", "ja", "ko",
    "ms", "pt", "ru", "ta", "th", "tl", "vi", "yue", "zh", "zh-tw"
  ]

  /** `getLocalizedPath(path, lang)`: an absent or empty language, or 'vi', leaves the path
      alone; any other language is put in front as a segment. */
  function GetLocalizedPath(path: string, lang: Option<string>): (r: string)
    ensures |r| >= |path| && r[|r| - |path|..] == path
    ensures lang.None? || lang.value == "" || lang.value == DefaultLocale ==> r == path
    ensures lang.Some? && lang.value != "" && lang.value != DefaultLocale ==> r == "/" + lang.value + path
  {
    if lang.None? || lang.value == "" || lang.value == DefaultLocale then path
    else "/" + lang.value + path
  }

  /** The test `isValidLocale` and `normalizeLocale` apply to each supported code. */
  function SameLocale(code: string): string -> bool {
    l => ToLower(l) == ToLower(code)
  }

  /** `isValidLocale(code)`: some supported code equals `code` ignoring case. */
  predicate IsValidLocale(code: string) {
    exists i :: 0 <= i < |SupportedLocales| && ToLower(SupportedLocales[i]) == ToLower(code)
  }

  /** `normalizeLocale(code)`: the declared spelling of the first supported code equal to
      `code` ignoring case, or `code` itself. */
  function NormalizeLocale(code: string): (r: string)
    ensures IsValidLocale(code) ==> r in SupportedLocales && ToLower(r) == ToLower(code)
    ensures !IsValidLocale(code) ==> r == code
  {
    match Find(SupportedLocales, SameLocale(code))
    case Some(l) => l
    case None => code
  }

  predicate AllLetters(s: string) {
    forall i :: 0 <= i < |s| ==> IsAsciiLetter(s[i])
  }

  /** What the capture group `[a-zA-Z]{2,3}(?:-[a-zA-Z]{2})?` accepts as a whole. */
  predicate LocaleShaped(seg: string) {
    || (2 <= |seg| <= 3 && AllLetters(seg))
    || (5 <= |seg| <= 6 && AllLetters(seg[..|seg| - 3]) && seg[|seg| - 3] == '-'
        && AllLetters(seg[|seg| - 2..]))
  }

  /** The text before the first '/' of `s` (all of `s` when there is none). */
  function Segment(s: string): (r: string)
    ensures |r| <= |s| && r == s[..|r|]
    ensures forall i :: 0 <= i < |r| ==> r[i] != '/'
    ensures |r| < |s| ==> s[|r|] == '/'
  {
    if s == [] || s[0] == '/' then [] else [s[0]] + Segment(s[1..])
  }

  predicate NoLineTerminator(s: string) {
    forall i :: 0 <= i < |s| ==> !IsLineTerminator(s[i])
  }

  /** The locale prefix of `pathname` as both patterns capture it: the whole first segment,
      when the path starts with '/' and that segment has the shape of a supported code.
      A segment followed by anything but '/' or the end cannot be captured, because the
      capture group can neither swallow nor stop before a letter or '-'. */
  function PrefixCandidate(pathname: string): (r: Option<string>)
    ensures r.Some? ==> StartsWith(pathname, "/") && r.value == Segment(pathname[1..])
  {
    if StartsWith(pathname, "/") && LocaleShaped(Segment(pathname[1..]))
    then Some(Segment(pathname[1..]))
    else None
  }

  /** `extractLanguageFromPath(pathname)`: the normalized prefix when it is a supported
      locale, otherwise the default language. */
  function ExtractLanguageFromPath(pathname: string): (r: string)
    ensures r in SupportedLocales
    ensures PrefixCandidate(pathname).None? || !IsValidLocale(PrefixCandidate(pathname).value)
            ==> r == DefaultLocale
    ensures PrefixCandidate(pathname).Some? && IsValidLocale(PrefixCandidate(pathname).value)
            ==> r == NormalizeLocale(PrefixCandidate(pathname).value)
  {
    match PrefixCandidate(pathname)
    case Some(seg) =>
      if IsValidLocale(seg) then NormalizeLocale(seg) else DefaultLocale
    case None => DefaultLocale
  }

  /** `extractCleanPath(pathname)`: drop a supported locale prefix. What follows the prefix
      is kept from its '/' on, or is "/" when nothing follows; a remainder holding a line
      terminator defeats `.*`, and then the pathname comes back unchanged. */
  function ExtractCleanPath(pathname: string): (r: string)
  {
    match PrefixCandidate(pathname)
    case Some(seg) =>
      var after := pathname[1 + |seg|..];
      if !IsValidLocale(seg) then pathname
      else if after == [] || after == "/" then "/"
      else if NoLineTerminator(after[1..]) then after
      else pathname
    case None => pathname
  }

  /** The clean path is the pathname unless it starts with a supported prefix, and a
      bare prefix leaves the root path. */
  lemma ExtractCleanPathCases(pathname: string)
    ensures PrefixCandidate(pathname).None? ==> ExtractCleanPath(pathname) == pathname
    ensures PrefixCandidate(pathname).Some? && !IsValidLocale(PrefixCandidate(pathname).value)
            ==> ExtractCleanPath(pathname) == pathname
    ensures PrefixCandidate(pathname).Some? && IsValidLocale(PrefixCandidate(pathname).value)
            && |pathname| <= 2 + |PrefixCandidate(pathname).value|
            ==> ExtractCleanPath(pathname) == "/"
  {
  }

  /** A path that starts with '/' keeps a leading '/' once its prefix is removed. */
  lemma ExtractCleanPathRooted(pathname: string)
    requires StartsWith(pathname, "/")
    ensures StartsWith(ExtractCleanPath(pathname), "/")
  {
    match PrefixCandidate(pathname)
    case Some(seg) =>
      var after := pathname[1 + |seg|..];
      if after != [] {
        assert 1 + |seg| < |pathname|;
        assert pathname[1..][|seg|] == '/';
      }
    case None =>
  }

  lemma LowerLocalesAgree()
    ensures |LowerLocales| == |SupportedLocales|
    ensures forall i :: 0 <= i < |SupportedLocales| ==> ToLower(SupportedLocales[i]) == LowerLocales[i]
  {
    forall i | 0 <= i < |SupportedLocales|
      ensures ToLower(SupportedLocales[i]) == LowerLocales[i]
    {
      var l := SupportedLocales[i];
      assert |ToLower(l)| == |LowerLocales[i]|;
      forall k | 0 <= k < |l| ensures ToLower(l)[k] == LowerLocales[i][k] {
        assert ToLower(l)[k] == LowerChar(l[k]);
      }
    }
  }

  /** No two supported codes differ only in case. */
  lemma LowerLocalesDistinct()
    ensures forall i, j :: 0 <= i < j < |LowerLocales| ==> LowerLocales[i] != LowerLocales[j]
  {
  }

  /** A code is valid exactly when its lower-cased form is one of the lower-cased
      supported codes. */
  lemma ValidLocaleIgnoresCase(code: string)
    ensures IsValidLocale(code) <==> ToLower(code) in LowerLocales
  {
    LowerLocalesAgree();
    if ToLower(code) in LowerLocales {
      var i :| 0 <= i < |LowerLocales| && LowerLocales[i] == ToLower(code);
      assert ToLower(SupportedLocales[i]) == ToLower(code);
    }
  }

  /** Every supported code is its own normal form. */
  lemma NormalizeSupported(i: nat)
    requires i < |SupportedLocales|
    ensures IsValidLocale(SupportedLocales[i])
    ensures NormalizeLocale(SupportedLocales[i]) == SupportedLocales[i]
  {
    LowerLocalesAgree();
    LowerLocalesDistinct();
    var l := SupportedLocales[i];
    var p := SameLocale(l);
    assert p(SupportedLocales[i]);
    assert forall j :: 0 <= j < i ==> LowerLocales[j] != LowerLocales[i];
    assert forall j :: 0 <= j < i ==> !p(SupportedLocales[j]);
  }

  /** `normalizeLocale` is idempotent. */
  lemma NormalizeLocaleIdempotent(code: string)
    ensures NormalizeLocale(NormalizeLocale(code)) == NormalizeLocale(code)
  {
    if IsValidLocale(code) {
      var r := NormalizeLocale(code);
      var i :| 0 <= i < |SupportedLocales| && SupportedLocales[i] == r;
      NormalizeSupported(i);
    }
  }

  /** Two or three ASCII letters. */
  predicate ShortCode(s: string) {
    (|s| == 2 || |s| == 3) && IsAsciiLetter(s[0]) && IsAsciiLetter(s[1])
    && (|s| == 3 ==> IsAsciiLetter(s[2]))
  }

  lemma ShortCodes()
    ensures forall i :: 0 <= i < 19 ==> ShortCode(SupportedLocales[i])
  {
  }

  lemma SupportedShaped(i: nat)
    requires i < |SupportedLocales|
    ensures LocaleShaped(SupportedLocales[i])
    ensures forall k :: 0 <= k < |SupportedLocales[i]| ==> SupportedLocales[i][k] != '/'
  {
    var l := SupportedLocales[i];
    if i == 19 {
      assert l == "zh-TW";
      assert l[..2] == "zh" && l[3..] == "TW";
    } else {
      ShortCodes();
      assert ShortCode(l);
      assert forall k :: 0 <= k < |l| ==> IsAsciiLetter(l[k]);
    }
  }

  /** The locale put in front by `getLocalizedPath` is the one read back. */
  lemma {:induction false} SegmentOfPrefixed(lang: string, path: string)
    requires forall k :: 0 <= k < |lang| ==> lang[k] != '/'
    requires StartsWith(path, "/")
    ensures Segment(lang + path) == lang
    decreases |lang|
  {
    if lang == [] {
      assert lang + path == path;
    } else {
      assert (lang + path)[0] == lang[0];
      assert (lang + path)[1..] == lang[1..] + path;
      SegmentOfPrefixed(lang[1..], path);
      assert lang == [lang[0]] + lang[1..];
    }
  }

  /** `getLocalizedPath` puts a locale-shaped code where both patterns capture it. */
  lemma PrefixOfLocalizedPath(path: string, lang: string)
    requires StartsWith(path, "/")
    requires lang != "" && lang != DefaultLocale && LocaleShaped(lang)
    requires forall k :: 0 <= k < |lang| ==> lang[k] != '/'
    ensures PrefixCandidate(GetLocalizedPath(path, Some(lang))) == Some(lang)
  {
    var p := GetLocalizedPath(path, Some(lang));
    assert p == "/" + lang + path;
    assert p[1..] == lang + path;
    SegmentOfPrefixed(lang, path);
  }

  /** For a rooted path and a supported language other than the default, the language
      read back from the localized path is that language. */
  lemma LocalizedPathLanguage(path: string, i: nat)
    requires StartsWith(path, "/")
    requires i < |SupportedLocales| && SupportedLocales[i] != DefaultLocale
    ensures ExtractLanguageFromPath(GetLocalizedPath(path, Some(SupportedLocales[i]))) == SupportedLocales[i]
  {
    var lang := SupportedLocales[i];
    NormalizeSupported(i);
    SupportedShaped(i);
    PrefixOfLocalizedPath(path, lang);
  }

  /** A valid locale put in front of a rooted path is taken off again. */
  lemma CleanOfPrefixed(path: string, lang: string)
    requires StartsWith(path, "/") && NoLineTerminator(path)
    requires lang != "" && lang != DefaultLocale && LocaleShaped(lang) && IsValidLocale(lang)
    requires forall k :: 0 <= k < |lang| ==> lang[k] != '/'
    ensures ExtractCleanPath(GetLocalizedPath(path, Some(lang))) == path
  {
    PrefixOfLocalizedPath(path, lang);
    var p := GetLocalizedPath(path, Some(lang));
    assert p == "/" + lang + path;
    var after := p[1 + |lang|..];
    assert after == path;
    if after != [] && after != "/" {
      assert NoLineTerminator(after[1..]);
    }
  }

  /** Removing the prefix that `getLocalizedPath` added gives the original rooted path
      back (a URL path never holds a raw line terminator). */
  lemma LocalizedPathRoundTrip(path: string, i: nat)
    requires StartsWith(path, "/") && NoLineTerminator(path)
    requires i < |SupportedLocales| && SupportedLocales[i] != DefaultLocale
    ensures ExtractCleanPath(GetLocalizedPath(path, Some(SupportedLocales[i]))) == path
  {
    NormalizeSupported(i);
    SupportedShaped(i);
    CleanOfPrefixed(path, SupportedLocales[i]);
  }
}
